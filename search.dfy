/**
 * The match engine of search.go: `getPkgMatches` ranks the server's package
 * names against a search term, and the `href` normalisation applied to every
 * name scraped from the /pkg page.
 */
module Search {
  import opened Text

  /** The rule of getPkgMatches' if-chain that an entry falls under; the first rule that applies wins. */
  datatype Bucket = ExactHit | SuffixHit | PrefixHit | ContainsHit | NoHit

  function Classify(pkg: string, s: string): (b: Bucket)
    ensures b == ExactHit <==> pkg == s
    ensures b == SuffixHit <==> pkg != s && HasSuffix(pkg, s)
    ensures b == PrefixHit <==> pkg != s && !HasSuffix(pkg, s) && HasPrefix(pkg, s)
    ensures b == ContainsHit <==> pkg != s && !HasSuffix(pkg, s) && !HasPrefix(pkg, s) && Contains(pkg, s)
  {
    if pkg == s then ExactHit
    else if HasSuffix(pkg, s) then SuffixHit
    else if HasPrefix(pkg, s) then PrefixHit
    else if Contains(pkg, s) then ContainsHit
    else NoHit
  }

  /** The entries of `pkgs` that land in bucket `b`, in input order (one of the three slices). */
  function Bucketed(pkgs: seq<string>, s: string, b: Bucket): seq<string>
    decreases |pkgs|
  {
    if pkgs == [] then []
    else Bucketed(pkgs[..|pkgs| - 1], s, b) + (if Classify(pkgs[|pkgs| - 1], s) == b then [pkgs[|pkgs| - 1]] else [])
  }

  /** Appending an entry to the list appends it to its own bucket and to no other. */
  lemma BucketedSnoc(pkgs: seq<string>, pkg: string, s: string, b: Bucket)
    ensures Bucketed(pkgs + [pkg], s, b) == Bucketed(pkgs, s, b) + (if Classify(pkg, s) == b then [pkg] else [])
  {
    assert (pkgs + [pkg])[..|pkgs|] == pkgs;
  }

  /** A bucket holds each entry of its kind as often as the list does. */
  lemma {:induction false} BucketedCount(pkgs: seq<string>, s: string, b: Bucket, x: string)
    ensures multiset(Bucketed(pkgs, s, b))[x] == if Classify(x, s) == b then multiset(pkgs)[x] else 0
    decreases |pkgs|
  {
    if pkgs != [] {
      var init, last := pkgs[..|pkgs| - 1], pkgs[|pkgs| - 1];
      assert pkgs == init + [last];
      BucketedCount(init, s, b, x);
    }
  }

  /** A match of getPkgMatches: an entry other than the term that contains the term. */
  predicate IsCandidate(pkg: string, s: string) {
    pkg != s && Contains(pkg, s)
  }

  /** How many entries of `pkgs` equal `x` and are candidates for `s`. */
  function CandidateCount(pkgs: seq<string>, s: string, x: string): nat {
    if IsCandidate(x, s) then multiset(pkgs)[x] else 0
  }

  /** The three buckets together hold exactly the candidates, each as often as the input does. */
  lemma BucketsPartitionCandidates(pkgs: seq<string>, s: string, x: string)
    ensures multiset(Bucketed(pkgs, s, SuffixHit))[x] + multiset(Bucketed(pkgs, s, PrefixHit))[x]
            + multiset(Bucketed(pkgs, s, ContainsHit))[x] == CandidateCount(pkgs, s, x)
  {
    BucketedCount(pkgs, s, SuffixHit, x);
    BucketedCount(pkgs, s, PrefixHit, x);
    BucketedCount(pkgs, s, ContainsHit, x);
    if Classify(x, s) == SuffixHit { SuffixContains(x, s); }
    if Classify(x, s) == PrefixHit { OccurrenceContains(x, s, 0); }
  }

  /** The result pair of getPkgMatches. */
  datatype Matches = Matches(list: seq<string>, exact: bool)

  /**
   * What getPkgMatches returns: nothing for an empty term or list; otherwise the
   * term itself if some entry equals it, then the sorted suffix, prefix and
   * contains buckets.
   */
  function PkgMatches(pkgs: seq<string>, s: string): Matches {
    if |s| == 0 || |pkgs| == 0 then Matches([], false)
    else
      var exact := s in pkgs;
      Matches((if exact then [s] else []) + Ranked(pkgs, s), exact)
  }

  /** The non-exact part of the result: the three buckets, each sorted, in rule order. */
  function Ranked(pkgs: seq<string>, s: string): seq<string> {
    SortStrings(Bucketed(pkgs, s, SuffixHit))
    + SortStrings(Bucketed(pkgs, s, PrefixHit))
    + SortStrings(Bucketed(pkgs, s, ContainsHit))
  }

  /** getPkgMatches: one pass that fills three buckets, three sorts, and the concatenation. */
  method GetPkgMatches(pkgs: seq<string>, s: string) returns (matches: seq<string>, exactMatch: bool)
    ensures Matches(matches, exactMatch) == PkgMatches(pkgs, s)
  {
    matches, exactMatch := [], false;
    if |s| == 0 || |pkgs| == 0 {
      return;
    }
    var sufMatches, preMatches, containMatches := [], [], [];
    for i := 0 to |pkgs|
      invariant exactMatch == (s in pkgs[..i])
      invariant sufMatches == Bucketed(pkgs[..i], s, SuffixHit)
      invariant preMatches == Bucketed(pkgs[..i], s, PrefixHit)
      invariant containMatches == Bucketed(pkgs[..i], s, ContainsHit)
    {
      var pkg := pkgs[i];
      assert pkgs[..i + 1] == pkgs[..i] + [pkg];
      BucketedSnoc(pkgs[..i], pkg, s, SuffixHit);
      BucketedSnoc(pkgs[..i], pkg, s, PrefixHit);
      BucketedSnoc(pkgs[..i], pkg, s, ContainsHit);
      if pkg == s {
        exactMatch := true;
        continue;
      }
      if HasSuffix(pkg, s) {
        sufMatches := sufMatches + [pkg];
        continue;
      }
      if HasPrefix(pkg, s) {
        preMatches := preMatches + [pkg];
        continue;
      }
      if Contains(pkg, s) {
        containMatches := containMatches + [pkg];
      }
    }
    assert pkgs[..|pkgs|] == pkgs;
    ghost var head := if exactMatch then [s] else [];
    sufMatches := SortStrings(sufMatches);
    preMatches := SortStrings(preMatches);
    containMatches := SortStrings(containMatches);
    if exactMatch {
      matches := matches + [s];
    }
    assert matches == head;
    matches := matches + sufMatches;
    matches := matches + preMatches;
    matches := matches + containMatches;
    AppendAssociates(head, sufMatches, preMatches, containMatches);
  }

  lemma AppendAssociates(h: seq<string>, a: seq<string>, b: seq<string>, c: seq<string>)
    ensures h + a + b + c == h + (a + b + c)
  {
  }

  // ---------------------------------------------------------------------------
  // Properties of the match result
  // ---------------------------------------------------------------------------

  /** An empty term or an empty list gives no matches and no exact hit. */
  lemma EmptyInputsNoMatches(pkgs: seq<string>, s: string)
    requires |s| == 0 || |pkgs| == 0
    ensures PkgMatches(pkgs, s).list == [] && !PkgMatches(pkgs, s).exact
  {
  }

  /** `exact` holds exactly when the term is non-empty and some entry equals it. */
  lemma ExactIffPresent(pkgs: seq<string>, s: string)
    ensures PkgMatches(pkgs, s).exact <==> |s| > 0 && exists k :: 0 <= k < |pkgs| && pkgs[k] == s
  {
  }

  /** The number of leading entries that are the exact hit. */
  function HeadLength(m: Matches): nat {
    if m.exact then 1 else 0
  }

  /**
   * Every element past the exact head is a genuine candidate: it differs from
   * the term and contains it. So an entry not containing the term never shows up.
   */
  lemma TailEntriesAreCandidates(pkgs: seq<string>, s: string)
    ensures var m := PkgMatches(pkgs, s);
      HeadLength(m) <= |m.list| &&
      forall k :: HeadLength(m) <= k < |m.list| ==> IsCandidate(m.list[k], s)
  {
    if |s| > 0 && |pkgs| > 0 {
      var h := if s in pkgs then [s] else [];
      RankedCandidates(pkgs, s);
      CandidatesAfter(h, Ranked(pkgs, s), s);
    }
  }

  lemma CandidatesAfter(h: seq<string>, tail: seq<string>, s: string)
    requires AllCandidates(tail, s)
    ensures forall k :: |h| <= k < |h + tail| ==> IsCandidate((h + tail)[k], s)
  {
    forall k | |h| <= k < |h + tail| ensures IsCandidate((h + tail)[k], s) {
      assert (h + tail)[k] == tail[k - |h|];
    }
  }

  lemma RankedCandidates(pkgs: seq<string>, s: string)
    ensures AllCandidates(Ranked(pkgs, s), s)
  {
    var suf := SortStrings(Bucketed(pkgs, s, SuffixHit));
    var pre := SortStrings(Bucketed(pkgs, s, PrefixHit));
    var con := SortStrings(Bucketed(pkgs, s, ContainsHit));
    RegionCandidates(pkgs, s, SuffixHit);
    RegionCandidates(pkgs, s, PrefixHit);
    RegionCandidates(pkgs, s, ContainsHit);
    AllCandidatesConcat(suf, pre, s);
    AllCandidatesConcat(suf + pre, con, s);
  }

  predicate AllCandidates(xs: seq<string>, s: string) {
    forall k :: 0 <= k < |xs| ==> IsCandidate(xs[k], s)
  }

  lemma AllCandidatesConcat(a: seq<string>, b: seq<string>, s: string)
    requires AllCandidates(a, s) && AllCandidates(b, s)
    ensures AllCandidates(a + b, s)
  {
    forall k | 0 <= k < |a + b| ensures IsCandidate((a + b)[k], s) {
      if k >= |a| { assert (a + b)[k] == b[k - |a|]; }
    }
  }

  /** Each of the three sorted buckets consists of candidates only. */
  lemma RegionCandidates(pkgs: seq<string>, s: string, b: Bucket)
    requires b == SuffixHit || b == PrefixHit || b == ContainsHit
    ensures AllCandidates(SortStrings(Bucketed(pkgs, s, b)), s)
  {
    var r := SortStrings(Bucketed(pkgs, s, b));
    BucketRegion(pkgs, s, b);
    forall k | 0 <= k < |r| ensures IsCandidate(r[k], s) {
      if b == SuffixHit { SuffixContains(r[k], s); }
      if b == PrefixHit { OccurrenceContains(r[k], s, 0); }
    }
  }

  /**
   * The result holds the exact hit (once, when there is one) and every
   * candidate entry as many times as the input has it, and nothing else.
   * Duplicate non-exact entries are kept; copies of the term collapse to one.
   */
  lemma MatchesMultiset(pkgs: seq<string>, s: string)
    requires |s| > 0 && |pkgs| > 0
    ensures forall x :: multiset(PkgMatches(pkgs, s).list)[x]
              == (if x == s && s in pkgs then 1 else 0) + CandidateCount(pkgs, s, x)
  {
    forall x ensures multiset(PkgMatches(pkgs, s).list)[x]
              == (if x == s && s in pkgs then 1 else 0) + CandidateCount(pkgs, s, x)
    {
      BucketsPartitionCandidates(pkgs, s, x);
    }
  }

  /** With an exact hit the term comes first and appears exactly once, however often the input lists it. */
  lemma ExactHitFirstAndOnce(pkgs: seq<string>, s: string)
    requires PkgMatches(pkgs, s).exact
    ensures |PkgMatches(pkgs, s).list| >= 1 && PkgMatches(pkgs, s).list[0] == s
    ensures multiset(PkgMatches(pkgs, s).list)[s] == 1
  {
    MatchesMultiset(pkgs, s);
  }

  /** The number of candidate entries of `pkgs`, duplicates included. */
  function CountCandidates(pkgs: seq<string>, s: string): nat
    decreases |pkgs|
  {
    if pkgs == [] then 0
    else CountCandidates(pkgs[..|pkgs| - 1], s) + (if IsCandidate(pkgs[|pkgs| - 1], s) then 1 else 0)
  }

  lemma {:induction false} BucketLengths(pkgs: seq<string>, s: string)
    ensures |Bucketed(pkgs, s, SuffixHit)| + |Bucketed(pkgs, s, PrefixHit)| + |Bucketed(pkgs, s, ContainsHit)|
            == CountCandidates(pkgs, s)
    decreases |pkgs|
  {
    if pkgs != [] {
      var last := pkgs[|pkgs| - 1];
      BucketLengths(pkgs[..|pkgs| - 1], s);
      assert Bucketed(pkgs, s, SuffixHit) == Bucketed(pkgs[..|pkgs| - 1], s, SuffixHit) + (if Classify(last, s) == SuffixHit then [last] else []);
      if Classify(last, s) == SuffixHit { SuffixContains(last, s); }
      if Classify(last, s) == PrefixHit { OccurrenceContains(last, s, 0); }
    }
  }

  /** The output length is one for the exact hit plus one per candidate entry. */
  lemma MatchesLength(pkgs: seq<string>, s: string)
    requires |s| > 0
    ensures |PkgMatches(pkgs, s).list| == HeadLength(PkgMatches(pkgs, s)) + CountCandidates(pkgs, s)
  {
    if |pkgs| > 0 {
      BucketLengths(pkgs, s);
      var m := PkgMatches(pkgs, s);
      assert |multiset(SortStrings(Bucketed(pkgs, s, SuffixHit)))| == |Bucketed(pkgs, s, SuffixHit)|;
      assert |multiset(SortStrings(Bucketed(pkgs, s, PrefixHit)))| == |Bucketed(pkgs, s, PrefixHit)|;
      assert |multiset(SortStrings(Bucketed(pkgs, s, ContainsHit)))| == |Bucketed(pkgs, s, ContainsHit)|;
    }
  }

  /**
   * The layout of the result: the exact head, then the suffix region, the
   * prefix region and the contains region, each sorted ascending, each entry
   * of a region satisfying that region's rule and none of the earlier ones.
   */
  lemma {:induction false} MatchesLayout(pkgs: seq<string>, s: string)
    requires |s| > 0 && |pkgs| > 0
    ensures var m := PkgMatches(pkgs, s);
      var suf := SortStrings(Bucketed(pkgs, s, SuffixHit));
      var pre := SortStrings(Bucketed(pkgs, s, PrefixHit));
      var con := SortStrings(Bucketed(pkgs, s, ContainsHit));
      && m.list == (if m.exact then [s] else []) + (suf + pre + con)
      && Sorted(suf) && Sorted(pre) && Sorted(con)
      && (forall k :: 0 <= k < |suf| ==> suf[k] != s && HasSuffix(suf[k], s))
      && (forall k :: 0 <= k < |pre| ==> pre[k] != s && !HasSuffix(pre[k], s) && HasPrefix(pre[k], s))
      && (forall k :: 0 <= k < |con| ==> con[k] != s && !HasSuffix(con[k], s) && !HasPrefix(con[k], s) && Contains(con[k], s))
  {
    BucketRegion(pkgs, s, SuffixHit);
    BucketRegion(pkgs, s, PrefixHit);
    BucketRegion(pkgs, s, ContainsHit);
  }

  /** Sorting a bucket keeps every element in that bucket. */
  lemma BucketRegion(pkgs: seq<string>, s: string, b: Bucket)
    ensures forall k :: 0 <= k < |SortStrings(Bucketed(pkgs, s, b))| ==> Classify(SortStrings(Bucketed(pkgs, s, b))[k], s) == b
  {
    var r := SortStrings(Bucketed(pkgs, s, b));
    forall k | 0 <= k < |r| ensures Classify(r[k], s) == b {
      assert r[k] in multiset(r);
      BucketedCount(pkgs, s, b, r[k]);
    }
  }

  /** The result depends only on which names the list holds, not on their order. */
  lemma MatchesIgnoreListOrder(p1: seq<string>, p2: seq<string>, s: string)
    requires multiset(p1) == multiset(p2)
    ensures PkgMatches(p1, s) == PkgMatches(p2, s)
  {
    assert |p1| == |multiset(p1)| == |p2|;
    assert (s in p1) == (s in multiset(p1)) == (s in p2);
    SameBucketSorted(p1, p2, s, SuffixHit);
    SameBucketSorted(p1, p2, s, PrefixHit);
    SameBucketSorted(p1, p2, s, ContainsHit);
  }

  lemma SameBucketSorted(p1: seq<string>, p2: seq<string>, s: string, b: Bucket)
    requires multiset(p1) == multiset(p2)
    ensures SortStrings(Bucketed(p1, s, b)) == SortStrings(Bucketed(p2, s, b))
  {
    forall x ensures multiset(Bucketed(p1, s, b))[x] == multiset(Bucketed(p2, s, b))[x] {
      BucketedCount(p1, s, b, x);
      BucketedCount(p2, s, b, x);
    }
    assert multiset(Bucketed(p1, s, b)) == multiset(Bucketed(p2, s, b));
    SortedUnique(SortStrings(Bucketed(p1, s, b)), SortStrings(Bucketed(p2, s, b)));
  }

  // ---------------------------------------------------------------------------
  // href normalisation in scrapePkgPage
  // ---------------------------------------------------------------------------

  /** strings.TrimSuffix(v, "/"): a link such as "encoding/json/" becomes "encoding/json". */
  function TrimSlash(v: string): (r: string)
    ensures v == r || v == r + "/"
    ensures !HasSuffix(v, "/") ==> r == v
    ensures HasSuffix(v, "/") ==> r + "/" == v
  {
    if HasSuffix(v, "/") then v[..|v| - 1] else v
  }

  /** Only one slash goes: a value ending in two keeps the second-last. */
  lemma TrimSlashRemovesOne(v: string)
    ensures |v| - 1 <= |TrimSlash(v)| <= |v|
    ensures HasSuffix(v, "//") ==> HasSuffix(TrimSlash(v), "/")
  {
  }

  // ---------------------------------------------------------------------------
  // Worked examples
  // ---------------------------------------------------------------------------

  /** The three-name index: "byt" only prefixes "bytes", so it is the single (non-exact) match. */
  lemma ExamplePrefixMatch(pkgs: seq<string>, s: string)
    requires pkgs == ["bytes", "encoding/json", "github.com/neilotoole/gohdoc"] && s == "byt"
    ensures PkgMatches(pkgs, s) == Matches(["bytes"], false)
  {
    var x, y, z := pkgs[0], pkgs[1], pkgs[2];
    assert pkgs == [x, y, z];
    ExampleBytesPrefix(x, s);
    ExampleNoHit(y, s);
    ExampleNoHitLong(z, s);
    OnlyFirstPrefixes(x, y, z, s);
  }

  /** A three-name list whose only match is a non-exact prefix match on its first name. */
  lemma OnlyFirstPrefixes(x: string, y: string, z: string, s: string)
    requires |s| > 0
    requires Classify(x, s) == PrefixHit && Classify(y, s) == NoHit && Classify(z, s) == NoHit
    ensures PkgMatches([x, y, z], s) == Matches([x], false)
  {
    assert Bucketed([x, y, z], s, SuffixHit) == [] by { BucketedThree(x, y, z, s, SuffixHit); }
    assert Bucketed([x, y, z], s, PrefixHit) == [x] by { BucketedThree(x, y, z, s, PrefixHit); }
    assert Bucketed([x, y, z], s, ContainsHit) == [] by { BucketedThree(x, y, z, s, ContainsHit); }
    assert s !in [x, y, z];
    assert SortStrings([x]) == [x];
  }

  lemma ExampleBytesPrefix(p: string, s: string)
    requires p == "bytes" && s == "byt"
    ensures Classify(p, s) == PrefixHit
  {
  }

  lemma BucketedThree(x: string, y: string, z: string, s: string, b: Bucket)
    ensures Bucketed([x, y, z], s, b) == (if Classify(x, s) == b then [x] else [])
      + (if Classify(y, s) == b then [y] else []) + (if Classify(z, s) == b then [z] else [])
  {
    BucketedSnoc([], x, s, b);
    assert [] + [x] == [x];
    BucketedSnoc([x], y, s, b);
    assert [x] + [y] == [x, y];
    BucketedSnoc([x, y], z, s, b);
    assert [x, y] + [z] == [x, y, z];
  }

  lemma ExampleNoHit(pkg: string, s: string)
    requires 'y' !in pkg && s == "byt"
    ensures Classify(pkg, s) == NoHit
  {
    MissingCharNotContains(pkg, s, 1);
  }

  lemma ExampleNoHitLong(pkg: string, s: string)
    requires pkg == "github.com/neilotoole/gohdoc" && s == "byt"
    ensures Classify(pkg, s) == NoHit
  {
    ExampleNoHit(pkg, s);
  }

  /** A name that equals the term is reported as the exact hit and nothing else. */
  lemma ExampleExactMatch()
    ensures PkgMatches(["fmt"], "fmt") == Matches(["fmt"], true)
  {
    assert ["fmt"][..0] == [];
    assert Bucketed(["fmt"], "fmt", SuffixHit) == [];
    assert Bucketed(["fmt"], "fmt", PrefixHit) == [];
    assert Bucketed(["fmt"], "fmt", ContainsHit) == [];
  }
}
