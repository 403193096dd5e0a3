/**
 * The parts of Go's `strings`, `sort`, `strconv` and `fmt` packages that the
 * package-resolution code leans on, written over `string` (a sequence of
 * Unicode scalar values).
 */
module Text {

  /** strings.HasPrefix */
  predicate HasPrefix(s: string, prefix: string) {
    |prefix| <= |s| && s[..|prefix|] == prefix
  }

  /** strings.HasSuffix */
  predicate HasSuffix(s: string, suffix: string) {
    |suffix| <= |s| && s[|s| - |suffix|..] == suffix
  }

  /** strings.Contains: `sub` occurs somewhere in `s` (the empty string occurs everywhere). */
  predicate Contains(s: string, sub: string)
    decreases |s|
  {
    HasPrefix(s, sub) || (|s| > 0 && Contains(s[1..], sub))
  }

  /** An occurrence of `sub` at index `i` proves `Contains`. */
  lemma {:induction false} OccurrenceContains(s: string, sub: string, i: nat)
    requires i + |sub| <= |s| && s[i..i + |sub|] == sub
    ensures Contains(s, sub)
    decreases i
  {
    if i > 0 {
      assert s[1..][i - 1..i - 1 + |sub|] == s[i..i + |sub|];
      OccurrenceContains(s[1..], sub, i - 1);
    }
  }

  /** `Contains` means an occurrence at some index. */
  lemma {:induction false} ContainsOccurrence(s: string, sub: string) returns (i: nat)
    requires Contains(s, sub)
    ensures i + |sub| <= |s| && s[i..i + |sub|] == sub
    decreases |s|
  {
    if HasPrefix(s, sub) {
      i := 0;
    } else {
      var j := ContainsOccurrence(s[1..], sub);
      assert s[1..][j..j + |sub|] == s[j + 1..j + 1 + |sub|];
      i := j + 1;
    }
  }

  /** A character of `sub` that `s` lacks rules out an occurrence. */
  lemma MissingCharNotContains(s: string, sub: string, j: nat)
    requires j < |sub| && sub[j] !in s
    ensures !Contains(s, sub)
  {
    if Contains(s, sub) {
      var i := ContainsOccurrence(s, sub);
    }
  }

  /** An entry that ends with `sub` contains it. */
  lemma SuffixContains(s: string, sub: string)
    requires HasSuffix(s, sub)
    ensures Contains(s, sub)
  {
    OccurrenceContains(s, sub, |s| - |sub|);
  }

  /** strings.Join */
  function Join(parts: seq<string>, sep: string): (r: string)
    ensures |parts| == 1 ==> r == parts[0]
    decreases |parts|
  {
    if |parts| == 0 then ""
    else if |parts| == 1 then parts[0]
    else parts[0] + sep + Join(parts[1..], sep)
  }

  /** The total length of the parts. */
  function TotalLength(parts: seq<string>): nat
    decreases |parts|
  {
    if |parts| == 0 then 0 else |parts[0]| + TotalLength(parts[1..])
  }

  /** The joined string is the parts and one separator between each two of them. */
  lemma {:induction false} JoinLength(parts: seq<string>, sep: string)
    requires |parts| > 0
    ensures |Join(parts, sep)| == TotalLength(parts) + (|parts| - 1) * |sep|
    decreases |parts|
  {
    if |parts| > 1 {
      JoinLength(parts[1..], sep);
    }
  }

  /** Joining one more part adds a separator and that part at the end. */
  lemma {:induction false} JoinSnoc(parts: seq<string>, p: string, sep: string)
    requires |parts| > 0
    ensures Join(parts + [p], sep) == Join(parts, sep) + sep + p
    decreases |parts|
  {
    assert (parts + [p])[1..] == parts[1..] + [p];
    if |parts| > 1 {
      JoinSnoc(parts[1..], p, sep);
    }
  }

  /** Each part occurs in the joined string, at some index `i`. */
  lemma {:induction false} JoinOccurrence(parts: seq<string>, sep: string, k: nat) returns (i: nat)
    requires k < |parts|
    ensures i + |parts[k]| <= |Join(parts, sep)| && Join(parts, sep)[i..i + |parts[k]|] == parts[k]
    decreases |parts|
  {
    if k == 0 {
      i := 0;
    } else {
      var rest := Join(parts[1..], sep);
      var j := JoinOccurrence(parts[1..], sep, k - 1);
      var lead := parts[0] + sep;
      assert Join(parts, sep) == lead + rest;
      i := |lead| + j;
      assert Join(parts, sep)[i..i + |parts[k]|] == rest[j..j + |parts[k]|];
    }
  }

  /** Every part can be found in the joined string. */
  lemma JoinContainsParts(parts: seq<string>, sep: string, k: nat)
    requires k < |parts|
    ensures Contains(Join(parts, sep), parts[k])
  {
    var i := JoinOccurrence(parts, sep, k);
    OccurrenceContains(Join(parts, sep), parts[k], i);
  }

  // ---------------------------------------------------------------------------
  // String order and sort.Strings
  // ---------------------------------------------------------------------------

  /**
   * Go's `a < b` on strings. Go compares the UTF-8 bytes; for well-formed text
   * that is the same as comparing code points, which is what this does.
   */
  predicate Less(a: string, b: string)
    decreases |a|
  {
    if |a| == 0 then |b| > 0
    else if |b| == 0 then false
    else if a[0] != b[0] then a[0] < b[0]
    else Less(a[1..], b[1..])
  }

  predicate LessEq(a: string, b: string) {
    a == b || Less(a, b)
  }

  lemma {:induction false} LessAsymmetric(a: string, b: string)
    requires Less(a, b)
    ensures !Less(b, a)
    decreases |a|
  {
    if |a| > 0 && |b| > 0 && a[0] == b[0] { LessAsymmetric(a[1..], b[1..]); }
  }

  lemma {:induction false} LessTransitive(a: string, b: string, c: string)
    requires Less(a, b) && Less(b, c)
    ensures Less(a, c)
    decreases |a|
  {
    if |a| > 0 && a[0] == b[0] && b[0] == c[0] { LessTransitive(a[1..], b[1..], c[1..]); }
  }

  lemma {:induction false} LessTotal(a: string, b: string)
    ensures a == b || Less(a, b) || Less(b, a)
    decreases |a|
  {
    if |a| > 0 && |b| > 0 && a[0] == b[0] {
      LessTotal(a[1..], b[1..]);
      assert a == [a[0]] + a[1..] && b == [b[0]] + b[1..];
    }
  }

  lemma LessEqTransitive(a: string, b: string, c: string)
    requires LessEq(a, b) && LessEq(b, c)
    ensures LessEq(a, c)
  {
    if a != b && b != c { LessTransitive(a, b, c); }
  }

  lemma LessEqAntisymmetric(a: string, b: string)
    requires LessEq(a, b) && LessEq(b, a)
    ensures a == b
  {
    if a != b { LessAsymmetric(a, b); }
  }

  /** Ascending order, as sort.Strings leaves a slice: each element is at most the next. */
  predicate Sorted(s: seq<string>)
    decreases |s|
  {
    |s| <= 1 || (LessEq(s[0], s[1]) && Sorted(s[1..]))
  }

  /** In a sorted sequence every element is at most every later one. */
  lemma {:induction false} SortedPairwise(s: seq<string>, i: nat, j: nat)
    requires Sorted(s) && i <= j < |s|
    ensures LessEq(s[i], s[j])
    decreases j
  {
    if i < j {
      SortedPairwise(s, i, j - 1);
      SortedAdjacent(s, j - 1);
      LessEqTransitive(s[i], s[j - 1], s[j]);
    }
  }

  lemma {:induction false} SortedAdjacent(s: seq<string>, k: nat)
    requires Sorted(s) && k + 1 < |s|
    ensures LessEq(s[k], s[k + 1])
    decreases k
  {
    if k > 0 {
      SortedAdjacent(s[1..], k - 1);
    }
  }

  /** Insert `x` into the sorted `s`, the step of an insertion sort. */
  function Insert(x: string, s: seq<string>): (r: seq<string>)
    requires Sorted(s)
    ensures Sorted(r)
    ensures multiset(r) == multiset(s) + multiset{x}
    ensures r[0] == x || (|s| > 0 && r[0] == s[0])
    decreases |s|
  {
    if s == [] then [x]
    else if LessEq(x, s[0]) then
      assert ([x] + s)[1..] == s;
      [x] + s
    else
      assert s == [s[0]] + s[1..];
      var rest := Insert(x, s[1..]);
      assert LessEq(s[0], x) by { LessTotal(x, s[0]); }
      assert ([s[0]] + rest)[1..] == rest;
      [s[0]] + rest
  }

  /**
   * The model of sort.Strings: an insertion sort. For strings the sorted
   * permutation is unique (SortedUnique), so any correct sort gives this result.
   */
  function SortStrings(s: seq<string>): (r: seq<string>)
    ensures Sorted(r)
    ensures multiset(r) == multiset(s)
    decreases |s|
  {
    if s == [] then []
    else
      assert s == [s[0]] + s[1..];
      Insert(s[0], SortStrings(s[1..]))
  }

  lemma MultisetTail(a: seq<string>)
    requires |a| > 0
    ensures multiset(a[1..]) == multiset(a) - multiset{a[0]}
  {
    assert a == [a[0]] + a[1..];
  }

  /** The first element of a non-empty sorted sequence is its least element. */
  lemma SortedHeadLeast(a: seq<string>, x: string)
    requires Sorted(a) && x in multiset(a)
    ensures LessEq(a[0], x)
  {
    var j :| 0 <= j < |a| && a[j] == x;
    SortedPairwise(a, 0, j);
  }

  /** Two non-empty sorted sequences with the same elements start with the same element. */
  lemma SortedHeadsEqual(a: seq<string>, b: seq<string>)
    requires Sorted(a) && Sorted(b) && multiset(a) == multiset(b) && |a| > 0
    ensures |b| > 0 && a[0] == b[0]
  {
    assert |b| > 0 by { assert |multiset(b)| == |multiset(a)| == |a|; }
    assert a[0] in multiset(a) && b[0] in multiset(b);
    SortedHeadLeast(a, b[0]);
    SortedHeadLeast(b, a[0]);
    LessEqAntisymmetric(a[0], b[0]);
  }

  /** Two sorted sequences with the same elements are equal. */
  lemma {:induction false} SortedUnique(a: seq<string>, b: seq<string>)
    requires Sorted(a) && Sorted(b) && multiset(a) == multiset(b)
    ensures a == b
    decreases |a|
  {
    if |a| == 0 {
      assert |multiset(b)| == 0;
    } else {
      SortedHeadsEqual(a, b);
      MultisetTail(a);
      MultisetTail(b);
      SortedUnique(a[1..], b[1..]);
      assert a == [a[0]] + a[1..] && b == [b[0]] + b[1..];
    }
  }

  // ---------------------------------------------------------------------------
  // %d and strconv.Itoa
  // ---------------------------------------------------------------------------

  function DigitChar(d: int): char
    requires 0 <= d < 10
  {
    ('0' as int + d) as char
  }

  predicate IsDigit(c: char) {
    '0' <= c <= '9'
  }

  /** Decimal digits of a natural number, without leading zeros. */
  function NatDecimal(n: nat): (r: string)
    ensures |r| > 0 && IsDigit(r[0])
    decreases n
  {
    if n < 10 then [DigitChar(n)] else NatDecimal(n / 10) + [DigitChar(n % 10)]
  }

  /** Go's `%d` and strconv.Itoa on an int. */
  function Decimal(n: int): string {
    if n < 0 then "-" + NatDecimal(-n) else NatDecimal(n)
  }

  /** Reads back a string of decimal digits. */
  function ParseNat(s: string): int
    decreases |s|
  {
    if s == [] then 0
    else ParseNat(s[..|s| - 1]) * 10 + (s[|s| - 1] as int - '0' as int)
  }

  function ParseDecimal(s: string): int {
    if |s| > 0 && s[0] == '-' then -ParseNat(s[1..]) else ParseNat(s)
  }

  lemma {:induction false} NatDecimalRoundTrip(n: nat)
    ensures ParseNat(NatDecimal(n)) == n
    decreases n
  {
    if n >= 10 {
      NatDecimalRoundTrip(n / 10);
      var d := NatDecimal(n);
      assert d[..|d| - 1] == NatDecimal(n / 10);
    }
  }

  /** Reading the rendered number gives the number back: `%d` loses nothing. */
  lemma DecimalRoundTrip(n: int)
    ensures ParseDecimal(Decimal(n)) == n
  {
    if n < 0 {
      NatDecimalRoundTrip(-n);
      assert Decimal(n)[1..] == NatDecimal(-n);
    } else {
      NatDecimalRoundTrip(n);
    }
  }

  // ---------------------------------------------------------------------------
  // len() and %-Ns
  // ---------------------------------------------------------------------------

  /** Bytes in the UTF-8 encoding of one code point. */
  function RuneBytes(c: char): nat {
    if c as int < 0x80 then 1
    else if c as int < 0x800 then 2
    else if c as int < 0x10000 then 3
    else 4
  }

  /** Go's `len(s)`: the number of bytes of the UTF-8 encoding. */
  function ByteLen(s: string): (n: nat)
    ensures |s| <= n <= 4 * |s|
    decreases |s|
  {
    if s == [] then 0 else ByteLen(s[..|s| - 1]) + RuneBytes(s[|s| - 1])
  }

  predicate IsAscii(s: string) {
    forall k :: 0 <= k < |s| ==> s[k] as int < 0x80
  }

  /** For ASCII text, bytes and code points agree. */
  lemma {:induction false} AsciiByteLen(s: string)
    requires IsAscii(s)
    ensures ByteLen(s) == |s|
    decreases |s|
  {
    if s != [] {
      AsciiByteLen(s[..|s| - 1]);
    }
  }

  function Spaces(n: nat): (r: string)
    ensures |r| == n && forall k :: 0 <= k < n ==> r[k] == ' '
  {
    seq(n, _ => ' ')
  }

  /**
   * fmt's `%-Ns`: `s` followed by spaces up to `width` code points (fmt counts
   * runes, not bytes, when it pads).
   */
  function PadRight(s: string, width: nat): (r: string)
    ensures |r| == if |s| < width then width else |s|
    ensures r[..|s|] == s
    ensures forall k :: |s| <= k < |r| ==> r[k] == ' '
  {
    if |s| < width then s + Spaces(width - |s|) else s
  }
}
