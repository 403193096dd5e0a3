/**
 * open.go: how `gohdoc [arg]` picks the package page to open. The HTTP server,
 * the browser and Go's path functions are outside the model: page requests are
 * answered by an oracle `head`, and filepath.Clean/Join/IsAbs are fields of
 * `PathOps`. The result says which URL the browser would be pointed at.
 */
module Open {
  import opened Wrappers
  import opened Text
  import opened Search
  import opened Misc

  /** filepath.Clean, filepath.Join (and path.Join) and filepath.IsAbs, uninterpreted. */
  datatype PathOps = PathOps(clean: string -> string, join: (string, string) -> string, isAbs: string -> bool)

  /** path.IsAbs: a slash-separated path is absolute when it starts with "/". */
  predicate PathIsAbs(p: string) {
    HasPrefix(p, "/")
  }

  // ---------------------------------------------------------------------------
  // Argument selection
  // ---------------------------------------------------------------------------

  /** The argument cmdOpen works on, and the argument as given when there was one. */
  datatype Arg = Arg(arg: string, original: Option<string>)

  function TooManyArgs(args: seq<string>): string {
    "must supply maximum one arg to gohdoc, but received " + Decimal(|args|) + " [" + Join(args, ",") + "]"
  }

  /** The switch on len(app.args): none means cwd, "." means cwd, two or more is an error. */
  function ChooseArg(args: seq<string>, cwd: string): (r: Result<Arg>)
    ensures r.Err? <==> |args| >= 2
    ensures r.Err? ==> r.msg == TooManyArgs(args)
    ensures r.Ok? ==> (r.value.original.Some? <==> |args| == 1)
    ensures r.Ok? && |args| == 1 ==> r.value.original == Some(args[0])
    ensures r.Ok? ==> r.value.arg == if |args| == 0 || args[0] == "." then cwd else args[0]
  {
    if |args| == 0 then Ok(Arg(cwd, None))
    else if |args| == 1 then Ok(Arg(if args[0] == "." then cwd else args[0], Some(args[0])))
    else Err(TooManyArgs(args))
  }

  /** The error message names the number of arguments it received. */
  lemma TooManyArgsCount(args: seq<string>)
    ensures var m := TooManyArgs(args);
      var lead := "must supply maximum one arg to gohdoc, but received ";
      ParseDecimal(m[|lead|..|lead| + |Decimal(|args|)|]) == |args|
  {
    var lead := "must supply maximum one arg to gohdoc, but received ";
    var m := TooManyArgs(args);
    assert m[|lead|..|lead| + |Decimal(|args|)|] == Decimal(|args|);
    DecimalRoundTrip(|args|);
  }

  /** The error message lists every argument it received. */
  lemma TooManyArgsListsArgs(args: seq<string>, k: nat)
    requires k < |args|
    ensures Contains(TooManyArgs(args), args[k])
  {
    var lead := "must supply maximum one arg to gohdoc, but received " + Decimal(|args|) + " [";
    var joined := Join(args, ",");
    var m := TooManyArgs(args);
    var i := JoinOccurrence(args, ",", k);
    assert m == lead + joined + "]";
    assert m[|lead| + i..|lead| + i + |args[k]|] == joined[i..i + |args[k]|];
    OccurrenceContains(m, args[k], |lead| + i);
  }

  // ---------------------------------------------------------------------------
  // serverPkgPageOK
  // ---------------------------------------------------------------------------

  /** What one HEAD request of a page URL gives: a status code, or a transport error. */
  datatype HeadOutcome = Response(status: int) | NetError(msg: string)

  const StatusOK := 200

  /**
   * The answers the server gives to successive HEAD requests of one URL within
   * the retry window (500 ms, polled every 100 ms). The loop always makes a
   * first request, so there is at least one.
   */
  type Attempts = a: seq<HeadOutcome> | |a| > 0 witness [NetError("")]

  /** serverPkgPageOK's `(ok, err)`: found, not found, or an error. */
  datatype Check = Found | Missing | CheckErr(msg: string)

  function InvalidPkgPath(pkgPath: string): string {
    "invalid pkg path " + "(has '/' prefix or suffix): " + pkgPath
  }

  function AccessFailed(msg: string): string {
    "failed to access godoc http server: " + msg
  }

  /** The retry loop over the requests it makes: the first 200 wins; otherwise the last request decides. */
  function Poll(tries: seq<HeadOutcome>): Check
    requires |tries| > 0
    decreases |tries|
  {
    if tries[0] == Response(StatusOK) then Found
    else if |tries| == 1 then (if tries[0].NetError? then CheckErr(AccessFailed(tries[0].msg)) else Missing)
    else Poll(tries[1..])
  }

  /** The requests made: all of the window with retry, only the first without. */
  function Tried(retry: bool, attempts: Attempts): (t: seq<HeadOutcome>)
    ensures |t| > 0
  {
    if retry then attempts else attempts[..1]
  }

  /** What serverPkgPageOK reports for `pkgPath` when the server answers `attempts`. */
  function PageCheck(pkgPath: string, retry: bool, attempts: Attempts): Check {
    if HasPrefix(pkgPath, "/") || HasSuffix(pkgPath, "/") then CheckErr(InvalidPkgPath(pkgPath))
    else Poll(Tried(retry, attempts))
  }

  /** Go's `(ok, err)` pair read as a Check. */
  function AsCheck(ok: bool, err: Option<string>): Check {
    if err.Some? then CheckErr(err.value) else if ok then Found else Missing
  }

  /** serverPkgPageOK: the slash check, then HEAD requests until a 200 or the end of the window. */
  method ServerPkgPageOK(pkgPath: string, retry: bool, attempts: Attempts) returns (ok: bool, err: Option<string>)
    ensures ok ==> err.None?
    ensures AsCheck(ok, err) == PageCheck(pkgPath, retry, attempts)
  {
    if HasPrefix(pkgPath, "/") || HasSuffix(pkgPath, "/") {
      return false, Some(InvalidPkgPath(pkgPath));
    }
    ghost var tried := Tried(retry, attempts);
    var i := 0;
    while true
      invariant 0 <= i < |tried|
      invariant tried[i..] == (if retry then attempts[i..] else [attempts[0]])
      invariant Poll(tried) == Poll(tried[i..])
      decreases |attempts| - i
    {
      var resp := attempts[i];
      if resp == Response(StatusOK) {
        return true, None;
      }
      if !retry || i == |attempts| - 1 {
        break;
      }
      assert tried[i..][1..] == tried[i + 1..];
      i := i + 1;
    }
    if attempts[i].NetError? {
      return false, Some(AccessFailed(attempts[i].msg));
    }
    return false, None;
  }

  /** A path with a leading or trailing slash is refused before any request: the answers do not matter. */
  lemma SlashedPathRefused(pkgPath: string, retry: bool, a1: Attempts, a2: Attempts)
    requires HasPrefix(pkgPath, "/") || HasSuffix(pkgPath, "/")
    ensures PageCheck(pkgPath, retry, a1) == PageCheck(pkgPath, retry, a2) == CheckErr(InvalidPkgPath(pkgPath))
  {
  }

  /** Without retry only the first answer counts. */
  lemma NoRetryOneAttempt(pkgPath: string, a: Attempts)
    ensures PageCheck(pkgPath, false, a) == PageCheck(pkgPath, false, [a[0]])
  {
    assert a[..1] == [a[0]];
  }

  lemma {:induction false} PollFound(tries: seq<HeadOutcome>)
    requires |tries| > 0
    ensures Poll(tries) == Found <==> exists k :: 0 <= k < |tries| && tries[k] == Response(StatusOK)
    ensures Poll(tries).CheckErr? <==>
      (forall k :: 0 <= k < |tries| ==> tries[k] != Response(StatusOK)) && tries[|tries| - 1].NetError?
    decreases |tries|
  {
    if tries[0] != Response(StatusOK) && |tries| > 1 {
      PollFound(tries[1..]);
      assert forall k :: 1 <= k < |tries| ==> tries[k] == tries[1..][k - 1];
    }
  }

  /**
   * A well-formed path is found exactly when one of the requests made got 200;
   * it is an error exactly when none did and the last one failed in transport.
   */
  lemma PageCheckMeaning(pkgPath: string, retry: bool, attempts: Attempts)
    requires !HasPrefix(pkgPath, "/") && !HasSuffix(pkgPath, "/")
    ensures var t := Tried(retry, attempts);
      && (PageCheck(pkgPath, retry, attempts) == Found <==> exists k :: 0 <= k < |t| && t[k] == Response(StatusOK))
      && (PageCheck(pkgPath, retry, attempts).CheckErr? <==>
           (forall k :: 0 <= k < |t| ==> t[k] != Response(StatusOK)) && t[|t| - 1].NetError?)
  {
    PollFound(Tried(retry, attempts));
  }

  // ---------------------------------------------------------------------------
  // printPossibleMatches
  // ---------------------------------------------------------------------------

  const MaxPkgList := 10

  function Min(a: int, b: int): int {
    if a < b then a else b
  }

  function MatchesHeader(arg: string, count: nat): string {
    if count > MaxPkgList then
      "Found " + Decimal(count) + " possible matches; showing first " + Decimal(MaxPkgList)
      + ". To see full set: gohdoc -searchv " + arg + "\n"
    else "Found " + Decimal(count) + " possible matches:\n"
  }

  /** printPossibleMatches: a header, then the first ten matches at most, as printPkgsWithLink lines. */
  method PrintPossibleMatches(port: int, arg: string, matches: seq<string>)
    returns (header: string, shown: seq<string>, width: nat, lines: seq<string>)
    ensures header == MatchesHeader(arg, |matches|)
    ensures shown == matches[..Min(MaxPkgList, |matches|)]
    ensures forall k :: 0 <= k < |shown| ==> ByteLen(shown[k]) <= width
    ensures width == 0 || exists k :: 0 <= k < |shown| && ByteLen(shown[k]) == width
    ensures |lines| == |shown|
    ensures forall k :: 0 <= k < |shown| ==> lines[k] == LinkLine(port, shown[k], width)
  {
    shown := matches;
    header := MatchesHeader(arg, |shown|);
    if |shown| > MaxPkgList {
      shown := shown[0..MaxPkgList];
    }
    width, lines := PrintPkgsWithLink(port, shown);
  }

  // ---------------------------------------------------------------------------
  // cmdOpen
  // ---------------------------------------------------------------------------

  /** One serverPkgPageOK call made by cmdOpen: the package path asked for, and whether it retried. */
  datatype Probe = Probe(pkgPath: string, retry: bool)

  /** How cmdOpen ends: the browser is opened on a URL, an error is returned, or the slice expression panics. */
  datatype OpenResult = Opened(url: string) | Failed(msg: string) | Panicked(msg: string)

  /** The end of a run, the probes in order, whether the server list was searched, and the matches printed. */
  datatype OpenRun = OpenRun(result: OpenResult, probes: seq<Probe>, searched: bool, listed: seq<string>)

  /** The server's answer to one probe, `head` giving the answers to requests of each URL. */
  function CheckOf(port: int, head: string -> Attempts, p: Probe): Check {
    PageCheck(p.pkgPath, p.retry, head(AbsPkgURL(port, p.pkgPath)))
  }

  function NotFound(arg: string): string {
    "failed to find " + arg
  }

  function ShouldExist(pkg: string): string {
    "should have been able to open this, but it seems not to exist: " + pkg
  }

  /** The Go runtime's message for `matches[1:]` on an empty slice. */
  const SliceOutOfRange := "runtime error: slice bounds out of range [1:0]"

  /** The argument as a path: cleaned, and made absolute against the working directory. */
  function TentativePkgPath(ops: PathOps, cwd: string, arg: string): string {
    var t := ops.clean(arg);
    if PathIsAbs(t) then t else ops.join(cwd, t)
  }

  /** How the walk over the non-exact matches ends. */
  datatype Walk = Hit(pkg: string) | Abort(msg: string) | Exhausted

  datatype WalkRun = WalkRun(walk: Walk, probes: seq<Probe>)

  /** The loop over matches[1:]: probe each without retry; the first found or the first error ends it. */
  function WalkCandidates(port: int, head: string -> Attempts, cands: seq<string>): WalkRun
    decreases |cands|
  {
    if |cands| == 0 then WalkRun(Exhausted, [])
    else
      var c := CheckOf(port, head, Probe(cands[0], false));
      if c.CheckErr? then WalkRun(Abort(c.msg), [Probe(cands[0], false)])
      else if c.Found? then WalkRun(Hit(cands[0]), [Probe(cands[0], false)])
      else
        var rest := WalkCandidates(port, head, cands[1..]);
        WalkRun(rest.walk, [Probe(cands[0], false)] + rest.probes)
  }

  /** Lines 87 to 111 of cmdOpen, given the matches: an exact match alone, or the walk over the others. */
  function MatchRoute(port: int, head: string -> Attempts, m: Matches, arg: string): OpenRun
    requires m.exact ==> |m.list| > 0
  {
    if m.exact then
      var p := Probe(m.list[0], true);
      var c := CheckOf(port, head, p);
      var result := if c.CheckErr? then Failed(c.msg)
        else if c.Missing? then Failed(ShouldExist(m.list[0]))
        else Opened(AbsPkgURL(port, m.list[0]));
      OpenRun(result, [p], true, [])
    else if |m.list| == 0 then OpenRun(Panicked(SliceOutOfRange), [], true, [])
    else
      var w := WalkCandidates(port, head, m.list[1..]);
      match w.walk
      case Hit(pkg) => OpenRun(Opened(AbsPkgURL(port, pkg)), w.probes, true, m.list[..Min(MaxPkgList, |m.list|)])
      case Abort(e) => OpenRun(Failed(e), w.probes, true, [])
      case Exhausted => OpenRun(Failed(NotFound(arg)), w.probes, true, [])
  }

  /** The name search of cmdOpen, lines 86 to 111. */
  function NameRoute(port: int, head: string -> Attempts, pkgs: seq<string>, arg: string): OpenRun {
    MatchRoute(port, head, PkgMatches(pkgs, arg), arg)
  }

  /**
   * What cmdOpen does. `server` is the outcome of starting or finding the godoc
   * server and loading its package list: the list, or the error returned.
   */
  function OpenSpec(ops: PathOps, head: string -> Attempts, args: seq<string>, cwd: string, gopath: string,
                    port: int, server: Result<seq<string>>): OpenRun
  {
    OpenWith(ops, head, ChooseArg(args, cwd), cwd, gopath, port, server)
  }

  /** The rest of OpenSpec, given the outcome of choosing the argument. */
  function OpenWith(ops: PathOps, head: string -> Attempts, chosen: Result<Arg>, cwd: string, gopath: string,
                    port: int, server: Result<seq<string>>): OpenRun
  {
    match chosen
    case Err(e) => OpenRun(Failed(e), [], false, [])
    case Ok(a) =>
      if server.Err? then OpenRun(Failed(server.msg), [], false, [])
      else ResolveSpec(ops, head, a, cwd, gopath, port, PkgMatches(server.value, a.arg))
  }

  /**
   * Lines 58 to 115 of cmdOpen: the GOPATH route, then the name search, then
   * "failed to find". `m` is what getPkgMatches gives for the argument; it is
   * used only when the search is reached.
   */
  function ResolveSpec(ops: PathOps, head: string -> Attempts, a: Arg, cwd: string, gopath: string,
                       port: int, m: Matches): OpenRun
    requires m.exact ==> |m.list| > 0
  {
    ResolveFrom(ops.isAbs, head, a, port, m, DeterminePackage(ops.join, gopath, TentativePkgPath(ops, cwd, a.arg)))
  }

  /** The rest of ResolveSpec, given what determinePackage returned for the argument. */
  function ResolveFrom(isAbs: string -> bool, head: string -> Attempts, a: Arg, port: int, m: Matches,
                       onGopath: Result<string>): OpenRun
    requires m.exact ==> |m.list| > 0
  {
    var first := if onGopath.Ok? then [Probe(onGopath.value, true)] else [];
    var c := GopathCheck(port, head, onGopath);
    if c.CheckErr? then OpenRun(Failed(c.msg), first, false, [])
    else if c.Found? then OpenRun(Opened(AbsPkgURL(port, onGopath.value)), first, false, [])
    else if a.original.None? || isAbs(a.arg) then OpenRun(Failed(NotFound(a.arg)), first, false, [])
    else
      var n := MatchRoute(port, head, m, a.arg);
      OpenRun(n.result, first + n.probes, true, n.listed)
  }

  /** The page check of the package found under GOPATH; nothing found counts as not found. */
  function GopathCheck(port: int, head: string -> Attempts, onGopath: Result<string>): Check {
    if onGopath.Ok? then CheckOf(port, head, Probe(onGopath.value, true)) else Missing
  }

  /** The loop of cmdOpen over matches[1:]. */
  method WalkMatches(port: int, head: string -> Attempts, cands: seq<string>) returns (walk: Walk, probes: seq<Probe>)
    ensures WalkRun(walk, probes) == WalkCandidates(port, head, cands)
  {
    probes := [];
    for i := 0 to |cands|
      invariant |probes| == i
      invariant WalkCandidates(port, head, cands)
        == WalkRun(WalkCandidates(port, head, cands[i..]).walk, probes + WalkCandidates(port, head, cands[i..]).probes)
    {
      var p := Probe(cands[i], false);
      ghost var before := probes;
      probes := probes + [p];
      var ok, err := ServerPkgPageOK(cands[i], false, head(AbsPkgURL(port, cands[i])));
      WalkStep(port, head, cands, i);
      if err.Some? {
        return Abort(err.value), probes;
      }
      if ok {
        return Hit(cands[i]), probes;
      }
      ghost var rest := WalkCandidates(port, head, cands[i + 1..]);
      assert before + ([p] + rest.probes) == probes + rest.probes;
    }
    walk := Exhausted;
    assert cands[|cands|..] == [];
    assert probes + [] == probes;
  }

  /** One step of the walk, at position `i`. */
  lemma WalkStep(port: int, head: string -> Attempts, cands: seq<string>, i: nat)
    requires i < |cands|
    ensures var c := CheckOf(port, head, Probe(cands[i], false));
      var rest := WalkCandidates(port, head, cands[i + 1..]);
      WalkCandidates(port, head, cands[i..])
        == if c.CheckErr? then WalkRun(Abort(c.msg), [Probe(cands[i], false)])
           else if c.Found? then WalkRun(Hit(cands[i]), [Probe(cands[i], false)])
           else WalkRun(rest.walk, [Probe(cands[i], false)] + rest.probes)
  {
    assert cands[i..][1..] == cands[i + 1..];
  }

  /** cmdOpen, with the browser, the log and the godoc server abstracted as above. */
  method CmdOpen(ops: PathOps, head: string -> Attempts, args: seq<string>, cwd: string, gopath: string,
                 port: int, server: Result<seq<string>>)
    returns (result: OpenResult, probes: seq<Probe>, searched: bool, listed: seq<string>)
    ensures OpenRun(result, probes, searched, listed) == OpenSpec(ops, head, args, cwd, gopath, port, server)
  {
    probes, searched, listed := [], false, [];
    var arg: string;
    var originalArg: Option<string>;
    if |args| == 0 {
      arg, originalArg := cwd, None;
    } else if |args| == 1 {
      arg := args[0];
      if arg == "." {
        arg := cwd;
      }
      originalArg := Some(args[0]);
    } else {
      result := Failed(TooManyArgs(args));
      return;
    }
    if server.Err? {
      result := Failed(server.msg);
      return;
    }
    result, probes, searched, listed := Resolve(ops, head, Arg(arg, originalArg), cwd, gopath, port, server.value);
  }

  /** Lines 58 to 115 of cmdOpen, once the argument is chosen and the package list loaded. */
  method Resolve(ops: PathOps, head: string -> Attempts, a: Arg, cwd: string, gopath: string,
                 port: int, pkgs: seq<string>)
    returns (result: OpenResult, probes: seq<Probe>, searched: bool, listed: seq<string>)
    ensures OpenRun(result, probes, searched, listed) == ResolveSpec(ops, head, a, cwd, gopath, port, PkgMatches(pkgs, a.arg))
  {
    searched, listed := false, [];
    var arg, originalArg := a.arg, a.original;
    var onGopath, c := TryGopath(ops, head, arg, cwd, gopath, port);
    probes := if onGopath.Ok? then [Probe(onGopath.value, true)] else [];
    if c.CheckErr? {
      result := Failed(c.msg);
      return;
    }
    if c.Found? {
      result := Opened(AbsPkgURL(port, onGopath.value));
      return;
    }
    if originalArg.Some? && !ops.isAbs(arg) {
      var nameResult, nameProbes;
      nameResult, nameProbes, listed := SearchPkg(port, head, pkgs, arg);
      result, probes, searched := nameResult, probes + nameProbes, true;
      return;
    }
    result := Failed(NotFound(arg));
  }

  /** Lines 58 to 79 of cmdOpen: the package path under GOPATH, and what its page check says. */
  method TryGopath(ops: PathOps, head: string -> Attempts, arg: string, cwd: string, gopath: string, port: int)
    returns (onGopath: Result<string>, c: Check)
    ensures onGopath == DeterminePackage(ops.join, gopath, TentativePkgPath(ops, cwd, arg))
    ensures c == GopathCheck(port, head, onGopath)
  {
    var tentativePkgPath := ops.clean(arg);
    if !PathIsAbs(tentativePkgPath) {
      tentativePkgPath := ops.join(cwd, tentativePkgPath);
    }
    onGopath := DeterminePackage(ops.join, gopath, tentativePkgPath);
    c := Missing;
    if onGopath.Ok? {
      var pkgPath := onGopath.value;
      var ok, err := ServerPkgPageOK(pkgPath, true, head(AbsPkgURL(port, pkgPath)));
      c := AsCheck(ok, err);
    }
  }

  /** Lines 86 to 111 of cmdOpen: the search of the server's package list for the argument. */
  method SearchPkg(port: int, head: string -> Attempts, pkgs: seq<string>, arg: string)
    returns (result: OpenResult, probes: seq<Probe>, listed: seq<string>)
    ensures OpenRun(result, probes, true, listed) == NameRoute(port, head, pkgs, arg)
  {
    var matches, exactMatch := GetPkgMatches(pkgs, arg);
    result, probes, listed := TryMatches(port, head, matches, exactMatch, arg);
  }

  /** Lines 87 to 111 of cmdOpen: what is done with getPkgMatches' result. */
  method TryMatches(port: int, head: string -> Attempts, matches: seq<string>, exactMatch: bool, arg: string)
    returns (result: OpenResult, probes: seq<Probe>, listed: seq<string>)
    requires exactMatch ==> |matches| > 0
    ensures OpenRun(result, probes, true, listed) == MatchRoute(port, head, Matches(matches, exactMatch), arg)
  {
    probes, listed := [], [];
    if exactMatch {
      var pkg := matches[0];
      probes := [Probe(pkg, true)];
      var ok, err := ServerPkgPageOK(pkg, true, head(AbsPkgURL(port, pkg)));
      if err.Some? {
        result := Failed(err.value);
      } else if !ok {
        result := Failed(ShouldExist(pkg));
      } else {
        result := Opened(AbsPkgURL(port, pkg));
      }
      return;
    }
    if |matches| == 0 {
      result := Panicked(SliceOutOfRange);
      return;
    }
    var walk;
    walk, probes := WalkMatches(port, head, matches[1..]);
    match walk
    case Hit(pkg) =>
      var header, shown, width, lines := PrintPossibleMatches(port, arg, matches);
      listed := shown;
      result := Opened(AbsPkgURL(port, pkg));
    case Abort(e) =>
      result := Failed(e);
    case Exhausted =>
      result := Failed(NotFound(arg));
  }

  // ---------------------------------------------------------------------------
  // Properties of cmdOpen
  // ---------------------------------------------------------------------------

  /**
   * The walk probes a prefix of the candidates, in order and without retry.
   * Every probe before the last found nothing; the last one decides: a hit opens
   * it, an error aborts with that error, and otherwise every candidate was tried.
   */
  lemma WalkMeaning(port: int, head: string -> Attempts, cands: seq<string>)
    ensures var w := WalkCandidates(port, head, cands);
      && |w.probes| <= |cands|
      && (forall k :: 0 <= k < |w.probes| ==> w.probes[k] == Probe(cands[k], false))
      && (forall k :: 0 <= k < |w.probes| && (k < |w.probes| - 1 || w.walk.Exhausted?) ==>
            CheckOf(port, head, w.probes[k]) == Missing)
      && (w.walk.Hit? ==>
            |w.probes| > 0 && w.walk.pkg == cands[|w.probes| - 1]
            && CheckOf(port, head, w.probes[|w.probes| - 1]) == Found)
      && (w.walk.Abort? ==> |w.probes| > 0 && CheckOf(port, head, w.probes[|w.probes| - 1]) == CheckErr(w.walk.msg))
      && (w.walk.Exhausted? ==> |w.probes| == |cands|)
  {
    WalkProbes(port, head, cands);
    WalkVerdict(port, head, cands);
  }

  /** The probes are the first candidates, in order; an exhausted walk probed them all. */
  lemma {:induction false} WalkProbes(port: int, head: string -> Attempts, cands: seq<string>)
    ensures var w := WalkCandidates(port, head, cands);
      && |w.probes| <= |cands|
      && (forall k :: 0 <= k < |w.probes| ==> w.probes[k] == Probe(cands[k], false))
      && (w.walk.Exhausted? ==> |w.probes| == |cands|)
      && (!w.walk.Exhausted? ==> |w.probes| > 0)
    decreases |cands|
  {
    if |cands| > 0 && CheckOf(port, head, Probe(cands[0], false)) == Missing {
      WalkProbes(port, head, cands[1..]);
      var rest := WalkCandidates(port, head, cands[1..]);
      var w := WalkCandidates(port, head, cands);
      assert forall k :: 1 <= k < |w.probes| ==> w.probes[k] == rest.probes[k - 1];
    }
  }

  /** Every probe but the last found nothing, and the last one decides the walk. */
  lemma {:induction false} WalkVerdict(port: int, head: string -> Attempts, cands: seq<string>)
    ensures var w := WalkCandidates(port, head, cands);
      && (forall k :: 0 <= k < |w.probes| && (k < |w.probes| - 1 || w.walk.Exhausted?) ==>
            CheckOf(port, head, w.probes[k]) == Missing)
      && (w.walk.Hit? ==>
            |w.probes| > 0 && w.walk.pkg == w.probes[|w.probes| - 1].pkgPath
            && CheckOf(port, head, w.probes[|w.probes| - 1]) == Found)
      && (w.walk.Abort? ==> |w.probes| > 0 && CheckOf(port, head, w.probes[|w.probes| - 1]) == CheckErr(w.walk.msg))
    decreases |cands|
  {
    if |cands| > 0 && CheckOf(port, head, Probe(cands[0], false)) == Missing {
      WalkVerdict(port, head, cands[1..]);
      var rest := WalkCandidates(port, head, cands[1..]);
      var w := WalkCandidates(port, head, cands);
      assert forall k :: 1 <= k < |w.probes| ==> w.probes[k] == rest.probes[k - 1];
    }
  }

  lemma {:induction false} PollErrMessage(tries: seq<HeadOutcome>)
    requires |tries| > 0 && Poll(tries).CheckErr?
    ensures exists e :: Poll(tries).msg == AccessFailed(e)
    decreases |tries|
  {
    if tries[0] != Response(StatusOK) && |tries| > 1 {
      PollErrMessage(tries[1..]);
    }
  }

  lemma MessageLeads(x: string, arg: string)
    ensures InvalidPkgPath(x)[0] == 'i' && AccessFailed(x)[10] == 'a'
    ensures NotFound(arg)[0] == 'f' && NotFound(arg)[10] == 'f'
  {
  }

  /** An error from a page check is never the "failed to find" error. */
  lemma CheckErrNotNotFound(port: int, head: string -> Attempts, p: Probe, arg: string)
    requires CheckOf(port, head, p).CheckErr?
    ensures CheckOf(port, head, p).msg != NotFound(arg)
  {
    var c := CheckOf(port, head, p);
    if HasPrefix(p.pkgPath, "/") || HasSuffix(p.pkgPath, "/") {
      assert c.msg == InvalidPkgPath(p.pkgPath);
      MessageLeads(p.pkgPath, arg);
    } else {
      PollErrMessage(Tried(p.retry, head(AbsPkgURL(port, p.pkgPath))));
      var e :| c.msg == AccessFailed(e);
      MessageLeads(e, arg);
    }
  }

  /** More than one argument is refused before the server is contacted. */
  lemma TooManyArgsRefused(ops: PathOps, head: string -> Attempts, args: seq<string>, cwd: string, gopath: string,
                           port: int, server: Result<seq<string>>)
    requires |args| >= 2
    ensures OpenSpec(ops, head, args, cwd, gopath, port, server) == OpenRun(Failed(TooManyArgs(args)), [], false, [])
  {
  }

  /**
   * A package found on GOPATH whose page the server has is opened straight
   * away: one probe, with retry, and no search of the package list.
   */
  lemma GopathRouteFirst(ops: PathOps, head: string -> Attempts, args: seq<string>, cwd: string, gopath: string,
                         port: int, server: Result<seq<string>>)
    requires |args| <= 1 && server.Ok?
    requires var arg := ChooseArg(args, cwd).value.arg;
      var onGopath := DeterminePackage(ops.join, gopath, TentativePkgPath(ops, cwd, arg));
      onGopath.Ok? && CheckOf(port, head, Probe(onGopath.value, true)) == Found
    ensures var arg := ChooseArg(args, cwd).value.arg;
      var pkg := DeterminePackage(ops.join, gopath, TentativePkgPath(ops, cwd, arg)).value;
      OpenSpec(ops, head, args, cwd, gopath, port, server) == OpenRun(Opened(AbsPkgURL(port, pkg)), [Probe(pkg, true)], false, [])
  {
  }

  /** An error from the GOPATH page check is returned at once, before any search. */
  lemma GopathErrorAborts(ops: PathOps, head: string -> Attempts, args: seq<string>, cwd: string, gopath: string,
                          port: int, server: Result<seq<string>>)
    requires |args| <= 1 && server.Ok?
    requires var arg := ChooseArg(args, cwd).value.arg;
      var onGopath := DeterminePackage(ops.join, gopath, TentativePkgPath(ops, cwd, arg));
      onGopath.Ok? && CheckOf(port, head, Probe(onGopath.value, true)).CheckErr?
    ensures var arg := ChooseArg(args, cwd).value.arg;
      var pkg := DeterminePackage(ops.join, gopath, TentativePkgPath(ops, cwd, arg)).value;
      OpenSpec(ops, head, args, cwd, gopath, port, server)
        == OpenRun(Failed(CheckOf(port, head, Probe(pkg, true)).msg), [Probe(pkg, true)], false, [])
  {
  }

  /**
   * The package list is searched only for an argument given on the command
   * line that is not an absolute path. With an absolute working directory,
   * neither no argument nor "." is ever searched for.
   */
  lemma SearchOnlyForRelativeArg(ops: PathOps, head: string -> Attempts, args: seq<string>, cwd: string, gopath: string,
                                 port: int, server: Result<seq<string>>)
    requires OpenSpec(ops, head, args, cwd, gopath, port, server).searched
    ensures |args| == 1 && server.Ok? && !ops.isAbs(ChooseArg(args, cwd).value.arg)
    ensures ops.isAbs(cwd) ==> args[0] != "." && !ops.isAbs(args[0])
  {
  }

  /** An exact match is the only page tried by the search, with retry; it is opened or the run fails. */
  lemma ExactMatchAlone(port: int, head: string -> Attempts, pkgs: seq<string>, arg: string)
    requires PkgMatches(pkgs, arg).exact
    ensures var n := NameRoute(port, head, pkgs, arg);
      var c := CheckOf(port, head, Probe(arg, true));
      && n.probes == [Probe(arg, true)]
      && (n.result == Opened(AbsPkgURL(port, arg)) <==> c == Found)
      && (c == Missing ==> n.result == Failed(ShouldExist(arg)))
      && (c.CheckErr? ==> n.result == Failed(c.msg))
      && n.listed == []
  {
    ExactHitFirstAndOnce(pkgs, arg);
  }

  /**
   * Without an exact match the search tries matches[1:] in order, without
   * retry: the best-ranked match matches[0] is never tried. When a page is
   * found, it is the first one found, and the first ten matches are listed.
   */
  lemma NonExactSkipsFirst(port: int, head: string -> Attempts, m: Matches, arg: string)
    requires !m.exact && |m.list| > 0
    ensures var n := MatchRoute(port, head, m, arg);
      && |n.probes| < |m.list|
      && (forall k :: 0 <= k < |n.probes| ==> n.probes[k] == Probe(m.list[k + 1], false))
      && (n.result.Opened? ==>
            |n.probes| > 0 && n.result.url == AbsPkgURL(port, m.list[|n.probes|])
            && CheckOf(port, head, n.probes[|n.probes| - 1]) == Found
            && (forall k :: 0 <= k < |n.probes| - 1 ==> CheckOf(port, head, n.probes[k]) == Missing)
            && n.listed == m.list[..Min(MaxPkgList, |m.list|)])
      && (n.result == Failed(NotFound(arg)) ==>
            |n.probes| == |m.list| - 1
            && forall k :: 0 <= k < |n.probes| ==> CheckOf(port, head, n.probes[k]) == Missing)
  {
    WalkMeaning(port, head, m.list[1..]);
    var w := WalkCandidates(port, head, m.list[1..]);
    if w.walk.Abort? {
      CheckErrNotNotFound(port, head, w.probes[|w.probes| - 1], arg);
    }
  }

  /** A single non-exact match is never tried, so the search fails even though it matched. */
  lemma SingleMatchNotTried(port: int, head: string -> Attempts, m: Matches, arg: string)
    requires !m.exact && |m.list| == 1
    ensures MatchRoute(port, head, m, arg) == OpenRun(Failed(NotFound(arg)), [], true, [])
  {
    assert m.list[1..] == [];
  }

  /** "byt" against bytes, encoding/json and gohdoc matches only bytes, which is not tried. */
  lemma ExamplePartialNameFails(port: int, head: string -> Attempts, pkgs: seq<string>, arg: string)
    requires pkgs == ["bytes", "encoding/json", "github.com/neilotoole/gohdoc"] && arg == "byt"
    ensures NameRoute(port, head, pkgs, arg) == OpenRun(Failed(NotFound(arg)), [], true, [])
  {
    ExamplePrefixMatch(pkgs, arg);
    SingleMatchNotTried(port, head, Matches(["bytes"], false), arg);
  }

  /** With no match at all, `matches[1:]` panics. */
  lemma NoMatchPanics(port: int, head: string -> Attempts, pkgs: seq<string>, arg: string)
    requires PkgMatches(pkgs, arg).list == []
    ensures NameRoute(port, head, pkgs, arg) == OpenRun(Panicked(SliceOutOfRange), [], true, [])
  {
    if PkgMatches(pkgs, arg).exact {
      ExactHitFirstAndOnce(pkgs, arg);
    }
  }

  /** An empty package list makes every search panic. */
  lemma EmptyListPanics(port: int, head: string -> Attempts, arg: string)
    ensures NameRoute(port, head, [], arg).result == Panicked(SliceOutOfRange)
  {
    NoMatchPanics(port, head, [], arg);
  }

  /** The search opens only a page whose probe found it, that probe being the last. */
  lemma MatchRouteOpenedOnlyIfFound(port: int, head: string -> Attempts, m: Matches, arg: string)
    requires m.exact ==> |m.list| > 0
    ensures OpensConfirmedPage(port, head, MatchRoute(port, head, m, arg))
  {
    if !m.exact && |m.list| > 0 {
      WalkMeaning(port, head, m.list[1..]);
    }
  }

  /** Probes made before a run that opens a confirmed page do not change which page that is. */
  lemma ConfirmedAfterProbes(port: int, head: string -> Attempts, first: seq<Probe>, n: OpenRun, searched: bool)
    requires OpensConfirmedPage(port, head, n)
    ensures OpensConfirmedPage(port, head, OpenRun(n.result, first + n.probes, searched, n.listed))
  {
    if n.result.Opened? {
      assert (first + n.probes)[|first + n.probes| - 1] == n.probes[|n.probes| - 1];
    }
  }

  /** If the run opens a page, its last probe found that page and the URL is that probe's. */
  predicate OpensConfirmedPage(port: int, head: string -> Attempts, r: OpenRun) {
    r.result.Opened? ==>
      |r.probes| > 0 && r.result.url == AbsPkgURL(port, r.probes[|r.probes| - 1].pkgPath)
      && CheckOf(port, head, r.probes[|r.probes| - 1]) == Found
  }

  lemma ResolveOpenedOnlyIfFound(ops: PathOps, head: string -> Attempts, a: Arg, cwd: string, gopath: string,
                                 port: int, m: Matches)
    requires m.exact ==> |m.list| > 0
    ensures OpensConfirmedPage(port, head, ResolveSpec(ops, head, a, cwd, gopath, port, m))
  {
    ResolveFromOpenedOnlyIfFound(ops.isAbs, head, a, port, m,
      DeterminePackage(ops.join, gopath, TentativePkgPath(ops, cwd, a.arg)));
  }

  lemma ResolveFromOpenedOnlyIfFound(isAbs: string -> bool, head: string -> Attempts, a: Arg, port: int, m: Matches,
                                     onGopath: Result<string>)
    requires m.exact ==> |m.list| > 0
    ensures OpensConfirmedPage(port, head, ResolveFrom(isAbs, head, a, port, m, onGopath))
  {
    var c := GopathCheck(port, head, onGopath);
    if !c.CheckErr? && !c.Found? && a.original.Some? && !isAbs(a.arg) {
      var first := if onGopath.Ok? then [Probe(onGopath.value, true)] else [];
      MatchRouteOpenedOnlyIfFound(port, head, m, a.arg);
      ConfirmedAfterProbes(port, head, first, MatchRoute(port, head, m, a.arg), true);
    }
  }

  /**
   * cmdOpen opens only a page the server confirmed: the URL is that of the last
   * probe, and that probe found the page.
   */
  lemma OpenedOnlyIfFound(ops: PathOps, head: string -> Attempts, args: seq<string>, cwd: string, gopath: string,
                          port: int, server: Result<seq<string>>)
    ensures OpensConfirmedPage(port, head, OpenSpec(ops, head, args, cwd, gopath, port, server))
  {
    OpenWithOpenedOnlyIfFound(ops, head, ChooseArg(args, cwd), cwd, gopath, port, server);
  }

  lemma OpenWithOpenedOnlyIfFound(ops: PathOps, head: string -> Attempts, chosen: Result<Arg>, cwd: string,
                                  gopath: string, port: int, server: Result<seq<string>>)
    ensures OpensConfirmedPage(port, head, OpenWith(ops, head, chosen, cwd, gopath, port, server))
  {
    if chosen.Ok? && server.Ok? {
      ResolveOpenedOnlyIfFound(ops, head, chosen.value, cwd, gopath, port, PkgMatches(server.value, chosen.value.arg));
    }
  }

  /**
   * A relative argument that is not a package on GOPATH, given when the
   * server lists no packages, makes cmdOpen panic.
   */
  lemma RelativeArgEmptyListPanics(ops: PathOps, head: string -> Attempts, arg: string, cwd: string, gopath: string,
                                   port: int)
    requires arg != "." && !ops.isAbs(arg)
    requires DeterminePackage(ops.join, gopath, TentativePkgPath(ops, cwd, arg)).Err?
    ensures OpenSpec(ops, head, [arg], cwd, gopath, port, Ok([])) == OpenRun(Panicked(SliceOutOfRange), [], true, [])
  {
    assert PkgMatches([], arg) == Matches([], false);
  }
}
