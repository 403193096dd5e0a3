/**
 * server.go: finding running godoc http servers among the machine's processes,
 * printing them, and killing them. The process table is a parameter: each
 * process carries the answers gopsutil would give for it.
 */
module Server {
  import opened Wrappers
  import opened Text

  /**
   * A process as gopsutil reports it. Its name and command line can fail to
   * load. `username` is what Username() returns (its error is ignored, leaving
   * ""), and `kill` is the error KillWithContext would return, if any. The pid
   * is an int32.
   */
  datatype Proc = Proc(pid: int, name: Result<string>, cmdline: Result<seq<string>>, username: string, kill: Option<string>)

  const UnknownUser := "UNKNOWN_USER"

  /** processMeta: a process with the metadata already loaded for it. */
  datatype ProcessMeta = ProcessMeta(process: Proc, pid: int, name: string, username: string, cmdline: seq<string>)
  {
    /** The user column: the username, or UNKNOWN_USER when it is empty. */
    function DisplayUser(): (u: string)
      ensures u != ""
      ensures username == "" ==> u == UnknownUser
      ensures username != "" ==> u == username
    {
      if username == "" then UnknownUser else username
    }

    /** String: `%-16s  %-6d  %s` of the user, the pid and the space-joined command line. */
    function String(): (s: string)
      ensures HasPrefix(s, DisplayUser())
    {
      PadRight(DisplayUser(), 16) + "  " + PadRight(Decimal(pid), 6) + "  " + Join(cmdline, " ")
    }
  }

  /**
   * When the user name and the pid fit their columns, the columns start at
   * fixed offsets, the pid reads back from its column, and the command line
   * follows.
   */
  lemma StringColumns(p: ProcessMeta)
    requires |p.DisplayUser()| <= 16 && |Decimal(p.pid)| <= 6
    ensures var s := p.String();
      var u := p.DisplayUser();
      var d := Decimal(p.pid);
      && |s| == 26 + |Join(p.cmdline, " ")|
      && s[..|u|] == u
      && (forall k :: |u| <= k < 18 ==> s[k] == ' ')
      && ParseDecimal(s[18..18 + |d|]) == p.pid
      && (forall k :: 18 + |d| <= k < 26 ==> s[k] == ' ')
      && s[26..] == Join(p.cmdline, " ")
  {
    var u := p.DisplayUser();
    var d := Decimal(p.pid);
    var pu := PadRight(u, 16);
    var pd := PadRight(d, 6);
    var s := p.String();
    assert s == pu + "  " + pd + "  " + Join(p.cmdline, " ");
    assert s[..16] == pu;
    assert s[18..24] == pd;
    assert s[18..18 + |d|] == pd[..|d|] == d;
    DecimalRoundTrip(p.pid);
  }

  // ---------------------------------------------------------------------------
  // listServerProcesses
  // ---------------------------------------------------------------------------

  const ServerName := "godoc"
  const HttpFlag := "-http"

  function ListFailed(msg: string): string {
    "failed to list processes: " + msg
  }

  function NameFailed(pid: int, msg: string): string {
    "failed to get process [" + Decimal(pid) + "] name: " + msg
  }

  function CmdlineFailed(pid: int, msg: string): string {
    "failed to get command line args for process [" + Decimal(pid) + "]: " + msg
  }

  predicate HasHttpFlag(args: seq<string>) {
    exists k :: 0 <= k < |args| && HasPrefix(args[k], HttpFlag)
  }

  /** The inner loop of listServerProcesses: is some argument an -http flag? */
  method FindHttpFlag(args: seq<string>) returns (found: bool)
    ensures found <==> HasHttpFlag(args)
  {
    for i := 0 to |args|
      invariant forall k :: 0 <= k < i ==> !HasPrefix(args[k], HttpFlag)
    {
      if HasPrefix(args[i], HttpFlag) {
        return true;
      }
    }
    return false;
  }

  /** One turn of the outer loop: an error, nothing, or the process as a match. */
  function Visit(p: Proc): Result<Option<ProcessMeta>> {
    if p.name.Err? then Err(NameFailed(p.pid, p.name.msg))
    else if !HasPrefix(p.name.value, ServerName) then Ok(None)
    else if p.cmdline.Err? then Err(CmdlineFailed(p.pid, p.cmdline.msg))
    else if HasHttpFlag(p.cmdline.value) then Ok(Some(ProcessMeta(p, p.pid, p.name.value, p.username, p.cmdline.value)))
    else Ok(None)
  }

  /** The outer loop over the process table, process by process; the first error ends it. */
  function Scan(ps: seq<Proc>): Result<seq<ProcessMeta>>
    decreases |ps|
  {
    if |ps| == 0 then Ok([])
    else
      match Scan(ps[..|ps| - 1])
      case Err(e) => Err(e)
      case Ok(ms) =>
        match Visit(ps[|ps| - 1])
        case Err(e) => Err(e)
        case Ok(found) => Ok(if found.Some? then ms + [found.value] else ms)
  }

  /** listServerProcesses, given what ProcessesWithContext returns. */
  function ListSpec(table: Result<seq<Proc>>): Result<seq<ProcessMeta>> {
    if table.Err? then Err(ListFailed(table.msg)) else Scan(table.value)
  }

  lemma {:induction false} ScanStopsAtError(ps: seq<Proc>, j: nat)
    requires j <= |ps| && Scan(ps[..j]).Err?
    ensures Scan(ps) == Scan(ps[..j])
    decreases |ps| - j
  {
    if j < |ps| {
      var init := ps[..|ps| - 1];
      assert init[..j] == ps[..j];
      ScanStopsAtError(init, j);
    } else {
      assert ps[..j] == ps;
    }
  }

  method ListServerProcesses(table: Result<seq<Proc>>) returns (r: Result<seq<ProcessMeta>>)
    ensures r == ListSpec(table)
  {
    if table.Err? {
      return Err(ListFailed(table.msg));
    }
    var ps := table.value;
    var matches := [];
    for i := 0 to |ps|
      invariant Scan(ps[..i]) == Ok(matches)
    {
      var p := ps[i];
      assert ps[..i + 1][..i] == ps[..i];
      if p.name.Err? {
        ScanStopsAtError(ps, i + 1);
        return Err(NameFailed(p.pid, p.name.msg));
      }
      var name := p.name.value;
      if !HasPrefix(name, ServerName) {
        continue;
      }
      if p.cmdline.Err? {
        ScanStopsAtError(ps, i + 1);
        return Err(CmdlineFailed(p.pid, p.cmdline.msg));
      }
      var args := p.cmdline.value;
      var uname := p.username;
      var isServer := FindHttpFlag(args);
      if isServer {
        matches := matches + [ProcessMeta(p, p.pid, name, uname, args)];
      }
    }
    assert ps[..|ps|] == ps;
    return Ok(matches);
  }

  // ---------------------------------------------------------------------------
  // What listServerProcesses finds
  // ---------------------------------------------------------------------------

  /** A process whose queries listServerProcesses needs do not fail. */
  predicate Readable(p: Proc) {
    p.name.Ok? && (HasPrefix(p.name.value, ServerName) ==> p.cmdline.Ok?)
  }

  /** A godoc http server: named godoc*, with some argument starting with -http. */
  predicate IsGodocServer(p: Proc) {
    p.name.Ok? && HasPrefix(p.name.value, ServerName) && p.cmdline.Ok? && HasHttpFlag(p.cmdline.value)
  }

  function MetaOf(p: Proc): ProcessMeta
    requires IsGodocServer(p)
  {
    ProcessMeta(p, p.pid, p.name.value, p.username, p.cmdline.value)
  }

  /** The servers of a process table, in table order. */
  function Servers(ps: seq<Proc>): seq<ProcessMeta>
    decreases |ps|
  {
    if |ps| == 0 then []
    else (if IsGodocServer(ps[0]) then [MetaOf(ps[0])] else []) + Servers(ps[1..])
  }

  lemma {:induction false} ServersSnoc(ps: seq<Proc>, p: Proc)
    ensures Servers(ps + [p]) == Servers(ps) + (if IsGodocServer(p) then [MetaOf(p)] else [])
    decreases |ps|
  {
    if |ps| > 0 {
      assert (ps + [p])[1..] == ps[1..] + [p];
      ServersSnoc(ps[1..], p);
    }
  }

  /**
   * listServerProcesses succeeds exactly when every process's name, and every
   * godoc process's command line, can be read; it then gives the godoc http
   * servers in table order.
   */
  lemma {:induction false} ScanMeaning(ps: seq<Proc>)
    ensures Scan(ps).Ok? <==> forall i :: 0 <= i < |ps| ==> Readable(ps[i])
    ensures Scan(ps).Ok? ==> Scan(ps).value == Servers(ps)
    decreases |ps|
  {
    if |ps| > 0 {
      var init := ps[..|ps| - 1];
      var p := ps[|ps| - 1];
      ScanMeaning(init);
      assert ps == init + [p];
      ServersSnoc(init, p);
      assert forall i :: 0 <= i < |init| ==> init[i] == ps[i];
    }
  }

  /** A failed scan reports the first process that could not be read. */
  lemma {:induction false} ScanFirstError(ps: seq<Proc>)
    requires Scan(ps).Err?
    ensures exists i :: 0 <= i < |ps| && Visit(ps[i]) == Err(Scan(ps).msg) && forall j :: 0 <= j < i ==> Readable(ps[j])
    decreases |ps|
  {
    var init := ps[..|ps| - 1];
    ScanMeaning(init);
    assert forall i :: 0 <= i < |init| ==> init[i] == ps[i];
    if Scan(init).Err? {
      ScanFirstError(init);
      var i :| 0 <= i < |init| && Visit(init[i]) == Err(Scan(init).msg) && forall j :: 0 <= j < i ==> Readable(init[j]);
      assert Visit(ps[i]) == Err(Scan(ps).msg);
    } else {
      assert Visit(ps[|ps| - 1]) == Err(Scan(ps).msg);
    }
  }

  /** A process is listed exactly when it is a godoc http server. */
  lemma {:induction false} ServersMembership(ps: seq<Proc>, m: ProcessMeta)
    ensures m in Servers(ps) <==> exists i :: 0 <= i < |ps| && IsGodocServer(ps[i]) && m == MetaOf(ps[i])
    decreases |ps|
  {
    if |ps| > 0 {
      ServersMembership(ps[1..], m);
      assert forall i :: 1 <= i < |ps| ==> ps[i] == ps[1..][i - 1];
      if m in Servers(ps[1..]) {
        var i :| 0 <= i < |ps[1..]| && IsGodocServer(ps[1..][i]) && m == MetaOf(ps[1..][i]);
        assert IsGodocServer(ps[i + 1]) && m == MetaOf(ps[i + 1]);
      }
    }
  }

  /** Each process gives at most one entry, however many of its arguments are -http flags. */
  lemma {:induction false} ServersAtMostOneEach(ps: seq<Proc>)
    ensures |Servers(ps)| <= |ps|
    ensures (forall i :: 0 <= i < |ps| ==> IsGodocServer(ps[i])) ==> |Servers(ps)| == |ps|
    decreases |ps|
  {
    if |ps| > 0 {
      ServersAtMostOneEach(ps[1..]);
      assert forall i :: 1 <= i < |ps| ==> ps[i] == ps[1..][i - 1];
    }
  }

  // ---------------------------------------------------------------------------
  // cmdKillAll
  // ---------------------------------------------------------------------------

  function KillFailed(p: ProcessMeta): bool {
    p.process.kill.Some?
  }

  /** The number of servers that could not be killed. */
  function KillFailures(ms: seq<ProcessMeta>): (n: nat)
    ensures n <= |ms|
    decreases |ms|
  {
    if |ms| == 0 then 0 else KillFailures(ms[..|ms| - 1]) + (if KillFailed(ms[|ms| - 1]) then 1 else 0)
  }

  /** Standard output: each server killed, as a line. */
  function KilledLines(ms: seq<ProcessMeta>): seq<string>
    decreases |ms|
  {
    if |ms| == 0 then []
    else
      var p := ms[|ms| - 1];
      KilledLines(ms[..|ms| - 1]) + (if KillFailed(p) then [] else [p.String() + "\n"])
  }

  /** Standard error: each server that could not be killed, with the error. */
  function FailedLines(ms: seq<ProcessMeta>): seq<string>
    decreases |ms|
  {
    if |ms| == 0 then []
    else
      var p := ms[|ms| - 1];
      FailedLines(ms[..|ms| - 1]) + (if KillFailed(p) then [p.String() + "  :  " + p.process.kill.value + "\n"] else [])
  }

  /** The switch on errCount. */
  function KillSummary(errCount: nat, total: nat): Option<string> {
    if errCount == 0 then None
    else if errCount == 1 && total == 1 then Some("failed to kill 1 process")
    else Some("failed to kill " + Decimal(errCount) + " of " + Decimal(total) + " processes")
  }

  /** cmdKillAll, given the process table; returns the error and the lines printed. */
  method CmdKillAll(table: Result<seq<Proc>>) returns (err: Option<string>, stdout: seq<string>, stderr: seq<string>)
    ensures ListSpec(table).Err? ==> err == Some(ListSpec(table).msg) && stdout == [] && stderr == []
    ensures ListSpec(table).Ok? ==>
      var ps := ListSpec(table).value;
      && err == KillSummary(KillFailures(ps), |ps|)
      && stdout == KilledLines(ps)
      && stderr == FailedLines(ps)
  {
    stdout, stderr := [], [];
    var listed := ListServerProcesses(table);
    if listed.Err? {
      return Some(listed.msg), [], [];
    }
    var ps := listed.value;
    var errCount := 0;
    for i := 0 to |ps|
      invariant errCount == KillFailures(ps[..i])
      invariant stdout == KilledLines(ps[..i])
      invariant stderr == FailedLines(ps[..i])
    {
      var p := ps[i];
      assert ps[..i + 1][..i] == ps[..i];
      if p.process.kill.Some? {
        stderr := stderr + [p.String() + "  :  " + p.process.kill.value + "\n"];
        errCount := errCount + 1;
      } else {
        stdout := stdout + [p.String() + "\n"];
      }
    }
    assert ps[..|ps|] == ps;
    if errCount == 0 {
      err := None;
    } else if errCount == 1 && |ps| == 1 {
      err := Some("failed to kill 1 process");
    } else {
      err := Some("failed to kill " + Decimal(errCount) + " of " + Decimal(|ps|) + " processes");
    }
  }

  /** Every server lands on exactly one of the two outputs; the failures are those on standard error. */
  lemma {:induction false} KillOutputsPartition(ms: seq<ProcessMeta>)
    ensures |KilledLines(ms)| + |FailedLines(ms)| == |ms|
    ensures |FailedLines(ms)| == KillFailures(ms)
    decreases |ms|
  {
    if |ms| > 0 {
      KillOutputsPartition(ms[..|ms| - 1]);
    }
  }

  /** cmdKillAll fails exactly when some kill failed; the singular message is for one server that failed. */
  lemma KillSummaryMeaning(ms: seq<ProcessMeta>)
    ensures KillSummary(KillFailures(ms), |ms|).None? <==> forall k :: 0 <= k < |ms| ==> !KillFailed(ms[k])
    ensures KillSummary(KillFailures(ms), |ms|) == Some("failed to kill 1 process") <==> |ms| == 1 && KillFailed(ms[0])
  {
    KillFailuresZero(ms);
    if |ms| == 1 {
      assert ms[..0] == [];
    }
    var n := KillFailures(ms);
    if n != 0 && !(n == 1 && |ms| == 1) {
      var m := "failed to kill " + Decimal(n) + " of " + Decimal(|ms|) + " processes";
      assert m[|m| - 1] == 's';
      assert "failed to kill 1 process"[23] == 's';
    }
  }

  lemma {:induction false} KillFailuresZero(ms: seq<ProcessMeta>)
    ensures KillFailures(ms) == 0 <==> forall k :: 0 <= k < |ms| ==> !KillFailed(ms[k])
    decreases |ms|
  {
    if |ms| > 0 {
      var init := ms[..|ms| - 1];
      KillFailuresZero(init);
      assert forall k :: 0 <= k < |init| ==> init[k] == ms[k];
    }
  }

  /** The counts in the plural message read back as the failures and the servers found. */
  lemma KillSummaryCounts(errCount: nat, total: nat)
    requires errCount >= 1 && !(errCount == 1 && total == 1)
    ensures var m := KillSummary(errCount, total).value;
      var lead := "failed to kill ";
      var e := Decimal(errCount);
      && ParseDecimal(m[|lead|..|lead| + |e|]) == errCount
      && ParseDecimal(m[|lead| + |e| + 4..|lead| + |e| + 4 + |Decimal(total)|]) == total
  {
    var lead := "failed to kill ";
    var e := Decimal(errCount);
    var t := Decimal(total);
    var m := KillSummary(errCount, total).value;
    assert m == lead + e + " of " + t + " processes";
    assert m[|lead|..|lead| + |e|] == e;
    assert m[|lead| + |e| + 4..|lead| + |e| + 4 + |t|] == t;
    DecimalRoundTrip(errCount);
    DecimalRoundTrip(total);
  }
}
