/** A running game: the process handle (`MinecraftProcess`, minecraft.rs)
    with its `child`, `status` and `pid` slots, the redaction applied to the
    logged command line, and the crash reports of the instance. Spawning,
    killing and waiting are done by the operating system; what it answers is
    given to the operations as a parameter. */
module Minecraft {
  import opened Wrappers
  import opened Strings
  import opened Seqs
  import opened Paths
  import opened Errors
  import opened Auth
  import opened Sorting

  datatype ProcessStatus = Starting | Running | Exited(code: int) | Killed | Failed(reason: string)

  /** A spawned child. `Child::id` is absent once the child has been reaped. */
  datatype ChildHandle = ChildHandle(id: Option<nat>)

  /** An `ExitStatus`: success, and the exit code unless a signal ended the
      child. */
  datatype ExitInfo = ExitInfo(success: bool, code: Option<int>)

  /** What `Child::wait` answers. */
  datatype WaitResult = WaitOk(exit: ExitInfo) | WaitErr(reason: string)

  /** The three guarded slots of a process handle. */
  datatype ProcState = ProcState(child: Option<ChildHandle>, status: ProcessStatus, pid: Option<nat>)

  /** The slots of a handle that has been built but not yet started. */
  const INITIAL: ProcState := ProcState(None, Starting, None)

  // ---------------------------------------------------------------------
  // Transitions

  /** The status recorded for a child that exited. */
  function ExitStatus(e: ExitInfo): ProcessStatus
  {
    if e.success then Exited(0) else Exited(e.code.UnwrapOr(-1))
  }

  /** The status `kill` records after waiting for the killed child. */
  function WaitStatus(w: WaitResult): ProcessStatus
  {
    match w
    case WaitOk(e) => ExitStatus(e)
    case WaitErr(reason) => Failed("Wait failed: " + reason)
  }

  /** `start`: the status is reset to Starting; a spawned child is stored
      with its id and the status becomes Running. */
  function StartStep(s: ProcState, spawn: Result<ChildHandle, string>): (r: (ProcState, LResult<()>))
    ensures r.1.Ok? <==> spawn.Ok?
    ensures spawn.Ok? ==> r.0.child == Some(spawn.value) && r.0.status == Running && r.0.pid == spawn.value.id
    ensures spawn.Err? ==>
      r.0 == s.(status := Starting) && r.1 == Err(Launch("Failed to start Minecraft process: " + spawn.error))
  {
    match spawn
    case Err(e) => (s.(status := Starting), Err(LaunchError("Failed to start Minecraft process: " + e)))
    case Ok(c) => (ProcState(Some(c), Running, c.id), Ok(()))
  }

  /** `get_pid`. */
  function PidOf(s: ProcState): (r: LResult<nat>)
    ensures r.Err? <==> s.pid.None?
    ensures r.Ok? ==> Some(r.value) == s.pid
    ensures r.Err? ==> r.error == Launch("Process not started")
  {
    match s.pid
    case Some(p) => Ok(p)
    case None => Err(ProcessError("Process not started"))
  }

  /** `is_running`: a child handle is stored; the child itself is not
      polled. */
  predicate HasChild(s: ProcState)
  {
    s.child.Some?
  }

  /** `kill`: without a child nothing changes; otherwise the child is taken,
      the outcome of waiting for it is recorded, the pid is cleared, and the
      call succeeds even when waiting failed. */
  function KillStep(s: ProcState, w: WaitResult): (r: (ProcState, LResult<()>))
    ensures s.child.None? ==> r == (s, Err(Launch("No process to kill")))
    ensures s.child.Some? ==> r.1 == Ok(()) && r.0.child.None? && r.0.pid.None?
    ensures s.child.Some? ==> r.0.status.Exited? || r.0.status.Failed?
  {
    if s.child.None? then (s, Err(ProcessError("No process to kill")))
    else (ProcState(None, WaitStatus(w), None), Ok(()))
  }

  /** `wait`: without a child it fails; otherwise the child is taken and the
      exit status stored and returned, or the failure stored and reported.
      The pid stays. */
  function WaitStep(s: ProcState, w: WaitResult): (r: (ProcState, LResult<ProcessStatus>))
    ensures s.child.None? ==> r == (s, Err(Launch("No process to wait for")))
    ensures s.child.Some? ==> r.0.child.None? && r.0.pid == s.pid
    ensures s.child.Some? && w.WaitOk? ==> r.1 == Ok(r.0.status) && r.0.status.Exited?
    ensures s.child.Some? && w.WaitErr? ==>
      r.0.status == Failed("Wait failed: " + w.reason) && r.1 == Err(Launch("Failed to wait for process: " + w.reason))
  {
    if s.child.None? then (s, Err(ProcessError("No process to wait for")))
    else
      match w
      case WaitOk(e) => (s.(child := None, status := ExitStatus(e)), Ok(ExitStatus(e)))
      case WaitErr(reason) =>
        (s.(child := None, status := Failed("Wait failed: " + reason)),
         Err(ProcessError("Failed to wait for process: " + reason)))
  }

  /** A successful exit is recorded as code 0 whatever code the system
      reported; an unsuccessful one keeps its code, or -1 when the child was
      ended by a signal. */
  lemma ExitCodes(e: ExitInfo)
    ensures e.success ==> ExitStatus(e) == Exited(0)
    ensures !e.success && e.code.Some? ==> ExitStatus(e) == Exited(e.code.value)
    ensures !e.success && e.code.None? ==> ExitStatus(e) == Exited(-1)
  {
  }

  /** A second `kill` after a successful one finds no child, fails, and
      leaves the recorded outcome of the first in place. */
  lemma KillOnce(s: ProcState, w1: WaitResult, w2: WaitResult)
    requires s.child.Some?
    ensures KillStep(KillStep(s, w1).0, w2) == (KillStep(s, w1).0, Err(Launch("No process to kill")))
  {
  }

  /** After `kill` the handle reports not running and no pid; after `wait`
      it reports not running but still has the pid it had. */
  lemma KillAndWaitDiffer(s: ProcState, w: WaitResult)
    requires s.child.Some?
    ensures !HasChild(KillStep(s, w).0) && PidOf(KillStep(s, w).0).Err?
    ensures !HasChild(WaitStep(s, w).0) && PidOf(WaitStep(s, w).0) == PidOf(s)
  {
  }

  /** No transition ever records `Killed`: a killed child is recorded as an
      exit or as a failed wait. */
  lemma KilledNeverRecorded(s: ProcState, spawn: Result<ChildHandle, string>, w: WaitResult)
    requires !s.status.Killed?
    ensures !StartStep(s, spawn).0.status.Killed?
    ensures !KillStep(s, w).0.status.Killed?
    ensures !WaitStep(s, w).0.status.Killed?
  {
  }

  // ---------------------------------------------------------------------
  // Redacting the logged arguments

  const REDACTED: string := "...***REDACTED***"

  /** An argument that names the access token. */
  predicate Sensitive(arg: string)
  {
    Contains(arg, "accessToken") || Contains(arg, "access_token")
  }

  /** The logged form of one argument: a sensitive one is cut to its first
      20 characters and marked, any other is logged as it is. */
  function RedactArg(arg: string): (r: string)
    ensures !Sensitive(arg) ==> r == arg
    ensures Sensitive(arg) ==>
      |REDACTED| <= |r| <= 20 + |REDACTED| && r[|r| - |REDACTED|..] == REDACTED && r[..|r| - |REDACTED|] <= arg
  {
    if Sensitive(arg) then Take(arg, 20) + REDACTED else arg
  }

  /** The copy of the argument list that `start` logs, redacted element by
      element in place. */
  method RedactArgs(args: seq<string>) returns (logged: seq<string>)
    ensures |logged| == |args|
    ensures forall i :: 0 <= i < |args| ==> logged[i] == RedactArg(args[i])
  {
    logged := args;
    var i := 0;
    while i < |logged|
      invariant 0 <= i <= |logged| == |args|
      invariant forall j :: 0 <= j < i ==> logged[j] == RedactArg(args[j])
      invariant forall j :: i <= j < |args| ==> logged[j] == args[j]
    {
      if Sensitive(logged[i]) {
        logged := logged[i := Take(logged[i], 20) + REDACTED];
      }
      i := i + 1;
    }
  }

  /** The launcher passes the token as the element after "--accessToken",
      and that element does not name the token, so it is logged unchanged. */
  lemma TokenLoggedInClear(args: seq<string>, logged: seq<string>)
    requires args == ["--accessToken", "eyJhbGciOi"]
    requires |logged| == |args| && forall i :: 0 <= i < |args| ==> logged[i] == RedactArg(args[i])
    ensures logged[1] == args[1]
  {
    if Contains(args[1], "accessToken") {
      ContainsBounds(args[1], "accessToken");
    }
    if Contains(args[1], "access_token") {
      ContainsBounds(args[1], "access_token");
    }
  }

  const VALUE_REDACTED: string := "***REDACTED***"

  /** The redaction the logging evidently intends: besides the sensitive
      arguments themselves, the value that follows one is hidden whole. */
  function RedactArgsFixed(args: seq<string>): (logged: seq<string>)
    ensures |logged| == |args|
    ensures forall i :: 0 <= i < |args| && Sensitive(args[i]) ==> logged[i] == RedactArg(args[i])
    ensures forall i :: 0 < i < |args| && Sensitive(args[i - 1]) && !Sensitive(args[i]) ==> logged[i] == VALUE_REDACTED
    ensures forall i :: 0 <= i < |args| && !Sensitive(args[i]) && (i == 0 || !Sensitive(args[i - 1])) ==> logged[i] == args[i]
  {
    seq(|args|, i requires 0 <= i < |args| =>
      if Sensitive(args[i]) then RedactArg(args[i])
      else if i > 0 && Sensitive(args[i - 1]) then VALUE_REDACTED
      else args[i])
  }

  /** With the corrected redaction no character of a token passed after
      "--accessToken" reaches the log. */
  lemma TokenHidden(args: seq<string>, i: nat)
    requires 0 < i < |args| && args[i - 1] == "--accessToken"
    ensures !Sensitive(args[i]) ==> RedactArgsFixed(args)[i] == VALUE_REDACTED
    ensures Sensitive(args[i]) ==> RedactArgsFixed(args)[i] == RedactArg(args[i])
  {
    ContainsInfix("--", "accessToken", "");
    assert "--" + "accessToken" + "" == args[i - 1];
  }

  // ---------------------------------------------------------------------
  // Crash reports and logs

  /** One directory entry: its name, whether it is a regular file, and its
      modification time in nanoseconds from the Unix epoch when it can be
      read. */
  datatype DirEntry = DirEntry(name: string, isFile: bool, modified: Option<int>)

  /** What `read_dir` yields: the entries in listing order, each of which may
      fail, or a failure to open the directory. */
  type Listing = Result<seq<Result<DirEntry, string>>, string>

  function CrashReportsDir(workingDir: Path): Path
  {
    workingDir + ["crash-reports"]
  }

  /** A regular file whose extension is exactly "txt". */
  predicate IsReport(e: DirEntry)
  {
    e.isFile && Extension(e.name) == Some("txt")
  }

  /** The modification time the sort uses: an unreadable one counts as the
      epoch. */
  function MTime(e: DirEntry): int
  {
    e.modified.UnwrapOr(0)
  }

  /** `a` must come before `b`: it is strictly newer. */
  function Newer(): (DirEntry, DirEntry) -> bool
  {
    (a: DirEntry, b: DirEntry) => MTime(a) > MTime(b)
  }

  /** How many entries the listing loop reads: it stops at the first failed
      entry. */
  function ReadCount(items: seq<Result<DirEntry, string>>): (k: nat)
    ensures k <= |items|
    ensures forall j :: 0 <= j < k ==> items[j].Ok?
  {
    if items == [] || items[0].Err? then 0 else 1 + ReadCount(items[1..])
  }

  /** The entries `keep` picks, in listing order. */
  function Kept(items: seq<Result<DirEntry, string>>, keep: DirEntry -> bool): seq<DirEntry>
  {
    if items == [] then []
    else
      var last := items[|items| - 1];
      Kept(items[..|items| - 1], keep) + if last.Ok? && keep(last.value) then [last.value] else []
  }

  function ReportFilter(): DirEntry -> bool
  {
    (e: DirEntry) => IsReport(e)
  }

  /** The reports among the entries, in listing order. */
  function Reports(items: seq<Result<DirEntry, string>>): seq<DirEntry>
  {
    Kept(items, ReportFilter())
  }

  function ReportPath(dir: Path): DirEntry -> Path
  {
    (e: DirEntry) => dir + [e.name]
  }

  /** The reports read before the first failed entry, newest first, ties in
      listing order. */
  function NewestFirst(items: seq<Result<DirEntry, string>>): seq<DirEntry>
  {
    SortBy(Reports(items[..ReadCount(items)]), Newer())
  }

  /** `list_crash_reports`. */
  function CrashReports(workingDir: Path, listing: Listing): LResult<seq<Path>>
  {
    match listing
    case Err(e) => Err(FileError("Failed to read crash reports directory: " + e))
    case Ok(items) => Ok(MapSeq(NewestFirst(items), ReportPath(CrashReportsDir(workingDir))))
  }

  /** `get_latest_crash_report`: the text of the first listed report, read
      through `read`. */
  function LatestCrashReport(workingDir: Path, listing: Listing, read: Path -> Result<string, string>): LResult<Option<string>>
  {
    match CrashReports(workingDir, listing)
    case Err(e) => Err(e)
    case Ok(paths) =>
      if paths == [] then Ok(None)
      else
        match read(paths[0])
        case Err(e) => Err(FileError("Failed to read crash report: " + e))
        case Ok(text) => Ok(Some(text))
  }

  lemma {:induction false} KeptMembership(items: seq<Result<DirEntry, string>>, keep: DirEntry -> bool, e: DirEntry)
    ensures e in Kept(items, keep) <==> keep(e) && exists j :: 0 <= j < |items| && items[j] == Ok(e)
    decreases |items|
  {
    if items != [] {
      var init := items[..|items| - 1];
      KeptMembership(init, keep, e);
      if exists j :: 0 <= j < |items| && items[j] == Ok(e) {
        var j :| 0 <= j < |items| && items[j] == Ok(e);
        if j < |init| {
          assert init[j] == Ok(e);
        }
      }
      if keep(e) && exists j :: 0 <= j < |init| && init[j] == Ok(e) {
        var j :| 0 <= j < |init| && init[j] == Ok(e);
        assert items[j] == Ok(e);
      }
    }
  }

  /** The reports are exactly the regular ".txt" files listed. */
  lemma ReportsMembership(items: seq<Result<DirEntry, string>>, e: DirEntry)
    ensures e in Reports(items) <==> IsReport(e) && exists j :: 0 <= j < |items| && items[j] == Ok(e)
  {
    KeptMembership(items, ReportFilter(), e);
  }

  lemma NewerIsStrict()
    ensures StrictOrder(Newer())
  {
  }

  /** A report is listed exactly when it is a regular ".txt" file read
      before the first failed entry. */
  lemma NewestFirstMembers(items: seq<Result<DirEntry, string>>, e: DirEntry)
    ensures e in NewestFirst(items) <==> IsReport(e) && exists j :: 0 <= j < ReadCount(items) && items[j] == Ok(e)
  {
    var read := items[..ReadCount(items)];
    SortBySorted(Reports(read), Newer());
    ReportsMembership(read, e);
    assert e in NewestFirst(items) <==> e in multiset(Reports(read));
    if exists j :: 0 <= j < ReadCount(items) && items[j] == Ok(e) {
      var j :| 0 <= j < ReadCount(items) && items[j] == Ok(e);
      assert read[j] == Ok(e);
    }
  }

  /** The listing holds exactly the regular ".txt" files read before the
      first failed entry, each once per listing, newest first. */
  lemma CrashReportsMeaning(workingDir: Path, items: seq<Result<DirEntry, string>>)
    ensures multiset(NewestFirst(items)) == multiset(Reports(items[..ReadCount(items)]))
    ensures forall e :: e in NewestFirst(items) <==>
      IsReport(e) && exists j :: 0 <= j < ReadCount(items) && items[j] == Ok(e)
    ensures forall i, j :: 0 <= i < j < |NewestFirst(items)| ==> MTime(NewestFirst(items)[i]) >= MTime(NewestFirst(items)[j])
    ensures CrashReports(workingDir, Ok(items)) == Ok(MapSeq(NewestFirst(items), ReportPath(workingDir + ["crash-reports"])))
  {
    NewerIsStrict();
    SortBySorted(Reports(items[..ReadCount(items)]), Newer());
    forall e
      ensures e in NewestFirst(items) <==> IsReport(e) && exists j :: 0 <= j < ReadCount(items) && items[j] == Ok(e)
    {
      NewestFirstMembers(items, e);
    }
  }

  /** The listing loop stops at `i` when every earlier entry was read and
      entry `i` failed or does not exist. */
  lemma {:induction false} ReadCountAt(items: seq<Result<DirEntry, string>>, i: nat)
    requires i <= |items|
    requires forall j :: 0 <= j < i ==> items[j].Ok?
    requires i == |items| || items[i].Err?
    ensures ReadCount(items) == i
    decreases i
  {
    if i > 0 {
      assert items[0].Ok?;
      ReadCountAt(items[1..], i - 1);
    }
  }

  /** One more entry read adds it to the kept ones when `keep` picks it. */
  lemma KeptStep(items: seq<Result<DirEntry, string>>, i: nat, keep: DirEntry -> bool)
    requires i < |items| && items[i].Ok?
    ensures Kept(items[..i + 1], keep) == Kept(items[..i], keep) + if keep(items[i].value) then [items[i].value] else []
  {
    assert items[..i + 1][..i] == items[..i];
  }

  /** The loop of `list_crash_reports`, for the filter `keep`: the entries
      are read until the first failure and the picked ones kept in listing
      order. */
  method CollectKept(items: seq<Result<DirEntry, string>>, keep: DirEntry -> bool) returns (found: seq<DirEntry>, i: nat)
    ensures i == ReadCount(items) && found == Kept(items[..i], keep)
  {
    found := [];
    i := 0;
    while i < |items| && items[i].Ok?
      invariant 0 <= i <= |items|
      invariant forall j :: 0 <= j < i ==> items[j].Ok?
      invariant found == Kept(items[..i], keep)
    {
      KeptStep(items, i, keep);
      found := found + if keep(items[i].value) then [items[i].value] else [];
      i := i + 1;
    }
    ReadCountAt(items, i);
  }

  /** The report `get_latest_crash_report` reads is a newest one. */
  lemma LatestIsNewest(items: seq<Result<DirEntry, string>>, e: DirEntry)
    requires e in Reports(items[..ReadCount(items)])
    ensures NewestFirst(items) != []
    ensures MTime(e) <= MTime(NewestFirst(items)[0])
  {
    var sorted := NewestFirst(items);
    assert e in multiset(sorted);
    var k :| 0 <= k < |sorted| && sorted[k] == e;
    NewerIsStrict();
    SortBySorted(Reports(items[..ReadCount(items)]), Newer());
    if k > 0 {
      assert !Newer()(sorted[k], sorted[0]);
    }
  }

  /** What reading the log file may answer. */
  datatype ReadOutcome = Text(text: string) | NotFound | ReadFailed(reason: string)

  /** `read_logs`: a missing log file is not an error. */
  function ReadLogs(outcome: ReadOutcome): (r: LResult<string>)
    ensures outcome.NotFound? ==> r == Ok("No logs available yet")
    ensures outcome.Text? ==> r == Ok(outcome.text)
    ensures outcome.ReadFailed? ==> r == Err(File("Failed to read logs: " + outcome.reason))
  {
    match outcome
    case Text(t) => Ok(t)
    case NotFound => Ok("No logs available yet")
    case ReadFailed(e) => Err(FileError("Failed to read logs: " + e))
  }

  // ---------------------------------------------------------------------
  // The process handle

  /** A process handle. Clones of a handle share these slots, as references
      to one object do. */
  class MinecraftProcess {
    var child: Option<ChildHandle>
    var status: ProcessStatus
    var pid: Option<nat>
    const javaPath: Path
    const args: seq<string>
    const workingDir: Path
    const account: Account

    function State(): ProcState
      reads this
    {
      ProcState(child, status, pid)
    }

    constructor (javaPath: Path, args: seq<string>, workingDir: Path, account: Account)
      ensures State() == INITIAL
      ensures this.javaPath == javaPath && this.args == args && this.workingDir == workingDir && this.account == account
    {
      this.javaPath := javaPath;
      this.args := args;
      this.workingDir := workingDir;
      this.account := account;
      child := None;
      status := Starting;
      pid := None;
    }

    /** `MinecraftProcess::new`: a handle is built and started; a failed
        spawn returns only the error. */
    static method New(javaPath: Path, args: seq<string>, workingDir: Path, account: Account,
                      spawn: Result<ChildHandle, string>)
      returns (r: LResult<MinecraftProcess>)
      ensures r.Ok? <==> spawn.Ok?
      ensures r.Err? ==> r.error == StartStep(INITIAL, spawn).1.error
      ensures r.Ok? ==> fresh(r.value) && r.value.State() == StartStep(INITIAL, spawn).0
      ensures r.Ok? ==> r.value.javaPath == javaPath && r.value.args == args
      ensures r.Ok? ==> r.value.workingDir == workingDir && r.value.account == account
    {
      var p := new MinecraftProcess(javaPath, args, workingDir, account);
      var started := p.Start(spawn);
      if started.Err? {
        return Err(started.error);
      }
      return Ok(p);
    }

    method Start(spawn: Result<ChildHandle, string>) returns (r: LResult<()>)
      modifies this
      ensures (State(), r) == StartStep(old(State()), spawn)
    {
      status := Starting;
      if spawn.Err? {
        return Err(LaunchError("Failed to start Minecraft process: " + spawn.error));
      }
      var c := spawn.value;
      status := Running;
      pid := c.id;
      child := Some(c);
      return Ok(());
    }

    method GetPid() returns (r: LResult<nat>)
      ensures r == PidOf(State())
    {
      if pid.None? {
        return Err(ProcessError("Process not started"));
      }
      return Ok(pid.value);
    }

    /** `get_status`: a placeholder that reports Running whatever the slots
        hold. */
    method GetStatus() returns (s: ProcessStatus)
      ensures s == Running
    {
      s := Running;
    }

    method GetStatusAsync() returns (s: ProcessStatus)
      ensures s == State().status
    {
      s := status;
    }

    method IsRunning() returns (b: bool)
      ensures b == HasChild(State())
    {
      b := child.Some?;
    }

    method Kill(w: WaitResult) returns (r: LResult<()>)
      modifies this
      ensures (State(), r) == KillStep(old(State()), w)
    {
      if child.None? {
        return Err(ProcessError("No process to kill"));
      }
      child := None;
      match w {
        case WaitOk(e) =>
          status := if e.success then Exited(0) else Exited(e.code.UnwrapOr(-1));
        case WaitErr(reason) =>
          status := Failed("Wait failed: " + reason);
      }
      pid := None;
      return Ok(());
    }

    method Wait(w: WaitResult) returns (r: LResult<ProcessStatus>)
      modifies this
      ensures (State(), r) == WaitStep(old(State()), w)
    {
      if child.None? {
        return Err(ProcessError("No process to wait for"));
      }
      child := None;
      match w {
        case WaitOk(e) =>
          var s := if e.success then Exited(0) else Exited(e.code.UnwrapOr(-1));
          status := s;
          return Ok(s);
        case WaitErr(reason) =>
          status := Failed("Wait failed: " + reason);
          return Err(ProcessError("Failed to wait for process: " + reason));
      }
    }

    function LogPath(): Path
    {
      workingDir + ["logs", "latest.log"]
    }

    /** `list_crash_reports`: the entries are read until the first failure,
        the reports collected, then sorted newest first. */
    method ListCrashReports(listing: Listing) returns (r: LResult<seq<Path>>)
      ensures r == CrashReports(workingDir, listing)
    {
      if listing.Err? {
        return Err(FileError("Failed to read crash reports directory: " + listing.error));
      }
      var found, _ := CollectKept(listing.value, ReportFilter());
      var sorted := SortBy(found, Newer());
      r := Ok(MapSeq(sorted, ReportPath(CrashReportsDir(workingDir))));
    }

    method GetLatestCrashReport(listing: Listing, read: Path -> Result<string, string>) returns (r: LResult<Option<string>>)
      ensures r == LatestCrashReport(workingDir, listing, read)
    {
      var reports := ListCrashReports(listing);
      if reports.Err? {
        return Err(reports.error);
      }
      if reports.value == [] {
        return Ok(None);
      }
      var content := read(reports.value[0]);
      if content.Err? {
        return Err(FileError("Failed to read crash report: " + content.error));
      }
      return Ok(Some(content.value));
    }
  }
}
