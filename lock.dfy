/**
 * The single-instance protocol around `web-code.lock` (index.js lines 20-47
 * and 133-157): one launch either becomes the owner and writes
 * `pid + "\n" + lastWorkingDir`, or finds the lock busy, rewrites line 1 of
 * the record with its requested path and signals the owner named on line 0.
 */
module Lock {
  import opened Wrappers
  import opened Text

  /** The value held in `lastWorkingDir`: JavaScript `false`, `undefined` or a string. */
  datatype WorkDir = False | Undefined | Path(s: string)

  /** JavaScript truthiness of `lastWorkingDir`. */
  predicate Truthy(d: WorkDir)
  {
    d.Path? && d.s != ""
  }

  /** What `+` makes of `lastWorkingDir` when it is concatenated into a string. */
  function AsText(d: WorkDir): string
  {
    match d
    case False => "false"
    case Undefined => "undefined"
    case Path(s) => s
  }

  /**
   * `lastWorkingDir = (args && resolve(args)) || false` at start-up:
   * `args` is the joined, trimmed argument text and `resolved` its resolved path.
   */
  function InitialDir(args: string, resolved: string): (d: WorkDir)
    ensures d == False || d == Path(resolved)
    ensures Truthy(d) <==> args != "" && resolved != ""
  {
    if args != "" && resolved != "" then Path(resolved) else False
  }

  /** Outward actions, in the order they happen on the machine. */
  datatype Event =
    | Write(text: string)      // the whole lock record is (re)written
    | Signal(target: string)   // `kill -s 13 <target>`: SIGPIPE to the owner
    | Unlock                   // the lock file is removed
    | OpenView                 // `termux-open-url` for the server's page

  /** The shared machine state: the lock file (absent or its text) and the event log. */
  class Host {
    var lockFile: Option<string>
    var log: seq<Event>

    constructor ()
      ensures lockFile == None && log == []
    {
      lockFile := None;
      log := [];
    }
  }

  /** The record a new owner writes (line 47). */
  function OwnerRecord(pid: nat, dir: WorkDir): (r: string)
    ensures Decimal(pid) <= r && |Decimal(pid)| < |r| && r[|Decimal(pid)|] == '\n'
  {
    Decimal(pid) + "\n" + AsText(dir)
  }

  /** `data[1] = p` on the split record; a one-line record grows a second line (line 34). */
  function SetLine1(lines: seq<string>, p: string): (r: seq<string>)
    requires |lines| >= 1
    ensures |r| == (if |lines| < 2 then 2 else |lines|)
    ensures r[0] == lines[0] && r[1] == p
    ensures forall j :: 2 <= j < |lines| ==> r[j] == lines[j]
  {
    if |lines| < 2 then lines + [p] else lines[1 := p]
  }

  /** The record a busy launch with path `p` writes back (lines 29, 34, 39). */
  function BusyRecord(t: string, p: string): (r: string)
    ensures RecordedOwner(t) <= r && |RecordedOwner(t)| < |r| && r[|RecordedOwner(t)|] == '\n'
  {
    Join(SetLine1(Split(t), p))
  }

  /** Line 0 of a record: the owner's pid text, read by the busy launch (line 41). */
  function RecordedOwner(t: string): (r: string)
    ensures r <= t && '\n' !in r
    ensures '\n' in t ==> t[|r|] == '\n'
  {
    Split(t)[0]
  }

  /** `data[1]` of a record, as the owner's SIGPIPE handler reads it (lines 147-148). */
  function RecordedDir(t: string): (r: WorkDir)
    ensures r != False
    ensures r.Path? <==> '\n' in t
    ensures r.Path? ==> '\n' !in r.s
  {
    var lines := Split(t);
    if |lines| >= 2 then Path(lines[1]) else Undefined
  }

  datatype Outcome =
    | Serving         // this launch holds the lock and goes on to serve
    | HandedOff       // busy: the record was rewritten and the owner signalled
    | AlreadyRunning  // busy, no path given: nothing written, nothing sent

  /** One launch seen as a step on the lock file: its outcome, the new file and the events. */
  datatype Step = Step(outcome: Outcome, file: Option<string>, events: seq<Event>)

  /** One invocation of the program: its pid and its start-up `lastWorkingDir`. */
  datatype Invocation = Invocation(pid: nat, dir: WorkDir)

  /**
   * The lock callback (lines 25-47) and, for the owner, the view opened by the
   * `listen` callback (line 130).
   */
  function Launch(file: Option<string>, pid: nat, dir: WorkDir): (r: Step)
    ensures r.outcome == Serving <==> file == None
    ensures r.outcome == Serving ==> r.file == Some(OwnerRecord(pid, dir))
    ensures r.outcome == AlreadyRunning ==> r.file == file && r.events == []
  {
    match file
    case None =>
      Step(Serving, Some(OwnerRecord(pid, dir)),
           [Write(OwnerRecord(pid, dir))] + (if Truthy(dir) then [OpenView] else []))
    case Some(t) =>
      if Truthy(dir) then
        Step(HandedOff, Some(BusyRecord(t, dir.s)), [Write(BusyRecord(t, dir.s)), Signal(RecordedOwner(t))])
      else
        Step(AlreadyRunning, file, [])
  }

  /** The owner's record reads back as its pid and its working directory. */
  lemma OwnerRecordReadBack(pid: nat, dir: WorkDir)
    requires '\n' !in AsText(dir)
    ensures Split(OwnerRecord(pid, dir)) == [Decimal(pid), AsText(dir)]
    ensures RecordedOwner(OwnerRecord(pid, dir)) == Decimal(pid)
    ensures RecordedDir(OwnerRecord(pid, dir)) == Path(AsText(dir))
  {
    SplitFirst(Decimal(pid), AsText(dir));
    SplitSingle(AsText(dir));
  }

  /** Line 0 of the owner's record is its pid, whatever the directory text holds. */
  lemma OwnerRecordOwner(pid: nat, dir: WorkDir)
    ensures RecordedOwner(OwnerRecord(pid, dir)) == Decimal(pid)
  {
    SplitFirst(Decimal(pid), AsText(dir));
  }

  /**
   * Without an argument the owner writes the word `false` as line 1, and an
   * owner that re-reads that record gets the (truthy) string "false".
   */
  lemma NoArgumentRecord(pid: nat)
    ensures OwnerRecord(pid, InitialDir("", "")) == Decimal(pid) + "\nfalse"
    ensures RecordedDir(OwnerRecord(pid, InitialDir("", ""))) == Path("false")
  {
    OwnerRecordReadBack(pid, False);
  }

  /**
   * The busy rewrite keeps line 0 and every line after line 1, and line 1
   * becomes the requested path; the record is rewritten whole, not appended to.
   */
  lemma BusyRewriteLines(t: string, p: string)
    requires '\n' !in p
    ensures var before, after := Split(t), Split(BusyRecord(t, p));
      |after| == (if |before| < 2 then 2 else |before|) &&
      after[0] == before[0] && after[1] == p &&
      (forall j :: 2 <= j < |before| ==> after[j] == before[j])
  {
    var lines := SetLine1(Split(t), p);
    assert NoNewline(lines);
    SplitJoin(lines);
  }

  /** The owner named on line 0 survives any busy rewrite, even of a path with line feeds. */
  lemma BusyKeepsOwner(t: string, p: string)
    ensures RecordedOwner(BusyRecord(t, p)) == RecordedOwner(t)
  {
    JoinKeepsFirstLine(SetLine1(Split(t), p));
  }

  /**
   * Hand-off: a busy launch with a path writes the record, and only then
   * signals the pid on line 0, exactly once; the owner re-reading line 1
   * then sees the requested path.
   */
  lemma HandOff(t: string, pid: nat, p: string)
    requires p != "" && '\n' !in p
    ensures var r := Launch(Some(t), pid, Path(p));
      r.outcome == HandedOff &&
      r.file == Some(BusyRecord(t, p)) &&
      r.events == [Write(BusyRecord(t, p)), Signal(RecordedOwner(t))] &&
      RecordedDir(r.file.value) == Path(p) &&
      RecordedOwner(r.file.value) == RecordedOwner(t)
  {
    BusyRewriteLines(t, p);
  }

  /**
   * The one way the hand-off loses information: a requested path holding a
   * line feed is cut at its first one when the owner re-reads line 1.
   */
  lemma NewlineInPathIsCut(t: string, p: string)
    requires '\n' in p
    ensures RecordedDir(BusyRecord(t, p)) == Path(Split(p)[0]) && Split(p)[0] != p
  {
    var lines := SetLine1(Split(t), p);
    var tail := lines[1..];
    assert tail[0] == p;
    JoinCutFirst(tail);
    SplitFirst(lines[0], Join(tail));
    assert Join(lines) == lines[0] + "\n" + Join(tail);
    SplitCuts(p);
  }

  /** Launches one after another, each on the lock file the previous one left. */
  function LaunchAll(file: Option<string>, procs: seq<Invocation>): (steps: seq<Step>)
    ensures |steps| == |procs|
    decreases |procs|
  {
    if |procs| == 0 then []
    else
      var s := Launch(file, procs[0].pid, procs[0].dir);
      [s] + LaunchAll(s.file, procs[1..])
  }

  /** Every launch on a held lock is busy, signals only the recorded owner and keeps it. */
  lemma {:induction false} BusyLaunches(t: string, procs: seq<Invocation>)
    ensures var steps := LaunchAll(Some(t), procs);
      forall i :: 0 <= i < |steps| ==>
        steps[i].outcome != Serving &&
        steps[i].file.Some? && RecordedOwner(steps[i].file.value) == RecordedOwner(t) &&
        (steps[i].outcome == HandedOff <==> Truthy(procs[i].dir)) &&
        (Truthy(procs[i].dir) ==>
           steps[i].events == [Write(steps[i].file.value), Signal(RecordedOwner(t))]) &&
        (!Truthy(procs[i].dir) ==> steps[i].events == [])
    decreases |procs|
  {
    if |procs| > 0 {
      var s := Launch(Some(t), procs[0].pid, procs[0].dir);
      if Truthy(procs[0].dir) {
        BusyKeepsOwner(t, procs[0].dir.s);
      }
      BusyLaunches(s.file.value, procs[1..]);
    }
  }

  /**
   * Mutual exclusion: of any number of launches on a free lock, exactly the
   * first serves; every later one is busy, and each that hands off a path
   * signals the first launch's pid.
   */
  lemma MutualExclusion(procs: seq<Invocation>)
    requires |procs| >= 1
    ensures var steps := LaunchAll(None, procs);
      steps[0].outcome == Serving &&
      (forall i :: 1 <= i < |steps| ==> steps[i].outcome != Serving && steps[i].file.Some?) &&
      (forall i :: 1 <= i < |steps| && Truthy(procs[i].dir) ==>
         steps[i].events == [Write(steps[i].file.value), Signal(Decimal(procs[0].pid))])
  {
    var first := OwnerRecord(procs[0].pid, procs[0].dir);
    OwnerRecordOwner(procs[0].pid, procs[0].dir);
    BusyLaunches(first, procs[1..]);
  }
}
