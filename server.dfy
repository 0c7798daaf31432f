/**
 * The running process (index.js lines 25-157): start-up through the lock,
 * and, for the owner, the socket registry driven by connects, watcher
 * events, pongs, closes and the five-second sweep, plus its three signal
 * handlers.
 */
module WebCode {
  import opened Wrappers
  import opened Text
  import opened Lock
  import opened Envelopes
  import opened Heartbeat

  datatype ProcessSignal = SigTerm | SigInt | SigPipe

  /** The owning process: its pid, `lastWorkingDir` and `wss.clients`. */
  class Server<S, O> {
    const pid: nat
    const host: Host
    var lastWorkingDir: WorkDir
    var running: bool
    var clients: seq<Session>
    var closed: seq<Session>
    var log: seq<Output<S, O>>
    var nextSession: nat
    var nextWatcher: nat

    ghost predicate Valid()
      reads this
    {
      Wf(clients, closed, log, nextSession, nextWatcher)
    }

    /** The serving setup that follows a successful lock (lines 49-131), with no socket yet. */
    constructor (host: Host, pid: nat, dir: WorkDir)
      ensures Valid()
      ensures this.host == host && this.pid == pid && lastWorkingDir == dir && running
      ensures clients == [] && closed == [] && log == []
    {
      this.pid := pid;
      this.host := host;
      lastWorkingDir := dir;
      running := true;
      clients := [];
      closed := [];
      log := [];
      nextSession := 0;
      nextWatcher := 0;
      WfEmpty<S, O>();
    }

    /**
     * The `connection` handler (lines 88-121): the socket is alive, owns a
     * fresh watcher and is sent one handshake carrying `lastWorkingDir`, or
     * `false` when it is unset.
     */
    method Connect() returns (id: nat)
      requires Valid()
      modifies this`clients, this`log, this`nextSession, this`nextWatcher
      ensures Valid()
      ensures id == old(nextSession) && Find(clients, id) == Some(Opened(id, old(nextWatcher)))
      ensures clients == old(clients) + [Opened(id, old(nextWatcher))]
      ensures log == old(log) + [Sent(id, HandshakeEnvelope(lastWorkingDir))]
      ensures old(Held(clients))[old(nextWatcher)] == 0 && Destroyed(old(log))[old(nextWatcher)] == 0
      ensures closed == old(closed) && lastWorkingDir == old(lastWorkingDir) && running == old(running)
      ensures nextSession == old(nextSession) + 1 && nextWatcher == old(nextWatcher) + 1
    {
      var e := HandshakeEnvelope<S, O>(lastWorkingDir);
      var cs, l, ns, nw := clients + [Opened(nextSession, nextWatcher)], log + [Sent(nextSession, e)], nextSession + 1, nextWatcher + 1;
      WfConnect(clients, closed, log, nextSession, nextWatcher, e);
      ConnectFresh(clients, closed, log, nextSession, nextWatcher);
      assert Wf(cs, closed, l, ns, nw);
      id := nextSession;
      clients, log, nextSession, nextWatcher := cs, l, ns, nw;
    }

    /** A watcher handler (lines 92-106): one envelope to the socket that owns the watcher. */
    method Emit(i: nat, e: WatcherEvent<S, O>)
      requires Valid() && i < |clients|
      modifies this`log
      ensures Valid()
      ensures log == old(log) + [Sent(clients[i].id, ToEnvelope(e))]
    {
      WfSend(clients, closed, log, nextSession, nextWatcher, clients[i].id, ToEnvelope(e));
      log := log + [Sent(clients[i].id, ToEnvelope(e))];
    }

    /** `heartbeat` (lines 75-77): a pong marks the socket alive. */
    method Pong(i: nat)
      requires Valid() && i < |clients|
      modifies this`clients
      ensures Valid()
      ensures clients == Answered(old(clients), i)
      ensures clients == PongAll(old(clients), {old(clients)[i].id})
    {
      WfPong(clients, closed, log, nextSession, nextWatcher, i);
      AnsweredIsPong(clients, i);
      var cs := clients[i := clients[i].(isAlive := true)];
      assert Wf(cs, closed, log, nextSession, nextWatcher);
      clients := cs;
    }

    /**
     * The `close` handler (lines 108-112): the watcher is destroyed once, the
     * socket's reference to it is nulled and the socket leaves the registry.
     */
    method Close(i: nat)
      requires Valid() && i < |clients|
      modifies this`clients, this`closed, this`log
      ensures Valid()
      ensures clients == Removed(old(clients), i)
      ensures closed == old(closed) + [AfterClose(old(clients)[i])]
      ensures log == old(log) + [Destroy(old(clients)[i].watcher.value)]
    {
      var c := clients[i];
      var cs, cl, l := clients[..i] + clients[i + 1..], closed + [AfterClose(c)], log + [Destroy(c.watcher.value)];
      WfClose(clients, closed, log, nextSession, nextWatcher, i);
      assert Wf(cs, cl, l, nextSession, nextWatcher);
      clients, closed, log := cs, cl, l;
    }

    /**
     * The `ping` interval (lines 79-86): each socket whose flag is already
     * false is terminated and closed; every other one has its flag cleared
     * and is pinged.
     */
    method Sweep()
      requires Valid()
      modifies this`clients, this`closed, this`log
      ensures Valid()
      ensures clients == Kept(old(clients)) && clients == Round(old(clients), {})
      ensures closed == old(closed) + Evicted(old(clients))
      ensures log == old(log) + SweepLog(old(clients))
    {
      SweepIsRound(clients);
      clients, closed, log := SweepEach(clients, closed, log, nextSession, nextWatcher);
    }

    /**
     * The SIGPIPE handler (lines 146-155): `lastWorkingDir` becomes line 1 of
     * the current record and a view is opened; the lock stays in place.
     * `ok` is false when the record cannot be read, and then nothing changes.
     */
    method Redirect() returns (ok: bool)
      modifies this`lastWorkingDir, host`log
      ensures ok == old(host.lockFile).Some?
      ensures ok ==> lastWorkingDir == RecordedDir(old(host.lockFile).value)
      ensures ok ==> host.log == old(host.log) + [OpenView]
      ensures !ok ==> lastWorkingDir == old(lastWorkingDir) && host.log == old(host.log)
      ensures host.lockFile == old(host.lockFile)
    {
      ok := host.lockFile.Some?;
      if ok {
        var data := Split(host.lockFile.value);
        lastWorkingDir := if |data| >= 2 then Path(data[1]) else Undefined;
        host.log := host.log + [OpenView];
      }
    }

    /** The `exit` handler (lines 133-136): the lock file is removed. */
    method Exit()
      modifies this`running, host
      ensures host.lockFile == None && host.log == old(host.log) + [Unlock]
      ensures !running
    {
      host.lockFile := None;
      host.log := host.log + [Unlock];
      running := false;
    }

    /**
     * The signal handlers (lines 138-155): SIGTERM and SIGINT end the process
     * through its `exit` handler, which releases the lock; SIGPIPE redirects
     * and never releases it.
     */
    method OnSignal(sig: ProcessSignal)
      modifies this`running, this`lastWorkingDir, host
      ensures sig != SigPipe ==> host.lockFile == None && !running && host.log == old(host.log) + [Unlock]
      ensures sig == SigPipe ==> host.lockFile == old(host.lockFile) && running == old(running)
      ensures sig != SigPipe ==> lastWorkingDir == old(lastWorkingDir)
      ensures sig == SigPipe && old(host.lockFile).Some? ==>
        lastWorkingDir == RecordedDir(old(host.lockFile).value) && host.log == old(host.log) + [OpenView]
      ensures sig == SigPipe && old(host.lockFile).None? ==>
        lastWorkingDir == old(lastWorkingDir) && host.log == old(host.log)
    {
      match sig
      case SigTerm => Exit();
      case SigInt => Exit();
      case SigPipe => var _ := Redirect();
    }
  }

  /**
   * The `forEach` of the `ping` interval, socket by socket in registry
   * order: the sockets it keeps, the ones it terminates (after their close
   * handler) and what it does to each. The registry invariant carries over
   * to the state the loop leaves.
   */
  method SweepEach<S, O>(all: seq<Session>, closed0: seq<Session>, log0: seq<Output<S, O>>, ghost ns: nat, ghost nw: nat)
    returns (kept: seq<Session>, closed: seq<Session>, log: seq<Output<S, O>>)
    requires Wf(all, closed0, log0, ns, nw)
    ensures kept == Kept(all) && closed == closed0 + Evicted(all) && log == log0 + SweepLog(all)
    ensures Wf(kept, closed, log, ns, nw)
  {
    WfSweep(all, closed0, log0, ns, nw);
    var gone, out := [], [];
    kept := [];
    var i := 0;
    while i < |all|
      invariant 0 <= i <= |all|
      invariant kept == Kept(all[..i])
      invariant gone == Evicted(all[..i])
      invariant out == SweepLog<S, O>(all[..i])
    {
      var ws := all[i];
      SweepExtend<S, O>(all, i);
      if !ws.isAlive {
        // `ws.terminate()`, whose close handler destroys the watcher
        out := out + ([Terminate(ws.id)] + CloseLog(ws));
        gone := gone + [AfterClose(ws)];
      } else {
        kept := kept + [ws.(isAlive := false)];
        out := out + [Ping(ws.id)];
      }
      i := i + 1;
    }
    assert all[..i] == all;
    closed, log := closed0 + gone, log0 + out;
  }

  /**
   * One invocation of the program (lines 20-47, 124-131): the lock callback
   * either sets up serving or, on a busy lock, hands the path off and returns.
   */
  method Start<S, O>(host: Host, pid: nat, dir: WorkDir) returns (server: Server?<S, O>)
    modifies host
    ensures var step := Launch(old(host.lockFile), pid, dir);
      host.lockFile == step.file && host.log == old(host.log) + step.events &&
      (server != null <==> step.outcome == Serving)
    ensures server != null ==>
      fresh(server) && server.Valid() && server.host == host && server.pid == pid &&
      server.lastWorkingDir == dir && server.running && server.clients == []
  {
    if host.lockFile.Some? {
      // The lock is held: read the record and try to message its owner.
      var data := Split(host.lockFile.value);
      if Truthy(dir) {
        if |data| < 2 {
          data := data + [dir.s];
        } else {
          data := data[1 := dir.s];
        }
        host.lockFile := Some(Join(data));
        host.log := host.log + [Write(Join(data))];
        host.log := host.log + [Signal(data[0])];
      }
      return null;
    }
    var record := Decimal(pid) + "\n" + AsText(dir);
    host.lockFile := Some(record);
    host.log := host.log + [Write(record)];
    server := new Server(host, pid, dir);
    if Truthy(dir) {
      host.log := host.log + [OpenView];
    }
  }

  /**
   * The hand-off scenario: a first invocation without an argument serves and
   * greets sockets with `false`; a second one with a path while the first is
   * running finds it busy, rewrites the record, then signals the first pid;
   * the owner's redirect handler reads the path back and later handshakes
   * carry it.
   */
  lemma HandOffScenario(p: nat, q: nat)
    ensures var first := Launch(None, p, InitialDir("", ""));
      var proj := InitialDir("proj", "/home/user/proj");
      var second := Launch(first.file, q, proj);
      first.outcome == Serving && first.file == Some(Decimal(p) + "\nfalse") &&
      HandshakePath(InitialDir("", "")) == False &&
      second.outcome == HandedOff &&
      second.events == [Write(second.file.value), Signal(Decimal(p))] &&
      RecordedDir(second.file.value) == Path("/home/user/proj") &&
      HandshakePath(RecordedDir(second.file.value)) == Path("/home/user/proj")
  {
    var path := "/home/user/proj";
    var record := OwnerRecord(p, False);
    assert Launch(None, p, InitialDir("", "")) == Step(Serving, Some(record), [Write(record)]);
    assert InitialDir("proj", path) == Path(path);
    OwnerRecordOwner(p, False);
    assert '\n' !in path by {
      forall k | 0 <= k < |path| ensures path[k] != '\n' { }
    }
    HandOff(record, q, path);
    NoArgumentRecord(p);
  }

  /**
   * The owner's side after a hand-off: SIGPIPE makes it read the path back
   * from the record, the next socket is greeted with that path, and SIGTERM
   * removes the lock and stops it.
   */
  method ServeHandedOff<S, O>(owner: Server<S, O>, dir: WorkDir) returns (id: nat)
    requires owner.Valid() && owner.running
    requires owner.host.lockFile.Some? && RecordedDir(owner.host.lockFile.value) == dir
    modifies owner, owner.host
    ensures id == old(owner.nextSession) && owner.log == old(owner.log) + [Sent(id, HandshakeEnvelope(dir))]
    ensures owner.lastWorkingDir == dir
    ensures owner.host.lockFile == None && !owner.running
  {
    owner.OnSignal(SigPipe);
    assert owner.lastWorkingDir == dir && owner.running;
    id := owner.Connect();
    owner.OnSignal(SigTerm);
  }

  /** The same scenario driven through the objects. */
  method RunHandOff<S, O>(p: nat, q: nat)
  {
    var path := "/home/user/proj";
    HandOffScenario(p, q);
    var first := Launch(None, p, InitialDir("", ""));
    var second := Launch(first.file, q, InitialDir("proj", path));
    var host := new Host();
    var owner: Server?<S, O> := Start(host, p, InitialDir("", ""));
    assert owner != null && host.lockFile == first.file;
    var id := owner.Connect();
    assert Last(owner.log) == Sent(id, HandshakeEnvelope(False));
    var other: Server?<S, O> := Start(host, q, InitialDir("proj", path));
    assert other == null && host.lockFile == second.file;
    assert Last(host.log) == Signal(Decimal(p));
    var id2 := ServeHandedOff(owner, Path(path));
    assert Last(owner.log) == Sent(id2, HandshakeEnvelope(Path(path)));
    assert host.lockFile == None && !owner.running;
  }
}
