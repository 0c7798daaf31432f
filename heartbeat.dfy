/**
 * Sessions and the liveness sweep (index.js lines 75-121): the registry of
 * open sockets (`wss.clients`), each with its `isAlive` flag and its watcher
 * (`ws.webCodeClient`), and what one sweep, one pong, a connect and a close
 * do to it. A session and a watcher are named by numbers that stand for the
 * identity of the socket and of the watcher object.
 */
module Heartbeat {
  import opened Wrappers
  import opened Envelopes

  /** One open socket: its identity, its `isAlive` flag and its watcher (`None` once nulled). */
  datatype Session = Session(id: nat, isAlive: bool, watcher: Option<nat>)

  /** What the server does to its sockets and watchers, in order. */
  datatype Output<S, O> =
    | Sent(to: nat, envelope: Envelope<S, O>)  // `ws.send(...)`
    | Ping(to: nat)                          // `ws.ping(...)`
    | Terminate(to: nat)                     // `ws.terminate()`
    | Destroy(watcher: nat)                  // `ws.webCodeClient.destroy()`

  function Last<T>(s: seq<T>): T
    requires |s| > 0
  {
    s[|s| - 1]
  }

  function Init<T>(s: seq<T>): seq<T>
    requires |s| > 0
  {
    s[..|s| - 1]
  }

  lemma InitLast<T>(s: seq<T>)
    requires |s| > 0
    ensures s == Init(s) + [Last(s)]
  {
  }

  // ---- Connect and close (lines 91, 108-119) -------------------------------

  /** A freshly connected socket: alive, with its own new watcher. */
  function Opened(id: nat, watcher: nat): (c: Session)
    ensures c.isAlive && c.watcher == Some(watcher) && c.id == id
  {
    Session(id, true, Some(watcher))
  }

  /** The close handler destroys the watcher, if the socket still has one. */
  function CloseLog<S, O>(c: Session): (r: seq<Output<S, O>>)
    ensures Destroyed(r) == Held([c])
  {
    assert Init([c]) == [];
    match c.watcher
    case Some(w) => [Destroy(w)]
    case None => []
  }

  /** The socket after its close handler: `ws.webCodeClient = null`. */
  function AfterClose(c: Session): (r: Session)
    ensures r.watcher == None && r.id == c.id
  {
    c.(watcher := None)
  }

  /** The registry once the socket at index `i` has left it. */
  function Removed(cs: seq<Session>, i: nat): (r: seq<Session>)
    requires i < |cs|
    ensures |r| == |cs| - 1
  {
    cs[..i] + cs[i + 1..]
  }

  /** The `heartbeat` pong handler on the socket at index `i` (lines 75-77). */
  function Answered(cs: seq<Session>, i: nat): (r: seq<Session>)
    requires i < |cs|
    ensures |r| == |cs| && r[i].isAlive && r[i].id == cs[i].id && r[i].watcher == cs[i].watcher
    ensures forall j :: 0 <= j < |cs| && j != i ==> r[j] == cs[j]
  {
    cs[i := cs[i].(isAlive := true)]
  }

  // ---- One sweep (lines 79-86) ---------------------------------------------

  /** The fate of one socket in a sweep: `None` when it is terminated. */
  function SweepOne(c: Session): Option<Session>
  {
    if c.isAlive then Some(c.(isAlive := false)) else None
  }

  function StepKept(c: Session): seq<Session>
  {
    if c.isAlive then [c.(isAlive := false)] else []
  }

  function StepEvicted(c: Session): seq<Session>
  {
    if c.isAlive then [] else [AfterClose(c)]
  }

  function StepLog<S, O>(c: Session): seq<Output<S, O>>
  {
    if c.isAlive then [Ping(c.id)] else [Terminate(c.id)] + CloseLog(c)
  }

  /** The sockets still open after a sweep, in registry order. */
  function Kept(cs: seq<Session>): (r: seq<Session>)
    ensures forall i :: 0 <= i < |r| ==> !r[i].isAlive
    decreases |cs|
  {
    if |cs| == 0 then [] else Kept(Init(cs)) + StepKept(Last(cs))
  }

  /** The sockets a sweep terminates, after their close handler ran. */
  function Evicted(cs: seq<Session>): (r: seq<Session>)
    ensures forall i :: 0 <= i < |r| ==> r[i].watcher == None
    decreases |cs|
  {
    if |cs| == 0 then [] else Evicted(Init(cs)) + StepEvicted(Last(cs))
  }

  /** What a sweep does, socket by socket in registry order. */
  function SweepLog<S, O>(cs: seq<Session>): (r: seq<Output<S, O>>)
    ensures |r| >= |cs|
    decreases |cs|
  {
    if |cs| == 0 then [] else SweepLog(Init(cs)) + StepLog(Last(cs))
  }

  /** A sweep over one more socket does that socket's part after the others'. */
  lemma SweepExtend<S, O>(cs: seq<Session>, i: nat)
    requires i < |cs|
    ensures Kept(cs[..i + 1]) == Kept(cs[..i]) + StepKept(cs[i])
    ensures Evicted(cs[..i + 1]) == Evicted(cs[..i]) + StepEvicted(cs[i])
    ensures SweepLog<S, O>(cs[..i + 1]) == SweepLog<S, O>(cs[..i]) + StepLog(cs[i])
  {
    assert Init(cs[..i + 1]) == cs[..i];
    assert Last(cs[..i + 1]) == cs[i];
  }

  // ---- Tallies -------------------------------------------------------------

  function Ids(cs: seq<Session>): multiset<nat>
    decreases |cs|
  {
    if |cs| == 0 then multiset{} else Ids(Init(cs)) + multiset{Last(cs).id}
  }

  /** The watchers the sockets still hold. */
  function Held(cs: seq<Session>): multiset<nat>
    decreases |cs|
  {
    if |cs| == 0 then multiset{}
    else Held(Init(cs)) + (match Last(cs).watcher case Some(w) => multiset{w} case None => multiset{})
  }

  function Destroyed<S, O>(log: seq<Output<S, O>>): multiset<nat>
    decreases |log|
  {
    if |log| == 0 then multiset{}
    else Destroyed(Init(log)) + (if Last(log).Destroy? then multiset{Last(log).watcher} else multiset{})
  }

  function Pinged<S, O>(log: seq<Output<S, O>>): multiset<nat>
    decreases |log|
  {
    if |log| == 0 then multiset{}
    else Pinged(Init(log)) + (if Last(log).Ping? then multiset{Last(log).to} else multiset{})
  }

  function Terminated<S, O>(log: seq<Output<S, O>>): multiset<nat>
    decreases |log|
  {
    if |log| == 0 then multiset{}
    else Terminated(Init(log)) + (if Last(log).Terminate? then multiset{Last(log).to} else multiset{})
  }

  /** The watcher names handed out so far: `0 .. n-1`, once each. */
  function Allocated(n: nat): multiset<nat>
  {
    if n == 0 then multiset{} else Allocated(n - 1) + multiset{n - 1}
  }

  lemma {:induction false} AllocatedCount(n: nat, w: nat)
    ensures Allocated(n)[w] == if w < n then 1 else 0
  {
    if n > 0 {
      AllocatedCount(n - 1, w);
    }
  }

  lemma {:induction false} IdsConcat(a: seq<Session>, b: seq<Session>)
    ensures Ids(a + b) == Ids(a) + Ids(b)
    decreases |b|
  {
    if |b| == 0 {
      assert a + b == a;
    } else {
      assert Init(a + b) == a + Init(b);
      IdsConcat(a, Init(b));
    }
  }

  lemma {:induction false} HeldConcat(a: seq<Session>, b: seq<Session>)
    ensures Held(a + b) == Held(a) + Held(b)
    decreases |b|
  {
    if |b| == 0 {
      assert a + b == a;
    } else {
      assert Init(a + b) == a + Init(b);
      HeldConcat(a, Init(b));
    }
  }

  lemma {:induction false} DestroyedConcat<S, O>(a: seq<Output<S, O>>, b: seq<Output<S, O>>)
    ensures Destroyed(a + b) == Destroyed(a) + Destroyed(b)
    decreases |b|
  {
    if |b| == 0 {
      assert a + b == a;
    } else {
      assert Init(a + b) == a + Init(b);
      DestroyedConcat(a, Init(b));
    }
  }

  lemma {:induction false} PingedConcat<S, O>(a: seq<Output<S, O>>, b: seq<Output<S, O>>)
    ensures Pinged(a + b) == Pinged(a) + Pinged(b)
    decreases |b|
  {
    if |b| == 0 {
      assert a + b == a;
    } else {
      assert Init(a + b) == a + Init(b);
      PingedConcat(a, Init(b));
    }
  }

  lemma {:induction false} TerminatedConcat<S, O>(a: seq<Output<S, O>>, b: seq<Output<S, O>>)
    ensures Terminated(a + b) == Terminated(a) + Terminated(b)
    decreases |b|
  {
    if |b| == 0 {
      assert a + b == a;
    } else {
      assert Init(a + b) == a + Init(b);
      TerminatedConcat(a, Init(b));
    }
  }

  /** What one socket's part of a sweep logs. */
  lemma StepLogTally<S, O>(c: Session)
    ensures Pinged<S, O>(StepLog(c)) == Ids(StepKept(c))
    ensures Terminated<S, O>(StepLog(c)) == Ids(StepEvicted(c))
    ensures Destroyed<S, O>(StepLog(c)) == (if c.isAlive then multiset{} else Held([c]))
  {
    if !c.isAlive {
      var t: seq<Output<S, O>> := [Terminate(c.id)];
      PingedConcat(t, CloseLog(c));
      TerminatedConcat(t, CloseLog(c));
      DestroyedConcat(t, CloseLog(c));
    }
  }

  /** Every socket is either kept or evicted by a sweep, never both. */
  lemma {:induction false} SweepSplitsIds(cs: seq<Session>)
    ensures Ids(cs) == Ids(Kept(cs)) + Ids(Evicted(cs))
    decreases |cs|
  {
    if |cs| > 0 {
      var init, c := Init(cs), Last(cs);
      SweepSplitsIds(init);
      IdsConcat(Kept(init), StepKept(c));
      IdsConcat(Evicted(init), StepEvicted(c));
    }
  }

  lemma StepReleases<S, O>(c: Session)
    ensures Held([c]) == Held(StepKept(c)) + Destroyed<S, O>(StepLog(c))
  {
    StepLogTally<S, O>(c);
    if c.isAlive {
      assert Held(StepKept(c)) == Held([c]);
    }
  }

  /** Exactly the watchers of the evicted sockets are destroyed by a sweep. */
  lemma {:induction false} SweepReleases<S, O>(cs: seq<Session>)
    ensures Held(cs) == Held(Kept(cs)) + Destroyed<S, O>(SweepLog(cs))
    decreases |cs|
  {
    if |cs| > 0 {
      var init, c := Init(cs), Last(cs);
      InitLast(cs);
      HeldConcat(init, [c]);
      SweepReleases<S, O>(init);
      HeldConcat(Kept(init), StepKept(c));
      DestroyedConcat<S, O>(SweepLog(init), StepLog(c));
      StepReleases<S, O>(c);
      var hk, dk := Held(Kept(init)), Destroyed<S, O>(SweepLog(init));
      var hs, ds := Held(StepKept(c)), Destroyed<S, O>(StepLog(c));
      calc {
        Held(cs);
        Held(init) + Held([c]);
        (hk + dk) + (hs + ds);
        (hk + hs) + (dk + ds);
        Held(Kept(cs)) + Destroyed<S, O>(SweepLog(cs));
      }
    }
  }

  /** A sweep pings exactly the kept sockets. */
  lemma {:induction false} SweepPings<S, O>(cs: seq<Session>)
    ensures Pinged<S, O>(SweepLog(cs)) == Ids(Kept(cs))
    decreases |cs|
  {
    if |cs| > 0 {
      var init, c := Init(cs), Last(cs);
      SweepPings<S, O>(init);
      IdsConcat(Kept(init), StepKept(c));
      PingedConcat<S, O>(SweepLog(init), StepLog(c));
      StepLogTally<S, O>(c);
    }
  }

  /** A sweep terminates exactly the evicted sockets. */
  lemma {:induction false} SweepTerminates<S, O>(cs: seq<Session>)
    ensures Terminated<S, O>(SweepLog(cs)) == Ids(Evicted(cs))
    decreases |cs|
  {
    if |cs| > 0 {
      var init, c := Init(cs), Last(cs);
      SweepTerminates<S, O>(init);
      IdsConcat(Evicted(init), StepEvicted(c));
      TerminatedConcat<S, O>(SweepLog(init), StepLog(c));
      StepLogTally<S, O>(c);
    }
  }

  // ---- Lookup by identity --------------------------------------------------

  ghost predicate Distinct(cs: seq<Session>)
  {
    forall x :: Ids(cs)[x] <= 1
  }

  lemma DistinctSub(a: seq<Session>, b: seq<Session>)
    requires Distinct(b) && Ids(a) <= Ids(b)
    ensures Distinct(a)
  {
    forall x ensures Ids(a)[x] <= 1 {
      assert Ids(a)[x] <= Ids(b)[x];
    }
  }

  lemma DistinctInit(cs: seq<Session>)
    requires Distinct(cs) && |cs| > 0
    ensures Distinct(Init(cs))
  {
    DistinctSub(Init(cs), cs);
  }

  lemma DistinctKept(cs: seq<Session>)
    requires Distinct(cs)
    ensures Distinct(Kept(cs))
  {
    SweepSplitsIds(cs);
    DistinctSub(Kept(cs), cs);
  }

  /** The socket with identity `id`, if it is in the registry. */
  function Find(cs: seq<Session>, id: nat): (r: Option<Session>)
    ensures r.Some? ==> r.value.id == id
    decreases |cs|
  {
    if |cs| == 0 then None
    else if Last(cs).id == id then Some(Last(cs))
    else Find(Init(cs), id)
  }

  lemma {:induction false} FindCount(cs: seq<Session>, id: nat)
    ensures Find(cs, id).Some? <==> Ids(cs)[id] >= 1
    decreases |cs|
  {
    if |cs| > 0 {
      FindCount(Init(cs), id);
    }
  }

  lemma {:induction false} FindAt(cs: seq<Session>, k: nat)
    requires Distinct(cs) && k < |cs|
    ensures Find(cs, cs[k].id) == Some(cs[k])
    decreases |cs|
  {
    var init := Init(cs);
    if k < |cs| - 1 {
      DistinctInit(cs);
      assert init[k] == cs[k];
      FindAt(init, k);
      FindCount(init, cs[k].id);
      assert Ids(cs)[cs[k].id] == Ids(init)[cs[k].id] + multiset{Last(cs).id}[cs[k].id];
    }
  }

  /** The per-socket sweep, lifted to "maybe in the registry". */
  function Swept(o: Option<Session>): Option<Session>
  {
    match o
    case None => None
    case Some(c) => SweepOne(c)
  }

  /** A sweep does to each socket exactly what `SweepOne` says, independently of the others. */
  lemma {:induction false} FindKept(cs: seq<Session>, id: nat)
    requires Distinct(cs)
    ensures Find(Kept(cs), id) == Swept(Find(cs, id))
    decreases |cs|
  {
    if |cs| > 0 {
      var init, c := Init(cs), Last(cs);
      DistinctInit(cs);
      FindKept(init, id);
      if c.id == id {
        FindCount(init, id);
        assert Ids(cs)[id] == Ids(init)[id] + multiset{c.id}[id];
      }
      if c.isAlive {
        assert Init(Kept(cs)) == Kept(init);
      } else {
        assert Kept(cs) == Kept(init);
      }
    }
  }

  /**
   * One sweep, per socket (lines 80-85): a socket whose flag is already false
   * is terminated and not pinged; every other socket stays, with its flag
   * cleared, and is pinged exactly once.
   */
  /** A socket of a well-formed registry lands in exactly one of the two sweep outcomes. */
  lemma SweepCountsAt(cs: seq<Session>, k: nat)
    requires Distinct(cs) && k < |cs|
    ensures Ids(Kept(cs))[cs[k].id] == (if cs[k].isAlive then 1 else 0)
    ensures Ids(Evicted(cs))[cs[k].id] == (if cs[k].isAlive then 0 else 1)
  {
    var id := cs[k].id;
    FindAt(cs, k);
    FindKept(cs, id);
    FindCount(cs, id);
    FindCount(Kept(cs), id);
    SweepSplitsIds(cs);
    assert Ids(cs)[id] <= 1;
  }

  lemma SweepPerSession<S, O>(cs: seq<Session>, k: nat)
    requires Distinct(cs) && k < |cs|
    ensures var id := cs[k].id;
      Find(Kept(cs), id) == (if cs[k].isAlive then Some(cs[k].(isAlive := false)) else None) &&
      Pinged<S, O>(SweepLog(cs))[id] == (if cs[k].isAlive then 1 else 0) &&
      Terminated<S, O>(SweepLog(cs))[id] == (if cs[k].isAlive then 0 else 1)
  {
    FindAt(cs, k);
    FindKept(cs, cs[k].id);
    SweepCountsAt(cs, k);
    SweepPings<S, O>(cs);
    SweepTerminates<S, O>(cs);
  }

  // ---- The registry invariant ----------------------------------------------

  ghost predicate AllOpen(cs: seq<Session>, ns: nat)
  {
    forall i :: 0 <= i < |cs| ==> cs[i].id < ns && cs[i].watcher.Some?
  }

  /**
   * The registry invariant: socket identities are distinct and allocated;
   * every open socket holds a watcher; every closed socket has let go of
   * it; and every watcher ever allocated is held by exactly one open socket
   * or has been destroyed exactly once, never both.
   */
  ghost predicate Wf<S, O>(clients: seq<Session>, closed: seq<Session>, log: seq<Output<S, O>>, ns: nat, nw: nat)
  {
    Distinct(clients) && AllOpen(clients, ns) &&
    (forall i :: 0 <= i < |closed| ==> closed[i].watcher == None) &&
    Held(clients) + Destroyed(log) == Allocated(nw)
  }

  /** No watcher is released twice, none leaks, and no two sockets share one. */
  lemma ReleasedOnce<S, O>(clients: seq<Session>, closed: seq<Session>, log: seq<Output<S, O>>, ns: nat, nw: nat, w: nat)
    requires Wf(clients, closed, log, ns, nw)
    ensures Destroyed(log)[w] <= 1 && Held(clients)[w] <= 1
    ensures w < nw ==> (Destroyed(log)[w] == 1 <==> Held(clients)[w] == 0)
    ensures w >= nw ==> Destroyed(log)[w] == 0 && Held(clients)[w] == 0
  {
    AllocatedCount(nw, w);
    assert (Held(clients) + Destroyed(log))[w] == Held(clients)[w] + Destroyed(log)[w];
  }

  lemma {:induction false} IdsBelow(cs: seq<Session>, ns: nat)
    requires AllOpen(cs, ns)
    ensures Ids(cs)[ns] == 0
    decreases |cs|
  {
    if |cs| > 0 {
      IdsBelow(Init(cs), ns);
    }
  }

  /** The registry starts empty. */
  lemma WfEmpty<S, O>()
    ensures Wf<S, O>([], [], [], 0, 0)
  {
  }

  /** A connect keeps the invariant: the new socket's identity and watcher are fresh. */
  lemma WfConnect<S, O>(clients: seq<Session>, closed: seq<Session>, log: seq<Output<S, O>>, ns: nat, nw: nat, e: Envelope<S, O>)
    requires Wf(clients, closed, log, ns, nw)
    ensures Wf(clients + [Opened(ns, nw)], closed, log + [Sent(ns, e)], ns + 1, nw + 1)
  {
    var cs := clients + [Opened(ns, nw)];
    assert Init(cs) == clients;
    var log' := log + [Sent(ns, e)];
    assert Init(log') == log;
    IdsBelow(clients, ns);
    assert Distinct(cs) by {
      forall x ensures Ids(cs)[x] <= 1 {
        assert Ids(cs)[x] == Ids(clients)[x] + multiset{ns}[x];
      }
    }
  }

  /** A connect hands out an identity and a watcher that nobody holds or has released. */
  lemma ConnectFresh<S, O>(clients: seq<Session>, closed: seq<Session>, log: seq<Output<S, O>>, ns: nat, nw: nat)
    requires Wf(clients, closed, log, ns, nw)
    ensures Find(clients + [Opened(ns, nw)], ns) == Some(Opened(ns, nw))
    ensures Held(clients)[nw] == 0 && Destroyed(log)[nw] == 0
  {
    ReleasedOnce(clients, closed, log, ns, nw, nw);
    assert Last(clients + [Opened(ns, nw)]) == Opened(ns, nw);
  }

  /** Taking the socket at `i` out of the registry takes out its identity... */
  lemma IdsSplitAt(cs: seq<Session>, i: nat)
    requires i < |cs|
    ensures Ids(cs) == Ids(Removed(cs, i)) + multiset{cs[i].id}
  {
    var pre, c, post := cs[..i], cs[i], cs[i + 1..];
    SplitAtShape(cs, i);
    IdsConcat(pre, [c] + post);
    IdsConcat([c], post);
    IdsConcat(pre, post);
    IdsSingle(c);
  }

  /** ...and its watcher. */
  lemma HeldSplitAt(cs: seq<Session>, i: nat)
    requires i < |cs|
    ensures Held(cs) == Held(Removed(cs, i)) + Held([cs[i]])
  {
    var pre, c, post := cs[..i], cs[i], cs[i + 1..];
    SplitAtShape(cs, i);
    HeldConcat(pre, [c] + post);
    HeldConcat([c], post);
    HeldConcat(pre, post);
  }

  lemma SplitAtShape(cs: seq<Session>, i: nat)
    requires i < |cs|
    ensures cs == cs[..i] + ([cs[i]] + cs[i + 1..])
    ensures Removed(cs, i) == cs[..i] + cs[i + 1..]
  {
  }

  lemma IdsSingle(c: Session)
    ensures Ids([c]) == multiset{c.id}
  {
    assert Init([c]) == [];
  }

  /** A pong keeps the invariant: it changes no identity and no watcher. */
  lemma WfPong<S, O>(clients: seq<Session>, closed: seq<Session>, log: seq<Output<S, O>>, ns: nat, nw: nat, i: nat)
    requires Wf(clients, closed, log, ns, nw) && i < |clients|
    ensures Wf(Answered(clients, i), closed, log, ns, nw)
  {
    var a := Answered(clients, i);
    assert Removed(a, i) == Removed(clients, i);
    IdsSplitAt(clients, i);
    IdsSplitAt(a, i);
    HeldSplitAt(clients, i);
    HeldSplitAt(a, i);
    assert Held([a[i]]) == Held([clients[i]]);
  }

  /** Sending an envelope keeps the invariant. */
  lemma WfSend<S, O>(clients: seq<Session>, closed: seq<Session>, log: seq<Output<S, O>>, ns: nat, nw: nat, to: nat, e: Envelope<S, O>)
    requires Wf(clients, closed, log, ns, nw)
    ensures Wf(clients, closed, log + [Sent(to, e)], ns, nw)
  {
    assert Init(log + [Sent(to, e)]) == log;
  }

  lemma RemovedAllOpen(cs: seq<Session>, i: nat, ns: nat)
    requires AllOpen(cs, ns) && i < |cs|
    ensures AllOpen(Removed(cs, i), ns)
  {
    var rest := Removed(cs, i);
    forall j | 0 <= j < |rest| ensures rest[j].id < ns && rest[j].watcher.Some? {
      if j < i { assert rest[j] == cs[j]; } else { assert rest[j] == cs[j + 1]; }
    }
  }

  /** A close keeps the invariant: the socket's watcher is destroyed, once. */
  lemma WfClose<S, O>(clients: seq<Session>, closed: seq<Session>, log: seq<Output<S, O>>, ns: nat, nw: nat, i: nat)
    requires Wf(clients, closed, log, ns, nw) && i < |clients|
    ensures Wf(Removed(clients, i), closed + [AfterClose(clients[i])], log + CloseLog(clients[i]), ns, nw)
  {
    DistinctSub(Removed(clients, i), clients) by {
      IdsSplitAt(clients, i);
    }
    RemovedAllOpen(clients, i, ns);
    CloseReleases(clients, log, i);
  }

  /** The watcher a close destroys is the one the socket held. */
  lemma CloseReleases<S, O>(clients: seq<Session>, log: seq<Output<S, O>>, i: nat)
    requires i < |clients|
    ensures Held(Removed(clients, i)) + Destroyed(log + CloseLog<S, O>(clients[i])) == Held(clients) + Destroyed(log)
  {
    var c := clients[i];
    HeldSplitAt(clients, i);
    DestroyedConcat(log, CloseLog<S, O>(c));
    assert Destroyed(CloseLog<S, O>(c)) == Held([c]);
  }

  lemma {:induction false} KeptAllOpen(cs: seq<Session>, ns: nat)
    requires AllOpen(cs, ns)
    ensures AllOpen(Kept(cs), ns)
    decreases |cs|
  {
    if |cs| > 0 {
      KeptAllOpen(Init(cs), ns);
    }
  }

  lemma ClosedStayReleased(closed: seq<Session>, more: seq<Session>)
    requires forall i :: 0 <= i < |closed| ==> closed[i].watcher == None
    requires forall i :: 0 <= i < |more| ==> more[i].watcher == None
    ensures forall i :: 0 <= i < |closed + more| ==> (closed + more)[i].watcher == None
  {
  }

  /** A sweep keeps the invariant: the evicted sockets' watchers are destroyed, once each. */
  lemma WfSweep<S, O>(clients: seq<Session>, closed: seq<Session>, log: seq<Output<S, O>>, ns: nat, nw: nat)
    requires Wf(clients, closed, log, ns, nw)
    ensures Wf(Kept(clients), closed + Evicted(clients), log + SweepLog(clients), ns, nw)
  {
    SweepReleases<S, O>(clients);
    DestroyedConcat(log, SweepLog<S, O>(clients));
    assert Held(Kept(clients)) + Destroyed(log + SweepLog<S, O>(clients)) == Allocated(nw);
    KeptAllOpen(clients, ns);
    DistinctKept(clients);
    ClosedStayReleased(closed, Evicted(clients));
  }

  // ---- Liveness over many sweeps -------------------------------------------

  /** The pongs that arrive before a sweep, from the sockets named in `ids`. */
  function PongAll(cs: seq<Session>, ids: set<nat>): (r: seq<Session>)
    ensures |r| == |cs|
    decreases |cs|
  {
    if |cs| == 0 then []
    else PongAll(Init(cs), ids) + [if Last(cs).id in ids then Last(cs).(isAlive := true) else Last(cs)]
  }

  /** One interval: the pongs from `ids`, then the sweep. */
  function Round(cs: seq<Session>, ids: set<nat>): seq<Session>
  {
    Kept(PongAll(cs, ids))
  }

  /** Consecutive intervals; `sched[j]` answers the probes before sweep `j`. */
  function Rounds(cs: seq<Session>, sched: seq<set<nat>>): seq<Session>
    decreases |sched|
  {
    if |sched| == 0 then cs else Rounds(Round(cs, sched[0]), sched[1..])
  }

  /** One interval seen by one socket: perhaps a pong, then a sweep. */
  function Cycle(o: Option<Session>, ponged: bool): Option<Session>
  {
    match o
    case None => None
    case Some(c) => SweepOne(if ponged then c.(isAlive := true) else c)
  }

  /** One socket over consecutive intervals; `pongs[j]` says whether it answered before sweep `j`. */
  function Fate(o: Option<Session>, pongs: seq<bool>): Option<Session>
    decreases |pongs|
  {
    if |pongs| == 0 then o else Fate(Cycle(o, pongs[0]), pongs[1..])
  }

  /** Whether the socket `id` answers before each sweep of `sched`. */
  function Answers(sched: seq<set<nat>>, id: nat): (r: seq<bool>)
    ensures |r| == |sched| && forall j :: 0 <= j < |sched| ==> (r[j] <==> id in sched[j])
  {
    seq(|sched|, j requires 0 <= j < |sched| => id in sched[j])
  }

  lemma {:induction false} PongAllIds(cs: seq<Session>, ids: set<nat>, id: nat)
    ensures Ids(PongAll(cs, ids)) == Ids(cs)
    ensures Find(PongAll(cs, ids), id) ==
      (match Find(cs, id) case None => None
       case Some(c) => Some(if id in ids then c.(isAlive := true) else c))
    decreases |cs|
  {
    if |cs| > 0 {
      PongAllIds(Init(cs), ids, id);
      assert Init(PongAll(cs, ids)) == PongAll(Init(cs), ids);
    }
  }

  /** The pongs act socket by socket, each on its own flag. */
  lemma {:induction false} PongAllAt(cs: seq<Session>, ids: set<nat>, k: nat)
    requires k < |cs|
    ensures PongAll(cs, ids)[k] == if cs[k].id in ids then cs[k].(isAlive := true) else cs[k]
    decreases |cs|
  {
    if k < |cs| - 1 {
      PongAllAt(Init(cs), ids, k);
    }
  }

  /** Two batches of pongs before one sweep are one batch from both sets of sockets. */
  lemma PongAllUnion(cs: seq<Session>, a: set<nat>, b: set<nat>)
    ensures PongAll(PongAll(cs, a), b) == PongAll(cs, a + b)
  {
    forall k | 0 <= k < |cs|
      ensures PongAll(PongAll(cs, a), b)[k] == PongAll(cs, a + b)[k]
    {
      PongAllAt(cs, a, k);
      PongAllAt(PongAll(cs, a), b, k);
      PongAllAt(cs, a + b, k);
    }
  }

  /** A sweep with no pongs before it is one interval whose pong set is empty. */
  lemma SweepIsRound(cs: seq<Session>)
    ensures Kept(cs) == Round(cs, {})
  {
    forall k | 0 <= k < |cs| ensures PongAll(cs, {})[k] == cs[k] {
      PongAllAt(cs, {}, k);
    }
    assert PongAll(cs, {}) == cs;
  }

  /** Every socket's identity is counted in the registry. */
  lemma {:induction false} IdsMember(cs: seq<Session>, k: nat)
    requires k < |cs|
    ensures Ids(cs)[cs[k].id] >= 1
    decreases |cs|
  {
    if k < |cs| - 1 {
      assert Init(cs)[k] == cs[k];
      IdsMember(Init(cs), k);
    }
  }

  /** In a registry with distinct identities, two positions hold two identities. */
  lemma DistinctAt(cs: seq<Session>, i: nat, j: nat)
    requires Distinct(cs) && i < |cs| && j < |cs| && i != j
    ensures cs[i].id != cs[j].id
  {
    IdsSplitAt(cs, j);
    var rest := Removed(cs, j);
    var k := if i < j then i else i - 1;
    assert rest[k] == cs[i];
    IdsMember(rest, k);
    assert Ids(cs)[cs[i].id] == Ids(rest)[cs[i].id] + multiset{cs[j].id}[cs[i].id];
  }

  /** The pong handler (`Answered`) is the pong batch of that one socket. */
  lemma AnsweredIsPong(cs: seq<Session>, i: nat)
    requires Distinct(cs) && i < |cs|
    ensures Answered(cs, i) == PongAll(cs, {cs[i].id})
  {
    forall k | 0 <= k < |cs| ensures Answered(cs, i)[k] == PongAll(cs, {cs[i].id})[k] {
      PongAllAt(cs, {cs[i].id}, k);
      if k != i {
        DistinctAt(cs, k, i);
      }
    }
  }

  /**
   * A pong handled before an interval joins that interval's pong set: so a
   * sequence of `Answered` pongs and sweeps is a run of `Rounds`. Connects and
   * closes of other sockets in between are covered by `RoundAfterConnect` and
   * `RoundAfterClose`.
   */
  lemma PongThenRound(cs: seq<Session>, i: nat, ids: set<nat>)
    requires Distinct(cs) && i < |cs|
    ensures Distinct(Answered(cs, i))
    ensures Round(Answered(cs, i), ids) == Round(cs, {cs[i].id} + ids)
  {
    AnsweredIsPong(cs, i);
    PongAllUnion(cs, {cs[i].id}, ids);
    PongAllIds(cs, {cs[i].id}, 0);
  }

  /** One interval does to each socket exactly what `Cycle` says. */
  lemma RoundLocal(cs: seq<Session>, ids: set<nat>, id: nat)
    requires Distinct(cs)
    ensures Distinct(Round(cs, ids))
    ensures Find(Round(cs, ids), id) == Cycle(Find(cs, id), id in ids)
  {
    var p := PongAll(cs, ids);
    PongAllIds(cs, ids, id);
    assert Distinct(p);
    FindKept(p, id);
    DistinctKept(p);
  }

  /** Many intervals do to each socket exactly what `Fate` says. */
  lemma {:induction false} RoundsLocal(cs: seq<Session>, sched: seq<set<nat>>, id: nat)
    requires Distinct(cs)
    ensures Find(Rounds(cs, sched), id) == Fate(Find(cs, id), Answers(sched, id))
    decreases |sched|
  {
    if |sched| > 0 {
      RoundLocal(cs, sched[0], id);
      RoundsLocal(Round(cs, sched[0]), sched[1..], id);
      assert Answers(sched, id)[1..] == Answers(sched[1..], id);
    }
  }

  lemma {:induction false} FateGone(pongs: seq<bool>)
    ensures Fate(None, pongs) == None
    decreases |pongs|
  {
    if |pongs| > 0 {
      FateGone(pongs[1..]);
    }
  }

  /**
   * One socket survives a run of sweeps exactly when it was alive or answered
   * before the first, and answered before every later one.
   */
  lemma {:induction false} FateSurvives(c: Session, pongs: seq<bool>)
    ensures Fate(Some(c), pongs).Some? <==>
      |pongs| == 0 || ((c.isAlive || pongs[0]) && forall j :: 1 <= j < |pongs| ==> pongs[j])
    decreases |pongs|
  {
    if |pongs| > 0 {
      var next := Cycle(Some(c), pongs[0]);
      var rest := pongs[1..];
      if next.None? {
        FateGone(rest);
      } else {
        FateSurvives(next.value, rest);
        assert forall j :: 1 <= j < |pongs| ==> pongs[j] == rest[j - 1];
      }
    }
  }

  /**
   * Survival in the registry, over any number of sweeps: a socket is still
   * open after the sweeps of `sched` exactly when it was open, was alive or
   * answered before the first sweep, and answered before every later one.
   */
  lemma Survival(cs: seq<Session>, sched: seq<set<nat>>, id: nat)
    requires Distinct(cs) && |sched| >= 1
    ensures Find(Rounds(cs, sched), id).Some? <==>
      Find(cs, id).Some? && (Find(cs, id).value.isAlive || id in sched[0]) &&
      (forall j :: 1 <= j < |sched| ==> id in sched[j])
  {
    RoundsLocal(cs, sched, id);
    var a := Answers(sched, id);
    if Find(cs, id).None? {
      FateGone(a);
    } else {
      FateSurvives(Find(cs, id).value, a);
    }
  }

  /** A socket that answers every probe is never terminated, for any number of sweeps. */
  lemma AnsweringSessionStays(cs: seq<Session>, sched: seq<set<nat>>, id: nat)
    requires Distinct(cs) && Find(cs, id).Some?
    requires forall j :: 0 <= j < |sched| ==> id in sched[j]
    ensures Find(Rounds(cs, sched), id).Some?
  {
    if |sched| > 0 {
      Survival(cs, sched, id);
    }
  }

  /**
   * A newly connected socket that never answers is still open after the
   * first sweep and terminated by the second.
   */
  lemma SilentSessionEvictedOnSecondSweep(cs: seq<Session>, sched: seq<set<nat>>, id: nat)
    requires Distinct(cs) && |sched| == 2
    requires Find(cs, id).Some? && Find(cs, id).value.isAlive
    requires id !in sched[0] && id !in sched[1]
    ensures Find(Rounds(cs, sched[..1]), id).Some?
    ensures Find(Rounds(cs, sched), id) == None
  {
    Survival(cs, sched[..1], id);
    Survival(cs, sched, id);
  }

  // ---- Other sockets connecting and closing --------------------------------

  /** A connect of another socket leaves this one as it was. */
  lemma FindConnect(cs: seq<Session>, n: nat, w: nat, id: nat)
    requires id != n
    ensures Find(cs + [Opened(n, w)], id) == Find(cs, id)
  {
    assert Init(cs + [Opened(n, w)]) == cs;
  }

  /** A close of another socket leaves this one as it was. */
  lemma {:induction false} FindClose(cs: seq<Session>, i: nat, id: nat)
    requires i < |cs| && id != cs[i].id
    ensures Find(Removed(cs, i), id) == Find(cs, id)
    decreases |cs|
  {
    if i == |cs| - 1 {
      assert Removed(cs, i) == Init(cs);
    } else {
      var r := Removed(cs, i);
      assert Last(r) == Last(cs);
      assert Init(r) == Removed(Init(cs), i);
      assert Init(cs)[i] == cs[i];
      FindClose(Init(cs), i, id);
    }
  }

  /** An interval after another socket connected does to this one what `Cycle` says. */
  lemma RoundAfterConnect(cs: seq<Session>, n: nat, w: nat, ids: set<nat>, id: nat)
    requires Distinct(cs + [Opened(n, w)]) && id != n
    ensures Find(Round(cs + [Opened(n, w)], ids), id) == Cycle(Find(cs, id), id in ids)
  {
    RoundLocal(cs + [Opened(n, w)], ids, id);
    FindConnect(cs, n, w, id);
  }

  /** An interval after another socket closed does to this one what `Cycle` says. */
  lemma RoundAfterClose(cs: seq<Session>, i: nat, ids: set<nat>, id: nat)
    requires Distinct(cs) && i < |cs| && id != cs[i].id
    ensures Distinct(Removed(cs, i))
    ensures Find(Round(Removed(cs, i), ids), id) == Cycle(Find(cs, id), id in ids)
  {
    IdsSplitAt(cs, i);
    DistinctSub(Removed(cs, i), cs);
    RoundLocal(Removed(cs, i), ids, id);
    FindClose(cs, i, id);
  }

  // ---- The watcher of a terminated socket ----------------------------------

  lemma {:induction false} DestroyedBySweep<S, O>(cs: seq<Session>, k: nat)
    requires k < |cs| && !cs[k].isAlive && cs[k].watcher.Some?
    ensures Destroyed<S, O>(SweepLog(cs))[cs[k].watcher.value] >= 1
    decreases |cs|
  {
    var init, c := Init(cs), Last(cs);
    DestroyedConcat(SweepLog<S, O>(init), StepLog<S, O>(c));
    StepLogTally<S, O>(c);
    if k == |cs| - 1 {
      assert Init([c]) == [];
    } else {
      assert init[k] == cs[k];
      DestroyedBySweep<S, O>(init, k);
    }
  }

  /**
   * The sweep that terminates a silent socket destroys its watcher, and over
   * the whole history that watcher is destroyed exactly once.
   */
  lemma SilentWatcherDestroyedOnce<S, O>(clients: seq<Session>, closed: seq<Session>, log: seq<Output<S, O>>, ns: nat, nw: nat, k: nat)
    requires Wf(clients, closed, log, ns, nw) && k < |clients| && !clients[k].isAlive
    ensures clients[k].watcher.Some?
    ensures Destroyed<S, O>(SweepLog(clients))[clients[k].watcher.value] == 1
    ensures Destroyed(log + SweepLog<S, O>(clients))[clients[k].watcher.value] == 1
  {
    var w := clients[k].watcher.value;
    var out := SweepLog<S, O>(clients);
    DestroyedBySweep<S, O>(clients, k);
    SweepReleases<S, O>(clients);
    assert Held(clients)[w] == Held(Kept(clients))[w] + Destroyed(out)[w];
    ReleasedOnce(clients, closed, log, ns, nw, w);
    DestroyedConcat(log, out);
    assert Destroyed(log + out)[w] == Destroyed(log)[w] + Destroyed(out)[w];
  }
}
