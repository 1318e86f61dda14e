/** What every run of the FTL server keeps: media ports and stream ids are conserved. */
module ServerInvariants {
  import opened Collections
  import opened ServerModel

  /** The things that are passed from event to task to event to the table of active streams. */
  datatype Kind = Ports | Ids | Refs

  function EventTokens(k: Kind, e: Event): multiset<nat> {
    match e
    case StreamIdAssigned(_, _, id) => if k.Ids? then multiset{id} else multiset{}
    case StreamStarted(st, _, id, port) => multiset{if k.Ports? then port else if k.Ids? then id else st}
    case StreamStartFailed(_, id, port) =>
      if k.Ports? then multiset{port} else if k.Ids? then multiset{id} else multiset{}
    case _ => multiset{}
  }

  function TaskTokens(k: Kind, t: Task): multiset<nat> {
    match t
    case StartStream(_, _, id, port) =>
      if k.Ports? then multiset{port} else if k.Ids? then multiset{id} else multiset{}
    case _ => multiset{}
  }

  function RecordToken(k: Kind, st: StreamRef, r: Record): nat {
    match k
    case Ports => r.port
    case Ids => r.streamId
    case Refs => st
  }

  ghost function Queued(k: Kind, q: seq<Event>): multiset<nat> {
    if q == [] then multiset{} else EventTokens(k, q[0]) + Queued(k, q[1..])
  }

  ghost function InFlight(k: Kind, ts: seq<Task>): multiset<nat> {
    if ts == [] then multiset{} else TaskTokens(k, ts[0]) + InFlight(k, ts[1..])
  }

  ghost function Active(k: Kind, m: map<StreamRef, Record>): multiset<nat>
    decreases |m|
  {
    if m == map[] then multiset{}
    else
      var st := Least(m.Keys);
      assert |m - {st}| < |m| by { RemoveShrinks(m, st); }
      multiset{RecordToken(k, st, m[st])} + Active(k, m - {st})
  }

  /** All of one kind that the server holds. */
  ghost function Held(k: Kind, s: Server): multiset<nat> {
    Queued(k, s.queue) + InFlight(k, s.tasks) + Active(k, s.active)
  }

  // ---------------------------------------------------------------------------
  // How the pieces of handlers change what is held

  lemma RemoveShrinks<K, V>(m: map<K, V>, x: K)
    requires x in m
    ensures |m - {x}| == |m| - 1
  {
    assert (m - {x}).Keys == m.Keys - {x};
  }

  lemma {:induction false} QueuedAppend(k: Kind, q: seq<Event>, e: Event)
    ensures Queued(k, q + [e]) == Queued(k, q) + EventTokens(k, e)
  {
    if q != [] {
      assert (q + [e])[1..] == q[1..] + [e];
      QueuedAppend(k, q[1..], e);
    }
  }

  lemma {:induction false} InFlightAppend(k: Kind, ts: seq<Task>, t: Task)
    ensures InFlight(k, ts + [t]) == InFlight(k, ts) + TaskTokens(k, t)
  {
    if ts != [] {
      assert (ts + [t])[1..] == ts[1..] + [t];
      InFlightAppend(k, ts[1..], t);
    }
  }

  lemma {:induction false} InFlightRemove(k: Kind, ts: seq<Task>, i: nat)
    requires i < |ts|
    ensures InFlight(k, ts) == TaskTokens(k, ts[i]) + InFlight(k, ts[..i] + ts[i + 1..])
  {
    hide TaskTokens;
    if i == 0 {
      assert ts[..0] + ts[1..] == ts[1..];
    } else {
      InFlightRemove(k, ts[1..], i - 1);
      var rest := ts[..i] + ts[i + 1..];
      assert rest[0] == ts[0] && rest[1..] == ts[1..][..i - 1] + ts[1..][i..];
    }
  }

  lemma {:induction false} ActiveRemove(k: Kind, m: map<StreamRef, Record>, st: StreamRef)
    requires st in m
    ensures Active(k, m) == multiset{RecordToken(k, st, m[st])} + Active(k, m - {st})
    decreases |m|
  {
    hide RecordToken, Least, Active;
    ActiveLeast(k, m);
    var x := Least(m.Keys);
    if x != st {
      RemoveShrinks(m, x);
      ActiveRemove(k, m - {x}, st);
      LeastStays(m, st);
      ActiveLeast(k, m - {st});
      assert m - {st} - {x} == m - {x} - {st};
    }
  }

  lemma ActiveLeast(k: Kind, m: map<StreamRef, Record>)
    requires m != map[]
    ensures
      var st := Least(m.Keys);
      Active(k, m) == multiset{RecordToken(k, st, m[st])} + Active(k, m - {st})
  {
    hide RecordToken, Least;
  }

  lemma LeastStays(m: map<StreamRef, Record>, st: StreamRef)
    requires st in m && Least(m.Keys) != st
    ensures (m - {st}).Keys != {} && Least((m - {st}).Keys) == Least(m.Keys)
  {
    assert (m - {st}).Keys == m.Keys - {st} && Least(m.Keys) in (m - {st}).Keys;
  }

  lemma ActiveAdd(k: Kind, m: map<StreamRef, Record>, st: StreamRef, r: Record)
    requires st !in m
    ensures Active(k, m[st := r]) == Active(k, m) + multiset{RecordToken(k, st, r)}
  {
    hide Active, RecordToken;
    ActiveRemove(k, m[st := r], st);
    assert m[st := r] - {st} == m;
  }

  lemma {:induction false} ActiveMember(k: Kind, m: map<StreamRef, Record>, st: StreamRef)
    requires st in m
    ensures RecordToken(k, st, m[st]) in Active(k, m)
  {
    hide Active, RecordToken;
    ActiveRemove(k, m, st);
  }

  lemma SetAdd(a: set<nat>, x: nat)
    requires x !in a
    ensures multiset(a + {x}) == multiset(a) + multiset{x}
  {
  }

  lemma SetRemove(a: set<nat>, x: nat)
    requires x in a
    ensures multiset(a) == multiset(a - {x}) + multiset{x}
  {
    SetAdd(a - {x}, x);
    assert a - {x} + {x} == a;
  }

  // ---------------------------------------------------------------------------
  // The invariant

  ghost predicate Distinct(m: multiset<nat>, bound: nat) {
    forall x :: x in m ==> x < bound && m[x] == 1
  }

  /** A connection is handed to at most one stream, and is no longer pending then. */
  ghost predicate ConnectionsUsedOnce(s: Server) {
    && (forall c :: c in s.pending ==> c < s.connections && s.launched[c] == 0)
    && Distinct(s.launched, s.connections)
  }

  /** The books of the server balance, if it holds these ports, ids and stream references:
      the used ports are those held, each once; every stream id issued is held, ended or
      stopped, and only once in all; stream references are distinct. */
  ghost predicate Balanced(s: Server, ports: multiset<nat>, ids: multiset<nat>, refs: multiset<nat>) {
    && multiset(s.usedPorts) == ports
    && multiset(s.issued) == ids + s.ended + s.stopped
    && Distinct(refs, s.streams)
    && ConnectionsUsedOnce(s)
  }

  ghost predicate Invariant(s: Server) {
    Balanced(s, Held(Ports, s), Held(Ids, s), Held(Refs, s))
  }

  /** The invariant while an event or task has been taken out, and what it carried has yet
      to be placed. */
  ghost predicate Owing(s: Server, ports: multiset<nat>, ids: multiset<nat>, refs: multiset<nat>) {
    Balanced(s, Held(Ports, s) + ports, Held(Ids, s) + ids, Held(Refs, s) + refs)
  }

  lemma OwingNothing(s: Server)
    ensures Owing(s, multiset{}, multiset{}, multiset{}) <==> Invariant(s)
  {
    assert forall k: Kind :: Held(k, s) + multiset{} == Held(k, s);
  }

  lemma DequeueHeld(k: Kind, s: Server)
    requires s.queue != []
    ensures Held(k, s) == Held(k, Dequeue(s)) + EventTokens(k, s.queue[0])
  {
  }

  lemma EnqueueHeld(k: Kind, s: Server, e: Event)
    ensures Held(k, Enqueue(s, e)) == Held(k, s) + EventTokens(k, e)
  {
    QueuedAppend(k, s.queue, e);
  }

  lemma SpawnHeld(k: Kind, s: Server, t: Task)
    ensures Held(k, Spawn(s, t)) == Held(k, s) + TaskTokens(k, t)
  {
    InFlightAppend(k, s.tasks, t);
  }

  lemma FinishHeld(k: Kind, s: Server, i: nat)
    requires i < |s.tasks|
    ensures Held(k, s) == Held(k, Finish(s, i)) + TaskTokens(k, s.tasks[i])
  {
    InFlightRemove(k, s.tasks, i);
  }

  lemma RemoveStreamHeld(k: Kind, s: Server, st: StreamRef)
    requires st in s.active
    ensures Held(k, s) == Held(k, RemoveStreamRecord(s, st)) + multiset{RecordToken(k, st, s.active[st])}
  {
    ActiveRemove(k, s.active, st);
  }

  lemma AddStreamHeld(k: Kind, s: Server, st: StreamRef, r: Record)
    requires st !in s.active
    ensures Held(k, s.(active := s.active[st := r])) == Held(k, s) + multiset{RecordToken(k, st, r)}
  {
    ActiveAdd(k, s.active, st, r);
  }

  // ---------------------------------------------------------------------------
  // Each handler keeps the invariant

  lemma TakeEvent(s: Server)
    requires Invariant(s) && s.queue != []
    ensures var e := s.queue[0];
            Owing(Dequeue(s), EventTokens(Ports, e), EventTokens(Ids, e), EventTokens(Refs, e))
  {
    hide Held, EventTokens;
    DequeueHeld(Ports, s);
    DequeueHeld(Ids, s);
    DequeueHeld(Refs, s);
  }

  lemma TakeTask(s: Server, i: nat)
    requires Invariant(s) && i < |s.tasks|
    ensures var t := s.tasks[i];
            Owing(Finish(s, i), TaskTokens(Ports, t), TaskTokens(Ids, t), TaskTokens(Refs, t))
  {
    hide Held, TaskTokens;
    FinishHeld(Ports, s, i);
    FinishHeld(Ids, s, i);
    FinishHeld(Refs, s, i);
  }

  /** Placing what is owed in a new task. */
  lemma SpawnKeeps(s: Server, t: Task)
    requires Owing(s, TaskTokens(Ports, t), TaskTokens(Ids, t), TaskTokens(Refs, t))
    ensures Invariant(Spawn(s, t))
  {
    hide Held, TaskTokens;
    SpawnHeld(Ports, s, t);
    SpawnHeld(Ids, s, t);
    SpawnHeld(Refs, s, t);
  }

  /** Placing what is owed in a new event. */
  lemma EnqueueKeeps(s: Server, e: Event)
    requires Owing(s, EventTokens(Ports, e), EventTokens(Ids, e), EventTokens(Refs, e))
    ensures Invariant(Enqueue(s, e))
  {
    hide Held, EventTokens;
    EnqueueHeld(Ports, s, e);
    EnqueueHeld(Ids, s, e);
    EnqueueHeld(Refs, s, e);
  }

  /** Dispatching onStreamEnded settles an id that is owed. */
  lemma EndedKeeps(s: Server, channel: Channel, id: StreamId)
    requires Owing(s, multiset{}, multiset{id}, multiset{})
    ensures Invariant(DispatchEnded(s, channel, id))
  {
    hide Held;
    var u := s.(ended := s.ended + multiset{id});
    SameHeld(s, u);
    assert Held(Ids, s) + multiset{id} + s.ended + s.stopped == Held(Ids, u) + multiset{} + u.ended + u.stopped;
    SpawnKeeps(u, CallStreamEnded(channel, id));
  }

  lemma SameHeld(s: Server, u: Server)
    requires s.queue == u.queue && s.tasks == u.tasks && s.active == u.active
    ensures forall k: Kind :: Held(k, s) == Held(k, u)
  {
  }

  /** What removing a stream record leaves to be accounted for: its id. */
  lemma RemoveStreamOwes(s: Server, st: StreamRef)
    requires Invariant(s) && st in s.active
    ensures Owing(RemoveStreamRecord(s, st), multiset{}, multiset{s.active[st].streamId}, multiset{})
  {
    hide Held;
    var u := RemoveStreamRecord(s, st);
    RemoveStreamHeld(Ports, s, st);
    RemoveStreamHeld(Ids, s, st);
    RemoveStreamHeld(Refs, s, st);
    var port := s.active[st].port;
    ReleasePort(s.usedPorts, Held(Ports, u), port);
    assert Distinct(Held(Refs, u) + multiset{}, s.streams) by {
      assert forall x :: x in Held(Refs, u) ==> x in Held(Refs, s) && 0 < Held(Refs, u)[x] <= Held(Refs, s)[x];
    }
  }

  lemma ReleasePort(used: set<nat>, held: multiset<nat>, port: nat)
    requires multiset(used) == held + multiset{port}
    ensures multiset(used - {port}) == held + multiset{}
  {
    assert port in multiset(used);
    SetRemove(used, port);
    assert held == multiset(used) - multiset{port};
  }

  lemma StopStreamKeeps(s: Server, channel: Channel, id: StreamId)
    requires Invariant(s)
    ensures Invariant(OnStopStream(s, channel, id))
  {
    hide Held;
    var found := Matches(s, channel, id);
    if found != {} {
      var st := Least(found);
      RemoveStreamOwes(s, st);
      var v := RemoveStreamRecord(s, st);
      var u := v.(stopped := s.stopped + multiset{s.active[st].streamId});
      SameHeld(v, u);
      assert Held(Ids, v) + multiset{s.active[st].streamId} + v.ended + v.stopped
          == Held(Ids, u) + multiset{} + u.ended + u.stopped;
      SpawnKeeps(u, RequestStop(st));
    }
  }

  lemma LaunchKeeps(s: Server, conn: Conn, channel: Channel, id: StreamId, port: Port)
    requires Owing(s, multiset{}, multiset{id}, multiset{}) && conn in s.pending && port !in s.usedPorts
    ensures Invariant(Spawn(s.(usedPorts := s.usedPorts + {port}, pending := s.pending - {conn},
                               launched := s.launched + multiset{conn}),
                            StartStream(conn, channel, id, port)))
  {
    hide Held;
    var u := s.(usedPorts := s.usedPorts + {port}, pending := s.pending - {conn},
                launched := s.launched + multiset{conn});
    SameHeld(s, u);
    SetAdd(s.usedPorts, port);
    assert Held(Ports, s) + multiset{} + multiset{port} == Held(Ports, u) + multiset{port};
    SpawnKeeps(u, StartStream(conn, channel, id, port));
  }

  lemma ReservedIsFree(s: Server)
    requires SearchEnds(s)
    ensures ReservePort(s).Some? ==> ReservePort(s).value !in s.usedPorts
  {
  }

  lemma IdAssignedKeeps(s: Server, conn: Conn, channel: Channel, id: StreamId)
    requires Owing(s, multiset{}, multiset{id}, multiset{}) && (conn in s.pending ==> SearchEnds(s))
    ensures Invariant(OnStreamIdAssigned(s, conn, channel, id))
  {
    hide Held;
    if conn !in s.pending {
      EndedKeeps(s, channel, id);
    } else {
      ReservedIsFree(s);
      match ReservePort(s)
      case None =>
        EndedKeeps(s, channel, id);
        OwingNothing(DispatchEnded(s, channel, id));
        EnqueueKeeps(DispatchEnded(s, channel, id), TerminateControlConnection(conn));
      case Some(port) =>
        LaunchKeeps(s, conn, channel, id, port);
    }
  }

  /** A stream about to become active is not active yet. */
  lemma StartedIsNew(s: Server, st: StreamRef)
    requires Distinct(Held(Refs, s) + multiset{st}, s.streams)
    ensures st !in s.active
  {
    assert (Held(Refs, s) + multiset{st})[st] == 1;
    assert st !in Active(Refs, s.active);
    if st in s.active { ActiveMember(Refs, s.active, st); }
  }

  lemma StartedKeeps(s: Server, st: StreamRef, r: Record)
    requires Owing(s, multiset{r.port}, multiset{r.streamId}, multiset{st})
    ensures Invariant(OnStreamStarted(s, st, r))
  {
    hide Held;
    StartedIsNew(s, st);
    AddStreamHeld(Ports, s, st, r);
    AddStreamHeld(Ids, s, st, r);
    AddStreamHeld(Refs, s, st, r);
  }

  lemma FailedKeeps(s: Server, channel: Channel, id: StreamId, port: Port)
    requires Owing(s, multiset{port}, multiset{id}, multiset{})
    ensures Invariant(OnStreamStartFailed(s, channel, id, port))
  {
    hide Held;
    var u := s.(usedPorts := s.usedPorts - {port});
    SameHeld(s, u);
    ReleasePort(s.usedPorts, Held(Ports, s), port);
    EndedKeeps(u, channel, id);
  }

  lemma ClosedKeeps(s: Server, st: StreamRef)
    requires Invariant(s)
    ensures Invariant(OnStreamClosed(s, st))
  {
    hide Held;
    if st in s.active {
      RemoveStreamOwes(s, st);
      EndedKeeps(RemoveStreamRecord(s, st), s.active[st].channel, s.active[st].streamId);
    }
  }

  lemma PlainSpawn(s: Server, t: Task)
    requires Invariant(s) && !t.StartStream?
    ensures Invariant(Spawn(s, t))
  {
    hide Held;
    OwingNothing(s);
    SpawnKeeps(s, t);
  }

  lemma PlainEnqueue(s: Server, e: Event)
    requires Invariant(s) && !e.StreamIdAssigned? && !e.StreamStarted? && !e.StreamStartFailed?
    ensures Invariant(Enqueue(s, e))
  {
    hide Held;
    OwingNothing(s);
    EnqueueKeeps(s, e);
  }

  lemma PendingKeeps(s: Server, u: Server)
    requires Invariant(s) && u == s.(pending := u.pending, connections := u.connections)
    requires s.connections <= u.connections
    requires forall c :: c in u.pending ==> c in s.pending || s.connections <= c < u.connections
    ensures Invariant(u)
  {
    hide Held;
    SameHeld(s, u);
  }

  lemma TerminateKeeps(s: Server, c: Conn)
    requires Invariant(s)
    ensures Invariant(OnTerminate(s, c))
  {
    hide Invariant;
    if c in s.pending {
      PendingKeeps(s, s.(pending := s.pending - {c}));
      PlainSpawn(s.(pending := s.pending - {c}), Terminate(c));
    }
  }

  lemma HandlePlainKeeps(s: Server, e: Event, now: nat)
    requires Invariant(s) && !e.StreamIdAssigned? && !e.StreamStarted? && !e.StreamStartFailed?
    ensures Invariant(Handle(s, e, now))
  {
    hide Invariant;
    match e
    case StopStream(ch, id) => StopStreamKeeps(s, ch, id);
    case NewControlConnection => PendingKeeps(s, OnNewControlConnection(s, now));
    case ControlConnectionClosed(c) => PendingKeeps(s, s.(pending := s.pending - {c}));
    case ControlRequestHmacKey(c, ch) => PlainSpawn(s, FetchKey(c, ch));
    case ControlHmacKeyFound(c) => PlainSpawn(s, ProvideKey(c));
    case ControlRequestMediaPort(c, ch) => PlainSpawn(s, CallStreamStarted(c, ch));
    case TerminateControlConnection(c) => TerminateKeeps(s, c);
    case StreamClosed(st) => ClosedKeeps(s, st);
  }

  lemma DispatchKeeps(s: Server, now: nat)
    requires Invariant(s) && s.queue != [] && CanHandle(Dequeue(s), s.queue[0])
    ensures Invariant(Handle(Dequeue(s), s.queue[0], now))
  {
    hide Held, Balanced;
    TakeEvent(s);
    var u := Dequeue(s);
    match s.queue[0]
    case StreamIdAssigned(c, ch, id) => IdAssignedKeeps(u, c, ch, id);
    case StreamStarted(st, ch, id, port) => StartedKeeps(u, st, Record(ch, id, port));
    case StreamStartFailed(ch, id, port) => FailedKeeps(u, ch, id, port);
    case e =>
      OwingNothing(u);
      HandlePlainKeeps(u, e, now);
  }

  /** A new stream brings a new reference to be placed. */
  lemma StartOwes(s: Server, id: StreamId, port: Port)
    requires Owing(s, multiset{port}, multiset{id}, multiset{})
    ensures Owing(s.(streams := s.streams + 1), multiset{port}, multiset{id}, multiset{s.streams})
  {
    hide Held;
    var u := s.(streams := s.streams + 1);
    SameHeld(s, u);
    assert Held(Refs, s) + multiset{} == Held(Refs, u);
    NewIsDistinct(Held(Refs, u), s.streams);
  }

  lemma NewIsDistinct(m: multiset<nat>, bound: nat)
    requires Distinct(m, bound)
    ensures Distinct(m + multiset{bound}, bound + 1)
  {
  }

  lemma StartCompletes(s: Server, channel: Channel, id: StreamId, port: Port)
    requires Owing(s, multiset{port}, multiset{id}, multiset{})
    ensures Invariant(Enqueue(s.(streams := s.streams + 1), StreamStarted(s.streams, channel, id, port)))
  {
    hide Held, Balanced;
    var u := s.(streams := s.streams + 1);
    StartOwes(s, id, port);
    EnqueueKeeps(u, StreamStarted(s.streams, channel, id, port));
  }

  lemma IdIssued(s: Server, conn: Conn, channel: Channel, id: StreamId)
    requires Invariant(s) && id !in s.issued
    ensures Invariant(Enqueue(s.(issued := s.issued + {id}), StreamIdAssigned(conn, channel, id)))
  {
    hide Held;
    OwingNothing(s);
    var u := s.(issued := s.issued + {id});
    SameHeld(s, u);
    SetAdd(s.issued, id);
    assert Held(Ids, s) + s.ended + s.stopped + multiset{id} == Held(Ids, u) + multiset{id} + u.ended + u.stopped;
    EnqueueKeeps(u, StreamIdAssigned(conn, channel, id));
  }

  lemma CompleteKeeps(s: Server, i: nat, success: bool, id: StreamId)
    requires Invariant(s) && i < |s.tasks| && (s.tasks[i].CallStreamStarted? && success ==> id !in s.issued)
    ensures Invariant(OnComplete(Finish(s, i), s.tasks[i], success, id))
  {
    hide Held, Balanced, Owing, Invariant, OnComplete, Finish;
    TakeTask(s, i);
    assert Finish(s, i).issued == s.issued by { FinishKeepsIssued(s, i); }
    OnCompleteKeeps(Finish(s, i), s.tasks[i], success, id);
  }

  lemma FinishKeepsIssued(s: Server, i: nat)
    requires i < |s.tasks|
    ensures Finish(s, i).issued == s.issued
  {
  }

  lemma OnCompleteKeeps(s: Server, t: Task, success: bool, id: StreamId)
    requires Owing(s, TaskTokens(Ports, t), TaskTokens(Ids, t), TaskTokens(Refs, t))
    requires t.CallStreamStarted? && success ==> id !in s.issued
    ensures Invariant(OnComplete(s, t, success, id))
  {
    hide Owing, Invariant;
    if t.StartStream? {
      if success {
        StartCompletes(s, t.channel, t.streamId, t.port);
      } else {
        EnqueueKeeps(s, StreamStartFailed(t.channel, t.streamId, t.port));
      }
    } else {
      OwingNothing(s);
      match t
      case CallStreamStarted(c, ch) =>
        if success { IdIssued(s, c, ch, id); } else { PlainEnqueue(s, TerminateControlConnection(c)); }
      case FetchKey(c, _) =>
        PlainEnqueue(s, if success then ControlHmacKeyFound(c) else TerminateControlConnection(c));
      case _ =>
    }
  }

  lemma StepKeeps(s: Server, step: Step)
    requires Invariant(s) && Enabled(s, step)
    ensures Invariant(Apply(s, step))
  {
    hide Invariant;
    match step
    case Dispatch(now) => DispatchKeeps(s, now);
    case Expire(c, _) => TerminateKeeps(s, c);
    case Arrive(e) => PlainEnqueue(s, e);
    case Complete(i, ok, id) => CompleteKeeps(s, i, ok, id);
    case Stop => PendingKeeps(s, s.(pending := map[]));
  }

  // ---------------------------------------------------------------------------
  // Every run

  ghost predicate CanRun(s: Server, steps: seq<Step>)
    decreases |steps|
  {
    steps != [] ==> Enabled(s, steps[0]) && CanRun(Apply(s, steps[0]), steps[1..])
  }

  ghost function Run(s: Server, steps: seq<Step>): Server
    requires CanRun(s, steps)
    decreases |steps|
  {
    if steps == [] then s else Run(Apply(s, steps[0]), steps[1..])
  }

  lemma {:induction false} RunKeeps(s: Server, steps: seq<Step>)
    requires Invariant(s) && CanRun(s, steps)
    ensures Invariant(Run(s, steps))
    decreases |steps|
  {
    hide Invariant, Apply, Enabled;
    if steps != [] {
      StepKeeps(s, steps[0]);
      RunKeeps(Apply(s, steps[0]), steps[1..]);
    }
  }

  lemma InitialHolds(minPort: Port, maxPort: Port)
    ensures Invariant(Initial(minPort, maxPort))
  {
  }

  /** Port conservation: in every reachable state the used ports are exactly, and each only
      once, the ports of streams being started, of queued StreamStarted and
      StreamStartFailed events and of active streams; so no two active streams share one. */
  lemma PortConservation(minPort: Port, maxPort: Port, steps: seq<Step>)
    requires CanRun(Initial(minPort, maxPort), steps)
    ensures
      var s := Run(Initial(minPort, maxPort), steps);
      && multiset(s.usedPorts) == Queued(Ports, s.queue) + InFlight(Ports, s.tasks) + Active(Ports, s.active)
      && (forall a, b :: a in s.active && b in s.active && a != b ==> s.active[a].port != s.active[b].port)
  {
    InitialHolds(minPort, maxPort);
    RunKeeps(Initial(minPort, maxPort), steps);
    var s := Run(Initial(minPort, maxPort), steps);
    forall a, b | a in s.active && b in s.active && a != b ensures s.active[a].port != s.active[b].port {
      TwoActive(Ports, s, a, b);
    }
  }

  lemma TwoActive(k: Kind, s: Server, a: StreamRef, b: StreamRef)
    requires a in s.active && b in s.active && a != b
    ensures
      var (x, y) := (RecordToken(k, a, s.active[a]), RecordToken(k, b, s.active[b]));
      x == y ==> Held(k, s)[x] >= 2
  {
    ActiveRemove(k, s.active, a);
    ActiveRemove(k, s.active - {a}, b);
  }

  /** StopStream has at most one stream to choose from, so the order it looks in is of no matter. */
  lemma AtMostOneMatch(s: Server, channel: Channel, id: StreamId, a: StreamRef, b: StreamRef)
    requires Invariant(s) && a in Matches(s, channel, id) && b in Matches(s, channel, id)
    ensures a == b
  {
    assert Held(Ids, s)[id] <= multiset(s.issued)[id] <= 1;
    if a != b { TwoActive(Ids, s, a, b); }
  }

  /** Single fate: every stream id ever issued is in exactly one place.  onStreamEnded is
      dispatched at most once for it, never for an id StopStream removed and never while the
      stream is still held anywhere; and a connection is handed to at most one stream. */
  lemma SingleFate(minPort: Port, maxPort: Port, steps: seq<Step>, id: StreamId, conn: Conn)
    requires CanRun(Initial(minPort, maxPort), steps)
    ensures
      var s := Run(Initial(minPort, maxPort), steps);
      && Held(Ids, s)[id] + s.ended[id] + s.stopped[id] == (if id in s.issued then 1 else 0)
      && s.launched[conn] <= 1 && (conn in s.pending ==> s.launched[conn] == 0)
  {
    InitialHolds(minPort, maxPort);
    RunKeeps(Initial(minPort, maxPort), steps);
    var s := Run(Initial(minPort, maxPort), steps);
    assert multiset(s.issued)[id] == (if id in s.issued then 1 else 0);
    assert conn in s.launched ==> s.launched[conn] == 1;
  }

  // ---------------------------------------------------------------------------
  // Connections that take too long

  ghost function AllOverdue(s: Server, todo: set<Conn>, now: nat): set<Conn> {
    set c | c in todo && Overdue(s, c, now)
  }

  ghost function Terminations(cs: set<Conn>): seq<Task>
    decreases |cs|
  {
    if cs == {} then [] else [Terminate(Least(cs))] + Terminations(cs - {Least(cs)})
  }

  /** The sweep terminates exactly the connections that are overdue, each once, and changes
      nothing else. */
  lemma {:induction false} SweepTerminatesOverdue(s: Server, todo: set<Conn>, now: nat)
    ensures
      var gone := AllOverdue(s, todo, now);
      ExpireAll(s, todo, now) == s.(pending := s.pending - gone, tasks := s.tasks + Terminations(gone))
    decreases |todo|
  {
    hide OnTerminate;
    var gone := AllOverdue(s, todo, now);
    if todo == {} {
      assert gone == {} && s.pending - gone == s.pending;
    } else {
      var c := Least(todo);
      var rest := todo - {c};
      assert todo == rest + {c};
      if Overdue(s, c, now) {
        SweepTerminatesOverdue(OnTerminate(s, c), rest, now);
        SweepStep(s, c, rest, now);
        assert Least(gone) == c;
        ConcatAssociates(s.tasks, [Terminate(c)], Terminations(gone - {c}));
      } else {
        SweepTerminatesOverdue(s, rest, now);
        assert gone == AllOverdue(s, rest, now);
      }
    }
  }

  lemma SweepStep(s: Server, c: Conn, rest: set<Conn>, now: nat)
    requires Overdue(s, c, now) && c !in rest
    ensures
      var (v, gone) := (OnTerminate(s, c), AllOverdue(s, rest + {c}, now));
      && AllOverdue(v, rest, now) == gone - {c} && c in gone && |gone| == |gone - {c}| + 1
      && v.pending - (gone - {c}) == s.pending - gone
      && v == s.(pending := s.pending - {c}, tasks := s.tasks + [Terminate(c)])
  {
  }

  // ---------------------------------------------------------------------------
  // Ports

  /** The least free port of the range, if there is one. */
  lemma ReserveIsLeast(s: Server)
    requires SearchEnds(s) && s.maxPort < PORTS - 1
    ensures
      match ReservePort(s)
      case Some(p) =>
        && s.minPort <= p <= s.maxPort && p !in s.usedPorts
        && forall q :: s.minPort <= q < p ==> q in s.usedPorts
      case None => forall q :: s.minPort <= q <= s.maxPort ==> q in s.usedPorts
  {
    forall q: nat | s.minPort <= q <= s.maxPort && q !in s.usedPorts
      ensures q in FreePorts(s, s.minPort, s.maxPort)
    {
    }
  }

  /** The port reserved lies in the configured range unless the range reaches 65535 and is full. */
  lemma ReservedInRangeIff(s: Server)
    requires SearchEnds(s) && ReservePort(s).Some? && s.maxPort < PORTS
    ensures s.minPort <= ReservePort(s).value <= s.maxPort <==>
            !(s.maxPort == PORTS - 1 && FreePorts(s, s.minPort, s.maxPort) == {})
  {
  }

  /** When the search does not end, every port the 16-bit counter will ever reach is taken,
      and within the bound of the loop. */
  lemma SearchNeverEnds(s: Server, k: nat)
    requires s.minPort < PORTS && s.maxPort < PORTS && !SearchEnds(s)
    ensures var i := (s.minPort + k) % PORTS; i <= s.maxPort && i in s.usedPorts
  {
    var i := (s.minPort + k) % PORTS;
    assert i !in FreePorts(s, s.minPort, s.maxPort) && i !in FreePorts(s, 0, s.minPort - 1);
  }

  /** A range that ends at 65535 and is full: the search goes on at port 0. */
  lemma FullRangeGoesOnAtZero(s: Server)
    requires 0 < s.minPort <= s.maxPort == PORTS - 1 && s.usedPorts == Open(s.minPort - 1, PORTS)
    ensures SearchEnds(s) && ReservePort(s) == Some(0)
  {
    assert FreePorts(s, s.minPort, s.maxPort) == {};
    var below := FreePorts(s, 0, s.minPort - 1);
    assert 0 in below;
    assert Least(below) <= 0;
  }
}
