/** The FTL server and the plugin's registry together: the plugin answers the server's
    callbacks (src/JanusFtl.cpp:338-403) and asks it to stop streams, when one is replaced
    (src/JanusFtl.cpp:351-360) and when the service wants it gone (src/JanusFtl.cpp:544-655). */
module StreamLifecycle {
  import S = ServerModel
  import I = ServerInvariants
  import L = ServerLifetimes
  import R = JanusRegistry
  import opened ServerStreams

  /** Besides the two, the streams the report thread has asked to stop and not yet ended. */
  datatype Node = Node(server: S.Server, registry: R.Registry, condemned: set<(Channel, StreamId)>)

  function Initial(kind: R.NodeKind, minPort: S.Port, maxPort: S.Port): Node {
    Node(S.Initial(minPort, maxPort), R.Initial(kind), {})
  }

  datatype Step =
    | OnServer(own: S.Step)                       // the server on its own
    | StreamBegins(task: nat, id: StreamId)       // onStreamStarted is called and succeeds
    | StreamEnds(task: nat)                       // onStreamEnded is called
    | Viewer(act: R.Step)                         // a session comes, watches or goes
    | Condemn(channel: Channel, id: StreamId)     // the report thread asks to stop a stream
    | Bury(channel: Channel, id: StreamId)        // and ends it

  /** Steps of the server that involve neither callback; nobody else asks it to stop streams. */
  predicate OwnStep(s: S.Server, step: S.Step) {
    && S.Enabled(s, step)
    && !(step.Arrive? && step.event.StopStream?)
    && (step.Complete? ==>
          !s.tasks[step.task].CallStreamEnded? && !(s.tasks[step.task].CallStreamStarted? && step.success))
  }

  predicate Enabled(n: Node, step: Step) {
    match step
    case OnServer(s) => OwnStep(n.server, s)
    case StreamBegins(i, id) => i < |n.server.tasks| && n.server.tasks[i].CallStreamStarted? && id !in n.server.issued
    case StreamEnds(i) => i < |n.server.tasks| && n.server.tasks[i].CallStreamEnded?
    case Viewer(s) => R.Enabled(n.registry, s) && !s.Started? && !s.Ended?
    case Condemn(_, id) => id in n.server.issued
    case Bury(ch, id) => (ch, id) in n.condemned
  }

  /** The stop of the stream that is replaced, if there is one. */
  function Replacing(r: R.Registry, ch: Channel): seq<S.Event> {
    if ch in r.streams then [S.StopStream(ch, r.streams[ch].streamId)] else []
  }

  /** These are the stops the plugin asks for. */
  lemma ReplacingIsAsked(r: R.Registry, ch: Channel, id: StreamId)
    ensures
      var (stops, events) := (R.StreamStarted(r, ch, id).stops, Replacing(r, ch));
      && |stops| == |r.stops| + |events| && stops[..|r.stops|] == r.stops
      && forall k :: 0 <= k < |events| ==>
           events[k] == S.StopStream(stops[|r.stops| + k].0, stops[|r.stops| + k].1)
  {
    if ch in r.streams { R.ReplacedIsEnded(r, ch, id); }
  }

  function AskAll(s: S.Server, events: seq<S.Event>): S.Server {
    s.(queue := s.queue + events)
  }

  function Apply(n: Node, step: Step): Node
    requires Enabled(n, step)
  {
    match step
    case OnServer(s) => n.(server := S.Apply(n.server, s))
    case StreamBegins(i, id) =>
      var ch := n.server.tasks[i].channel;
      n.(registry := R.StreamStarted(n.registry, ch, id),
         server := S.Apply(AskAll(n.server, Replacing(n.registry, ch)), S.Complete(i, true, id)))
    case StreamEnds(i) =>
      var t := n.server.tasks[i];
      n.(registry := R.EndStream(n.registry, t.channel, t.streamId),
         server := S.Apply(n.server, S.Complete(i, true, 0)))
    case Viewer(s) => n.(registry := R.Apply(n.registry, s))
    case Condemn(ch, id) =>
      n.(server := S.Apply(n.server, S.Arrive(S.StopStream(ch, id))), condemned := n.condemned + {(ch, id)})
    case Bury(ch, id) =>
      n.(registry := R.EndStream(n.registry, ch, id), condemned := n.condemned - {(ch, id)})
  }

  // ---------------------------------------------------------------------------
  // What every step of the two together keeps

  predicate IsLive(r: R.Registry, ch: Channel, id: StreamId) {
    ch in r.streams && r.streams[ch].streamId == id
  }

  /** The server has the stream, or is about to report its end, or was asked to stop it. */
  ghost predicate Known(n: Node, ch: Channel, id: StreamId) {
    Has(n.server, ch, id) || Ending(n.server, ch, id) || (ch, id) in n.condemned
  }

  ghost predicate LiveIsKnown(n: Node) {
    forall ch: Channel, id: StreamId :: IsLive(n.registry, ch, id) ==> Known(n, ch, id)
  }

  /** The server is asked to stop only streams that are not, or soon no longer, live. */
  ghost predicate StopsAreMeant(n: Node) {
    forall ch: Channel, id: StreamId :: S.StopStream(ch, id) in n.server.queue ==>
      id in n.server.issued && (IsLive(n.registry, ch, id) ==> (ch, id) in n.condemned)
  }

  ghost predicate InStep(n: Node) {
    && I.Invariant(n.server) && R.Accounted(n.registry)
    && n.registry.started == n.server.issued
    && LiveIsKnown(n) && StopsAreMeant(n)
  }

  lemma EndLive(r: R.Registry, ch: Channel, id: StreamId)
    ensures
      var u := R.EndStream(r, ch, id);
      && u.started == r.started
      && forall c: Channel, i: StreamId :: IsLive(u, c, i) <==> IsLive(r, c, i) && (c, i) != (ch, id)
  {
  }

  lemma StartLive(r: R.Registry, ch: Channel, id: StreamId)
    ensures
      var u := R.StreamStarted(r, ch, id);
      && u.started == r.started + {id}
      && forall c: Channel, i: StreamId :: IsLive(u, c, i) <==> if c == ch then i == id else IsLive(r, c, i)
  {
    R.VacateFrees(r, ch);
    var v := R.Vacate(r, ch);
    assert forall c :: c != ch ==>
      (c in v.streams <==> c in r.streams) && (c in v.streams ==> v.streams[c] == r.streams[c]);
    hide R.Vacate;
  }

  lemma ViewerLive(r: R.Registry, act: R.Step)
    requires !act.Started? && !act.Ended?
    ensures
      var u := R.Apply(r, act);
      && u.started == r.started
      && forall c: Channel, i: StreamId :: IsLive(u, c, i) <==> IsLive(r, c, i)
  {
    var u := R.Apply(r, act);
    assert R.Ids(u) == R.Ids(r) by {
      match act
      case Create(h) => R.CreateKeepsIds(r, h);
      case Watching(h, ch) => R.WatchKeepsIds(r, h, ch);
      case Destroy(h) => R.DestroyKeepsIds(r, h);
    }
    forall c: Channel, i: StreamId ensures IsLive(u, c, i) <==> IsLive(r, c, i) {
      assert IsLive(u, c, i) <==> c in R.Ids(u) && R.Ids(u)[c] == i;
      assert IsLive(r, c, i) <==> c in R.Ids(r) && R.Ids(r)[c] == i;
    }
  }

  /** What a step of the server on its own does to ids and stops. */
  lemma OwnStepIssues(s: S.Server, own: S.Step)
    requires OwnStep(s, own)
    ensures S.Apply(s, own).issued == s.issued
    ensures forall e: S.Event :: e.StopStream? && e in S.Apply(s, own).queue ==> e in s.queue
  {
    hide S.Handle, S.SearchEnds;
    match own
    case Dispatch(now) =>
      L.HandleQueue(S.Dequeue(s), s.queue[0], now);
      HandleIssues(S.Dequeue(s), s.queue[0], now);
    case _ =>
  }

  lemma HandleIssues(s: S.Server, e: S.Event, now: nat)
    requires S.CanHandle(s, e)
    ensures S.Handle(s, e, now).issued == s.issued
  {
    hide S.ReservePort, S.Matches, S.SearchEnds;
  }

  lemma OwnStepInStep(n: Node, own: S.Step)
    requires InStep(n) && OwnStep(n.server, own)
    ensures InStep(Apply(n, OnServer(own)))
  {
    hide I.Invariant, R.Accounted, S.Apply, Has, Ending, IsLive;
    var (s, u) := (n.server, Apply(n, OnServer(own)));
    I.StepKeeps(s, own);
    OwnStepIssues(s, own);
    forall ch: Channel, id: StreamId | IsLive(u.registry, ch, id) ensures Known(u, ch, id) {
      assert Known(n, ch, id);
      if Has(s, ch, id) {
        StepKeepsStream(s, own, ch, id);
        if own.Dispatch? && s.queue[0] == S.StopStream(ch, id) { assert s.queue[0] in s.queue; }
      } else if Ending(s, ch, id) {
        StepKeepsEnding(s, own, ch, id);
      }
    }
  }

  lemma EndsInStep(n: Node, i: nat)
    requires InStep(n) && Enabled(n, StreamEnds(i))
    ensures InStep(Apply(n, StreamEnds(i)))
  {
    hide I.Invariant, R.Accounted, R.EndStream, S.Apply, Has, Ending, IsLive;
    var (s, t, u) := (n.server, n.server.tasks[i], Apply(n, StreamEnds(i)));
    var own := S.Complete(i, true, 0);
    I.StepKeeps(s, own);
    R.EndAccounted(n.registry, t.channel, t.streamId);
    EndLive(n.registry, t.channel, t.streamId);
    EndedQueuesNothing(s, i);
    forall ch: Channel, id: StreamId | IsLive(u.registry, ch, id) ensures Known(u, ch, id) {
      assert Known(n, ch, id);
      if Has(s, ch, id) {
        StepKeepsStream(s, own, ch, id);
      } else if Ending(s, ch, id) {
        StepKeepsEnding(s, own, ch, id);
      }
    }
  }

  lemma EndedQueuesNothing(s: S.Server, i: nat)
    requires i < |s.tasks| && s.tasks[i].CallStreamEnded?
    ensures S.Apply(s, S.Complete(i, true, 0)) == S.Finish(s, i)
  {
  }

  lemma CondemnInStep(n: Node, ch: Channel, id: StreamId)
    requires InStep(n) && id in n.server.issued
    ensures InStep(Apply(n, Condemn(ch, id)))
  {
    hide I.Invariant, R.Accounted, Has, IsLive, S.OnComplete;
    var (s, u) := (n.server, Apply(n, Condemn(ch, id)));
    I.StepKeeps(s, S.Arrive(S.StopStream(ch, id)));
    forall c: Channel, i: StreamId | IsLive(u.registry, c, i) ensures Known(u, c, i) {
      assert Known(n, c, i);
      if Has(s, c, i) { Undisturbed(s, u.server, c, i); }
    }
  }

  lemma BuryInStep(n: Node, ch: Channel, id: StreamId)
    requires InStep(n) && (ch, id) in n.condemned
    ensures InStep(Apply(n, Bury(ch, id)))
  {
    hide I.Invariant, R.Accounted, R.EndStream, Has, Ending, IsLive;
    R.EndAccounted(n.registry, ch, id);
    EndLive(n.registry, ch, id);
    var u := Apply(n, Bury(ch, id));
    forall c: Channel, i: StreamId | IsLive(u.registry, c, i) ensures Known(u, c, i) {
      assert Known(n, c, i);
    }
  }

  lemma ViewerInStep(n: Node, act: R.Step)
    requires InStep(n) && Enabled(n, Viewer(act))
    ensures InStep(Apply(n, Viewer(act)))
  {
    hide I.Invariant, R.Accounted, R.Apply, Has, Ending, IsLive;
    R.StepAccounted(n.registry, act);
    ViewerLive(n.registry, act);
    var u := Apply(n, Viewer(act));
    forall c: Channel, i: StreamId | IsLive(u.registry, c, i) ensures Known(u, c, i) {
      assert Known(n, c, i);
    }
  }

  // The callback that starts a stream.

  lemma AskKeeps(n: Node, ch: Channel)
    requires I.Invariant(n.server)
    ensures I.Invariant(AskAll(n.server, Replacing(n.registry, ch)))
  {
    hide I.Invariant;
    var s := n.server;
    if ch in n.registry.streams {
      I.StepKeeps(s, S.Arrive(S.StopStream(ch, n.registry.streams[ch].streamId)));
    } else {
      assert s.queue + [] == s.queue;
    }
  }

  /** The server after the callback. */
  lemma BeginsServer(n: Node, i: nat, id: StreamId)
    requires I.Invariant(n.server) && Enabled(n, StreamBegins(i, id))
    ensures
      var (s, u, t) := (n.server, Apply(n, StreamBegins(i, id)).server, n.server.tasks[i]);
      && I.Invariant(u)
      && u.issued == s.issued + {id}
      && u.queue == s.queue + Replacing(n.registry, t.channel) + [S.StreamIdAssigned(t.conn, t.channel, id)]
      && u.tasks == S.Finish(s, i).tasks && u.active == s.active && u.streams == s.streams
  {
    hide I.Invariant;
    var t := n.server.tasks[i];
    AskKeeps(n, t.channel);
    I.StepKeeps(AskAll(n.server, Replacing(n.registry, t.channel)), S.Complete(i, true, id));
  }

  lemma BeginsKeepsKnown(n: Node, i: nat, id: StreamId, ch: Channel, other: StreamId)
    requires I.Invariant(n.server) && Enabled(n, StreamBegins(i, id)) && Known(n, ch, other)
    ensures Known(Apply(n, StreamBegins(i, id)), ch, other)
  {
    hide I.Invariant, Has, Ending, S.Apply;
    var s := n.server;
    var asked := AskAll(s, Replacing(n.registry, s.tasks[i].channel));
    var own := S.Complete(i, true, id);
    assert asked.tasks == s.tasks && asked.issued == s.issued;
    if Has(s, ch, other) {
      Undisturbed(s, asked, ch, other);
      AskKeeps(n, s.tasks[i].channel);
      StepKeepsStream(asked, own, ch, other);
    } else if Ending(s, ch, other) {
      assert Ending(asked, ch, other) by { SameTasks(s, asked, ch, other); }
      StepKeepsEnding(asked, own, ch, other);
    }
  }

  lemma SameTasks(s: S.Server, u: S.Server, ch: Channel, id: StreamId)
    requires s.tasks == u.tasks
    ensures Ending(s, ch, id) <==> Ending(u, ch, id)
  {
  }

  lemma BegunIsKnown(n: Node, i: nat, id: StreamId)
    requires I.Invariant(n.server) && Enabled(n, StreamBegins(i, id))
    ensures Has(Apply(n, StreamBegins(i, id)).server, n.server.tasks[i].channel, id)
  {
    BeginsServer(n, i, id);
    hide I.Invariant, S.Apply;
    var u := Apply(n, StreamBegins(i, id)).server;
    var t := n.server.tasks[i];
    assert Carries(u.queue[|u.queue| - 1], t.channel, id);
  }

  lemma BeginsStops(n: Node, i: nat, id: StreamId)
    requires InStep(n) && Enabled(n, StreamBegins(i, id))
    ensures StopsAreMeant(Apply(n, StreamBegins(i, id)))
  {
    hide I.Invariant, S.Apply, R.StreamStarted, Has, Ending;
    var (r, t, u) := (n.registry, n.server.tasks[i], Apply(n, StreamBegins(i, id)));
    BeginsServer(n, i, id);
    StartLive(r, t.channel, id);
    if t.channel in r.streams { LiveIsStarted(r, t.channel); }
    forall ch: Channel, other: StreamId | S.StopStream(ch, other) in u.server.queue
      ensures other in u.server.issued && (IsLive(u.registry, ch, other) ==> (ch, other) in u.condemned)
    {
      if S.StopStream(ch, other) !in n.server.queue {
        assert S.StopStream(ch, other) in Replacing(r, t.channel);
      }
    }
  }

  lemma LiveIsStarted(r: R.Registry, ch: Channel)
    requires R.Accounted(r) && ch in r.streams
    ensures r.streams[ch].streamId in r.started && r.streams[ch].streamId !in r.ended
  {
    assert R.Ids(r)[ch] == r.streams[ch].streamId;
  }

  lemma BeginsInStep(n: Node, i: nat, id: StreamId)
    requires InStep(n) && Enabled(n, StreamBegins(i, id))
    ensures InStep(Apply(n, StreamBegins(i, id)))
  {
    BeginsStops(n, i, id);
    hide I.Invariant, R.Accounted, R.StreamStarted, S.Apply, Has, Ending, IsLive, StopsAreMeant;
    var (r, t, u) := (n.registry, n.server.tasks[i], Apply(n, StreamBegins(i, id)));
    BeginsServer(n, i, id);
    R.StartAccounted(r, t.channel, id);
    StartLive(r, t.channel, id);
    forall ch: Channel, other: StreamId | IsLive(u.registry, ch, other) ensures Known(u, ch, other) {
      if ch == t.channel {
        BegunIsKnown(n, i, id);
      } else {
        assert Known(n, ch, other);
        BeginsKeepsKnown(n, i, id, ch, other);
      }
    }
  }

  lemma StepInStep(n: Node, step: Step)
    requires InStep(n) && Enabled(n, step)
    ensures InStep(Apply(n, step))
  {
    hide InStep, Apply;
    match step
    case OnServer(own) => OwnStepInStep(n, own);
    case StreamBegins(i, id) => BeginsInStep(n, i, id);
    case StreamEnds(i) => EndsInStep(n, i);
    case Viewer(act) => ViewerInStep(n, act);
    case Condemn(ch, id) => CondemnInStep(n, ch, id);
    case Bury(ch, id) => BuryInStep(n, ch, id);
  }

  // ---------------------------------------------------------------------------
  // Every run

  ghost predicate CanRun(n: Node, steps: seq<Step>)
    decreases |steps|
  {
    steps != [] ==> Enabled(n, steps[0]) && CanRun(Apply(n, steps[0]), steps[1..])
  }

  ghost function Run(n: Node, steps: seq<Step>): Node
    requires CanRun(n, steps)
    decreases |steps|
  {
    if steps == [] then n else Run(Apply(n, steps[0]), steps[1..])
  }

  lemma {:induction false} RunInStep(n: Node, steps: seq<Step>)
    requires InStep(n) && CanRun(n, steps)
    ensures InStep(Run(n, steps))
    decreases |steps|
  {
    hide InStep, Apply, Enabled;
    if steps != [] {
      StepInStep(n, steps[0]);
      RunInStep(Apply(n, steps[0]), steps[1..]);
    }
  }

  lemma InitialInStep(kind: R.NodeKind, minPort: S.Port, maxPort: S.Port)
    ensures InStep(Initial(kind, minPort, maxPort))
  {
    I.InitialHolds(minPort, maxPort);
    assert R.Ids(R.Initial(kind)) == map[];
  }

  /** In every run of server and plugin together: they agree on the ids issued; every stream
      that is live for the viewers is being started or active on the server, or the server is
      about to report its end, or the report thread has asked to stop it; and an id that is
      not live has been ended, once. */
  lemma ServerAndPluginAgree(kind: R.NodeKind, minPort: S.Port, maxPort: S.Port, steps: seq<Step>,
                             ch: Channel, id: StreamId)
    requires CanRun(Initial(kind, minPort, maxPort), steps)
    ensures
      var n := Run(Initial(kind, minPort, maxPort), steps);
      && n.registry.started == n.server.issued
      && (IsLive(n.registry, ch, id) ==> Known(n, ch, id))
      && (id in n.server.issued ==> n.registry.ended[id] == 1 || exists c :: IsLive(n.registry, c, id))
  {
    InitialInStep(kind, minPort, maxPort);
    RunInStep(Initial(kind, minPort, maxPort), steps);
    hide Run, I.Invariant, Known;
    var n := Run(Initial(kind, minPort, maxPort), steps);
    if id in n.server.issued && id !in n.registry.ended {
      var c :| c in R.Ids(n.registry) && R.Ids(n.registry)[c] == id;
      assert IsLive(n.registry, c, id);
    }
  }

  /** When nothing is going on, every live stream is active on the server. */
  lemma LiveIsActiveAtRest(n: Node, ch: Channel, id: StreamId)
    requires InStep(n) && n.server.queue == [] && n.server.tasks == [] && n.condemned == {}
    requires IsLive(n.registry, ch, id)
    ensures IsActive(n.server, ch, id)
  {
    assert Known(n, ch, id);
  }

  // ---------------------------------------------------------------------------
  // The stop of a replaced stream

  lemma StillStarting(n: Node, i: nat, id: StreamId, ch: Channel, other: StreamId)
    requires I.Invariant(n.server) && Enabled(n, StreamBegins(i, id)) && IsStarting(n.server, ch, other)
    ensures IsStarting(Apply(n, StreamBegins(i, id)).server, ch, other)
  {
    BeginsServer(n, i, id);
    hide I.Invariant, S.Apply, Apply, Carries, Replacing;
    StartingAfter(n.server, Apply(n, StreamBegins(i, id)).server, i, ch, other);
  }

  lemma StartingAfter(s: S.Server, u: S.Server, i: nat, ch: Channel, id: StreamId)
    requires IsStarting(s, ch, id) && i < |s.tasks| && !s.tasks[i].StartStream?
    requires |s.queue| <= |u.queue| && u.queue[..|s.queue|] == s.queue && u.tasks == s.tasks[..i] + s.tasks[i + 1..]
    ensures IsStarting(u, ch, id)
  {
    hide Carries;
    if j :| 0 <= j < |s.queue| && Carries(s.queue[j], ch, id) {
      assert u.queue[j] == u.queue[..|s.queue|][j];
    } else {
      var j :| 0 <= j < |s.tasks| && Starts(s.tasks[j], ch, id);
      var k := if j < i then j else j - 1;
      assert u.tasks[k] == s.tasks[j];
    }
  }

  /** It happens: a second broadcast begins on a channel while the task that starts the first
      stream still runs.  The stop comes too early, and the server goes on starting a stream
      that has ended for the service and the viewers. */
  lemma ReplacedWhileStarting(n: Node, i: nat, id: StreamId, now: nat)
    requires InStep(n) && Enabled(n, StreamBegins(i, id)) && n.server.queue == []
    requires var ch := n.server.tasks[i].channel;
             ch in n.registry.streams && IsStarting(n.server, ch, n.registry.streams[ch].streamId)
    ensures
      var ch := n.server.tasks[i].channel;
      var before := n.registry.streams[ch].streamId;
      var u := Apply(n, StreamBegins(i, id));
      && Enabled(u, OnServer(S.Dispatch(now)))
      && var v := Apply(u, OnServer(S.Dispatch(now)));
      && Has(v.server, ch, before) && S.StopStream(ch, before) !in v.server.queue
      && before in v.registry.ended && !IsLive(v.registry, ch, before)
  {
    hide I.Invariant, R.StreamStarted;
    var ch := n.server.tasks[i].channel;
    var before := n.registry.streams[ch].streamId;
    var u := Apply(n, StreamBegins(i, id));
    BeginsServer(n, i, id);
    LiveIsStarted(n.registry, ch);
    StartLive(n.registry, ch, id);
    R.ReplacedIsEnded(n.registry, ch, id);
    StillStarting(n, i, id, ch, before);
    StartingIsNotActive(u.server, ch, before);
    StopMissesIff(u.server, now, ch, before);
    assert u.server.queue[1..] == [S.StreamIdAssigned(n.server.tasks[i].conn, ch, id)];
  }

  /** The viewers' stream is ended, and no stop is on its way to the server. */
  ghost predicate Overlooked(n: Node, r: S.Record) {
    r.streamId in n.registry.ended && S.StopStream(r.channel, r.streamId) !in n.server.queue
  }

  lemma EndedStaysEnded(n: Node, step: Step, id: StreamId)
    requires Enabled(n, step) && id in n.registry.ended
    ensures id in Apply(n, step).registry.ended
  {
    hide S.Apply, S.Enabled, R.StreamStarted, R.EndStream, R.Apply;
    var r := n.registry;
    match step
    case StreamBegins(i, _) => StartKeepsEnded(r, n.server.tasks[i].channel, step.id, id);
    case StreamEnds(i) => EndKeepsEnded(r, n.server.tasks[i].channel, n.server.tasks[i].streamId, id);
    case Viewer(act) => ViewerKeepsEnded(r, act);
    case Bury(ch, other) => EndKeepsEnded(r, ch, other, id);
    case _ =>
  }

  lemma EndKeepsEnded(r: R.Registry, ch: Channel, other: StreamId, id: StreamId)
    requires id in r.ended
    ensures id in R.EndStream(r, ch, other).ended
  {
  }

  lemma StartKeepsEnded(r: R.Registry, ch: Channel, other: StreamId, id: StreamId)
    requires id in r.ended
    ensures id in R.StreamStarted(r, ch, other).ended
  {
    hide R.EndStream;
    if ch in r.streams {
      EndKeepsEnded(R.AskStop(r, ch, r.streams[ch].streamId), ch, r.streams[ch].streamId, id);
    }
  }

  lemma ViewerKeepsEnded(r: R.Registry, act: R.Step)
    requires !act.Started? && !act.Ended?
    ensures R.Apply(r, act).ended == r.ended
  {
  }

  /** Only the report thread would ask again to stop a stream that has ended. */
  lemma OverlookedStays(n: Node, step: Step, r: S.Record)
    requires InStep(n) && Enabled(n, step) && Overlooked(n, r) && step != Condemn(r.channel, r.streamId)
    ensures Overlooked(Apply(n, step), r)
  {
    hide I.Invariant, S.Apply, R.StreamStarted, R.EndStream, LiveIsKnown, StopsAreMeant;
    EndedStaysEnded(n, step, r.streamId);
    match step
    case OnServer(own) => OwnStepIssues(n.server, own);
    case StreamBegins(i, id) =>
      BeginsServer(n, i, id);
      var ch := n.server.tasks[i].channel;
      if ch in n.registry.streams { LiveIsStarted(n.registry, ch); }
    case StreamEnds(i) => EndedQueuesNothing(n.server, i);
    case Condemn(ch, id) => CondemnQueues(n.server, S.StopStream(ch, id));
    case _ =>
  }

  lemma CondemnQueues(s: S.Server, e: S.Event)
    requires e.StopStream?
    ensures S.Apply(s, S.Arrive(e)) == s.(queue := s.queue + [e])
  {
  }

  predicate Frees(n: Node, step: Step, st: S.StreamRef) {
    step.OnServer? && L.Releases(n.server, step.own, st)
  }

  /** Steps that involve the plugin leave streams in the table, and those to be entered. */
  lemma OthersUndisturbed(n: Node, step: Step)
    requires I.Invariant(n.server) && Enabled(n, step) && !step.OnServer?
    ensures
      var (s, u) := (n.server, Apply(n, step).server);
      && u.active == s.active && u.streams == s.streams
      && (forall e :: e in s.queue ==> e in u.queue)
      && (forall e: S.Event :: e in u.queue && e.StreamStarted? ==> e in s.queue)
  {
    hide I.Invariant, S.Apply, R.StreamStarted, R.EndStream, R.Apply;
    match step
    case StreamBegins(i, id) => BeginsServer(n, i, id);
    case StreamEnds(i) => EndedQueuesNothing(n.server, i);
    case Condemn(ch, id) => CondemnQueues(n.server, S.StopStream(ch, id));
    case _ =>
  }

  lemma PresentIff(n: Node, step: Step, st: S.StreamRef, r: S.Record)
    requires I.Invariant(n.server) && Enabled(n, step) && L.Present(n.server, st, r)
    ensures L.Present(Apply(n, step).server, st, r) <==> !Frees(n, step, st)
    ensures Frees(n, step, st) ==> L.Gone(Apply(n, step).server, st)
  {
    hide I.Invariant, S.Apply, L.Releases, L.Gone;
    if step.OnServer? {
      L.PresentStepIff(n.server, step.own, st, r);
      if Frees(n, step, st) { L.ReleasedIsGone(n.server, step.own, st); }
    } else {
      OthersUndisturbed(n, step);
    }
  }

  lemma GoneStays(n: Node, step: Step, st: S.StreamRef)
    requires I.Invariant(n.server) && Enabled(n, step) && L.Gone(n.server, st)
    ensures L.Gone(Apply(n, step).server, st)
  {
    hide I.Invariant, S.Apply;
    if step.OnServer? {
      L.GoneStep(n.server, step.own, st);
    } else {
      OthersUndisturbed(n, step);
    }
  }

  /** The step handles the close of the stream, which is in the table. */
  predicate Closes(n: Node, step: Step, st: S.StreamRef) {
    && step.OnServer? && step.own.Dispatch?
    && st in n.server.active && n.server.queue != [] && n.server.queue[0] == S.StreamClosed(st)
  }

  lemma OverlookedFreesIff(n: Node, step: Step, st: S.StreamRef, r: S.Record)
    requires I.Invariant(n.server) && Overlooked(n, r) && L.Present(n.server, st, r)
    ensures Frees(n, step, st) <==> Closes(n, step, st)
  {
    hide I.Invariant;
    if st in n.server.active && L.Announced(n.server, st, r) {
      L.NotBoth(n.server, st, S.StreamStarted(st, r.channel, r.streamId, r.port));
    }
    if n.server.queue != [] { assert n.server.queue[0] in n.server.queue; }
  }

  ghost predicate NeverCloses(n: Node, steps: seq<Step>, st: S.StreamRef)
    requires CanRun(n, steps)
    decreases |steps|
  {
    steps != [] ==> !Closes(n, steps[0], st) && NeverCloses(Apply(n, steps[0]), steps[1..], st)
  }

  lemma {:induction false} GoneForGood(n: Node, steps: seq<Step>, st: S.StreamRef)
    requires InStep(n) && CanRun(n, steps) && L.Gone(n.server, st)
    ensures L.Gone(Run(n, steps).server, st)
    decreases |steps|
  {
    hide I.Invariant, L.Gone, Apply, Enabled, LiveIsKnown, StopsAreMeant, R.Accounted;
    if steps != [] {
      StepInStep(n, steps[0]);
      GoneStays(n, steps[0], st);
      GoneForGood(Apply(n, steps[0]), steps[1..], st);
    }
  }

  ghost predicate NeverFrees(n: Node, steps: seq<Step>, st: S.StreamRef)
    requires CanRun(n, steps)
    decreases |steps|
  {
    steps != [] ==> !Frees(n, steps[0], st) && NeverFrees(Apply(n, steps[0]), steps[1..], st)
  }

  lemma {:induction false} PresentRunIff(n: Node, steps: seq<Step>, st: S.StreamRef, r: S.Record)
    requires InStep(n) && CanRun(n, steps) && L.Present(n.server, st, r)
    ensures L.Present(Run(n, steps).server, st, r) <==> NeverFrees(n, steps, st)
    decreases |steps|
  {
    hide I.Invariant, L.Present, L.Gone, Apply, Enabled, Frees, LiveIsKnown, StopsAreMeant, R.Accounted;
    if steps != [] {
      var (step, u) := (steps[0], Apply(n, steps[0]));
      StepInStep(n, step);
      PresentIff(n, step, st, r);
      if Frees(n, step, st) {
        GoneForGood(u, steps[1..], st);
        L.GoneIsNotPresent(Run(n, steps).server, st, r);
      } else {
        PresentRunIff(u, steps[1..], st, r);
      }
    }
  }

  /** Over every run of server and plugin, the server keeps a started stream, with its port
      and its id, if and only if no step handled its close, or a stop for it, while it was in
      the table. */
  lemma KeptUntilFreed(n: Node, steps: seq<Step>, st: S.StreamRef, r: S.Record)
    requires InStep(n) && CanRun(n, steps) && L.Present(n.server, st, r)
    ensures
      var u := Run(n, steps).server;
      NeverFrees(n, steps, st) <==>
        L.Present(u, st, r) && r.port in u.usedPorts && r.streamId !in u.ended && r.streamId !in u.stopped
  {
    hide I.Invariant, L.Present, Run, NeverFrees, LiveIsKnown, StopsAreMeant, R.Accounted;
    PresentRunIff(n, steps, st, r);
    RunInStep(n, steps);
    if NeverFrees(n, steps, st) {
      L.PresentIsHeld(Run(n, steps).server, st, r);
    }
  }

  /** A replaced stream whose stop came while it was still being started is freed by nothing
      but its close, as long as the report thread does not ask to stop it. */
  lemma {:induction false} OverlookedUntilClosed(n: Node, steps: seq<Step>, st: S.StreamRef, r: S.Record)
    requires InStep(n) && CanRun(n, steps) && Overlooked(n, r) && L.Present(n.server, st, r)
    requires Condemn(r.channel, r.streamId) !in steps
    ensures NeverFrees(n, steps, st) <==> NeverCloses(n, steps, st)
    decreases |steps|
  {
    hide I.Invariant, L.Present, Apply, Enabled, Closes, Frees, LiveIsKnown, StopsAreMeant, R.Accounted;
    if steps != [] {
      var step := steps[0];
      assert step in steps;
      StepInStep(n, step);
      OverlookedFreesIff(n, step, st, r);
      PresentIff(n, step, st, r);
      if !Closes(n, step, st) {
        OverlookedStays(n, step, r);
        OverlookedUntilClosed(Apply(n, step), steps[1..], st, r);
      }
    }
  }

  /** If the report thread does ask, the stop that it queues frees the stream, once the stream
      is in the table. */
  lemma AskedAgainIsFreed(n: Node, now: nat, st: S.StreamRef, r: S.Record)
    requires InStep(n) && st in n.server.active && n.server.active[st] == r
    requires n.server.queue != [] && n.server.queue[0] == S.StopStream(r.channel, r.streamId)
    ensures Frees(n, OnServer(S.Dispatch(now)), st)
    ensures L.Gone(S.Apply(n.server, S.Dispatch(now)), st)
  {
    hide I.Invariant, L.Gone, LiveIsKnown, StopsAreMeant, R.Accounted;
    L.StopAfterLostClose(st, r, n.server, now);
  }
}
