/** What makes the server start a task or queue an event, in every step; and over every run:
    requests that are all served, streams asked to stop, and how long connections may pend. */
module ServerTasks {
  import opened Collections
  import opened ServerModel
  import opened ServerInvariants
  import opened ServerLifetimes

  // ---------------------------------------------------------------------------
  // Pending connections

  /** The step takes this event off the queue. */
  predicate Takes(s: Server, step: Step, e: Event) {
    step.Dispatch? && s.queue != [] && s.queue[0] == e
  }

  predicate Leaves(s: Server, u: Server, c: Conn) {
    c in s.pending && c !in u.pending
  }

  /** The event gives the connection an id, and there is a port for it. */
  predicate Launches(s: Server, step: Step, c: Conn) {
    && step.Dispatch? && s.queue != [] && s.queue[0].StreamIdAssigned? && s.queue[0].conn == c
    && SearchEnds(s) && ReservePort(s).Some?
  }

  /** What makes a pending connection leave. */
  predicate Removes(s: Server, step: Step, c: Conn) {
    || Takes(s, step, ControlConnectionClosed(c)) || Takes(s, step, TerminateControlConnection(c))
    || (step.Expire? && step.conn == c) || Launches(s, step, c) || step.Stop?
  }

  predicate Enters(s: Server, step: Step, c: Conn) {
    Takes(s, step, NewControlConnection) && c == s.connections
  }

  /** A connection is pending from the event that announces it, with the time of that event,
      until it closes, is terminated, takes too long, goes to a stream, or the server stops. */
  lemma PendingIff(s: Server, step: Step, c: Conn)
    requires Invariant(s) && Enabled(s, step)
    ensures Moves(s, step, Apply(s, step), c)
  {
    PendingIsOld(s, c);
    hide Invariant, Moves;
    match step
    case Dispatch(now) =>
      if s.queue[0].StreamIdAssigned? { PendingAfterId(s, now, c); } else { PendingAfter(s, now, c); }
    case _ => PendingOtherwise(s, step, c);
  }

  lemma PendingIsOld(s: Server, c: Conn)
    requires Invariant(s)
    ensures c in s.pending ==> c < s.connections
  {
    hide Held;
  }

  lemma PendingOtherwise(s: Server, step: Step, c: Conn)
    requires Enabled(s, step) && !step.Dispatch?
    ensures Moves(s, step, Apply(s, step), c)
  {
    if step.Complete? {
      CompletePending(Finish(s, step.task), s.tasks[step.task], step.success, step.streamId);
      hide OnComplete;
    }
  }

  predicate Moves(s: Server, step: Step, u: Server, c: Conn) {
    if c in s.pending then (if Removes(s, step, c) then c !in u.pending else Holds(u, c, s.pending[c]))
    else if Enters(s, step, c) then step.Dispatch? && Holds(u, c, step.now)
    else c !in u.pending
  }

  lemma CompletePending(s: Server, t: Task, success: bool, id: StreamId)
    ensures OnComplete(s, t, success, id).pending == s.pending
  {
  }

  predicate Holds(s: Server, c: Conn, time: nat) {
    c in s.pending && s.pending[c] == time
  }

  lemma PendingAfterId(s: Server, now: nat, c: Conn)
    requires Enabled(s, Dispatch(now)) && s.queue[0].StreamIdAssigned?
    ensures Moves(s, Dispatch(now), Apply(s, Dispatch(now)), c)
  {
    SameSearch(s);
    hide SearchEnds, ReservePort;
  }

  lemma PendingAfter(s: Server, now: nat, c: Conn)
    requires Enabled(s, Dispatch(now)) && !s.queue[0].StreamIdAssigned? && (c in s.pending ==> c < s.connections)
    ensures Moves(s, Dispatch(now), Apply(s, Dispatch(now)), c)
  {
    hide Matches, SearchEnds, ReservePort;
  }

  lemma SameSearch(s: Server)
    requires s.queue != []
    ensures SearchEnds(Dequeue(s)) == SearchEnds(s)
    ensures SearchEnds(s) ==> ReservePort(Dequeue(s)) == ReservePort(s)
  {
  }

  /** Step `i` takes the event that announces connection `c`. */
  ghost predicate ArrivesAt(s: Server, steps: seq<Step>, i: nat, c: Conn)
    requires CanRun(s, steps)
    decreases |steps|
  {
    i < |steps| &&
    if i == 0 then Takes(s, steps[0], NewControlConnection) && c == s.connections
    else ArrivesAt(Apply(s, steps[0]), steps[1..], i - 1, c)
  }

  ghost predicate ArrivedThen(s: Server, steps: seq<Step>, c: Conn, time: nat)
    requires CanRun(s, steps)
  {
    exists i :: 0 <= i < |steps| && ArrivesAt(s, steps, i, c) && steps[i].Dispatch? && steps[i].now == time
  }

  lemma ArrivedLater(s: Server, steps: seq<Step>, c: Conn, time: nat)
    requires steps != [] && CanRun(s, steps) && ArrivedThen(Apply(s, steps[0]), steps[1..], c, time)
    ensures ArrivedThen(s, steps, c, time)
  {
    hide Apply, Enabled;
    var u := Apply(s, steps[0]);
    var i :| 0 <= i < |steps[1..]| && ArrivesAt(u, steps[1..], i, c) && steps[1..][i].Dispatch?
             && steps[1..][i].now == time;
    assert steps[i + 1] == steps[1..][i] && ArrivesAt(s, steps, i + 1, c);
  }

  lemma {:induction false} PendingSince(s: Server, steps: seq<Step>, c: Conn)
    requires Invariant(s) && CanRun(s, steps) && c in Run(s, steps).pending
    ensures
      var time := Run(s, steps).pending[c];
      (c in s.pending && s.pending[c] == time) || ArrivedThen(s, steps, c, time)
    decreases |steps|
  {
    hide Invariant, Apply, Enabled;
    if steps != [] {
      var u := Apply(s, steps[0]);
      StepKeeps(s, steps[0]);
      PendingSince(u, steps[1..], c);
      var time := Run(s, steps).pending[c];
      if ArrivedThen(u, steps[1..], c, time) {
        ArrivedLater(s, steps, c, time);
      } else {
        PendingIff(s, steps[0], c);
        if c !in s.pending { assert ArrivesAt(s, steps, 0, c); }
      }
    }
  }

  /** In every run the sweep is due for a pending connection exactly when the event that
      announced it was handled more than 5000 before. */
  lemma OverdueIff(minPort: Port, maxPort: Port, steps: seq<Step>, c: Conn, now: nat)
    requires CanRun(Initial(minPort, maxPort), steps) && c in Run(Initial(minPort, maxPort), steps).pending
    ensures
      var (first, s) := (Initial(minPort, maxPort), Run(Initial(minPort, maxPort), steps));
      exists time ::
        && ArrivedThen(first, steps, c, time)
        && (c in AllOverdue(s, s.pending.Keys, now) <==> now - time > AUTH_TIMEOUT)
        && (Enabled(s, Expire(c, now)) <==> now - time > AUTH_TIMEOUT)
  {
    hide Invariant, Apply, CanRun, ArrivedThen;
    var (first, s) := (Initial(minPort, maxPort), Run(Initial(minPort, maxPort), steps));
    InitialHolds(minPort, maxPort);
    PendingSince(first, steps, c);
    var time := s.pending[c];
    assert ArrivedThen(first, steps, c, time);
    assert c in AllOverdue(s, s.pending.Keys, now) <==> now - time > AUTH_TIMEOUT;
  }

  // ---------------------------------------------------------------------------
  // Tasks

  function Number<T(==)>(ts: seq<T>, t: T): nat {
    multiset(ts)[t]
  }

  /** The stream leaves the table and its id is counted as stopped. */
  predicate Stops(s: Server, u: Server, st: StreamRef) {
    st in s.active && st !in u.active && u.stopped == s.stopped + multiset{s.active[st].streamId}
  }

  /** The stream with this channel and id that the event is about, when it ends. */
  predicate EndsWith(s: Server, e: Event, channel: Channel, id: StreamId) {
    match e
    case StreamIdAssigned(_, ch, i) => ch == channel && i == id
    case StreamStartFailed(ch, i, _) => ch == channel && i == id
    case StreamClosed(st) => st in s.active && s.active[st].channel == channel && s.active[st].streamId == id
    case _ => false
  }

  /** What calls for each task: the event taken, and what becomes of connections, ports and
      streams. */
  ghost predicate Calls(s: Server, step: Step, t: Task)
    requires Enabled(s, step)
  {
    var u := Apply(s, step);
    match t
    case FetchKey(c, ch) => Takes(s, step, ControlRequestHmacKey(c, ch))
    case ProvideKey(c) => Takes(s, step, ControlHmacKeyFound(c)) && c in s.pending
    case CallStreamStarted(c, ch) => Takes(s, step, ControlRequestMediaPort(c, ch))
    case StartStream(c, ch, id, port) =>
      && Takes(s, step, StreamIdAssigned(c, ch, id)) && Leaves(s, u, c)
      && port !in s.usedPorts && u.usedPorts == s.usedPorts + {port} && u.launched == s.launched + multiset{c}
    case Terminate(c) =>
      Leaves(s, u, c) && u.launched == s.launched && !step.Stop? && !Takes(s, step, ControlConnectionClosed(c))
    case RequestStop(st) => Stops(s, u, st)
    case CallStreamEnded(ch, id) =>
      step.Dispatch? && EndsWith(s, s.queue[0], ch, id) && u.ended == s.ended + multiset{id}
  }

  lemma Added<T>(m: multiset<T>, x: T)
    ensures m + multiset{x} != m
  {
    assert (m + multiset{x})[x] == m[x] + 1;
  }

  lemma NumberSnoc<T>(ts: seq<T>, x: T, t: T)
    ensures Number(ts + [x], t) == Number(ts, t) + if x == t then 1 else 0
  {
  }

  lemma NumberWithout<T>(ts: seq<T>, i: nat, t: T)
    requires i < |ts|
    ensures Number(ts, t) == Number(ts[..i] + ts[i + 1..], t) + if ts[i] == t then 1 else 0
  {
    assert ts == ts[..i] + ([ts[i]] + ts[i + 1..]);
    assert multiset(ts) == multiset(ts[..i]) + multiset{ts[i]} + multiset(ts[i + 1..]);
  }

  /** The task a step starts, if it starts one. */
  ghost function Started(s: Server, u: Server): Option<Task> {
    if |u.tasks| == |s.tasks| + 1 then Some(u.tasks[|s.tasks|]) else None
  }

  /** At most one task is started, and it is `t` just when `t` is called for. */
  ghost predicate AsCalled(s: Server, u: Server, t: Task, called: bool) {
    && (u.tasks == s.tasks || exists x :: u.tasks == s.tasks + [x])
    && (Started(s, u) == Some(t) <==> called)
  }

  /** Handling an event starts at most the one task called for. */
  lemma DispatchCalls(s: Server, now: nat, t: Task)
    requires Invariant(s) && Enabled(s, Dispatch(now))
    ensures AsCalled(s, Apply(s, Dispatch(now)), t, Calls(s, Dispatch(now), t))
  {
    hide Invariant;
    match s.queue[0]
    case StopStream(ch, id) => StopCalls(s, now, t);
    case StreamIdAssigned(_, _, _) => AssignedCalls(s, now, t);
    case StreamClosed(_) => ClosedCalls(s, now, t);
    case StreamStartFailed(_, _, _) => FailedCalls(s, now, t);
    case _ => OtherCalls(s, now, t);
  }

  lemma StopCalls(s: Server, now: nat, t: Task)
    requires Invariant(s) && s.queue != [] && s.queue[0].StopStream?
    ensures AsCalled(s, Apply(s, Dispatch(now)), t, Calls(s, Dispatch(now), t))
  {
    var (ch, id) := (s.queue[0].channel, s.queue[0].streamId);
    StopIsUnambiguous(s, ch, id);
    hide Invariant;
    var found := Matches(Dequeue(s), ch, id);
    if found == {} {
      IdleCalls(s, now, t);
    } else {
      StopEffect(s, now, Least(found));
      OneStops(s, now, Least(found), t);
    }
  }

  /** The one stream that matches is taken out of the table and asked to stop. */
  lemma StopEffect(s: Server, now: nat, st: StreamRef)
    requires s.queue != [] && s.queue[0].StopStream?
    requires Matches(Dequeue(s), s.queue[0].channel, s.queue[0].streamId) != {}
    requires st == Least(Matches(Dequeue(s), s.queue[0].channel, s.queue[0].streamId))
    ensures st in s.active && s.active[st].streamId == s.queue[0].streamId
    ensures
      var u := Apply(s, Dispatch(now));
      && u.active == s.active - {st} && u.stopped == s.stopped + multiset{s.queue[0].streamId}
      && u.tasks == s.tasks + [RequestStop(st)] && u.pending == s.pending && u.ended == s.ended
  {
    assert st in Matches(Dequeue(s), s.queue[0].channel, s.queue[0].streamId);
  }

  lemma OneStops(s: Server, now: nat, st: StreamRef, t: Task)
    requires s.queue != [] && s.queue[0].StopStream? && st in s.active && s.active[st].streamId == s.queue[0].streamId
    requires
      var u := Apply(s, Dispatch(now));
      && u.active == s.active - {st} && u.stopped == s.stopped + multiset{s.queue[0].streamId}
      && u.tasks == s.tasks + [RequestStop(st)] && u.pending == s.pending && u.ended == s.ended
    ensures AsCalled(s, Apply(s, Dispatch(now)), t, Calls(s, Dispatch(now), t))
  {
    hide Apply;
  }

  lemma IdleCalls(s: Server, now: nat, t: Task)
    requires s.queue != [] && s.queue[0].StopStream?
    requires Matches(Dequeue(s), s.queue[0].channel, s.queue[0].streamId) == {}
    ensures AsCalled(s, Apply(s, Dispatch(now)), t, Calls(s, Dispatch(now), t))
  {
    assert Apply(s, Dispatch(now)) == Dequeue(s);
    hide Apply;
  }

  lemma AssignedCalls(s: Server, now: nat, t: Task)
    requires s.queue != [] && s.queue[0].StreamIdAssigned? && Enabled(s, Dispatch(now))
    ensures AsCalled(s, Apply(s, Dispatch(now)), t, Calls(s, Dispatch(now), t))
  {
    var (c, ch, id) := (s.queue[0].conn, s.queue[0].channel, s.queue[0].streamId);
    var (v, u) := (Dequeue(s), Apply(s, Dispatch(now)));
    if c in s.pending { ReservedIsFree(v); }
    hide ReservePort, SearchEnds;
    Added(s.launched, c);
    Added(s.ended, id);
    if t.StartStream? { SameUnion(s.usedPorts, u.usedPorts, t.port); }
    if t.CallStreamEnded? { Added(s.ended, t.streamId); }
    if c !in s.pending || ReservePort(v).None? {
      assert u.tasks == s.tasks + [CallStreamEnded(ch, id)];
    } else {
      assert u.tasks == s.tasks + [StartStream(c, ch, id, ReservePort(v).value)];
    }
  }

  lemma SameUnion(a: set<nat>, b: set<nat>, x: nat)
    ensures forall y :: y !in a && b == a + {y} && x !in a && b == a + {x} ==> x == y
  {
    forall y | y !in a && b == a + {y} && x !in a && b == a + {x} ensures x == y {
      assert x in b;
    }
  }

  lemma ClosedCalls(s: Server, now: nat, t: Task)
    requires s.queue != [] && s.queue[0].StreamClosed?
    ensures AsCalled(s, Apply(s, Dispatch(now)), t, Calls(s, Dispatch(now), t))
  {
    var u := Apply(s, Dispatch(now));
    var st := s.queue[0].stream;
    if st in s.active {
      assert u.tasks == s.tasks + [CallStreamEnded(s.active[st].channel, s.active[st].streamId)];
      Added(s.stopped, s.active[st].streamId);
    }
    if t.RequestStop? && t.stream in s.active { Added(s.stopped, s.active[t.stream].streamId); }
  }

  lemma FailedCalls(s: Server, now: nat, t: Task)
    requires s.queue != [] && s.queue[0].StreamStartFailed?
    ensures AsCalled(s, Apply(s, Dispatch(now)), t, Calls(s, Dispatch(now), t))
  {
    var u := Apply(s, Dispatch(now));
    assert u.tasks == s.tasks + [CallStreamEnded(s.queue[0].channel, s.queue[0].streamId)];
  }

  lemma OtherCalls(s: Server, now: nat, t: Task)
    requires Enabled(s, Dispatch(now))
    requires var e := s.queue[0]; !e.StopStream? && !e.StreamIdAssigned? && !e.StreamClosed? && !e.StreamStartFailed?
    ensures AsCalled(s, Apply(s, Dispatch(now)), t, Calls(s, Dispatch(now), t))
  {
    hide SearchEnds, ReservePort, Matches;
    var u := Apply(s, Dispatch(now));
    if |u.tasks| == |s.tasks| + 1 { assert u.tasks == s.tasks + [u.tasks[|s.tasks|]]; }
  }

  ghost predicate StartedAsCalled(s: Server, step: Step, t: Task)
    requires Enabled(s, step)
  {
    Number(Apply(s, step).tasks, t) + (if step.Complete? && s.tasks[step.task] == t then 1 else 0) ==
    Number(s.tasks, t) + (if Calls(s, step, t) then 1 else 0)
  }

  /** In every reachable state and step: each task is started exactly when it is called for,
      and once; and it is gone exactly when it completes. */
  lemma StartedIff(s: Server, step: Step, t: Task)
    requires Invariant(s) && Enabled(s, step)
    ensures StartedAsCalled(s, step, t)
  {
    hide StartedAsCalled, Invariant;
    match step
    case Dispatch(now) => DispatchStarts(s, now, t);
    case Complete(i, ok, id) => CompleteStarts(s, i, ok, id, t);
    case Expire(c, now) => ExpireStarts(s, c, now, t);
    case _ => NothingStarts(s, step, t);
  }

  lemma DispatchStarts(s: Server, now: nat, t: Task)
    requires Invariant(s) && Enabled(s, Dispatch(now))
    ensures StartedAsCalled(s, Dispatch(now), t)
  {
    hide Apply, Calls, Invariant, Enabled, Number;
    DispatchCalls(s, now, t);
    var u := Apply(s, Dispatch(now));
    if x :| u.tasks == s.tasks + [x] { NumberSnoc(s.tasks, x, t); }
  }

  lemma CompleteStarts(s: Server, i: nat, ok: bool, id: StreamId, t: Task)
    requires Enabled(s, Complete(i, ok, id))
    ensures StartedAsCalled(s, Complete(i, ok, id), t)
  {
    NumberWithout(s.tasks, i, t);
    QuietComplete(s, i, ok, id, t);
    hide Apply, Calls, Number;
  }

  lemma ExpireStarts(s: Server, c: Conn, now: nat, t: Task)
    requires Enabled(s, Expire(c, now))
    ensures StartedAsCalled(s, Expire(c, now), t)
  {
    assert Apply(s, Expire(c, now)).tasks == s.tasks + [Terminate(c)];
    NumberSnoc(s.tasks, Terminate(c), t);
    QuietExpire(s, c, now, t);
    hide Apply, Calls, Number;
  }

  lemma NothingStarts(s: Server, step: Step, t: Task)
    requires Enabled(s, step) && (step.Arrive? || step.Stop?)
    ensures StartedAsCalled(s, step, t)
  {
    if t.StartStream? { Added(s.launched, t.conn); }
  }

  lemma QuietComplete(s: Server, i: nat, ok: bool, id: StreamId, t: Task)
    requires Enabled(s, Complete(i, ok, id))
    ensures !Calls(s, Complete(i, ok, id), t)
    ensures Apply(s, Complete(i, ok, id)).tasks == s.tasks[..i] + s.tasks[i + 1..]
  {
  }

  lemma QuietExpire(s: Server, c: Conn, now: nat, t: Task)
    requires Enabled(s, Expire(c, now))
    ensures Calls(s, Expire(c, now), t) <==> t == Terminate(c)
  {
  }

  // ---------------------------------------------------------------------------
  // Streams asked to stop

  ghost predicate IsNew(s: Server, u: Server, t: Task) {
    Number(u.tasks, t) > Number(s.tasks, t)
  }

  /** A stream is asked to stop exactly when it leaves the table and its id is counted as
      stopped, and once. */
  lemma AskedToStopIff(s: Server, step: Step, st: StreamRef)
    requires Invariant(s) && Enabled(s, step)
    ensures
      var u := Apply(s, step);
      && (IsNew(s, u, RequestStop(st)) <==> Stops(s, u, st))
      && Number(u.tasks, RequestStop(st)) <= Number(s.tasks, RequestStop(st)) + 1
  {
    hide Apply, Enabled, Invariant, Number, Stops;
    OnlyDispatchStops(s, step, st);
    StartedIff(s, step, RequestStop(st));
  }

  lemma OnlyDispatchStops(s: Server, step: Step, st: StreamRef)
    requires Enabled(s, step)
    ensures Stops(s, Apply(s, step), st) ==> step.Dispatch?
  {
    hide Handle, SearchEnds;
  }

  ghost function NewlyAsked(s: Server, u: Server): set<StreamRef> {
    set st | st in s.active && IsNew(s, u, RequestStop(st))
  }

  /** The id of the stream the step asks to stop, if it asks one. */
  ghost function AskedNow(s: Server, step: Step): multiset<StreamId>
    requires Enabled(s, step)
  {
    var asked := NewlyAsked(s, Apply(s, step));
    if asked == {} then multiset{} else multiset{s.active[Least(asked)].streamId}
  }

  ghost function AskedToStop(s: Server, steps: seq<Step>): multiset<StreamId>
    requires CanRun(s, steps)
    decreases |steps|
  {
    if steps == [] then multiset{} else AskedNow(s, steps[0]) + AskedToStop(Apply(s, steps[0]), steps[1..])
  }

  lemma StoppedStep(s: Server, step: Step)
    requires Invariant(s) && Enabled(s, step)
    ensures Apply(s, step).stopped == s.stopped + AskedNow(s, step)
  {
    hide Apply, Enabled, Invariant, NewlyAsked, Stops;
    StopsOne(s, step);
    var u := Apply(s, step);
    forall st ensures st in NewlyAsked(s, u) <==> Stops(s, u, st) { NewlyAskedIff(s, step, st); }
    var asked := NewlyAsked(s, u);
    if asked != {} { StopsMeans(s, u, Least(asked)); }
  }

  lemma StopsMeans(s: Server, u: Server, st: StreamRef)
    requires Stops(s, u, st)
    ensures st in s.active && u.stopped == s.stopped + multiset{s.active[st].streamId}
  {
  }

  lemma NewlyAskedIff(s: Server, step: Step, st: StreamRef)
    requires Invariant(s) && Enabled(s, step)
    ensures st in NewlyAsked(s, Apply(s, step)) <==> Stops(s, Apply(s, step), st)
  {
    hide Apply, Enabled, Invariant, IsNew;
    AskedToStopIff(s, step, st);
  }

  lemma StopsOne(s: Server, step: Step)
    requires Enabled(s, step)
    ensures var u := Apply(s, step); (exists st :: Stops(s, u, st)) || u.stopped == s.stopped
  {
    hide ReservePort, SearchEnds;
    if step.Dispatch? && s.queue[0].StopStream? {
      var (e, u) := (s.queue[0], Apply(s, step));
      var found := Matches(Dequeue(s), e.channel, e.streamId);
      if found != {} { assert Stops(s, u, Least(found)); }
    }
  }

  /** Over every run: the streams ever asked to stop are exactly those counted as stopped. */
  lemma {:induction false} StoppedAreAsked(s: Server, steps: seq<Step>)
    requires Invariant(s) && CanRun(s, steps)
    ensures Run(s, steps).stopped == s.stopped + AskedToStop(s, steps)
    decreases |steps|
  {
    hide Invariant, Apply, Enabled, AskedNow;
    if steps != [] {
      StepKeeps(s, steps[0]);
      StoppedStep(s, steps[0]);
      StoppedAreAsked(Apply(s, steps[0]), steps[1..]);
    }
  }

  // ---------------------------------------------------------------------------
  // Events

  predicate Finishes(s: Server, step: Step, success: bool) {
    step.Complete? && step.success == success && step.task < |s.tasks|
  }

  /** What brings each event into the queue. */
  ghost predicate Brings(s: Server, step: Step, e: Event)
    requires Enabled(s, step)
  {
    var u := Apply(s, step);
    match e
    case ControlHmacKeyFound(c) =>
      Finishes(s, step, true) && s.tasks[step.task].FetchKey? && s.tasks[step.task].conn == c
    case TerminateControlConnection(c) =>
      || (&& Finishes(s, step, false) && (s.tasks[step.task].FetchKey? || s.tasks[step.task].CallStreamStarted?)
          && s.tasks[step.task].conn == c)
      || (&& step.Dispatch? && s.queue[0].StreamIdAssigned? && s.queue[0].conn == c
          && c in s.pending && c in u.pending)
    case StreamIdAssigned(c, ch, id) =>
      && Finishes(s, step, true) && s.tasks[step.task] == CallStreamStarted(c, ch)
      && id !in s.issued && u.issued == s.issued + {id}
    case StreamStarted(st, ch, id, port) =>
      && Finishes(s, step, true) && st == s.streams && u.streams == st + 1 && s.tasks[step.task].StartStream?
      && s.tasks[step.task] == StartStream(s.tasks[step.task].conn, ch, id, port)
    case StreamStartFailed(ch, id, port) =>
      && Finishes(s, step, false) && s.tasks[step.task].StartStream?
      && s.tasks[step.task] == StartStream(s.tasks[step.task].conn, ch, id, port)
    case _ => step == Arrive(e)
  }

  ghost predicate AsBrought(s: Server, step: Step, e: Event)
    requires Enabled(s, step)
  {
    Number(Apply(s, step).queue, e) + (if Takes(s, step, e) then 1 else 0) ==
    Number(s.queue, e) + (if Brings(s, step, e) then 1 else 0)
  }

  /** In every state and step: each event is queued exactly when something brings it, and
      once; and it is gone exactly when it is handled. */
  lemma QueuedIff(s: Server, step: Step, e: Event)
    requires Enabled(s, step)
    ensures AsBrought(s, step, e)
  {
    hide AsBrought;
    match step
    case Dispatch(now) => DispatchBrings(s, now, e);
    case Complete(i, ok, id) => CompleteBrings(s, i, ok, id, e);
    case _ => OtherBrings(s, step, e);
  }

  /** What handling the first event leaves in the queue: the others, and if the event's
      connection can get no port, one to terminate it. */
  ghost function Left(s: Server, u: Server): seq<Event>
    requires s.queue != []
  {
    var e := s.queue[0];
    s.queue[1..] + if e.StreamIdAssigned? && e.conn in s.pending && e.conn in u.pending
                   then [TerminateControlConnection(e.conn)] else []
  }

  lemma DispatchLeaves(s: Server, now: nat)
    requires Enabled(s, Dispatch(now))
    ensures Apply(s, Dispatch(now)).queue == Left(s, Apply(s, Dispatch(now)))
  {
    hide ReservePort, SearchEnds, Matches;
  }

  lemma HasEvent(s: Server, now: nat)
    requires Enabled(s, Dispatch(now))
    ensures s.queue != []
  {
  }

  lemma DispatchBrings(s: Server, now: nat, e: Event)
    requires Enabled(s, Dispatch(now))
    ensures AsBrought(s, Dispatch(now), e)
  {
    hide Apply, Number, Enabled;
    HasEvent(s, now);
    DispatchLeaves(s, now);
    NumberFirst(s.queue, e);
    var (u, x) := (Apply(s, Dispatch(now)), s.queue[0]);
    if x.StreamIdAssigned? && x.conn in s.pending && x.conn in u.pending {
      NumberSnoc(s.queue[1..], TerminateControlConnection(x.conn), e);
    } else {
      assert u.queue == s.queue[1..];
    }
  }

  lemma NumberFirst<T>(ts: seq<T>, t: T)
    requires ts != []
    ensures Number(ts, t) == Number(ts[1..], t) + if ts[0] == t then 1 else 0
  {
    assert ts == [ts[0]] + ts[1..];
  }

  /** A completed task queues at most one event, and it is `e` just when it brings `e`. */
  ghost predicate AsReported(s: Server, step: Step, e: Event)
    requires Enabled(s, step)
  {
    var (n, q) := (|s.queue|, Apply(s, step).queue);
    Follows(s.queue, q) && |q| <= n + 1 && (Brings(s, step, e) <==> |q| == n + 1 && q[n] == e)
  }

  lemma ReportIs(s: Server, i: nat, ok: bool, id: StreamId, e: Event)
    requires Enabled(s, Complete(i, ok, id))
    ensures AsReported(s, Complete(i, ok, id), e)
  {
    hide AsReported;
    match s.tasks[i]
    case FetchKey(_, _) => FetchReport(s, i, ok, id, e);
    case CallStreamStarted(_, _) => CallReport(s, i, ok, id, e);
    case StartStream(_, _, _, _) => StartReport(s, i, ok, id, e);
    case _ => NoReport(s, i, ok, id, e);
  }

  lemma FetchReport(s: Server, i: nat, ok: bool, id: StreamId, e: Event)
    requires Enabled(s, Complete(i, ok, id)) && s.tasks[i].FetchKey?
    ensures AsReported(s, Complete(i, ok, id), e)
  {
  }

  lemma CallReport(s: Server, i: nat, ok: bool, id: StreamId, e: Event)
    requires Enabled(s, Complete(i, ok, id)) && s.tasks[i].CallStreamStarted?
    ensures AsReported(s, Complete(i, ok, id), e)
  {
    if e.StreamIdAssigned? { SameUnion(s.issued, s.issued + {id}, e.streamId); }
  }

  lemma StartReport(s: Server, i: nat, ok: bool, id: StreamId, e: Event)
    requires Enabled(s, Complete(i, ok, id)) && s.tasks[i].StartStream?
    ensures AsReported(s, Complete(i, ok, id), e)
  {
  }

  lemma NoReport(s: Server, i: nat, ok: bool, id: StreamId, e: Event)
    requires Enabled(s, Complete(i, ok, id))
    requires !s.tasks[i].FetchKey? && !s.tasks[i].CallStreamStarted? && !s.tasks[i].StartStream?
    ensures AsReported(s, Complete(i, ok, id), e)
  {
  }

  lemma CompleteBrings(s: Server, i: nat, ok: bool, id: StreamId, e: Event)
    requires Enabled(s, Complete(i, ok, id))
    ensures AsBrought(s, Complete(i, ok, id), e)
  {
    ReportIs(s, i, ok, id, e);
    hide Apply, Brings, Enabled, Number;
    var u := Apply(s, Complete(i, ok, id));
    if |u.queue| == |s.queue| + 1 {
      assert u.queue == s.queue + [u.queue[|s.queue|]];
      NumberSnoc(s.queue, u.queue[|s.queue|], e);
    } else {
      assert u.queue == s.queue;
    }
  }

  lemma OtherBrings(s: Server, step: Step, e: Event)
    requires Enabled(s, step) && !step.Dispatch? && !step.Complete?
    ensures AsBrought(s, step, e)
  {
    if step.Arrive? { NumberSnoc(s.queue, step.event, e); }
  }

  // ---------------------------------------------------------------------------
  // Requests that are served

  ghost function Arrivals(steps: seq<Step>, e: Event): nat {
    if steps == [] then 0 else (if steps[0] == Arrive(e) then 1 else 0) + Arrivals(steps[1..], e)
  }

  ghost function Completions(s: Server, steps: seq<Step>, t: Task): nat
    requires CanRun(s, steps)
    decreases |steps|
  {
    if steps == [] then 0
    else
      (if steps[0].Complete? && s.tasks[steps[0].task] == t then 1 else 0) +
      Completions(Apply(s, steps[0]), steps[1..], t)
  }

  /** The requests of control connections, and the tasks that serve them. */
  predicate Serves(e: Event, t: Task) {
    || (e.ControlRequestHmacKey? && t == FetchKey(e.conn, e.channel))
    || (e.ControlRequestMediaPort? && t == CallStreamStarted(e.conn, e.channel))
  }

  /** Over every run no request of a connection is lost, served twice, or served as another's:
      those that came are those waiting, those being served and those served. */
  lemma {:induction false} RequestsAreServed(s: Server, steps: seq<Step>, e: Event, t: Task)
    requires Invariant(s) && CanRun(s, steps) && Serves(e, t)
    ensures
      var u := Run(s, steps);
      Number(s.queue, e) + Number(s.tasks, t) + Arrivals(steps, e) ==
      Number(u.queue, e) + Number(u.tasks, t) + Completions(s, steps, t)
    decreases |steps|
  {
    hide Invariant, Apply, Enabled;
    if steps != [] {
      StepKeeps(s, steps[0]);
      RequestStep(s, steps[0], e, t);
      RequestsAreServed(Apply(s, steps[0]), steps[1..], e, t);
    }
  }

  lemma RequestStep(s: Server, step: Step, e: Event, t: Task)
    requires Invariant(s) && Enabled(s, step) && Serves(e, t)
    ensures
      var u := Apply(s, step);
      Number(s.queue, e) + Number(s.tasks, t) + (if step == Arrive(e) then 1 else 0) ==
      Number(u.queue, e) + Number(u.tasks, t) + (if step.Complete? && s.tasks[step.task] == t then 1 else 0)
  {
    hide Invariant, Apply;
    StartedIff(s, step, t);
    QueuedIff(s, step, e);
  }
}
