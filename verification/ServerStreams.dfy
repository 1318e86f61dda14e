/** Where the server has a stream: in an event, in a task or in its table; and where its
    steps leave it. */
module ServerStreams {
  import S = ServerModel
  import I = ServerInvariants
  import L = ServerLifetimes

  type Channel = nat
  type StreamId = nat

  predicate Carries(e: S.Event, ch: Channel, id: StreamId) {
    match e
    case StreamIdAssigned(_, c, i) => c == ch && i == id
    case StreamStarted(_, c, i, _) => c == ch && i == id
    case StreamStartFailed(c, i, _) => c == ch && i == id
    case _ => false
  }

  predicate Starts(t: S.Task, ch: Channel, id: StreamId) {
    t.StartStream? && t.channel == ch && t.streamId == id
  }

  predicate Records(r: S.Record, ch: Channel, id: StreamId) {
    r.channel == ch && r.streamId == id
  }

  ghost predicate IsActive(s: S.Server, ch: Channel, id: StreamId) {
    exists st :: st in s.active && Records(s.active[st], ch, id)
  }

  ghost predicate IsStarting(s: S.Server, ch: Channel, id: StreamId) {
    || (exists i :: 0 <= i < |s.queue| && Carries(s.queue[i], ch, id))
    || (exists i :: 0 <= i < |s.tasks| && Starts(s.tasks[i], ch, id))
  }

  /** Being started, or active. */
  ghost predicate Has(s: S.Server, ch: Channel, id: StreamId) {
    IsStarting(s, ch, id) || IsActive(s, ch, id)
  }

  predicate Ending(s: S.Server, ch: Channel, id: StreamId) {
    S.CallStreamEnded(ch, id) in s.tasks
  }

  // ---------------------------------------------------------------------------
  // Where the server's own steps leave it

  /** Handling an event adds to the tasks. */
  lemma HandleTasks(s: S.Server, e: S.Event, now: nat)
    requires S.CanHandle(s, e)
    ensures
      var u := S.Handle(s, e, now);
      |s.tasks| <= |u.tasks| && u.tasks[..|s.tasks|] == s.tasks
  {
    hide S.ReservePort, S.Matches, S.SearchEnds;
  }

  /** What handling the event that carries a stream makes of it. */
  lemma HandleCarrier(s: S.Server, e: S.Event, now: nat, ch: Channel, id: StreamId)
    requires S.CanHandle(s, e) && Carries(e, ch, id) && (e.StreamStarted? ==> e.stream !in s.active)
    ensures Has(S.Handle(s, e, now), ch, id) || Ending(S.Handle(s, e, now), ch, id)
  {
    hide S.ReservePort, S.Matches, S.SearchEnds;
    var u := S.Handle(s, e, now);
    var n := |s.tasks|;
    if e.StreamStarted? {
      assert Records(u.active[e.stream], ch, id);
    } else {
      assert |u.tasks| == n + 1;
      assert Starts(u.tasks[n], ch, id) || u.tasks[n] == S.CallStreamEnded(ch, id);
    }
  }

  /** What handling an event makes of an active stream. */
  lemma HandleActive(s: S.Server, e: S.Event, now: nat, st: S.StreamRef)
    requires S.CanHandle(s, e) && st in s.active && (e.StopStream? ==> L.MatchesOne(s, e.channel, e.streamId))
    ensures
      var (u, r) := (S.Handle(s, e, now), s.active[st]);
      || (st in u.active && u.active[st] == r)
      || Ending(u, r.channel, r.streamId)
      || e == S.StopStream(r.channel, r.streamId)
  {
    L.HandleActive(s, e, now, st);
    if e == S.StreamClosed(st) {
      var u := S.Handle(s, e, now);
      assert u.tasks[|s.tasks|] == S.CallStreamEnded(s.active[st].channel, s.active[st].streamId);
    }
  }

  /** The server keeps a stream until it reports the end, or is told to stop it. */
  lemma DispatchKeepsStream(s: S.Server, now: nat, ch: Channel, id: StreamId)
    requires I.Invariant(s) && S.Enabled(s, S.Dispatch(now)) && Has(s, ch, id)
    ensures
      var u := S.Apply(s, S.Dispatch(now));
      Has(u, ch, id) || Ending(u, ch, id) || s.queue[0] == S.StopStream(ch, id)
  {
    hide I.Invariant, S.Handle, S.SearchEnds, Carries, Starts, Records;
    var (v, e) := (S.Dequeue(s), s.queue[0]);
    var u := S.Handle(v, e, now);
    L.HandleQueue(v, e, now);
    HandleTasks(v, e, now);
    if i :| 0 <= i < |s.queue| && Carries(s.queue[i], ch, id) {
      if i == 0 {
        if e.StreamStarted? && e.stream in s.active { L.NotBoth(s, e.stream, e); }
        HandleCarrier(v, e, now, ch, id);
      } else {
        assert u.queue[i - 1] == u.queue[..|v.queue|][i - 1] == s.queue[i];
      }
    } else if i :| 0 <= i < |s.tasks| && Starts(s.tasks[i], ch, id) {
      assert u.tasks[i] == u.tasks[..|s.tasks|][i] == s.tasks[i];
    } else {
      var st :| st in s.active && Records(s.active[st], ch, id);
      assert s.active[st].channel == ch && s.active[st].streamId == id by { RecordsMeans(s.active[st], ch, id); }
      if e.StopStream? { L.StopIsUnambiguous(s, e.channel, e.streamId); }
      HandleActive(v, e, now, st);
    }
  }

  lemma RecordsMeans(r: S.Record, ch: Channel, id: StreamId)
    ensures Records(r, ch, id) <==> r.channel == ch && r.streamId == id
  {
  }

  /** A task that starts a stream queues an event that carries it. */
  lemma StartQueues(s: S.Server, t: S.Task, success: bool, newId: StreamId, ch: Channel, id: StreamId)
    requires Starts(t, ch, id)
    ensures
      var u := S.OnComplete(s, t, success, newId);
      |u.queue| == |s.queue| + 1 && Carries(u.queue[|s.queue|], ch, id)
  {
  }

  lemma CompleteKeepsStream(s: S.Server, i: nat, success: bool, newId: StreamId, ch: Channel, id: StreamId)
    requires S.Enabled(s, S.Complete(i, success, newId)) && Has(s, ch, id)
    ensures Has(S.Apply(s, S.Complete(i, success, newId)), ch, id)
  {
    hide Carries, Starts, Records, S.OnComplete;
    var u := S.Apply(s, S.Complete(i, success, newId));
    L.CompleteQueue(S.Finish(s, i), s.tasks[i], success, newId);
    CompleteTasks(S.Finish(s, i), s.tasks[i], success, newId);
    if j :| 0 <= j < |s.queue| && Carries(s.queue[j], ch, id) {
      assert u.queue[j] == u.queue[..|s.queue|][j] == s.queue[j];
    } else if j :| 0 <= j < |s.tasks| && Starts(s.tasks[j], ch, id) {
      if j == i {
        StartQueues(S.Finish(s, i), s.tasks[i], success, newId, ch, id);
      } else {
        var k := if j < i then j else j - 1;
        assert u.tasks[k] == s.tasks[j];
      }
    }
  }

  /** Queueing events from outside, and dealing with pending connections, changes nothing. */
  lemma Undisturbed(s: S.Server, u: S.Server, ch: Channel, id: StreamId)
    requires Has(s, ch, id) && u.active == s.active
    requires |s.queue| <= |u.queue| && u.queue[..|s.queue|] == s.queue
    requires |s.tasks| <= |u.tasks| && u.tasks[..|s.tasks|] == s.tasks
    ensures Has(u, ch, id)
  {
    if i :| 0 <= i < |s.queue| && Carries(s.queue[i], ch, id) {
      assert u.queue[i] == u.queue[..|s.queue|][i];
    } else if i :| 0 <= i < |s.tasks| && Starts(s.tasks[i], ch, id) {
      assert u.tasks[i] == u.tasks[..|s.tasks|][i];
    }
  }

  lemma StepKeepsStream(s: S.Server, step: S.Step, ch: Channel, id: StreamId)
    requires I.Invariant(s) && S.Enabled(s, step) && Has(s, ch, id)
    ensures
      var u := S.Apply(s, step);
      Has(u, ch, id) || Ending(u, ch, id) || (step.Dispatch? && s.queue[0] == S.StopStream(ch, id))
  {
    hide I.Invariant, Has, S.Handle, S.OnComplete, S.SearchEnds;
    match step
    case Dispatch(now) => DispatchKeepsStream(s, now, ch, id);
    case Complete(i, ok, newId) => CompleteKeepsStream(s, i, ok, newId, ch, id);
    case Expire(c, _) => Undisturbed(s, S.Apply(s, step), ch, id);
    case Arrive(_) => Undisturbed(s, S.Apply(s, step), ch, id);
    case Stop => Undisturbed(s, S.Apply(s, step), ch, id);
  }

  /** A report of the end stays until it is delivered. */
  lemma StepKeepsEnding(s: S.Server, step: S.Step, ch: Channel, id: StreamId)
    requires S.Enabled(s, step) && Ending(s, ch, id)
    ensures Ending(S.Apply(s, step), ch, id) ||
            (step.Complete? && s.tasks[step.task] == S.CallStreamEnded(ch, id))
  {
    hide S.Handle, S.OnComplete, S.SearchEnds;
    var u := S.Apply(s, step);
    var i :| 0 <= i < |s.tasks| && s.tasks[i] == S.CallStreamEnded(ch, id);
    match step
    case Dispatch(now) =>
      HandleTasks(S.Dequeue(s), s.queue[0], now);
      assert u.tasks[i] == u.tasks[..|s.tasks|][i];
    case Complete(j, ok, newId) =>
      CompleteTasks(S.Finish(s, j), s.tasks[j], ok, newId);
      if i != j {
        var k := if i < j then i else i - 1;
        assert u.tasks[k] == s.tasks[i];
      }
    case _ =>
      assert u.tasks[i] == s.tasks[i];
  }

  lemma CompleteTasks(s: S.Server, t: S.Task, success: bool, id: StreamId)
    ensures S.OnComplete(s, t, success, id).tasks == s.tasks
  {
  }

  // ---------------------------------------------------------------------------
  // Stops

  lemma {:induction false} InFlightMember(k: I.Kind, ts: seq<S.Task>, t: S.Task)
    requires t in ts
    ensures I.TaskTokens(k, t) <= I.InFlight(k, ts)
  {
    if ts[0] != t { InFlightMember(k, ts[1..], t); }
  }

  lemma HasIsHeld(s: S.Server, ch: Channel, id: StreamId)
    requires Has(s, ch, id)
    ensures id in I.Held(I.Ids, s)
  {
    if i :| 0 <= i < |s.queue| && Carries(s.queue[i], ch, id) {
      L.QueuedMember(I.Ids, s.queue, s.queue[i]);
      assert id in I.EventTokens(I.Ids, s.queue[i]);
    } else if i :| 0 <= i < |s.tasks| && Starts(s.tasks[i], ch, id) {
      InFlightMember(I.Ids, s.tasks, s.tasks[i]);
      assert id in I.TaskTokens(I.Ids, s.tasks[i]);
    } else {
      var st :| st in s.active && Records(s.active[st], ch, id);
      I.ActiveMember(I.Ids, s.active, st);
    }
  }

  /** An id that has been stopped is nowhere. */
  lemma StoppedIsNowhere(s: S.Server, ch: Channel, id: StreamId)
    requires I.Invariant(s) && id in s.stopped
    ensures !Has(s, ch, id)
  {
    assert multiset(s.issued)[id] == I.Held(I.Ids, s)[id] + s.ended[id] + s.stopped[id];
    hide I.Held;
    if Has(s, ch, id) { HasIsHeld(s, ch, id); }
  }

  lemma StopTakes(s: S.Server, ch: Channel, id: StreamId)
    requires IsActive(s, ch, id)
    ensures id in S.OnStopStream(s, ch, id).stopped
  {
    var st :| st in s.active && Records(s.active[st], ch, id);
    assert st in S.Matches(s, ch, id);
  }

  lemma StopMisses(s: S.Server, ch: Channel, id: StreamId)
    requires !IsActive(s, ch, id)
    ensures S.OnStopStream(s, ch, id) == s
  {
    assert forall st :: st in s.active ==> !Records(s.active[st], ch, id);
    assert S.Matches(s, ch, id) == {};
  }

  /** A stop misses its stream, and the server goes on with it, exactly when it is handled
      while the stream is still being started. */
  lemma StopMissesIff(s: S.Server, now: nat, ch: Channel, id: StreamId)
    requires I.Invariant(s) && s.queue != [] && s.queue[0] == S.StopStream(ch, id)
    ensures Has(S.Apply(s, S.Dispatch(now)), ch, id) <==> IsStarting(s, ch, id)
  {
    hide I.Invariant;
    var (v, u) := (S.Dequeue(s), S.Apply(s, S.Dispatch(now)));
    I.StepKeeps(s, S.Dispatch(now));
    if IsActive(s, ch, id) {
      if IsStarting(s, ch, id) { StartingIsNotActive(s, ch, id); }
      assert IsActive(v, ch, id) by {
        var st :| st in s.active && Records(s.active[st], ch, id);
        assert st in v.active && Records(v.active[st], ch, id);
      }
      StopTakes(v, ch, id);
      StoppedIsNowhere(u, ch, id);
    } else {
      assert !IsActive(v, ch, id) by {
        if st :| st in v.active && Records(v.active[st], ch, id) {
          assert st in s.active && Records(s.active[st], ch, id);
        }
      }
      StopMisses(v, ch, id);
      DequeueStarting(s, ch, id);
    }
  }

  lemma DequeueStarting(s: S.Server, ch: Channel, id: StreamId)
    requires s.queue != [] && s.queue[0].StopStream?
    ensures IsStarting(S.Dequeue(s), ch, id) <==> IsStarting(s, ch, id)
  {
    var v := S.Dequeue(s);
    if i :| 0 <= i < |s.queue| && Carries(s.queue[i], ch, id) {
      assert v.queue[i - 1] == s.queue[i];
    }
    if i :| 0 <= i < |v.queue| && Carries(v.queue[i], ch, id) {
      assert s.queue[i + 1] == v.queue[i];
    }
  }

  lemma StartingIsNotActive(s: S.Server, ch: Channel, id: StreamId)
    requires I.Invariant(s) && IsStarting(s, ch, id)
    ensures !IsActive(s, ch, id)
  {
    assert multiset(s.issued)[id] == I.Held(I.Ids, s)[id] + s.ended[id] + s.stopped[id];
    StartingHeld(s, ch, id);
    if IsActive(s, ch, id) {
      var st :| st in s.active && Records(s.active[st], ch, id);
      I.ActiveMember(I.Ids, s.active, st);
    }
  }

  lemma StartingHeld(s: S.Server, ch: Channel, id: StreamId)
    requires IsStarting(s, ch, id)
    ensures (I.Queued(I.Ids, s.queue) + I.InFlight(I.Ids, s.tasks))[id] >= 1
  {
    if i :| 0 <= i < |s.queue| && Carries(s.queue[i], ch, id) {
      L.QueuedMember(I.Ids, s.queue, s.queue[i]);
      assert id in I.EventTokens(I.Ids, s.queue[i]);
    } else {
      var i :| 0 <= i < |s.tasks| && Starts(s.tasks[i], ch, id);
      InFlightMember(I.Ids, s.tasks, s.tasks[i]);
      assert id in I.TaskTokens(I.Ids, s.tasks[i]);
    }
  }

  // ---------------------------------------------------------------------------
  // Streams come from nowhere but the callback that starts them

  /** At most one more task, of the event's making; the end of an id is recorded before it is
      reported. */
  ghost predicate Adds(s: S.Server, u: S.Server, e: S.Event) {
    || u.tasks == s.tasks
    || exists t :: u.tasks == s.tasks + [t] && TaskOf(e, t) && (t.CallStreamEnded? ==> t.streamId in u.ended)
  }

  lemma AddsOne(s: S.Server, u: S.Server, e: S.Event, t: S.Task)
    requires u.tasks == s.tasks + [t] && TaskOf(e, t) && (t.CallStreamEnded? ==> t.streamId in u.ended)
    ensures Adds(s, u, e)
  {
  }

  lemma AssignedAdds(s: S.Server, c: S.Conn, ch: Channel, id: StreamId)
    requires c in s.pending ==> S.SearchEnds(s)
    ensures Adds(s, S.OnStreamIdAssigned(s, c, ch, id), S.StreamIdAssigned(c, ch, id))
  {
    hide S.ReservePort, S.SearchEnds, Adds;
    var (e, u) := (S.StreamIdAssigned(c, ch, id), S.OnStreamIdAssigned(s, c, ch, id));
    if c !in s.pending || S.ReservePort(s).None? {
      AddsOne(s, u, e, S.CallStreamEnded(ch, id));
    } else {
      AddsOne(s, u, e, S.StartStream(c, ch, id, S.ReservePort(s).value));
    }
  }

  lemma StopAdds(s: S.Server, ch: Channel, id: StreamId)
    ensures Adds(s, S.OnStopStream(s, ch, id), S.StopStream(ch, id))
  {
    hide S.Matches, Adds;
    var (e, u) := (S.StopStream(ch, id), S.OnStopStream(s, ch, id));
    if S.Matches(s, ch, id) == {} {
      AddsNone(s, u, e);
    } else {
      MatchIsActive(s, ch, id);
      AddsOne(s, u, e, u.tasks[|s.tasks|]);
    }
  }

  lemma MatchIsActive(s: S.Server, ch: Channel, id: StreamId)
    requires S.Matches(s, ch, id) != {}
    ensures
      var u := S.OnStopStream(s, ch, id);
      |u.tasks| == |s.tasks| + 1 && u.tasks == s.tasks + [u.tasks[|s.tasks|]] && u.tasks[|s.tasks|].RequestStop?
  {
  }

  lemma AddsNone(s: S.Server, u: S.Server, e: S.Event)
    requires u.tasks == s.tasks
    ensures Adds(s, u, e)
  {
  }

  lemma EndAdds(s: S.Server, e: S.Event, u: S.Server, ch: Channel, id: StreamId)
    requires u.tasks == s.tasks + [S.CallStreamEnded(ch, id)] && id in u.ended
    ensures Adds(s, u, e)
  {
    AddsOne(s, u, e, S.CallStreamEnded(ch, id));
  }

  /** Handling an event adds at most one task of its own making. */
  lemma HandleAdds(s: S.Server, e: S.Event, now: nat)
    requires S.CanHandle(s, e)
    ensures Adds(s, S.Handle(s, e, now), e)
  {
    hide S.ReservePort, S.SearchEnds, S.Matches, Adds, S.OnStreamIdAssigned, S.OnStopStream;
    var u := S.Handle(s, e, now);
    match e
    case StopStream(ch, id) => StopAdds(s, ch, id);
    case StreamIdAssigned(c, ch, id) => AssignedAdds(s, c, ch, id);
    case ControlRequestHmacKey(c, ch) => AddsOne(s, u, e, S.FetchKey(c, ch));
    case ControlHmacKeyFound(c) => if c in s.pending { AddsOne(s, u, e, S.ProvideKey(c)); } else { AddsNone(s, u, e); }
    case ControlRequestMediaPort(c, ch) => AddsOne(s, u, e, S.CallStreamStarted(c, ch));
    case TerminateControlConnection(c) =>
      if c in s.pending { AddsOne(s, u, e, S.Terminate(c)); } else { AddsNone(s, u, e); }
    case StreamStartFailed(ch, id, _) => EndAdds(s, e, u, ch, id);
    case StreamClosed(st) =>
      if st in s.active { EndAdds(s, e, u, s.active[st].channel, s.active[st].streamId); } else { AddsNone(s, u, e); }
    case _ => AddsNone(s, u, e);
  }

  /** Streams are started for the connection their id was assigned to, and callbacks made for
      the connection that asked. */
  predicate TaskOf(e: S.Event, t: S.Task) {
    && (t.StartStream? ==> e.StreamIdAssigned? && t.conn == e.conn && Starts(t, e.channel, e.streamId))
    && (t.CallStreamStarted? ==> e == S.ControlRequestMediaPort(t.conn, t.channel))
  }

  /** The record that handling an event may enter. */
  lemma HandleEntersRecord(s: S.Server, e: S.Event, now: nat, st: S.StreamRef)
    requires S.CanHandle(s, e) && st in S.Handle(s, e, now).active
    ensures
      var u := S.Handle(s, e, now);
      || (st in s.active && s.active[st] == u.active[st])
      || (e.StreamStarted? && Records(u.active[st], e.channel, e.streamId))
  {
    hide S.ReservePort, S.Matches, S.SearchEnds;
  }

  lemma HandleBringsNone(s: S.Server, e: S.Event, now: nat, ch: Channel, id: StreamId)
    requires S.CanHandle(s, e) && Has(S.Handle(s, e, now), ch, id)
    ensures Has(s, ch, id) || Carries(e, ch, id)
  {
    hide S.Handle, S.SearchEnds;
    HandleAdds(s, e, now);
    L.HandleQueue(s, e, now);
    var u := S.Handle(s, e, now);
    if i :| 0 <= i < |u.queue| && Carries(u.queue[i], ch, id) {
      assert u.queue[i] in u.queue;
      var j :| 0 <= j < |s.queue| && s.queue[j] == u.queue[i];
    } else if i :| 0 <= i < |u.tasks| && Starts(u.tasks[i], ch, id) {
      if i < |s.tasks| { assert u.tasks[i] == s.tasks[i]; }
    } else {
      var st :| st in u.active && Records(u.active[st], ch, id);
      HandleEntersRecord(s, e, now, st);
    }
  }

  lemma CompleteBringsNone(s: S.Server, i: nat, success: bool, newId: StreamId, ch: Channel, id: StreamId)
    requires S.Enabled(s, S.Complete(i, success, newId)) && Has(S.Apply(s, S.Complete(i, success, newId)), ch, id)
    ensures Has(s, ch, id) ||
            (s.tasks[i].CallStreamStarted? && success && s.tasks[i].channel == ch && newId == id)
  {
    var (t, u) := (s.tasks[i], S.Apply(s, S.Complete(i, success, newId)));
    CompleteAdds(S.Finish(s, i), t, success, newId, ch, id);
    hide S.OnComplete, Carries;
    if j :| 0 <= j < |u.queue| && Carries(u.queue[j], ch, id) {
      if j < |s.queue| {
        assert s.queue[j] == u.queue[j];
      }
    } else if j :| 0 <= j < |u.tasks| && Starts(u.tasks[j], ch, id) {
      assert s.tasks[if j < i then j else j + 1] == u.tasks[j];
    } else {
      var st :| st in u.active && Records(u.active[st], ch, id);
      assert st in s.active && Records(s.active[st], ch, id);
    }
  }

  lemma CompleteAdds(s: S.Server, t: S.Task, success: bool, newId: StreamId, ch: Channel, id: StreamId)
    ensures
      var u := S.OnComplete(s, t, success, newId);
      && u.tasks == s.tasks && u.active == s.active
      && |s.queue| <= |u.queue| <= |s.queue| + 1 && u.queue[..|s.queue|] == s.queue
      && (|u.queue| > |s.queue| && Carries(u.queue[|s.queue|], ch, id) ==>
            Starts(t, ch, id) || (t.CallStreamStarted? && success && t.channel == ch && newId == id))
  {
  }

  /** A step of the server has no stream it did not have, but for one that begins. */
  lemma StepBringsNone(s: S.Server, step: S.Step, ch: Channel, id: StreamId)
    requires S.Enabled(s, step) && Has(S.Apply(s, step), ch, id)
    requires step.Complete? && step.success && s.tasks[step.task].CallStreamStarted? ==>
               s.tasks[step.task].channel != ch || step.streamId != id
    ensures Has(s, ch, id)
  {
    hide S.Handle, S.OnComplete, S.SearchEnds;
    match step
    case Dispatch(now) =>
      HandleBringsNone(S.Dequeue(s), s.queue[0], now, ch, id);
      if Has(S.Dequeue(s), ch, id) { DequeueHas(s, ch, id); }
    case Complete(i, ok, newId) => CompleteBringsNone(s, i, ok, newId, ch, id);
    case Arrive(e) => ArriveHas(s, e, ch, id);
    case Expire(c, _) => ExpireHas(s, c, ch, id);
    case Stop =>
  }

  lemma DequeueHas(s: S.Server, ch: Channel, id: StreamId)
    requires s.queue != [] && Has(S.Dequeue(s), ch, id)
    ensures Has(s, ch, id)
  {
    var v := S.Dequeue(s);
    if i :| 0 <= i < |v.queue| && Carries(v.queue[i], ch, id) {
      assert s.queue[i + 1] == v.queue[i];
    } else if i :| 0 <= i < |v.tasks| && Starts(v.tasks[i], ch, id) {
      assert Starts(s.tasks[i], ch, id);
    }
  }

  lemma ArriveHas(s: S.Server, e: S.Event, ch: Channel, id: StreamId)
    requires S.External(e) && Has(S.Enqueue(s, e), ch, id)
    ensures Has(s, ch, id)
  {
    var u := S.Enqueue(s, e);
    if i :| 0 <= i < |u.queue| && Carries(u.queue[i], ch, id) {
      assert s.queue[i] == u.queue[i];
    }
  }

  lemma ExpireHas(s: S.Server, c: S.Conn, ch: Channel, id: StreamId)
    requires Has(S.OnTerminate(s, c), ch, id)
    ensures Has(s, ch, id)
  {
    var u := S.OnTerminate(s, c);
    if i :| 0 <= i < |u.queue| && Carries(u.queue[i], ch, id) {
    } else if i :| 0 <= i < |u.tasks| && Starts(u.tasks[i], ch, id) {
      assert s.tasks[i] == u.tasks[i];
    }
  }

  // ---------------------------------------------------------------------------
  // Ends

  /** The end is reported only of ids recorded as ended. */
  ghost predicate EndsAreRecorded(s: S.Server) {
    forall i :: 0 <= i < |s.tasks| && s.tasks[i].CallStreamEnded? ==> s.tasks[i].streamId in s.ended
  }

  lemma EndedIsNowhere(s: S.Server, ch: Channel, id: StreamId)
    requires I.Invariant(s) && id in s.ended
    ensures !Has(s, ch, id)
  {
    assert multiset(s.issued)[id] == I.Held(I.Ids, s)[id] + s.ended[id] + s.stopped[id];
    hide I.Held;
    if Has(s, ch, id) { HasIsHeld(s, ch, id); }
  }

  lemma HandleRecordsEnds(s: S.Server, e: S.Event, now: nat)
    requires S.CanHandle(s, e) && EndsAreRecorded(s)
    ensures EndsAreRecorded(S.Handle(s, e, now))
  {
    hide S.ReservePort, S.Matches, S.SearchEnds;
    EndedGrows(s, e, now);
    HandleAdds(s, e, now);
    hide S.Handle;
  }

  lemma EndedGrows(s: S.Server, e: S.Event, now: nat)
    requires S.CanHandle(s, e)
    ensures forall id :: id in s.ended ==> id in S.Handle(s, e, now).ended
  {
    hide S.ReservePort, S.Matches, S.SearchEnds;
  }

  lemma StepRecordsEnds(s: S.Server, step: S.Step)
    requires S.Enabled(s, step) && EndsAreRecorded(s)
    ensures EndsAreRecorded(S.Apply(s, step))
  {
    hide S.Handle, S.OnComplete, S.SearchEnds;
    var u := S.Apply(s, step);
    match step
    case Dispatch(now) =>
      assert EndsAreRecorded(S.Dequeue(s));
      HandleRecordsEnds(S.Dequeue(s), s.queue[0], now);
    case Complete(i, ok, newId) =>
      CompleteTasks(S.Finish(s, i), s.tasks[i], ok, newId);
      CompleteEnds(S.Finish(s, i), s.tasks[i], ok, newId);
    case _ =>
  }

  lemma CompleteEnds(s: S.Server, t: S.Task, success: bool, id: StreamId)
    ensures S.OnComplete(s, t, success, id).ended == s.ended
  {
  }
}
