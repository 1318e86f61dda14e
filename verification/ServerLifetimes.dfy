/** How long the server keeps a stream's record, port and id. */
module ServerLifetimes {
  import opened Collections
  import opened ServerModel
  import opened ServerInvariants

  predicate IsStart(e: Event, st: StreamRef) {
    e.StreamStarted? && e.stream == st
  }

  predicate Announced(s: Server, st: StreamRef, r: Record) {
    StreamStarted(st, r.channel, r.streamId, r.port) in s.queue
  }

  /** The stream has started: it is in the table, or about to be entered there. */
  predicate Present(s: Server, st: StreamRef, r: Record) {
    Announced(s, st, r) || (st in s.active && s.active[st] == r)
  }

  /** The step handles the close, or a matching stop, of a stream that is in the table. */
  predicate Releases(s: Server, step: Step, st: StreamRef) {
    && step.Dispatch? && s.queue != [] && st in s.active
    && (s.queue[0] == StreamClosed(st) || s.queue[0] == StopStream(s.active[st].channel, s.active[st].streamId))
  }

  // ---------------------------------------------------------------------------
  // One step

  /** A step takes at most the first event off the queue, and otherwise adds to it. */
  predicate Follows(q: seq<Event>, u: seq<Event>) {
    |q| <= |u| && u[..|q|] == q
  }

  lemma HandleQueue(s: Server, e: Event, now: nat)
    requires CanHandle(s, e)
    ensures Follows(s.queue, Handle(s, e, now).queue)
    ensures forall x :: x in Handle(s, e, now).queue ==> x in s.queue || x.TerminateControlConnection?
    ensures Handle(s, e, now).streams == s.streams
  {
    hide ReservePort, Matches, SearchEnds;
  }

  lemma CompleteQueue(s: Server, t: Task, success: bool, id: StreamId)
    ensures
      var u := OnComplete(s, t, success, id);
      && Follows(s.queue, u.queue) && u.active == s.active && s.streams <= u.streams
      && forall x :: x in u.queue && x.StreamStarted? ==> x in s.queue || x.stream == s.streams
  {
  }

  lemma StepQueue(s: Server, step: Step)
    requires Enabled(s, step)
    ensures Follows(if step.Dispatch? then s.queue[1..] else s.queue, Apply(s, step).queue)
    ensures forall x :: x in Apply(s, step).queue && x.StreamStarted? ==> x in s.queue || x.stream >= s.streams
    ensures s.streams <= Apply(s, step).streams
    ensures !step.Dispatch? ==> Apply(s, step).active == s.active
  {
    hide Handle, OnComplete, SearchEnds;
    match step
    case Dispatch(now) =>
      HandleQueue(Dequeue(s), s.queue[0], now);
    case Complete(i, ok, id) =>
      CompleteQueue(Finish(s, i), s.tasks[i], ok, id);
    case _ =>
  }

  ghost predicate MatchesOne(s: Server, ch: Channel, id: StreamId) {
    forall a, b :: a in Matches(s, ch, id) && b in Matches(s, ch, id) ==> a == b
  }

  /** What handling an event does to a stream in the table. */
  lemma HandleActive(s: Server, e: Event, now: nat, st: StreamRef)
    requires CanHandle(s, e) && st in s.active
    requires e.StopStream? ==> MatchesOne(s, e.channel, e.streamId)
    ensures
      var u := Handle(s, e, now);
      && (st !in u.active <==>
            e == StreamClosed(st) || e == StopStream(s.active[st].channel, s.active[st].streamId))
      && (st in u.active ==> u.active[st] == s.active[st])
  {
    hide ReservePort, SearchEnds;
    if e.StopStream? {
      hide Matches;
      HandleStop(s, e.channel, e.streamId, st);
    }
  }

  lemma HandleStop(s: Server, ch: Channel, id: StreamId, st: StreamRef)
    requires st in s.active
    requires MatchesOne(s, ch, id)
    ensures
      var u := OnStopStream(s, ch, id);
      && (st !in u.active <==> s.active[st].channel == ch && s.active[st].streamId == id)
      && (st in u.active ==> u.active[st] == s.active[st])
  {
    var found := Matches(s, ch, id);
    if found != {} { assert Least(found) in found; }
    assert st in found <==> s.active[st].channel == ch && s.active[st].streamId == id;
  }

  lemma StopIsUnambiguous(s: Server, ch: Channel, id: StreamId)
    requires Invariant(s) && s.queue != []
    ensures MatchesOne(Dequeue(s), ch, id)
  {
    hide Invariant;
    assert Matches(Dequeue(s), ch, id) == Matches(s, ch, id);
    forall a, b | a in Matches(s, ch, id) && b in Matches(s, ch, id) ensures a == b {
      AtMostOneMatch(s, ch, id, a, b);
    }
  }

  /** A stream leaves the table exactly when its close, or a stop for it, is handled. */
  lemma LeavesIff(s: Server, step: Step, st: StreamRef)
    requires Invariant(s) && Enabled(s, step) && st in s.active
    ensures st !in Apply(s, step).active <==> Releases(s, step, st)
    ensures st in Apply(s, step).active ==> Apply(s, step).active[st] == s.active[st]
  {
    hide Invariant, Handle, OnComplete, SearchEnds, Matches;
    StepQueue(s, step);
    if step.Dispatch? {
      var e := s.queue[0];
      if e.StopStream? { StopIsUnambiguous(s, e.channel, e.streamId); }
      HandleActive(Dequeue(s), e, step.now, st);
    }
  }

  /** The close of a stream that is not in the table changes nothing but the queue. */
  lemma EarlyCloseIsLost(s: Server, st: StreamRef, now: nat)
    requires s.queue != [] && s.queue[0] == StreamClosed(st) && st !in s.active
    ensures Apply(s, Dispatch(now)) == Dequeue(s)
  {
  }

  lemma {:induction false} QueuedMember(k: Kind, q: seq<Event>, e: Event)
    requires e in q
    ensures EventTokens(k, e) <= Queued(k, q)
  {
    if q[0] != e { QueuedMember(k, q[1..], e); }
  }

  lemma HeldTwice(s: Server, st: StreamRef, e: Event)
    requires st in s.active && e in s.queue && IsStart(e, st)
    ensures Held(Refs, s)[st] >= 2
  {
    QueuedMember(Refs, s.queue, e);
    ActiveMember(Refs, s.active, st);
    assert EventTokens(Refs, e)[st] == 1;
  }

  /** A stream is announced or in the table, not both. */
  lemma NotBoth(s: Server, st: StreamRef, e: Event)
    requires Invariant(s) && st in s.active && e in s.queue
    ensures !IsStart(e, st)
  {
    hide Held;
    assert Distinct(Held(Refs, s), s.streams);
    if IsStart(e, st) { HeldTwice(s, st, e); }
  }

  /** What the server owes for a stream that is present: its port is taken, and its id is
      neither ended nor stopped. */
  lemma PresentIsHeld(s: Server, st: StreamRef, r: Record)
    requires Invariant(s) && Present(s, st, r)
    ensures r.port in s.usedPorts && r.streamId in s.issued && r.streamId !in s.ended && r.streamId !in s.stopped
    ensures st < s.streams
  {
    hide Active, Queued;
    if Announced(s, st, r) {
      var e := StreamStarted(st, r.channel, r.streamId, r.port);
      QueuedMember(Ports, s.queue, e);
      QueuedMember(Ids, s.queue, e);
      QueuedMember(Refs, s.queue, e);
      assert r.port in EventTokens(Ports, e) && r.streamId in EventTokens(Ids, e) && st in EventTokens(Refs, e);
    } else {
      ActiveMember(Ports, s.active, st);
      ActiveMember(Ids, s.active, st);
      ActiveMember(Refs, s.active, st);
    }
    assert r.port in Held(Ports, s) && r.streamId in Held(Ids, s) && st in Held(Refs, s);
    assert r.port in multiset(s.usedPorts);
    assert multiset(s.issued)[r.streamId] == Held(Ids, s)[r.streamId] + s.ended[r.streamId] + s.stopped[r.streamId];
  }

  /** No longer in the table, and never to be entered again. */
  ghost predicate Gone(s: Server, st: StreamRef) {
    st < s.streams && st !in s.active && forall e :: e in s.queue ==> !IsStart(e, st)
  }

  lemma GoneIsNotPresent(s: Server, st: StreamRef, r: Record)
    requires Gone(s, st)
    ensures !Present(s, st, r)
  {
    var e := StreamStarted(st, r.channel, r.streamId, r.port);
    assert IsStart(e, st);
  }

  lemma HandleEnters(s: Server, e: Event, now: nat, st: StreamRef)
    requires CanHandle(s, e) && st !in s.active && !IsStart(e, st)
    ensures st !in Handle(s, e, now).active
  {
    hide ReservePort, SearchEnds, Matches;
  }

  lemma GoneStep(s: Server, step: Step, st: StreamRef)
    requires Gone(s, st) && Enabled(s, step)
    ensures Gone(Apply(s, step), st)
  {
    hide Handle, OnComplete, SearchEnds;
    StepQueue(s, step);
    if step.Dispatch? {
      assert s.queue[0] in s.queue;
      HandleEnters(Dequeue(s), s.queue[0], step.now, st);
    }
  }

  lemma ReleasedIsGone(s: Server, step: Step, st: StreamRef)
    requires Invariant(s) && Enabled(s, step) && Releases(s, step, st)
    ensures Gone(Apply(s, step), st)
  {
    hide Invariant, Apply;
    LeavesIff(s, step, st);
    StepQueue(s, step);
    PresentIsHeld(s, st, s.active[st]);
    forall e | e in Apply(s, step).queue ensures !IsStart(e, st) {
      if e in s.queue { NotBoth(s, st, e); }
    }
  }

  lemma AnnouncedStays(s: Server, step: Step, st: StreamRef, r: Record)
    requires Invariant(s) && Enabled(s, step) && Announced(s, st, r)
    ensures Present(Apply(s, step), st, r)
  {
    hide Invariant, Handle, OnComplete, SearchEnds;
    StepQueue(s, step);
    var e := StreamStarted(st, r.channel, r.streamId, r.port);
    var i :| 0 <= i < |s.queue| && s.queue[i] == e;
    var u := Apply(s, step);
    if step.Dispatch? {
      if i == 0 {
        if st in s.active { NotBoth(s, st, e); }
        StartEnters(Dequeue(s), e, step.now);
      } else {
        assert s.queue[1..][i - 1] == e;
        assert u.queue[..|s.queue| - 1][i - 1] == e;
      }
    } else {
      assert u.queue[..|s.queue|][i] == e;
    }
  }

  lemma StartEnters(s: Server, e: Event, now: nat)
    requires e.StreamStarted? && e.stream !in s.active
    ensures
      var u := Handle(s, e, now);
      e.stream in u.active && u.active[e.stream] == Record(e.channel, e.streamId, e.port)
  {
  }

  /** A stream that is present stays so until it is released. */
  lemma PresentStepIff(s: Server, step: Step, st: StreamRef, r: Record)
    requires Invariant(s) && Enabled(s, step) && Present(s, st, r)
    ensures Present(Apply(s, step), st, r) <==> !Releases(s, step, st)
  {
    hide Invariant, Apply;
    if Releases(s, step, st) {
      ReleasedIsGone(s, step, st);
      GoneIsNotPresent(Apply(s, step), st, r);
    } else if Announced(s, st, r) {
      AnnouncedStays(s, step, st, r);
    } else {
      LeavesIff(s, step, st);
    }
  }

  /** What a release gives back: the port, and the id as ended or as stopped. */
  lemma ReleaseGivesBack(s: Server, step: Step, st: StreamRef)
    requires Invariant(s) && Enabled(s, step) && Releases(s, step, st)
    ensures
      var (u, r) := (Apply(s, step), s.active[st]);
      && u.usedPorts == s.usedPorts - {r.port}
      && (if s.queue[0] == StreamClosed(st)
          then u.ended == s.ended + multiset{r.streamId} && u.stopped == s.stopped
          else u.stopped == s.stopped + multiset{r.streamId} && u.ended == s.ended)
  {
    hide Invariant, SearchEnds;
    var e := s.queue[0];
    if e.StopStream? {
      StopIsUnambiguous(s, e.channel, e.streamId);
      var found := Matches(Dequeue(s), e.channel, e.streamId);
      assert st in found;
      assert Least(found) == st;
    }
  }

  // ---------------------------------------------------------------------------
  // Every run

  ghost predicate NeverReleased(s: Server, steps: seq<Step>, st: StreamRef)
    requires CanRun(s, steps)
    decreases |steps|
  {
    steps != [] ==> !Releases(s, steps[0], st) && NeverReleased(Apply(s, steps[0]), steps[1..], st)
  }

  lemma {:induction false} GoneRun(s: Server, steps: seq<Step>, st: StreamRef)
    requires Gone(s, st) && CanRun(s, steps)
    ensures Gone(Run(s, steps), st)
    decreases |steps|
  {
    hide Gone, Apply, Enabled;
    if steps != [] {
      GoneStep(s, steps[0], st);
      GoneRun(Apply(s, steps[0]), steps[1..], st);
    }
  }

  lemma {:induction false} PresentRunIff(s: Server, steps: seq<Step>, st: StreamRef, r: Record)
    requires Invariant(s) && CanRun(s, steps) && Present(s, st, r)
    ensures Present(Run(s, steps), st, r) <==> NeverReleased(s, steps, st)
    decreases |steps|
  {
    hide Invariant, Apply, Enabled, Present, Releases;
    if steps != [] {
      var u := Apply(s, steps[0]);
      StepKeeps(s, steps[0]);
      PresentStepIff(s, steps[0], st, r);
      if Releases(s, steps[0], st) {
        ReleasedIsGone(s, steps[0], st);
        GoneRun(u, steps[1..], st);
        GoneIsNotPresent(Run(s, steps), st, r);
      } else {
        PresentRunIff(u, steps[1..], st, r);
      }
    }
  }

  /** From any reachable state in which a stream has started, over every run: its record is
      in the table (or about to be), its port taken and its id neither ended nor stopped, if
      and only if no step of the run handled its close, or a stop for it, while it was in the
      table.  A close handled earlier does not count, whatever happens afterwards. */
  lemma HeldUntilReleased(s: Server, steps: seq<Step>, st: StreamRef, r: Record)
    requires Invariant(s) && CanRun(s, steps) && Present(s, st, r)
    ensures
      var u := Run(s, steps);
      NeverReleased(s, steps, st) <==>
        && Present(u, st, r)
        && r.port in u.usedPorts && r.streamId !in u.ended && r.streamId !in u.stopped
  {
    hide Invariant, Present, Run;
    PresentRunIff(s, steps, st, r);
    RunKeeps(s, steps);
    if NeverReleased(s, steps, st) {
      PresentIsHeld(Run(s, steps), st, r);
    }
  }

  /** Handling the close of a started stream releases its port, and ends its id, exactly when
      its start was handled before. */
  lemma CloseReleasesIff(s: Server, st: StreamRef, r: Record, now: nat)
    requires Invariant(s) && Present(s, st, r) && s.queue != [] && s.queue[0] == StreamClosed(st)
    ensures
      var u := Apply(s, Dispatch(now));
      && (r.port !in u.usedPorts <==> st in s.active)
      && (u.ended == s.ended + multiset{r.streamId} <==> st in s.active)
      && (!Present(u, st, r) <==> st in s.active)
  {
    hide Invariant;
    PresentIsHeld(s, st, r);
    PresentStepIff(s, Dispatch(now), st, r);
    if st in s.active {
      if Announced(s, st, r) { NotBoth(s, st, StreamStarted(st, r.channel, r.streamId, r.port)); }
      ReleaseGivesBack(s, Dispatch(now), st);
    } else {
      EarlyCloseIsLost(s, st, now);
      assert (s.ended + multiset{r.streamId})[r.streamId] != s.ended[r.streamId];
    }
  }

  /** A stop that comes after a lost close does release the stream. */
  lemma StopAfterLostClose(st: StreamRef, r: Record, s: Server, now: nat)
    requires Invariant(s) && st in s.active && s.active[st] == r
    requires s.queue != [] && s.queue[0] == StopStream(r.channel, r.streamId)
    ensures r.port !in Apply(s, Dispatch(now)).usedPorts && Gone(Apply(s, Dispatch(now)), st)
  {
    hide Invariant, Gone;
    ReleaseGivesBack(s, Dispatch(now), st);
    ReleasedIsGone(s, Dispatch(now), st);
  }
}
