/** Which streams the server has that the viewers do not: exactly those it was told to stop too
    early. */
module StreamsAtRest {
  import S = ServerModel
  import I = ServerInvariants
  import L = ServerLifetimes
  import R = JanusRegistry
  import opened ServerStreams
  import opened StreamLifecycle

  // ---------------------------------------------------------------------------
  // Stops that come too early

  /** The stream a step fails to stop: the stop is handled while it is being started. */
  ghost function MissedBy(n: Node, step: Step): set<(Channel, StreamId)> {
    if step.OnServer? && step.own.Dispatch? && n.server.queue != [] && n.server.queue[0].StopStream?
       && IsStarting(n.server, n.server.queue[0].channel, n.server.queue[0].streamId)
    then {(n.server.queue[0].channel, n.server.queue[0].streamId)} else {}
  }

  ghost function Missed(n: Node, steps: seq<Step>): set<(Channel, StreamId)>
    requires CanRun(n, steps)
    decreases |steps|
  {
    if steps == [] then {} else MissedBy(n, steps[0]) + Missed(Apply(n, steps[0]), steps[1..])
  }

  predicate Unwanted(n: Node, ch: Channel, id: StreamId) {
    !IsLive(n.registry, ch, id) || (ch, id) in n.condemned
  }

  /** A stream that is unwanted on the server will be stopped, or its stop was missed. */
  ghost predicate StopsReach(n: Node, missed: set<(Channel, StreamId)>) {
    forall ch: Channel, id: StreamId :: Has(n.server, ch, id) && Unwanted(n, ch, id) ==>
      S.StopStream(ch, id) in n.server.queue || (ch, id) in missed
  }

  ghost predicate MissedAreUnwanted(n: Node, missed: set<(Channel, StreamId)>) {
    forall ch: Channel, id: StreamId :: (ch, id) in missed ==> id in n.server.issued && Unwanted(n, ch, id)
  }

  ghost predicate CondemnedAreIssued(n: Node) {
    forall ch: Channel, id: StreamId :: (ch, id) in n.condemned ==> id in n.server.issued
  }

  ghost predicate Settled(n: Node, missed: set<(Channel, StreamId)>) {
    && InStep(n) && EndsAreRecorded(n.server) && CondemnedAreIssued(n)
    && StopsReach(n, missed) && MissedAreUnwanted(n, missed)
  }

  // ---------------------------------------------------------------------------
  // Each step

  lemma OwnReach(n: Node, own: S.Step, missed: set<(Channel, StreamId)>, ch: Channel, id: StreamId)
    requires I.Invariant(n.server) && StopsReach(n, missed) && OwnStep(n.server, own)
    requires Has(S.Apply(n.server, own), ch, id) && Unwanted(n, ch, id)
    ensures S.StopStream(ch, id) in S.Apply(n.server, own).queue ||
            (ch, id) in missed + MissedBy(n, OnServer(own))
  {
    hide I.Invariant, S.Apply, Has, IsStarting;
    var s := n.server;
    StepBringsNone(s, own, ch, id);
    if (ch, id) !in missed {
      assert S.StopStream(ch, id) in s.queue;
      L.StepQueue(s, own);
      var i :| 0 <= i < |s.queue| && s.queue[i] == S.StopStream(ch, id);
      var u := S.Apply(s, own);
      if own.Dispatch? {
        if i == 0 {
          StopMissesIff(s, own.now, ch, id);
        } else {
          assert u.queue[..|s.queue| - 1][i - 1] == s.queue[1..][i - 1];
        }
      } else {
        assert u.queue[..|s.queue|][i] == s.queue[i];
      }
    }
  }

  lemma OwnSettled(n: Node, own: S.Step, missed: set<(Channel, StreamId)>)
    requires Settled(n, missed) && OwnStep(n.server, own)
    ensures Settled(Apply(n, OnServer(own)), missed + MissedBy(n, OnServer(own)))
  {
    hide I.Invariant, R.Accounted, S.Apply, Has, IsLive, LiveIsKnown, EndsAreRecorded, IsStarting;
    var u := Apply(n, OnServer(own));
    OwnStepInStep(n, own);
    StepRecordsEnds(n.server, own);
    OwnStepIssues(n.server, own);
    var more := missed + MissedBy(n, OnServer(own));
    forall ch: Channel, id: StreamId | Has(u.server, ch, id) && Unwanted(u, ch, id)
      ensures S.StopStream(ch, id) in u.server.queue || (ch, id) in more
    {
      OwnReach(n, own, missed, ch, id);
    }
    forall ch: Channel, id: StreamId | (ch, id) in more ensures id in u.server.issued && Unwanted(u, ch, id) {
      if (ch, id) !in missed { assert n.server.queue[0] in n.server.queue; }
    }
  }

  /** The stream whose end is being reported is nowhere on the server. */
  lemma EndingIsNowhere(s: S.Server, i: nat, ch: Channel)
    requires I.Invariant(s) && EndsAreRecorded(s) && i < |s.tasks| && s.tasks[i].CallStreamEnded?
    ensures !Has(s, ch, s.tasks[i].streamId)
  {
    hide I.Invariant;
    EndedIsNowhere(s, ch, s.tasks[i].streamId);
  }

  lemma EndsSettled(n: Node, i: nat, missed: set<(Channel, StreamId)>)
    requires Settled(n, missed) && Enabled(n, StreamEnds(i))
    ensures Settled(Apply(n, StreamEnds(i)), missed)
  {
    hide I.Invariant, R.Accounted, R.EndStream, S.Apply, Has, IsLive, LiveIsKnown, StopsAreMeant;
    var (s, t, u) := (n.server, n.server.tasks[i], Apply(n, StreamEnds(i)));
    var own := S.Complete(i, true, 0);
    EndsInStep(n, i);
    StepRecordsEnds(s, own);
    EndLive(n.registry, t.channel, t.streamId);
    EndedQueuesNothing(s, i);
    forall ch: Channel, id: StreamId | Has(u.server, ch, id) && Unwanted(u, ch, id)
      ensures S.StopStream(ch, id) in u.server.queue || (ch, id) in missed
    {
      StepBringsNone(s, own, ch, id);
      EndingIsNowhere(s, i, ch);
    }
  }

  lemma CondemnSettled(n: Node, c: Channel, i: StreamId, missed: set<(Channel, StreamId)>)
    requires Enabled(n, Condemn(c, i)) && Settled(n, missed)
    ensures Settled(Apply(n, Condemn(c, i)), missed)
  {
    hide I.Invariant, R.Accounted, S.Apply, Has, IsLive, LiveIsKnown, StopsAreMeant;
    var (s, u, e) := (n.server, Apply(n, Condemn(c, i)), S.StopStream(c, i));
    CondemnInStep(n, c, i);
    CondemnQueues(s, e);
    forall ch: Channel, id: StreamId | Has(u.server, ch, id) && Unwanted(u, ch, id)
      ensures S.StopStream(ch, id) in u.server.queue || (ch, id) in missed
    {
      StepBringsNone(s, S.Arrive(e), ch, id);
    }
  }

  lemma BurySettled(n: Node, c: Channel, i: StreamId, missed: set<(Channel, StreamId)>)
    requires Enabled(n, Bury(c, i)) && Settled(n, missed)
    ensures Settled(Apply(n, Bury(c, i)), missed)
  {
    hide I.Invariant, R.Accounted, R.EndStream, Has, IsLive, LiveIsKnown, StopsAreMeant;
    BuryInStep(n, c, i);
    EndLive(n.registry, c, i);
    var u := Apply(n, Bury(c, i));
    forall ch: Channel, id: StreamId | Has(u.server, ch, id) && Unwanted(u, ch, id)
      ensures S.StopStream(ch, id) in u.server.queue || (ch, id) in missed
    {
      assert Unwanted(n, ch, id);
    }
  }

  lemma ViewerSettled(n: Node, act: R.Step, missed: set<(Channel, StreamId)>)
    requires Settled(n, missed) && Enabled(n, Viewer(act))
    ensures Settled(Apply(n, Viewer(act)), missed)
  {
    hide I.Invariant, R.Accounted, R.Apply, Has, IsLive, LiveIsKnown, StopsAreMeant;
    ViewerInStep(n, act);
    ViewerLive(n.registry, act);
    var u := Apply(n, Viewer(act));
    forall ch: Channel, id: StreamId | Has(u.server, ch, id) && Unwanted(u, ch, id)
      ensures S.StopStream(ch, id) in u.server.queue || (ch, id) in missed
    {
      assert Unwanted(n, ch, id);
    }
  }

  /** The callback that starts a stream brings that one stream. */
  lemma BeginsBrings(n: Node, i: nat, id: StreamId, ch: Channel, other: StreamId)
    requires I.Invariant(n.server) && Enabled(n, StreamBegins(i, id))
    requires Has(Apply(n, StreamBegins(i, id)).server, ch, other)
    ensures Has(n.server, ch, other) || (ch == n.server.tasks[i].channel && other == id)
  {
    hide I.Invariant, Has, S.Apply;
    var s := n.server;
    var asked := AskAll(s, Replacing(n.registry, s.tasks[i].channel));
    if !(ch == s.tasks[i].channel && other == id) {
      StepBringsNone(asked, S.Complete(i, true, id), ch, other);
      AskedHas(s, Replacing(n.registry, s.tasks[i].channel), ch, other);
    }
  }

  lemma AskedHas(s: S.Server, events: seq<S.Event>, ch: Channel, id: StreamId)
    requires (forall e :: e in events ==> e.StopStream?) && Has(AskAll(s, events), ch, id)
    ensures Has(s, ch, id)
  {
    var u := AskAll(s, events);
    assert forall i :: |s.queue| <= i < |u.queue| ==> u.queue[i] in events;
    if i :| 0 <= i < |u.queue| && Carries(u.queue[i], ch, id) {
      assert s.queue[i] == u.queue[i];
    } else if i :| 0 <= i < |u.tasks| && Starts(u.tasks[i], ch, id) {
      assert Starts(s.tasks[i], ch, id);
    }
  }

  lemma BeginsReach(n: Node, i: nat, id: StreamId, missed: set<(Channel, StreamId)>)
    requires Enabled(n, StreamBegins(i, id)) && Settled(n, missed)
    ensures StopsReach(Apply(n, StreamBegins(i, id)), missed)
  {
    hide I.Invariant, R.Accounted, R.StreamStarted, S.Apply, Has, LiveIsKnown, StopsAreMeant, EndsAreRecorded,
      MissedAreUnwanted;
    var (s, r, u) := (n.server, n.registry, Apply(n, StreamBegins(i, id)));
    var c := s.tasks[i].channel;
    BeginsServer(n, i, id);
    StartLive(r, c, id);
    forall ch: Channel, other: StreamId | Has(u.server, ch, other) && Unwanted(u, ch, other)
      ensures S.StopStream(ch, other) in u.server.queue || (ch, other) in missed
    {
      BeginsBrings(n, i, id, ch, other);
      if ch == c && IsLive(r, c, other) {
        assert S.StopStream(ch, other) in Replacing(r, c);
      }
    }
  }

  lemma BeginsSettled(n: Node, i: nat, id: StreamId, missed: set<(Channel, StreamId)>)
    requires Enabled(n, StreamBegins(i, id)) && Settled(n, missed)
    ensures Settled(Apply(n, StreamBegins(i, id)), missed)
  {
    BeginsReach(n, i, id, missed);
    hide I.Invariant, R.Accounted, R.StreamStarted, S.Apply, IsLive, LiveIsKnown, StopsAreMeant, StopsReach;
    var (s, u) := (n.server, Apply(n, StreamBegins(i, id)));
    BeginsInStep(n, i, id);
    BeginsServer(n, i, id);
    StartLive(n.registry, s.tasks[i].channel, id);
    BeginsEnds(n, i, id);
  }

  lemma BeginsEnds(n: Node, i: nat, id: StreamId)
    requires Enabled(n, StreamBegins(i, id)) && EndsAreRecorded(n.server)
    ensures EndsAreRecorded(Apply(n, StreamBegins(i, id)).server)
  {
    hide S.Apply;
    var asked := AskAll(n.server, Replacing(n.registry, n.server.tasks[i].channel));
    assert asked.tasks == n.server.tasks && asked.ended == n.server.ended;
    StepRecordsEnds(asked, S.Complete(i, true, id));
  }

  lemma StepSettled(n: Node, step: Step, missed: set<(Channel, StreamId)>)
    requires Enabled(n, step) && Settled(n, missed)
    ensures Settled(Apply(n, step), missed + MissedBy(n, step))
  {
    hide Settled, Apply;
    assert !step.OnServer? ==> missed + {} == missed;
    match step
    case OnServer(own) => OwnSettled(n, own, missed);
    case StreamBegins(i, id) => BeginsSettled(n, i, id, missed);
    case StreamEnds(i) => EndsSettled(n, i, missed);
    case Viewer(act) => ViewerSettled(n, act, missed);
    case Condemn(ch, id) => CondemnSettled(n, ch, id, missed);
    case Bury(ch, id) => BurySettled(n, ch, id, missed);
  }

  // ---------------------------------------------------------------------------
  // Every run

  lemma {:induction false} RunSettled(n: Node, steps: seq<Step>, missed: set<(Channel, StreamId)>)
    requires Settled(n, missed) && CanRun(n, steps)
    ensures Settled(Run(n, steps), missed + Missed(n, steps))
    decreases |steps|
  {
    hide Settled, Apply, Enabled, MissedBy;
    if steps == [] {
      assert missed + {} == missed;
    } else {
      var more := MissedBy(n, steps[0]);
      StepSettled(n, steps[0], missed);
      RunSettled(Apply(n, steps[0]), steps[1..], missed + more);
      assert missed + more + Missed(Apply(n, steps[0]), steps[1..]) == missed + Missed(n, steps);
    }
  }

  lemma InitialSettled(kind: R.NodeKind, minPort: S.Port, maxPort: S.Port)
    ensures Settled(Initial(kind, minPort, maxPort), {})
  {
    hide InStep;
    InitialInStep(kind, minPort, maxPort);
  }

  predicate AtRest(n: Node) {
    n.server.queue == [] && n.server.tasks == [] && n.condemned == {}
  }

  /** After every run that comes to rest, the streams live for the viewers are exactly those
      active on the server, except the ones whose stop was handled while they were being
      started. */
  lemma LiveIffActive(kind: R.NodeKind, minPort: S.Port, maxPort: S.Port, steps: seq<Step>, ch: Channel, id: StreamId)
    requires CanRun(Initial(kind, minPort, maxPort), steps) && AtRest(Run(Initial(kind, minPort, maxPort), steps))
    ensures
      var (i, n) := (Initial(kind, minPort, maxPort), Run(Initial(kind, minPort, maxPort), steps));
      IsLive(n.registry, ch, id) <==> IsActive(n.server, ch, id) && (ch, id) !in Missed(i, steps)
  {
    var i := Initial(kind, minPort, maxPort);
    InitialSettled(kind, minPort, maxPort);
    RunSettled(i, steps, {});
    hide Run, CanRun, Missed, I.Invariant, R.Accounted;
    var (n, missed) := (Run(i, steps), Missed(i, steps));
    assert {} + missed == missed;
    if IsLive(n.registry, ch, id) {
      LiveIsActiveAtRest(n, ch, id);
    }
  }
}
