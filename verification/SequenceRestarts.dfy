/** A source that starts its numbering over: what the counter makes of packets far from the
    highest number, and how tracking begins anew. */
module SequenceRestarts {
  import opened Collections
  import opened SequenceCounter
  import opened SequenceTracking
  import opened SequenceHistory
  import opened SequenceDepartures
  import opened SequenceTimeouts
  import opened NackProvenance

  // ---------------------------------------------------------------------------
  // The counter

  /** Too far ahead for a dropout and too far behind for a reordering. */
  ghost predicate Stray(c: Counter, n: Seq16) {
    Locked(c) && MAX_DROPOUT < Delta(c, n) <= SEQ_MOD - MAX_MISORDER
  }

  ghost function Successor(n: Seq16): Seq16 {
    (n + 1) % SEQ_MOD
  }

  /** A stray packet that does not follow the last one moves nothing, and is not valid. */
  lemma StrayIsHeld(c: Counter, n: Seq16)
    requires Stray(c, n) && n != c.badSeq
    ensures
      var (d, r) := Extend(c, n);
      && !r.valid && !r.resync && r.stable
      && Locked(d) && Position(d) == Position(c) && d.maxSeq == c.maxSeq && d.badSeq == Successor(n)
  {
  }

  /** The one that follows it makes the counter start over there. */
  lemma FollowerRestarts(c: Counter, n: Seq16)
    requires Stray(c, n) && n == c.badSeq
    ensures
      var (d, r) := Extend(c, n);
      && r.resync && !r.valid && !r.stable && r.extendedSeq == n
      && Locked(d) && Position(d) == n && d.badSeq == SEQ_MOD + 1
  {
    BitOrZero(n);
  }

  /** Two consecutive packets, both far from the highest number. */
  lemma TwoInARowRestart(c: Counter, n: Seq16)
    requires Stray(c, n) && Delta(c, n) < SEQ_MOD - MAX_MISORDER && n != c.badSeq
    ensures
      var (c1, r1) := Extend(c, n);
      var (c2, r2) := Extend(c1, Successor(n));
      && !r1.valid && !r1.resync && Position(c1) == Position(c)
      && r2.resync && r2.extendedSeq == Successor(n) && Locked(c2) && Position(c2) == Successor(n)
  {
    StrayIsHeld(c, n);
    SuccessorStrays(c, n);
    var c1 := Extend(c, n).0;
    assert Delta(c1, Successor(n)) == Delta(c, Successor(n));
    FollowerRestarts(c1, Successor(n));
  }

  lemma SuccessorStrays(c: Counter, n: Seq16)
    requires Stray(c, n) && Delta(c, n) < SEQ_MOD - MAX_MISORDER
    ensures Stray(c, Successor(n))
  {
    DeltaCases(c, n);
    DeltaCases(c, Successor(n));
  }

  /** The counter after any packets. */
  ghost function Counted(ns: seq<Seq16>): (c: Counter)
    ensures WellFormed(c)
  {
    if ns == [] then INITIAL
    else
      var c := Counted(ns[..|ns| - 1]);
      ExtendKeepsWellFormed(c, ns[|ns| - 1]);
      Extend(c, ns[|ns| - 1]).0
  }

  ghost predicate HeldAt(ns: seq<Seq16>, i: nat)
    requires i < |ns|
  {
    Stray(Counted(ns[..i]), ns[i]) && !Extend(Counted(ns[..i]), ns[i]).1.resync
  }

  /** Packet `i` is the first of all, ends the probation, or makes the counter start over. */
  ghost predicate ResetAt(ns: seq<Seq16>, i: nat)
    requires i < |ns|
  {
    var c := Counted(ns[..i]);
    var (d, r) := Extend(c, ns[i]);
    i == 0 || (!Locked(c) && Locked(d)) || r.resync
  }

  /** Packet `i` is the last that was held back as a stray since the counter was last reset. */
  ghost predicate LastHeld(ns: seq<Seq16>, i: nat) {
    i < |ns| && HeldAt(ns, i) && forall j :: i < j < |ns| ==> !HeldAt(ns, j) && !ResetAt(ns, j)
  }

  lemma CountedSnoc(ns: seq<Seq16>, n: Seq16)
    ensures Counted(ns + [n]) == Extend(Counted(ns), n).0
    ensures HeldAt(ns + [n], |ns|) <==> Stray(Counted(ns), n) && !Extend(Counted(ns), n).1.resync
    ensures ResetAt(ns + [n], |ns|) <==>
            var (d, r) := Extend(Counted(ns), n);
            ns == [] || (!Locked(Counted(ns)) && Locked(d)) || r.resync
  {
    hide Extend, Locked;
    assert (ns + [n])[..|ns|] == ns;
  }

  lemma HeldInPrefix(ns: seq<Seq16>, n: Seq16, i: nat)
    requires i < |ns|
    ensures HeldAt(ns + [n], i) <==> HeldAt(ns, i)
    ensures ResetAt(ns + [n], i) <==> ResetAt(ns, i)
  {
    hide Extend, Locked, Counted;
    assert (ns + [n])[..i] == ns[..i];
  }

  /** A packet neither held nor resetting leaves the last held one what it was. */
  lemma LastHeldSnoc(ns: seq<Seq16>, n: Seq16, i: nat)
    ensures LastHeld(ns + [n], i) <==>
            if HeldAt(ns + [n], |ns|) then i == |ns|
            else !ResetAt(ns + [n], |ns|) && LastHeld(ns, i)
  {
    hide HeldAt, ResetAt;
    var all := ns + [n];
    assert all[|ns|] == n;
    forall j: nat | j < |ns| ensures HeldAt(all, j) == HeldAt(ns, j) && ResetAt(all, j) == ResetAt(ns, j) {
      HeldInPrefix(ns, n, j);
    }
    HeldHasNoReset(ns, n);
  }

  lemma HeldHasNoReset(ns: seq<Seq16>, n: Seq16)
    ensures HeldAt(ns + [n], |ns|) ==> !ResetAt(ns + [n], |ns|)
  {
    hide Extend;
    CountedSnoc(ns, n);
  }

  /** What one packet does to the number the counter waits for. */
  lemma BadSeqStep(c: Counter, n: Seq16)
    requires WellFormed(c)
    ensures
      var (d, r) := Extend(c, n);
      && (r.resync <==> Stray(c, n) && n == c.badSeq)
      && (Stray(c, n) && n != c.badSeq ==> d.badSeq == Successor(n))
      && (!c.initialized || (!Locked(c) && Locked(d)) || r.resync ==> d.badSeq == SEQ_MOD + 1)
      && (c.initialized && !(!Locked(c) && Locked(d)) && !Stray(c, n) ==> d.badSeq == c.badSeq)
      && d.initialized
  {
    ExtendKeepsWellFormed(c, n);
  }

  lemma StartedIff(ns: seq<Seq16>)
    ensures Counted(ns).initialized <==> ns != []
  {
    hide Stray;
    if ns != [] { BadSeqStep(Counted(ns[..|ns| - 1]), ns[|ns| - 1]); }
  }

  ghost predicate WaitsFor(ns: seq<Seq16>, i: nat) {
    LastHeld(ns, i) && Counted(ns).badSeq == Successor(ns[i])
  }

  /** The counter waits for the packet after the last held, if there is one. */
  ghost predicate Waits(ns: seq<Seq16>) {
    || (exists i: nat :: WaitsFor(ns, i))
    || ((forall i: nat :: !LastHeld(ns, i)) && Counted(ns).badSeq == SEQ_MOD + 1)
  }

  /** In every run the counter waits for the successor of the last packet held since it was
      last reset, and if there is none, for no packet at all. */
  lemma {:induction false} WaitsForSuccessor(ns: seq<Seq16>)
    ensures Waits(ns)
  {
    hide Extend, Stray, LastHeld, HeldAt, ResetAt;
    if ns == [] {
      NoneHeldYet(ns);
    } else {
      var (front, n) := (ns[..|ns| - 1], ns[|ns| - 1]);
      assert ns == front + [n];
      WaitsForSuccessor(front);
      WaitStep(front, n);
    }
  }

  lemma NoneHeldYet(ns: seq<Seq16>)
    requires ns == []
    ensures forall i: nat :: !LastHeld(ns, i)
  {
  }

  lemma WaitStep(ns: seq<Seq16>, n: Seq16)
    requires Waits(ns)
    ensures Waits(ns + [n])
  {
    HeldIndex(ns);
    hide Extend, Stray, LastHeld, HeldAt, ResetAt, Counted;
    var all := ns + [n];
    CountedSnoc(ns, n);
    BadSeqStep(Counted(ns), n);
    StartedIff(ns);
    forall i: nat ensures LastHeld(all, i) <==>
        if HeldAt(all, |ns|) then i == |ns| else !ResetAt(all, |ns|) && LastHeld(ns, i) {
      LastHeldSnoc(ns, n, i);
    }
    if HeldAt(all, |ns|) {
      assert all[|ns|] == n;
      assert WaitsFor(all, |ns|);
    } else if !ResetAt(all, |ns|) {
      if exists i: nat :: WaitsFor(ns, i) {
        var i: nat :| WaitsFor(ns, i);
        assert all[i] == ns[i];
        assert WaitsFor(all, i);
      }
    }
  }

  lemma HeldIndex(ns: seq<Seq16>)
    ensures forall i: nat :: LastHeld(ns, i) ==> i < |ns|
  {
  }

  /** Exactly when the counter starts over: a stray packet, one above the packet last held
      back since the counter was last reset. */
  lemma ResyncIff(ns: seq<Seq16>, n: Seq16)
    ensures Extend(Counted(ns), n).1.resync <==>
            Stray(Counted(ns), n) && exists i: nat :: LastHeld(ns, i) && n == Successor(ns[i])
  {
    HeldIndex(ns);
    hide Extend, Stray, HeldAt, ResetAt, Counted;
    BadSeqStep(Counted(ns), n);
    WaitsForSuccessor(ns);
    forall i: nat, j: nat | LastHeld(ns, i) && LastHeld(ns, j) ensures i == j { OneLastHeld(ns, i, j); }
    hide LastHeld;
  }

  lemma OneLastHeld(ns: seq<Seq16>, i: nat, j: nat)
    requires LastHeld(ns, i) && LastHeld(ns, j)
    ensures i == j
  {
  }

  /** In every run the strays are the packets that are not valid. */
  lemma ValidIff(ns: seq<Seq16>, n: Seq16)
    ensures Extend(Counted(ns), n).1.valid <==> !Stray(Counted(ns), n)
  {
    hide Counted;
  }

  /** `stable` is false exactly for the packets that reset the counter. */
  lemma StableIff(ns: seq<Seq16>, i: nat)
    requires i < |ns|
    ensures Extend(Counted(ns[..i]), ns[i]).1.stable <==> !ResetAt(ns, i)
  {
    StartedIff(ns[..i]);
    ExtendKeepsWellFormed(Counted(ns[..i]), ns[i]);
    hide Counted;
  }

  // ---------------------------------------------------------------------------
  // The tracker

  /** Two packets in a row, both far from the highest number and neither an answer to a NACK. */
  ghost predicate Restarts(ps: seq<Packet>, p: Packet, q: Packet) {
    var c := Run(ps).0.counter;
    && Stray(c, p.n) && Delta(c, p.n) < SEQ_MOD - MAX_MISORDER && p.n != c.badSeq && q.n == Successor(p.n)
    && p.n !in Run(ps).0.nacks && q.n !in Run(ps + [p]).0.nacks
  }

  /** The tracker has forgotten all before the packets `ds`, and follows them. */
  ghost predicate FollowsAfter(ps: seq<Packet>, ds: seq<Delivery>)
    requires ds != []
  {
    var (t, h) := Run(ps + WireAll(ds));
    && InStep(t, h, ds[0].t, Delivered(ds))
    && Locked(t.counter) && Position(t.counter) == t.highestReceived
  }

  /** A packet that makes the counter start over is the only one left in the history. */
  lemma ResyncStep(t: Tracker, h: History, p: Packet)
    requires Agrees(t, h) && p.n !in t.nacks && Extend(t.counter, p.n).1.resync
    ensures
      var (u, k) := (HandlePacket(t, p.n, p.nackLostPackets, p.now).0, HistoryStep(t, h, p));
      && InStep(u, k, Extend(t.counter, p.n).1.extendedSeq, {Extend(t.counter, p.n).1.extendedSeq})
      && u.counter == Extend(t.counter, p.n).0
  {
    hide Extend, Agrees, OverdueAt, CheckForMissing, Insert;
    CounterAfter(t, p);
  }

  lemma HighestOfOne(t: Tracker, h: History, e: nat)
    requires Agrees(t, h) && InStep(t, h, e, {e})
    ensures t.highestReceived == e
  {
    GreatestIs({e}, e);
  }

  /** After any run: tracking begins anew at the second of the two packets. */
  lemma RestartBeginsAnew(ps: seq<Packet>, p: Packet, d: Delivery)
    requires Restarts(ps, p, Wire(d)) && d.t < SEQ_MOD
    ensures FollowsAfter(ps + [p], [d])
  {
    hide Run, Extend, Agrees, HandlePacket, HistoryStep, Stray, Position, Locked;
    var (t, h) := Run(ps);
    RunSnoc(ps, p);
    CounterAfter(t, p);
    TwoInARowRestart(t.counter, p.n);
    var q := Wire(d);
    RunSnoc(ps + [p], q);
    var (u, k) := Run(ps + [p]);
    ResyncStep(u, k, q);
    assert WireAll([d]) == [q] && Delivered([d]) == {d.t};
    var (v, g) := Run(ps + [p] + [q]);
    HighestOfOne(v, g, d.t);
  }

  lemma FollowsAfterNext(ps: seq<Packet>, ds: seq<Delivery>, d: Delivery)
    requires ds != [] && FollowsAfter(ps, ds) && Admissible(Run(ps + WireAll(ds)).0, d.t)
    ensures FollowsAfter(ps, ds + [d]) && Track(Run(ps + WireAll(ds)).0, Key(d.t)).1 == d.t
  {
    hide Run, WireAll, Agrees, HandlePacket, HistoryStep, Delivered, Extend, Track, Admissible;
    var (t, h) := Run(ps + WireAll(ds));
    DeliverSnoc(ds, d);
    assert ps + WireAll(ds + [d]) == ps + WireAll(ds) + [Wire(d)];
    RunSnoc(ps + WireAll(ds), Wire(d));
    AdmissibleIsExact(t, h, d.t);
    TrackCounter(t, Key(d.t));
    CounterAfter(t, Wire(d));
    ExactStep(t, h, ds[0].t, Delivered(ds), Wire(d));
  }

  /** The packets after the first are retransmits asked for, or in the counter's window. */
  ghost predicate AdmissibleAfter(ps: seq<Packet>, ds: seq<Delivery>) {
    forall i :: 1 <= i < |ds| ==> Admissible(Run(ps + WireAll(ds[..i])).0, ds[i].t)
  }

  lemma {:induction false} FollowsOn(ps: seq<Packet>, ds: seq<Delivery>)
    requires ds != [] && FollowsAfter(ps, [ds[0]]) && AdmissibleAfter(ps, ds)
    ensures FollowsAfter(ps, ds)
    decreases |ds|
  {
    hide Run, WireAll, FollowsAfter, Admissible;
    if |ds| == 1 {
      assert ds == [ds[0]];
    } else {
      var (front, d) := (ds[..|ds| - 1], ds[|ds| - 1]);
      assert ds == front + [d];
      assert forall i :: 1 <= i < |front| ==> front[..i] == ds[..i];
      FollowsOn(ps, front);
      FollowsAfterNext(ps, front, d);
    }
  }

  /** End to end after a restart, at the end of any run: `missing` is exactly what has not
      been delivered since, minus what the NACK timeout erased. */
  lemma RestartEndToEnd(ps: seq<Packet>, p: Packet, ds: seq<Delivery>)
    requires ds != [] && ds[0].t < SEQ_MOD && Restarts(ps, p, Wire(ds[0])) && AdmissibleAfter(ps + [p], ds)
    ensures
      var (t, h) := Run(ps + [p] + WireAll(ds));
      && ds[0].t in Delivered(ds)
      && t.missing == Open(ds[0].t, Greatest(Delivered(ds)) - REORDER_DELTA) - Delivered(ds) - h.erased
  {
    hide Run, WireAll, Agrees, Restarts, AdmissibleAfter;
    assert ds[0] in ds;
    RestartBeginsAnew(ps, p, ds[0]);
    FollowsOn(ps + [p], ds);
    var (t, h) := Run(ps + [p] + WireAll(ds));
    AgreementIsExact(t, h);
    hide Delivered;
  }

  /** In order: nothing is missing, and the next number can be followed. */
  lemma NothingLostAfter(ps: seq<Packet>, ds: seq<Delivery>)
    requires ds != [] && FollowsAfter(ps, ds) && CountsUp(ds)
    ensures Run(ps + WireAll(ds)).0.missing == {}
    ensures ds[0].t + |ds| < U32_MOD ==> Admissible(Run(ps + WireAll(ds)).0, ds[0].t + |ds|)
  {
    hide Run, WireAll, Agrees, Locked;
    DeliveredCountsUp(ds);
    var (t, h) := Run(ps + WireAll(ds));
    AgreementIsExact(t, h);
    hide Delivered;
    assert t.missing == {};
    AgreesInvariant(t, h);
    HighestIs(t, h);
    assert NacksAreMissing(t);
  }

  lemma HighestIs(t: Tracker, h: History)
    requires Agrees(t, h) && t.initialized
    ensures h.received != {} && t.highestReceived == Greatest(h.received)
  {
  }

  lemma {:induction false} InOrderIsAdmissible(ps: seq<Packet>, ds: seq<Delivery>)
    requires ds != [] && CountsUp(ds) && ds[0].t + |ds| <= U32_MOD && FollowsAfter(ps, [ds[0]])
    ensures AdmissibleAfter(ps, ds)
    decreases |ds|
  {
    hide Run, WireAll, FollowsAfter, Admissible;
    if |ds| > 1 {
      var (n, front) := (|ds| - 1, ds[..|ds| - 1]);
      assert forall i :: 1 <= i < n ==> front[..i] == ds[..i];
      InOrderIsAdmissible(ps, front);
      FollowsOn(ps, front);
      NothingLostAfter(ps, front);
    }
  }

  /** A source that restarts and then sends in order: every packet is numbered as the source
      numbers it, and nothing is missing. */
  lemma RestartInOrder(ps: seq<Packet>, p: Packet, ds: seq<Delivery>)
    requires ds != [] && ds[0].t < SEQ_MOD && Restarts(ps, p, Wire(ds[0]))
    requires CountsUp(ds) && ds[0].t + |ds| <= U32_MOD
    ensures
      var (t, h) := Run(ps + [p] + WireAll(ds));
      t.missing == {} && h.first == ds[0].t && h.received == Delivered(ds) && Position(t.counter) == ds[0].t + |ds| - 1
  {
    hide Run, WireAll, Agrees, Restarts, AdmissibleAfter, Locked, Position;
    RestartBeginsAnew(ps, p, ds[0]);
    InOrderIsAdmissible(ps + [p], ds);
    FollowsOn(ps + [p], ds);
    NothingLostAfter(ps + [p], ds);
    DeliveredCountsUp(ds);
    HighestIs(Run(ps + [p] + WireAll(ds)).0, Run(ps + [p] + WireAll(ds)).1);
  }

  /** A stray packet after a source in order: what it makes missing lies between the highest
      number and its own. */
  lemma StrayMakesMissing(t: Tracker, h: History, n: Seq16, m: nat)
    requires Agrees(t, h) && t.initialized && t.missing == {} && t.nacks == map[]
    requires Position(t.counter) == t.highestReceived && Stray(t.counter, n) && n != t.counter.badSeq
    requires m in Track(t, n).0.missing
    ensures m < Extend(t.counter, n).1.extendedSeq < m + SEQ_MOD - 1
  {
    ExtendKeepsWellFormed(t.counter, n);
    StrayIsHeld(t.counter, n);
    assert Extend(t.counter, n).1.extendedSeq <= t.highestReceived + SEQ_MOD - MAX_MISORDER by {
      DeltaCases(t.counter, n);
    }
    hide Extend, Covers, WellFormed, Stray;
    var (c, r) := Extend(t.counter, n);
    var u := t.(counter := c);
    InsertEffect(u, r.extendedSeq);
    CheckEffect(Insert(u, r.extendedSeq), r.extendedSeq);
  }

  lemma FollowerIsNotNacked(t: Tracker, h: History, p: Packet)
    requires Agrees(t, h) && t.initialized && t.missing == {} && t.nacks == map[]
    requires Position(t.counter) == t.highestReceived && Stray(t.counter, p.n) && p.n != t.counter.badSeq
    ensures Successor(p.n) !in HandlePacket(t, p.n, p.nackLostPackets, p.now).0.nacks
  {
    hide Agrees, Track, Stray, HandlePacket, Extend, Expired;
    StepSends(t, p, Successor(p.n));
    StrayNumber(t.counter, p.n);
    forall m | m in Track(t, p.n).0.missing ensures Key(m) != Successor(p.n) {
      StrayMakesMissing(t, h, p.n, m);
      KeysDiffer(m, Extend(t.counter, p.n).1.extendedSeq + 1);
    }
  }

  lemma KeysDiffer(a: nat, b: nat)
    requires a < b < a + SEQ_MOD
    ensures Key(a) != Key(b)
  {
  }

  /** Every source that sends in order, at any point: it may restart anywhere far enough from
      its last number. */
  lemma InOrderMayRestart(ds: seq<Delivery>, p: Packet, q: Packet)
    requires WellBehavedSource(ds) && CountsUp(ds)
    requires
      var c := Run(WireAll(ds)).0.counter;
      Stray(c, p.n) && Delta(c, p.n) < SEQ_MOD - MAX_MISORDER && p.n != c.badSeq && q.n == Successor(p.n)
    ensures Restarts(WireAll(ds), p, q)
  {
    hide Run, WireAll, Stray, WellBehavedSource, CountsUp, Agrees, HandlePacket, HistoryStep, Delta, Delivered, Locked;
    var (t, h) := Run(WireAll(ds));
    NothingLost(ds);
    FollowsSource(ds);
    InOrderNothingMissing(ds);
    RunSnoc(WireAll(ds), p);
    FollowerIsNotNacked(t, h, p);
  }

  lemma StrayNumber(c: Counter, n: Seq16)
    requires Stray(c, n)
    ensures Key(Extend(c, n).1.extendedSeq + 1) == Successor(n)
  {
    hide Extend;
    ExtendKeepsWellFormed(c, n);
  }

  lemma InOrderNothingMissing(ds: seq<Delivery>)
    requires WellBehavedSource(ds) && CountsUp(ds)
    ensures Run(WireAll(ds)).0.missing == {}
  {
    hide Run, WireAll, WellBehavedSource;
    LastIsAdmissible(ds);
    EndToEnd(ds);
    DeliveredCountsUp(ds);
  }
}
