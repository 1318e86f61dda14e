/** Where tracking departs from its intent: NACKs that time out, and NACKs that last too long. */
module SequenceDepartures {
  import opened Collections
  import opened SequenceCounter
  import opened SequenceTracking
  import opened SequenceHistory

  // ---------------------------------------------------------------------------
  // Timeouts

  /** The numbers whose NACKs have expired. */
  ghost function ExpiredNumbers(t: Tracker, now: nat): set<nat> {
    set k | k in Expired(t, now) :: t.nacks[k].extendedSeq
  }

  /** An expired NACK's own number leaves `missing` exactly when it is below 2^16: the
      timeout erases the 16-bit key. */
  lemma TimeoutForgetsIff(t: Tracker, now: nat, k: nat)
    requires Invariant(t) && k in Expired(t, now)
    ensures t.nacks[k].extendedSeq !in DropExpired(t, now).missing <==> t.nacks[k].extendedSeq < SEQ_MOD
  {
    var e := t.nacks[k].extendedSeq;
    assert Key(e) == k;
    assert forall j :: j in Expired(t, now) ==> Key(t.nacks[j].extendedSeq) == j < SEQ_MOD;
  }

  /** The timeout takes out of `missing` exactly the numbers whose NACKs have expired, if and
      only if all of them are below 2^16. */
  lemma TimeoutExactIff(t: Tracker, now: nat)
    requires Invariant(t)
    ensures DropExpired(t, now).missing == t.missing - ExpiredNumbers(t, now) <==>
            forall e :: e in ExpiredNumbers(t, now) ==> e < SEQ_MOD
  {
    var (gone, keys) := (ExpiredNumbers(t, now), Expired(t, now));
    forall k | k in keys ensures Key(t.nacks[k].extendedSeq) == k && t.nacks[k].extendedSeq in gone {
    }
    if forall e :: e in gone ==> e < SEQ_MOD {
      assert gone == keys;
    } else {
      var e :| e in gone && e >= SEQ_MOD;
      var k :| k in keys && t.nacks[k].extendedSeq == e;
      TimeoutForgetsIff(t, now, k);
    }
  }

  /** A number whose NACK has not expired is erased just when it is the low 16 bits of one
      that has. */
  lemma CollateralIff(t: Tracker, now: nat, n: nat)
    requires Invariant(t) && n in t.missing && n !in ExpiredNumbers(t, now)
    ensures n !in DropExpired(t, now).missing <==>
            exists e :: e in ExpiredNumbers(t, now) && e >= SEQ_MOD && Key(e) == n
  {
    var (gone, keys) := (ExpiredNumbers(t, now), Expired(t, now));
    if n in keys {
      var e := t.nacks[n].extendedSeq;
      assert e in gone && Key(e) == n && e != n;
    }
    if exists e :: e in gone && e >= SEQ_MOD && Key(e) == n {
      var e :| e in gone && e >= SEQ_MOD && Key(e) == n;
      var k :| k in keys && t.nacks[k].extendedSeq == e;
      assert k == n;
    }
  }

  // ---------------------------------------------------------------------------
  // A NACK that outlasts a cycle

  /** All packets in order but number `m`, which never arrives. */
  ghost predicate Skips(ds: seq<Delivery>, m: nat) {
    forall i :: 0 <= i < |ds| ==> ds[i].t == ds[0].t + i + (if ds[0].t + i >= m then 1 else 0)
  }

  /** Number `m` is lost, not among the first three, from a source below 2^16. */
  ghost predicate LosesOne(ds: seq<Delivery>, m: nat) {
    ds != [] && Skips(ds, m) && ds[0].t + 2 < m && ds[0].t + 2 < SEQ_MOD
  }

  lemma DeliveredSkips(ds: seq<Delivery>, m: nat)
    requires LosesOne(ds, m)
    ensures
      var last := ds[|ds| - 1].t;
      && (forall n :: n in Delivered(ds) <==> ds[0].t <= n <= last && n != m)
      && Delivered(ds) != {} && Greatest(Delivered(ds)) == last
  {
    var (a, last) := (ds[0].t, ds[|ds| - 1].t);
    forall n | a <= n <= last && n != m ensures n in Delivered(ds) {
      var i := if n < m then n - a else n - a - 1;
      assert ds[i] in ds && ds[i].t == n;
    }
    GreatestIs(Delivered(ds), last);
  }

  lemma SkipInStep(ds: seq<Delivery>, m: nat)
    requires LosesOne(ds, m) && (|ds| >= 3 ==> WellBehavedSource(ds))
    ensures InStep(Run(WireAll(ds)).0, Run(WireAll(ds)).1, ds[0].t, Delivered(ds))
  {
    hide Run, WireAll, Extend, WellBehavedSource;
    if |ds| >= 3 {
      FollowsSource(ds);
    } else {
      FirstThree(ds[0].t);
      WarmFirst(ds[0]);
      if |ds| == 1 {
        assert ds == [ds[0]];
      } else {
        WarmNext([ds[0]], ds[1], Extend(INITIAL, ds[0].t).0);
        assert ds == [ds[0]] + [ds[1]];
      }
    }
  }

  lemma HighestIsLast(t: Tracker, h: History, ds: seq<Delivery>, m: nat)
    requires LosesOne(ds, m) && Agrees(t, h) && InStep(t, h, ds[0].t, Delivered(ds))
    ensures t.highestReceived == ds[|ds| - 1].t
  {
    hide Delivered, LosesOne, Invariant;
    DeliveredSkips(ds, m);
  }

  /** Nothing but `m` is ever missing. */
  lemma OnlyMissing(t: Tracker, h: History, ds: seq<Delivery>, m: nat)
    requires LosesOne(ds, m) && Agrees(t, h) && InStep(t, h, ds[0].t, Delivered(ds))
    ensures t.missing == if m + REORDER_DELTA < ds[|ds| - 1].t && m !in h.erased then {m} else {}
  {
    hide Delivered, Agrees;
    DeliveredSkips(ds, m);
    AgreementIsExact(t, h);
    var last := ds[|ds| - 1].t;
    forall n: nat ensures n in t.missing <==> n == m && m + REORDER_DELTA < last && m !in h.erased {
      assert n in t.missing <==> ds[0].t < n < last - REORDER_DELTA && n !in Delivered(ds) && n !in h.erased;
    }
  }

  lemma FewNacks(t: Tracker, m: nat)
    requires Invariant(t) && t.missing <= {m}
    ensures |t.missing| <= 1 && |t.nacks| <= 1
    ensures forall k :: k in t.nacks ==> t.nacks[k].extendedSeq == m && k == Key(m)
  {
    SubsetSize(t.missing, {m});
    NacksInject(t.nacks, t.missing);
  }

  /** The next packet of such a source can be followed until a cycle after `m`. */
  lemma NextAdmissible(ds: seq<Delivery>, m: nat, x: nat)
    requires LosesOne(ds, m) && WellBehavedSource(ds) && ds[|ds| - 1].t < x <= ds[|ds| - 1].t + 2
    requires x < m + SEQ_MOD && x < U32_MOD
    ensures Admissible(Run(WireAll(ds)).0, x)
  {
    hide Run, WireAll, WellBehavedSource, LosesOne, InStep, Delivered, Agrees;
    var (t, h) := Run(WireAll(ds));
    SkipInStep(ds, m);
    HighestIsLast(t, h, ds, m);
    OnlyMissing(t, h, ds, m);
    assert Invariant(t) by { AgreesInvariant(t, h); }
    FewNacks(t, m);
  }

  lemma AgreesInvariant(t: Tracker, h: History)
    requires Agrees(t, h)
    ensures Invariant(t)
  {
  }

  lemma {:induction false} SkippingIsWellBehaved(ds: seq<Delivery>, m: nat)
    requires LosesOne(ds, m) && |ds| >= 3 && ds[|ds| - 1].t < m + SEQ_MOD && ds[|ds| - 1].t < U32_MOD
    ensures WellBehavedSource(ds)
  {
    hide Run, WireAll, Admissible;
    if |ds| > 3 {
      var (n, front) := (|ds| - 1, ds[..|ds| - 1]);
      SkippingIsWellBehaved(front, m);
      NextAdmissible(front, m, ds[n].t);
      assert forall i :: 3 <= i < n ==> front[..i] == ds[..i];
    }
  }

  /** With so little missing no NACK times out. */
  lemma NothingExpires(t: Tracker, m: nat, now: nat)
    requires Invariant(t) && t.missing <= {m}
    ensures Expired(t, now) == {} && DropExpired(t, now) == t
  {
    hide Invariant, Key;
    FewNacks(t, m);
    assert Expired(t, now) == {};
    hide Expired;
    assert t.missing - {} == t.missing && t.nacks - {} == t.nacks;
  }

  lemma QuietStep(t: Tracker, h: History, p: Packet, m: nat)
    requires Agrees(t, h) && h.erased == {} && Track(t, p.n).0.missing <= {m}
    ensures HistoryStep(t, h, p).erased == {}
  {
    hide Track, OverdueAt, Extend, Invariant, Expired, Covers;
    TrackAgrees(t, h, p.n);
    NothingExpires(Track(t, p.n).0, m, p.now);
  }

  /** The last packet between Track and the poll for NACKs. */
  lemma TrackedInStep(front: seq<Delivery>, d: Delivery, first: nat, delivered: set<nat>)
    requires InStep(Run(WireAll(front + [d])).0, Run(WireAll(front + [d])).1, first, delivered)
    ensures
      var (t, h) := Run(WireAll(front));
      InStep(Track(t, Key(d.t)).0, TrackHistory(t, h, Key(d.t)), first, delivered)
  {
    hide Run, WireAll, Track, TrackHistory, Expired, Agrees;
    var (t, h) := Run(WireAll(front));
    DeliverSnoc(front, d);
    RunSnoc(WireAll(front), Wire(d));
    if d.nackLostPackets {
      var (v, list) := GetNackList(Track(t, Key(d.t)).0, d.now);
      MarkAllCounter(v, list, d.now);
    }
  }

  /** All that is missing after the last packet, before the poll, is `m`. */
  lemma TrackedMissing(front: seq<Delivery>, d: Delivery, m: nat)
    requires LosesOne(front + [d], m) && (|front| >= 2 ==> WellBehavedSource(front + [d]))
    requires Run(WireAll(front)).1.erased == {}
    ensures
      var (t, h) := Run(WireAll(front));
      Track(t, Key(d.t)).0.missing == if m + REORDER_DELTA < d.t then {m} else {}
  {
    hide Run, WireAll, Track, LosesOne, WellBehavedSource, InStep, Delivered, Agrees, Extend, OverdueAt;
    var ds := front + [d];
    assert ds[|ds| - 1] == d;
    var (t, h) := Run(WireAll(front));
    SkipInStep(ds, m);
    TrackedInStep(front, d, ds[0].t, Delivered(ds));
    TrackAgrees(t, h, Key(d.t));
    OnlyMissing(Track(t, Key(d.t)).0, TrackHistory(t, h, Key(d.t)), ds, m);
  }

  lemma {:induction false} NothingErased(ds: seq<Delivery>, m: nat)
    requires LosesOne(ds, m) && ds[|ds| - 1].t < m + SEQ_MOD && ds[|ds| - 1].t < U32_MOD
    ensures Run(WireAll(ds)).1.erased == {}
  {
    hide Run, WireAll, Track, WellBehavedSource, Agrees, HistoryStep;
    var (front, d) := (ds[..|ds| - 1], ds[|ds| - 1]);
    assert ds == front + [d];
    if |ds| >= 3 { SkippingIsWellBehaved(ds, m); }
    if front == [] {
      NothingErasedYet(front);
    } else {
      NothingErased(front, m);
    }
    TrackedMissing(front, d, m);
    DeliverSnoc(front, d);
    RunSnoc(WireAll(front), Wire(d));
    QuietStep(Run(WireAll(front)).0, Run(WireAll(front)).1, Wire(d), m);
  }

  lemma NothingErasedYet(ds: seq<Delivery>)
    requires ds == []
    ensures Run(WireAll(ds)).1.erased == {}
  {
    hide HistoryStep, Agrees, HandlePacket;
    assert WireAll(ds) == [];
  }

  lemma {:induction false} MarkAllMarks(t: Tracker, list: seq<nat>, now: nat, e: nat)
    requires e in list || Key(e) in t.nacks
    ensures Key(e) in MarkAll(t, list, now).nacks
  {
    hide Key;
    if list != [] && (e in list[1..] || Key(e) in t.nacks) {
      MarkAllMarks(t, list[1..], now, e);
    }
  }

  /** A single missing number is asked for at the next poll, if it has not been. */
  lemma PolledIsNacked(t: Tracker, m: nat, now: nat)
    requires Invariant(t) && t.missing == {m}
    ensures
      var (v, list) := GetNackList(t, now);
      var u := MarkAll(v, list, now);
      Key(m) in u.nacks && u.nacks[Key(m)].extendedSeq == m
  {
    hide Invariant, Expired;
    NothingExpires(t, m, now);
    FewNacks(t, m);
    PollKeepsInvariant(t, now);
    var (v, list) := GetNackList(t, now);
    assert v == t;
    if Key(m) !in t.nacks {
      assert m in Eligible(t);
      OneIsListed(Eligible(t), NackBudget(t), list, m);
    }
    MarkAllMarks(t, list, now, m);
    MarkAllKeepsInvariant(t, list, now);
    FewNacks(MarkAll(t, list, now), m);
  }

  lemma OneIsListed(s: set<nat>, count: nat, list: seq<nat>, m: nat)
    requires IsTop(s, count, list) && s == {m} && count > 1
    ensures m in list
  {
    assert list != [] ==> list[0] in list;
  }

  /** A packet that is lost and never retransmitted, while all others arrive in order: a whole
      cycle later, the packet with the same low 16 bits, which the counter would number
      correctly, is taken for it. */
  lemma LostPacketCapturesNextCycle(ds: seq<Delivery>, m: nat)
    requires LosesOne(ds, m) && ds[|ds| - 1].t == m + SEQ_MOD - 1 && m + SEQ_MOD < U32_MOD
    requires ds[|ds| - 1].nackLostPackets
    ensures
      var t := Run(WireAll(ds)).0;
      && WellBehavedSource(ds)
      && InWindow(t.highestReceived, m + SEQ_MOD)
      && Track(t, Key(m + SEQ_MOD)).1 == m
  {
    hide Run, WireAll, Track, Agrees, HistoryStep, WellBehavedSource, InStep;
    var (front, d) := (ds[..|ds| - 1], ds[|ds| - 1]);
    assert ds == front + [d];
    assert |front| >= 3;
    SkippingIsWellBehaved(ds, m);
    NothingErased(front, m);
    TrackedMissing(front, d, m);
    var (t, h) := Run(WireAll(ds));
    SkipInStep(ds, m);
    HighestIsLast(t, h, ds, m);
    LastIsNacked(front, d, m);
    assert Key(m + SEQ_MOD) == Key(m);
    TrackCounter(t, Key(m));
  }

  lemma LastIsNacked(front: seq<Delivery>, d: Delivery, m: nat)
    requires d.nackLostPackets && Track(Run(WireAll(front)).0, Key(d.t)).0.missing == {m}
    ensures
      var t := Run(WireAll(front + [d])).0;
      Key(m) in t.nacks && t.nacks[Key(m)].extendedSeq == m
  {
    hide Run, WireAll, Track, Agrees, HistoryStep, GetNackList, MarkAll;
    var (t, h) := Run(WireAll(front));
    TrackAgrees(t, h, Key(d.t));
    AgreesInvariant(Track(t, Key(d.t)).0, TrackHistory(t, h, Key(d.t)));
    PolledIsNacked(Track(t, Key(d.t)).0, m, d.now);
    DeliverSnoc(front, d);
    RunSnoc(WireAll(front), Wire(d));
  }

  /** The failing input: packets 0, 1, 2 and so on in order, without 7.  Packet 65543 is then
      taken for packet 7. */
  lemma OldNackCapturesNewPacket()
    ensures
      var ds := seq(SEQ_MOD + 6, i requires 0 <= i => Delivery(if i < 7 then i else i + 1, true, 0));
      var t := Run(WireAll(ds)).0;
      && WellBehavedSource(ds)
      && InWindow(t.highestReceived, SEQ_MOD + 7)
      && Track(t, Key(SEQ_MOD + 7)).1 == 7
  {
    hide Run, WireAll, Track, WellBehavedSource, InWindow;
    var ds := seq(SEQ_MOD + 6, i requires 0 <= i => Delivery(if i < 7 then i else i + 1, true, 0));
    assert LosesOne(ds, 7);
    LostPacketCapturesNextCycle(ds, 7);
  }
}
