/** The tracker against the whole history of a stream.  The tracker keeps 2048 numbers;
    the history here forgets nothing, and every run of the one is compared with the other. */
module SequenceHistory {
  import opened Collections
  import opened SequenceCounter
  import opened SequenceTracking

  /** Everything that happened since tracking last (re)started at `first`.
      `abandoned` are the dropouts, `erased` what NACK timeouts took out of `missing`,
      `marked` what was ever put there; the two counts are for the tracker's lifetime. */
  datatype History = History(
    first: nat,
    received: set<nat>,
    abandoned: set<nat>,
    erased: set<nat>,
    marked: set<nat>,
    missedBefore: nat,
    retransmits: nat)

  datatype Arrival = First(e: nat) | Next(e: nat) | Retransmit(e: nat)

  /** The numbers given up when `e` arrives, from the numbers received so far alone. */
  ghost function GivenUp(received: set<nat>, e: nat): set<nat>
    requires received != {}
  {
    Dropout(Greatest(received), Max(e - REORDER_DELTA, 0))
  }

  ghost function Observe(h: History, a: Arrival, overdue: set<nat>): History
    requires a.First? || h.received != {}
  {
    match a
    case First(e) => History(e, {e}, {}, {}, {}, h.missedBefore + |h.marked|, h.retransmits)
    case Next(e) => h.(received := h.received + {e}, abandoned := h.abandoned + GivenUp(h.received, e),
                       marked := h.marked + overdue)
    case Retransmit(e) => h.(received := h.received + {e}, retransmits := h.retransmits + 1)
  }

  /** The bounded structure says of the history what it should. */
  ghost predicate Agrees(t: Tracker, h: History) {
    && Invariant(t)
    && t.lostCount + h.retransmits == t.missedCount
    && t.missedCount == h.missedBefore + |h.marked|
    && if t.initialized then Covers(t, h) else h.marked == {}
  }

  /** `n` should be in `missing` when everything up to `checked` has been checked. */
  ghost predicate Outstanding(h: History, checked: nat, n: nat) {
    h.first < n <= checked && n !in h.received && n !in h.abandoned && n !in h.erased
  }

  /** The marks, and the buffer as far as it still matters. */
  ghost predicate Retains(t: Tracker, h: History) {
    && h.received != {} && h.first in h.received
    && t.highestReceived == Greatest(h.received)
    && t.highestChecked == Max(h.first, t.highestReceived - REORDER_DELTA - 1)
    && t.buffer <= h.received
    && (forall r :: r in h.received && r > t.highestChecked ==> r in t.buffer)
  }

  ghost predicate AtMost(s: set<nat>, bound: nat) {
    forall n :: n in s ==> n <= bound
  }

  ghost predicate Checked(t: Tracker, h: History) {
    && AtMost(h.abandoned, t.highestChecked) && AtMost(h.erased, t.highestChecked)
    && AtMost(h.marked, t.highestChecked)
    && t.missing <= h.marked
  }

  ghost predicate ListsMissing(t: Tracker, h: History) {
    forall n :: n in t.missing <==> Outstanding(h, t.highestChecked, n)
  }

  ghost predicate Covers(t: Tracker, h: History) {
    Retains(t, h) && Checked(t, h) && ListsMissing(t, h)
  }

  lemma GreatestIs(s: set<nat>, m: nat)
    requires m in s && forall x :: x in s ==> x <= m
    ensures Greatest(s) == m
  {
  }

  lemma GreatestOfInsert(s: set<nat>, e: nat)
    requires s != {}
    ensures Greatest(s + {e}) == Max(Greatest(s), e)
  {
    GreatestIs(s + {e}, Max(Greatest(s), e));
  }

  /** `u` is the tracker just after `e` went into the buffer of `t`. */
  ghost predicate AfterInsert(t: Tracker, u: Tracker, e: nat) {
    && SameMarks(t, u) && u.missing == t.missing - {e}
    && e in u.buffer && u.buffer <= t.buffer + {e}
    && (forall b :: b in t.buffer && b > t.highestChecked ==> b in u.buffer)
  }

  lemma GivenUpIsDropout(h: History, u: Tracker, e: nat)
    requires h.received != {} && u.highestReceived == Greatest(h.received)
    ensures Dropout(u.highestReceived, UpperBound(u, e)) == GivenUp(h.received, e)
  {
    if e <= u.highestReceived {
      assert Dropout(u.highestReceived, UpperBound(u, e)) == {};
      assert GivenUp(h.received, e) == {};
    }
  }

  /** Above highestChecked the buffer has forgotten nothing. */
  lemma OverdueIsUnreceived(t: Tracker, h: History, u: Tracker, e: nat, n: nat)
    requires t.initialized && Covers(t, h) && AfterInsert(t, u, e)
    ensures n in Overdue(u, e) <==>
              && t.highestChecked < n < UpperBound(u, e)
              && n !in h.received + {e} && n !in GivenUp(h.received, e)
  {
    GivenUpIsDropout(h, u, e);
  }

  lemma CheckEffect(u: Tracker, e: nat)
    requires u.initialized
    ensures CheckForMissing(u, e).missing == u.missing + Overdue(u, e)
    ensures CheckForMissing(u, e).buffer == u.buffer
    ensures CheckForMissing(u, e).highestReceived == Max(u.highestReceived, e)
    ensures CheckForMissing(u, e).highestChecked == Max(u.highestChecked, UpperBound(u, e) - 1)
    ensures CheckForMissing(u, e).missedCount == u.missedCount + |Overdue(u, e)|
    ensures CheckForMissing(u, e).lostCount == u.lostCount + |Overdue(u, e)|
  {
    if UpperBound(u, e) <= u.highestChecked + 1 {
      assert Overdue(u, e) == {};
    }
  }

  lemma MissingAfterCheck(t: Tracker, h: History, u: Tracker, e: nat, n: nat)
    requires t.initialized && Covers(t, h) && t.highestChecked <= t.highestReceived && AfterInsert(t, u, e)
    ensures
      var (v, k) := (CheckForMissing(u, e), Observe(h, Next(e), Overdue(u, e)));
      n in v.missing <==> Outstanding(k, v.highestChecked, n)
  {
    CheckEffect(u, e);
    OverdueIsUnreceived(t, h, u, e, n);
    assert n in t.missing <==> Outstanding(h, t.highestChecked, n);
    if n <= t.highestChecked {
      assert n !in GivenUp(h.received, e);
    }
  }

  lemma CheckedAfterCheck(t: Tracker, h: History, u: Tracker, e: nat)
    requires t.initialized && Covers(t, h) && AfterInsert(t, u, e)
    ensures
      var (v, k) := (CheckForMissing(u, e), Observe(h, Next(e), Overdue(u, e)));
      Checked(v, k)
    ensures Overdue(u, e) !! h.marked
  {
    hide Checked, ListsMissing, Overdue, CheckForMissing, GivenUp;
    CheckedStays(t, h, u, e);
    CheckedBound(t, h);
    OverdueIsNew(t, u, e);
  }

  lemma CheckedBound(t: Tracker, h: History)
    requires Checked(t, h)
    ensures AtMost(h.marked, t.highestChecked)
  {
  }

  lemma CheckedStays(t: Tracker, h: History, u: Tracker, e: nat)
    requires t.initialized && Checked(t, h) && h.received != {} && t.highestReceived == Greatest(h.received)
    requires SameMarks(t, u) && u.missing == t.missing - {e}
    ensures Checked(CheckForMissing(u, e), Observe(h, Next(e), Overdue(u, e)))
  {
    GivenUpIsDropout(h, u, e);
    GivenUpIsChecked(u, e);
    OverdueIsNew(t, u, e);
    CheckEffect(u, e);
    hide Overdue, CheckForMissing, GivenUp, Dropout, UpperBound, AtMost;
    var (before, after) := (t.highestChecked, CheckForMissing(u, e).highestChecked);
    AtMostUnion(h.abandoned, GivenUp(h.received, e), before, after);
    AtMostUnion(h.marked, Overdue(u, e), before, after);
    AtMostUnion(h.erased, {}, before, after);
    assert h.erased + {} == h.erased;
  }

  lemma AtMostUnion(a: set<nat>, b: set<nat>, before: nat, after: nat)
    requires AtMost(a, before) && before <= after && AtMost(b, after)
    ensures AtMost(a + b, after)
  {
  }

  lemma OverdueIsNew(t: Tracker, u: Tracker, e: nat)
    requires SameMarks(t, u)
    ensures forall n :: n in Overdue(u, e) ==> t.highestChecked < n < UpperBound(u, e)
    ensures AtMost(Overdue(u, e), Max(u.highestChecked, UpperBound(u, e) - 1))
  {
  }

  lemma GivenUpIsChecked(u: Tracker, e: nat)
    ensures AtMost(Dropout(u.highestReceived, UpperBound(u, e)), Max(u.highestChecked, UpperBound(u, e) - 1))
  {
  }

  lemma RetainsAfterCheck(t: Tracker, h: History, u: Tracker, e: nat)
    requires t.initialized && Retains(t, h) && AfterInsert(t, u, e)
    ensures Retains(CheckForMissing(u, e), Observe(h, Next(e), Overdue(u, e)))
  {
    GreatestOfInsert(h.received, e);
    MarksMove(u, h.first, e);
    StillRetained(h.received, t.buffer, u.buffer, e, t.highestChecked, CheckForMissing(u, e).highestChecked);
    hide CheckForMissing, Overdue, GivenUp;
  }

  lemma MarksMove(u: Tracker, first: nat, e: nat)
    requires u.initialized && u.highestChecked == Max(first, u.highestReceived - REORDER_DELTA - 1)
    ensures
      var v := CheckForMissing(u, e);
      && v.buffer == u.buffer && v.highestReceived == Max(u.highestReceived, e)
      && v.highestChecked == Max(first, v.highestReceived - REORDER_DELTA - 1) >= u.highestChecked
  {
    hide Overdue;
  }

  lemma StillRetained(received: set<nat>, buffer: set<nat>, after: set<nat>, e: nat, checked: nat, more: nat)
    requires buffer <= received && (forall r :: r in received && r > checked ==> r in buffer)
    requires e in after && after <= buffer + {e} && (forall b :: b in buffer && b > checked ==> b in after)
    requires checked <= more
    ensures after <= received + {e} && (forall r :: r in received + {e} && r > more ==> r in after)
  {
  }

  /** Checking after an insertion finds missing exactly the numbers not received. */
  lemma CheckAgrees(t: Tracker, h: History, u: Tracker, e: nat)
    requires t.initialized && Covers(t, h) && Marks(t) && AfterInsert(t, u, e)
    ensures Covers(CheckForMissing(u, e), Observe(h, Next(e), Overdue(u, e)))
  {
    var (v, k) := (CheckForMissing(u, e), Observe(h, Next(e), Overdue(u, e)));
    assert ListsMissing(v, k) by {
      forall n ensures n in v.missing <==> Outstanding(k, v.highestChecked, n) {
        MissingAfterCheck(t, h, u, e, n);
      }
    }
    CheckedAfterCheck(t, h, u, e);
    RetainsAfterCheck(t, h, u, e);
  }

  // ---------------------------------------------------------------------------
  // Steps

  ghost function ArrivalOf(t: Tracker, n: Seq16): Arrival {
    if n in t.nacks then Retransmit(t.nacks[n].extendedSeq)
    else
      var r := Extend(t.counter, n).1;
      if r.resync || !t.initialized then First(r.extendedSeq) else Next(r.extendedSeq)
  }

  /** What a new packet adds to `missing`. */
  ghost function OverdueAt(t: Tracker, e: nat): set<nat> {
    Overdue(Insert(t, e), e)
  }

  ghost function TrackHistory(t: Tracker, h: History, n: Seq16): History
    requires Agrees(t, h)
  {
    var a := ArrivalOf(t, n);
    Observe(h, a, OverdueAt(t.(counter := Extend(t.counter, n).0), a.e))
  }

  lemma NewEpochAgrees(t: Tracker, h: History, e: nat)
    requires Invariant(t) && !t.initialized
    requires t.lostCount + h.retransmits == t.missedCount == h.missedBefore + |h.marked|
    ensures
      var v := CheckForMissing(Insert(t, e), e);
      v.lostCount == t.lostCount && v.missedCount == t.missedCount && v.initialized
      && Covers(v, Observe(h, First(e), {}))
  {
    GreatestIs({e}, e);
    assert Insert(t, e).buffer == {e};
    assert Open(e, e + 1) == {};
  }

  lemma NextAgrees(t: Tracker, h: History, e: nat)
    requires Agrees(t, h) && t.initialized
    ensures
      var (v, k) := (CheckForMissing(Insert(t, e), e), Observe(h, Next(e), OverdueAt(t, e)));
      && v.initialized && Covers(v, k)
      && v.lostCount + k.retransmits == v.missedCount == k.missedBefore + |k.marked|
  {
    var u := Insert(t, e);
    InsertEffect(t, e);
    CheckAgrees(t, h, u, e);
    CheckedAfterCheck(t, h, u, e);
    CheckEffect(u, e);
    DisjointUnionSize(h.marked, Overdue(u, e));
  }

  /** Receiving a number that was already checked. */
  lemma LateAgrees(t: Tracker, h: History, v: Tracker, e: nat)
    requires Covers(t, h) && e <= t.highestChecked <= t.highestReceived
    requires v.highestReceived == t.highestReceived && v.highestChecked == t.highestChecked
    requires v.missing == t.missing - {e} && v.buffer <= t.buffer + {e}
    requires forall b :: b in t.buffer && b > t.highestChecked ==> b in v.buffer
    ensures Covers(v, Observe(h, Retransmit(e), {}))
  {
    GreatestOfInsert(h.received, e);
    var k := Observe(h, Retransmit(e), {});
    assert ListsMissing(v, k) by {
      forall m ensures m in v.missing <==> Outstanding(k, v.highestChecked, m) {
        assert m in t.missing <==> Outstanding(h, t.highestChecked, m);
      }
    }
  }

  lemma RetransmitAgrees(t: Tracker, h: History, n: Seq16)
    requires Agrees(t, h) && n in t.nacks
    ensures Agrees(Track(t, n).0, TrackHistory(t, h, n))
  {
    hide Insert, Covers;
    var e := t.nacks[n].extendedSeq;
    assert e in t.missing;
    NackedIsLost(t, n);
    RetransmitKeepsInvariant(t, n);
    var u := t.(nacks := t.nacks - {n}, lostCount := Decrement(t.lostCount));
    InsertEffect(u, e);
    LateAgrees(t, h, Insert(u, e), e);
  }

  lemma FreshPacketKeepsInvariant(u: Tracker, e: nat)
    requires Invariant(u)
    ensures Invariant(CheckForMissing(Insert(u, e), e))
  {
    InsertIsInserted(u, e);
    CheckKeepsInvariant(Insert(u, e), e);
  }

  lemma ResyncAgrees(t: Tracker, h: History, n: Seq16)
    requires Agrees(t, h) && ArrivalOf(t, n).First?
    ensures Agrees(Track(t, n).0, TrackHistory(t, h, n))
  {
    var (c, r) := Extend(t.counter, n);
    ExtendKeepsWellFormed(t.counter, n);
    var u := (if r.resync then Resync(t) else t).(counter := c);
    assert Invariant(u);
    FreshPacketKeepsInvariant(u, r.extendedSeq);
    NewEpochAgrees(u, h, r.extendedSeq);
  }

  lemma InSequenceAgrees(t: Tracker, h: History, n: Seq16)
    requires Agrees(t, h) && ArrivalOf(t, n).Next?
    ensures Agrees(Track(t, n).0, TrackHistory(t, h, n))
  {
    var (c, r) := Extend(t.counter, n);
    ExtendKeepsWellFormed(t.counter, n);
    var u := t.(counter := c);
    assert Agrees(u, h);
    FreshPacketKeepsInvariant(u, r.extendedSeq);
    NextAgrees(u, h, r.extendedSeq);
  }

  lemma TrackAgrees(t: Tracker, h: History, n: Seq16)
    requires Agrees(t, h)
    ensures Agrees(Track(t, n).0, TrackHistory(t, h, n))
  {
    match ArrivalOf(t, n)
    case First(_) => ResyncAgrees(t, h, n);
    case Next(_) => InSequenceAgrees(t, h, n);
    case Retransmit(_) => RetransmitAgrees(t, h, n);
  }

  ghost function PollHistory(t: Tracker, h: History, now: nat): History {
    h.(erased := h.erased + (t.missing * Expired(t, now)))
  }

  lemma PollCovers(t: Tracker, h: History, now: nat)
    requires Covers(t, h)
    ensures Covers(DropExpired(t, now), PollHistory(t, h, now))
  {
    hide Expired, DropExpired, PollHistory, Retains, Checked, ListsMissing;
    PollRetains(t, h, now);
    PollChecked(t, h, now);
    PollListsMissing(t, h, now);
  }

  lemma PollRetains(t: Tracker, h: History, now: nat)
    requires Retains(t, h)
    ensures Retains(DropExpired(t, now), PollHistory(t, h, now))
  {
    hide Expired;
  }

  lemma PollChecked(t: Tracker, h: History, now: nat)
    requires Checked(t, h)
    ensures Checked(DropExpired(t, now), PollHistory(t, h, now))
  {
    hide Expired;
  }

  lemma PollListsMissing(t: Tracker, h: History, now: nat)
    requires ListsMissing(t, h)
    ensures ListsMissing(DropExpired(t, now), PollHistory(t, h, now))
  {
    hide Expired;
    var (v, k) := (DropExpired(t, now), PollHistory(t, h, now));
    forall m ensures m in v.missing <==> Outstanding(k, v.highestChecked, m) {
      assert m in t.missing <==> Outstanding(h, t.highestChecked, m);
    }
  }

  lemma PollAgrees(t: Tracker, h: History, now: nat)
    requires Agrees(t, h)
    ensures Agrees(DropExpired(t, now), PollHistory(t, h, now))
  {
    hide Invariant, Covers, Expired;
    DropExpiredKeepsInvariant(t, now);
    if t.initialized {
      PollCovers(t, h, now);
    }
  }

  // ---------------------------------------------------------------------------
  // Runs

  /** One packet as it reaches handleMediaPacket. */
  datatype Packet = Packet(n: Seq16, nackLostPackets: bool, now: nat)

  const NO_HISTORY := History(0, {}, {}, {}, {}, 0, 0)

  ghost function HistoryStep(t: Tracker, h: History, p: Packet): History
    requires Agrees(t, h)
  {
    var k := TrackHistory(t, h, p.n);
    if p.nackLostPackets then PollHistory(Track(t, p.n).0, k, p.now) else k
  }

  lemma MarkAllAgrees(t: Tracker, h: History, list: seq<nat>, now: nat)
    requires Agrees(t, h) && |list| <= NackBudget(t) && forall e :: e in list ==> e in t.missing
    ensures Agrees(MarkAll(t, list, now), h)
  {
    MarkAllKeepsInvariant(t, list, now);
  }

  lemma StepAgrees(t: Tracker, h: History, p: Packet)
    requires Agrees(t, h)
    ensures Agrees(HandlePacket(t, p.n, p.nackLostPackets, p.now).0, HistoryStep(t, h, p))
  {
    var (u, k) := (Track(t, p.n).0, TrackHistory(t, h, p.n));
    TrackAgrees(t, h, p.n);
    if p.nackLostPackets {
      PollAgrees(u, k, p.now);
      var (v, list) := GetNackList(u, p.now);
      TopDownIsTop(Eligible(v), NackBudget(v));
      MarkAllAgrees(v, PollHistory(u, k, p.now), list, p.now);
    }
  }

  /** The tracker after a run, and the history of that run. */
  ghost function Run(ps: seq<Packet>): (r: (Tracker, History))
    ensures Agrees(r.0, r.1)
  {
    if ps == [] then (EMPTY, NO_HISTORY)
    else
      var (t, h) := Run(ps[..|ps| - 1]);
      var p := ps[|ps| - 1];
      StepAgrees(t, h, p);
      (HandlePacket(t, p.n, p.nackLostPackets, p.now).0, HistoryStep(t, h, p))
  }

  /** `missing` holds exactly all numbers after the first and up to 17 below the highest,
      except those received, those lost in dropouts, and those a NACK timeout erased. */
  ghost predicate Exact(t: Tracker, h: History) {
    t.initialized ==>
      && h.received != {}
      && t.missing == Open(h.first, Greatest(h.received) - REORDER_DELTA) - h.received - h.abandoned - h.erased
      && t.missing !! h.received
  }

  lemma AgreementIsExact(t: Tracker, h: History)
    requires Agrees(t, h)
    ensures Exact(t, h)
  {
    if t.initialized {
      var expected := Open(h.first, Greatest(h.received) - REORDER_DELTA) - h.received - h.abandoned - h.erased;
      forall n: nat ensures n in t.missing <==> n in expected {
        assert n in t.missing <==> Outstanding(h, t.highestChecked, n);
      }
    }
  }

  /** The bounded buffer is as good as the full history, in every run on any input. */
  lemma MissingIsUnreceived(ps: seq<Packet>)
    ensures Exact(Run(ps).0, Run(ps).1)
  {
    AgreementIsExact(Run(ps).0, Run(ps).1);
  }

  lemma RunSnoc(ps: seq<Packet>, p: Packet)
    ensures
      var (t, h) := Run(ps);
      Run(ps + [p]) == (HandlePacket(t, p.n, p.nackLostPackets, p.now).0, HistoryStep(t, h, p))
  {
    assert (ps + [p])[..|ps|] == ps;
  }

  lemma StepReceived(t: Tracker, h: History, p: Packet)
    requires Agrees(t, h)
    ensures HistoryStep(t, h, p).received ==
            (if ArrivalOf(t, p.n).First? then {} else h.received) + {Track(t, p.n).1}
  {
    hide Insert, CheckForMissing, Extend, GivenUp;
  }

  /** What Track returns for the next packet is received from then on. */
  lemma ReturnedIsReceived(ps: seq<Packet>, p: Packet)
    ensures
      var (t, h) := Run(ps);
      Run(ps + [p]).1.received ==
        (if ArrivalOf(t, p.n).First? then {} else h.received) + {Track(t, p.n).1}
  {
    RunSnoc(ps, p);
    var (t, h) := Run(ps);
    StepReceived(t, h, p);
  }

  lemma {:induction false} NacksInject(nacks: map<nat, Nack>, missing: set<nat>)
    requires forall k :: k in nacks ==> Key(nacks[k].extendedSeq) == k && nacks[k].extendedSeq in missing
    ensures |nacks| <= |missing|
    decreases |nacks|
  {
    if k :| k in nacks {
      var e := nacks[k].extendedSeq;
      var rest := nacks - {k};
      assert rest.Keys == nacks.Keys - {k};
      NacksInject(rest, missing - {e});
    }
  }

  /** Loss accounting, in every run: the outstanding NACKs are at most 64 distinct missing
      numbers; `lostCount` is what was marked missing less the retransmits, never less than
      `missing` holds, so that its decrement on a retransmit never wraps; and no number is
      counted missed twice in an epoch. */
  lemma LossAccounting(ps: seq<Packet>, n: Seq16)
    ensures
      var (t, h) := Run(ps);
      && NacksAreMissing(t)
      && |t.nacks| <= |t.missing| <= t.lostCount == t.missedCount - h.retransmits
      && |t.nacks| <= MAX_OUTSTANDING_NACKS
      && t.missedCount == h.missedBefore + |h.marked|
      && (n in t.nacks ==> Track(t, n).0.lostCount == t.lostCount - 1)
  {
    var t := Run(ps).0;
    NacksInject(t.nacks, t.missing);
    if n in t.nacks {
      NackedIsLost(t, n);
      var u := t.(nacks := t.nacks - {n}, lostCount := Decrement(t.lostCount));
      InsertEffect(u, t.nacks[n].extendedSeq);
    }
  }

  // ---------------------------------------------------------------------------
  // A source with known true numbers

  /** A packet whose full sequence number is `t`. */
  datatype Delivery = Delivery(t: nat, nackLostPackets: bool, now: nat)

  function Wire(d: Delivery): Packet {
    Packet(d.t % SEQ_MOD, d.nackLostPackets, d.now)
  }

  ghost function WireAll(ds: seq<Delivery>): seq<Packet> {
    seq(|ds|, i requires 0 <= i < |ds| => Wire(ds[i]))
  }

  ghost function Delivered(ds: seq<Delivery>): set<nat> {
    set d | d in ds :: d.t
  }

  /** The retransmit of a NACKed number, or a packet in the counter's window that no
      outstanding NACK is a whole cycle behind. */
  ghost predicate Admissible(t: Tracker, x: nat) {
    || (Key(x) in t.nacks && t.nacks[Key(x)].extendedSeq == x)
    || (&& InWindow(t.highestReceived, x)
        && forall k :: k in t.nacks ==> x - t.nacks[k].extendedSeq < SEQ_MOD)
  }

  ghost predicate WellBehavedSource(ds: seq<Delivery>) {
    && |ds| >= 3
    && ds[1].t == ds[0].t + 1 && ds[2].t == ds[0].t + 2 < SEQ_MOD
    && forall i :: 3 <= i < |ds| ==> Admissible(Run(WireAll(ds[..i])).0, ds[i].t)
  }

  /** The counter stands at the highest number, which is the source's own. */
  ghost predicate InStep(t: Tracker, h: History, first: nat, delivered: set<nat>) {
    && t.initialized && h.first == first && h.received == delivered && h.abandoned == {}
  }

  lemma TrackCounter(t: Tracker, n: Seq16)
    ensures Track(t, n).0.counter == if n in t.nacks then t.counter else Extend(t.counter, n).0
    ensures Track(t, n).1 == ArrivalOf(t, n).e
    ensures t.initialized || n !in t.nacks ==> Track(t, n).0.initialized
  {
  }

  lemma {:induction false} MarkAllCounter(t: Tracker, list: seq<nat>, now: nat)
    ensures MarkAll(t, list, now).counter == t.counter
    ensures MarkAll(t, list, now).initialized == t.initialized
  {
    if list != [] { MarkAllCounter(t, list[1..], now); }
  }

  lemma CounterAfter(t: Tracker, p: Packet)
    ensures HandlePacket(t, p.n, p.nackLostPackets, p.now).0.counter ==
            if p.n in t.nacks then t.counter else Extend(t.counter, p.n).0
    ensures t.initialized || p.n !in t.nacks ==> HandlePacket(t, p.n, p.nackLostPackets, p.now).0.initialized
  {
    TrackCounter(t, p.n);
    var u := Track(t, p.n).0;
    MarkAllCounter(GetNackList(u, p.now).0, GetNackList(u, p.now).1, p.now);
  }

  lemma NothingGivenUp(received: set<nat>, e: nat)
    requires received != {} && e <= Greatest(received) + MAX_DROPOUT
    ensures GivenUp(received, e) == {}
  {
  }

  /** One packet whose true number the tracker returns, not far above the highest. */
  lemma ExactStep(t: Tracker, h: History, first: nat, delivered: set<nat>, p: Packet)
    requires Agrees(t, h) && InStep(t, h, first, delivered)
    requires !ArrivalOf(t, p.n).First?
    requires ArrivalOf(t, p.n).e <= t.highestReceived + MAX_DROPOUT
    ensures
      var u := HandlePacket(t, p.n, p.nackLostPackets, p.now).0;
      && InStep(u, HistoryStep(t, h, p), first, delivered + {ArrivalOf(t, p.n).e})
      && u.highestReceived == Max(t.highestReceived, ArrivalOf(t, p.n).e)
  {
    CounterAfter(t, p);
    StepAgrees(t, h, p);
    StepInStep(t, h, first, delivered, p);
    GreatestOfInsert(h.received, ArrivalOf(t, p.n).e);
  }

  lemma StepInStep(t: Tracker, h: History, first: nat, delivered: set<nat>, p: Packet)
    requires Agrees(t, h) && InStep(t, h, first, delivered)
    requires !ArrivalOf(t, p.n).First?
    requires ArrivalOf(t, p.n).e <= t.highestReceived + MAX_DROPOUT
    ensures
      var k := HistoryStep(t, h, p);
      k.received == delivered + {ArrivalOf(t, p.n).e} && k.first == first && k.abandoned == {}
  {
    NothingGivenUp(h.received, ArrivalOf(t, p.n).e);
  }

  /** Exactly when Track returns the true number of a packet near the highest: no NACK for
      another number with the same low 16 bits is outstanding, and the packet is in the window. */
  lemma TrackExactIff(t: Tracker, x: nat)
    requires Locked(t.counter) && Position(t.counter) == t.highestReceived && Nearby(t.highestReceived, x)
    ensures Track(t, Key(x)).1 == x <==>
            if Key(x) in t.nacks then t.nacks[Key(x)].extendedSeq == x else InWindow(t.highestReceived, x)
  {
    TrackCounter(t, Key(x));
    ExactIff(t.counter, x);
  }

  lemma SameKeyWithinACycle(a: nat, b: nat)
    requires Key(a) == Key(b) && a - SEQ_MOD < b < a + SEQ_MOD
    ensures a == b
  {
  }

  lemma AdmissibleIsExact(t: Tracker, h: History, x: nat)
    requires Agrees(t, h) && t.initialized
    requires Locked(t.counter) && Position(t.counter) == t.highestReceived
    requires Admissible(t, x)
    ensures
      var (a, c) := (ArrivalOf(t, Key(x)), Extend(t.counter, Key(x)).0);
      && a.e == x && !a.First? && x <= t.highestReceived + MAX_DROPOUT
      && (a.Next? ==> Locked(c) && Position(c) == Max(t.highestReceived, x))
      && (a.Retransmit? ==> x <= t.highestReceived)
  {
    if Key(x) in t.nacks {
      var e := t.nacks[Key(x)].extendedSeq;
      assert e in t.missing && e <= t.highestChecked;
      if e != x { SameKeyWithinACycle(e, x); }
    } else {
      InWindowIsExact(t.counter, x);
    }
  }

  /** The tracker follows the source: all that was delivered is received, under its true number. */
  ghost predicate Follows(ds: seq<Delivery>)
    requires ds != []
  {
    var (t, h) := Run(WireAll(ds));
    && InStep(t, h, ds[0].t, Delivered(ds))
    && Locked(t.counter) && Position(t.counter) == t.highestReceived
  }

  lemma DeliverSnoc(ds: seq<Delivery>, d: Delivery)
    ensures WireAll(ds + [d]) == WireAll(ds) + [Wire(d)]
    ensures Delivered(ds + [d]) == Delivered(ds) + {d.t}
  {
    assert forall x :: x in ds + [d] <==> x in ds || x == d;
  }

  lemma FollowsNext(ds: seq<Delivery>, d: Delivery)
    requires ds != [] && Follows(ds) && Admissible(Run(WireAll(ds)).0, d.t)
    ensures Follows(ds + [d]) && Track(Run(WireAll(ds)).0, Key(d.t)).1 == d.t
  {
    var (t, h) := Run(WireAll(ds));
    DeliverSnoc(ds, d);
    RunSnoc(WireAll(ds), Wire(d));
    AdmissibleIsExact(t, h, d.t);
    TrackCounter(t, Key(d.t));
    CounterAfter(t, Wire(d));
    ExactStep(t, h, ds[0].t, Delivered(ds), Wire(d));
  }

  lemma NoNacksYet(t: Tracker, h: History)
    requires Agrees(t, h) && t.initialized && t.highestReceived <= h.first + REORDER_DELTA
    ensures t.nacks == map[]
  {
    forall n ensures n !in t.missing {
      assert n in t.missing <==> Outstanding(h, t.highestChecked, n);
    }
    assert t.missing == {};
    assert forall k :: k in t.nacks ==> t.nacks[k].extendedSeq in t.missing;
  }

  /** A packet of the first three: taken as new and at its own number. */
  lemma WarmStep(t: Tracker, h: History, first: nat, delivered: set<nat>, p: Packet)
    requires Agrees(t, h) && InStep(t, h, first, delivered) && t.highestReceived <= first + REORDER_DELTA
    requires !Extend(t.counter, p.n).1.resync && Extend(t.counter, p.n).1.extendedSeq == t.highestReceived + 1
    ensures
      var u := HandlePacket(t, p.n, p.nackLostPackets, p.now).0;
      && InStep(u, HistoryStep(t, h, p), first, delivered + {t.highestReceived + 1})
      && u.counter == Extend(t.counter, p.n).0
      && u.highestReceived == t.highestReceived + 1
  {
    NoNacksYet(t, h);
    CounterAfter(t, p);
    ExactStep(t, h, first, delivered, p);
  }

  lemma FirstPacket(p: Packet)
    requires Agrees(EMPTY, NO_HISTORY)
    ensures
      var (t, h) := (HandlePacket(EMPTY, p.n, p.nackLostPackets, p.now).0, HistoryStep(EMPTY, NO_HISTORY, p));
      InStep(t, h, p.n, {p.n}) && t.counter == Extend(INITIAL, p.n).0
  {
    CounterAfter(EMPTY, p);
    TrackCounter(EMPTY, p.n);
    BitOrZero(p.n);
  }

  /** After the first packets of a source that counts up by one. */
  ghost predicate Warm(ds: seq<Delivery>, c: Counter)
    requires ds != []
  {
    var (t, h) := Run(WireAll(ds));
    InStep(t, h, ds[0].t, Delivered(ds)) && t.counter == c && t.highestReceived == ds[0].t + |ds| - 1
  }

  lemma WarmFirst(d: Delivery)
    requires d.t < SEQ_MOD
    ensures Warm([d], Extend(INITIAL, d.t).0)
  {
    hide HandlePacket, HistoryStep, Extend;
    var p := Wire(d);
    assert Run([]) == (EMPTY, NO_HISTORY);
    FirstPacket(p);
    RunSnoc([], p);
    assert [] + [p] == [p] == WireAll([d]);
    assert Delivered([d]) == {d.t};
    assert Agrees(Run([p]).0, Run([p]).1);
    GreatestIs({d.t}, d.t);
  }

  lemma WarmNext(ds: seq<Delivery>, d: Delivery, c: Counter)
    requires 0 < |ds| <= 2 && Warm(ds, c) && d.t == ds[0].t + |ds| < SEQ_MOD
    requires !Extend(c, d.t).1.resync && Extend(c, d.t).1.extendedSeq == d.t
    ensures Warm(ds + [d], Extend(c, d.t).0)
  {
    hide HandlePacket, HistoryStep, Extend, Agrees;
    var (t, h) := Run(WireAll(ds));
    WarmStep(t, h, ds[0].t, Delivered(ds), Wire(d));
    DeliverSnoc(ds, d);
    RunSnoc(WireAll(ds), Wire(d));
  }

  lemma FollowsAfterThree(ds: seq<Delivery>)
    requires WellBehavedSource(ds) && |ds| == 3
    ensures Follows(ds)
  {
    hide HandlePacket, HistoryStep, Extend, Agrees;
    FirstThree(ds[0].t);
    var c1 := Extend(INITIAL, ds[0].t).0;
    WarmFirst(ds[0]);
    WarmNext([ds[0]], ds[1], c1);
    WarmNext([ds[0]] + [ds[1]], ds[2], Extend(c1, ds[1].t).0);
    assert [ds[0]] + [ds[1]] + [ds[2]] == ds;
  }

  lemma PrefixWellBehaved(ds: seq<Delivery>)
    requires WellBehavedSource(ds) && |ds| > 3
    ensures WellBehavedSource(ds[..|ds| - 1])
  {
    hide HandlePacket, HistoryStep, Extend;
    assert forall i :: 3 <= i < |ds| - 1 ==> ds[..|ds| - 1][..i] == ds[..i];
  }

  lemma LastIsAdmissible(ds: seq<Delivery>)
    requires WellBehavedSource(ds)
    ensures |ds| >= 3
    ensures |ds| > 3 ==> Admissible(Run(WireAll(ds[..|ds| - 1])).0, ds[|ds| - 1].t)
  {
    hide Run, Admissible, WireAll;
  }

  lemma {:induction false} FollowsSource(ds: seq<Delivery>)
    requires WellBehavedSource(ds)
    ensures |ds| >= 3 && Follows(ds)
    decreases |ds|
  {
    hide Run, Follows, Admissible, Delivered, WireAll, WellBehavedSource, Agrees, InStep;
    LastIsAdmissible(ds);
    if |ds| == 3 {
      FollowsAfterThree(ds);
    } else {
      var n := |ds| - 1;
      PrefixWellBehaved(ds);
      FollowsSource(ds[..n]);
      FollowsNext(ds[..n], ds[n]);
      assert ds[..n] + [ds[n]] == ds;
    }
  }

  /** End to end: after any prefix of a well-behaved source, `missing` is exactly the
      undelivered numbers between the first and 17 below the highest delivered, minus
      those the NACK timeout erased. */
  lemma EndToEnd(ds: seq<Delivery>)
    requires WellBehavedSource(ds)
    ensures
      var (t, h) := Run(WireAll(ds));
      && ds[0].t in Delivered(ds)
      && t.missing == Open(ds[0].t, Greatest(Delivered(ds)) - REORDER_DELTA) - Delivered(ds) - h.erased
  {
    hide Run;
    FollowsSource(ds);
    var (t, h) := Run(WireAll(ds));
    MissingIsUnreceived(WireAll(ds));
  }

  /** Before there are any NACKs, Track returns what the counter makes of the packet. */
  lemma WarmReturns(ds: seq<Delivery>, c: Counter, d: Delivery)
    requires 0 < |ds| <= 2 && Warm(ds, c) && d.t < SEQ_MOD
    ensures Track(Run(WireAll(ds)).0, Key(d.t)).1 == Extend(c, d.t).1.extendedSeq
  {
    hide Extend, Run, WireAll, CheckForMissing, Insert, Agrees, Delivered;
    var (t, h) := Run(WireAll(ds));
    NoNacksYet(t, h);
  }

  lemma FirstThreeReturned(ds: seq<Delivery>, i: nat)
    requires WellBehavedSource(ds) && i < 3
    ensures Track(Run(WireAll(ds[..i])).0, Key(ds[i].t)).1 == ds[i].t
  {
    hide Run, WireAll, HandlePacket, HistoryStep, Extend, Agrees, Track, Admissible, Warm;
    FirstThree(ds[0].t);
    var c1 := Extend(INITIAL, ds[0].t).0;
    if i == 0 {
      NothingYet(ds[..0]);
      FirstReturned(ds[0].t);
    } else if i == 1 {
      assert ds[..1] == [ds[0]];
      WarmFirst(ds[0]);
      WarmReturns([ds[0]], c1, ds[1]);
    } else {
      assert ds[..2] == [ds[0]] + [ds[1]];
      WarmFirst(ds[0]);
      WarmNext([ds[0]], ds[1], c1);
      WarmReturns([ds[0]] + [ds[1]], Extend(c1, ds[1].t).0, ds[2]);
    }
  }

  lemma FirstReturned(n: Seq16)
    ensures Track(EMPTY, n).1 == n
  {
    hide CheckForMissing, Insert;
    BitOrZero(n);
  }

  lemma NothingYet(ds: seq<Delivery>)
    requires ds == []
    ensures Run(WireAll(ds)).0 == EMPTY
  {
    hide HistoryStep, Agrees, HandlePacket;
    assert WireAll(ds) == [];
  }

  /** Track returns the true number of every packet of a well-behaved source. */
  lemma ReturnsTrueNumber(ds: seq<Delivery>, i: nat)
    requires WellBehavedSource(ds) && i < |ds|
    ensures Track(Run(WireAll(ds[..i])).0, Key(ds[i].t)).1 == ds[i].t
  {
    hide Run, Track, Admissible, Follows, WireAll;
    if i < 3 {
      FirstThreeReturned(ds, i);
    } else {
      assert forall j :: 3 <= j < i ==> ds[..i][..j] == ds[..j];
      FollowsSource(ds[..i]);
      FollowsNext(ds[..i], ds[i]);
    }
  }

  ghost predicate CountsUp(ds: seq<Delivery>) {
    forall i :: 0 <= i < |ds| ==> ds[i].t == ds[0].t + i
  }

  lemma DeliveredCountsUp(ds: seq<Delivery>)
    requires ds != [] && CountsUp(ds)
    ensures forall n :: n in Delivered(ds) <==> ds[0].t <= n < ds[0].t + |ds|
    ensures Delivered(ds) != {} && Greatest(Delivered(ds)) == ds[0].t + |ds| - 1
  {
    forall n | ds[0].t <= n < ds[0].t + |ds| ensures n in Delivered(ds) {
      assert ds[n - ds[0].t] in ds && ds[n - ds[0].t].t == n;
    }
    GreatestIs(Delivered(ds), ds[0].t + |ds| - 1);
  }

  /** While nothing is lost no NACK is outstanding. */
  lemma NothingLost(ds: seq<Delivery>)
    requires WellBehavedSource(ds) && CountsUp(ds)
    ensures Run(WireAll(ds)).0.nacks == map[]
  {
    hide Run, WireAll, WellBehavedSource;
    LastIsAdmissible(ds);
    EndToEnd(ds);
    DeliveredCountsUp(ds);
    var (t, h) := Run(WireAll(ds));
    assert t.missing == {};
    assert NacksAreMissing(t);
  }

  lemma HighestCountsUp(ds: seq<Delivery>)
    requires WellBehavedSource(ds) && CountsUp(ds)
    ensures Run(WireAll(ds)).0.highestReceived == ds[0].t + |ds| - 1
  {
    hide Run, WireAll, WellBehavedSource, Invariant, Locked;
    FollowsSource(ds);
    DeliveredCountsUp(ds);
    var (t, h) := Run(WireAll(ds));
    assert Agrees(t, h);
  }

  lemma NextIsAdmissible(ds: seq<Delivery>, x: nat)
    requires WellBehavedSource(ds) && CountsUp(ds) && x == ds[0].t + |ds| < U32_MOD
    ensures Admissible(Run(WireAll(ds)).0, x)
  {
    hide Run, WireAll, WellBehavedSource, CountsUp, Agrees;
    NothingLost(ds);
    HighestCountsUp(ds);
  }

  /** A source whose packets come in order, from below 2^16 on, is well behaved. */
  lemma {:induction false} InOrderIsWellBehaved(ds: seq<Delivery>)
    requires |ds| >= 3 && CountsUp(ds) && ds[0].t + 2 < SEQ_MOD && ds[0].t + |ds| <= U32_MOD
    ensures WellBehavedSource(ds)
  {
    hide Run, WireAll, Admissible;
    if |ds| > 3 {
      var (n, front) := (|ds| - 1, ds[..|ds| - 1]);
      InOrderIsWellBehaved(front);
      NextIsAdmissible(front, ds[n].t);
      assert forall i :: 3 <= i < n ==> front[..i] == ds[..i];
    }
  }
}
