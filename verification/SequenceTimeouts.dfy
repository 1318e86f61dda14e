/** Runs in which the timeout of NACKs does not do what it is for. */
module SequenceTimeouts {
  import opened Collections
  import opened SequenceCounter
  import opened SequenceTracking
  import opened SequenceHistory
  import opened SequenceDepartures

  // ---------------------------------------------------------------------------
  // Before the first timeout

  /** Less than the timeout has passed since the time `c`. */
  predicate Soon(now: nat, c: nat) {
    c <= now < c + NACK_TIMEOUT
  }

  /** NACKs are on, and all packets come within one timeout from the time `c` on. */
  ghost predicate Within(ds: seq<Delivery>, c: nat) {
    forall i :: 0 <= i < |ds| ==> ds[i].nackLostPackets && Soon(ds[i].now, c)
  }

  ghost predicate SentSince(t: Tracker, c: nat) {
    forall k :: k in t.nacks ==> Soon(t.nacks[k].sentAt, c)
  }

  lemma NothingExpiresSoon(t: Tracker, c: nat, now: nat)
    requires SentSince(t, c) && Soon(now, c)
    ensures Expired(t, now) == {} && DropExpired(t, now) == t
  {
    assert Expired(t, now) == {};
    assert t.missing - {} == t.missing && t.nacks - {} == t.nacks;
  }

  /** Track sends no NACK. */
  lemma TrackSendsNone(t: Tracker, n: Seq16)
    ensures forall k :: k in Track(t, n).0.nacks ==> k in t.nacks && Track(t, n).0.nacks[k] == t.nacks[k]
  {
    hide Extend, CheckForMissing, Key;
    assert forall u: Tracker, e: nat :: CheckForMissing(u, e).nacks == u.nacks by {
      forall u: Tracker, e: nat ensures CheckForMissing(u, e).nacks == u.nacks { CheckSendsNone(u, e); }
    }
  }

  lemma CheckSendsNone(t: Tracker, e: nat)
    ensures CheckForMissing(t, e).nacks == t.nacks
  {
    hide Overdue;
  }

  lemma {:induction false} MarkAllSoon(t: Tracker, list: seq<nat>, c: nat, now: nat)
    requires SentSince(t, c) && Soon(now, c)
    ensures SentSince(MarkAll(t, list, now), c)
  {
    if list != [] { MarkAllSoon(t, list[1..], c, now); }
  }

  /** One packet with NACKs on, before any can time out: Track, then ask for the greatest. */
  lemma StepSoon(t: Tracker, h: History, p: Packet, c: nat)
    requires Agrees(t, h) && SentSince(t, c) && p.nackLostPackets && Soon(p.now, c)
    ensures
      var u := Track(t, p.n).0;
      && SentSince(u, c)
      && HandlePacket(t, p.n, true, p.now).0 == MarkAll(u, TopDown(Eligible(u), NackBudget(u)), p.now)
      && HistoryStep(t, h, p) == TrackHistory(t, h, p.n).(erased := TrackHistory(t, h, p.n).erased + {})
  {
    hide Track, TrackHistory, Eligible, TopDown, NackBudget, MarkAll, Agrees, Soon;
    var u := Track(t, p.n).0;
    TrackSendsNone(t, p.n);
    NothingExpiresSoon(u, c, p.now);
    assert u.missing * {} == {};
  }

  lemma {:induction false} QuietSoon(ds: seq<Delivery>, c: nat)
    requires Within(ds, c)
    ensures SentSince(Run(WireAll(ds)).0, c) && Run(WireAll(ds)).1.erased == {}
  {
    hide Run, WireAll, Track, TrackHistory, Agrees, HistoryStep, HandlePacket, Eligible, NackBudget, TopDown, Soon;
    if ds == [] {
      NothingYet(ds);
      NothingErasedYet(ds);
    } else {
      var (front, d) := (ds[..|ds| - 1], ds[|ds| - 1]);
      assert ds == front + [d];
      QuietSoon(front, c);
      DeliverSnoc(front, d);
      RunSnoc(WireAll(front), Wire(d));
      var (t, h) := Run(WireAll(front));
      StepSoon(t, h, Wire(d), c);
      var u := Track(t, Key(d.t)).0;
      MarkAllSoon(u, TopDown(Eligible(u), NackBudget(u)), c, d.now);
      TrackErasesNone(t, h, Key(d.t));
    }
  }

  lemma TrackErasesNone(t: Tracker, h: History, n: Seq16)
    requires Agrees(t, h) && h.erased == {}
    ensures TrackHistory(t, h, n).erased == {}
  {
    hide Extend, OverdueAt, Agrees;
  }

  // ---------------------------------------------------------------------------
  // NACKs that no packet disturbs

  /** No number of `received` is a whole cycle or more away from a NACKed one, nor is it one. */
  ghost predicate Apart(nacks: map<nat, Nack>, received: set<nat>) {
    forall k, r :: k in nacks && r in received ==>
      nacks[k].extendedSeq - SEQ_MOD < r < nacks[k].extendedSeq + SEQ_MOD && r != nacks[k].extendedSeq
  }

  lemma ApartKeys(t: Tracker, received: set<nat>, r: nat)
    requires NacksAreMissing(t) && Apart(t.nacks, received) && r in received
    ensures Key(r) !in t.nacks
  {
    if Key(r) in t.nacks { SameKeyWithinACycle(t.nacks[Key(r)].extendedSeq, r); }
  }

  lemma MinusNone(nacks: map<nat, Nack>, k: nat)
    requires k !in nacks
    ensures nacks - {k} == nacks
  {
  }

  /** Inserting a number touches the NACKs of that number and of the one evicted only. */
  lemma InsertSparesNacks(t: Tracker, e: nat)
    requires |t.buffer| >= BUFFER_SIZE ==> Key(Least(t.buffer)) !in t.nacks
    ensures e !in t.buffer ==> Insert(t, e).nacks == t.nacks - {Key(e)}
    ensures e in t.buffer ==> Insert(t, e).nacks == t.nacks
  {
    hide Key;
    if |t.buffer| >= BUFFER_SIZE { MinusNone(t.nacks, Key(Least(t.buffer))); }
  }

  lemma EvictedIsReceived(t: Tracker, h: History)
    requires Agrees(t, h) && t.initialized && Apart(t.nacks, h.received)
    ensures |t.buffer| >= BUFFER_SIZE ==> Key(Least(t.buffer)) !in t.nacks
  {
    hide Key, Apart;
    if |t.buffer| >= BUFFER_SIZE {
      assert t.buffer != {};
      ApartKeys(t, h.received, Least(t.buffer));
    }
  }

  /** A packet in the window, apart from the NACKs as all before it: they stay as they are. */
  lemma TrackSparesNacks(t: Tracker, h: History, x: nat)
    requires Agrees(t, h) && t.initialized && Locked(t.counter) && Position(t.counter) == t.highestReceived
    requires InWindow(t.highestReceived, x) && Apart(t.nacks, h.received + {x})
    ensures Track(t, Key(x)).0.nacks == t.nacks
  {
    KeyMeans(x);
    hide Extend, Key, Invariant, Covers, CheckForMissing, Insert;
    assert NacksAreMissing(t) by { AgreesInvariant(t, h); InvariantNacks(t); }
    ApartKeys(t, h.received + {x}, x);
    assert Apart(t.nacks, h.received);
    EvictedIsReceived(t, h);
    InWindowIsExact(t.counter, x);
    var u := t.(counter := Extend(t.counter, Key(x)).0);
    InsertSparesNacks(u, x);
    MinusNone(t.nacks, Key(x));
    CheckSendsNone(Insert(u, x), x);
  }

  lemma KeyMeans(x: nat)
    ensures Key(x) == x % SEQ_MOD
  {
  }

  lemma InvariantNacks(t: Tracker)
    requires Invariant(t)
    ensures NacksAreMissing(t) && |t.nacks| <= MAX_OUTSTANDING_NACKS && t.missing !! t.buffer
  {
  }

  // ---------------------------------------------------------------------------
  // Sources that lose packets

  /** All numbers from the first to the last arrive in order, except those of `lost`. */
  ghost predicate InOrderBut(ds: seq<Delivery>, lost: set<nat>) {
    && |ds| >= 3 && ds[1].t == ds[0].t + 1 && ds[2].t == ds[0].t + 2 < SEQ_MOD
    && ds[|ds| - 1].t < U32_MOD
    && (forall i, j :: 0 <= i < j < |ds| ==> ds[i].t < ds[j].t)
    && (forall i :: 1 <= i < |ds| ==> ds[i].t <= ds[i - 1].t + MAX_DROPOUT)
    && (forall n :: ds[0].t <= n <= ds[|ds| - 1].t ==> (n in Delivered(ds) <==> n !in lost))
  }

  lemma DeliveredBounds(ds: seq<Delivery>, lost: set<nat>)
    requires InOrderBut(ds, lost)
    ensures forall n :: n in Delivered(ds) ==> ds[0].t <= n <= ds[|ds| - 1].t
    ensures Delivered(ds) != {} && Greatest(Delivered(ds)) == ds[|ds| - 1].t
  {
    var last := ds[|ds| - 1].t;
    assert last in Delivered(ds);
    forall n | n in Delivered(ds) ensures ds[0].t <= n <= last {
      var i :| 0 <= i < |ds| && ds[i].t == n;
    }
    GreatestIs(Delivered(ds), last);
  }

  lemma FrontInOrderBut(ds: seq<Delivery>, lost: set<nat>)
    requires InOrderBut(ds, lost) && |ds| > 3
    ensures InOrderBut(ds[..|ds| - 1], lost)
  {
    var (front, d) := (ds[..|ds| - 1], ds[|ds| - 1]);
    assert ds == front + [d];
    DeliverSnoc(front, d);
    hide Delivered;
  }

  /** What the tracker holds after such a source, if it has followed it. */
  lemma MissingIsLost(t: Tracker, h: History, ds: seq<Delivery>, lost: set<nat>)
    requires InOrderBut(ds, lost) && Agrees(t, h) && InStep(t, h, ds[0].t, Delivered(ds)) && h.erased == {}
    ensures t.highestReceived == ds[|ds| - 1].t
    ensures forall n :: n in t.missing <==> ds[0].t < n < ds[|ds| - 1].t - REORDER_DELTA && n in lost
  {
    hide Invariant, Delivered;
    DeliveredBounds(ds, lost);
    AgreementIsExact(t, h);
    hide ListsMissing, Checked;
  }

  /** The next packet can be followed if no NACKed number is a whole cycle behind it. */
  lemma NextOfSource(ds: seq<Delivery>, d: Delivery, lost: set<nat>, t: Tracker)
    requires InOrderBut(ds + [d], lost) && |ds| >= 3 && t.highestReceived == ds[|ds| - 1].t
    requires forall k :: k in t.nacks ==> d.t < t.nacks[k].extendedSeq + SEQ_MOD
    ensures InWindow(t.highestReceived, d.t) && Admissible(t, d.t)
  {
    hide Delivered;
    var all := ds + [d];
    var n := |ds|;
    assert all[n] == d && all[n - 1] == ds[n - 1];
    assert all[n].t <= all[n - 1].t + MAX_DROPOUT && all[n - 1].t < all[n].t;
  }

  lemma WellBehavedSnoc(ds: seq<Delivery>, d: Delivery)
    requires |ds| >= 3 && WellBehavedSource(ds) && Admissible(Run(WireAll(ds)).0, d.t)
    ensures WellBehavedSource(ds + [d])
  {
    hide Run, WireAll, Admissible;
    var all := ds + [d];
    forall i | 3 <= i < |all| ensures Admissible(Run(WireAll(all[..i])).0, all[i].t) {
      assert all[..i] == if i < |ds| then ds[..i] else ds;
    }
  }

  lemma NackedIsMissing(t: Tracker, h: History)
    requires Agrees(t, h)
    ensures forall k :: k in t.nacks ==> t.nacks[k].extendedSeq in t.missing && Key(t.nacks[k].extendedSeq) == k
    ensures |t.nacks| <= MAX_OUTSTANDING_NACKS && t.missing !! t.buffer
  {
  }

  // ---------------------------------------------------------------------------
  // Timeouts that forget nothing

  /** All that is lost is less than a cycle behind the last packet. */
  ghost predicate LostOfLate(lost: set<nat>, last: nat) {
    forall m :: m in lost ==> last < m + SEQ_MOD
  }

  lemma {:induction false} LossyIsWellBehaved(ds: seq<Delivery>, lost: set<nat>, c: nat)
    requires InOrderBut(ds, lost) && Within(ds, c) && LostOfLate(lost, ds[|ds| - 1].t)
    ensures WellBehavedSource(ds)
  {
    hide Run, WireAll, Admissible, Agrees, InStep, Delivered;
    if |ds| > 3 {
      hide WellBehavedSource;
      var (front, d) := (ds[..|ds| - 1], ds[|ds| - 1]);
      assert ds == front + [d];
      FrontInOrderBut(ds, lost);
      LossyIsWellBehaved(front, lost, c);
      LossyMissing(front, lost, c);
      var (t, h) := Run(WireAll(front));
      NackedIsMissing(t, h);
      NextOfSource(front, d, lost, t);
      WellBehavedSnoc(front, d);
    }
  }

  lemma LossyMissing(ds: seq<Delivery>, lost: set<nat>, c: nat)
    requires InOrderBut(ds, lost) && Within(ds, c) && WellBehavedSource(ds)
    ensures
      var t := Run(WireAll(ds)).0;
      && t.highestReceived == ds[|ds| - 1].t
      && forall n :: n in t.missing <==> ds[0].t < n < ds[|ds| - 1].t - REORDER_DELTA && n in lost
  {
    hide Run, WireAll, WellBehavedSource, InOrderBut, Agrees, InStep, Delivered;
    FollowsSource(ds);
    QuietSoon(ds, c);
    var (t, h) := Run(WireAll(ds));
    MissingIsLost(t, h, ds, lost);
  }

  ghost function Listed(list: seq<nat>): (r: set<nat>)
    ensures forall e :: e in r <==> e in list
  {
    if list == [] then {} else Listed(list[1..]) + {list[0]}
  }

  lemma {:induction false} ListedSize(list: seq<nat>)
    requires forall i, j :: 0 <= i < j < |list| ==> list[i] > list[j]
    ensures |Listed(list)| == |list|
  {
    if list != [] {
      ListedSize(list[1..]);
      assert list[0] !in list[1..];
    }
  }

  ghost function Nacked(nacks: map<nat, Nack>): set<nat> {
    set k | k in nacks :: nacks[k].extendedSeq
  }

  lemma {:induction false} NackedSize(nacks: map<nat, Nack>)
    requires forall k :: k in nacks ==> Key(nacks[k].extendedSeq) == k
    ensures |Nacked(nacks)| == |nacks|
    decreases |nacks|
  {
    if k :| k in nacks {
      var rest := nacks - {k};
      assert rest.Keys == nacks.Keys - {k};
      NackedSize(rest);
      NackedSplit(nacks, k);
    } else {
      assert nacks.Keys == {};
    }
  }

  lemma NackedSplit(nacks: map<nat, Nack>, k: nat)
    requires (forall k :: k in nacks ==> Key(nacks[k].extendedSeq) == k) && k in nacks
    ensures nacks[k].extendedSeq !in Nacked(nacks - {k})
    ensures Nacked(nacks) == Nacked(nacks - {k}) + {nacks[k].extendedSeq}
  {
    var rest := nacks - {k};
    forall e | e in Nacked(nacks) ensures e in Nacked(rest) + {nacks[k].extendedSeq} {
      var j :| j in nacks && nacks[j].extendedSeq == e;
      if j != k { assert j in rest && rest[j].extendedSeq == e; }
    }
  }

  /** While at most 64 numbers are missing, every one of them is asked for. */
  lemma FewAreAllListed(t: Tracker, list: seq<nat>)
    requires NacksAreMissing(t) && |t.missing| <= MAX_OUTSTANDING_NACKS
    requires IsTop(Eligible(t), NackBudget(t), list)
    ensures forall e :: e in t.missing ==> e in list || Key(e) in t.nacks
  {
    forall e | e in t.missing && Key(e) !in t.nacks ensures e in list {
      LeftOutIsTooMany(t, list, e);
    }
  }

  lemma LeftOutIsTooMany(t: Tracker, list: seq<nat>, e: nat)
    requires NacksAreMissing(t) && IsTop(Eligible(t), NackBudget(t), list)
    requires e in t.missing && Key(e) !in t.nacks
    ensures e in list || |t.missing| > MAX_OUTSTANDING_NACKS
  {
    if e !in list {
      var (listed, nacked) := (Listed(list), Nacked(t.nacks));
      ListedSize(list);
      NackedSize(t.nacks);
      assert e in Eligible(t);
      assert listed <= t.missing && listed !! nacked && nacked <= t.missing && e !in listed + nacked;
      hide IsTop, NacksAreMissing, Key, Eligible;
      DisjointUnionSize(listed, nacked);
      DisjointUnionSize(listed + nacked, {e});
      SubsetSize(listed + nacked + {e}, t.missing);
    }
  }

  /** After a poll with so few missing, NACKs are outstanding for all of them. */
  lemma FewAreAllNacked(t: Tracker, now: nat)
    requires Invariant(t) && |t.missing| <= MAX_OUTSTANDING_NACKS
    ensures
      var u := MarkAll(t, TopDown(Eligible(t), NackBudget(t)), now);
      u.missing == t.missing && forall e :: e in t.missing ==> Key(e) in u.nacks
  {
    var list := TopDown(Eligible(t), NackBudget(t));
    TopDownIsTop(Eligible(t), NackBudget(t));
    FewAreAllListed(t, list);
    hide IsTop, Key, TopDown, Eligible;
    forall e | e in t.missing ensures Key(e) in MarkAll(t, list, now).nacks {
      MarkAllMarks(t, list, now, e);
    }
    MarkAllSpares(t, list, now);
  }

  lemma {:induction false} MarkAllSpares(t: Tracker, list: seq<nat>, now: nat)
    ensures MarkAll(t, list, now).missing == t.missing
  {
    hide Key;
    if list != [] { MarkAllSpares(t, list[1..], now); }
  }

  /** With nothing missing from the first cycle, a timeout takes nothing out of `missing`. */
  lemma LaterCyclesAreKept(t: Tracker, now: nat)
    requires Invariant(t) && forall e :: e in t.missing ==> e >= SEQ_MOD
    ensures DropExpired(t, now).missing == t.missing
  {
    assert forall k :: k in t.nacks ==> k < SEQ_MOD;
  }

  /** 64 numbers in a row, from `m` on. */
  ghost function Row(m: nat): set<nat> {
    Open(m - 1, m + 64)
  }

  lemma RowSize(m: nat)
    requires m > 0
    ensures |Row(m)| == 64
  {
    OpenSize(m - 1, m + 64);
  }

  lemma {:induction false} OpenSize(lo: nat, hi: nat)
    requires lo < hi
    ensures |Open(lo, hi)| == hi - lo - 1
  {
    if lo + 1 == hi {
      assert Open(lo, hi) == {};
    } else {
      OpenStep(lo, hi - 1);
      OpenSize(lo, hi - 1);
    }
  }

  /** A source that loses a row of the second cycle, less than a cycle after its first packet,
      and goes on for a while. */
  ghost predicate LosesRow(ds: seq<Delivery>, m: nat) {
    && InOrderBut(ds, Row(m)) && SEQ_MOD <= m && m + 63 < ds[0].t + SEQ_MOD
    && m + 63 + REORDER_DELTA < ds[|ds| - 1].t < m + SEQ_MOD
  }

  lemma RowFacts(ds: seq<Delivery>, m: nat)
    requires LosesRow(ds, m)
    ensures |ds| >= 3 && m >= SEQ_MOD && LostOfLate(Row(m), ds[|ds| - 1].t) && InOrderBut(ds, Row(m))
    ensures forall n :: n in Row(m) ==> ds[0].t < n < ds[|ds| - 1].t - REORDER_DELTA
  {
    hide InOrderBut;
    InOrderLength(ds, Row(m));
  }

  lemma InOrderLength(ds: seq<Delivery>, lost: set<nat>)
    requires InOrderBut(ds, lost)
    ensures |ds| >= 3 && ds[0].t < SEQ_MOD
  {
    hide Delivered;
  }

  lemma RowIsMissing(ds: seq<Delivery>, m: nat, c: nat)
    requires LosesRow(ds, m) && Within(ds, c)
    ensures WellBehavedSource(ds) && Run(WireAll(ds)).0.missing == Row(m)
  {
    hide Run, WireAll, WellBehavedSource, InOrderBut, LosesRow, Within;
    RowFacts(ds, m);
    LossyIsWellBehaved(ds, Row(m), c);
    LossyMissing(ds, Row(m), c);
  }

  /** A NACK for `e`, sent soon after the time `c`. */
  ghost predicate AskedSince(nack: Nack, e: nat, c: nat) {
    nack.extendedSeq == e && Soon(nack.sentAt, c)
  }

  lemma FrontWithin(front: seq<Delivery>, d: Delivery, c: nat)
    requires Within(front + [d], c)
    ensures Within(front, c) && d.nackLostPackets && Soon(d.now, c)
  {
    var ds := front + [d];
    assert ds[|front|] == d && forall i :: 0 <= i < |front| ==> front[i] == ds[i];
  }

  /** After the last poll of such a run, NACKs are outstanding for all that is missing. */
  lemma AllNacked(front: seq<Delivery>, d: Delivery, c: nat)
    requires Within(front + [d], c)
    requires |Run(WireAll(front + [d])).0.missing| <= MAX_OUTSTANDING_NACKS
    ensures var t := Run(WireAll(front + [d])).0; forall e :: e in t.missing ==> Key(e) in t.nacks
  {
    hide Run, WireAll, Agrees, HistoryStep, HandlePacket, Track, MarkAll, TopDown, Eligible, NackBudget, TrackHistory;
    DeliverSnoc(front, d);
    RunSnoc(WireAll(front), Wire(d));
    var (t, h) := Run(WireAll(front));
    FrontWithin(front, d, c);
    QuietSoon(front, c);
    StepSoon(t, h, Wire(d), c);
    TrackAgrees(t, h, Key(d.t));
    var u := Track(t, Key(d.t)).0;
    AgreesInvariant(u, TrackHistory(t, h, Key(d.t)));
    MarkAllSpares(u, TopDown(Eligible(u), NackBudget(u)), d.now);
    FewAreAllNacked(u, d.now);
  }

  lemma RowIsNacked(ds: seq<Delivery>, m: nat, c: nat)
    requires LosesRow(ds, m) && Within(ds, c)
    ensures
      var t := Run(WireAll(ds)).0;
      forall e :: e in Row(m) ==> Key(e) in t.nacks && AskedSince(t.nacks[Key(e)], e, c)
  {
    hide Run, WireAll, WellBehavedSource, LosesRow, Agrees;
    RowFacts(ds, m);
    RowIsMissing(ds, m, c);
    RowSize(m);
    var (front, d) := (ds[..|ds| - 1], ds[|ds| - 1]);
    assert ds == front + [d];
    AllNacked(front, d, c);
    QuietSoon(ds, c);
    var (t, h) := Run(WireAll(ds));
    NackedIsMissing(t, h);
    RowNacks(t, m, c);
  }

  /** Their low 16 bits tell the numbers of a row apart. */
  lemma RowNacks(t: Tracker, m: nat, c: nat)
    requires SentSince(t, c) && t.missing == Row(m)
    requires forall e :: e in Row(m) ==> Key(e) in t.nacks
    requires forall k :: k in t.nacks ==> t.nacks[k].extendedSeq in t.missing && Key(t.nacks[k].extendedSeq) == k
    ensures forall e :: e in Row(m) ==> AskedSince(t.nacks[Key(e)], e, c)
  {
    forall e | e in Row(m) ensures AskedSince(t.nacks[Key(e)], e, c) {
      SameKeyWithinACycle(t.nacks[Key(e)].extendedSeq, e);
    }
  }

  /** One packet more, after the timeout: before the poll all is as it was. */
  lemma RowStaysNacked(ds: seq<Delivery>, d: Delivery, m: nat, c: nat)
    requires LosesRow(ds + [d], m) && LosesRow(ds, m) && Within(ds, c)
    ensures
      var (t, u) := (Run(WireAll(ds)).0, Track(Run(WireAll(ds)).0, Key(d.t)).0);
      u.missing == Row(m) && u.nacks == t.nacks && Invariant(u)
  {
    hide Run, WireAll, WellBehavedSource, Agrees, Track, Delivered, Extend, InOrderBut, LosesRow, Admissible, InWindow,
      Follows;
    RowFacts(ds, m);
    RowFacts(ds + [d], m);
    RowIsMissing(ds, m, c);
    var (t, h) := Run(WireAll(ds));
    LossyMissing(ds, Row(m), c);
    NackedIsMissing(t, h);
    NextOfSource(ds, d, Row(m), t);
    FollowsSource(ds);
    FollowsNext(ds, d);
    StillMissing(ds, d, Row(m), c);
    RowNacksStay(ds, d, m);
  }

  lemma RowNacksStay(ds: seq<Delivery>, d: Delivery, m: nat)
    requires LosesRow(ds + [d], m) && LosesRow(ds, m) && |ds| >= 3 && Follows(ds)
    requires var t := Run(WireAll(ds)).0; t.missing == Row(m) && InWindow(t.highestReceived, d.t)
    ensures Track(Run(WireAll(ds)).0, Key(d.t)).0.nacks == Run(WireAll(ds)).0.nacks
  {
    hide Run, WireAll, Agrees, Track, Delivered, LosesRow, InWindow, Locked;
    var (t, h) := Run(WireAll(ds));
    NackedIsMissing(t, h);
    RowApart(t, ds, d, m, h.received);
    TrackSparesNacks(t, h, d.t);
  }

  /** Between Track and poll the same is missing as after both, up to what expires. */
  lemma StillMissing(ds: seq<Delivery>, d: Delivery, lost: set<nat>, c: nat)
    requires InOrderBut(ds + [d], lost) && |ds| >= 3 && Within(ds, c) && Follows(ds + [d])
    ensures
      var u := Track(Run(WireAll(ds)).0, Key(d.t)).0;
      && Invariant(u)
      && forall n :: n in u.missing <==> ds[0].t < n < d.t - REORDER_DELTA && n in lost
  {
    hide Run, WireAll, Agrees, Track, Delivered, InOrderBut, Locked, TrackHistory;
    var (t, h) := Run(WireAll(ds));
    QuietSoon(ds, c);
    TrackedInStep(ds, d, ds[0].t, Delivered(ds + [d]));
    TrackAgrees(t, h, Key(d.t));
    TrackErasesNone(t, h, Key(d.t));
    var u := Track(t, Key(d.t)).0;
    MissingIsLost(u, TrackHistory(t, h, Key(d.t)), ds + [d], lost);
    AgreesInvariant(u, TrackHistory(t, h, Key(d.t)));
  }

  lemma RowApart(t: Tracker, ds: seq<Delivery>, d: Delivery, m: nat, received: set<nat>)
    requires LosesRow(ds + [d], m) && LosesRow(ds, m) && received == Delivered(ds)
    requires forall k :: k in t.nacks ==> t.nacks[k].extendedSeq in Row(m)
    ensures Apart(t.nacks, received + {d.t})
  {
    var all := ds + [d];
    assert all[|ds|] == d && all[|ds| - 1] == ds[|ds| - 1];
    assert ds[|ds| - 1].t < d.t;
    DeliveredBounds(ds, Row(m));
  }

  /** Every source that loses a row of the second cycle for good, within one
      timeout, and is polled after the next: all 64 NACKs expire, and every one of the 64
      numbers stays missing. */
  lemma ExpiredRowStays(ds: seq<Delivery>, d: Delivery, m: nat, c: nat)
    requires LosesRow(ds + [d], m) && LosesRow(ds, m) && Within(ds, c) && d.nackLostPackets
    requires d.now >= c + 2 * NACK_TIMEOUT
    ensures
      var u := Track(Run(WireAll(ds)).0, Key(d.t)).0;
      && ExpiredNumbers(u, d.now) == Row(m)
      && Run(WireAll(ds + [d])).0.missing == Row(m)
  {
    hide Run, WireAll, Track, LosesRow, Within, Invariant;
    RowFacts(ds, m);
    RowIsNacked(ds, m, c);
    RowStaysNacked(ds, d, m, c);
    var (t, h) := Run(WireAll(ds));
    var u := Track(t, Key(d.t)).0;
    RowExpires(u, m, d.now, c);
    LaterCyclesAreKept(u, d.now);
    DeliverSnoc(ds, d);
    RunSnoc(WireAll(ds), Wire(d));
    MarkAllSpares(DropExpired(u, d.now), GetNackList(u, d.now).1, d.now);
  }

  lemma RowExpires(u: Tracker, m: nat, now: nat, c: nat)
    requires m > 0 && u.missing == Row(m) && Invariant(u) && now >= c + 2 * NACK_TIMEOUT
    requires forall e :: e in Row(m) ==> Key(e) in u.nacks && AskedSince(u.nacks[Key(e)], e, c)
    ensures ExpiredNumbers(u, now) == Row(m)
  {
    RowSize(m);
    hide Key;
    InvariantNacks(u);
    forall e | e in Row(m) ensures e in ExpiredNumbers(u, now) {
      assert Key(e) in Expired(u, now);
    }
  }

  // ---------------------------------------------------------------------------
  // A timeout that erases another number

  /** What is lost: a long burst at the beginning, and one packet a cycle after its fifth. */
  ghost function Holes(): set<nat> {
    Open(2, 2001) + {SEQ_MOD + 7}
  }

  /** The 64 numbers asked for when the burst is found. */
  ghost function LateInBurst(): set<nat> {
    Open(1920, 1985)
  }

  ghost predicate AsksForLate(t: Tracker, c: nat) {
    t.nacks.Keys == LateInBurst() && forall k :: k in t.nacks ==> AskedSince(t.nacks[k], k, c)
  }

  ghost predicate Bursty(ds: seq<Delivery>, c: nat) {
    && InOrderBut(ds, Holes()) && Within(ds, c)
    && ds[0].t == 0 && ds[|ds| - 1].t < SEQ_MOD + 1921
  }

  lemma FrontBursty(ds: seq<Delivery>, c: nat)
    requires Bursty(ds, c) && |ds| > 3
    ensures Bursty(ds[..|ds| - 1], c)
  {
    FrontInOrderBut(ds, Holes());
    hide Delivered;
  }

  /** The greatest 64 of the burst as far as it is known. */
  lemma LateAreListed(list: seq<nat>)
    requires IsTop(Open(2, 1985), 64, list)
    ensures forall n :: n in LateInBurst() ==> n in list
  {
    forall n | n in LateInBurst() ensures n in list {
      if n !in list {
        LeftOutIsSmall(list, n);
      }
    }
  }

  lemma LeftOutIsSmall(list: seq<nat>, n: nat)
    requires IsTop(Open(2, 1985), 64, list) && 2 < n < 1985 && n !in list
    ensures n <= 1920
  {
    ListedSize(list);
    OpenSize(n, 1985);
    assert Listed(list) <= Open(n, 1985);
    SubsetSize(Listed(list), Open(n, 1985));
  }

  lemma SameBySize(a: set<nat>, b: set<nat>)
    requires a <= b && |b| <= |a|
    ensures a == b
  {
    assert b == a + (b - a);
    DisjointUnionSize(a, b - a);
  }

  lemma LateAreAsked(u: Tracker, t: Tracker, c: nat, now: nat)
    requires u.missing == Open(2, 1985) && u.nacks == map[] && Invariant(t) && SentSince(t, c)
    requires t == MarkAll(u, TopDown(Eligible(u), NackBudget(u)), now)
    ensures AsksForLate(t, c)
  {
    var list := TopDown(Eligible(u), NackBudget(u));
    assert Eligible(u) == u.missing && NackBudget(u) == 64;
    TopDownIsTop(Eligible(u), NackBudget(u));
    LateAreListed(list);
    hide TopDown, Invariant, MarkAll, IsTop, Eligible, NackBudget, Key;
    InvariantNacks(t);
    MarkAllSpares(u, list, now);
    LateAreMarked(u, list, now);
    OpenSize(1920, 1985);
    assert |t.nacks.Keys| == |t.nacks|;
    SameBySize(LateInBurst(), t.nacks.Keys);
    EarlyKeys(t, c);
  }

  lemma LateAreMarked(u: Tracker, list: seq<nat>, now: nat)
    requires forall n :: n in LateInBurst() ==> n in list
    ensures LateInBurst() <= MarkAll(u, list, now).nacks.Keys
  {
    hide MarkAll;
    forall n | n in LateInBurst() ensures n in MarkAll(u, list, now).nacks.Keys {
      MarkAllMarks(u, list, now, n);
      assert Key(n) == n;
    }
  }

  lemma EarlyKeys(t: Tracker, c: nat)
    requires NacksAreMissing(t) && SentSince(t, c) && forall e :: e in t.missing ==> e < SEQ_MOD
    ensures forall k :: k in t.nacks ==> AskedSince(t.nacks[k], k, c)
  {
  }

  lemma BurstEnd(ds: seq<Delivery>, c: nat)
    requires Bursty(ds, c) && |ds| == 4
    ensures ds[3].t == 2001
  {
    assert ds[3].t in Delivered(ds) && ds[3].t !in Holes();
    assert 2001 in Delivered(ds) <==> 2001 == ds[3].t;
    assert ds[3].t >= 2001 ==> 2001 in Delivered(ds);
  }

  lemma NothingMissedYet(ds: seq<Delivery>, c: nat)
    requires Bursty(ds, c) && |ds| == 3 && WellBehavedSource(ds)
    ensures Run(WireAll(ds)).0.nacks == map[] && Run(WireAll(ds)).0.highestReceived == ds[2].t
  {
    hide Run, WireAll, Agrees, Delivered, WellBehavedSource, InOrderBut;
    InOrderLength(ds, Holes());
    LossyMissing(ds, Holes(), c);
    var (t, h) := Run(WireAll(ds));
    assert ds[2].t == 2 by { ThirdNumber(ds, Holes()); }
    assert t.missing == {};
    NackedIsMissing(t, h);
  }

  lemma ThirdNumber(ds: seq<Delivery>, lost: set<nat>)
    requires InOrderBut(ds, lost)
    ensures ds[2].t == ds[0].t + 2
  {
    hide Delivered;
  }

  lemma BurstIsFound(ds: seq<Delivery>, c: nat)
    requires Bursty(ds, c) && |ds| == 4
    ensures WellBehavedSource(ds) && AsksForLate(Run(WireAll(ds)).0, c)
  {
    var (front, d) := (ds[..3], ds[3]);
    FrontBursty(ds, c);
    assert ds == front + [d];
    assert WellBehavedSource(front);
    hide Run, WireAll, Delivered, Admissible, InOrderBut, Follows, InWindow, WellBehavedSource, AsksForLate;
    NothingMissedYet(front, c);
    var t := Run(WireAll(front)).0;
    NextOfSource(front, d, Holes(), t);
    WellBehavedSnoc(front, d);
    FollowsSource(ds);
    BurstIsAsked(front, d, c);
  }

  lemma BurstFacts(front: seq<Delivery>, d: Delivery, c: nat)
    requires Bursty(front + [d], c) && |front| == 3
    ensures d.t == 2001 && front[0].t == 0 && Within(front, c) && InOrderBut(front + [d], Holes())
  {
    BurstEnd(front + [d], c);
    hide InOrderBut, Holes;
    var ds := front + [d];
    assert ds[3] == d && forall i :: 0 <= i < 3 ==> front[i] == ds[i];
  }

  lemma HolesBelow(missing: set<nat>, bound: int)
    requires forall n :: n in missing <==> 0 < n < bound && n in Holes()
    ensures bound == 1985 ==> missing == Open(2, 1985)
    ensures bound == SEQ_MOD + 1904 ==> missing == Holes()
  {
  }

  lemma BurstTracked(front: seq<Delivery>, d: Delivery, c: nat)
    requires Bursty(front + [d], c) && |front| == 3 && Follows(front + [d]) && Run(WireAll(front)).0.nacks == map[]
    ensures
      var u := Track(Run(WireAll(front)).0, Key(d.t)).0;
      u.missing == Open(2, 1985) && u.nacks == map[]
  {
    hide Run, WireAll, Track, InOrderBut, Follows, Invariant, Holes, Bursty, Within;
    BurstFacts(front, d, c);
    StillMissing(front, d, Holes(), c);
    var u := Track(Run(WireAll(front)).0, Key(d.t)).0;
    HolesBelow(u.missing, 1985);
    TrackSendsNone(Run(WireAll(front)).0, Key(d.t));
    assert u.nacks.Keys == {};
  }

  /** A step with NACKs on, before any can time out, as a step of a run. */
  lemma RunStepSoon(ds: seq<Delivery>, d: Delivery, c: nat)
    requires Within(ds, c) && d.nackLostPackets && Soon(d.now, c)
    ensures
      var u := Track(Run(WireAll(ds)).0, Key(d.t)).0;
      Run(WireAll(ds + [d])).0 == MarkAll(u, TopDown(Eligible(u), NackBudget(u)), d.now)
  {
    hide Run, WireAll, Track, Agrees, HistoryStep, HandlePacket, TrackHistory, MarkAll, TopDown, Eligible, NackBudget;
    DeliverSnoc(ds, d);
    RunSnoc(WireAll(ds), Wire(d));
    QuietSoon(ds, c);
    StepSoon(Run(WireAll(ds)).0, Run(WireAll(ds)).1, Wire(d), c);
  }

  lemma BurstIsAsked(front: seq<Delivery>, d: Delivery, c: nat)
    requires Bursty(front + [d], c) && |front| == 3 && Follows(front + [d]) && Run(WireAll(front)).0.nacks == map[]
    ensures AsksForLate(Run(WireAll(front + [d])).0, c)
  {
    hide Run, WireAll, Track, MarkAll, TopDown, Eligible, NackBudget, InOrderBut, Follows, AsksForLate, Invariant,
      Agrees, Holes;
    var ds := front + [d];
    assert d == ds[3];
    BurstTracked(front, d, c);
    FrontWithin(front, d, c);
    RunStepSoon(front, d, c);
    QuietSoon(ds, c);
    AgreesInvariant(Run(WireAll(ds)).0, Run(WireAll(ds)).1);
    LateAreAsked(Track(Run(WireAll(front)).0, Key(d.t)).0, Run(WireAll(ds)).0, c, d.now);
  }

  lemma BurstApart(t: Tracker, ds: seq<Delivery>, d: Delivery, c: nat)
    requires Bursty(ds + [d], c) && |ds| >= 3 && AsksForLate(t, c)
    ensures Apart(t.nacks, Delivered(ds) + {d.t})
  {
    DeliveredBounds(ds + [d], Holes());
    DeliverSnoc(ds, d);
    hide Delivered;
    assert (ds + [d])[|ds|] == d;
  }

  /** As long as the 64 NACKs are out, no other number is asked for. */
  lemma {:induction false} BurstGoesOn(ds: seq<Delivery>, c: nat)
    requires Bursty(ds, c) && |ds| >= 4
    ensures WellBehavedSource(ds) && AsksForLate(Run(WireAll(ds)).0, c)
  {
    hide Run, WireAll, Admissible, AsksForLate, WellBehavedSource, Bursty;
    if |ds| == 4 {
      BurstIsFound(ds, c);
    } else {
      var (front, d) := (ds[..|ds| - 1], ds[|ds| - 1]);
      assert ds == front + [d];
      FrontBursty(ds, c);
      BurstGoesOn(front, c);
      BurstStep(front, d, c);
      WellBehavedSnoc(front, d);
    }
  }

  lemma BurstStep(ds: seq<Delivery>, d: Delivery, c: nat)
    requires Bursty(ds + [d], c) && Bursty(ds, c) && |ds| >= 3 && WellBehavedSource(ds)
    requires AsksForLate(Run(WireAll(ds)).0, c)
    ensures Admissible(Run(WireAll(ds)).0, d.t) && AsksForLate(Run(WireAll(ds + [d])).0, c)
  {
    hide Run, WireAll, Agrees, Track, Delivered, Admissible, HistoryStep, HandlePacket, TrackHistory, InOrderBut,
      Follows, InWindow, WellBehavedSource;
    var (t, h) := Run(WireAll(ds));
    LossyMissing(ds, Holes(), c);
    NextOfSource(ds, d, Holes(), t);
    FollowsSource(ds);
    BurstSpares(ds, d, c);
    assert d == (ds + [d])[|ds|];
    RunStepSoon(ds, d, c);
    OpenSize(1920, 1985);
    assert |t.nacks| == |t.nacks.Keys| == 64;
  }

  lemma BurstSpares(ds: seq<Delivery>, d: Delivery, c: nat)
    requires Bursty(ds + [d], c) && |ds| >= 3 && Follows(ds)
    requires var t := Run(WireAll(ds)).0; AsksForLate(t, c) && InWindow(t.highestReceived, d.t)
    ensures Track(Run(WireAll(ds)).0, Key(d.t)).0.nacks == Run(WireAll(ds)).0.nacks
  {
    hide Run, WireAll, Agrees, Track, Delivered, Bursty, InWindow, Locked, AsksForLate;
    var (t, h) := Run(WireAll(ds));
    BurstApart(t, ds, d, c);
    TrackSparesNacks(t, h, d.t);
  }

  /** The burst and the late packet are missing, and 64 of the burst have been asked for. */
  ghost predicate Stuck(t: Tracker, h: History, c: nat) {
    && Agrees(t, h) && t.initialized && t.missing == Holes() && AsksForLate(t, c)
    && t.highestReceived == SEQ_MOD + 1920 && Apart(t.nacks, h.received)
  }

  lemma BurstGetsStuck(ds: seq<Delivery>, c: nat)
    requires Bursty(ds, c) && |ds| >= 4 && ds[|ds| - 1].t == SEQ_MOD + 1920
    ensures Stuck(Run(WireAll(ds)).0, Run(WireAll(ds)).1, c)
  {
    hide Run, WireAll, Agrees, Delivered, WellBehavedSource, AsksForLate, Locked, Holes, InOrderBut;
    BurstGoesOn(ds, c);
    LossyMissing(ds, Holes(), c);
    FollowsSource(ds);
    var (t, h) := Run(WireAll(ds));
    HolesBelow(t.missing, SEQ_MOD + 1904);
    StuckApart(t, ds, c);
  }

  lemma StuckApart(t: Tracker, ds: seq<Delivery>, c: nat)
    requires Bursty(ds, c) && AsksForLate(t, c)
    ensures Apart(t.nacks, Delivered(ds))
  {
    DeliveredBounds(ds, Holes());
  }

  /** A packet a cycle after one asked for: taken for it, and its NACK is gone. */
  lemma TakenForLate(t: Tracker, h: History, n: Seq16)
    requires Agrees(t, h) && t.initialized && Apart(t.nacks, h.received) && n in t.nacks && t.nacks[n].extendedSeq == n
    ensures
      var u := Track(t, n).0;
      && u.nacks == t.nacks - {n} && u.missing == t.missing - {n} && u.highestReceived == t.highestReceived
  {
    EvictedIsReceived(t, h);
    NackedIsMissing(t, h);
    hide Agrees, Apart;
    var v := t.(nacks := t.nacks - {n}, lostCount := Decrement(t.lostCount));
    assert n !in t.buffer;
    assert Key(n) == n;
    InsertSparesNacks(v, n);
    assert t.nacks - {n} - {n} == t.nacks - {n};
    if |t.buffer| >= BUFFER_SIZE { assert Least(t.buffer) !in t.missing; }
  }

  lemma OneIsTop(s: set<nat>, e: nat)
    requires e in s && forall x :: x in s ==> x <= e
    ensures TopDown(s, 1) == [e]
  {
    GreatestIs(s, e);
    assert TopDown(s - {e}, 0) == [];
  }

  /** The place that is free now goes to the late packet. */
  lemma FreePlaceGoesToLate(u: Tracker, now: nat)
    requires u.missing == Holes() - {1921} && u.nacks.Keys == LateInBurst() - {1921}
    ensures
      var w := MarkAll(u, TopDown(Eligible(u), NackBudget(u)), now);
      w == u.(nackCount := u.nackCount + 1, nacks := u.nacks[7 := Nack(SEQ_MOD + 7, now)])
  {
    OpenSize(1920, 1985);
    assert |u.nacks| == |u.nacks.Keys| == 63;
    assert Key(SEQ_MOD + 7) == 7;
    assert SEQ_MOD + 7 in Eligible(u);
    OneIsTop(Eligible(u), SEQ_MOD + 7);
    assert [SEQ_MOD + 7][1..] == [];
    assert MarkAll(u, [], now) == u;
  }

  /** Stuck, the tracker takes packet 67457 for 1921, and asks for 65543 in its place. */
  lemma StuckStep(ds: seq<Delivery>, d: Delivery, c: nat)
    requires Within(ds, c) && Stuck(Run(WireAll(ds)).0, Run(WireAll(ds)).1, c)
    requires d.t == SEQ_MOD + 1921 && d.nackLostPackets && Soon(d.now, c)
    ensures
      var (t, w) := (Run(WireAll(ds)).0, Run(WireAll(ds + [d])).0);
      && w.missing == Holes() - {1921} && w.highestReceived == SEQ_MOD + 1920
      && w.nacks == (t.nacks - {1921})[7 := Nack(SEQ_MOD + 7, d.now)]
  {
    hide Run, WireAll, Agrees, Track, MarkAll, TopDown, Eligible, NackBudget, Apart, Soon;
    var (t, h) := Run(WireAll(ds));
    assert Key(d.t) == 1921;
    TakenForLate(t, h, 1921);
    RunStepSoon(ds, d, c);
    var u := Track(t, 1921).0;
    assert u.nacks.Keys == LateInBurst() - {1921};
    FreePlaceGoesToLate(u, d.now);
  }

  /** A retransmit spares the NACK of a missing number less than two cycles below the highest. */
  lemma SparesSeven(w: Tracker)
    requires Invariant(w) && w.initialized && w.highestReceived < 2 * SEQ_MOD && 1922 in w.nacks
    requires 7 in w.missing && SEQ_MOD + 7 in w.missing && 7 in w.nacks && w.nacks[1922].extendedSeq == 1922
    ensures
      var u := Track(w, 1922).0;
      && 7 in u.nacks && u.nacks[7] == w.nacks[7]
      && forall n :: n in w.missing && n != 1922 ==> n in u.missing
  {
    if |w.buffer| >= BUFFER_SIZE {
      var oldest := Least(w.buffer);
      assert oldest <= w.highestReceived && oldest !in w.missing;
      assert Key(oldest) != 7;
    }
    assert Key(1922) == 1922;
  }

  /** The timeout is due: the late packet expires and stays, and 7 is erased. */
  lemma SevenIsErased(u: Tracker, sent: nat, now: nat)
    requires Invariant(u) && 7 in u.nacks && u.nacks[7] == Nack(SEQ_MOD + 7, sent) && now - sent >= NACK_TIMEOUT
    requires SEQ_MOD + 7 in u.missing && forall n :: 2 < n < 1921 ==> n in u.missing
    ensures 7 !in ExpiredNumbers(u, now) && SEQ_MOD + 7 in ExpiredNumbers(u, now)
    ensures var v := DropExpired(u, now); 7 !in v.missing && SEQ_MOD + 7 in v.missing
  {
    OpenSize(2, 1921);
    SubsetSize(Open(2, 1921), u.missing);
    assert 7 in Expired(u, now);
    assert forall k :: k in u.nacks ==> Key(u.nacks[k].extendedSeq) == k < SEQ_MOD;
  }

  /** Every run in which a long burst is lost at the beginning, and one packet of the next
      cycle, within one timeout; then two packets a cycle after packets that have been asked
      for, the second after the next timeout.  Before the poll 7 is missing and has not
      expired, and 65543 has; after it 65543 is missing and 7 is not. */
  lemma BurstErasesSeven(ds: seq<Delivery>, late: Delivery, d: Delivery, c: nat)
    requires Bursty(ds, c) && |ds| >= 4 && ds[|ds| - 1].t == SEQ_MOD + 1920
    requires late.t == SEQ_MOD + 1921 && late.nackLostPackets && Soon(late.now, c)
    requires d.t == SEQ_MOD + 1922 && d.nackLostPackets && d.now >= c + 2 * NACK_TIMEOUT
    ensures
      var es := ds + [late];
      var u := Track(Run(WireAll(es)).0, Key(d.t)).0;
      var (v, h) := Run(WireAll(es + [d]));
      && 7 in u.missing && 7 !in ExpiredNumbers(u, d.now) && SEQ_MOD + 7 in ExpiredNumbers(u, d.now)
      && 7 !in v.missing && SEQ_MOD + 7 in v.missing
  {
    hide Run, WireAll, Track, Stuck, Invariant, Agrees, DropExpired, TrackHistory, Expired, ExpiredNumbers, InOrderBut;
    var es := ds + [late];
    assert Key(d.t) == 1922;
    BurstGetsStuck(ds, c);
    var (t, (w, h)) := (Run(WireAll(ds)).0, Run(WireAll(es)));
    StuckStep(ds, late, c);
    hide Bursty, Within;
    StuckFacts(t, Run(WireAll(ds)).1, c);
    AgreesInvariant(w, h);
    assert w.initialized by { MissingMeansStarted(w); }
    SparesSeven(w);
    TrackAgrees(w, h, 1922);
    var u := Track(w, 1922).0;
    AgreesInvariant(u, TrackHistory(w, h, 1922));
    SevenIsErased(u, late.now, d.now);
    DeliverSnoc(es, d);
    RunSnoc(WireAll(es), Wire(d));
    MarkAllSpares(DropExpired(u, d.now), GetNackList(u, d.now).1, d.now);
  }

  lemma MissingMeansStarted(t: Tracker)
    requires Invariant(t) && t.missing != {}
    ensures t.initialized
  {
  }

  lemma StuckFacts(t: Tracker, h: History, c: nat)
    requires Stuck(t, h, c)
    ensures 1922 in t.nacks && t.nacks[1922].extendedSeq == 1922
  {
    hide Agrees, Apart;
  }

  // ---------------------------------------------------------------------------
  // Two such sources

  /** Numbers from 200 on, without the 64 from 65600. */
  ghost function RowSource(n: nat): seq<Delivery> {
    seq(n, i requires 0 <= i => Delivery(if 200 + i < 65600 then 200 + i else 264 + i, true, 0))
  }

  lemma RowSourceIs(ds: seq<Delivery>)
    requires |ds| >= 65420 && ds[|ds| - 1].t < 131000
    requires forall i :: 0 <= i < |ds| ==> ds[i].t == if 200 + i < 65600 then 200 + i else 264 + i
    ensures LosesRow(ds, 65600)
  {
    forall n | ds[0].t <= n <= ds[|ds| - 1].t ensures n in Delivered(ds) <==> n !in Row(65600) {
      if n !in Row(65600) {
        var i := if n < 65600 then n - 200 else n - 264;
        assert ds[i] in ds && ds[i].t == n;
      }
    }
  }

  /** One of them: 64 NACKs expire, and all 64 numbers stay missing. */
  lemma SecondCycleIsKept()
    ensures
      var (ds, d) := (RowSource(65437), Delivery(65701, true, 2 * NACK_TIMEOUT));
      var u := Track(Run(WireAll(ds)).0, Key(d.t)).0;
      && ExpiredNumbers(u, d.now) == Row(65600)
      && Run(WireAll(ds + [d])).0.missing == Row(65600)
  {
    hide Run, WireAll, Track, LosesRow;
    var (ds, d) := (RowSource(65437), Delivery(65701, true, 2 * NACK_TIMEOUT));
    RowSourceIs(ds);
    RowSourceIs(ds + [d]);
    ExpiredRowStays(ds, d, 65600, 0);
  }

  ghost function BurstNumber(i: nat): nat {
    if i < 3 then i else if i + 1998 < SEQ_MOD + 7 then i + 1998 else i + 1999
  }

  /** Numbers from 0 on, without 3 to 2000 and 65543. */
  ghost function BurstSource(): seq<Delivery> {
    seq(SEQ_MOD - 78, i requires 0 <= i => Delivery(BurstNumber(i), true, 0))
  }

  lemma BurstSourceIs(ds: seq<Delivery>)
    requires ds == BurstSource()
    ensures Bursty(ds, 0) && |ds| >= 4 && ds[|ds| - 1].t == SEQ_MOD + 1920
  {
    assert forall i :: 0 <= i < |ds| ==> ds[i] == Delivery(BurstNumber(i), true, 0);
    forall n | 0 <= n <= SEQ_MOD + 1920 ensures n in Delivered(ds) <==> n !in Holes() {
      BurstSourceDelivers(ds, n);
    }
    hide Delivered, Holes;
  }

  lemma BurstSourceDelivers(ds: seq<Delivery>, n: nat)
    requires ds == BurstSource() && n <= SEQ_MOD + 1920
    ensures n in Delivered(ds) <==> n !in Holes()
  {
    if n !in Holes() {
      var i := if n < 3 then n else if n < SEQ_MOD + 7 then n - 1998 else n - 1999;
      assert ds[i] in ds && ds[i].t == n;
    }
  }

  /** The other: 65543 expires and stays, and 7, which has not been asked for, is erased. */
  lemma TimeoutErasesAnother()
    ensures
      var es := BurstSource() + [Delivery(SEQ_MOD + 1921, true, 0)];
      var d := Delivery(SEQ_MOD + 1922, true, 2 * NACK_TIMEOUT);
      var u := Track(Run(WireAll(es)).0, Key(d.t)).0;
      var v := Run(WireAll(es + [d])).0;
      && 7 in u.missing && 7 !in ExpiredNumbers(u, d.now) && SEQ_MOD + 7 in ExpiredNumbers(u, d.now)
      && 7 !in v.missing && SEQ_MOD + 7 in v.missing
  {
    hide Run, WireAll, Track, Bursty, BurstSource;
    BurstSourceIs(BurstSource());
    var late := Delivery(SEQ_MOD + 1921, true, 0);
    BurstErasesSeven(BurstSource(), late, Delivery(SEQ_MOD + 1922, true, 2 * NACK_TIMEOUT), 0);
  }
}
