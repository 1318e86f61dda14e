/** src/Rtp/SequenceTracker.cpp: which RTP packets were lost, and which to ask for again.
    The functions say what each operation does to the tracker's state; the class below
    does it with the loops of the original and is proved against them. */
module SequenceTracking {
  import opened Collections
  import opened SequenceCounter

  const BUFFER_SIZE: nat := 2048
  const REORDER_DELTA: nat := 16
  const MAX_OUTSTANDING_NACKS: nat := 64
  const NACK_TIMEOUT: nat := 2000
  const U64_MOD: nat := 0x1_0000_0000_0000_0000

  datatype Nack = Nack(extendedSeq: nat, sentAt: nat)

  datatype Tracker = Tracker(
    counter: Counter,
    buffer: set<nat>,
    missing: set<nat>,
    nacks: map<nat, Nack>,
    initialized: bool,
    highestReceived: nat,
    highestChecked: nat,
    receivedCount: nat,
    missedCount: nat,
    nackCount: nat,
    lostCount: nat)

  const EMPTY := Tracker(INITIAL, {}, {}, map[], false, 0, 0, 0, 0, 0, 0)

  function Key(extendedSeq: nat): nat {
    extendedSeq % SEQ_MOD
  }

  function Evict(t: Tracker): Tracker {
    if |t.buffer| < BUFFER_SIZE then t
    else
      var oldest := Least(t.buffer);
      t.(buffer := t.buffer - {oldest}, missing := t.missing - {oldest}, nacks := t.nacks - {Key(oldest)})
  }

  function Insert(t: Tracker, e: nat): Tracker {
    if e in t.buffer then t
    else
      var u := Evict(t);
      u.(missing := u.missing - {e},
         nacks := u.nacks - {Key(e)},
         buffer := u.buffer + {e},
         receivedCount := u.receivedCount + 1)
  }

  /** The numbers given up as a dropout when, past the highest number `previous`, the next
      ones to be checked reach `upper`. */
  function Dropout(previous: nat, upper: nat): set<nat> {
    if upper - previous > MAX_DROPOUT then Open(previous, upper) else {}
  }

  function UpperBound(t: Tracker, e: nat): nat {
    Max(Max(t.highestReceived, e) - REORDER_DELTA, 0)
  }

  /** The numbers between `base` and `upper` that have not arrived, short of a dropout. */
  function Lost(base: nat, top: nat, upper: nat, buffer: set<nat>): set<nat> {
    Open(base, upper) - buffer - Dropout(top, upper)
  }

  /** The numbers that leave the reorder window on the arrival of `e` without having arrived. */
  function Overdue(t: Tracker, e: nat): set<nat> {
    Lost(t.highestChecked, t.highestReceived, UpperBound(t, e), t.buffer)
  }

  /** The first number of an epoch counts as checked. */
  function Begin(t: Tracker, e: nat): Tracker {
    if t.initialized then t else t.(initialized := true, highestChecked := e)
  }

  function CheckForMissing(t: Tracker, e: nat): Tracker {
    var u := Begin(t, e);
    if UpperBound(u, e) <= u.highestChecked + 1 then
      u.(highestReceived := Max(u.highestReceived, e))
    else
      u.(highestReceived := Max(u.highestReceived, e),
         highestChecked := UpperBound(u, e) - 1,
         missing := u.missing + Overdue(u, e),
         missedCount := u.missedCount + |Overdue(u, e)|,
         lostCount := u.lostCount + |Overdue(u, e)|)
  }

  function Resync(t: Tracker): Tracker {
    t.(initialized := false, buffer := {}, missing := {}, nacks := map[], highestReceived := 0, highestChecked := 0)
  }

  function TrackNewPacket(t: Tracker, n: Seq16): (Tracker, nat) {
    var (c, r) := Extend(t.counter, n);
    var u := (if r.resync then Resync(t) else t).(counter := c);
    (CheckForMissing(Insert(u, r.extendedSeq), r.extendedSeq), r.extendedSeq)
  }

  /** `lostCount--` on an unsigned 64-bit count. */
  function Decrement(count: nat): nat {
    if count == 0 then U64_MOD - 1 else count - 1
  }

  function Track(t: Tracker, n: Seq16): (Tracker, nat) {
    if n in t.nacks then
      var e := t.nacks[n].extendedSeq;
      (Insert(t.(nacks := t.nacks - {n}, lostCount := Decrement(t.lostCount)), e), e)
    else
      TrackNewPacket(t, n)
  }

  function MarkNackSent(t: Tracker, e: nat, now: nat): Tracker {
    t.(nackCount := t.nackCount + 1,
       nacks := if Key(e) in t.nacks then t.nacks else t.nacks[Key(e) := Nack(e, now)])
  }

  function Expired(t: Tracker, now: nat): set<nat> {
    if |t.missing| + |t.nacks| < MAX_OUTSTANDING_NACKS then {}
    else set k | k in t.nacks && now - t.nacks[k].sentAt >= NACK_TIMEOUT
  }

  /** The timeout part of GetNackList. */
  function DropExpired(t: Tracker, now: nat): Tracker {
    t.(missing := t.missing - Expired(t, now), nacks := t.nacks - Expired(t, now))
  }

  /** The numbers a NACK may be sent for. */
  function Eligible(t: Tracker): set<nat> {
    set e | e in t.missing && Key(e) !in t.nacks
  }

  /** The `count` greatest members of `s`, in descending order. */
  function TopDown(s: set<nat>, count: nat): seq<nat>
    decreases count
  {
    if s == {} || count == 0 then []
    else [Greatest(s)] + TopDown(s - {Greatest(s)}, count - 1)
  }

  function NackBudget(t: Tracker): nat {
    Max(MAX_OUTSTANDING_NACKS - |t.nacks|, 0)
  }

  function GetNackList(t: Tracker, now: nat): (Tracker, seq<nat>) {
    var u := DropExpired(t, now);
    (u, TopDown(Eligible(u), NackBudget(u)))
  }

  /** The caller marks the list from its end, oldest number first. */
  function MarkAll(t: Tracker, list: seq<nat>, now: nat): Tracker {
    if list == [] then t else MarkNackSent(MarkAll(t, list[1..], now), list[0], now)
  }

  /** What `handleMediaPacket` does with the tracker for one packet. */
  function HandlePacket(t: Tracker, n: Seq16, nackLostPackets: bool, now: nat): (Tracker, nat) {
    var (u, e) := Track(t, n);
    if nackLostPackets then
      var (v, list) := GetNackList(u, now);
      (MarkAll(v, list, now), e)
    else
      (u, e)
  }

  // ---------------------------------------------------------------------------
  // The invariant of the bounded structure

  ghost predicate NacksAreMissing(t: Tracker) {
    forall k :: k in t.nacks ==> Key(t.nacks[k].extendedSeq) == k && t.nacks[k].extendedSeq in t.missing
  }

  ghost predicate Marks(t: Tracker) {
    if t.initialized then
      && t.highestChecked <= t.highestReceived <= t.highestChecked + REORDER_DELTA + 1
      && t.highestReceived in t.buffer
      && (forall b :: b in t.buffer ==> b <= t.highestReceived)
      && (forall m :: m in t.missing ==> m <= t.highestChecked)
    else
      t.highestReceived == 0 && t.highestChecked == 0 && t.buffer == {} && t.missing == {}
  }

  ghost predicate Invariant(t: Tracker) {
    && WellFormed(t.counter)
    && |t.buffer| <= BUFFER_SIZE
    && Marks(t)
    && t.missing !! t.buffer
    && NacksAreMissing(t)
    && |t.nacks| <= MAX_OUTSTANDING_NACKS
    && |t.missing| <= t.lostCount
  }

  /** Eviction only takes what has been checked already. */
  lemma OldestIsChecked(t: Tracker)
    requires Marks(t) && |t.buffer| >= BUFFER_SIZE
    ensures Least(t.buffer) <= t.highestChecked && Least(t.buffer) < t.highestReceived
  {
    var oldest := Least(t.buffer);
    if oldest > t.highestChecked {
      IntervalSize(t.buffer, t.highestChecked, REORDER_DELTA + 1);
    }
    if oldest >= t.highestReceived {
      assert t.buffer <= {t.highestReceived};
      SubsetSize(t.buffer, {t.highestReceived});
    }
  }

  lemma FewerNacks(m: map<nat, Nack>, keys: set<nat>)
    ensures |m - keys| <= |m|
  {
    assert (m - keys).Keys == m.Keys - keys;
    SubsetSize(m.Keys - keys, m.Keys);
  }

  /** `u` differs from `t` only in buffer, missing, nacks and the count of packets. */
  ghost predicate SameMarks(t: Tracker, u: Tracker) {
    && u.counter == t.counter && u.initialized == t.initialized
    && u.highestReceived == t.highestReceived && u.highestChecked == t.highestChecked
    && u.missedCount == t.missedCount && u.nackCount == t.nackCount && u.lostCount == t.lostCount
  }

  lemma EvictEffect(t: Tracker)
    requires Marks(t) && t.missing !! t.buffer && NacksAreMissing(t) && |t.buffer| <= BUFFER_SIZE
    ensures
      var u := Evict(t);
      && SameMarks(t, u) && u.missing == t.missing && u.receivedCount == t.receivedCount
      && u.buffer <= t.buffer && |u.buffer| < BUFFER_SIZE
      && (forall b :: b in t.buffer && b > t.highestChecked ==> b in u.buffer)
      && (t.initialized ==> t.highestReceived in u.buffer)
      && NacksAreMissing(u) && |u.nacks| <= |t.nacks|
  {
    if |t.buffer| >= BUFFER_SIZE {
      OldestIsChecked(t);
      FewerNacks(t.nacks, {Key(Least(t.buffer))});
    }
  }

  lemma InsertContents(t: Tracker, e: nat)
    requires Marks(t) && t.missing !! t.buffer && NacksAreMissing(t) && |t.buffer| <= BUFFER_SIZE
    ensures
      var u := Insert(t, e);
      && SameMarks(t, u) && u.missing == t.missing - {e}
      && e in u.buffer && u.buffer <= t.buffer + {e} && |u.buffer| <= BUFFER_SIZE
      && (forall b :: b in t.buffer && b > t.highestChecked ==> b in u.buffer)
      && (t.initialized ==> t.highestReceived in u.buffer)
  {
    hide NacksAreMissing, Marks, Key;
    if e !in t.buffer {
      EvictEffect(t);
      hide Evict;
      assert |Evict(t).buffer + {e}| <= |Evict(t).buffer| + 1;
    } else {
      MarksHighest(t);
      assert t.missing - {e} == t.missing;
    }
  }

  lemma MarksHighest(t: Tracker)
    requires Marks(t)
    ensures t.initialized ==> t.highestReceived in t.buffer
  {
  }

  lemma InsertNacks(t: Tracker, e: nat)
    requires Marks(t) && t.missing !! t.buffer && NacksAreMissing(t) && |t.buffer| <= BUFFER_SIZE
    ensures NacksAreMissing(Insert(t, e)) && |Insert(t, e).nacks| <= |t.nacks|
  {
    if e !in t.buffer {
      EvictEffect(t);
      hide Evict, Marks, Key;
      var v := Evict(t);
      FewerNacks(v.nacks, {Key(e)});
      EnterKeepsNacks(v, e);
      hide NacksAreMissing;
      SameNacks(v.(missing := v.missing - {e}, nacks := v.nacks - {Key(e)}), Insert(t, e));
    }
  }

  lemma SameNacks(t: Tracker, u: Tracker)
    requires NacksAreMissing(t) && t.missing == u.missing && t.nacks == u.nacks
    ensures NacksAreMissing(u)
  {
  }

  lemma InsertEffect(t: Tracker, e: nat)
    requires Marks(t) && t.missing !! t.buffer && NacksAreMissing(t) && |t.buffer| <= BUFFER_SIZE
    ensures
      var u := Insert(t, e);
      && SameMarks(t, u) && u.missing == t.missing - {e}
      && e in u.buffer && u.buffer <= t.buffer + {e} && |u.buffer| <= BUFFER_SIZE
      && (forall b :: b in t.buffer && b > t.highestChecked ==> b in u.buffer)
      && (t.initialized ==> t.highestReceived in u.buffer)
      && NacksAreMissing(u) && |u.nacks| <= |t.nacks|
  {
    hide Insert, Marks, NacksAreMissing, SameMarks;
    InsertContents(t, e);
    InsertNacks(t, e);
  }

  /** Taking a number out of `missing` together with its NACK. */
  lemma EnterKeepsNacks(t: Tracker, e: nat)
    requires NacksAreMissing(t)
    ensures NacksAreMissing(t.(missing := t.missing - {e}, nacks := t.nacks - {Key(e)}))
  {
  }

  /** The marks just after Insert and before CheckForMissing. */
  ghost predicate Windowed(t: Tracker, e: nat) {
    e in t.buffer &&
    if t.initialized then
      && t.highestChecked <= t.highestReceived <= t.highestChecked + REORDER_DELTA + 1
      && t.highestReceived in t.buffer
      && (forall b :: b in t.buffer ==> b <= t.highestReceived || b == e)
    else
      t.highestReceived == 0 && t.highestChecked == 0 && t.buffer == {e}
  }

  ghost predicate Inserted(t: Tracker, e: nat) {
    && WellFormed(t.counter)
    && |t.buffer| <= BUFFER_SIZE
    && Windowed(t, e)
    && t.missing !! t.buffer
    && (forall m :: m in t.missing ==> t.initialized && m <= t.highestChecked)
    && NacksAreMissing(t)
    && |t.nacks| <= MAX_OUTSTANDING_NACKS
    && |t.missing| <= t.lostCount
  }

  lemma InsertIsInserted(t: Tracker, e: nat)
    requires Invariant(t)
    ensures Inserted(Insert(t, e), e)
  {
    InsertEffect(t, e);
    SubsetSize(t.missing - {e}, t.missing);
  }

  lemma CheckKeepsInvariant(t: Tracker, e: nat)
    requires Inserted(t, e)
    ensures Invariant(CheckForMissing(t, e))
  {
    var u := if t.initialized then t else t.(initialized := true, highestChecked := e);
    if UpperBound(u, e) > u.highestChecked + 1 {
      assert u.missing !! Overdue(u, e);
    }
  }

  lemma TrackNewKeepsInvariant(t: Tracker, n: Seq16)
    requires Invariant(t)
    ensures Invariant(TrackNewPacket(t, n).0)
  {
    var (c, r) := Extend(t.counter, n);
    ExtendKeepsWellFormed(t.counter, n);
    var u := (if r.resync then Resync(t) else t).(counter := c);
    assert Invariant(u);
    InsertIsInserted(u, r.extendedSeq);
    CheckKeepsInvariant(Insert(u, r.extendedSeq), r.extendedSeq);
  }

  /** A NACKed number counts as lost, so `lostCount--` does not wrap. */
  lemma NackedIsLost(t: Tracker, n: Seq16)
    requires Invariant(t) && n in t.nacks
    ensures 0 < |t.missing| <= t.lostCount
    ensures |t.missing - {t.nacks[n].extendedSeq}| == |t.missing| - 1
  {
  }

  lemma RetransmitKeepsInvariant(t: Tracker, n: Seq16)
    requires Invariant(t) && n in t.nacks
    ensures Invariant(Track(t, n).0)
  {
    hide Insert;
    var e := t.nacks[n].extendedSeq;
    var u := t.(nacks := t.nacks - {n}, lostCount := Decrement(t.lostCount));
    NackedIsLost(t, n);
    FewerNacks(t.nacks, {n});
    InsertEffect(u, e);
    var v := Insert(u, e);
    assert Marks(v);
  }

  lemma TrackKeepsInvariant(t: Tracker, n: Seq16)
    requires Invariant(t)
    ensures Invariant(Track(t, n).0)
  {
    if n in t.nacks {
      RetransmitKeepsInvariant(t, n);
    } else {
      TrackNewKeepsInvariant(t, n);
    }
  }

  // ---------------------------------------------------------------------------
  // NACK lists

  /** `list` holds the greatest members of `s`, in descending order: all of them, or else
      `count` of them, every one above every member left out. */
  ghost predicate IsTop(s: set<nat>, count: nat, list: seq<nat>) {
    && |list| <= count
    && (forall i, j :: 0 <= i < j < |list| ==> list[i] > list[j])
    && (forall e :: e in list ==> e in s)
    && (forall e :: e in s && e !in list ==> |list| == count && forall x :: x in list ==> e < x)
  }

  lemma TopCons(s: set<nat>, count: nat, m: nat, rest: seq<nat>)
    requires m in s && forall x :: x in s ==> x <= m
    requires IsTop(s - {m}, count, rest)
    ensures IsTop(s, count + 1, [m] + rest)
  {
    var list := [m] + rest;
    forall i, j | 0 <= i < j < |list| ensures list[i] > list[j] {
      assert list[j] == rest[j - 1] && rest[j - 1] in rest;
      if i > 0 { assert list[i] == rest[i - 1]; }
    }
    forall e | e in s && e !in list ensures |list| == count + 1 && forall x :: x in list ==> e < x {
      assert e != m && e !in rest;
    }
  }

  lemma {:induction false} TopDownIsTop(s: set<nat>, count: nat)
    ensures IsTop(s, count, TopDown(s, count))
    decreases count
  {
    if s != {} && count != 0 {
      TopDownIsTop(s - {Greatest(s)}, count - 1);
      TopCons(s, count - 1, Greatest(s), TopDown(s - {Greatest(s)}, count - 1));
    }
  }

  /** The description leaves no choice. */
  lemma {:induction false} TopIsUnique(s: set<nat>, count: nat, a: seq<nat>, b: seq<nat>)
    requires IsTop(s, count, a) && IsTop(s, count, b)
    ensures a == b
    decreases count
  {
    assert a != [] ==> a[0] in s;
    assert b != [] ==> b[0] in s;
    if a != [] && b != [] {
      TopHead(s, count, a);
      TopHead(s, count, b);
      assert a[0] == b[0];
      TopIsUnique(s - {a[0]}, count - 1, a[1..], b[1..]);
      assert a == [a[0]] + a[1..] && b == [b[0]] + b[1..];
    }
  }

  lemma TopHead(s: set<nat>, count: nat, list: seq<nat>)
    requires IsTop(s, count, list) && list != []
    ensures list[0] in s && forall e :: e in s ==> e <= list[0]
    ensures IsTop(s - {list[0]}, count - 1, list[1..])
  {
    assert list[0] in list && forall e :: e in list <==> e == list[0] || e in list[1..];
    forall e | e in s ensures e <= list[0] {
      if e in list {
        var i :| 0 <= i < |list| && list[i] == e;
        assert i == 0 || list[0] > list[i];
      }
    }
  }

  /** A timeout erases its 16-bit key from `missing`; no other NACK's number is that key. */
  lemma ExpiredKeysAreNotNacked(t: Tracker, now: nat)
    requires NacksAreMissing(t)
    ensures NacksAreMissing(DropExpired(t, now))
  {
    var u := DropExpired(t, now);
    forall k | k in u.nacks ensures u.nacks[k].extendedSeq in u.missing {
      var e := t.nacks[k].extendedSeq;
      assert e in t.nacks ==> Key(e) == e;
    }
  }

  lemma DropExpiredKeepsInvariant(t: Tracker, now: nat)
    requires Invariant(t)
    ensures Invariant(DropExpired(t, now))
  {
    ExpiredKeysAreNotNacked(t, now);
    FewerNacks(t.nacks, Expired(t, now));
    SubsetSize(t.missing - Expired(t, now), t.missing);
  }

  lemma {:induction false} MarkAllKeepsInvariant(t: Tracker, list: seq<nat>, now: nat)
    requires Invariant(t) && |list| <= NackBudget(t) && forall e :: e in list ==> e in t.missing
    ensures
      var u := MarkAll(t, list, now);
      && Invariant(u) && |u.nacks| <= |t.nacks| + |list|
      && u == t.(nacks := u.nacks, nackCount := t.nackCount + |list|)
  {
    if list != [] {
      MarkAllKeepsInvariant(t, list[1..], now);
      var u := MarkAll(t, list[1..], now);
      assert list[0] in u.missing;
    }
  }

  lemma PollKeepsInvariant(t: Tracker, now: nat)
    requires Invariant(t)
    ensures
      var (u, list) := GetNackList(t, now);
      && Invariant(u) && IsTop(Eligible(u), NackBudget(u), list)
      && (forall e :: e in list ==> e in u.missing)
      && Invariant(MarkAll(u, list, now))
  {
    var (u, list) := GetNackList(t, now);
    DropExpiredKeepsInvariant(t, now);
    TopDownIsTop(Eligible(u), NackBudget(u));
    MarkAllKeepsInvariant(u, list, now);
  }

  lemma PacketKeepsInvariant(t: Tracker, n: Seq16, nackLostPackets: bool, now: nat)
    requires Invariant(t)
    ensures Invariant(HandlePacket(t, n, nackLostPackets, now).0)
  {
    TrackKeepsInvariant(t, n);
    PollKeepsInvariant(Track(t, n).0, now);
  }

  // ---------------------------------------------------------------------------
  // The walk over the gaps between buffered numbers

  /** What one call of checkGap marks as missing. */
  function Marked(begin: nat, end: nat): set<nat> {
    if end - begin > MAX_DROPOUT then {} else Open(begin, end)
  }

  /** The numbers below `last` that the walk has found absent. */
  function Unseen(base: nat, buffer: set<nat>, last: nat): set<nat> {
    Open(base, last) - buffer
  }

  /** `todo` is what is left of the walk after `last`. */
  ghost predicate Ahead(buffer: set<nat>, last: nat, upper: nat, todo: set<nat>) {
    forall b :: b in todo <==> b in buffer && last < b <= upper
  }

  /** Between neighbours in the buffer nothing is given up: all are near highestChecked. */
  lemma GapStep(base: nat, buffer: set<nat>, upper: nat, last: nat, todo: set<nat>)
    requires todo != {} && Ahead(buffer, last, upper, todo)
    requires base <= last < Least(todo) <= base + MAX_DROPOUT
    requires last == base || last in buffer
    ensures
      var next := Least(todo);
      && Ahead(buffer, next, upper, todo - {next})
      && Unseen(base, buffer, next) == Unseen(base, buffer, last) + Marked(last, next)
      && |Unseen(base, buffer, next)| == |Unseen(base, buffer, last)| + |Marked(last, next)|
  {
    var next := Least(todo);
    forall n: nat
      ensures n in Unseen(base, buffer, next) <==> n in Unseen(base, buffer, last) + Marked(last, next)
    {
      assert n in Marked(last, next) <==> last < n < next;
      assert last < n < next ==> n !in buffer;
    }
    DisjointUnionSize(Unseen(base, buffer, last), Marked(last, next));
  }

  /** Only the last gap, above the highest number before, can be a dropout. */
  lemma FinalGap(base: nat, top: nat, upper: nat, buffer: set<nat>, last: nat)
    requires base <= top <= base + REORDER_DELTA + 1 && top in buffer
    requires base <= last <= upper && last <= top && (last == base || last in buffer)
    requires Ahead(buffer, last, upper, {})
    ensures Lost(base, top, upper, buffer) == Unseen(base, buffer, last) + Marked(last, upper)
    ensures |Lost(base, top, upper, buffer)| == |Unseen(base, buffer, last)| + |Marked(last, upper)|
  {
    if top <= upper {
      assert top !in {};
      assert last == top;
    }
    forall n: nat
      ensures n in Lost(base, top, upper, buffer) <==> n in Unseen(base, buffer, last) + Marked(last, upper)
    {
      assert n !in {};
    }
    assert Lost(base, top, upper, buffer) == Unseen(base, buffer, last) + Marked(last, upper);
    DisjointUnionSize(Unseen(base, buffer, last), Marked(last, upper));
  }

  lemma TopDownStep(eligible: set<nat>, rest: set<nat>, count: nat)
    requires rest != {} && count > 0
    ensures TopDown(eligible * rest, count) ==
            if Greatest(rest) in eligible
            then [Greatest(rest)] + TopDown(eligible * (rest - {Greatest(rest)}), count - 1)
            else TopDown(eligible * (rest - {Greatest(rest)}), count)
  {
    var e := Greatest(rest);
    if e in eligible {
      assert e in eligible * rest;
      assert Greatest(eligible * rest) == e;
      assert eligible * rest - {e} == eligible * (rest - {e});
    } else {
      assert eligible * rest == eligible * (rest - {e});
    }
  }

  lemma TopDownDone(eligible: set<nat>, rest: set<nat>, count: nat)
    requires rest == {} || count == 0
    ensures TopDown(eligible * rest, count) == []
  {
  }

  lemma MinusStep(missing: set<nat>, nacks: map<nat, Nack>, gone: set<nat>, keys: set<nat>, key: nat)
    requires key in keys
    ensures
      var (before, after) := (gone - keys, gone - (keys - {key}));
      if key in gone then
        missing - after == missing - before - {key} && nacks - after == nacks - before - {key}
      else
        after == before
  {
    assert gone - (keys - {key}) == (gone - keys) + (if key in gone then {key} else {});
  }

  // ---------------------------------------------------------------------------
  // The tracker as it is programmed

  class SequenceTracker {
    const counter: ExtendedSequenceCounter
    var buffer: set<nat>
    var missing: set<nat>
    var nacks: map<nat, Nack>
    var initialized: bool
    var highestReceived: nat
    var highestChecked: nat
    var receivedCount: nat
    var missedCount: nat
    var nackCount: nat
    var lostCount: nat

    function View(): Tracker
      reads this, counter
    {
      Tracker(counter.View(), buffer, missing, nacks, initialized, highestReceived, highestChecked,
              receivedCount, missedCount, nackCount, lostCount)
    }

    ghost predicate Valid()
      reads this, counter
    {
      Invariant(View())
    }

    constructor ()
      ensures View() == EMPTY && Valid() && fresh(counter)
    {
      counter := new ExtendedSequenceCounter();
      buffer, missing, nacks := {}, {}, map[];
      initialized, highestReceived, highestChecked := false, 0, 0;
      receivedCount, missedCount, nackCount, lostCount := 0, 0, 0, 0;
    }

    method TrackPacket(n: Seq16) returns (e: nat)
      requires Valid()
      modifies this, counter
      ensures Valid() && (View(), e) == Track(old(View()), n)
    {
      TrackKeepsInvariant(View(), n);
      if n in nacks {
        var nack := nacks[n];
        nacks := nacks - {n};
        TrackRetransmit(nack);
        return nack.extendedSeq;
      }
      e := TrackNew(n);
    }

    method TrackRetransmit(nack: Nack)
      modifies this
      ensures View() == Insert(old(View()).(lostCount := Decrement(old(lostCount))), nack.extendedSeq)
    {
      lostCount := Decrement(lostCount);
      InsertPacket(nack.extendedSeq);
    }

    method TrackNew(n: Seq16) returns (e: nat)
      requires Valid()
      modifies this, counter
      ensures (View(), e) == TrackNewPacket(old(View()), n)
    {
      ghost var t := View();
      ExtendKeepsWellFormed(t.counter, n);
      var r := counter.ExtendSeq(n);
      if r.resync {
        ResyncAll();
      }
      InsertIsInserted(View(), r.extendedSeq);
      InsertPacket(r.extendedSeq);
      CheckMissing(r.extendedSeq);
      e := r.extendedSeq;
    }

    method InsertPacket(e: nat)
      modifies this
      ensures View() == Insert(old(View()), e)
    {
      if e in buffer {
        return;
      }
      if |buffer| >= BUFFER_SIZE {
        var oldest := Least(buffer);
        missing := missing - {oldest};
        nacks := nacks - {Key(oldest)};
        buffer := buffer - {oldest};
      }
      missing := missing - {e};
      nacks := nacks - {Key(e)};
      buffer := buffer + {e};
      receivedCount := receivedCount + 1;
    }

    method ResyncAll()
      modifies this
      ensures View() == Resync(old(View()))
    {
      initialized := false;
      buffer, missing, nacks := {}, {}, map[];
      highestReceived, highestChecked := 0, 0;
    }

    method CheckMissing(e: nat)
      requires Windowed(View(), e)
      modifies this
      ensures View() == CheckForMissing(old(View()), e)
    {
      hide Key;
      if !initialized {
        highestChecked := e;
        initialized := true;
      }
      assert View() == Begin(old(View()), e);
      CheckFrom(e);
    }

    method CheckFrom(e: nat)
      requires initialized && (Windowed(View(), e) || (highestReceived == 0 && highestChecked == e))
      modifies this`highestReceived, this`highestChecked, this`missing, this`missedCount, this`lostCount
      ensures View() == CheckForMissing(old(View()), e)
    {
      hide Key;
      ghost var t := View();
      if e > highestReceived {
        highestReceived := e;
      }
      var lowerBound := highestChecked + 1;
      var upperBound := if highestReceived > REORDER_DELTA then highestReceived - REORDER_DELTA else 0;
      if upperBound <= lowerBound {
        return;
      }
      assert upperBound == UpperBound(t, e);
      ghost var lost := Overdue(t, e);
      assert lost == Lost(highestChecked, t.highestReceived, upperBound, buffer);
      hide Overdue, Lost;
      WalkGaps(lowerBound, upperBound, t.highestReceived, lost);
      assert missing == t.missing + lost && missedCount == t.missedCount + |lost| && lostCount == t.lostCount + |lost|;
      highestChecked := upperBound - 1;
    }

    /** The loop of checkForMissing: from each buffered number to the next. */
    method WalkGaps(lowerBound: nat, upperBound: nat, ghost top: nat, ghost lost: set<nat>)
      requires lowerBound == highestChecked + 1 < upperBound
      requires highestChecked <= top <= highestChecked + REORDER_DELTA + 1 && top in buffer
      requires forall b :: b in buffer && b <= upperBound ==> b <= top
      requires lost == Lost(highestChecked, top, upperBound, buffer)
      modifies this`missing, this`missedCount, this`lostCount
      ensures missing == old(missing) + lost
      ensures missedCount == old(missedCount) + |lost| && lostCount == old(lostCount) + |lost|
    {
      var base, entries := highestChecked, buffer;
      var last: nat := base;
      var todo: set<nat> := set b | b in entries && lowerBound <= b <= upperBound;
      while todo != {}
        invariant Ahead(entries, last, upperBound, todo)
        invariant base <= last <= upperBound && last <= top && (last == base || last in entries)
        invariant missing == old(missing) + Unseen(base, entries, last)
        invariant missedCount == old(missedCount) + |Unseen(base, entries, last)|
        invariant lostCount == old(lostCount) + |Unseen(base, entries, last)|
        decreases upperBound - last
      {
        var next := Least(todo);
        GapStep(base, entries, upperBound, last, todo);
        UnionAssociates(old(missing), Unseen(base, entries, last), Marked(last, next));
        CheckGap(last, next);
        todo := todo - {next};
        last := next;
      }
      FinalGap(base, top, upperBound, entries, last);
      UnionAssociates(old(missing), Unseen(base, entries, last), Marked(last, upperBound));
      CheckGap(last, upperBound);
    }

    method CheckGap(begin: nat, end: nat)
      modifies this`missing, this`missedCount, this`lostCount
      ensures missing == old(missing) + Marked(begin, end)
      ensures missedCount == old(missedCount) + |Marked(begin, end)|
      ensures lostCount == old(lostCount) + |Marked(begin, end)|
    {
      var delta := end - begin;
      if delta == 1 || delta < 0 {
        assert Marked(begin, end) == {};
      } else if delta > MAX_DROPOUT {
        assert Marked(begin, end) == {};
      } else {
        assert Open(begin, end) == Marked(begin, end);
        MarkGap(begin, end);
      }
    }

    /** Marks all numbers in the gap as missing, if any. */
    method MarkGap(begin: nat, end: nat)
      modifies this`missing, this`missedCount, this`lostCount
      ensures missing == old(missing) + Open(begin, end)
      ensures missedCount == old(missedCount) + |Open(begin, end)|
      ensures lostCount == old(lostCount) + |Open(begin, end)|
    {
      var s := begin + 1;
      ghost var gap: set<nat> := {};
      assert Open(begin, s) == gap;
      while s < end
        invariant begin < s <= Max(begin + 1, end)
        invariant gap == Open(begin, s)
        invariant missing == old(missing) + gap
        invariant missedCount == old(missedCount) + |gap| && lostCount == old(lostCount) + |gap|
      {
        OpenStep(begin, s);
        UnionAssociates(old(missing), gap, {s});
        MissedPacket(s);
        gap := gap + {s};
        s := s + 1;
      }
      assert Open(begin, end) == gap;
    }

    method MissedPacket(e: nat)
      modifies this`missing, this`missedCount, this`lostCount
      ensures missing == old(missing) + {e}
      ensures missedCount == old(missedCount) + 1 && lostCount == old(lostCount) + 1
    {
      missing := missing + {e};
      missedCount := missedCount + 1;
      lostCount := lostCount + 1;
    }

    method NackList(now: nat) returns (toNack: seq<nat>)
      requires Valid()
      modifies this
      ensures Valid() && (View(), toNack) == GetNackList(old(View()), now)
      ensures IsTop(Eligible(View()), NackBudget(View()), toNack)
    {
      hide Invariant, DropExpired, Eligible, NackBudget, TopDown, IsTop;
      PollKeepsInvariant(View(), now);
      TimeOutNacks(now);
      toNack := LatestMissing();
    }

    /** The first half of GetNackList. */
    method TimeOutNacks(now: nat)
      modifies this`missing, this`nacks
      ensures View() == DropExpired(old(View()), now)
    {
      ghost var expired := Expired(View(), now);
      if |missing| + |nacks| >= MAX_OUTSTANDING_NACKS {
        EraseExpired(now, expired);
      } else {
        assert missing - {} == missing && nacks - {} == nacks;
      }
    }

    /** The loop over the outstanding NACKs. */
    method EraseExpired(now: nat, ghost expired: set<nat>)
      requires expired == set k | k in nacks && now - nacks[k].sentAt >= NACK_TIMEOUT
      modifies this`missing, this`nacks
      ensures missing == old(missing) - expired && nacks == old(nacks) - expired
    {
      var keys := nacks.Keys;
      while keys != {}
        invariant keys <= old(nacks).Keys
        invariant missing == old(missing) - (expired - keys) && nacks == old(nacks) - (expired - keys)
        decreases |keys|
      {
        var key := Least(keys);
        MinusStep(old(missing), old(nacks), expired, keys, key);
        if now - nacks[key].sentAt >= NACK_TIMEOUT {
          missing := missing - {key};
          nacks := nacks - {key};
        }
        keys := keys - {key};
      }
      assert expired - keys == expired;
    }

    /** The second half of GetNackList. */
    method LatestMissing() returns (toNack: seq<nat>)
      ensures toNack == TopDown(Eligible(View()), NackBudget(View()))
    {
      hide TopDown, Key;
      toNack := CollectLatest(Eligible(View()), NackBudget(View()));
    }

    /** The loop over `missing` from its end. */
    method CollectLatest(ghost eligible: set<nat>, ghost budget: nat) returns (toNack: seq<nat>)
      requires budget == Max(MAX_OUTSTANDING_NACKS - |nacks|, 0)
      requires forall e :: e in eligible <==> e in missing && Key(e) !in nacks
      ensures toNack == TopDown(eligible, budget)
    {
      hide TopDown, Key;
      toNack := [];
      var rest := missing;
      assert eligible * rest == eligible;
      while rest != {} && |toNack| + |nacks| < MAX_OUTSTANDING_NACKS
        invariant rest <= missing
        invariant |toNack| <= budget
        invariant toNack + TopDown(eligible * rest, budget - |toNack|) == TopDown(eligible, budget)
        decreases |rest|
      {
        TopDownStep(eligible, rest, budget - |toNack|);
        var e := Greatest(rest);
        if Key(e) !in nacks {
          ConcatAssociates(toNack, [e], TopDown(eligible * (rest - {e}), budget - |toNack| - 1));
          toNack := toNack + [e];
        }
        rest := rest - {e};
      }
      TopDownDone(eligible, rest, budget - |toNack|);
    }

    method MarkSent(e: nat, now: nat)
      modifies this`nacks, this`nackCount
      ensures View() == MarkNackSent(old(View()), e, now)
    {
      nackCount := nackCount + 1;
      if Key(e) !in nacks {
        nacks := nacks[Key(e) := Nack(e, now)];
      }
    }

    /** The loop over the NACK list in FtlMediaConnection::handleMediaPacket. */
    method MarkListSent(list: seq<nat>, now: nat)
      modifies this`nacks, this`nackCount
      ensures View() == MarkAll(old(View()), list, now)
    {
      ghost var t := View();
      var i := |list|;
      while i > 0
        invariant 0 <= i <= |list|
        invariant View() == MarkAll(t, list[i..], now)
      {
        i := i - 1;
        MarkSent(list[i], now);
        assert list[i..][1..] == list[i + 1..];
      }
      assert list[0..] == list;
    }

    /** The tracker's part of FtlMediaConnection::handleMediaPacket. */
    method HandleMediaPacket(n: Seq16, nackLostPackets: bool, now: nat) returns (e: nat)
      requires Valid()
      modifies this, counter
      ensures Valid() && (View(), e) == HandlePacket(old(View()), n, nackLostPackets, now)
    {
      e := TrackPacket(n);
      if nackLostPackets {
        PollKeepsInvariant(View(), now);
        var list := NackList(now);
        MarkListSent(list, now);
      }
    }
  }
}
