/** When every outstanding NACK was sent, and what the counts of a tracker count, in every run
    on any packets and any clock. */
module NackProvenance {
  import opened Collections
  import opened SequenceCounter
  import opened SequenceTracking
  import opened SequenceHistory
  import opened SequenceTimeouts

  ghost predicate Holds(t: Tracker, k: nat, nack: Nack) {
    k in t.nacks && t.nacks[k] == nack
  }

  /** The tracker while packet `i` is handled, when timed-out NACKs are gone and none has been
      sent yet. */
  ghost function AtPoll(ps: seq<Packet>, i: nat): Tracker
    requires i < |ps|
  {
    DropExpired(Track(Run(ps[..i]).0, ps[i].n).0, ps[i].now)
  }

  /** The NACK was sent when packet `i` was handled, for a number missing then, and has stayed
      ever since. */
  ghost predicate SentBy(ps: seq<Packet>, i: nat, k: nat, nack: Nack) {
    && i < |ps| && ps[i].nackLostPackets && ps[i].now == nack.sentAt
    && k !in AtPoll(ps, i).nacks
    && nack.extendedSeq in Eligible(AtPoll(ps, i)) && Key(nack.extendedSeq) == k
    && forall j :: i < j <= |ps| ==> Holds(Run(ps[..j]).0, k, nack)
  }

  /** What the caller's loop over the list leaves of a NACK, and what it adds. */
  lemma {:induction false} MarkAllSends(t: Tracker, list: seq<nat>, now: nat, k: nat)
    ensures
      var u := MarkAll(t, list, now);
      && (k in t.nacks ==> Holds(u, k, t.nacks[k]))
      && (k in u.nacks && k !in t.nacks ==>
            u.nacks[k].sentAt == now && u.nacks[k].extendedSeq in list && Key(u.nacks[k].extendedSeq) == k)
  {
    hide Key;
    if list != [] { MarkAllSends(t, list[1..], now, k); }
  }

  /** One packet: a NACK held afterwards was held before, or was sent by this packet. */
  lemma StepSends(t: Tracker, p: Packet, k: nat)
    ensures
      var (u, w) := (Track(t, p.n).0, HandlePacket(t, p.n, p.nackLostPackets, p.now).0);
      var v := DropExpired(u, p.now);
      k in w.nacks ==>
        || Holds(t, k, w.nacks[k])
        || (&& p.nackLostPackets && w.nacks[k].sentAt == p.now && k !in v.nacks
            && w.nacks[k].extendedSeq in Eligible(v) && Key(w.nacks[k].extendedSeq) == k)
  {
    hide Track, Expired, Eligible, TopDown, NackBudget, Key, MarkAll;
    TrackSendsNone(t, p.n);
    if p.nackLostPackets {
      var (v, list) := GetNackList(Track(t, p.n).0, p.now);
      TopDownIsTop(Eligible(v), NackBudget(v));
      MarkAllSends(v, list, p.now, k);
    }
  }

  lemma SentBefore(ps: seq<Packet>, p: Packet, i: nat, k: nat, nack: Nack)
    requires SentBy(ps, i, k, nack) && Holds(Run(ps + [p]).0, k, nack)
    ensures SentBy(ps + [p], i, k, nack)
  {
    hide Run, DropExpired, Track, Eligible, Holds;
    var all := ps + [p];
    assert all[..i] == ps[..i];
    assert all[..|all|] == all;
    assert forall j :: i < j <= |ps| ==> all[..j] == ps[..j];
  }

  lemma SentNow(ps: seq<Packet>, p: Packet, k: nat)
    requires
      var (v, w) := (DropExpired(Track(Run(ps).0, p.n).0, p.now), Run(ps + [p]).0);
      && p.nackLostPackets && k in w.nacks && w.nacks[k].sentAt == p.now && k !in v.nacks
      && w.nacks[k].extendedSeq in Eligible(v) && Key(w.nacks[k].extendedSeq) == k
    ensures SentBy(ps + [p], |ps|, k, Run(ps + [p]).0.nacks[k])
  {
    hide Run, DropExpired, Track, Eligible;
    var all := ps + [p];
    assert all[..|ps|] == ps && all[..|all|] == all;
  }

  /** In every run, every outstanding NACK was sent by one packet of it, whose clock it bears. */
  lemma {:induction false} NacksAreSent(ps: seq<Packet>, k: nat)
    requires k in Run(ps).0.nacks
    ensures exists i :: SentBy(ps, i, k, Run(ps).0.nacks[k])
    decreases |ps|
  {
    hide Track, HandlePacket, HistoryStep, Agrees, DropExpired, Eligible, SentBy;
    assert ps != [] by { NothingSentYet(ps); }
    var (front, p) := (ps[..|ps| - 1], ps[|ps| - 1]);
    assert ps == front + [p];
    RunSnoc(front, p);
    hide Run;
    var nack := Run(ps).0.nacks[k];
    StepSends(Run(front).0, p, k);
    if Holds(Run(front).0, k, nack) {
      NacksAreSent(front, k);
      var i :| SentBy(front, i, k, nack);
      SentBefore(front, p, i, k, nack);
    } else {
      SentNow(front, p, k);
    }
  }

  lemma NothingSentYet(ps: seq<Packet>)
    ensures ps == [] ==> Run(ps).0.nacks == map[]
  {
    hide HandlePacket, HistoryStep, Agrees;
  }

  /** A NACK times out at a packet exactly when at least 64 numbers are missing or asked for
      and the packet that sent it came at least the timeout before. */
  lemma ExpiresIff(ps: seq<Packet>, p: Packet, k: nat, i: nat)
    requires k in Track(Run(ps).0, p.n).0.nacks && k in Run(ps).0.nacks
    requires SentBy(ps, i, k, Run(ps).0.nacks[k])
    ensures
      var u := Track(Run(ps).0, p.n).0;
      k in Expired(u, p.now) <==>
        |u.missing| + |u.nacks| >= MAX_OUTSTANDING_NACKS && p.now - ps[i].now >= NACK_TIMEOUT
  {
    hide Run, Track, AtPoll, Eligible;
    TrackSendsNone(Run(ps).0, p.n);
  }

  lemma StepErases(t: Tracker, h: History, p: Packet, n: nat)
    requires Agrees(t, h) && n in HistoryStep(t, h, p).erased && n !in h.erased
    ensures n in Expired(Track(t, p.n).0, p.now)
  {
    hide Track, Expired, Agrees, OverdueAt, Extend;
  }

  /** A NACK under the key `k` is outstanding, sent by a packet at least the timeout before `now`. */
  ghost predicate AskedInTime(ps: seq<Packet>, k: nat, now: nat) {
    k in Run(ps).0.nacks &&
    exists i :: 0 <= i < |ps| && now - ps[i].now >= NACK_TIMEOUT && SentBy(ps, i, k, Run(ps).0.nacks[k])
  }

  /** What a timeout takes out of `missing` are low 16 bits of numbers that an earlier packet
      has asked for, at least the timeout before. */
  lemma ErasedWasAskedFor(ps: seq<Packet>, p: Packet, n: nat)
    requires n in Run(ps + [p]).1.erased && n !in Run(ps).1.erased
    ensures AskedInTime(ps, n, p.now)
  {
    hide Track, HandlePacket, HistoryStep, Agrees, SentBy, Expired;
    RunSnoc(ps, p);
    hide Run;
    StepErases(Run(ps).0, Run(ps).1, p, n);
    ExpiredWasAskedFor(ps, p, n);
  }

  lemma ExpiredWasAskedFor(ps: seq<Packet>, p: Packet, n: nat)
    requires n in Expired(Track(Run(ps).0, p.n).0, p.now)
    ensures AskedInTime(ps, n, p.now)
  {
    hide Track, Run, SentBy;
    TrackSendsNone(Run(ps).0, p.n);
    NacksAreSent(ps, n);
    hide Expired;
    var i :| SentBy(ps, i, n, Run(ps).0.nacks[n]);
    SentInRun(ps, i, n, Run(ps).0.nacks[n]);
    ExpiresIff(ps, p, n, i);
  }

  lemma SentInRun(ps: seq<Packet>, i: nat, k: nat, nack: Nack)
    requires SentBy(ps, i, k, nack)
    ensures i < |ps|
  {
  }

  // ---------------------------------------------------------------------------
  // How long a NACK is outstanding

  /** The packet's number is new to a full buffer, which makes room for it. */
  ghost predicate Evicts(t: Tracker, n: Seq16) {
    |t.buffer| >= BUFFER_SIZE && !ArrivalOf(t, n).First? && ArrivalOf(t, n).e !in t.buffer
  }

  /** What Track takes out of the NACKs: the one the packet answers, all of them when tracking
      starts over, and the one with the low 16 bits of a number that is evicted. */
  ghost predicate Loses(t: Tracker, n: Seq16, k: nat) {
    n == k || ArrivalOf(t, n).First? || (Evicts(t, n) && k == Key(Least(t.buffer)))
  }

  lemma TrackLosesIff(t: Tracker, n: Seq16, k: nat)
    requires Invariant(t) && k in t.nacks
    ensures Holds(Track(t, n).0, k, t.nacks[k]) <==> !Loses(t, n, k)
  {
    NacksMeanStarted(t, k);
    if n in t.nacks { AnswerLosesIff(t, n, k); } else { NewLosesIff(t, n, k); }
  }

  lemma NacksMeanStarted(t: Tracker, k: nat)
    requires Invariant(t) && k in t.nacks
    ensures t.initialized && t.nacks[k].extendedSeq !in t.buffer && Key(t.nacks[k].extendedSeq) == k
  {
  }

  lemma InsertLosesIff(t: Tracker, e: nat, k: nat)
    requires k in t.nacks
    ensures Holds(Insert(t, e), k, t.nacks[k]) <==>
            e in t.buffer || (k != Key(e) && (|t.buffer| < BUFFER_SIZE || k != Key(Least(t.buffer))))
  {
    hide Key;
  }

  lemma AnswerLosesIff(t: Tracker, n: Seq16, k: nat)
    requires Invariant(t) && k in t.nacks && n in t.nacks
    ensures Holds(Track(t, n).0, k, t.nacks[k]) <==> !Loses(t, n, k)
  {
    NacksMeanStarted(t, n);
    hide Insert, Invariant, Key;
    var u := t.(nacks := t.nacks - {n}, lostCount := Decrement(t.lostCount));
    if k != n {
      InsertLosesIff(u, t.nacks[n].extendedSeq, k);
    } else {
      InsertSendsNone(u, t.nacks[n].extendedSeq, k);
    }
  }

  lemma InsertSendsNone(t: Tracker, e: nat, k: nat)
    requires k !in t.nacks
    ensures k !in Insert(t, e).nacks
  {
    hide Key;
  }

  lemma NewLosesIff(t: Tracker, n: Seq16, k: nat)
    requires Invariant(t) && k in t.nacks && n !in t.nacks && t.initialized
    ensures Holds(Track(t, n).0, k, t.nacks[k]) <==> !Loses(t, n, k)
  {
    ExtendKeepsWellFormed(t.counter, n);
    hide Insert, Invariant, CheckForMissing, Extend;
    var (c, r) := Extend(t.counter, n);
    var u := (if r.resync then Resync(t) else t).(counter := c);
    CheckSendsNone(Insert(u, r.extendedSeq), r.extendedSeq);
    if r.resync { InsertSendsNone(u, r.extendedSeq, k); } else { InsertLosesIff(u, r.extendedSeq, k); }
  }

  /** In every state: a NACK stays as it is until a packet answers it, tracking starts over, the
      number evicted has its low 16 bits, or a poll finds it timed out; and then it is gone,
      unless the poll asks again. */
  lemma NackStaysIff(t: Tracker, p: Packet, k: nat)
    requires Invariant(t) && k in t.nacks
    ensures
      var (u, w) := (Track(t, p.n).0, HandlePacket(t, p.n, p.nackLostPackets, p.now).0);
      var v := if p.nackLostPackets then DropExpired(u, p.now) else u;
      && (Holds(v, k, t.nacks[k]) <==> !Loses(t, p.n, k) && !(p.nackLostPackets && k in Expired(u, p.now)))
      && (Holds(v, k, t.nacks[k]) ==> Holds(w, k, t.nacks[k]))
      && (!p.nackLostPackets ==> w == u)
  {
    hide Invariant, Loses, Track, Eligible, TopDown, NackBudget, MarkAll, Expired;
    TrackLosesIff(t, p.n, k);
    if p.nackLostPackets {
      var (v, list) := GetNackList(Track(t, p.n).0, p.now);
      MarkAllSends(v, list, p.now, k);
    }
  }

  // ---------------------------------------------------------------------------
  // The counts

  /** Packets whose number is already in the buffer. */
  ghost function Repeats(ps: seq<Packet>): nat {
    if ps == [] then 0
    else
      var (front, p) := (ps[..|ps| - 1], ps[|ps| - 1]);
      var t := Run(front).0;
      Repeats(front) + if !ArrivalOf(t, p.n).First? && ArrivalOf(t, p.n).e in t.buffer then 1 else 0
  }

  /** Requests for a retransmission, over all polls. */
  ghost function Requests(ps: seq<Packet>): nat {
    if ps == [] then 0
    else
      var (front, p) := (ps[..|ps| - 1], ps[|ps| - 1]);
      Requests(front) +
      if p.nackLostPackets then |GetNackList(Track(Run(front).0, p.n).0, p.now).1| else 0
  }

  lemma {:induction false} MarkAllCounts(t: Tracker, list: seq<nat>, now: nat)
    ensures MarkAll(t, list, now).nackCount == t.nackCount + |list|
    ensures MarkAll(t, list, now).receivedCount == t.receivedCount
  {
    hide Key;
    if list != [] { MarkAllCounts(t, list[1..], now); }
  }

  lemma TrackCounts(t: Tracker, n: Seq16)
    requires !t.initialized ==> t.buffer == {}
    ensures
      var (u, a) := (Track(t, n).0, ArrivalOf(t, n));
      && u.nackCount == t.nackCount
      && u.receivedCount == t.receivedCount + if !a.First? && a.e in t.buffer then 0 else 1
  {
    hide Extend, Overdue, UpperBound, Key;
  }

  /** In every run the packets are those counted as received and those already in the buffer,
      and the NACK count is the number of requests. */
  lemma {:induction false} CountsAreTrue(ps: seq<Packet>)
    ensures Run(ps).0.receivedCount + Repeats(ps) == |ps| && Run(ps).0.nackCount == Requests(ps)
  {
    hide Track, HistoryStep, Agrees, DropExpired, TopDown, ArrivalOf, Eligible, NackBudget, MarkAll;
    if ps != [] {
      var (front, p) := (ps[..|ps| - 1], ps[|ps| - 1]);
      CountsAreTrue(front);
      var t := Run(front).0;
      EmptyBefore(t, Run(front).1);
      TrackCounts(t, p.n);
      var u := Track(t, p.n).0;
      SameCounts(u, p.now);
      MarkAllCounts(DropExpired(u, p.now), GetNackList(u, p.now).1, p.now);
    }
  }

  lemma SameCounts(t: Tracker, now: nat)
    ensures DropExpired(t, now).nackCount == t.nackCount && DropExpired(t, now).receivedCount == t.receivedCount
  {
    hide Expired;
  }

  lemma EmptyBefore(t: Tracker, h: History)
    requires Agrees(t, h)
    ensures !t.initialized ==> t.buffer == {}
  {
  }

  // ---------------------------------------------------------------------------
  // NACKs lost to an eviction

  /** When the full buffer makes room, a NACK is forgotten if its number has the same low 16
      bits as the one evicted, and no other; its number stays missing, so that the next poll
      may ask for it again. */
  lemma EvictionForgetsNack(t: Tracker, e: nat, k: nat)
    requires Invariant(t) && |t.buffer| >= BUFFER_SIZE && e !in t.buffer && k in t.nacks && k != Key(e)
    ensures
      var (u, evicted) := (Insert(t, e), Least(t.buffer));
      && evicted !in u.buffer && e in u.buffer
      && (k !in u.nacks <==> k == Key(evicted))
      && (k in u.nacks ==> u.nacks[k] == t.nacks[k])
      && (k !in u.nacks ==> t.nacks[k].extendedSeq in Eligible(u))
  {
    assert t.buffer != {};
    var (u, m) := (Insert(t, e), t.nacks[k].extendedSeq);
    assert m in t.missing && Key(m) == k;
    assert m != e && m != Least(t.buffer);
  }
}
