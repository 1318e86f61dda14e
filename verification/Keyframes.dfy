/** src/FtlMediaConnection.cpp: collecting the packets of the latest complete video keyframe. */
module Keyframes {
  import opened Collections
  import opened RtpPackets
  import opened H264Depacketizer

  /** An RTP packet under its extended sequence number. */
  datatype Received = Received(bytes: Bytes, ext: nat)

  /** Long enough for a header, which claims no more than the packet holds. */
  type Packet = p: Received | |p.bytes| >= 12 && GetPayload(p.bytes).Inside?
    witness Received(seq(12, _ => 0), 0)

  function Carried(p: Packet): Bytes {
    GetPayload(p.bytes).bytes
  }

  function When(p: Packet): nat {
    Timestamp(p.bytes)
  }

  predicate EndsFrame(p: Packet) {
    HasMarker(p.bytes)
  }

  datatype Frame = Frame(packets: seq<Packet>, timestamp: nat)

  datatype Capture = Capture(current: Frame, pending: Frame)

  const NOTHING: Capture := Capture(Frame([], 0), Frame([], 0))

  /** Parameter sets and keyframes, whole or in fragments. */
  predicate IsKeyframePart(payload: Bytes) {
    |payload| >= 2 &&
    var nalType := payload[0] % 32;
    || nalType in {5, 7, 8}
    || (nalType in {28, 29} && payload[1] % 32 in {5, 7})
  }

  /** Behind the last packet with a smaller number. */
  function Insert(ps: seq<Packet>, p: Packet): seq<Packet> {
    if ps == [] || ps[|ps| - 1].ext < p.ext then ps + [p]
    else Insert(ps[..|ps| - 1], p) + [ps[|ps| - 1]]
  }

  predicate Complete(ps: seq<Packet>) {
    && ps != []
    && EndsFrame(ps[|ps| - 1])
    && forall i :: 0 <= i < |ps| ==> ps[i].ext == ps[0].ext + i
  }

  function TakePart(c: Capture, p: Packet): Capture {
    if When(p) == c.pending.timestamp then
      c.(pending := c.pending.(packets := Insert(c.pending.packets, p)))
    else
      Capture(if Complete(c.pending.packets) then c.pending else c.current, Frame([p], When(p)))
  }

  function Take(c: Capture, p: Packet): Capture {
    if IsKeyframePart(Carried(p)) then TakePart(c, p) else c
  }

  // ---------------------------------------------------------------------------
  // As programmed

  method InsertPacketInSequenceOrder(packets: seq<Packet>, p: Packet) returns (r: seq<Packet>)
    ensures r == Insert(packets, p)
  {
    if |packets| == 0 {
      return [p];
    }
    var i: nat := |packets|;
    assert packets[..i] == packets && packets[i..] == [];
    assert Insert(packets, p) + [] == Insert(packets, p);
    while i > 0
      invariant i <= |packets|
      invariant Insert(packets, p) == Insert(packets[..i], p) + packets[i..]
    {
      if p.ext > packets[i - 1].ext {
        return packets[..i] + [p] + packets[i..];
      }
      InsertStep(packets, p, i);
      i := i - 1;
    }
    assert packets[..0] == [] && packets[0..] == packets;
    return [p] + packets;
  }

  lemma InsertStep(ps: seq<Packet>, p: Packet, i: nat)
    requires 0 < i <= |ps| && ps[i - 1].ext >= p.ext
    ensures Insert(ps[..i], p) + ps[i..] == Insert(ps[..i - 1], p) + ps[i - 1..]
  {
    assert ps[..i][..i - 1] == ps[..i - 1];
    assert Insert(ps[..i], p) == Insert(ps[..i - 1], p) + [ps[i - 1]];
    ConcatAssociates(Insert(ps[..i - 1], p), [ps[i - 1]], ps[i..]);
    assert [ps[i - 1]] + ps[i..] == ps[i - 1..];
  }

  method IsComplete(packets: seq<Packet>) returns (r: bool)
    ensures r <==> Complete(packets)
  {
    if |packets| == 0 {
      return false;
    }
    if !EndsFrame(packets[|packets| - 1]) {
      return false;
    }
    var seqNum := packets[0].ext;
    for i := 0 to |packets|
      invariant seqNum == packets[0].ext + i
      invariant forall j :: 0 <= j < i ==> packets[j].ext == packets[0].ext + j
    {
      if seqNum != packets[i].ext {
        return false;
      }
      seqNum := seqNum + 1;
    }
    return true;
  }

  class KeyframeStore {
    var currentKeyframe: Frame
    var pendingKeyframe: Frame

    function View(): Capture
      reads this
    {
      Capture(currentKeyframe, pendingKeyframe)
    }

    constructor ()
      ensures View() == NOTHING
    {
      currentKeyframe, pendingKeyframe := Frame([], 0), Frame([], 0);
    }

    method CaptureH264VideoKeyframe(p: Packet)
      modifies this
      ensures View() == Take(old(View()), p)
    {
      hide Insert, Complete, Carried, When;
      var payload := Carried(p);
      if |payload| < 2 {
        return;
      }
      var isKeyframePart := false;
      var nalType := payload[0] % 32;
      if nalType == 7 || nalType == 8 {
        isKeyframePart := true;
      } else if nalType == 5 {
        isKeyframePart := true;
      } else if nalType == 28 || nalType == 29 {
        var fragmentType := payload[1] % 32;
        if fragmentType == 7 || fragmentType == 5 {
          isKeyframePart := true;
        }
      }
      if !isKeyframePart {
        return;
      }
      StorePart(p);
    }

    method StorePart(p: Packet)
      modifies this
      ensures View() == TakePart(old(View()), p)
    {
      hide Complete, When;
      if When(p) != pendingKeyframe.timestamp {
        var complete := IsComplete(pendingKeyframe.packets);
        if complete {
          currentKeyframe, pendingKeyframe := pendingKeyframe, currentKeyframe;
        }
        pendingKeyframe := Frame([], When(p));
      }
      var packets := InsertPacketInSequenceOrder(pendingKeyframe.packets, p);
      pendingKeyframe := pendingKeyframe.(packets := packets);
    }
  }

  // ---------------------------------------------------------------------------
  // Packets in order

  ghost predicate Ascending(ps: seq<Packet>) {
    forall i, j :: 0 <= i < j < |ps| ==> ps[i].ext <= ps[j].ext
  }

  /** No two different packets under one number. */
  ghost predicate Unambiguous(ps: seq<Packet>) {
    forall p, q :: p in ps && q in ps && p.ext == q.ext ==> p == q
  }

  /** Inserted one after the other, as they arrive. */
  function InOrder(ps: seq<Packet>): seq<Packet> {
    if ps == [] then [] else Insert(InOrder(ps[..|ps| - 1]), ps[|ps| - 1])
  }

  lemma Split(ps: seq<Packet>)
    requires ps != []
    ensures ps == ps[..|ps| - 1] + [ps[|ps| - 1]]
    ensures multiset(ps) == multiset(ps[..|ps| - 1]) + multiset{ps[|ps| - 1]}
    ensures multiset(ps[..|ps| - 1]) == multiset(ps) - multiset{ps[|ps| - 1]}
  {
    assert ps == ps[..|ps| - 1] + [ps[|ps| - 1]];
  }

  lemma {:induction false} InsertAdds(ps: seq<Packet>, p: Packet)
    ensures |Insert(ps, p)| == |ps| + 1
    ensures multiset(Insert(ps, p)) == multiset(ps) + multiset{p}
  {
    if ps != [] && ps[|ps| - 1].ext >= p.ext {
      InsertAdds(ps[..|ps| - 1], p);
      Split(ps);
    }
  }

  lemma AscendingSnoc(ps: seq<Packet>, p: Packet)
    requires Ascending(ps) && (ps == [] || ps[|ps| - 1].ext <= p.ext)
    ensures Ascending(ps + [p])
  {
  }

  lemma {:induction false} InsertAscends(ps: seq<Packet>, p: Packet)
    requires Ascending(ps)
    ensures Ascending(Insert(ps, p)) && |Insert(ps, p)| == |ps| + 1
    ensures var last := Insert(ps, p)[|ps|]; last == p || (ps != [] && last == ps[|ps| - 1])
  {
    if ps == [] || ps[|ps| - 1].ext < p.ext {
      AscendingSnoc(ps, p);
    } else {
      var (front, last) := (ps[..|ps| - 1], ps[|ps| - 1]);
      InsertAscends(front, p);
      hide Ascending;
      AscendingSnoc(Insert(front, p), last);
    }
  }

  lemma {:induction false} InOrderSorts(ps: seq<Packet>)
    ensures Ascending(InOrder(ps)) && multiset(InOrder(ps)) == multiset(ps)
  {
    if ps != [] {
      hide Ascending, Insert;
      var front := ps[..|ps| - 1];
      InOrderSorts(front);
      InsertAscends(InOrder(front), ps[|ps| - 1]);
      InsertAdds(InOrder(front), ps[|ps| - 1]);
      Split(ps);
    }
  }

  lemma SameMembers(a: seq<Packet>, b: seq<Packet>)
    requires multiset(a) == multiset(b)
    ensures |a| == |b|
    ensures forall p :: p in a <==> p in b
  {
    assert |multiset(a)| == |a| && |multiset(b)| == |b|;
    forall p: Packet ensures p in a <==> p in b {
      assert p in a <==> p in multiset(a);
      assert p in b <==> p in multiset(b);
    }
  }

  lemma SameLast(a: seq<Packet>, b: seq<Packet>)
    requires a != [] && Ascending(a) && Ascending(b) && Unambiguous(a) && multiset(a) == multiset(b)
    ensures |a| == |b| && a[|a| - 1] == b[|b| - 1]
  {
    SameMembers(a, b);
    var (x, y) := (a[|a| - 1], b[|b| - 1]);
    assert x in b && y in a;
    var i :| 0 <= i < |b| && b[i] == x;
    var j :| 0 <= j < |a| && a[j] == y;
    assert x.ext <= y.ext && y.ext <= x.ext;
  }

  lemma FrontInOrder(a: seq<Packet>)
    requires a != [] && Ascending(a) && Unambiguous(a)
    ensures Ascending(a[..|a| - 1]) && Unambiguous(a[..|a| - 1])
  {
    assert forall p :: p in a[..|a| - 1] ==> p in a;
  }

  /** There is only one way to put packets in order. */
  lemma {:induction false} OrderIsUnique(a: seq<Packet>, b: seq<Packet>)
    requires Ascending(a) && Ascending(b) && Unambiguous(a) && Unambiguous(b) && multiset(a) == multiset(b)
    ensures a == b
  {
    hide Ascending, Unambiguous;
    SameMembers(a, b);
    if a != [] {
      SameLast(a, b);
      Split(a);
      Split(b);
      FrontInOrder(a);
      FrontInOrder(b);
      OrderIsUnique(a[..|a| - 1], b[..|b| - 1]);
    }
  }

  /** The frame collected does not depend on the order of arrival. */
  lemma ArrivalOrderIsIrrelevant(a: seq<Packet>, b: seq<Packet>)
    requires Unambiguous(a) && multiset(a) == multiset(b)
    ensures InOrder(a) == InOrder(b)
  {
    InOrderSorts(a);
    InOrderSorts(b);
    SameMembers(a, InOrder(a));
    SameMembers(a, InOrder(b));
    hide InOrder;
    OrderIsUnique(InOrder(a), InOrder(b));
  }

  lemma CompleteAscends(ps: seq<Packet>)
    requires Complete(ps)
    ensures Ascending(ps) && Unambiguous(ps)
  {
    forall p, q | p in ps && q in ps && p.ext == q.ext ensures p == q {
      var i :| 0 <= i < |ps| && ps[i] == p;
      var j :| 0 <= j < |ps| && ps[j] == q;
      assert ps[i].ext == ps[0].ext + i && ps[j].ext == ps[0].ext + j;
    }
  }

  /** The number of some packet. */
  ghost predicate Numbered(ps: seq<Packet>, n: int) {
    exists p :: p in ps && p.ext == n
  }

  /** As many numbers in a row as there are packets: nothing lost, nothing twice. */
  ghost predicate CoversFrom(ps: seq<Packet>, lo: nat) {
    forall n :: lo <= n < lo + |ps| ==> Numbered(ps, n)
  }

  lemma FrontCovers(ps: seq<Packet>, lo: nat)
    requires ps != [] && Ascending(ps) && CoversFrom(ps, lo)
    ensures CoversFrom(ps[..|ps| - 1], lo)
  {
    var (front, last) := (ps[..|ps| - 1], ps[|ps| - 1]);
    var top := lo + |ps| - 1;
    assert Numbered(ps, top);
    var q :| q in ps && q.ext == top;
    assert last.ext >= top;
    forall n | lo <= n < lo + |front| ensures Numbered(front, n) {
      assert Numbered(ps, n);
      var p :| p in ps && p.ext == n;
      assert p in front;
    }
  }

  lemma {:induction false} CoveringIsConsecutive(ps: seq<Packet>, lo: nat)
    requires Ascending(ps) && CoversFrom(ps, lo)
    ensures forall i :: 0 <= i < |ps| ==> ps[i].ext == lo + i
  {
    if ps != [] {
      var (front, last) := (ps[..|ps| - 1], ps[|ps| - 1]);
      FrontCovers(ps, lo);
      CoveringIsConsecutive(front, lo);
      var top := lo + |front|;
      assert Numbered(ps, top);
      var q :| q in ps && q.ext == top;
      assert q !in front;
      Split(ps);
    }
  }

  /** The packets of a frame that starts at `lo`, the highest of which ends it. */
  ghost predicate Finished(ps: seq<Packet>, lo: nat) {
    ps != [] && CoversFrom(ps, lo) && forall p :: p in ps && p.ext == lo + |ps| - 1 ==> EndsFrame(p)
  }

  lemma FinishedIsComplete(ps: seq<Packet>, lo: nat)
    requires Ascending(ps) && Finished(ps, lo)
    ensures Complete(ps)
  {
    hide EndsFrame, Ascending, CoversFrom;
    CoveringIsConsecutive(ps, lo);
    assert ps[|ps| - 1] in ps;
  }

  lemma CompleteIsFinished(ps: seq<Packet>)
    requires Complete(ps)
    ensures Finished(ps, ps[0].ext)
  {
    hide EndsFrame;
    var lo := ps[0].ext;
    forall n | lo <= n < lo + |ps| ensures Numbered(ps, n) {
      assert ps[n - lo] in ps && ps[n - lo].ext == n;
    }
  }

  lemma SameFinished(a: seq<Packet>, b: seq<Packet>, lo: nat)
    requires multiset(a) == multiset(b) && Finished(a, lo)
    ensures Finished(b, lo)
  {
    hide EndsFrame;
    SameMembers(a, b);
    forall n | lo <= n < lo + |b| ensures Numbered(b, n) {
      assert Numbered(a, n);
    }
  }

  lemma NotEmpty(ps: seq<Packet>)
    requires Complete(ps)
    ensures ps != []
  {
  }

  /** Packets make a complete frame exactly when their numbers are that many in a row and the
      highest ends the frame; the order of arrival is of no matter, a packet twice spoils it. */
  lemma CompleteIff(ps: seq<Packet>)
    ensures Complete(InOrder(ps)) <==> exists lo :: Finished(ps, lo)
  {
    hide Complete, Finished, InOrder, Ascending;
    InOrderSorts(ps);
    if Complete(InOrder(ps)) {
      NotEmpty(InOrder(ps));
      CompleteIsFinished(InOrder(ps));
      SameFinished(InOrder(ps), ps, InOrder(ps)[0].ext);
    }
    if exists lo :: Finished(ps, lo) {
      var lo :| Finished(ps, lo);
      SameFinished(ps, InOrder(ps), lo);
      FinishedIsComplete(InOrder(ps), lo);
    }
  }

  // ---------------------------------------------------------------------------
  // Every run

  function TakeAll(c: Capture, ps: seq<Packet>): Capture {
    if ps == [] then c else Take(TakeAll(c, ps[..|ps| - 1]), ps[|ps| - 1])
  }

  /** The parts of keyframes among the packets. */
  function Parts(ps: seq<Packet>): seq<Packet> {
    if ps == [] then []
    else
      var p := ps[|ps| - 1];
      Parts(ps[..|ps| - 1]) + if IsKeyframePart(Carried(p)) then [p] else []
  }

  /** The longest tail of one timestamp. */
  function Tail(ps: seq<Packet>): seq<Packet> {
    if ps == [] then []
    else if |ps| > 1 && When(ps[|ps| - 2]) == When(ps[|ps| - 1]) then Tail(ps[..|ps| - 1]) + [ps[|ps| - 1]]
    else [ps[|ps| - 1]]
  }

  /** A frame ends at n: the timestamp changes, and what came before it is complete. */
  predicate FrameEnds(ps: seq<Packet>, n: int) {
    && 0 < n < |ps|
    && When(ps[n]) != When(ps[n - 1])
    && Complete(InOrder(Tail(ps[..n])))
  }

  /** The frame collected when n parts have come in. */
  function FrameAt(ps: seq<Packet>, n: int): Frame {
    if 0 < n <= |ps| then Frame(InOrder(Tail(ps[..n])), When(ps[n - 1])) else NOTHING.pending
  }

  /** The frame that ended last, if any has. */
  ghost predicate IsLatest(ps: seq<Packet>, f: Frame) {
    || (f == NOTHING.current && forall n :: !FrameEnds(ps, n))
    || (exists n :: FrameEnds(ps, n) && f == FrameAt(ps, n) && forall m :: n < m ==> !FrameEnds(ps, m))
  }

  ghost predicate IsPending(ps: seq<Packet>, f: Frame) {
    f == FrameAt(ps, |ps|)
  }

  lemma FrameEndsBefore(ps: seq<Packet>, p: Packet, n: int)
    requires n < |ps|
    ensures FrameEnds(ps + [p], n) == FrameEnds(ps, n)
    ensures FrameAt(ps + [p], n) == FrameAt(ps, n)
  {
    if 0 < n { assert (ps + [p])[..n] == ps[..n]; }
  }

  lemma TailEnds(ps: seq<Packet>, p: Packet)
    requires ps != []
    ensures Tail(ps + [p]) == if When(p) == When(ps[|ps| - 1]) then Tail(ps) + [p] else [p]
  {
    assert (ps + [p])[..|ps|] == ps;
  }

  lemma Alone(p: Packet)
    ensures InOrder([p]) == [p]
  {
    assert [p][..0] == [];
    assert InOrder([p]) == Insert([], p);
  }

  lemma PendingStep(ps: seq<Packet>, c: Capture, p: Packet)
    requires IsPending(ps, c.pending)
    ensures IsPending(ps + [p], TakePart(c, p).pending)
  {
    hide Insert, When, Complete;
    var qs := ps + [p];
    assert qs[..|qs|] == qs && ps[..|ps|] == ps;
    Alone(p);
    if ps == [] {
      assert qs == [p];
      assert Insert([], p) == [p] by { assert [p][..0] == []; }
    } else {
      TailEnds(ps, p);
      assert (Tail(ps) + [p])[..|Tail(ps)|] == Tail(ps);
    }
  }

  /** When a part comes in, a frame ends before it exactly if the pending one is replaced
      while it is complete. */
  lemma FrameEndsNow(ps: seq<Packet>, c: Capture, p: Packet)
    requires IsPending(ps, c.pending)
    ensures FrameEnds(ps + [p], |ps|) <==> When(p) != c.pending.timestamp && Complete(c.pending.packets)
    ensures FrameEnds(ps + [p], |ps|) ==> FrameAt(ps + [p], |ps|) == c.pending
  {
    hide Insert, When, InOrder, Tail;
    if ps != [] {
      assert (ps + [p])[..|ps|] == ps == ps[..|ps|];
    }
  }

  lemma LatestStep(ps: seq<Packet>, c: Capture, p: Packet)
    requires IsPending(ps, c.pending) && IsLatest(ps, c.current)
    ensures IsLatest(ps + [p], TakePart(c, p).current)
  {
    hide FrameEnds, FrameAt, When, Complete, Insert, IsPending;
    var qs := ps + [p];
    FrameEndsNow(ps, c, p);
    forall n: int | n < |ps| ensures FrameEnds(qs, n) == FrameEnds(ps, n) {
      FrameEndsBefore(ps, p, n);
    }
    forall n: int | n > |ps| ensures !FrameEnds(qs, n) {
      NoFrameEndsAfter(qs, n);
    }
    forall n: int | n >= |ps| ensures !FrameEnds(ps, n) {
      NoFrameEndsAfter(ps, n);
    }
    if !FrameEnds(qs, |ps|) && exists n :: FrameEnds(ps, n) {
      var n :| FrameEnds(ps, n) && c.current == FrameAt(ps, n) && forall m :: n < m ==> !FrameEnds(ps, m);
      FrameEndsBefore(ps, p, n);
      assert FrameEnds(qs, n) && c.current == FrameAt(qs, n);
    }
  }

  lemma NoFrameEndsAfter(ps: seq<Packet>, n: int)
    requires n >= |ps| || n <= 0
    ensures !FrameEnds(ps, n)
  {
  }

  lemma {:induction false} OnlyPartsCount(c: Capture, ps: seq<Packet>)
    ensures TakeAll(c, ps) == TakeAll(c, Parts(ps))
  {
    hide IsKeyframePart, Carried, TakePart;
    if ps != [] {
      var (front, p) := (ps[..|ps| - 1], ps[|ps| - 1]);
      OnlyPartsCount(c, front);
      if IsKeyframePart(Carried(p)) {
        assert (Parts(front) + [p])[..|Parts(front)|] == Parts(front);
      } else {
        assert Parts(ps) == Parts(front) + [] == Parts(front);
      }
    }
  }

  lemma {:induction false} PartsAreParts(ps: seq<Packet>)
    ensures forall p :: p in Parts(ps) ==> IsKeyframePart(Carried(p))
  {
    hide IsKeyframePart, Carried;
    if ps != [] {
      PartsAreParts(ps[..|ps| - 1]);
    }
  }

  lemma {:induction false} PartsRun(ps: seq<Packet>)
    requires forall p :: p in ps ==> IsKeyframePart(Carried(p))
    ensures IsLatest(ps, TakeAll(NOTHING, ps).current) && IsPending(ps, TakeAll(NOTHING, ps).pending)
  {
    hide IsKeyframePart, Carried, IsLatest, IsPending, TakePart;
    if ps == [] {
      Start();
    } else {
      var (front, p) := (ps[..|ps| - 1], ps[|ps| - 1]);
      assert p in ps;
      PartsRun(front);
      Split(ps);
      LatestStep(front, TakeAll(NOTHING, front), p);
      PendingStep(front, TakeAll(NOTHING, front), p);
    }
  }

  lemma Start()
    ensures IsLatest([], NOTHING.current) && IsPending([], NOTHING.pending)
  {
    forall n: int ensures !FrameEnds([], n) {
      NoFrameEndsAfter([], n);
    }
  }

  /** After every run, the current keyframe is the frame that ended last, and the pending one
      holds all parts since the timestamp changed, in order of their numbers. */
  lemma LatestKeyframe(ps: seq<Packet>)
    ensures IsLatest(Parts(ps), TakeAll(NOTHING, ps).current)
    ensures IsPending(Parts(ps), TakeAll(NOTHING, ps).pending)
  {
    OnlyPartsCount(NOTHING, ps);
    PartsAreParts(ps);
    PartsRun(Parts(ps));
  }

  ghost predicate OneTimestamp(f: Frame) {
    forall p :: p in f.packets ==> When(p) == f.timestamp
  }

  lemma {:induction false} TailHasOneTimestamp(ps: seq<Packet>)
    requires ps != []
    ensures forall p :: p in Tail(ps) ==> p in ps && When(p) == When(ps[|ps| - 1])
  {
    if |ps| > 1 {
      hide When;
      TailHasOneTimestamp(ps[..|ps| - 1]);
      Split(ps);
    }
  }

  lemma FrameAtIsSound(ps: seq<Packet>, n: int)
    ensures Ascending(FrameAt(ps, n).packets) && OneTimestamp(FrameAt(ps, n))
    ensures forall p :: p in FrameAt(ps, n).packets ==> p in ps
  {
    hide Ascending, When;
    if 0 < n <= |ps| {
      var t := Tail(ps[..n]);
      TailHasOneTimestamp(ps[..n]);
      InOrderSorts(t);
      SameMembers(InOrder(t), t);
    } else {
      assert Ascending([]) by { AscendingNil(); }
    }
  }

  lemma AscendingNil()
    ensures Ascending([])
  {
  }

  /** What every run keeps: the current keyframe is empty or complete, and each frame holds
      received parts of one timestamp. */
  lemma KeyframeSoundness(ps: seq<Packet>)
    ensures
      var c := TakeAll(NOTHING, ps);
      && (c.current.packets == [] || Complete(c.current.packets))
      && Ascending(c.pending.packets)
      && OneTimestamp(c.current) && OneTimestamp(c.pending)
      && forall p :: p in c.current.packets || p in c.pending.packets ==> p in Parts(ps)
  {
    hide Ascending, OneTimestamp, Complete, TakeAll, Parts;
    LatestKeyframe(ps);
    var (qs, c) := (Parts(ps), TakeAll(NOTHING, ps));
    FrameAtIsSound(qs, |qs|);
    FrameAtIsSound(qs, 0);
    if exists n :: FrameEnds(qs, n) {
      var n :| FrameEnds(qs, n) && c.current == FrameAt(qs, n) && forall m :: n < m ==> !FrameEnds(qs, m);
      FrameAtIsSound(qs, n);
    }
  }

  // ---------------------------------------------------------------------------
  // From the sender's NAL units to the decoder's byte stream

  /** Fragments of either kind carry the type of their unit in the second byte. */
  predicate IsFragment(payload: Bytes)
    requires |payload| >= 2
  {
    payload[0] % 32 == FU_A || payload[0] % 32 == FU_B
  }

  const FU_B: nat := 29

  function UnitType(payload: Bytes): nat
    requires |payload| >= 2
  {
    (if IsFragment(payload) then payload[1] else payload[0]) % 32
  }

  /** A payload is a part just when it is of an IDR slice or a sequence parameter set, whole or
      in fragments of either kind, or is a whole picture parameter set. */
  lemma PartIff(payload: Bytes)
    ensures IsKeyframePart(payload) <==>
            && |payload| >= 2
            && (UnitType(payload) in {5, 7} || (UnitType(payload) == 8 && !IsFragment(payload)))
  {
  }

  /** Parameter sets and keyframes, except picture parameter sets in fragments. */
  predicate OfKeyframe(u: Unit) {
    match u
    case Whole(nal) => |nal| >= 2 && nal[0] % 32 in {5, 7, 8}
    case Fragmented(header, _) => header % 32 in {5, 7}
  }

  /** The units every packet of which is recognised. */
  lemma RecognisedIff(u: Unit)
    requires Sendable(u) && (u.Whole? ==> u.nal[0] % 32 != 29)
    ensures (forall payload :: payload in Packetize(u) ==> IsKeyframePart(payload)) <==> OfKeyframe(u)
  {
    match u
    case Whole(nal) =>
      assert nal in Packetize(u);
    case Fragmented(header, parts) =>
      forall i | 0 <= i < |parts| ensures IsKeyframePart(Fragment(header, parts, i)) <==> OfKeyframe(u) {
        var f := Fragment(header, parts, i);
        assert f[0] % 32 == FU_A && f[1] % 32 == header % 32;
      }
      assert Packetize(u)[0] in Packetize(u);
  }

  /** One frame as sent: consecutive numbers, one timestamp, the marker on the last packet. */
  ghost predicate IsSent(sent: seq<Packet>, rs: seq<Rtp>, base: nat) {
    && |sent| == |rs| > 0 && rs[|rs| - 1].marker
    && forall i :: 0 <= i < |rs| ==>
         && WellFormed(rs[i]) && sent[i].bytes == Encode(rs[i]) && sent[i].ext == base + i
         && rs[i].timestamp == rs[0].timestamp
  }

  ghost predicate AllAt(ps: seq<Packet>, t: nat) {
    forall p :: p in ps ==> When(p) == t
  }

  lemma SentIsComplete(sent: seq<Packet>, rs: seq<Rtp>, base: nat)
    requires IsSent(sent, rs, base)
    ensures Complete(sent) && AllAt(sent, When(sent[0]))
  {
    hide Encode, WellFormed, HasMarker, Timestamp;
    forall i | 0 <= i < |rs| ensures When(sent[i]) == When(sent[0]) && EndsFrame(sent[i]) == rs[i].marker {
      HeaderReadsBack(rs[i]);
      HeaderReadsBack(rs[0]);
    }
  }

  lemma TailOfOne(a: seq<Packet>, p: Packet)
    requires a == [] || When(a[|a| - 1]) != When(p)
    ensures Tail(a + [p]) == [p]
  {
    if a == [] { assert a + [p] == [p]; } else { TailEnds(a, p); }
  }

  lemma {:induction false} TailOf(a: seq<Packet>, b: seq<Packet>, t: nat)
    requires b != [] && AllAt(b, t) && (a == [] || When(a[|a| - 1]) != t)
    ensures Tail(a + b) == b
  {
    hide When, Tail;
    var (front, p) := (b[..|b| - 1], b[|b| - 1]);
    assert p in b;
    Split(b);
    if front == [] {
      assert b == [p];
      TailOfOne(a, p);
    } else {
      var q := front[|front| - 1];
      assert q in b;
      TailOf(a, front, t);
      assert (a + front)[|a + front| - 1] == q;
      TailEnds(a + front, p);
      ConcatAssociates(a, front, [p]);
    }
  }

  lemma {:induction false} PartsAppend(a: seq<Packet>, b: seq<Packet>)
    ensures Parts(a + b) == Parts(a) + Parts(b)
  {
    hide IsKeyframePart, Carried;
    if b == [] {
      assert a + b == a && Parts(a) + [] == Parts(a);
    } else {
      var (front, p) := (b[..|b| - 1], b[|b| - 1]);
      assert (a + b)[..|a + b| - 1] == a + front;
      PartsAppend(a, front);
      ConcatAssociates(Parts(a), Parts(front), if IsKeyframePart(Carried(p)) then [p] else []);
    }
  }

  /** Complete, and delivered in any order: collected in the order sent. */
  lemma CollectedAsSent(arrivals: seq<Packet>, sent: seq<Packet>)
    requires Complete(sent) && multiset(arrivals) == multiset(sent)
    ensures InOrder(arrivals) == sent
  {
    hide Complete, InOrder;
    CompleteAscends(sent);
    InOrderSorts(arrivals);
    hide Ascending;
    SameMembers(InOrder(arrivals), sent);
    OrderIsUnique(InOrder(arrivals), sent);
  }

  lemma EndsWithNext(a: seq<Packet>, b: seq<Packet>, next: Packet, sent: seq<Packet>, t: nat)
    requires Complete(sent) && AllAt(sent, t) && multiset(b) == multiset(sent)
    requires (a == [] || When(a[|a| - 1]) != t) && When(next) != t
    ensures FrameEnds(a + b + [next], |a + b|) && FrameAt(a + b + [next], |a + b|) == Frame(sent, t)
  {
    hide Complete, When, InOrder, Tail;
    SameMembers(b, sent);
    NotEmpty(sent);
    TailOf(a, b, t);
    CollectedAsSent(b, sent);
    var (ab, last) := (a + b, b[|b| - 1]);
    var qs := ab + [next];
    assert last in b && qs[|ab| - 1] == last && qs[|ab|] == next;
    assert qs[..|ab|] == ab;
  }

  lemma LatestIsLast(qs: seq<Packet>, f: Frame)
    requires IsLatest(qs, f) && FrameEnds(qs, |qs| - 1)
    ensures f == FrameAt(qs, |qs| - 1)
  {
    hide FrameEnds, FrameAt;
    forall n: int | n >= |qs| ensures !FrameEnds(qs, n) {
      NoFrameEndsAfter(qs, n);
    }
  }

  /** A complete frame between parts of other timestamps becomes the current keyframe. */
  lemma FrameBecomesCurrent(before: seq<Packet>, arrivals: seq<Packet>, next: Packet, sent: seq<Packet>, t: nat)
    requires Complete(sent) && AllAt(sent, t) && multiset(Parts(arrivals)) == multiset(sent)
    requires Parts(before) == [] || When(Parts(before)[|Parts(before)| - 1]) != t
    requires IsKeyframePart(Carried(next)) && When(next) != t
    ensures TakeAll(NOTHING, before + arrivals + [next]).current == Frame(sent, t)
  {
    hide Complete, When, Carried, IsKeyframePart, TakeAll, FrameEnds, FrameAt, IsLatest, IsPending, AllAt;
    PartsOfOne(next);
    hide Parts;
    PartsAppend(before, arrivals);
    PartsAppend(before + arrivals, [next]);
    LatestKeyframe(before + arrivals + [next]);
    var (a, b) := (Parts(before), Parts(arrivals));
    EndsWithNext(a, b, next, sent, t);
    var qs := a + b + [next];
    assert |qs| - 1 == |a + b| && Parts(before + arrivals + [next]) == qs;
    LatestIsLast(qs, TakeAll(NOTHING, before + arrivals + [next]).current);
  }

  lemma PartsOfOne(p: Packet)
    requires IsKeyframePart(Carried(p))
    ensures Parts([p]) == [p]
  {
    assert [p][..0] == [];
    assert Parts([p]) == Parts([]) + [p];
  }

  ghost function BytesOf(ps: seq<Received>): seq<Bytes> {
    seq(|ps|, i requires 0 <= i < |ps| => ps[i].bytes)
  }

  /** From the sender to the decoder: the NAL units of a keyframe, sent over RTP as a frame
      and delivered in any order among other packets, come out as the decoder's byte stream. */
  lemma KeyframeReachesDecoder(
      us: seq<Unit>, rs: seq<Rtp>, sent: seq<Packet>, base: nat,
      before: seq<Packet>, arrivals: seq<Packet>, next: Packet)
    requires (forall u :: u in us ==> Sendable(u)) && Carries(rs, PacketizeAll(us)) && IsSent(sent, rs, base)
    requires multiset(Parts(arrivals)) == multiset(sent)
    requires Parts(before) == [] || When(Parts(before)[|Parts(before)| - 1]) != When(sent[0])
    requires IsKeyframePart(Carried(next)) && When(next) != When(sent[0])
    ensures
      var keyframe := TakeAll(NOTHING, before + arrivals + [next]).current.packets;
      && keyframe == sent
      && AllInside(BytesOf(keyframe))
      && Contributions(Payloads(BytesOf(keyframe))) == ByteStream(us)
  {
    hide When, Carried, IsKeyframePart, TakeAll, Contributions, ByteStream, PacketizeAll, GetPayload, Encode;
    SentIsComplete(sent, rs, base);
    FrameBecomesCurrent(before, arrivals, next, sent, When(sent[0]));
    DepacketizeInvertsPacketize(us, rs);
    assert BytesOf(sent) == EncodeAll(rs);
  }

  lemma {:induction false} AllPacketsAreParts(us: seq<Unit>)
    requires forall u :: u in us ==> Sendable(u) && OfKeyframe(u)
    ensures forall payload :: payload in PacketizeAll(us) ==> IsKeyframePart(payload)
    decreases |us|
  {
    if us != [] {
      var (rest, u) := (us[..|us| - 1], us[|us| - 1]);
      AllPacketsAreParts(rest);
      RecognisedIff(u);
      hide IsKeyframePart, OfKeyframe, Packetize;
    }
  }

  lemma {:induction false} AllParts(ps: seq<Packet>)
    requires forall p :: p in ps ==> IsKeyframePart(Carried(p))
    ensures Parts(ps) == ps
  {
    hide IsKeyframePart, Carried;
    if ps != [] {
      Split(ps);
      assert ps[|ps| - 1] in ps;
      AllParts(ps[..|ps| - 1]);
    }
  }

  /** Nothing of the keyframe is overlooked: its packets alone, in any order, are enough. */
  lemma AnyOrderIsCollected(us: seq<Unit>, rs: seq<Rtp>, sent: seq<Packet>, base: nat, arrivals: seq<Packet>)
    requires forall u :: u in us ==> Sendable(u) && OfKeyframe(u)
    requires Carries(rs, PacketizeAll(us)) && IsSent(sent, rs, base) && multiset(arrivals) == multiset(sent)
    ensures Parts(arrivals) == arrivals
  {
    hide IsKeyframePart, Encode, GetPayload, PacketizeAll;
    AllPacketsAreParts(us);
    PayloadsReadBack(rs, PacketizeAll(us));
    SameMembers(arrivals, sent);
    forall p | p in sent ensures IsKeyframePart(Carried(p)) {
      var i :| 0 <= i < |sent| && sent[i] == p;
      assert EncodeAll(rs)[i] == p.bytes;
      assert Payloads(EncodeAll(rs))[i] == Carried(p);
    }
    AllParts(arrivals);
  }
}
