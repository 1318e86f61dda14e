/** src/Rtp/ExtendedSequenceCounter.cpp: unwrapping 16-bit RTP sequence numbers
    (a variant of section A.1 of RFC 3550). */
module SequenceCounter {
  const SEQ_MOD: nat := 65536
  const U32_MOD: nat := 0x1_0000_0000
  const MAX_DROPOUT: nat := 3000
  const MAX_MISORDER: nat := 100
  const MIN_SEQUENTIAL: nat := 2

  type Seq16 = n: nat | n < SEQ_MOD
  type U32 = n: nat | n < U32_MOD

  datatype Counter = Counter(maxSeq: Seq16, cycles: U32, badSeq: U32, probation: U32, initialized: bool)

  datatype ExtendResult = ExtendResult(extendedSeq: nat, valid: bool, resync: bool, stable: bool)

  const INITIAL := Counter(0, 0, SEQ_MOD + 1, MIN_SEQUENTIAL, false)

  /** Bitwise or of two unsigned integers of any width. */
  function BitOr(a: nat, b: nat): nat
    decreases a + b
  {
    if a == 0 && b == 0 then 0
    else (if a % 2 == 1 || b % 2 == 1 then 1 else 0) + 2 * BitOr(a / 2, b / 2)
  }

  function Pow2(k: nat): nat {
    if k == 0 then 1 else 2 * Pow2(k - 1)
  }

  lemma {:induction false} BitOrZero(b: nat)
    ensures BitOr(0, b) == b && BitOr(b, 0) == b
  {
    if b != 0 { BitOrZero(b / 2); }
  }

  lemma {:induction false} BitOrShifted(high: nat, low: nat, k: nat)
    requires low < Pow2(k)
    ensures BitOr(high * Pow2(k), low) == high * Pow2(k) + low
  {
    if k == 0 {
      BitOrZero(high);
    } else {
      var a := high * Pow2(k - 1);
      assert high * Pow2(k) == 2 * a;
      BitOrShifted(high, low / 2, k - 1);
    }
  }

  /** `cycles | seq` is `cycles + seq`: the two occupy disjoint bits. */
  lemma CyclesOrSeq(cycles: nat, n: Seq16)
    requires cycles % SEQ_MOD == 0
    ensures BitOr(cycles, n) == cycles + n
  {
    assert Pow2(8) == 256;
    assert Pow2(16) == 256 * Pow2(8);
    BitOrShifted(cycles / SEQ_MOD, n, 16);
  }

  function Reset(c: Counter, n: Seq16): Counter {
    c.(maxSeq := n, badSeq := SEQ_MOD + 1, cycles := 0)
  }

  /** `uint16_t udelta = seq - maxSeq`. */
  function Delta(c: Counter, n: Seq16): Seq16 {
    (n - c.maxSeq) % SEQ_MOD
  }

  function Extend(c: Counter, n: Seq16): (Counter, ExtendResult) {
    if !c.initialized then
      var c' := Reset(c, n).(initialized := true);
      (c', ExtendResult(BitOr(c'.cycles, n), true, false, false))
    else if c.probation > 0 then
      if n == c.maxSeq + 1 then
        var c' := c.(probation := c.probation - 1, maxSeq := n);
        if c'.probation == 0 then
          (Reset(c', n), ExtendResult(BitOr(0, n), true, false, false))
        else
          (c', ExtendResult(BitOr(c'.cycles, n), true, false, true))
      else
        (c.(probation := MIN_SEQUENTIAL - 1, maxSeq := n),
         ExtendResult(BitOr(c.cycles, n), true, false, true))
    else if Delta(c, n) <= MAX_DROPOUT then
      var c' := c.(cycles := if n < c.maxSeq then (c.cycles + SEQ_MOD) % U32_MOD else c.cycles,
                   maxSeq := n);
      (c', ExtendResult(BitOr(c'.cycles, n), true, false, true))
    else if Delta(c, n) <= SEQ_MOD - MAX_MISORDER then
      if n == c.badSeq then
        (Reset(c, n), ExtendResult(BitOr(0, n), false, true, false))
      else
        (c.(badSeq := (n + 1) % SEQ_MOD), ExtendResult(BitOr(c.cycles, n), false, false, true))
    else
      (c, ExtendResult(BitOr(c.cycles, n), true, false, true))
  }

  class ExtendedSequenceCounter {
    var maxSeq: Seq16
    var cycles: U32
    var badSeq: U32
    var probation: U32
    var initialized: bool

    function View(): Counter
      reads this
    {
      Counter(maxSeq, cycles, badSeq, probation, initialized)
    }

    constructor ()
      ensures View() == INITIAL
    {
      maxSeq, cycles, badSeq, probation, initialized := 0, 0, SEQ_MOD + 1, MIN_SEQUENTIAL, false;
    }

    method ResetTo(n: Seq16)
      modifies this
      ensures View() == Reset(old(View()), n)
    {
      maxSeq := n;
      badSeq := SEQ_MOD + 1;
      cycles := 0;
    }

    method ExtendSeq(n: Seq16) returns (r: ExtendResult)
      modifies this
      ensures (View(), r) == Extend(old(View()), n)
    {
      if !initialized {
        ResetTo(n);
        initialized := true;
        return ExtendResult(BitOr(cycles, n), true, false, false);
      }
      var udelta: Seq16 := (n - maxSeq) % SEQ_MOD;
      if probation > 0 {
        if n == maxSeq + 1 {
          probation := probation - 1;
          maxSeq := n;
          if probation == 0 {
            ResetTo(n);
            return ExtendResult(BitOr(cycles, n), true, false, false);
          }
        } else {
          probation := MIN_SEQUENTIAL - 1;
          maxSeq := n;
        }
        return ExtendResult(BitOr(cycles, n), true, false, true);
      } else if udelta <= MAX_DROPOUT {
        if n < maxSeq {
          cycles := (cycles + SEQ_MOD) % U32_MOD;
        }
        maxSeq := n;
        return ExtendResult(BitOr(cycles, n), true, false, true);
      } else if udelta <= SEQ_MOD - MAX_MISORDER {
        if n == badSeq {
          ResetTo(n);
          return ExtendResult(BitOr(cycles, n), false, true, false);
        } else {
          badSeq := (n + 1) % SEQ_MOD;
          return ExtendResult(BitOr(cycles, n), false, false, true);
        }
      } else {
        return ExtendResult(BitOr(cycles, n), true, false, true);
      }
    }
  }

  /** The highest number the counter stands at. */
  function Position(c: Counter): nat {
    c.cycles + c.maxSeq
  }

  /** What every call keeps: whole cycles only, and none at all while on probation. */
  ghost predicate WellFormed(c: Counter) {
    && c.cycles % SEQ_MOD == 0
    && (!c.initialized || c.probation > 0 ==> c.cycles == 0)
  }

  /** Arithmetic of whole cycles: a cycle has room for every 16-bit number, and adding
      one cycle wraps only at 2^32. */
  lemma WholeCycle(cycles: U32, n: Seq16)
    requires cycles % SEQ_MOD == 0
    ensures (cycles + n) % SEQ_MOD == n && (cycles + n) / SEQ_MOD == cycles / SEQ_MOD && cycles + n < U32_MOD
    ensures (cycles + SEQ_MOD) % U32_MOD == if cycles + SEQ_MOD == U32_MOD then 0 else cycles + SEQ_MOD
    ensures (cycles + SEQ_MOD) % U32_MOD % SEQ_MOD == 0
  {
    var k := cycles / SEQ_MOD;
    assert cycles == k * SEQ_MOD && k < SEQ_MOD;
    if k + 1 < SEQ_MOD {
      assert cycles + SEQ_MOD == (k + 1) * SEQ_MOD;
    }
  }

  lemma DeltaCases(c: Counter, n: Seq16)
    ensures Delta(c, n) == if n < c.maxSeq then n + SEQ_MOD - c.maxSeq else n - c.maxSeq
  {
  }

  /** The number returned is the low 16 bits in the cycle the counter then stands in. */
  lemma ExtendKeepsWellFormed(c: Counter, n: Seq16)
    requires WellFormed(c)
    ensures
      var (c', r) := Extend(c, n);
      && WellFormed(c')
      && r.extendedSeq == c'.cycles + n
      && r.extendedSeq % SEQ_MOD == n && r.extendedSeq < U32_MOD
  {
    var (c', r) := Extend(c, n);
    WholeCycle(c.cycles, n);
    assert c'.cycles in {0, c.cycles, (c.cycles + SEQ_MOD) % U32_MOD};
    assert r.extendedSeq == BitOr(c'.cycles, n);
    CyclesOrSeq(c'.cycles, n);
    WholeCycle(c'.cycles, n);
  }

  /** Past probation. */
  ghost predicate Locked(c: Counter) {
    WellFormed(c) && c.initialized && c.probation == 0
  }

  /** The numbers near the highest one: up to MAX_DROPOUT ahead, less than MAX_MISORDER behind. */
  ghost predicate Nearby(highest: nat, t: nat) {
    highest - MAX_MISORDER < t <= highest + MAX_DROPOUT
  }

  /** The nearby numbers the counter can tell from their low 16 bits: not in an earlier
      cycle than the highest, and within the 32 bits of `cycles`. */
  ghost predicate InWindow(highest: nat, t: nat) {
    Nearby(highest, t) && t / SEQ_MOD >= highest / SEQ_MOD && t < U32_MOD
  }

  lemma CycleOf(c: Counter, t: nat)
    requires WellFormed(c) && Nearby(Position(c), t)
    ensures
      var (k, q, n) := (c.cycles / SEQ_MOD, t / SEQ_MOD, t % SEQ_MOD);
      && k == Position(c) / SEQ_MOD
      && (t >= Position(c) ==> if n < c.maxSeq then q == k + 1 else q == k)
      && (t < Position(c) ==> if n < c.maxSeq then q == k else q == k - 1)
      && Delta(c, n) == (if t >= Position(c) then t - Position(c) else SEQ_MOD + t - Position(c))
  {
    var (k, q, n) := (c.cycles / SEQ_MOD, t / SEQ_MOD, t % SEQ_MOD);
    WholeCycle(c.cycles, c.maxSeq);
    assert c.cycles == k * SEQ_MOD && t == q * SEQ_MOD + n;
    DeltaCases(c, n);
  }

  /** For a nearby packet with true number `t`, the counter standing at the true highest
      number returns `t` exactly when `t` is in the window. */
  lemma ExactIff(c: Counter, t: nat)
    requires Locked(c) && Nearby(Position(c), t)
    ensures Extend(c, t % SEQ_MOD).1.extendedSeq == t <==> InWindow(Position(c), t)
  {
    var n := t % SEQ_MOD;
    CycleOf(c, t);
    ExtendKeepsWellFormed(c, n);
    WholeCycle(c.cycles, n);
    assert c.cycles == c.cycles / SEQ_MOD * SEQ_MOD && t == t / SEQ_MOD * SEQ_MOD + n;
  }

  lemma InWindowIsExact(c: Counter, t: nat)
    requires Locked(c)
    requires InWindow(Position(c), t)
    ensures
      var (c', r) := Extend(c, t % SEQ_MOD);
      && r.extendedSeq == t && r.valid && !r.resync
      && Locked(c')
      && Position(c') == if t > Position(c) then t else Position(c)
  {
    CycleOf(c, t);
    ExactIff(c, t);
    ExtendKeepsWellFormed(c, t % SEQ_MOD);
  }

  /** Runs the counter over the 16-bit images of a list of true numbers. */
  ghost function ExtendAll(c: Counter, ts: seq<nat>): (Counter, seq<ExtendResult>)
    decreases |ts|
  {
    if ts == [] then (c, [])
    else
      var (c', r) := Extend(c, ts[0] % SEQ_MOD);
      var (c'', rs) := ExtendAll(c', ts[1..]);
      (c'', [r] + rs)
  }

  /** Every packet lies in the window of the highest one before it. */
  ghost predicate WellBehaved(highest: nat, ts: seq<nat>)
    decreases |ts|
  {
    ts != [] ==>
      && InWindow(highest, ts[0])
      && WellBehaved(if ts[0] > highest then ts[0] else highest, ts[1..])
  }

  ghost predicate AllExact(ts: seq<nat>, rs: seq<ExtendResult>) {
    |rs| == |ts| && forall i :: 0 <= i < |ts| ==> rs[i].extendedSeq == ts[i] && rs[i].valid && !rs[i].resync
  }

  lemma {:induction false} LockedRunIsExact(c: Counter, ts: seq<nat>)
    requires Locked(c) && WellBehaved(Position(c), ts)
    ensures AllExact(ts, ExtendAll(c, ts).1)
    ensures Locked(ExtendAll(c, ts).0)
    decreases |ts|
  {
    if ts != [] {
      InWindowIsExact(c, ts[0]);
      LockedRunIsExact(Extend(c, ts[0] % SEQ_MOD).0, ts[1..]);
    }
  }

  /** Three consecutive first packets that do not wrap end the probation. */
  lemma FirstThree(t0: nat)
    requires t0 + 2 < SEQ_MOD
    ensures
      var (c1, r1) := Extend(INITIAL, t0);
      var (c2, r2) := Extend(c1, t0 + 1);
      var (c3, r3) := Extend(c2, t0 + 2);
      && WellFormed(c1) && WellFormed(c2) && Locked(c3) && Position(c3) == t0 + 2
      && r1.extendedSeq == t0 && r2.extendedSeq == t0 + 1 && r3.extendedSeq == t0 + 2
      && (forall r :: r in [r1, r2, r3] ==> r.valid && !r.resync)
  {
    BitOrZero(t0);
    BitOrZero(t0 + 1);
    BitOrZero(t0 + 2);
  }

  lemma FirstIsTaken(n: Seq16)
    ensures Extend(INITIAL, n).0 == INITIAL.(maxSeq := n, initialized := true)
    ensures Extend(INITIAL, n).1.extendedSeq == n
  {
    BitOrZero(n);
  }

  /** On probation the number is the packet's own, and one that does not follow starts over. */
  lemma OnProbation(c: Counter, n: Seq16)
    requires c.initialized && c.probation > 0 && c.cycles == 0 && c.badSeq == SEQ_MOD + 1
    ensures Extend(c, n).1.extendedSeq == n
    ensures Extend(c, n).0 ==
            c.(maxSeq := n, probation := if n == c.maxSeq + 1 then c.probation - 1 else MIN_SEQUENTIAL - 1)
  {
    BitOrZero(n);
  }

  /** A wrap among the first three packets is not counted: their numbers are exact, and the
      counter stands at the third, exactly when they do not wrap. */
  lemma FirstThreeIff(t0: Seq16)
    ensures
      var (c1, r1) := Extend(INITIAL, t0);
      var (c2, r2) := Extend(c1, (t0 + 1) % SEQ_MOD);
      var (c3, r3) := Extend(c2, (t0 + 2) % SEQ_MOD);
      && (r1.extendedSeq == t0 && r2.extendedSeq == t0 + 1 && r3.extendedSeq == t0 + 2 <==> t0 + 2 < SEQ_MOD)
      && (Locked(c3) && Position(c3) == t0 + 2 <==> t0 + 2 < SEQ_MOD)
      && (t0 == SEQ_MOD - 1 ==> Locked(c3) && Position(c3) == t0 + 2 - SEQ_MOD)
  {
    hide Extend;
    var (n2, n3) := ((t0 + 1) % SEQ_MOD, (t0 + 2) % SEQ_MOD);
    FirstIsTaken(t0);
    var c1 := Extend(INITIAL, t0).0;
    OnProbation(c1, n2);
    OnProbation(Extend(c1, n2).0, n3);
  }

  lemma ExactCons(c: Counter, ts: seq<nat>)
    requires ts != []
    requires AllExact(ts[1..], ExtendAll(Extend(c, ts[0] % SEQ_MOD).0, ts[1..]).1)
    requires AllExact([ts[0]], [Extend(c, ts[0] % SEQ_MOD).1])
    ensures AllExact(ts, ExtendAll(c, ts).1)
  {
    var r := Extend(c, ts[0] % SEQ_MOD).1;
    assert [r][0] == r;
  }

  /** Counter exactness: after three consecutive first packets that do not wrap, the
      counter returns the true number of every packet of a well-behaved source. */
  lemma CounterExactness(t0: nat, ts: seq<nat>)
    requires t0 + 2 < SEQ_MOD
    requires WellBehaved(t0 + 2, ts)
    ensures AllExact([t0, t0 + 1, t0 + 2] + ts, ExtendAll(INITIAL, [t0, t0 + 1, t0 + 2] + ts).1)
  {
    hide Extend, WellBehaved;
    FirstThree(t0);
    var c1 := Extend(INITIAL, t0).0;
    var c2 := Extend(c1, t0 + 1).0;
    LockedRunIsExact(Extend(c2, t0 + 2).0, ts);
    var all := [t0, t0 + 1, t0 + 2] + ts;
    assert all[2..][1..] == ts && all[1..][1..] == all[2..];
    ExactCons(c2, all[2..]);
    ExactCons(c1, all[1..]);
    ExactCons(INITIAL, all);
  }

  /** A packet reordered across a wrap is put in the new cycle, 2^16 too high. */
  lemma ReorderedAcrossWrapIsMisplaced()
    ensures
      var c := Counter(5, SEQ_MOD, SEQ_MOD + 1, 0, true);
      && Locked(c) && Position(c) == SEQ_MOD + 5
      && Extend(c, 65530).1.extendedSeq == SEQ_MOD + 65530
  {
    CyclesOrSeq(SEQ_MOD, 65530);
  }
}
