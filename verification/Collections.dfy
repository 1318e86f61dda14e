/** Facts about finite sets, sequences and maps that several components share. */
module Collections {

  datatype Option<+T> = None | Some(value: T)

  type Byte = n: nat | n < 256
  type Bytes = seq<Byte>

  function Max(a: int, b: int): int {
    if a < b then b else a
  }

  lemma {:induction false} LeastWitness(s: set<nat>) returns (m: nat)
    requires s != {}
    ensures m in s && forall x :: x in s ==> m <= x
  {
    m :| m in s;
    assert forall x :: x in s ==> x == m || x in s - {m};
    if s - {m} != {} {
      var rest := LeastWitness(s - {m});
      m := if m < rest then m else rest;
    }
  }

  lemma {:induction false} GreatestWitness(s: set<nat>) returns (m: nat)
    requires s != {}
    ensures m in s && forall x :: x in s ==> x <= m
  {
    m :| m in s;
    assert forall x :: x in s ==> x == m || x in s - {m};
    if s - {m} != {} {
      var rest := GreatestWitness(s - {m});
      m := if m < rest then rest else m;
    }
  }

  lemma BoundsExist(s: set<nat>)
    requires s != {}
    ensures exists m :: m in s && forall x :: x in s ==> m <= x
    ensures exists m :: m in s && forall x :: x in s ==> x <= m
  {
    var low := LeastWitness(s);
    var high := GreatestWitness(s);
  }

  /** The first key of an ordered set, as `begin()` yields it. */
  function Least(s: set<nat>): (m: nat)
    requires s != {}
    ensures m in s && forall x :: x in s ==> m <= x
  {
    BoundsExist(s);
    var m :| m in s && forall x :: x in s ==> m <= x;
    m
  }

  /** The last key of an ordered set, as `rbegin()` yields it. */
  function Greatest(s: set<nat>): (m: nat)
    requires s != {}
    ensures m in s && forall x :: x in s ==> x <= m
  {
    BoundsExist(s);
    var m :| m in s && forall x :: x in s ==> x <= m;
    m
  }

  predicate Between(lo: int, n: int, hi: int) {
    lo < n < hi
  }

  /** The numbers strictly between two bounds. */
  function Open(lo: int, hi: int): (s: set<nat>)
    ensures forall n: nat :: n in s <==> lo < n < hi
  {
    set n: nat | n < hi && Between(lo, n, hi)
  }

  lemma OpenStep(lo: int, hi: nat)
    requires lo < hi
    ensures Open(lo, hi + 1) == Open(lo, hi) + {hi} && |Open(lo, hi + 1)| == |Open(lo, hi)| + 1
  {
    assert Open(lo, hi + 1) == Open(lo, hi) + {hi};
  }

  lemma DisjointUnionSize<T>(a: set<T>, b: set<T>)
    requires a !! b
    ensures |a + b| == |a| + |b|
  {
  }

  lemma UnionAssociates<T>(a: set<T>, b: set<T>, c: set<T>)
    ensures (a + b) + c == a + (b + c)
  {
  }

  lemma ConcatAssociates<T>(a: seq<T>, b: seq<T>, c: seq<T>)
    ensures (a + b) + c == a + (b + c)
  {
  }

  lemma SubsetSize<T>(a: set<T>, b: set<T>)
    requires a <= b
    ensures |a| <= |b|
  {
    assert b == a + (b - a);
  }

  lemma {:induction false} IntervalSize(s: set<nat>, lo: nat, width: nat)
    requires forall x :: x in s ==> lo < x <= lo + width
    ensures |s| <= width
  {
    if s != {} {
      var top := Greatest(s);
      IntervalSize(s - {top}, lo, top - lo - 1);
    }
  }
}
