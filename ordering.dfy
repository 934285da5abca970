/** Least and greatest elements of finite sets of integers and their
    ascending enumeration: the order a `TreeMap<Long, _>` keeps its keys in. */
module Ordering {

  predicate Increasing(s: seq<int>) {
    forall i, j | 0 <= i < j < |s| :: s[i] < s[j]
  }

  /** `m` is the least element of `s`. */
  predicate IsLeast(m: int, s: set<int>) {
    m in s && forall k | k in s :: m <= k
  }

  /** `m` is the greatest element of `s`. */
  predicate IsGreatest(m: int, s: set<int>) {
    m in s && forall k | k in s :: k <= m
  }

  lemma LeastOfInsert(s: set<int>, x: int, m: int)
    requires x in s && IsLeast(m, s - {x})
    ensures IsLeast(if x < m then x else m, s)
  {
    forall k | k in s ensures (if x < m then x else m) <= k {
      if k != x { assert k in s - {x}; }
    }
  }

  lemma GreatestOfInsert(s: set<int>, x: int, m: int)
    requires x in s && IsGreatest(m, s - {x})
    ensures IsGreatest(if x > m then x else m, s)
  {
    forall k | k in s ensures k <= (if x > m then x else m) {
      if k != x { assert k in s - {x}; }
    }
  }

  lemma Pick<T>(s: set<T>) returns (x: T)
    requires s != {}
    ensures x in s
  {
    x :| x in s;
  }

  lemma {:induction false} LeastExists(s: set<int>)
    requires s != {}
    ensures exists m :: IsLeast(m, s)
    decreases |s|
  {
    var x := Pick(s);
    var t := s - {x};
    if |t| == 0 {
      forall k | k in s ensures x <= k { assert k == x || k in t; }
      assert IsLeast(x, s);
    } else {
      LeastExists(t);
      var m :| IsLeast(m, t);
      LeastOfInsert(s, x, m);
    }
  }

  lemma {:induction false} GreatestExists(s: set<int>)
    requires s != {}
    ensures exists m :: IsGreatest(m, s)
    decreases |s|
  {
    var x := Pick(s);
    var t := s - {x};
    if |t| == 0 {
      forall k | k in s ensures k <= x { assert k == x || k in t; }
      assert IsGreatest(x, s);
    } else {
      GreatestExists(t);
      var m :| IsGreatest(m, t);
      GreatestOfInsert(s, x, m);
    }
  }

  function Min(s: set<int>): (m: int)
    requires s != {}
    ensures m in s && forall k | k in s :: m <= k
  {
    LeastExists(s);
    var m :| IsLeast(m, s);
    m
  }

  function Max(s: set<int>): (m: int)
    requires s != {}
    ensures m in s && forall k | k in s :: k <= m
  {
    GreatestExists(s);
    var m :| IsGreatest(m, s);
    m
  }
}

/** Enumeration of a set of keys in ascending order. */
module KeyOrder {
  import opened Ordering

  /** The elements of `s` in strictly ascending order. */
  function Ascending(s: set<int>): (r: seq<int>)
    ensures |r| == |s|
    ensures forall k | k in s :: k in r
    ensures forall i | 0 <= i < |r| :: r[i] in s
    ensures Increasing(r)
    decreases |s|
  {
    if s == {} then []
    else
      var m := Min(s);
      [m] + Ascending(s - {m})
  }

  /** Lexicographic order on pairs: the order of a comparator that compares
      the first components, then the second. */
  predicate PairLess(a: (int, int), b: (int, int)) {
    a.0 < b.0 || (a.0 == b.0 && a.1 < b.1)
  }

  /** `m` is the lexicographically least pair of `s`. */
  predicate IsLeastPair(m: (int, int), s: set<(int, int)>) {
    m in s && forall p | p in s && p != m :: PairLess(m, p)
  }

  lemma LeastPairOfInsert(s: set<(int, int)>, x: (int, int), m: (int, int))
    requires x in s && IsLeastPair(m, s - {x})
    ensures IsLeastPair(if PairLess(x, m) then x else m, s)
  {
    var least := if PairLess(x, m) then x else m;
    forall p | p in s && p != least ensures PairLess(least, p) {
      if p != x { assert p in s - {x}; }
    }
  }

  lemma {:induction false} LeastPairExists(s: set<(int, int)>)
    requires s != {}
    ensures exists m :: IsLeastPair(m, s)
    decreases |s|
  {
    var x := Pick(s);
    var t := s - {x};
    if |t| == 0 {
      assert forall p | p in s :: p == x || p in t;
      assert IsLeastPair(x, s);
    } else {
      LeastPairExists(t);
      var m :| IsLeastPair(m, t);
      LeastPairOfInsert(s, x, m);
    }
  }

  /** The lexicographically least pair of `s`. */
  function LeastPair(s: set<(int, int)>): (m: (int, int))
    requires s != {}
    ensures m in s && forall p | p in s && p != m :: PairLess(m, p)
  {
    LeastPairExists(s);
    var m :| IsLeastPair(m, s);
    m
  }
}
