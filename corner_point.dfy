/** CornerPoint.java: a point whose `compareTo` is a dominance test rather
    than a total order. */
module CornerPoints {
  import opened Wrappers

  datatype CornerPoint = CornerPoint(x: int, y: int)

  /** p lies at or beyond q on both axes and strictly beyond it on one. */
  predicate Dominates(p: CornerPoint, q: CornerPoint) {
    p.x >= q.x && p.y >= q.y && p != q
  }

  /** `compareTo`: a null argument throws; 1 when this point dominates the
      other, 0 when the coordinates are equal, -1 in every other case. */
  function CompareTo(self: CornerPoint, o: Option<CornerPoint>): (r: Result<int>)
    ensures r.Err? <==> o.None?
    ensures o.None? ==> r.error.NullPointer?
    ensures o.Some? ==> (r.value == 1 <==> Dominates(self, o.value))
    ensures o.Some? ==> (r.value == 0 <==> self == o.value)
    ensures o.Some? ==> (r.value == -1 <==> !Dominates(self, o.value) && self != o.value)
  {
    if o.None? then Err(NullPointer("Specified object is null"))
    else
      var other := o.value;
      if (self.x >= other.x && self.y > other.y) || (self.y >= other.y && self.x > other.x) then Ok(1)
      else if self.x == other.x && self.y == other.y then Ok(0)
      else Ok(-1)
  }

  /** Dominance, the case that answers 1, is transitive. */
  lemma DominanceTransitive(a: CornerPoint, b: CornerPoint, c: CornerPoint)
    requires CompareTo(a, Some(b)) == Ok(1) && CompareTo(b, Some(c)) == Ok(1)
    ensures CompareTo(a, Some(c)) == Ok(1)
  {
  }

  /** Dominance is asymmetric: when one point answers 1 the other answers -1. */
  lemma DominanceAsymmetric(a: CornerPoint, b: CornerPoint)
    requires CompareTo(a, Some(b)) == Ok(1)
    ensures CompareTo(b, Some(a)) == Ok(-1)
  {
  }

  /** Two distinct points where neither dominates answer -1 in both
      directions, so `compareTo` is not antisymmetric; such pairs exist,
      (0, 1) and (1, 0) among them. */
  lemma IncomparablePointsBothLess(a: CornerPoint, b: CornerPoint)
    requires a != b && !Dominates(a, b) && !Dominates(b, a)
    ensures CompareTo(a, Some(b)) == Ok(-1) && CompareTo(b, Some(a)) == Ok(-1)
    ensures !Dominates(CornerPoint(0, 1), CornerPoint(1, 0)) && !Dominates(CornerPoint(1, 0), CornerPoint(0, 1))
  {
  }

  /** The pairs and the chain that the repository's tests compare. */
  lemma ComparisonExamples()
    ensures CompareTo(CornerPoint(0, 0), Some(CornerPoint(0, 0))) == Ok(0)
    ensures CompareTo(CornerPoint(50, 50), Some(CornerPoint(75, 50))) == Ok(-1)
    ensures CompareTo(CornerPoint(75, 50), Some(CornerPoint(50, 50))) == Ok(1)
    ensures CompareTo(CornerPoint(50, 50), Some(CornerPoint(75, 75))) == Ok(-1)
    ensures CompareTo(CornerPoint(75, 75), Some(CornerPoint(50, 50))) == Ok(1)
    ensures CompareTo(CornerPoint(50, 50), Some(CornerPoint(50, 100))) == Ok(-1)
    ensures CompareTo(CornerPoint(50, 100), Some(CornerPoint(100, 100))) == Ok(-1)
    ensures CompareTo(CornerPoint(50, 50), Some(CornerPoint(100, 100))) == Ok(-1)
  {
  }
}
