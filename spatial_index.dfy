/** The repository's spatial view: four nested sorted maps keyed by
    bottom-left x, bottom-left y, upper-right x and upper-right y, whose
    innermost values are sets of widgets ordered by (z-index, id). A set
    ordered by a comparator holds at most one element per comparator key,
    so it is a map from that key to the element. */
module SpatialIndex {
  import opened Wrappers
  import opened Geometry
  import opened Widgets

  /** The four corner coordinates a widget is filed under. */
  datatype Box = Box(blx: int, bly: int, urx: int, ury: int)

  /** The (z-index, id) comparator key of the innermost sets. */
  type Key = (int, Uuid)

  type Bucket = map<Key, Widget>

  type Index = map<int, map<int, map<int, map<int, Bucket>>>>

  function BoxOf(w: Widget): Box {
    var bl := BottomLeft(w);
    var ur := UpperRight(w);
    Box(bl.x, bl.y, ur.x, ur.y)
  }

  function KeyOf(w: Widget): Key
    requires Stored(w)
  {
    (w.zIndex.value, w.id.value)
  }

  /** Every map along the path of `b` exists. */
  predicate HasLeaf(idx: Index, b: Box) {
    && b.blx in idx
    && b.bly in idx[b.blx]
    && b.urx in idx[b.blx][b.bly]
    && b.ury in idx[b.blx][b.bly][b.urx]
  }

  /** The innermost set filed under `b`; a missing path reads as empty. */
  function LeafAt(idx: Index, b: Box): Bucket {
    if HasLeaf(idx, b) then idx[b.blx][b.bly][b.urx][b.ury] else map[]
  }

  /** The index with the innermost set under `b` replaced by `leaf`, each
      missing level along the path created empty. */
  function PutLeaf(idx: Index, b: Box, leaf: Bucket): (r: Index)
    ensures HasLeaf(r, b)
  {
    var m1 := if b.blx in idx then idx[b.blx] else map[];
    var m2 := if b.bly in m1 then m1[b.bly] else map[];
    var m3 := if b.urx in m2 then m2[b.urx] else map[];
    idx[b.blx := m1[b.bly := m2[b.urx := m3[b.ury := leaf]]]]
  }

  /** Writing the path of `b` changes the set under `b` and no other. */
  lemma PutLeafAt(idx: Index, b: Box, leaf: Bucket, c: Box)
    ensures LeafAt(PutLeaf(idx, b, leaf), c) == if c == b then leaf else LeafAt(idx, c)
  {
    var r := PutLeaf(idx, b, leaf);
    if c != b {
      if c.blx == b.blx && c.bly == b.bly && c.urx == b.urx {
        assert HasLeaf(r, c) <==> HasLeaf(idx, c);
      } else if c.blx == b.blx && c.bly == b.bly {
        assert HasLeaf(r, c) <==> HasLeaf(idx, c);
      } else if c.blx == b.blx {
        assert HasLeaf(r, c) <==> HasLeaf(idx, c);
      }
    }
  }

  /** `addToRectangleMap`: create each missing level (`putIfAbsent`), then
      add the widget to the innermost set unless an element with its key is
      already there. */
  function AddToIndex(idx: Index, w: Widget): (r: Index)
    requires Stored(w)
    ensures HasLeaf(r, BoxOf(w))
    ensures forall b :: (LeafAt(r, b) ==
      if b == BoxOf(w) && KeyOf(w) !in LeafAt(idx, b) then LeafAt(idx, b)[KeyOf(w) := w]
      else LeafAt(idx, b))
  {
    var b := BoxOf(w);
    var leaf := LeafAt(idx, b);
    var r := PutLeaf(idx, b, if KeyOf(w) in leaf then leaf else leaf[KeyOf(w) := w]);
    forall c ensures LeafAt(r, c) ==
      (if c == b && KeyOf(w) !in LeafAt(idx, c) then LeafAt(idx, c)[KeyOf(w) := w]
       else LeafAt(idx, c))
    {
      PutLeafAt(idx, b, if KeyOf(w) in leaf then leaf else leaf[KeyOf(w) := w], c);
    }
    r
  }

  /** `removeInRectangleMap`: follow the path with `getOrDefault`; a missing
      level yields a fresh empty map, so nothing is removed and the index is
      unchanged. Emptied maps stay in place. */
  function RemoveFromIndex(idx: Index, w: Widget): (r: Index)
    requires Stored(w)
    ensures forall b :: (LeafAt(r, b) ==
      if b == BoxOf(w) then LeafAt(idx, b) - {KeyOf(w)} else LeafAt(idx, b))
  {
    var b := BoxOf(w);
    if !HasLeaf(idx, b) then
      idx
    else
      var r := PutLeaf(idx, b, LeafAt(idx, b) - {KeyOf(w)});
      forall c ensures LeafAt(r, c) ==
        (if c == b then LeafAt(idx, c) - {KeyOf(w)} else LeafAt(idx, c))
      {
        PutLeafAt(idx, b, LeafAt(idx, b) - {KeyOf(w)}, c);
      }
      r
  }

  /** Each widget of `byId` is filed under its own id. */
  predicate Keyed(byId: map<Uuid, Widget>) {
    forall v | v in byId :: byId[v].id == Some(v) && byId[v].zIndex.Some?
  }

  /** The innermost set the spatial view should hold under `b`: the widgets
      of `byId` whose corners are `b`, by key. */
  function LeafOf(byId: map<Uuid, Widget>, b: Box): (r: Bucket)
    requires Keyed(byId)
    ensures forall k | k in r ::
      k.1 in byId && r[k] == byId[k.1] && byId[k.1].zIndex == Some(k.0) && BoxOf(byId[k.1]) == b
    ensures forall v | v in byId && BoxOf(byId[v]) == b :: (byId[v].zIndex.value, v) in r
  {
    var r := map v | v in byId && BoxOf(byId[v]) == b :: KeyOf(byId[v]) := byId[v];
    forall v | v in byId && BoxOf(byId[v]) == b ensures (byId[v].zIndex.value, v) in r {
      assert KeyOf(byId[v]) == (byId[v].zIndex.value, v);
    }
    r
  }

  /** The spatial view files exactly the widgets of `byId`, each under its
      own corners and key. */
  ghost predicate Mirrors(idx: Index, byId: map<Uuid, Widget>)
    requires Keyed(byId)
  {
    forall b :: LeafAt(idx, b) == LeafOf(byId, b)
  }

  lemma LeafOfPut(byId: map<Uuid, Widget>, w: Widget, b: Box)
    requires Keyed(byId) && Stored(w)
    ensures Keyed(byId[w.id.value := w]) && Keyed(byId - {w.id.value})
    ensures LeafOf(byId[w.id.value := w], b) ==
      (if b == BoxOf(w) then LeafOf(byId - {w.id.value}, b)[KeyOf(w) := w]
       else LeafOf(byId - {w.id.value}, b))
  {
    var v := w.id.value;
    var l := LeafOf(byId[v := w], b);
    var r := if b == BoxOf(w) then LeafOf(byId - {v}, b)[KeyOf(w) := w] else LeafOf(byId - {v}, b);
    forall k | k in l ensures k in r && l[k] == r[k] {
      LeafOfPutFrom(byId, w, b, k);
    }
    forall k | k in r ensures k in l {
      LeafOfPutTo(byId, w, b, k);
    }
    BucketsEqual(l, r);
  }

  /** A key of the leaf after the upsert is the upserted widget's or one
      the leaf of the other widgets holds. */
  lemma LeafOfPutFrom(byId: map<Uuid, Widget>, w: Widget, b: Box, k: Key)
    requires Keyed(byId) && Stored(w)
    requires Keyed(byId[w.id.value := w]) && k in LeafOf(byId[w.id.value := w], b)
    ensures Keyed(byId - {w.id.value})
    ensures var r := if b == BoxOf(w) then LeafOf(byId - {w.id.value}, b)[KeyOf(w) := w]
                     else LeafOf(byId - {w.id.value}, b);
            k in r && LeafOf(byId[w.id.value := w], b)[k] == r[k]
  {
    var rest := byId - {w.id.value};
    if k.1 != w.id.value {
      assert k.1 in rest && rest[k.1] == byId[w.id.value := w][k.1];
    }
  }

  /** A key of the leaf of the other widgets, or the upserted widget's own
      key in its box, is in the leaf after the upsert. */
  lemma LeafOfPutTo(byId: map<Uuid, Widget>, w: Widget, b: Box, k: Key)
    requires Keyed(byId) && Stored(w) && Keyed(byId - {w.id.value})
    requires k in (if b == BoxOf(w) then LeafOf(byId - {w.id.value}, b)[KeyOf(w) := w]
                   else LeafOf(byId - {w.id.value}, b))
    ensures Keyed(byId[w.id.value := w]) && k in LeafOf(byId[w.id.value := w], b)
  {
    var after := byId[w.id.value := w];
    if k.1 != w.id.value {
      assert k.1 in after && after[k.1] == (byId - {w.id.value})[k.1];
    }
  }

  lemma LeafOfRemove(byId: map<Uuid, Widget>, v: Uuid, b: Box)
    requires Keyed(byId) && v in byId
    ensures Keyed(byId - {v})
    ensures LeafOf(byId - {v}, b) ==
      (if b == BoxOf(byId[v]) then LeafOf(byId, b) - {KeyOf(byId[v])} else LeafOf(byId, b))
  {
    var l, full := LeafOf(byId - {v}, b), LeafOf(byId, b);
    var kept := if b == BoxOf(byId[v]) then full - {KeyOf(byId[v])} else full;
    forall k | k in l ensures k in kept && l[k] == kept[k] {
      assert (byId[k.1].zIndex.value, k.1) in full;
    }
    forall k | k in kept ensures k in l {
      LeafOfRemoveKept(byId, v, b, k);
    }
    BucketsEqual(l, kept);
  }

  lemma LeafOfRemoveKept(byId: map<Uuid, Widget>, v: Uuid, b: Box, k: Key)
    requires Keyed(byId) && v in byId
    requires k in LeafOf(byId, b) && k != KeyOf(byId[v])
    ensures Keyed(byId - {v}) && k in LeafOf(byId - {v}, b)
  {
    var rest := byId - {v};
    assert k.1 in byId && byId[k.1].zIndex == Some(k.0) && BoxOf(byId[k.1]) == b;
    assert k.1 in rest && rest[k.1] == byId[k.1];
  }

  lemma BucketsEqual(a: Bucket, b: Bucket)
    requires forall k | k in a :: k in b && a[k] == b[k]
    requires forall k | k in b :: k in a
    ensures a == b
  {
  }

  /** Upserting `w` into a spatial view that mirrors `byId` — first taking
      out the version it replaces, then adding it — mirrors the updated
      map. */
  lemma MirrorsAfterPut(idx: Index, byId: map<Uuid, Widget>, w: Widget)
    requires Keyed(byId) && Stored(w)
    ensures Keyed(byId[w.id.value := w])
    ensures Mirrors(idx, byId) ==>
            var v := w.id.value;
            var taken := if v in byId then RemoveFromIndex(idx, byId[v]) else idx;
            Mirrors(AddToIndex(taken, w), byId[v := w])
  {
    if !Mirrors(idx, byId) {
      return;
    }
    var v := w.id.value;
    var taken := if v in byId then RemoveFromIndex(idx, byId[v]) else idx;
    var rest := byId - {v};
    if v !in byId {
      assert rest == byId;
    }
    assert Keyed(rest);
    forall b ensures LeafAt(taken, b) == LeafOf(rest, b) {
      if v in byId {
        LeafOfRemove(byId, v, b);
      }
    }
    forall b ensures LeafAt(AddToIndex(taken, w), b) == LeafOf(byId[v := w], b) {
      assert KeyOf(w) !in LeafOf(rest, b);
      LeafOfPut(byId, w, b);
    }
  }

  /** Removing the stored version of `v` from a mirroring spatial view
      mirrors the map without `v`. */
  lemma MirrorsAfterRemove(idx: Index, byId: map<Uuid, Widget>, v: Uuid)
    requires Keyed(byId) && v in byId
    ensures Keyed(byId - {v})
    ensures Mirrors(idx, byId) ==> Mirrors(RemoveFromIndex(idx, byId[v]), byId - {v})
  {
    if !Mirrors(idx, byId) {
      return;
    }
    forall b ensures LeafAt(RemoveFromIndex(idx, byId[v]), b) == LeafOf(byId - {v}, b) {
      LeafOfRemove(byId, v, b);
    }
  }

  /** The empty spatial view mirrors the empty map. */
  lemma MirrorsEmpty()
    ensures Keyed(map[]) && Mirrors(map[], map[])
  {
    forall b ensures LeafAt(map[], b) == LeafOf(map[], b) {
      BucketsEqual(LeafAt(map[], b), LeafOf(map[], b));
    }
  }

  /** All four corner coordinates of `w` lie in the query's inclusive x and
      y ranges. */
  predicate InArea(w: Widget, lo: Point, hi: Point) {
    var b := BoxOf(w);
    && lo.x <= b.blx <= hi.x && lo.y <= b.bly <= hi.y
    && lo.x <= b.urx <= hi.x && lo.y <= b.ury <= hi.y
  }

  /** `searchByRectangleMap`: the `subMap` walk over bottom-left x, bottom-left
      y, upper-right x and upper-right y, each bounded inclusively by the
      query's x or y range, collecting every widget of every innermost set
      reached. */
  function Search(idx: Index, lo: Point, hi: Point): set<Widget> {
    set blx, bly, urx, ury, k |
      && blx in idx && lo.x <= blx <= hi.x
      && bly in idx[blx] && lo.y <= bly <= hi.y
      && urx in idx[blx][bly] && lo.x <= urx <= hi.x
      && ury in idx[blx][bly][urx] && lo.y <= ury <= hi.y
      && k in idx[blx][bly][urx][ury]
      :: idx[blx][bly][urx][ury][k]
  }

  /** On a spatial view that mirrors `byId`, the walk finds exactly the
      widgets of `byId` that lie in the area. */
  lemma SearchMatchesScan(idx: Index, byId: map<Uuid, Widget>, lo: Point, hi: Point)
    requires Keyed(byId) && Mirrors(idx, byId)
    ensures Search(idx, lo, hi) == set v | v in byId && InArea(byId[v], lo, hi) :: byId[v]
  {
    var found := Search(idx, lo, hi);
    var scan := set v | v in byId && InArea(byId[v], lo, hi) :: byId[v];
    forall w | w in found ensures w in scan {
      FoundIsScanned(idx, byId, lo, hi, w);
    }
    forall w | w in scan ensures w in found {
      ScannedIsFound(idx, byId, lo, hi, w);
    }
  }

  /** What the walk finds sits in the innermost set of a box whose four
      coordinates lie in the query's ranges. */
  lemma SearchWitness(idx: Index, lo: Point, hi: Point, w: Widget) returns (b: Box, k: Key)
    requires w in Search(idx, lo, hi)
    ensures HasLeaf(idx, b) && k in LeafAt(idx, b) && LeafAt(idx, b)[k] == w
    ensures lo.x <= b.blx <= hi.x && lo.y <= b.bly <= hi.y && lo.x <= b.urx <= hi.x && lo.y <= b.ury <= hi.y
  {
    var blx, bly, urx, ury, k' :|
      && blx in idx && lo.x <= blx <= hi.x
      && bly in idx[blx] && lo.y <= bly <= hi.y
      && urx in idx[blx][bly] && lo.x <= urx <= hi.x
      && ury in idx[blx][bly][urx] && lo.y <= ury <= hi.y
      && k' in idx[blx][bly][urx][ury]
      && w == idx[blx][bly][urx][ury][k'];
    b, k := Box(blx, bly, urx, ury), k';
  }

  /** What the walk finds is a widget of `byId` in the area. */
  lemma FoundIsScanned(idx: Index, byId: map<Uuid, Widget>, lo: Point, hi: Point, w: Widget)
    requires Keyed(byId) && Mirrors(idx, byId) && w in Search(idx, lo, hi)
    ensures w in set v | v in byId && InArea(byId[v], lo, hi) :: byId[v]
  {
    var b, k := SearchWitness(idx, lo, hi, w);
    assert LeafAt(idx, b) == LeafOf(byId, b);
    assert k.1 in byId && byId[k.1] == w && BoxOf(w) == b;
  }

  /** A widget of `byId` in the area is found by the walk. */
  lemma ScannedIsFound(idx: Index, byId: map<Uuid, Widget>, lo: Point, hi: Point, w: Widget)
    requires Keyed(byId) && Mirrors(idx, byId)
    requires w in set v | v in byId && InArea(byId[v], lo, hi) :: byId[v]
    ensures w in Search(idx, lo, hi)
  {
    var v :| v in byId && InArea(byId[v], lo, hi) && w == byId[v];
    var b := BoxOf(w);
    var k := (w.zIndex.value, v);
    assert k in LeafOf(byId, b);
    assert LeafAt(idx, b) == LeafOf(byId, b);
    assert HasLeaf(idx, b);
  }
}
