/** A snapshot of the three views InMemoryWidgetRepository keeps, the
    queries it answers and the updates it makes, as functions on values.
    The repository class is specified by these functions. Java's `null`
    results are `None`; a stream `skip`/`limit` with a negative count throws
    IllegalArgumentException. */
module WidgetStore {
  import opened Wrappers
  import opened Geometry
  import opened Widgets
  import opened SpatialIndex
  import opened Ordering
  import opened KeyOrder

  /** `widgetMapById`, `widgetMapByZIndex` and `widgetMapByCoordinates`. */
  datatype Store = Store(byId: map<Uuid, Widget>, byZIndex: map<int, Widget>, byCorners: Index)

  function EmptyStore(): Store {
    Store(map[], map[], map[])
  }

  /** Each widget of the z view is filed under its own z-index and has an id. */
  predicate ZKeyed(byZIndex: map<int, Widget>) {
    forall z | z in byZIndex :: byZIndex[z].zIndex == Some(z) && byZIndex[z].id.Some?
  }

  /** The shape every repository operation keeps: each view files widgets
      under their own keys, and the spatial view mirrors the id view. */
  ghost predicate Wf(s: Store) {
    Keyed(s.byId) && ZKeyed(s.byZIndex) && Mirrors(s.byCorners, s.byId)
  }

  /** The z view and the id view hold the same widgets: each widget of one
      is the widget the other files under its key. */
  predicate ZAgrees(s: Store)
    requires Keyed(s.byId) && ZKeyed(s.byZIndex)
  {
    && (forall z | z in s.byZIndex ::
          s.byZIndex[z].id.value in s.byId && s.byId[s.byZIndex[z].id.value] == s.byZIndex[z])
    && (forall v | v in s.byId ::
          s.byId[v].zIndex.value in s.byZIndex && s.byZIndex[s.byId[v].zIndex.value] == s.byId[v])
  }

  /** All three views describe one set of widgets. */
  ghost predicate Consistent(s: Store) {
    Wf(s) && ZAgrees(s)
  }

  /** A key of a non-empty map. */
  lemma SomeKey<K, V>(m: map<K, V>) returns (k: K)
    requires |m| > 0
    ensures k in m
  {
    assert |m.Keys| == |m|;
    k :| k in m.Keys;
  }

  /** Dropping one id and the z key of its widget from agreeing views
      leaves agreeing views. */
  lemma AgreeingWithout(s: Store, v: Uuid)
    requires Keyed(s.byId) && ZKeyed(s.byZIndex) && ZAgrees(s) && v in s.byId
    ensures var r := s.(byId := s.byId - {v}, byZIndex := s.byZIndex - {s.byId[v].zIndex.value});
            Keyed(r.byId) && ZKeyed(r.byZIndex) && ZAgrees(r)
  {
    var z := s.byId[v].zIndex.value;
    var r := s.(byId := s.byId - {v}, byZIndex := s.byZIndex - {z});
    forall z' | z' in r.byZIndex
      ensures r.byZIndex[z'].id.value in r.byId && r.byId[r.byZIndex[z'].id.value] == r.byZIndex[z']
    {
      var u := s.byZIndex[z'].id.value;
      assert u in s.byId && s.byId[u] == s.byZIndex[z'];
    }
    forall v' | v' in r.byId
      ensures r.byId[v'].zIndex.value in r.byZIndex && r.byZIndex[r.byId[v'].zIndex.value] == r.byId[v']
    {
      var z' := s.byId[v'].zIndex.value;
      assert z' in s.byZIndex && s.byZIndex[z'] == s.byId[v'];
    }
  }

  /** Agreeing views hold as many z keys as ids: each id files its widget
      under one z key and each z key names one id. */
  lemma {:induction false} AgreeingViewsSameSize(s: Store)
    requires Keyed(s.byId) && ZKeyed(s.byZIndex) && ZAgrees(s)
    ensures |s.byZIndex| == |s.byId|
    decreases |s.byId|
  {
    if |s.byId| > 0 {
      var v := SomeKey(s.byId);
      var z := s.byId[v].zIndex.value;
      var r := s.(byId := s.byId - {v}, byZIndex := s.byZIndex - {z});
      assert z in s.byZIndex;
      assert r.byId.Keys == s.byId.Keys - {v} && r.byZIndex.Keys == s.byZIndex.Keys - {z};
      AgreeingWithout(s, v);
      AgreeingViewsSameSize(r);
    } else if |s.byZIndex| > 0 {
      var z := SomeKey(s.byZIndex);
      assert false;
    }
  }

  // Queries

  /** `count`: the size of the id view. */
  function CountOf(s: Store): nat {
    |s.byId|
  }

  /** `findHighestZIndex`: the last key of the z view, or null when it is empty. */
  function HighestZIndexOf(s: Store): (r: Option<int>)
    ensures r.None? <==> s.byZIndex == map[]
    ensures r.Some? ==> r.value in s.byZIndex && forall z | z in s.byZIndex :: z <= r.value
  {
    if |s.byZIndex| == 0 then None else Some(Max(s.byZIndex.Keys))
  }

  /** `findLeastZIndexGreaterThanOrEqualTo` (`ceilingKey`): the least key of
      the z view at or above `index`, or null when there is none. */
  function CeilingZIndexOf(s: Store, index: int): (r: Option<int>)
    ensures r.None? <==> forall z | z in s.byZIndex :: z < index
    ensures r.Some? ==> (&& r.value in s.byZIndex && index <= r.value
                         && forall z | z in s.byZIndex && index <= z :: r.value <= z)
  {
    var above := set z | z in s.byZIndex && index <= z;
    if above == {} then
      assert forall z | z in s.byZIndex :: z < index by {
        forall z | z in s.byZIndex ensures z < index {
          assert z in above <==> index <= z;
        }
      }
      None
    else
      var m := Min(above);
      assert forall z | z in s.byZIndex && index <= z :: m <= z by {
        forall z | z in s.byZIndex && index <= z ensures m <= z {
          assert z in above;
        }
      }
      Some(m)
  }

  /** `findById`: the id view's entry, or null. */
  function WidgetById(s: Store, id: Uuid): (r: Option<Widget>)
    ensures r.Some? <==> id in s.byId
    ensures r.Some? ==> r.value == s.byId[id]
  {
    if id in s.byId then Some(s.byId[id]) else None
  }

  /** The values of `byZIndex` under the keys of `keys`, in ascending key
      order, as `TreeMap.values()` reads them. */
  function ValuesInKeyOrder(byZIndex: map<int, Widget>, keys: set<int>): (r: seq<Widget>)
    requires ZKeyed(byZIndex) && keys <= byZIndex.Keys
    ensures |r| == |keys|
    ensures forall i | 0 <= i < |r| ::
      r[i].zIndex.Some? && r[i].zIndex.value in keys && r[i] == byZIndex[r[i].zIndex.value]
    ensures forall z | z in keys :: byZIndex[z] in r
    ensures forall i, j | 0 <= i < j < |r| :: r[i].zIndex.value < r[j].zIndex.value
  {
    var ks := Ascending(keys);
    var r := seq(|ks|, i requires 0 <= i < |ks| => byZIndex[ks[i]]);
    ValuesOfAscendingKeys(byZIndex, keys, ks, r);
    r
  }

  /** Reading the z view at the keys of `keys` in ascending order gives
      each of their widgets once, in ascending z-index order. */
  lemma ValuesOfAscendingKeys(byZIndex: map<int, Widget>, keys: set<int>, ks: seq<int>, r: seq<Widget>)
    requires ZKeyed(byZIndex) && keys <= byZIndex.Keys
    requires (forall k | k in keys :: k in ks) && (forall i | 0 <= i < |ks| :: ks[i] in keys) && Increasing(ks)
    requires |r| == |ks| && forall i | 0 <= i < |ks| :: r[i] == byZIndex[ks[i]]
    ensures forall i | 0 <= i < |r| ::
      r[i].zIndex.Some? && r[i].zIndex.value in keys && r[i] == byZIndex[r[i].zIndex.value]
    ensures forall z | z in keys :: byZIndex[z] in r
    ensures forall i, j | 0 <= i < j < |r| :: r[i].zIndex.value < r[j].zIndex.value
  {
    forall i | 0 <= i < |r| ensures r[i].zIndex == Some(ks[i]) {
      var z := ks[i];
      assert z in byZIndex;
      assert ZKeyed(byZIndex);
      assert byZIndex[z].zIndex == Some(z);
      assert r[i] == byZIndex[z];
    }
    forall z | z in keys ensures byZIndex[z] in r {
      var i :| 0 <= i < |ks| && ks[i] == z;
      assert r[i] == byZIndex[z];
    }
  }

  /** `findAllSortByZIndex()`: the values of the z view in ascending z-index order. */
  function SortedByZIndex(s: Store): (r: seq<Widget>)
    requires ZKeyed(s.byZIndex)
    ensures |r| == |s.byZIndex|
    ensures forall i | 0 <= i < |r| ::
      r[i].zIndex.Some? && r[i].zIndex.value in s.byZIndex && r[i] == s.byZIndex[r[i].zIndex.value]
    ensures forall z | z in s.byZIndex :: s.byZIndex[z] in r
    ensures forall i, j | 0 <= i < j < |r| :: r[i].zIndex.value < r[j].zIndex.value
  {
    ValuesInKeyOrder(s.byZIndex, s.byZIndex.Keys)
  }

  /** `stream().skip(skip).limit(take)`: drop the first `skip` elements and
      keep at most `take`; a negative count throws. */
  function Window<T>(xs: seq<T>, skip: int, take: int): (r: Result<seq<T>>)
    ensures r.Ok? <==> skip >= 0 && take >= 0
    ensures r.Err? ==> r.error.IllegalArgument?
    ensures r.Ok? ==> (&& |r.value| == (if skip >= |xs| then 0 else if |xs| - skip < take then |xs| - skip else take)
                       && forall i | 0 <= i < |r.value| :: skip + i < |xs| && r.value[i] == xs[skip + i])
  {
    if skip < 0 then Err(IllegalArgument("skip"))
    else if take < 0 then Err(IllegalArgument("take"))
    else if skip >= |xs| then Ok([])
    else if |xs| - skip < take then Ok(xs[skip..])
    else Ok(xs[skip..skip + take])
  }

  /** `findAllSortByZIndex(skip, take)`. */
  function SortedByZIndexWindow(s: Store, skip: int, take: int): (r: Result<seq<Widget>>)
    requires ZKeyed(s.byZIndex)
    ensures r.Ok? <==> skip >= 0 && take >= 0
    ensures r.Ok? && skip >= |s.byZIndex| ==> r.value == []
    ensures r.Ok? ==> |r.value| == (if skip >= |s.byZIndex| then 0
                                    else if |s.byZIndex| - skip < take then |s.byZIndex| - skip else take)
    ensures r.Ok? ==> (&& |r.value| <= take
                       && forall i | 0 <= i < |r.value| ::
                            skip + i < |s.byZIndex| && r.value[i] == SortedByZIndex(s)[skip + i])
  {
    Window(SortedByZIndex(s), skip, take)
  }

  /** The keys of a set of indexable widgets are pairwise distinct. */
  predicate DistinctKeys(ws: set<Widget>) {
    && (forall w | w in ws :: Stored(w))
    && (forall w1, w2 | w1 in ws && w2 in ws && KeyOf(w1) == KeyOf(w2) :: w1 == w2)
  }

  /** The widget of `ws` with the least key. */
  function LeastByKey(ws: set<Widget>): (w: Widget)
    requires DistinctKeys(ws) && ws != {}
    ensures w in ws && forall v | v in ws && v != w :: PairLess(KeyOf(w), KeyOf(v))
  {
    var keys := set v | v in ws :: KeyOf(v);
    assert keys != {} by {
      var v :| v in ws;
      assert KeyOf(v) in keys;
    }
    var least := LeastPair(keys);
    var w :| w in ws && KeyOf(w) == least;
    assert forall v | v in ws && v != w :: PairLess(least, KeyOf(v)) by {
      forall v | v in ws && v != w ensures PairLess(least, KeyOf(v)) {
        assert KeyOf(v) in keys;
      }
    }
    w
  }

  /** A `TreeSet` under the (z-index, id) comparator, read in order. */
  function SortByKey(ws: set<Widget>): (r: seq<Widget>)
    requires DistinctKeys(ws)
    ensures |r| == |ws|
    ensures forall w | w in ws :: w in r
    ensures forall i | 0 <= i < |r| :: r[i] in ws
    ensures forall i, j | 0 <= i < j < |r| :: PairLess(KeyOf(r[i]), KeyOf(r[j]))
    decreases |ws|
  {
    if ws == {} then []
    else
      var w := LeastByKey(ws);
      var r := [w] + SortByKey(ws - {w});
      assert forall v | v in ws :: v == w || v in ws - {w};
      r
  }

  /** The widgets of the id view whose corners lie in the area. */
  function AreaScan(byId: map<Uuid, Widget>, lo: Point, hi: Point): set<Widget> {
    set v | v in byId && InArea(byId[v], lo, hi) :: byId[v]
  }

  lemma AreaScanDistinct(byId: map<Uuid, Widget>, lo: Point, hi: Point)
    requires Keyed(byId)
    ensures DistinctKeys(AreaScan(byId, lo, hi))
  {
  }

  /** `findAllInAreaSortByZIndex`: build the query rectangle from its corners
      (which throws for a missing or inverted corner), search the spatial
      view, order by (z-index, id) and apply skip and take. */
  function InAreaSortedByZIndex(s: Store, bottomLeft: Point, upperRight: Point, skip: int, take: int)
    : (r: Result<seq<Widget>>)
    requires Wf(s)
    ensures r.Ok? <==> (&& bottomLeft.x < upperRight.x && bottomLeft.y < upperRight.y
                        && skip >= 0 && take >= 0)
    ensures r.Err? ==> r.error.IllegalArgument?
    ensures r.Ok? ==>
      var found := SortByKey(AreaScan(s.byId, bottomLeft, upperRight));
      && |found| == |AreaScan(s.byId, bottomLeft, upperRight)|
      && |r.value| == (if skip >= |found| then 0 else if |found| - skip < take then |found| - skip else take)
      && |r.value| <= take
      && forall i | 0 <= i < |r.value| :: skip + i < |found| && r.value[i] == found[skip + i]
  {
    var rect := FromCorners(Some(bottomLeft), Some(upperRight));
    if rect.Err? then Err(rect.error)
    else
      SearchMatchesScan(s.byCorners, s.byId, bottomLeft, upperRight);
      AreaScanDistinct(s.byId, bottomLeft, upperRight);
      Window(SortByKey(Search(s.byCorners, rect.value.bottomLeft, rect.value.upperRight)), skip, take)
  }

  /** The z-indexes of the z view at or above `index`. */
  function KeysFrom(byZIndex: map<int, Widget>, index: int): set<int> {
    set z | z in byZIndex && index <= z
  }

  /** Above the least key `m` at or above `index`, the keys at or above
      `index` are those at or above m+1, and `m`. */
  lemma KeysFromCeiling(byZIndex: map<int, Widget>, index: int, m: int)
    requires m in byZIndex && index <= m
    requires forall z | z in byZIndex && index <= z :: m <= z
    ensures KeysFrom(byZIndex, index) == KeysFrom(byZIndex, m + 1) + {m}
    ensures m !in KeysFrom(byZIndex, m + 1)
  {
  }

  /** `findAllSortByZIndexGreaterThanOrEqualTo` (`tailMap(index).values()`):
      the widget under the ceiling key of `index`, then those above it, one
      per key. */
  function TailFrom(s: Store, index: int): (r: seq<Widget>)
    ensures |r| == |KeysFrom(s.byZIndex, index)|
    ensures ZKeyed(s.byZIndex) ==> forall i | 0 <= i < |r| :: Stored(r[i])
    decreases |KeysFrom(s.byZIndex, index)|
  {
    var c := CeilingZIndexOf(s, index);
    if c.None? then
      assert KeysFrom(s.byZIndex, index) == {};
      []
    else
      KeysFromCeiling(s.byZIndex, index, c.value);
      [s.byZIndex[c.value]] + TailFrom(s, c.value + 1)
  }

  // Updates

  /** `saveOrUpdate(widget)`: put the widget in the id view and in the z view
      under its own z-index (the z key of a version it replaces is left in
      place), move the replaced version's spatial entry to the new one. */
  function Saved(s: Store, w: Widget): (r: Store)
    requires Stored(w) && Keyed(s.byId)
    ensures Keyed(r.byId)
    ensures ZKeyed(s.byZIndex) ==> ZKeyed(r.byZIndex)
    ensures Wf(s) ==> Wf(r)
  {
    var v := w.id.value;
    var taken := if v in s.byId then RemoveFromIndex(s.byCorners, s.byId[v]) else s.byCorners;
    MirrorsAfterPut(s.byCorners, s.byId, w);
    ZKeyedAfterPut(s.byZIndex, w);
    Store(s.byId[v := w], s.byZIndex[w.zIndex.value := w], AddToIndex(taken, w))
  }

  /** Filing an indexable widget under its own z-index keeps the z view keyed. */
  lemma ZKeyedAfterPut(byZIndex: map<int, Widget>, w: Widget)
    requires Stored(w)
    ensures ZKeyed(byZIndex) ==> ZKeyed(byZIndex[w.zIndex.value := w])
  {
  }

  /** `saveOrUpdate(collection)`: one `saveOrUpdate` per widget, in order. */
  function SavedAll(s: Store, ws: seq<Widget>): (r: Store)
    requires Keyed(s.byId) && forall i | 0 <= i < |ws| :: Stored(ws[i])
    ensures Keyed(r.byId)
    ensures ZKeyed(s.byZIndex) ==> ZKeyed(r.byZIndex)
    decreases |ws|
  {
    if ws == [] then s else Saved(SavedAll(s, ws[..|ws| - 1]), ws[|ws| - 1])
  }

  /** Saving one widget more after a prefix of a sequence saves the next
      longer prefix. */
  lemma SavedAllPrefix(s: Store, ws: seq<Widget>, i: nat)
    requires Keyed(s.byId) && (forall j | 0 <= j < |ws| :: Stored(ws[j])) && i < |ws|
    ensures SavedAll(s, ws[..i + 1]) == Saved(SavedAll(s, ws[..i]), ws[i])
  {
    assert ws[..i + 1][..i] == ws[..i];
  }

  /** Saving a sequence one widget at a time keeps the shape. */
  lemma {:induction false} SavedAllKeepsShape(s: Store, ws: seq<Widget>)
    requires Keyed(s.byId) && forall i | 0 <= i < |ws| :: Stored(ws[i])
    ensures Wf(s) ==> Wf(SavedAll(s, ws))
    decreases |ws|
  {
    if ws != [] {
      SavedAllKeepsShape(s, ws[..|ws| - 1]);
    }
  }

  /** `remove(widget)`: drop the id view's entry for the widget's id and,
      unconditionally, the z view's key for its z-index; take the removed
      version, if any, out of the spatial view and return it. */
  function Removed(s: Store, w: Widget): (r: (Store, Option<Widget>))
    requires Stored(w) && Keyed(s.byId)
    ensures Keyed(r.0.byId)
    ensures Wf(s) ==> Wf(r.0)
  {
    var v := w.id.value;
    if v in s.byId then
      MirrorsAfterRemove(s.byCorners, s.byId, v);
      (Store(s.byId - {v}, s.byZIndex - {w.zIndex.value}, RemoveFromIndex(s.byCorners, s.byId[v])), Some(s.byId[v]))
    else
      (Store(s.byId, s.byZIndex - {w.zIndex.value}, s.byCorners), None)
  }

  /** `removeAll`: every view emptied. */
  function Cleared(s: Store): (r: Store)
    ensures Consistent(r)
    ensures CountOf(r) == 0 && HighestZIndexOf(r).None?
  {
    MirrorsEmpty();
    EmptyStore()
  }
}
