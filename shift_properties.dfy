/** What `getShiftedTailWidgetsAt` collects and what writing it back does
    to the store: the run of occupied z-indexes starting at the target,
    each widget of the run moved one up. */
module ShiftProperties {
  import opened Wrappers
  import opened Widgets
  import opened SpatialIndex
  import opened WidgetStore
  import opened ServiceLogic

  /** `tail` is what `findAllSortByZIndexGreaterThanOrEqualTo(t)` reads:
      the widgets of the z view at or above `t`, each at its own key, all
      of them, in ascending z-index order. */
  ghost predicate IsTailOf(s: Store, t: int, tail: seq<Widget>) {
    && (forall i | 0 <= i < |tail| ::
          && tail[i].zIndex.Some? && tail[i].zIndex.value in s.byZIndex && t <= tail[i].zIndex.value
          && tail[i] == s.byZIndex[tail[i].zIndex.value])
    && (forall z | z in s.byZIndex && t <= z :: s.byZIndex[z] in tail)
    && (forall i, j | 0 <= i < j < |tail| :: tail[i].zIndex.value < tail[j].zIndex.value)
  }

  /** The widget under the ceiling key `m` of `t` followed by the tail
      above `m` is the tail from `t`. */
  lemma ConsTail(s: Store, t: int, m: int, rest: seq<Widget>)
    requires ZKeyed(s.byZIndex) && m in s.byZIndex && t <= m
    requires forall z | z in s.byZIndex && t <= z :: m <= z
    requires IsTailOf(s, m + 1, rest)
    ensures IsTailOf(s, t, [s.byZIndex[m]] + rest)
  {
    var r := [s.byZIndex[m]] + rest;
    forall i | 0 <= i < |r|
      ensures && r[i].zIndex.Some? && r[i].zIndex.value in s.byZIndex && t <= r[i].zIndex.value
              && r[i] == s.byZIndex[r[i].zIndex.value]
    {
      if i > 0 {
        assert r[i] == rest[i - 1];
      }
    }
    forall z | z in s.byZIndex && t <= z ensures s.byZIndex[z] in r {
      if z == m {
        assert r[0] == s.byZIndex[m];
      } else {
        var j := TailIndexOf(s, m + 1, rest, z);
        assert r[j + 1] == rest[j];
      }
    }
    forall i, j | 0 <= i < j < |r| ensures r[i].zIndex.value < r[j].zIndex.value {
      assert r[j] == rest[j - 1];
      if i > 0 {
        assert r[i] == rest[i - 1];
      }
    }
  }

  /** `findAllSortByZIndexGreaterThanOrEqualTo(t)` reads the tail. */
  lemma {:induction false} TailFromIsTail(s: Store, t: int)
    requires ZKeyed(s.byZIndex)
    ensures IsTailOf(s, t, TailFrom(s, t)) && AllStored(TailFrom(s, t))
    decreases |KeysFrom(s.byZIndex, t)|
  {
    var c := CeilingZIndexOf(s, t);
    if c.Some? {
      var m := c.value;
      KeysFromCeiling(s.byZIndex, t, m);
      var rest := TailFrom(s, m + 1);
      assert TailFrom(s, t) == [s.byZIndex[m]] + rest;
      TailFromIsTail(s, m + 1);
      ConsTail(s, t, m, rest);
    }
  }

  /** Every widget of the z view at or above the index is in the tail. */
  lemma TailIndexOf(s: Store, t: int, tail: seq<Widget>, z: int) returns (j: nat)
    requires IsTailOf(s, t, tail) && z in s.byZIndex && t <= z
    ensures j < |tail| && tail[j] == s.byZIndex[z]
  {
    j :| 0 <= j < |tail| && tail[j] == s.byZIndex[z];
  }

  /** The tail read at a taken z-index starts with the widget there. */
  lemma TailStartsAt(s: Store, t: int, tail: seq<Widget>)
    requires ZKeyed(s.byZIndex) && IsTailOf(s, t, tail) && t in s.byZIndex
    ensures |tail| > 0 && tail[0] == s.byZIndex[t]
  {
    var j := TailIndexOf(s, t, tail, t);
  }

  /** In the tail, a widget directly above another one comes right after it. */
  lemma TailNext(s: Store, t: int, tail: seq<Widget>, i: nat)
    requires ZKeyed(s.byZIndex) && IsTailOf(s, t, tail) && i < |tail|
    requires tail[i].zIndex.value + 1 in s.byZIndex
    ensures i + 1 < |tail| && tail[i + 1] == s.byZIndex[tail[i].zIndex.value + 1]
  {
    var z := tail[i].zIndex.value;
    var j := TailIndexOf(s, t, tail, z + 1);
    assert tail[j].zIndex.value == z + 1;
    assert i < j;
  }

  /** The positions the loop copies hold the consecutive z-indexes from the target. */
  lemma {:induction false} RunPrefix(s: Store, t: int, tail: seq<Widget>, excludeIndex: Option<int>, i: nat)
    requires ZKeyed(s.byZIndex) && IsTailOf(s, t, tail) && AllStored(tail) && t in s.byZIndex
    requires i < RunLength(tail, excludeIndex)
    ensures tail[i].zIndex == Some(t + i)
    decreases i
  {
    if i == 0 {
      TailStartsAt(s, t, tail);
    } else {
      RunPrefix(s, t, tail, excludeIndex, i - 1);
      assert Continues(tail, i, excludeIndex);
      assert tail[i - 1].zIndex.value < tail[i].zIndex.value;
    }
  }

  /** The walk stops at t+n because t+n is free or excluded. */
  lemma RunEnd(s: Store, t: int, tail: seq<Widget>, excludeIndex: Option<int>)
    requires ZKeyed(s.byZIndex) && IsTailOf(s, t, tail) && AllStored(tail) && t in s.byZIndex
    ensures var n := RunLength(tail, excludeIndex);
            t + n !in s.byZIndex || Some(t + n) == excludeIndex
  {
    var n := RunLength(tail, excludeIndex);
    TailStartsAt(s, t, tail);
    if n == 0 {
      assert !Continues(tail, 0, excludeIndex);
    } else if t + n in s.byZIndex {
      RunPrefix(s, t, tail, excludeIndex, n - 1);
      TailNext(s, t, tail, n - 1);
      assert !Continues(tail, n, excludeIndex);
    }
  }

  /** The walk from a taken z-index `t` copies the widgets at t, t+1, ...,
      t+n-1, none of them at the excluded index, and stops at t+n because
      it is free or excluded. */
  lemma RunShape(s: Store, t: int, tail: seq<Widget>, excludeIndex: Option<int>)
    requires ZKeyed(s.byZIndex) && IsTailOf(s, t, tail) && AllStored(tail) && t in s.byZIndex
    ensures var n := RunLength(tail, excludeIndex);
            && (forall i | 0 <= i < n :: t + i in s.byZIndex && tail[i] == s.byZIndex[t + i])
            && (forall z {:trigger z in s.byZIndex} | t <= z < t + n :: z in s.byZIndex && Some(z) != excludeIndex)
            && (t + n !in s.byZIndex || Some(t + n) == excludeIndex)
  {
    var n := RunLength(tail, excludeIndex);
    forall i | 0 <= i < n ensures t + i in s.byZIndex && tail[i] == s.byZIndex[t + i] {
      RunPrefix(s, t, tail, excludeIndex, i);
    }
    forall z | t <= z < t + n ensures z in s.byZIndex && Some(z) != excludeIndex {
      RunPrefix(s, t, tail, excludeIndex, z - t);
      assert Continues(tail, z - t, excludeIndex);
    }
    RunEnd(s, t, tail, excludeIndex);
  }

  /** How many widgets the shift at `t` moves: the length of the run of
      taken z-indexes t, t+1, ... that stops at the first free or excluded
      one. */
  function ShiftCount(s: Store, t: int, excludeIndex: Option<int>): (k: nat)
    ensures t !in s.byZIndex ==> k == 0
    ensures forall z {:trigger z in s.byZIndex} | t <= z < t + k :: z in s.byZIndex && Some(z) != excludeIndex
    ensures t + k !in s.byZIndex || Some(t + k) == excludeIndex
    decreases |KeysFrom(s.byZIndex, t)|
  {
    if t in s.byZIndex && Some(t) != excludeIndex then
      assert KeysFrom(s.byZIndex, t) == KeysFrom(s.byZIndex, t + 1) + {t};
      1 + ShiftCount(s, t + 1, excludeIndex)
    else 0
  }

  /** Any run length with the shape ShiftCount promises is ShiftCount. */
  lemma ShiftCountUnique(s: Store, t: int, excludeIndex: Option<int>, n: nat)
    requires forall z {:trigger z in s.byZIndex} | t <= z < t + n :: z in s.byZIndex && Some(z) != excludeIndex
    requires t + n !in s.byZIndex || Some(t + n) == excludeIndex
    ensures n == ShiftCount(s, t, excludeIndex)
  {
    var k := ShiftCount(s, t, excludeIndex);
    assert t + n !in s.byZIndex || Some(t + n) == excludeIndex;
    assert t + k !in s.byZIndex || Some(t + k) == excludeIndex;
  }

  lemma RunBounds(s: Store, t: int, tail: seq<Widget>, excludeIndex: Option<int>, n: nat)
    requires ZKeyed(s.byZIndex) && IsTailOf(s, t, tail) && AllStored(tail) && t in s.byZIndex
    requires n == RunLength(tail, excludeIndex)
    ensures forall z {:trigger z in s.byZIndex} | t <= z < t + n :: z in s.byZIndex && Some(z) != excludeIndex
    ensures t + n !in s.byZIndex || Some(t + n) == excludeIndex
  {
    RunShape(s, t, tail, excludeIndex);
  }

  /** The loop of `getShiftedTailWidgetsAt` walks ShiftCount widgets. */
  lemma TailRun(s: Store, t: int, excludeIndex: Option<int>)
    requires ZKeyed(s.byZIndex) && t in s.byZIndex
    ensures RunLength(TailFrom(s, t), excludeIndex) == ShiftCount(s, t, excludeIndex)
  {
    var tail := TailFrom(s, t);
    TailFromIsTail(s, t);
    var n := RunLength(tail, excludeIndex);
    RunBounds(s, t, tail, excludeIndex, n);
    ShiftCountUnique(s, t, excludeIndex, n);
  }

  /** Copies of the widgets at t .. t+k-1, each one z-index up. */
  function RunCopies(s: Store, t: int, k: nat, now: Timestamp): (r: seq<Widget>)
    requires ZKeyed(s.byZIndex) && forall z | t <= z < t + k :: z in s.byZIndex
    ensures |r| == k && AllStored(r)
    ensures forall i | 0 <= i < k :: r[i] == ShiftedCopy(s.byZIndex[t + i], now)
  {
    var r := seq(k, i requires 0 <= i < k => ShiftedCopy(s.byZIndex[t + i], now));
    assert forall i | 0 <= i < k :: Stored(r[i]) by {
      forall i | 0 <= i < k ensures Stored(r[i]) {
        assert t + i in s.byZIndex;
        assert r[i] == ShiftedCopy(s.byZIndex[t + i], now);
        assert s.byZIndex[t + i].id.Some?;
      }
    }
    r
  }

  /** The copies `getShiftedTailWidgetsAt` returns are those of the run. */
  lemma ShiftedTailIsRun(s: Store, t: int, excludeIndex: Option<int>, now: Timestamp)
    requires ZKeyed(s.byZIndex) && t in s.byZIndex
    ensures ShiftedTail(s, t, excludeIndex, now) == RunCopies(s, t, ShiftCount(s, t, excludeIndex), now)
  {
    TailFromIsTail(s, t);
    RunShape(s, t, TailFrom(s, t), excludeIndex);
    TailRun(s, t, excludeIndex);
  }

  /** `byId` is the id view of `s` with each widget at t .. t+k-1
      replaced by its copy one z-index up. */
  ghost predicate IdsShifted(s: Store, byId: map<Uuid, Widget>, t: int, k: nat, now: Timestamp)
    requires Keyed(s.byId)
  {
    && byId.Keys == s.byId.Keys
    && (forall v {:trigger byId[v]} | v in s.byId ::
          byId[v] == if t <= s.byId[v].zIndex.value < t + k then ShiftedCopy(s.byId[v], now) else s.byId[v])
  }

  /** `byZIndex` is the z view of `s` with the copy of each widget at
      t .. t+k-1 added one key higher; every other key, `t` among them,
      keeps its old widget. */
  ghost predicate ZShifted(s: Store, byZIndex: map<int, Widget>, t: int, k: nat, now: Timestamp)
    requires ZKeyed(s.byZIndex) && forall z | t <= z < t + k :: z in s.byZIndex
  {
    && (forall z {:trigger z in byZIndex} | z in byZIndex :: z in s.byZIndex || t < z <= t + k)
    && (forall z {:trigger z in byZIndex} | z in s.byZIndex && !(t < z <= t + k) ::
          z in byZIndex && byZIndex[z] == s.byZIndex[z])
    && (forall z {:trigger z in byZIndex} | t < z <= t + k ::
          z in byZIndex && byZIndex[z] == ShiftedCopy(s.byZIndex[z - 1], now))
  }

  /** Both views of `s` with the widgets at t .. t+k-1 moved one z-index up. */
  ghost predicate ShiftedViews(s: Store, byId: map<Uuid, Widget>, byZIndex: map<int, Widget>,
                               t: int, k: nat, now: Timestamp)
    requires Keyed(s.byId) && ZKeyed(s.byZIndex) && forall z | t <= z < t + k :: z in s.byZIndex
  {
    IdsShifted(s, byId, t, k, now) && ZShifted(s, byZIndex, t, k, now)
  }

  /** Replacing the widget at t+k-1, which only `u` holds, by its copy
      extends the id view's shift by one. */
  lemma IdsStep(s: Store, byId: map<Uuid, Widget>, t: int, k: nat, now: Timestamp, u: Uuid)
    requires Keyed(s.byId) && k >= 1 && IdsShifted(s, byId, t, k - 1, now)
    requires u in s.byId && s.byId[u].zIndex == Some(t + k - 1)
    requires forall v | v in s.byId && v != u :: s.byId[v].zIndex != Some(t + k - 1)
    ensures IdsShifted(s, byId[u := ShiftedCopy(s.byId[u], now)], t, k, now)
  {
  }

  /** Adding the copy of the widget at t+k-1 one key higher extends the z
      view's shift by one. */
  lemma ZStep(s: Store, byZIndex: map<int, Widget>, t: int, k: nat, now: Timestamp)
    requires ZKeyed(s.byZIndex) && k >= 1 && forall z | t <= z < t + k :: z in s.byZIndex
    requires ZShifted(s, byZIndex, t, k - 1, now)
    ensures ZShifted(s, byZIndex[t + k := ShiftedCopy(s.byZIndex[t + k - 1], now)], t, k, now)
  {
    var m := byZIndex[t + k := ShiftedCopy(s.byZIndex[t + k - 1], now)];
    forall z | t < z <= t + k ensures z in m && m[z] == ShiftedCopy(s.byZIndex[z - 1], now) {
      if z < t + k {
        assert z in byZIndex;
      }
    }
  }

  /** In agreeing views the widget at a z-index is held by its own id and
      by no other. */
  lemma SoleHolder(s: Store, z: int)
    requires Keyed(s.byId) && ZKeyed(s.byZIndex) && ZAgrees(s) && z in s.byZIndex
    ensures var u := s.byZIndex[z].id.value;
            && u in s.byId && s.byId[u] == s.byZIndex[z] && s.byId[u].zIndex == Some(z)
            && forall v | v in s.byId && v != u :: s.byId[v].zIndex != Some(z)
  {
    var u := s.byZIndex[z].id.value;
    forall v | v in s.byId && v != u ensures s.byId[v].zIndex != Some(z) {
      var zv := s.byId[v].zIndex.value;
      assert zv in s.byZIndex && s.byZIndex[zv].id == Some(v);
    }
  }

  /** `saveOrUpdate` changes the id view and the z view as a map update. */
  lemma SavedViews(p: Store, w: Widget)
    requires Stored(w) && Keyed(p.byId)
    ensures Saved(p, w).byId == p.byId[w.id.value := w]
    ensures Saved(p, w).byZIndex == p.byZIndex[w.zIndex.value := w]
  {
  }

  /** Saving the run's copies one by one gives the shifted views. */
  lemma {:induction false} SavedAllRunShape(s: Store, t: int, k: nat, now: Timestamp)
    requires Keyed(s.byId) && ZKeyed(s.byZIndex) && ZAgrees(s)
    requires forall z | t <= z < t + k :: z in s.byZIndex
    ensures var r := SavedAll(s, RunCopies(s, t, k, now));
            ShiftedViews(s, r.byId, r.byZIndex, t, k, now)
    decreases k
  {
    var run := RunCopies(s, t, k, now);
    if k == 0 {
      assert run == [];
    } else {
      SoleHolder(s, t + k - 1);
      assert run[..k - 1] == RunCopies(s, t, k - 1, now);
      SavedAllRunShape(s, t, k - 1, now);
      var p := SavedAll(s, run[..k - 1]);
      IdsStep(s, p.byId, t, k, now, s.byZIndex[t + k - 1].id.value);
      ZStep(s, p.byZIndex, t, k, now);
      SavedViews(p, run[k - 1]);
    }
  }

  /** The id view and the z view after the shift step of `save` and
      `update`, in closed form. */
  lemma ShiftedStoreShape(s: Store, t: int, excludeIndex: Option<int>, now: Timestamp)
    requires Keyed(s.byId) && ZKeyed(s.byZIndex) && ZAgrees(s)
    ensures var r := ShiftedStore(s, t, excludeIndex, now);
            ShiftedViews(s, r.byId, r.byZIndex, t, ShiftCount(s, t, excludeIndex), now)
  {
    if t in s.byZIndex {
      ShiftedTailIsRun(s, t, excludeIndex, now);
      SavedAllRunShape(s, t, ShiftCount(s, t, excludeIndex), now);
    }
  }
}
