/** What the service's updates do to the agreement of the id view and the
    z view (ConcurrentWidgetService.java over InMemoryWidgetRepository.java):
    `save` with a fresh id keeps it, `delete` keeps it, a failed `save`
    after a shift breaks it, and `update` keeps it exactly when its shift
    run does not reach the old version's z-index. */
module ServiceProperties {
  import opened Wrappers
  import opened Widgets
  import opened SpatialIndex
  import opened WidgetStore
  import opened ServiceLogic
  import opened ShiftProperties

  // Saving a widget at the bottom of a shifted run

  /** Every key of the z view after the shift and the save names the widget
      the id view holds for its id. */
  lemma SaveAfterShiftZHalf(s: Store, r: Store, t: int, k: nat, now: Timestamp, w: Widget)
    requires Keyed(s.byId) && ZKeyed(s.byZIndex) && ZAgrees(s)
    requires forall z | t <= z < t + k :: z in s.byZIndex
    requires Keyed(r.byId) && ZKeyed(r.byZIndex) && ShiftedViews(s, r.byId, r.byZIndex, t, k, now)
    requires Stored(w) && w.zIndex == Some(t) && w.id.value !in s.byId
    ensures var byId := r.byId[w.id.value := w];
            var byZIndex := r.byZIndex[t := w];
            forall z | z in byZIndex :: byZIndex[z].id.value in byId && byId[byZIndex[z].id.value] == byZIndex[z]
  {
    var u := w.id.value;
    var byId := r.byId[u := w];
    var byZIndex := r.byZIndex[t := w];
    forall z | z in byZIndex
      ensures byZIndex[z].id.value in byId && byId[byZIndex[z].id.value] == byZIndex[z]
    {
      if z == t {
      } else if t < z <= t + k {
        var x := s.byZIndex[z - 1];
        var v := x.id.value;
        assert v in s.byId && s.byId[v] == x;
        assert r.byZIndex[z] == ShiftedCopy(x, now);
        assert r.byId[v] == ShiftedCopy(s.byId[v], now);
      } else {
        var x := s.byZIndex[z];
        var v := x.id.value;
        assert v in s.byId && s.byId[v] == x;
        assert r.byId[v] == s.byId[v];
      }
    }
  }

  /** Every widget of the id view after the shift and the save is the one
      the z view files under its z-index. */
  lemma SaveAfterShiftIdHalf(s: Store, r: Store, t: int, k: nat, now: Timestamp, w: Widget)
    requires Keyed(s.byId) && ZKeyed(s.byZIndex) && ZAgrees(s)
    requires forall z | t <= z < t + k :: z in s.byZIndex
    requires t + k !in s.byZIndex
    requires Keyed(r.byId) && ShiftedViews(s, r.byId, r.byZIndex, t, k, now)
    requires Stored(w) && w.zIndex == Some(t) && w.id.value !in s.byId
    ensures var byId := r.byId[w.id.value := w];
            var byZIndex := r.byZIndex[t := w];
            forall v | v in byId :: byId[v].zIndex.value in byZIndex && byZIndex[byId[v].zIndex.value] == byId[v]
  {
    var u := w.id.value;
    var byId := r.byId[u := w];
    var byZIndex := r.byZIndex[t := w];
    forall v | v in byId
      ensures byId[v].zIndex.value in byZIndex && byZIndex[byId[v].zIndex.value] == byId[v]
    {
      if v != u {
        var x := s.byId[v];
        var z := x.zIndex.value;
        assert z in s.byZIndex && s.byZIndex[z] == x;
        if t <= z < t + k {
          assert byId[v] == ShiftedCopy(x, now);
          assert z + 1 in r.byZIndex;
        } else {
          assert z != t + k && z != t;
          assert z in r.byZIndex;
        }
      }
    }
  }

  /** A widget with a new id saved at the bottom `t` of a shifted run that
      ended at a free z-index leaves the views agreeing. */
  lemma SaveAfterShiftAgrees(s: Store, r: Store, t: int, k: nat, now: Timestamp, w: Widget)
    requires Keyed(s.byId) && ZKeyed(s.byZIndex) && ZAgrees(s)
    requires forall z | t <= z < t + k :: z in s.byZIndex
    requires t + k !in s.byZIndex
    requires Keyed(r.byId) && ZKeyed(r.byZIndex) && ShiftedViews(s, r.byId, r.byZIndex, t, k, now)
    requires Stored(w) && w.zIndex == Some(t) && w.id.value !in s.byId
    ensures ZAgrees(Saved(r, w))
  {
    SavedViews(r, w);
    SaveAfterShiftZHalf(s, r, t, k, now, w);
    SaveAfterShiftIdHalf(s, r, t, k, now, w);
  }

  /** A store with the same ids as `s`, after saving a new id, holds one
      widget more. */
  lemma SaveAfterShiftCount(s: Store, r: Store, w: Widget)
    requires Keyed(r.byId) && r.byId.Keys == s.byId.Keys
    requires Stored(w) && w.id.value !in s.byId
    ensures CountOf(Saved(r, w)) == CountOf(s) + 1
  {
    SavedViews(r, w);
    assert |r.byId| == |r.byId.Keys| == |s.byId.Keys| == |s.byId|;
  }

  /** What the shift at `t` with `excludeIndex` free leaves: the run
      t .. t+k-1 occupied and t+k free. */
  lemma ShiftEndsFree(s: Store, t: int, excludeIndex: Option<int>)
    requires ZKeyed(s.byZIndex)
    requires excludeIndex.None? || excludeIndex.value !in s.byZIndex
    ensures var k := ShiftCount(s, t, excludeIndex);
            t + k !in s.byZIndex && forall z | t <= z < t + k :: z in s.byZIndex
  {
  }

  /** The shift at `t` followed by the save of a widget with a new id at
      `t` leaves agreeing views agreeing, one widget more, provided the
      excluded z-index, if any, is free. */
  lemma ShiftThenSaveAgrees(s: Store, t: int, excludeIndex: Option<int>, now: Timestamp, w: Widget)
    requires Keyed(s.byId) && ZKeyed(s.byZIndex) && ZAgrees(s)
    requires excludeIndex.None? || excludeIndex.value !in s.byZIndex
    requires Stored(w) && w.zIndex == Some(t) && w.id.value !in s.byId
    ensures ZAgrees(Saved(ShiftedStore(s, t, excludeIndex, now), w))
    ensures CountOf(Saved(ShiftedStore(s, t, excludeIndex, now), w)) == CountOf(s) + 1
  {
    var k := ShiftCount(s, t, excludeIndex);
    ShiftEndsFree(s, t, excludeIndex);
    assert t + k !in s.byZIndex && forall z | t <= z < t + k :: z in s.byZIndex;
    var r := ShiftedStore(s, t, excludeIndex, now);
    ShiftedStoreShape(s, t, excludeIndex, now);
    SaveAfterShiftAgrees(s, r, t, k, now, w);
    SaveAfterShiftCount(s, r, w);
  }

  /** ShiftThenSaveAgrees with the spatial view: all three views agree. */
  lemma ShiftThenSave(s: Store, t: int, excludeIndex: Option<int>, now: Timestamp, w: Widget)
    requires Consistent(s)
    requires excludeIndex.None? || excludeIndex.value !in s.byZIndex
    requires Stored(w) && w.zIndex == Some(t) && w.id.value !in s.byId
    ensures Consistent(Saved(ShiftedStore(s, t, excludeIndex, now), w))
    ensures CountOf(Saved(ShiftedStore(s, t, excludeIndex, now), w)) == CountOf(s) + 1
  {
    ShiftThenSaveAgrees(s, t, excludeIndex, now, w);
  }

  /** `save` of a DTO under an id not yet stored keeps the views agreeing
      and adds one widget. */
  lemma SaveKeepsConsistency(s: Store, dto: WidgetDto, freshId: Uuid, now: Timestamp)
    requires Consistent(s) && freshId !in s.byId
    ensures var r := SaveSpec(s, dto, freshId, now);
            r.1.Ok? ==> Consistent(r.0) && CountOf(r.0) == CountOf(s) + 1
  {
    var t := TargetZIndex(s, dto);
    var out := dto.(id := Some(freshId), zIndex := Some(t), modifiedAt := Some(now));
    var newest := ConvertFromDto(out, now);
    if newest.Ok? {
      ShiftThenSave(s, t, None, now, newest.value);
    }
  }

  /** The store `save` leaves on a DTO it accepts: the shift at the target
      z-index, then the save of the converted DTO; with the target free
      nothing is shifted. */
  lemma SaveSteps(s: Store, dto: WidgetDto, freshId: Uuid, now: Timestamp)
    requires Wf(s) && dto.width > 0 && dto.height > 0
    ensures var t := TargetZIndex(s, dto);
            var w := Widget(Some(freshId), dto.x, dto.y, Some(t), dto.height, dto.width, Some(now));
            var r := SaveSpec(s, dto, freshId, now);
            && r.1.Ok? && r.0 == Saved(ShiftedStore(s, t, None, now), w)
            && (t !in s.byZIndex ==> r.0 == Saved(s, w))
  {
  }

  /** The id view after saving `w` at the bottom `t` of a shifted run:
      `w` under its new id, each widget of the run moved one z-index up,
      every other widget as it was. */
  ghost predicate IdsAfterSave(s: Store, byId: map<Uuid, Widget>, t: int, k: nat, now: Timestamp, w: Widget)
    requires Keyed(s.byId) && Stored(w)
  {
    && byId.Keys == s.byId.Keys + {w.id.value} && byId[w.id.value] == w
    && (forall v | v in s.byId ::
          byId[v] == if t <= s.byId[v].zIndex.value < t + k then ShiftedCopy(s.byId[v], now) else s.byId[v])
  }

  /** The z view after saving `w` at the bottom `t` of a shifted run: `w`
      at `t`, the copy of each widget of the run one key higher, every
      other key as it was, and no key outside those. */
  ghost predicate ZAfterSave(s: Store, byZIndex: map<int, Widget>, t: int, k: nat, now: Timestamp, w: Widget)
    requires ZKeyed(s.byZIndex) && forall z | t <= z < t + k :: z in s.byZIndex
  {
    && t in byZIndex && byZIndex[t] == w
    && (forall z | t < z <= t + k :: z in byZIndex && byZIndex[z] == ShiftedCopy(s.byZIndex[z - 1], now))
    && (forall z | z in s.byZIndex && !(t <= z <= t + k) :: z in byZIndex && byZIndex[z] == s.byZIndex[z])
    && (forall z | z in byZIndex :: z in s.byZIndex || t <= z <= t + k)
  }

  /** Both views after saving `w` at the bottom `t` of the run t .. t+k-1. */
  ghost predicate SavedOverRun(s: Store, r: Store, t: int, k: nat, now: Timestamp, w: Widget)
    requires Keyed(s.byId) && ZKeyed(s.byZIndex) && Stored(w)
  {
    && (forall z | t <= z < t + k :: z in s.byZIndex)
    && IdsAfterSave(s, r.byId, t, k, now, w) && ZAfterSave(s, r.byZIndex, t, k, now, w)
  }

  /** Putting a widget with a new id into a shifted id view. */
  lemma IdsAfterSaveOverShift(s: Store, byId: map<Uuid, Widget>, t: int, k: nat, now: Timestamp, w: Widget)
    requires Keyed(s.byId) && IdsShifted(s, byId, t, k, now)
    requires Stored(w) && w.id.value !in s.byId
    ensures IdsAfterSave(s, byId[w.id.value := w], t, k, now, w)
  {
  }

  /** Putting a widget at the bottom `t` of the run into a shifted z view. */
  lemma ZAfterSaveOverShift(s: Store, byZIndex: map<int, Widget>, t: int, k: nat, now: Timestamp, w: Widget)
    requires ZKeyed(s.byZIndex) && forall z | t <= z < t + k :: z in s.byZIndex
    requires ZShifted(s, byZIndex, t, k, now)
    ensures ZAfterSave(s, byZIndex[t := w], t, k, now, w)
  {
  }

  /** A successful `save` under a fresh id: the id view gains the new widget
      and moves each widget of the run at the target one z-index up; the z
      view files the new widget at the target and the copies one key
      higher; every other widget stays where it was. */
  lemma SaveMovesOnlyTheRun(s: Store, dto: WidgetDto, freshId: Uuid, now: Timestamp)
    requires Consistent(s) && freshId !in s.byId && dto.width > 0 && dto.height > 0
    ensures var t := TargetZIndex(s, dto);
            var k := ShiftCount(s, t, None);
            var w := Widget(Some(freshId), dto.x, dto.y, Some(t), dto.height, dto.width, Some(now));
            SavedOverRun(s, SaveSpec(s, dto, freshId, now).0, t, k, now, w)
  {
    var t := TargetZIndex(s, dto);
    var k := ShiftCount(s, t, None);
    var w := Widget(Some(freshId), dto.x, dto.y, Some(t), dto.height, dto.width, Some(now));
    ShiftEndsFree(s, t, None);
    SaveSteps(s, dto, freshId, now);
    var p := ShiftedStore(s, t, None, now);
    ShiftedStoreShape(s, t, None, now);
    SavedViews(p, w);
    IdsAfterSaveOverShift(s, p.byId, t, k, now, w);
    ZAfterSaveOverShift(s, p.byZIndex, t, k, now, w);
  }

  /** Reading back what `save` answered: `findById` gives the answered DTO
      with width and height exchanged, since the conversion swaps them, so
      the two agree exactly when the widget is square. */
  lemma SaveThenFindById(s: Store, dto: WidgetDto, freshId: Uuid, now: Timestamp)
    requires Wf(s)
    ensures var r := SaveSpec(s, dto, freshId, now);
            r.1.Ok? ==>
              && FindByIdSpec(r.0, freshId) == Some(r.1.value.(width := dto.height, height := dto.width))
              && (FindByIdSpec(r.0, freshId) == Some(r.1.value) <==> dto.width == dto.height)
  {
  }

  /** Reading back what `update` answered: the same exchange of width and
      height. */
  lemma UpdateThenFindById(s: Store, id: Uuid, dto: WidgetDto, now: Timestamp)
    requires Wf(s)
    ensures var r := UpdateSpec(s, id, dto, now);
            r.1.Ok? ==>
              && FindByIdSpec(r.0, id) == Some(r.1.value.(width := dto.height, height := dto.width))
              && (FindByIdSpec(r.0, id) == Some(r.1.value) <==> dto.width == dto.height)
  {
  }

  /** A `save` whose DTO fails conversion after the shift has run leaves the
      widget that sat at the target z-index filed there in the z view while
      the id view holds its shifted copy: the views no longer agree. */
  lemma SaveFailureBreaksConsistency(s: Store, dto: WidgetDto, freshId: Uuid, now: Timestamp)
    requires Consistent(s)
    requires TargetZIndex(s, dto) in s.byZIndex
    requires dto.width <= 0 || dto.height <= 0
    ensures SaveSpec(s, dto, freshId, now).1.Err?
    ensures !Consistent(SaveSpec(s, dto, freshId, now).0)
  {
    var t := TargetZIndex(s, dto);
    var r := ShiftedStore(s, t, None, now);
    ShiftedStoreShape(s, t, None, now);
    var k := ShiftCount(s, t, None);
    assert k >= 1;
    var x := s.byZIndex[t];
    var v := x.id.value;
    assert s.byId[v] == x;
    assert r.byZIndex[t] == x;
    assert r.byId[v] == ShiftedCopy(x, now);
    assert r.byId[v].zIndex != x.zIndex;
  }

  // Removing the current version of a widget

  /** Removing the stored version of a widget from agreeing views leaves
      them agreeing, one widget fewer. */
  lemma RemoveCurrentKeepsConsistency(s: Store, id: Uuid)
    requires Consistent(s) && id in s.byId
    ensures var r := Removed(s, s.byId[id]);
            && r.1 == Some(s.byId[id])
            && Consistent(r.0) && CountOf(r.0) == CountOf(s) - 1 && id !in r.0.byId
  {
    var oldest := s.byId[id];
    var o := oldest.zIndex.value;
    var r := Removed(s, oldest).0;
    assert r.byId == s.byId - {id} && r.byZIndex == s.byZIndex - {o};
    forall z | z in r.byZIndex
      ensures r.byZIndex[z].id.value in r.byId && r.byId[r.byZIndex[z].id.value] == r.byZIndex[z]
    {
      assert s.byZIndex[z].id.value in s.byId && s.byId[s.byZIndex[z].id.value] == s.byZIndex[z];
    }
    forall v | v in r.byId
      ensures r.byId[v].zIndex.value in r.byZIndex && r.byZIndex[r.byId[v].zIndex.value] == r.byId[v]
    {
      var zv := s.byId[v].zIndex.value;
      assert zv in s.byZIndex && s.byZIndex[zv].id == Some(v);
    }
  }

  /** `delete` of a stored id keeps the views agreeing, one widget fewer,
      and the id is gone. */
  lemma DeleteKeepsConsistency(s: Store, id: Uuid)
    requires Consistent(s)
    ensures var r := DeleteSpec(s, id);
            && Consistent(r.0)
            && (r.1.Ok? ==> CountOf(r.0) == CountOf(s) - 1 && FindByIdSpec(r.0, id).None?)
  {
    if id in s.byId {
      RemoveCurrentKeepsConsistency(s, id);
    }
  }
}
