/** What `update` (ConcurrentWidgetService.java) does to the agreement of
    the id view and the z view. The shift runs from the requested z-index
    and stops short of the old version's z-index; then the old version is
    removed, which drops its z-index key unconditionally. When the run
    stops because it reached the old version, its last copy was just filed
    under that key, so the removal takes the copy out of the z view while
    the id view keeps it. Otherwise the views keep agreeing. */
module UpdateProperties {
  import opened Wrappers
  import opened Widgets
  import opened SpatialIndex
  import opened WidgetStore
  import opened ServiceLogic
  import opened ShiftProperties
  import opened ServiceProperties

  /** Every z-index from `t` up to, not including, `o` is taken, and there
      is at least one: the shift at `t` excluding `o` walks right up to `o`. */
  ghost predicate RunReachesOld(s: Store, t: int, o: int) {
    t < o && forall z | t <= z < o :: z in s.byZIndex
  }

  /** With `o` taken, the run reaches `o` exactly when its length is the
      distance from `t` to `o`. */
  lemma RunReachesOldIff(s: Store, t: int, o: int)
    requires o in s.byZIndex
    ensures var k := ShiftCount(s, t, Some(o));
            RunReachesOld(s, t, o) <==> k >= 1 && t + k == o
  {
    var k := ShiftCount(s, t, Some(o));
    if RunReachesOld(s, t, o) {
      ShiftCountUnique(s, t, Some(o), o - t);
    }
  }

  /** `remove` changes the id view and the z view as a map removal. */
  lemma RemovedViews(p: Store, w: Widget)
    requires Stored(w) && Keyed(p.byId)
    ensures Removed(p, w).0.byId == p.byId - {w.id.value}
    ensures Removed(p, w).0.byZIndex == p.byZIndex - {w.zIndex.value}
  {
  }

  /** Taking one id out of both id views keeps the id view's shift. */
  lemma IdsRestrict(s: Store, r: Store, s0: Store, r0: Store, t: int, k: nat, now: Timestamp, id: Uuid)
    requires Keyed(s.byId) && IdsShifted(s, r.byId, t, k, now)
    requires s0.byId == s.byId - {id} && r0.byId == r.byId - {id}
    ensures Keyed(s0.byId) && IdsShifted(s0, r0.byId, t, k, now)
  {
    assert r0.byId.Keys == s0.byId.Keys;
  }

  /** Taking one z-index `o` out of both z views keeps the z view's shift
      when `o` is neither in the run nor the key the run's last copy went to. */
  lemma ZRestrict(s: Store, r: Store, s0: Store, r0: Store, t: int, k: nat, now: Timestamp, o: int)
    requires ZKeyed(s.byZIndex) && forall z | t <= z < t + k :: z in s.byZIndex
    requires ZShifted(s, r.byZIndex, t, k, now)
    requires !(t <= o < t + k) && !(t < o <= t + k)
    requires s0.byZIndex == s.byZIndex - {o} && r0.byZIndex == r.byZIndex - {o}
    ensures ZKeyed(s0.byZIndex) && (forall z | t <= z < t + k :: z in s0.byZIndex)
    ensures ZShifted(s0, r0.byZIndex, t, k, now)
  {
    forall z | t < z <= t + k
      ensures z in r0.byZIndex && r0.byZIndex[z] == ShiftedCopy(s0.byZIndex[z - 1], now)
    {
      assert z in r.byZIndex && z - 1 in s0.byZIndex;
    }
  }

  /** The store `update` leaves on a request it accepts: the shift at the
      requested z-index excluding the old one, then the removal of the old
      version, then the save of the converted DTO. */
  lemma UpdateSteps(s: Store, id: Uuid, dto: WidgetDto, now: Timestamp)
    requires Wf(s) && id in s.byId && dto.zIndex.Some? && dto.width > 0 && dto.height > 0
    ensures var newest := ConvertFromDto(dto.(id := Some(id), modifiedAt := Some(now)), now);
            && newest.Ok? && Stored(newest.value)
            && newest.value.id == Some(id) && newest.value.zIndex == dto.zIndex
            && UpdateSpec(s, id, dto, now).1.Ok?
            && UpdateSpec(s, id, dto, now).0 ==
               Saved(Removed(ShiftedStore(s, dto.zIndex.value, s.byId[id].zIndex, now), s.byId[id]).0, newest.value)
  {
  }

  /** An accepted `update` whose shift run does not reach the old version's
      z-index leaves agreeing views agreeing, with as many widgets as before. */
  lemma UpdateOutsideRunKeepsConsistency(s: Store, id: Uuid, dto: WidgetDto, now: Timestamp)
    requires Consistent(s) && id in s.byId && dto.zIndex.Some? && dto.width > 0 && dto.height > 0
    requires !RunReachesOld(s, dto.zIndex.value, s.byId[id].zIndex.value)
    ensures Consistent(UpdateSpec(s, id, dto, now).0)
    ensures CountOf(UpdateSpec(s, id, dto, now).0) == CountOf(s)
  {
    var oldest := s.byId[id];
    var t, o := dto.zIndex.value, oldest.zIndex.value;
    var k := ShiftCount(s, t, Some(o));
    assert o in s.byZIndex;
    RunReachesOldIff(s, t, o);
    assert !(t <= o < t + k) && !(t < o <= t + k);
    RemoveCurrentKeepsConsistency(s, id);
    var s0 := Removed(s, oldest).0;
    RemovedViews(s, oldest);
    assert t + k !in s0.byZIndex && forall z | t <= z < t + k :: z in s.byZIndex;
    var newest := ConvertFromDto(dto.(id := Some(id), modifiedAt := Some(now)), now).value;
    UpdateSteps(s, id, dto, now);
    var r := ShiftedStore(s, t, Some(o), now);
    ShiftedStoreShape(s, t, Some(o), now);
    var r0 := Removed(r, oldest).0;
    RemovedViews(r, oldest);
    IdsRestrict(s, r, s0, r0, t, k, now, id);
    ZRestrict(s, r, s0, r0, t, k, now, o);
    SaveAfterShiftAgrees(s0, r0, t, k, now, newest);
    SaveAfterShiftCount(s0, r0, newest);
  }

  /** After a shift whose run ends right below `o`, the id view holds the
      copy of the run's top widget, filed under `o`, for the id of the
      widget at o-1, which is not the id of the widget at `o`. */
  lemma LostCopy(s: Store, t: int, o: int, now: Timestamp)
    requires Keyed(s.byId) && ZKeyed(s.byZIndex) && ZAgrees(s)
    requires o in s.byZIndex && RunReachesOld(s, t, o)
    ensures var moved := s.byZIndex[o - 1].id.value;
            var r := ShiftedStore(s, t, Some(o), now);
            && moved != s.byZIndex[o].id.value
            && moved in r.byId && r.byId[moved].zIndex == Some(o)
  {
    SoleHolder(s, o - 1);
    SoleHolder(s, o);
    var x := s.byZIndex[o - 1];
    var k := ShiftCount(s, t, Some(o));
    RunReachesOldIff(s, t, o);
    assert t <= o - 1 < t + k;
    ShiftedStoreShape(s, t, Some(o), now);
    assert ShiftedStore(s, t, Some(o), now).byId[x.id.value] == ShiftedCopy(x, now);
  }

  /** An accepted `update` whose shift run reaches the old version's
      z-index leaves the id view holding a widget, the copy shifted onto the
      old z-index, that the z view no longer files. */
  lemma UpdateOverRunBreaksConsistency(s: Store, id: Uuid, dto: WidgetDto, now: Timestamp) returns (moved: Uuid)
    requires Consistent(s) && id in s.byId && dto.zIndex.Some? && dto.width > 0 && dto.height > 0
    requires RunReachesOld(s, dto.zIndex.value, s.byId[id].zIndex.value)
    ensures s.byId[id].zIndex.value - 1 in s.byZIndex && moved == s.byZIndex[s.byId[id].zIndex.value - 1].id.value
    ensures moved in UpdateSpec(s, id, dto, now).0.byId
    ensures UpdateSpec(s, id, dto, now).0.byId[moved].zIndex == s.byId[id].zIndex
    ensures s.byId[id].zIndex.value !in UpdateSpec(s, id, dto, now).0.byZIndex
  {
    var oldest := s.byId[id];
    var t, o := dto.zIndex.value, oldest.zIndex.value;
    assert o in s.byZIndex && s.byZIndex[o].id.value == id;
    assert o - 1 in s.byZIndex;
    moved := s.byZIndex[o - 1].id.value;
    assert moved == s.byZIndex[s.byId[id].zIndex.value - 1].id.value;
    LostCopy(s, t, o, now);
    var newest := ConvertFromDto(dto.(id := Some(id), modifiedAt := Some(now)), now).value;
    UpdateSteps(s, id, dto, now);
    var r := ShiftedStore(s, t, Some(o), now);
    var r0 := Removed(r, oldest).0;
    RemovedViews(r, oldest);
    SavedViews(r0, newest);
    var after := UpdateSpec(s, id, dto, now).0;
    assert after.byId == (r.byId - {id})[id := newest];
    assert moved in r.byId && moved != id && after.byId[moved] == r.byId[moved];
    assert after.byZIndex == (r.byZIndex - {o})[t := newest] && t != o;
  }

  /** An accepted `update` keeps the views agreeing exactly when its shift
      run does not reach the old version's z-index. */
  lemma UpdateKeepsConsistencyIff(s: Store, id: Uuid, dto: WidgetDto, now: Timestamp)
    requires Consistent(s) && id in s.byId && dto.zIndex.Some? && dto.width > 0 && dto.height > 0
    ensures UpdateSpec(s, id, dto, now).1.Ok?
    ensures Consistent(UpdateSpec(s, id, dto, now).0) <==>
            !RunReachesOld(s, dto.zIndex.value, s.byId[id].zIndex.value)
  {
    if RunReachesOld(s, dto.zIndex.value, s.byId[id].zIndex.value) {
      var _ := UpdateOverRunBreaksConsistency(s, id, dto, now);
    } else {
      UpdateOutsideRunKeepsConsistency(s, id, dto, now);
    }
  }

  // The update the design intends

  /** `update` with the old version taken out before the shift: a DTO that
      fails conversion changes nothing, and otherwise the old version's
      z-index is free while the run is shifted, so the run stops only at a
      free z-index. */
  function UpdateRemovingFirst(s: Store, id: Uuid, dto: WidgetDto, now: Timestamp): (r: (Store, Result<WidgetDto>))
    requires Wf(s)
    ensures Wf(r.0)
    ensures r.1 == UpdateSpec(s, id, dto, now).1
    ensures r.1.Err? ==> r.0 == s
  {
    var valid := AssertUpdatedWidgetIsValid(dto);
    if valid.Fail? then (s, Err(valid.error))
    else
      var oldest := WidgetById(s, id);
      var found := AssertWidgetWasFound(id, oldest);
      if found.Fail? then (s, Err(found.error))
      else
        var out := dto.(id := Some(id), modifiedAt := Some(now));
        var newest := ConvertFromDto(out, now);
        if newest.Err? then (s, Err(newest.error))
        else
          var removed := Removed(s, oldest.value).0;
          var shifted := ShiftedStore(removed, dto.zIndex.value, oldest.value.zIndex, now);
          (Saved(shifted, newest.value), Ok(out))
  }

  /** Removing first keeps agreeing views agreeing on every request, with
      as many widgets as before, and files the new version under its id and
      its z-index. */
  lemma UpdateRemovingFirstKeepsConsistency(s: Store, id: Uuid, dto: WidgetDto, now: Timestamp)
    requires Consistent(s)
    ensures var r := UpdateRemovingFirst(s, id, dto, now);
            && Consistent(r.0) && CountOf(r.0) == CountOf(s)
            && (r.1.Ok? ==> (&& id in r.0.byId && r.0.byId[id].zIndex == dto.zIndex
                             && dto.zIndex.value in r.0.byZIndex
                             && r.0.byZIndex[dto.zIndex.value] == r.0.byId[id]))
  {
    if dto.zIndex.Some? && id in s.byId && dto.width > 0 && dto.height > 0 {
      var oldest := s.byId[id];
      var newest := ConvertFromDto(dto.(id := Some(id), modifiedAt := Some(now)), now).value;
      RemoveCurrentKeepsConsistency(s, id);
      var s0 := Removed(s, oldest).0;
      RemovedViews(s, oldest);
      assert oldest.zIndex.value !in s0.byZIndex && id !in s0.byId;
      ShiftThenSave(s0, dto.zIndex.value, oldest.zIndex, now, newest);
      SavedViews(ShiftedStore(s0, dto.zIndex.value, oldest.zIndex, now), newest);
    }
  }
}
