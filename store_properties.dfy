/** What InMemoryWidgetRepository's queries and updates promise about the
    three views: an empty store answers nothing, saving a new widget files
    it in every view, saving a new version under another z-index leaves the
    old z key behind, and `remove` drops the z key of its argument whether
    or not the id is stored. */
module StoreProperties {
  import opened Wrappers
  import opened Widgets
  import opened SpatialIndex
  import opened WidgetStore
  import opened ShiftProperties
  import opened ServiceProperties

  /** A fresh repository: count 0, no highest or ceiling z-index, an empty
      tail and no widget for any id; its views agree. */
  lemma EmptyStoreAnswersNothing(index: int, id: Uuid)
    ensures Consistent(EmptyStore())
    ensures CountOf(EmptyStore()) == 0
    ensures HighestZIndexOf(EmptyStore()).None?
    ensures CeilingZIndexOf(EmptyStore(), index).None?
    ensures TailFrom(EmptyStore(), index) == []
    ensures WidgetById(EmptyStore(), id).None?
  {
    MirrorsEmpty();
    assert KeysFrom(EmptyStore().byZIndex, index) == {};
  }

  /** A spatial view that mirrors the id view files each widget in the
      innermost set of its own corners, under its own key. */
  lemma FiledUnderCorners(idx: Index, byId: map<Uuid, Widget>, v: Uuid)
    requires Keyed(byId) && Mirrors(idx, byId) && v in byId
    ensures var w := byId[v];
            KeyOf(w) in LeafAt(idx, BoxOf(w)) && LeafAt(idx, BoxOf(w))[KeyOf(w)] == w
  {
    assert LeafAt(idx, BoxOf(byId[v])) == LeafOf(byId, BoxOf(byId[v]));
  }

  /** `saveOrUpdate` of a widget with a new id at a free z-index: one widget
      more, found by its id, filed under its z-index and under its corners,
      and the views still agree. */
  lemma SaveNewWidget(s: Store, w: Widget)
    requires Consistent(s) && Stored(w)
    requires w.id.value !in s.byId && w.zIndex.value !in s.byZIndex
    ensures var r := Saved(s, w);
            && Consistent(r) && CountOf(r) == CountOf(s) + 1
            && WidgetById(r, w.id.value) == Some(w)
            && w.zIndex.value in r.byZIndex && r.byZIndex[w.zIndex.value] == w
            && KeyOf(w) in LeafAt(r.byCorners, BoxOf(w)) && LeafAt(r.byCorners, BoxOf(w))[KeyOf(w)] == w
  {
    // with the z-index free there is nothing to shift
    ShiftThenSave(s, w.zIndex.value, None, 0, w);
    SavedViews(s, w);
    var r := Saved(s, w);
    FiledUnderCorners(r.byCorners, r.byId, w.id.value);
  }

  /** `saveOrUpdate` of a new version of a stored widget under another
      z-index: the id view and the spatial view now hold only the new
      version, but the z view still files the old one under its old key,
      so the views no longer agree. */
  lemma SaveNewVersionLeavesOldZKey(s: Store, w: Widget)
    requires Consistent(s) && Stored(w) && w.id.value in s.byId
    requires s.byId[w.id.value].zIndex != w.zIndex
    ensures var prev := s.byId[w.id.value];
            var r := Saved(s, w);
            && Wf(r) && CountOf(r) == CountOf(s)
            && WidgetById(r, w.id.value) == Some(w)
            && w.zIndex.value in r.byZIndex && r.byZIndex[w.zIndex.value] == w
            && prev.zIndex.value in r.byZIndex && r.byZIndex[prev.zIndex.value] == prev
            && KeyOf(prev) !in LeafAt(r.byCorners, BoxOf(prev))
            && KeyOf(w) in LeafAt(r.byCorners, BoxOf(w)) && LeafAt(r.byCorners, BoxOf(w))[KeyOf(w)] == w
            && !ZAgrees(r)
  {
    var v := w.id.value;
    var prev := s.byId[v];
    var o := prev.zIndex.value;
    SavedViews(s, w);
    var r := Saved(s, w);
    assert r.byId.Keys == s.byId.Keys;
    assert o in s.byZIndex && s.byZIndex[o] == prev;
    assert r.byZIndex[o] == prev;
    FiledUnderCorners(r.byCorners, r.byId, v);
    assert LeafAt(r.byCorners, BoxOf(prev)) == LeafOf(r.byId, BoxOf(prev));
    assert r.byId[r.byZIndex[o].id.value] != r.byZIndex[o];
  }

  /** `remove` of a widget whose id is stored: it answers the stored
      version (whatever version it was given), one widget fewer, and the
      id is gone from the id view and from the search. */
  lemma RemoveStoredId(s: Store, w: Widget)
    requires Wf(s) && Stored(w) && w.id.value in s.byId
    ensures var r := Removed(s, w);
            && Wf(r.0) && r.1 == Some(s.byId[w.id.value])
            && CountOf(r.0) == CountOf(s) - 1
            && WidgetById(r.0, w.id.value).None?
            && r.0.byZIndex == s.byZIndex - {w.zIndex.value}
  {
    var v := w.id.value;
    var r := Removed(s, w).0;
    assert r.byId == s.byId - {v};
    assert r.byId.Keys == s.byId.Keys - {v};
  }

  /** `remove` of a widget whose id is not stored answers null and leaves
      the id view and the spatial view as they were, yet drops the z key of
      the widget's z-index; when another widget held that key, the views
      no longer agree. */
  lemma RemoveAbsentIdDropsZKey(s: Store, w: Widget)
    requires Consistent(s) && Stored(w) && w.id.value !in s.byId
    ensures var r := Removed(s, w);
            && r.1.None? && r.0.byId == s.byId && r.0.byCorners == s.byCorners
            && r.0.byZIndex == s.byZIndex - {w.zIndex.value}
            && (w.zIndex.value in s.byZIndex ==> !ZAgrees(r.0))
  {
    var z := w.zIndex.value;
    var r := Removed(s, w).0;
    if z in s.byZIndex {
      var u := s.byZIndex[z].id.value;
      assert u in s.byId && s.byId[u].zIndex == Some(z);
      assert s.byId[u].zIndex.value !in r.byZIndex;
    }
  }
}
