/** Studio's navigation: which feature page is selected, kept in three
    session keys (the selector widget's own value, the current feature id
    and the previous one, which lifecycle hooks read to notice a change).
    The user's choice in the selector is a parameter: the index of the
    option picked, or None when the widget keeps its value. */
module Navigation {
  import opened Common
  import opened JsonValue
  import opened FeatureRegistry
  import opened SessionManager

  const CurrentKey := "_current_feature_id"
  const PreviousKey := "_previous_feature_id"
  const WidgetKey := "_nav_feature_selector"

  /** `st.session_state.get(key)`. */
  function Lookup(values: map<string, Json>, key: string): (r: Json)
    ensures key in values ==> r == values[key]
    ensures key !in values ==> r == JNull
  {
    if key in values then values[key] else JNull
  }

  /** A stored selection that names one of the features. */
  predicate Names(v: Json, ids: seq<string>) {
    v.JStr? && v.s in ids
  }

  /** The widget's value once the selector has settled it: the stored
      value when it names a feature, the default (first) one otherwise. */
  function Widget(values: map<string, Json>, ids: seq<string>): (w: string)
    requires |ids| > 0
    ensures w in ids
    ensures WidgetKey in values && Names(values[WidgetKey], ids) ==> JStr(w) == values[WidgetKey]
  {
    if WidgetKey in values && Names(values[WidgetKey], ids) then values[WidgetKey].s else ids[0]
  }

  /** The session after `render_feature_selector` with features `ids`
      (at least one, the first being the default), and the id selected. */
  function Selection(values: map<string, Json>, ids: seq<string>, pick: Option<nat>): (r: (string, map<string, Json>))
    requires |ids| > 0
    ensures r.0 in ids
  {
    var selected := if pick.Some? && pick.value < |ids| then ids[pick.value] else Widget(values, ids);
    var previous := Lookup(values, CurrentKey);
    var v1 := values[WidgetKey := JStr(selected)];
    var v2 := if previous != JNull && JStr(selected) != previous then v1[PreviousKey := previous] else v1;
    (selected, v2[CurrentKey := JStr(selected)])
  }

  /** `has_feature_changed`. */
  predicate Changed(values: map<string, Json>) {
    Lookup(values, PreviousKey) != JNull && Lookup(values, CurrentKey) != Lookup(values, PreviousKey)
  }

  /** After the selector runs, the current id is the selection, one of the
      features; an invalid stored widget value falls back to the default;
      and a change away from a recorded current id is recorded as the
      previous id, which makes the change visible. */
  lemma SelectionFacts(values: map<string, Json>, ids: seq<string>, pick: Option<nat>)
    requires |ids| > 0
    ensures var (selected, v) := Selection(values, ids, pick);
      var old_ := Lookup(values, CurrentKey);
      Lookup(v, CurrentKey) == JStr(selected) && Lookup(v, WidgetKey) == JStr(selected) &&
      (pick.None? && !(WidgetKey in values && Names(values[WidgetKey], ids)) ==> selected == ids[0]) &&
      (pick.None? && WidgetKey in values && Names(values[WidgetKey], ids) ==> JStr(selected) == values[WidgetKey]) &&
      (old_ != JNull && JStr(selected) != old_ ==> Lookup(v, PreviousKey) == old_ && Changed(v)) &&
      (!(old_ != JNull && JStr(selected) != old_) ==> Lookup(v, PreviousKey) == Lookup(values, PreviousKey))
  {
  }

  /** `render_feature_selector`: "" and no change when nothing is
      registered. */
  method RenderFeatureSelector(reg: Registry, s: SessionState, pick: Option<nat>) returns (selected: string)
    requires reg.Valid()
    modifies s
    ensures reg.GetAllIds() == [] ==> selected == "" && s.values == old(s.values)
    ensures reg.GetAllIds() != [] ==> (selected, s.values) == Selection(old(s.values), reg.GetAllIds(), pick)
  {
    var ids := reg.GetAllIds();
    if |ids| == 0 {
      return "";
    }
    var defaultId := reg.GetDefaultFeatureId();
    reg.DefaultIsFirstId();
    SelectionAfterSettling(s.values, ids, pick);
    SettleWidget(s, ids, defaultId.value);
    selected := Choose(s, ids, pick);
  }

  /** The selection made once the widget has settled is the one the
      selector makes from the session before. */
  lemma SelectionAfterSettling(values: map<string, Json>, ids: seq<string>, pick: Option<nat>)
    requires |ids| > 0
    ensures Selection(values[WidgetKey := JStr(Widget(values, ids))], ids, pick) == Selection(values, ids, pick)
  {
    var settled := values[WidgetKey := JStr(Widget(values, ids))];
    assert Widget(settled, ids) == Widget(values, ids);
    assert Lookup(settled, CurrentKey) == Lookup(values, CurrentKey);
    var selected := Selection(values, ids, pick).0;
    assert settled[WidgetKey := JStr(selected)] == values[WidgetKey := JStr(selected)];
  }

  /** The selectbox and the bookkeeping after it, on a settled widget. */
  method Choose(s: SessionState, ids: seq<string>, pick: Option<nat>) returns (selected: string)
    requires |ids| > 0 && WidgetKey in s.values && Names(s.values[WidgetKey], ids)
    modifies s
    ensures (selected, s.values) == Selection(old(s.values), ids, pick)
  {
    var previous := Lookup(s.values, CurrentKey);
    selected := if pick.Some? && pick.value < |ids| then ids[pick.value] else s.values[WidgetKey].s;
    s.values := s.values[WidgetKey := JStr(selected)];
    if previous != JNull && JStr(selected) != previous {
      s.values := s.values[PreviousKey := previous];
    }
    s.values := s.values[CurrentKey := JStr(selected)];
  }

  /** The selector's widget state: seeded with the default when absent,
      reset to it when it names no feature. */
  method SettleWidget(s: SessionState, ids: seq<string>, defaultId: string)
    requires |ids| > 0 && defaultId == ids[0]
    modifies s
    ensures s.values == old(s.values)[WidgetKey := JStr(Widget(old(s.values), ids))]
  {
    if WidgetKey !in s.values {
      s.values := s.values[WidgetKey := JStr(defaultId)];
    }
    if !Names(s.values[WidgetKey], ids) {
      s.values := s.values[WidgetKey := JStr(defaultId)];
    }
    if WidgetKey in old(s.values) && Names(old(s.values)[WidgetKey], ids) {
      assert s.values == old(s.values);
    }
  }

  /** `get_current_feature_id` and `get_previous_feature_id`. */
  function CurrentFeatureId(s: SessionState): Json
    reads s
  {
    Lookup(s.values, CurrentKey)
  }

  function PreviousFeatureId(s: SessionState): Json
    reads s
  {
    Lookup(s.values, PreviousKey)
  }

  /** `set_current_feature`. */
  method SetCurrentFeature(reg: Registry, s: SessionState, id: string) returns (ok: bool)
    modifies s
    ensures ok == (id in reg.features)
    ensures ok && Lookup(old(s.values), CurrentKey) != JStr(id) ==>
      s.values == old(s.values)[PreviousKey := Lookup(old(s.values), CurrentKey)][CurrentKey := JStr(id)]
    ensures !(ok && Lookup(old(s.values), CurrentKey) != JStr(id)) ==> s.values == old(s.values)
  {
    if reg.IsRegistered(id) {
      var current := Lookup(s.values, CurrentKey);
      if current != JStr(id) {
        s.values := s.values[PreviousKey := current];
        s.values := s.values[CurrentKey := JStr(id)];
      }
      return true;
    }
    return false;
  }

  /** Switching to another feature is seen as a change, except the first
      switch, whose previous id is None; switching to the current feature
      changes nothing. */
  lemma SwitchIsChange(values: map<string, Json>, id: string)
    ensures var current := Lookup(values, CurrentKey);
      var v := values[PreviousKey := current][CurrentKey := JStr(id)];
      current != JStr(id) ==> (Changed(v) <==> current != JNull)
  {
  }

  /** `has_feature_changed`. */
  method HasFeatureChanged(s: SessionState) returns (r: bool)
    ensures r == Changed(s.values)
    ensures r ==> PreviousKey in s.values && s.values[PreviousKey] != JNull
  {
    var current := Lookup(s.values, CurrentKey);
    var previous := Lookup(s.values, PreviousKey);
    r := previous != JNull && current != previous;
  }

  /** `clear_feature_change`: afterwards no change is reported. */
  method ClearFeatureChange(s: SessionState)
    modifies s
    ensures s.values == old(s.values) - {PreviousKey}
    ensures !Changed(s.values)
  {
    if PreviousKey in s.values {
      s.values := s.values - {PreviousKey};
    }
  }

  /** `get_current_feature`: the cached instance of the current feature,
      when one is selected. */
  method GetCurrentFeature(reg: Registry, s: SessionState) returns (r: Option<Instance>)
    requires reg.Valid()
    modifies reg
    ensures reg.Valid()
    ensures var id := Lookup(s.values, CurrentKey);
      (!(id.JStr? && id.s != "") ==> r.None? && reg.instances == old(reg.instances)) &&
      (id.JStr? && id.s != "" && id.s in old(reg.instances) ==> r == Some(old(reg.instances)[id.s])) &&
      (id.JStr? && id.s != "" && id.s !in reg.features ==> r.None?) &&
      (r.Some? ==> r.value.cls == reg.features[id.s])
  {
    var id := Lookup(s.values, CurrentKey);
    if id.JStr? && id.s != "" {
      r := reg.GetInstance(id.s);
    } else {
      r := None;
    }
  }
}
