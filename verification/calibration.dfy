/** The calibration panel of Calibration.cs: the bounds of the calibration
    slider, derived from minimum and maximum positions persisted per motion
    axis, and the choice of the control axis the panel calibrates. Each
    handler is a transition of the panel, the persisted preferences (a
    key-to-value store standing for `PlayerPrefs`) and the axis store. */
module Calibration {
  import opened Axis
  import opened InputManager

  const DefaultAxisMin: real := -1000.0
  const DefaultAxisMax: real := 1000.0

  const PlayerNameKey: string := "Player Name"
  const MotionAxisKey: string := "Motion Axis"
  const MaxSuffix: string := "Max"
  const MinSuffix: string := "Min"
  const VariableSuffix: string := "Var"
  const ControlAxisKey: string := "Control Axis"

  /** A persisted value: `PlayerPrefs` keeps floats and strings apart. */
  datatype Pref = FloatPref(f: real) | StringPref(s: string)

  type Prefs = map<string, Pref>

  /** `PlayerPrefs.GetFloat(key, default)`: the stored float, or the default
      when the key is absent or holds a string. */
  function GetFloat(prefs: Prefs, key: string, default: real): (r: real)
    ensures key !in prefs ==> r == default
    ensures key in prefs && prefs[key].FloatPref? ==> r == prefs[key].f
  {
    if key in prefs && prefs[key].FloatPref? then prefs[key].f else default
  }

  /** `PlayerPrefs.GetString(key)`: the stored string, or "" when the key is
      absent or holds a float. */
  function GetString(prefs: Prefs, key: string): (r: string)
    ensures key !in prefs ==> r == ""
    ensures key in prefs && prefs[key].StringPref? ==> r == prefs[key].s
  {
    if key in prefs && prefs[key].StringPref? then prefs[key].s else ""
  }

  /** The panel's own fields and the two slider bounds. */
  datatype Panel = Panel(
    sliderMin: real, sliderMax: real,
    currentAbsoluteValue: real,
    displacement: real,
    motionAxisID: string,
    controlAxis: string)

  /** Everything a handler reads or writes. */
  datatype Scene = Scene(panel: Panel, prefs: Prefs, input: InputState)

  /** Every remote axis has its lower position bound at or below the upper. */
  predicate Ordered(m: Store)
  {
    forall id :: id in m ==> m[id].minPosition <= m[id].maxPosition
  }

  /** What every handler keeps: ordered slider bounds, a valid axis store, and
      remote axes whose bounds are ordered, so that every remote range is
      positive. */
  predicate SceneValid(sc: Scene)
  {
    && sc.panel.sliderMin <= sc.panel.sliderMax
    && Invariant(sc.input)
    && Ordered(sc.input.remote)
  }

  /** The key under which `suffix` is persisted for a motion axis. */
  function Key(motionAxisID: string, suffix: string): string
  {
    motionAxisID + suffix
  }

  /** Keys built with different suffixes of the same length never collide, and
      none of them is the control-axis key. */
  lemma KeysDistinct(motionAxisID: string)
    ensures Key(motionAxisID, MaxSuffix) != Key(motionAxisID, MinSuffix)
    ensures Key(motionAxisID, MaxSuffix) != Key(motionAxisID, VariableSuffix)
    ensures Key(motionAxisID, MinSuffix) != Key(motionAxisID, VariableSuffix)
    ensures Key(motionAxisID, VariableSuffix) != ControlAxisKey
  {
    var n := |motionAxisID|;
    assert Key(motionAxisID, MaxSuffix)[n + 1] == 'a';
    assert Key(motionAxisID, MinSuffix)[n + 1] == 'i';
    assert Key(motionAxisID, VariableSuffix)[n] == 'V';
    assert Key(motionAxisID, MaxSuffix)[n] == 'M';
    var v := Key(motionAxisID, VariableSuffix);
    if |v| == |ControlAxisKey| {
      assert v[|v| - 1] == 'r';
      assert ControlAxisKey[|ControlAxisKey| - 1] == 's';
    }
  }

  /** The slider bounds `AdjustSensitivity` derives from the persisted minimum
      and maximum of a motion axis (defaults -1000 and 1000): the stored pair
      as it is when the maximum exceeds the minimum, swapped otherwise. So the
      bounds are always ordered: the smaller and the larger stored value. */
  function SliderBounds(prefs: Prefs, motionAxisID: string): (r: (real, real))
    ensures r.0 <= r.1
    ensures var mn, mx := GetFloat(prefs, Key(motionAxisID, MinSuffix), DefaultAxisMin),
                          GetFloat(prefs, Key(motionAxisID, MaxSuffix), DefaultAxisMax);
            r.0 == Min(mn, mx) && r.1 == Max(mn, mx)
    ensures Key(motionAxisID, MinSuffix) !in prefs && Key(motionAxisID, MaxSuffix) !in prefs ==>
              r == (DefaultAxisMin, DefaultAxisMax)
  {
    var mx := GetFloat(prefs, Key(motionAxisID, MaxSuffix), DefaultAxisMax);
    var mn := GetFloat(prefs, Key(motionAxisID, MinSuffix), DefaultAxisMin);
    if mx - mn > 0.0 then (mn, mx) else (mx, mn)
  }

  /** `AdjustSensitivity`: the slider takes the ordered bounds, and the
      control axis, if it is a remote axis, is calibrated to them, which makes
      its range positive. The preferences are only read. */
  function AdjustSensitivity(sc: Scene): (r: Scene)
    ensures r.prefs == sc.prefs
    ensures (r.panel.sliderMin, r.panel.sliderMax) == SliderBounds(sc.prefs, sc.panel.motionAxisID)
    ensures r.panel == sc.panel.(sliderMin := r.panel.sliderMin, sliderMax := r.panel.sliderMax)
    ensures r.input == CalibrateAxisPosition(sc.input, sc.panel.controlAxis, r.panel.sliderMin, r.panel.sliderMax)
    ensures sc.panel.controlAxis in r.input.remote ==>
              var a := r.input.remote[sc.panel.controlAxis];
              a.minPosition <= a.maxPosition && a.range > 0.0
    ensures SceneValid(sc) ==> SceneValid(r)
  {
    var (lo, hi) := SliderBounds(sc.prefs, sc.panel.motionAxisID);
    var r := Scene(sc.panel.(sliderMin := lo, sliderMax := hi), sc.prefs,
                   CalibrateAxisPosition(sc.input, sc.panel.controlAxis, lo, hi));
    assert Ordered(sc.input.remote) ==> Ordered(r.input.remote);
    r
  }

  /** After `AdjustSensitivity` with distinct bounds, the feedback scale of the
      control axis runs exactly across the slider: setpoint -1 is the slider
      minimum and +1 the slider maximum. */
  lemma ControlSpansSlider(sc: Scene)
    requires SceneValid(sc)
    requires sc.panel.controlAxis in sc.input.remote
    ensures var r := AdjustSensitivity(sc);
            r.panel.sliderMin < r.panel.sliderMax ==>
              && Denormalize(r.input.remote[sc.panel.controlAxis], -1.0) == r.panel.sliderMin
              && Denormalize(r.input.remote[sc.panel.controlAxis], 1.0) == r.panel.sliderMax
  {
    var r := AdjustSensitivity(sc);
    if r.panel.sliderMin < r.panel.sliderMax {
      CalibratedFeedbackSpan(sc.input, sc.panel.controlAxis, r.panel.sliderMin, r.panel.sliderMax, 0.0);
    }
  }

  /** Writing the current value under `key` and re-deriving the bounds: the
      common part of `SetMinimum` and `SetMaximum`. The slider bound the source
      assigns directly is overwritten by `AdjustSensitivity`. */
  function StoreBound(sc: Scene, suffix: string): (r: Scene)
    ensures var key := Key(sc.panel.motionAxisID, suffix);
            && key in r.prefs && r.prefs[key] == FloatPref(sc.panel.currentAbsoluteValue)
            && (forall k :: k != key ==> (k in r.prefs <==> k in sc.prefs))
            && (forall k :: k != key && k in sc.prefs ==> r.prefs[k] == sc.prefs[k])
    ensures (r.panel.sliderMin, r.panel.sliderMax) == SliderBounds(r.prefs, sc.panel.motionAxisID)
    ensures r.panel == sc.panel.(sliderMin := r.panel.sliderMin, sliderMax := r.panel.sliderMax)
    ensures r.input == CalibrateAxisPosition(sc.input, sc.panel.controlAxis, r.panel.sliderMin, r.panel.sliderMax)
    ensures SceneValid(sc) ==> SceneValid(r)
  {
    var key := Key(sc.panel.motionAxisID, suffix);
    var v := sc.panel.currentAbsoluteValue;
    var written := sc.(prefs := sc.prefs[key := FloatPref(v)]);
    var panel := if suffix == MinSuffix then sc.panel.(sliderMin := v) else sc.panel.(sliderMax := v);
    AdjustSensitivity(written.(panel := panel))
  }

  /** `SetMinimum`: the current position is persisted as the minimum. */
  function SetMinimum(sc: Scene): (r: Scene)
    ensures var key := Key(sc.panel.motionAxisID, MinSuffix);
            && key in r.prefs && r.prefs[key] == FloatPref(sc.panel.currentAbsoluteValue)
            && (forall k :: k != key ==> (k in r.prefs <==> k in sc.prefs))
            && (forall k :: k != key && k in sc.prefs ==> r.prefs[k] == sc.prefs[k])
    ensures var mx := GetFloat(sc.prefs, Key(sc.panel.motionAxisID, MaxSuffix), DefaultAxisMax);
            && r.panel.sliderMin == Min(sc.panel.currentAbsoluteValue, mx)
            && r.panel.sliderMax == Max(sc.panel.currentAbsoluteValue, mx)
    ensures r.panel == sc.panel.(sliderMin := r.panel.sliderMin, sliderMax := r.panel.sliderMax)
    ensures r.input == CalibrateAxisPosition(sc.input, sc.panel.controlAxis, r.panel.sliderMin, r.panel.sliderMax)
    ensures SceneValid(sc) ==> SceneValid(r)
  {
    KeysDistinct(sc.panel.motionAxisID);
    StoreBound(sc, MinSuffix)
  }

  /** `SetMaximum`: the current position is persisted as the maximum. */
  function SetMaximum(sc: Scene): (r: Scene)
    ensures var key := Key(sc.panel.motionAxisID, MaxSuffix);
            && key in r.prefs && r.prefs[key] == FloatPref(sc.panel.currentAbsoluteValue)
            && (forall k :: k != key ==> (k in r.prefs <==> k in sc.prefs))
            && (forall k :: k != key && k in sc.prefs ==> r.prefs[k] == sc.prefs[k])
    ensures var mn := GetFloat(sc.prefs, Key(sc.panel.motionAxisID, MinSuffix), DefaultAxisMin);
            && r.panel.sliderMin == Min(mn, sc.panel.currentAbsoluteValue)
            && r.panel.sliderMax == Max(mn, sc.panel.currentAbsoluteValue)
    ensures r.panel == sc.panel.(sliderMin := r.panel.sliderMin, sliderMax := r.panel.sliderMax)
    ensures r.input == CalibrateAxisPosition(sc.input, sc.panel.controlAxis, r.panel.sliderMin, r.panel.sliderMax)
    ensures SceneValid(sc) ==> SceneValid(r)
  {
    KeysDistinct(sc.panel.motionAxisID);
    StoreBound(sc, MaxSuffix)
  }

  /** `Reset`: the persisted maximum, minimum and control variable of the
      motion axis are deleted; every other key keeps its value. */
  function Reset(sc: Scene): (r: Scene)
    ensures var id := sc.panel.motionAxisID;
            && Key(id, MaxSuffix) !in r.prefs && Key(id, MinSuffix) !in r.prefs
            && Key(id, VariableSuffix) !in r.prefs
    ensures var deleted := {Key(sc.panel.motionAxisID, MaxSuffix), Key(sc.panel.motionAxisID, MinSuffix),
                            Key(sc.panel.motionAxisID, VariableSuffix)};
            && (forall k :: k !in deleted ==> (k in r.prefs <==> k in sc.prefs))
            && (forall k :: k !in deleted && k in sc.prefs ==> r.prefs[k] == sc.prefs[k])
    ensures r.panel == sc.panel && r.input == sc.input
  {
    var id := sc.panel.motionAxisID;
    sc.(prefs := sc.prefs - {Key(id, MaxSuffix)} - {Key(id, MinSuffix)} - {Key(id, VariableSuffix)})
  }

  /** After a reset the motion axis is back to the default bounds, whatever
      was stored before. */
  lemma ResetRestoresDefaults(sc: Scene)
    ensures SliderBounds(Reset(sc).prefs, sc.panel.motionAxisID) == (DefaultAxisMin, DefaultAxisMax)
  {
  }

  /** `SetAxis`: the motion axis becomes the player name followed by the
      axis name (each "" when not stored); the bounds are re-derived for it;
      and the control-axis entry becomes a copy of the control variable
      persisted for that motion axis, or is deleted when there is none. */
  function SetAxis(sc: Scene): (r: Scene)
    ensures r.panel.motionAxisID == GetString(sc.prefs, PlayerNameKey) + GetString(sc.prefs, MotionAxisKey)
    ensures (r.panel.sliderMin, r.panel.sliderMax) == SliderBounds(sc.prefs, r.panel.motionAxisID)
    ensures r.panel == sc.panel.(motionAxisID := r.panel.motionAxisID,
                                 sliderMin := r.panel.sliderMin, sliderMax := r.panel.sliderMax)
    ensures r.input == CalibrateAxisPosition(sc.input, sc.panel.controlAxis, r.panel.sliderMin, r.panel.sliderMax)
    ensures var v := Key(r.panel.motionAxisID, VariableSuffix);
            && (v in sc.prefs ==> ControlAxisKey in r.prefs
                                  && r.prefs[ControlAxisKey] == StringPref(GetString(sc.prefs, v)))
            && (v !in sc.prefs ==> ControlAxisKey !in r.prefs)
    ensures forall k :: k != ControlAxisKey ==> (k in r.prefs <==> k in sc.prefs)
    ensures forall k :: k != ControlAxisKey && k in sc.prefs ==> r.prefs[k] == sc.prefs[k]
    ensures r.panel.sliderMin <= r.panel.sliderMax
    ensures SceneValid(sc) ==> SceneValid(r)
  {
    var id := GetString(sc.prefs, PlayerNameKey) + GetString(sc.prefs, MotionAxisKey);
    var adjusted := AdjustSensitivity(sc.(panel := sc.panel.(motionAxisID := id)));
    var v := Key(id, VariableSuffix);
    if v in adjusted.prefs then
      adjusted.(prefs := adjusted.prefs[ControlAxisKey := StringPref(GetString(adjusted.prefs, v))])
    else
      adjusted.(prefs := adjusted.prefs - {ControlAxisKey})
  }

  /** Once the persisted entries of a motion axis are reset, selecting that
      axis again clears the control axis and falls back to the default
      bounds. */
  lemma SetAxisAfterReset(sc: Scene)
    requires GetString(sc.prefs, PlayerNameKey) + GetString(sc.prefs, MotionAxisKey) == sc.panel.motionAxisID
    ensures var r := SetAxis(Reset(sc));
            && ControlAxisKey !in r.prefs
            && r.panel.sliderMin == DefaultAxisMin && r.panel.sliderMax == DefaultAxisMax
  {
    var id := sc.panel.motionAxisID;
    KeysDistinct(id);
    var p := Reset(sc).prefs;
    assert GetString(p, PlayerNameKey) + GetString(p, MotionAxisKey) == id by {
      PlayerKeysKept(sc);
    }
    ResetRestoresDefaults(sc);
  }

  /** `Reset` never deletes the player name or the axis name: neither ends
      in one of the three suffixes. */
  lemma PlayerKeysKept(sc: Scene)
    requires GetString(sc.prefs, PlayerNameKey) + GetString(sc.prefs, MotionAxisKey) == sc.panel.motionAxisID
    ensures GetString(Reset(sc).prefs, PlayerNameKey) == GetString(sc.prefs, PlayerNameKey)
    ensures GetString(Reset(sc).prefs, MotionAxisKey) == GetString(sc.prefs, MotionAxisKey)
  {
    var id := sc.panel.motionAxisID;
    var deleted := {Key(id, MaxSuffix), Key(id, MinSuffix), Key(id, VariableSuffix)};
    SuffixKey(id, MaxSuffix);
    SuffixKey(id, MinSuffix);
    SuffixKey(id, VariableSuffix);
    assert PlayerNameKey !in deleted;
    assert MotionAxisKey !in deleted;
  }

  /** A key built with one of the three suffixes ends in "ax", "in" or "ar",
      which neither the player-name key nor the axis-name key does. */
  lemma SuffixKey(id: string, suffix: string)
    requires suffix == MaxSuffix || suffix == MinSuffix || suffix == VariableSuffix
    ensures Key(id, suffix) != PlayerNameKey && Key(id, suffix) != MotionAxisKey
  {
    var k := Key(id, suffix);
    assert k[|k| - 1] == suffix[2];
    assert PlayerNameKey[|PlayerNameKey| - 1] == 'e';
    assert MotionAxisKey[|MotionAxisKey| - 1] == 's';
  }

  /** `SetControl`: the previous control axis is calibrated to the slider
      bounds; the control axis stored under the control-axis key ("" when
      absent) is registered as a fresh remote axis at the current position,
      so its range is 1 until the bounds are next applied; it is persisted as
      the control variable of the motion axis; and the displacement restarts
      from the current position. */
  function SetControl(sc: Scene, now: real): (r: Scene)
    ensures r.panel.controlAxis == GetString(sc.prefs, ControlAxisKey)
    ensures r.panel.displacement == sc.panel.currentAbsoluteValue
    ensures r.panel == sc.panel.(controlAxis := r.panel.controlAxis, displacement := r.panel.displacement)
    ensures var c := r.panel.controlAxis;
            && c in r.input.remote
            && r.input.remote[c].range == 1.0
            && r.input.remote[c].position == sc.panel.currentAbsoluteValue
            && r.input.remote[c].motionTime == now
    ensures r.input.remote.Keys == sc.input.remote.Keys + {r.panel.controlAxis}
    ensures r.input == AddRemoteAxis(CalibrateAxisPosition(sc.input, sc.panel.controlAxis, sc.panel.sliderMin, sc.panel.sliderMax),
                                     r.panel.controlAxis, sc.panel.currentAbsoluteValue, now)
    ensures r.input.mouse == sc.input.mouse && r.input.keyboard == sc.input.keyboard
    ensures forall k :: k in sc.input.remote && k != sc.panel.controlAxis && k != r.panel.controlAxis ==>
              r.input.remote[k] == sc.input.remote[k]
    ensures var prev := sc.panel.controlAxis;
            prev in sc.input.remote && prev != r.panel.controlAxis ==>
              r.input.remote[prev] == CalibratePosition(sc.input.remote[prev], sc.panel.sliderMin, sc.panel.sliderMax)
    ensures var v := Key(sc.panel.motionAxisID, VariableSuffix);
            && v in r.prefs && r.prefs[v] == StringPref(r.panel.controlAxis)
            && (forall k :: k != v ==> (k in r.prefs <==> k in sc.prefs))
            && (forall k :: k != v && k in sc.prefs ==> r.prefs[k] == sc.prefs[k])
    ensures SceneValid(sc) ==> SceneValid(r)
  {
    var calibrated := CalibrateAxisPosition(sc.input, sc.panel.controlAxis, sc.panel.sliderMin, sc.panel.sliderMax);
    var control := GetString(sc.prefs, ControlAxisKey);
    var input := AddRemoteAxis(calibrated, control, sc.panel.currentAbsoluteValue, now);
    var r := Scene(sc.panel.(controlAxis := control, displacement := sc.panel.currentAbsoluteValue),
                   sc.prefs[Key(sc.panel.motionAxisID, VariableSuffix) := StringPref(control)],
                   input);
    assert SceneValid(sc) ==> Ordered(calibrated.remote);
    r
  }

  /** Choosing a control axis and then applying the bounds calibrates the
      new axis to the slider, replacing the unit range it was registered
      with. */
  lemma ControlCalibratedByAdjust(sc: Scene, now: real)
    requires SceneValid(sc)
    ensures var r := AdjustSensitivity(SetControl(sc, now));
            var a := r.input.remote[r.panel.controlAxis];
            && a.minPosition == r.panel.sliderMin && a.maxPosition == r.panel.sliderMax
            && a.range == RangeOf(r.panel.sliderMin, r.panel.sliderMax)
            && a.position == sc.panel.currentAbsoluteValue
  {
  }

}
