# Remote motion axes and their calibration, in Dafny

This project models the two scripts at the heart of a Unity game that is
driven by remote motion hardware:

- **InputManager.cs** keeps an axis store with three string-keyed maps of
  axis records: mouse, keyboard and remote axes. Its operations:
  - register and remove remote axes;
  - track the velocity and acceleration extrema of an axis;
  - calibrate an axis's position bounds, which fix its `range`;
  - convert normalised [-1, 1] feedback setpoints into axis units;
  - decode the `:`-separated batch of `id position velocity acceleration`
    reports received from the hardware;
  - send back, for every reported axis, a feedback string holding the stored
    setpoints;
  - estimate the current speed of an axis by extrapolating its last report
    and clamping the result to its calibrated bounds, widened by a tolerance.
- **Calibration.cs** is the calibration panel. Its handlers:
  - derive ordered slider bounds from a minimum and maximum persisted per
    motion axis (defaults -1000 and 1000);
  - persist new bounds and reset them;
  - select the motion axis and the control axis.

  Each handler is a transition over the panel's fields, the persisted
  preferences (a `map<string, Pref>` standing for `PlayerPrefs`) and the axis
  store.

Floats are `real`. The clock (`Time.realtimeSinceStartup`) is the parameter
`now`. `float.Parse` and the float-to-text conversion of
`StringBuilder.Append(float)` are parameters too:
`parse: string -> Option<real>` and `fmt: real -> string`. The received text
is an input and the sent feedback strings are an output sequence.

Modules, each in its own file:

- `Wrappers` holds `Option`.
- `Text` holds .NET `Split(char)`, `Trim()` and `Char.IsWhiteSpace` over
  `seq<char>`, and a `Join`.
- `Axis` holds one `AxisData` record and the arithmetic on it.
- `Codec` holds the wire grammar of reports and feedback.
- `InputManager` holds the store and its operations.
- `Calibration` holds the panel.

The store invariant `InputManager.Invariant` holds that every remote record:

- has a `range` equal to `max - min`, or 1 when the bounds coincide, so it is
  never 0;
- has a non-negative `error`;
- has velocity and acceleration extrema that bracket 0.

Every store operation preserves it. Division by a remote `range` is therefore
always defined.

Behaviour of the code that the model keeps as written:

- The `error` of a report is the distance between the received position and
  the stored position, divided by the range (InputManager.cs line 95).
- A freshly registered axis has velocity and acceleration extrema of 0. So
  its velocity and acceleration targets are clamped to 0 until
  `CalibrateAxisSpeed` has seen motion.
- An empty receipt still counts as one report, with the empty identifier.
  If an axis is registered under `""`, its feedback is sent (`EmptyReceipt`).
- The store does not enforce `minPosition <= maxPosition`. Only the
  calibration panel's transitions keep it (`Calibration.SceneValid`).
- The tolerance factor `1 + error` widens the clamp envelope only when the
  bounds bracket 0. Position bounds that are both positive are shifted
  upwards instead (`Axis.EnvelopeByTolerance`).

## Model

| member | source | states |
|---|---|---|
| Text.Split | Assets/Scripts/InputManager.cs:81 | `Split(':')` and `Split(' ')` keep empty pieces: there is one piece more than there are separators, and no piece contains the separator |
| Text.JoinSplit | Assets/Scripts/InputManager.cs:81 | splitting loses nothing: re-joining the pieces with the separator gives back the text |
| Text.SplitJoin | Assets/Scripts/InputManager.cs:84 | pieces free of the separator are recovered exactly by splitting their join |
| Text.Trim | Assets/Scripts/InputManager.cs:84 | `Trim()` yields a text neither starting nor ending with white space, made only of characters of the input |
| Text.TrimSlice | Assets/Scripts/InputManager.cs:84 | `Trim()` keeps one contiguous slice of the report and cuts only white space on either side |
| Text.TrimPadded | Assets/Scripts/InputManager.cs:84 | `Trim()` of a report with white space on either side gives back the report, whenever the report neither starts nor ends with white space |
| Text.TrimIdempotent | Assets/Scripts/InputManager.cs:84 | trimming a trimmed report changes nothing |
| Axis.Clamp | Assets/Scripts/InputManager.cs:143 | `Mathf.Clamp` returns the value or one bound; inside ordered bounds the value is kept, otherwise the result lies within them |
| Axis.RangeOf | Assets/Scripts/InputManager.cs:193 | the range derived from a pair of bounds is never 0, is positive for ordered bounds, and spans from min to max when they differ |
| Axis.NewAxis | Assets/Scripts/InputManager.cs:15-28 | a new record has the given position, zero kinematics and extrema, range 1, no setpoints, and satisfies the record invariant |
| Axis.CalibrateSpeed | Assets/Scripts/InputManager.cs:175-181 | the extrema only move outwards, exactly to the current value when it escapes them; nothing else changes; the invariant is kept |
| Axis.CalibrateSpeedBrackets | Assets/Scripts/InputManager.cs:177-181 | with ordered extrema, after tracking the current velocity and acceleration lie within them |
| Axis.CalibrateSpeedIdempotent | Assets/Scripts/InputManager.cs:177-181 | with ordered extrema, tracking the same values again changes nothing |
| Axis.TrackEnclosesAll | Assets/Scripts/InputManager.cs:177-178 | over any sequence of observed velocities, the tracked extrema end up enclosing every one of them |
| Axis.CalibratePosition | Assets/Scripts/InputManager.cs:189-193 | the bounds are replaced and the range is max − min, or 1 when that is 0; nothing else changes; the invariant is kept |
| Axis.NormalizeRoundTrip | Assets/Scripts/InputManager.cs:205 | the setpoint mapping `(s+1)·range/2 + min` is invertible whenever range ≠ 0, in both directions |
| Axis.DenormalizeSpansBounds | Assets/Scripts/InputManager.cs:205 | on a record calibrated with distinct bounds, −1 maps to min, +1 to max, and [−1, 1] into [min, max] |
| Axis.DenormalizeAll | Assets/Scripts/InputManager.cs:203-205 | the feedback list has one mapped value per setpoint, in order |
| Axis.SetFeedback | Assets/Scripts/InputManager.cs:201-207 | stored setpoints are the mapped inputs in order, the commanded position is the first of them, normalising them and the commanded velocity gives back the inputs; nothing else changes |
| Axis.Ingest | Assets/Scripts/InputManager.cs:95-102 | error·\|range\| = \|received − old position\|; the position is the report extrapolated over half the time since the last refresh; velocity, acceleration and time are replaced; setpoints and calibration are untouched |
| Axis.EnvelopeByTolerance | Assets/Scripts/InputManager.cs:140-146 | the tolerance-scaled envelope contains the calibrated bounds when they bracket 0, and its lower end rises above a positive minimum position |
| Axis.ClampNearest | Assets/Scripts/InputManager.cs:143 | `Mathf.Clamp` moves a value outside the bounds to the nearer bound (it is `Max(lo, Min(v, hi))` for ordered bounds); with inverted bounds the lower bound wins for values below it |
| Axis.ClampScaled | Assets/Scripts/InputManager.cs:143 | `Mathf.Clamp` into ordered bounds scaled by a non-negative factor lands inside the scaled bounds |
| Axis.PositionWithin | Assets/Scripts/InputManager.cs:140-143 | the position target lies within the position bounds widened by `1 + error`, and an extrapolated position already inside them is kept |
| Axis.VelocityWithin | Assets/Scripts/InputManager.cs:145-146 | for any position aimed at, the velocity target lies within the widened velocity extrema, and an exact velocity already inside them is kept |
| Axis.AccelerationWithin | Assets/Scripts/InputManager.cs:148-149 | for any velocity aimed at, the acceleration target lies within the widened acceleration extrema, and an exact acceleration already inside them is kept |
| Axis.RemoteSpeedWithin | Assets/Scripts/InputManager.cs:136-153 | on a valid record with ordered position bounds and time moving forward, the remote speed lies between the speeds the two ends of the widened acceleration envelope give |
| Axis.ElbowPrediction | Assets/Scripts/InputManager.cs:136-153 | a joint at 50 moving at 10 in bounds 0..100, commanded at 50 and at rest, queried one time unit later: position target 60, velocity 10, acceleration 10, speed 0.2 |
| Axis.SpeedWithin | Assets/Scripts/InputManager.cs:151-153 | an acceleration within its widened envelope gives a speed between those of the envelope's ends |
| Codec.Reports | Assets/Scripts/InputManager.cs:81-86 | one report per `:`-piece, each with at least an identifier field, and no field containing either separator |
| Codec.DecodeReading | Assets/Scripts/InputManager.cs:89-93 | a report yields values exactly when it has at least four fields and fields 1 to 3 all parse |
| Codec.EncodeFeedback | Assets/Scripts/InputManager.cs:111-117 | the feedback string starts with the axis identifier |
| Codec.FeedbackIsJoin | Assets/Scripts/InputManager.cs:111-117 | the feedback string is the identifier and the setpoint texts joined by single spaces |
| Codec.FeedbackFields | Assets/Scripts/InputManager.cs:111-120 | a peer splitting the feedback on spaces recovers the identifier and every setpoint text in order |
| Codec.ReportFields | Assets/Scripts/InputManager.cs:84 | a well-formed report trims and splits back into its identifier and three value texts |
| Codec.BatchRoundTrip | Assets/Scripts/InputManager.cs:81-93 | a batch of well-formed reports, each with any white space around it, decodes report by report to the sent identifiers and values, when the text written for each sent value is a token that parses back to it |
| Codec.ReportAt | Assets/Scripts/InputManager.cs:81-93 | the `i`-th `:`-piece of a batch, a well-formed report with white space around it, is trimmed and split back into the report's identifier and values |
| Codec.SingleRoundTrip | Assets/Scripts/InputManager.cs:81-93 | a receipt of one well-formed report decodes to exactly that report, when the text written for each of its values is a token that parses back to it |
| InputManager.Start | Assets/Scripts/InputManager.cs:35-40 | the two mouse axes at the mouse coordinates and the two keyboard axes at 0 are registered as fresh records, replacing any earlier ones; every other mouse and keyboard axis and all remote axes are kept |
| InputManager.AddRemoteAxis | Assets/Scripts/InputManager.cs:51-54 | the identifier is registered with exactly the fresh record `NewAxis` builds at the given position (range 1, no motion, no setpoints); every other axis is untouched; the invariant is kept |
| InputManager.RemoveRemoteAxis | Assets/Scripts/InputManager.cs:56-59 | the identifier is no longer registered; an absent identifier changes nothing; every other axis is untouched |
| InputManager.RemoveAfterAdd | Assets/Scripts/InputManager.cs:51-59 | registering then removing an axis equals removing it alone |
| InputManager.AddOverwrites | Assets/Scripts/InputManager.cs:51-54 | re-registering an identifier discards the earlier record |
| InputManager.CalibrateAxisSpeed | Assets/Scripts/InputManager.cs:171-183 | the tracker runs on a registered remote axis only; an unknown identifier leaves the store unchanged; the invariant is kept |
| InputManager.CalibrateAxisSpeedBrackets | Assets/Scripts/InputManager.cs:171-183 | in a valid store the axis's velocity and acceleration end inside the extrema, and a second calibration changes nothing |
| InputManager.CalibrateAxisPosition | Assets/Scripts/InputManager.cs:185-195 | a registered axis gets the bounds and a non-zero range (positive for ordered bounds); an unknown identifier leaves the store unchanged |
| InputManager.CalibratePositionOverwrites | Assets/Scripts/InputManager.cs:185-195 | only the last position calibration of an axis matters |
| InputManager.CalibratedFeedbackSpan | Assets/Scripts/InputManager.cs:185-207 | after calibrating to distinct ordered bounds, feedback −1 and +1 land on the bounds and [−1, 1] inside them |
| InputManager.SetAxisFeedback | Assets/Scripts/InputManager.cs:197-211 | a registered axis (with at least one setpoint) gets the mapped trajectory; an unknown identifier leaves the store unchanged |
| InputManager.FeedbackRecoverable | Assets/Scripts/InputManager.cs:197-211 | in a valid store the stored setpoints, commanded position and commanded velocity normalise back to what was set |
| InputManager.GetAxisAbsolutePosition | Assets/Scripts/InputManager.cs:159-169 | the stored position of the first map holding the identifier, looked up in mouse, keyboard, remote order; an identifier found in no map reads 0 |
| InputManager.PositionAfterAdd | Assets/Scripts/InputManager.cs:159-169 | a newly registered remote axis reads its initial position unless a mouse or keyboard axis shadows it |
| InputManager.PositionUnaffected | Assets/Scripts/InputManager.cs:159-169 | calibration and feedback never change any reported position |
| InputManager.GetAxisSpeed | Assets/Scripts/InputManager.cs:128-157 | mouse and keyboard speeds divide by the range of the remote axis of the same name, and fault without one; a remote axis reads exactly `RemoteSpeed`: position target, velocity toward it, acceleration toward that, re-integrated from the commanded velocity, which lies within the widened acceleration envelope; unknown identifiers read 0 |
| InputManager.ApplyReport | Assets/Scripts/InputManager.cs:84-121 | an unregistered identifier changes nothing and sends nothing; a registered one sends exactly its feedback, and is refreshed when all values parse and left wholly unchanged otherwise |
| InputManager.ApplyReports | Assets/Scripts/InputManager.cs:82-122 | handling a batch keeps the registered identifiers, setpoints and calibration of every axis and the invariant, and sends at most one string per report |
| InputManager.FeedbackSent | Assets/Scripts/InputManager.cs:111-120 | the strings sent for a batch are exactly one feedback per report naming a registered axis, in report order, carrying the setpoints stored before the batch |
| InputManager.UnmentionedUnchanged | Assets/Scripts/InputManager.cs:82-87 | an axis that no report names keeps its record |
| InputManager.NamedOnceIngested | Assets/Scripts/InputManager.cs:82-102 | a remote axis named by exactly one report of a batch, whose values parse, ends as that report ingested into its record |
| InputManager.UpdateRemoteAxes | Assets/Scripts/InputManager.cs:81-122 | one received batch leaves mouse and keyboard axes alone, keeps setups and the invariant, and sends the expected feedback |
| InputManager.EmptyReceipt | Assets/Scripts/InputManager.cs:81-87 | an empty receipt leaves the whole input state as it was; it sends nothing unless an axis is registered under "", whose feedback it then sends |
| InputManager.SingleReportIngested | Assets/Scripts/InputManager.cs:81-121 | a receipt of one well-formed report for a remote axis refreshes that axis from the values and sends its feedback once |
| InputManager.BatchNamed | Assets/Scripts/InputManager.cs:81-102 | in a received batch of well-formed reports with distinct identifiers and any white space around each, the registered axis named by report `i` ends as that report's values ingested into its record |
| InputManager.BatchUnnamed | Assets/Scripts/InputManager.cs:81-102 | in a received batch of well-formed reports, a registered axis that no report names keeps its record |
| InputManager.BatchIngested | Assets/Scripts/InputManager.cs:81-102 | a received batch of well-formed reports with distinct identifiers, each with any white space around it, refreshes every registered axis it names from its own report, ignores unregistered identifiers, and leaves every other axis alone |
| Calibration.GetFloat | Assets/Scripts/Calibration.cs:93-97 | an absent key reads the default; a stored float reads as itself |
| Calibration.GetString | Assets/Scripts/Calibration.cs:67 | an absent key reads ""; a stored string reads as itself |
| Calibration.SliderBounds | Assets/Scripts/Calibration.cs:93-103 | the slider bounds are the smaller and the larger of the stored minimum and maximum (defaults −1000 and 1000), hence ordered |
| Calibration.AdjustSensitivity | Assets/Scripts/Calibration.cs:91-106 | the slider takes the ordered bounds; a registered control axis is calibrated to them and ends with ordered bounds and a positive range; preferences are only read |
| Calibration.ControlSpansSlider | Assets/Scripts/Calibration.cs:105 | after the bounds are applied, feedback −1 and +1 of the control axis are the slider minimum and maximum |
| Calibration.SetMinimum | Assets/Scripts/Calibration.cs:77-82 | only the minimum key is written, with the current value; the slider ends at the smaller and larger of it and the stored maximum; the control axis is calibrated to the slider and nothing else in the panel or the store changes |
| Calibration.SetMaximum | Assets/Scripts/Calibration.cs:84-89 | only the maximum key is written, with the current value; the slider ends at the smaller and larger of the stored minimum and it; the control axis is calibrated to the slider and nothing else in the panel or the store changes |
| Calibration.Reset | Assets/Scripts/Calibration.cs:108-113 | exactly the maximum, minimum and control-variable keys of the motion axis are deleted |
| Calibration.ResetRestoresDefaults | Assets/Scripts/Calibration.cs:108-113 | after a reset the slider bounds of the motion axis are the defaults −1000 and 1000 |
| Calibration.SetAxis | Assets/Scripts/Calibration.cs:65-75 | the motion axis is player name + axis name; the slider takes its bounds and the control axis is calibrated to them; the control-axis key becomes a copy of its control variable, or is deleted without one; no other key, panel field or axis changes |
| Calibration.SetAxisAfterReset | Assets/Scripts/Calibration.cs:65-113 | selecting a reset motion axis clears the control axis and yields the default bounds |
| Calibration.SetControl | Assets/Scripts/Calibration.cs:54-63 | the previous control axis is calibrated to the slider; the stored control axis is registered fresh (range 1) at the current value and persisted as the control variable; the displacement restarts; every other axis is untouched |
| Calibration.ControlCalibratedByAdjust | Assets/Scripts/Calibration.cs:54-63 | applying the bounds after choosing a control axis calibrates the new axis to the slider, replacing its unit range |

## Left out

- The coroutine shell of `UpdateAxisValues` (the frame loop and its yield) is not modelled. One received batch is one call of `UpdateRemoteAxes`.
- The clock reading is one value `now` per batch, so the two reads of lines 97 and 98 agree.
- The mouse and keyboard polling loops (InputManager.cs lines 67-79) are not modelled: they read devices through `Input.GetAxis`.
- The transport is not modelled: connecting, `ReceiveString` and `SendString` of the axis client, and the `PlayerPrefs` reads of the server address in `Start`. The received text is an input, and the sent strings are returned.
- IEEE single-precision rounding, NaN and infinities are not modelled. Floats are `real`.
- Decimal text formatting and parsing are not modelled. They are the parameters `fmt` and `parse`; a round trip is assumed only where a lemma states it.
- `Debug.Log`, `OnDestroy`, `PlayerPrefs.Save` and the slider and text widgets are not modelled; the slider is its two bounds.
- `Calibration.Update` is not modelled. It is a per-frame display update, and it calls `GetAbsoluteAxisSpeed` and `SetAxisAbsoluteFeedback`, which InputManager.cs does not define.
- Axis.VelocityWithin, Axis.AccelerationWithin, Axis.RemoteSpeedWithin: require `now` to differ from the last refresh time, because the source divides by the elapsed time unguarded.
- InputManager.GetAxisSpeed: a remote axis requires `now` to differ from its last refresh time, because the source divides by the elapsed time unguarded.
- InputManager.GetAxisSpeed: the mouse and keyboard branches read the remote map under the same identifier. The source throws when it is absent; here that is `None`.
- InputManager.ApplyReport: the model requires the record invariant, so the division by `range` on line 95 is defined. Every store operation keeps the invariant.
- InputManager.UpdateRemoteAxes: the model requires the record invariant, so the division by `range` on line 95 is defined. Every store operation keeps the invariant.
- InputManager.SetAxisFeedback: requires at least one setpoint for a registered axis; the source faults on `setpoints[0]` otherwise.
- Codec.EncodeFeedback: its contract states only the identifier prefix. The full shape is stated by `Codec.FeedbackIsJoin` and `Codec.FeedbackFields`.
