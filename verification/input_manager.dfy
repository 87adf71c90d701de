/** The axis store of InputManager.cs: three string-keyed maps of axis records
    (mouse, keyboard and remote axes), the operations other components call on
    it, and the handling of one received batch of remote reports. The clock is
    the parameter `now`; the received text is an input and the feedback strings
    sent back are an output sequence. */
module InputManager {
  import opened Wrappers
  import opened Text
  import opened Axis
  import opened Codec

  type Store = map<string, AxisData>

  /** The three dictionaries of axis records. */
  datatype InputState = InputState(mouse: Store, keyboard: Store, remote: Store)

  /** Every record of a map satisfies the record invariant. */
  predicate AllValid(m: Store)
  {
    forall id :: id in m ==> Valid(m[id])
  }

  /** The store invariant: every remote record keeps a non-zero range that
      agrees with its bounds, a non-negative discrepancy and extrema that
      bracket zero. Division by a remote range is therefore always defined. */
  predicate Invariant(s: InputState)
  {
    AllValid(s.remote)
  }

  /** Two maps hold the same identifiers, and nothing but `id` differs. */
  ghost predicate OthersUnchanged(m: Store, m': Store, id: string)
  {
    && (forall k :: k != id ==> (k in m' <==> k in m))
    && (forall k :: k != id && k in m ==> m'[k] == m[k])
  }

  /** The two records agree on everything a report leaves alone: the stored
      setpoints, the commanded position and velocity and the calibration. */
  predicate SameSetup(a: AxisData, b: AxisData)
  {
    && a.setpoints == b.setpoints
    && a.minPosition == b.minPosition && a.maxPosition == b.maxPosition && a.range == b.range
    && a.minVelocity == b.minVelocity && a.maxVelocity == b.maxVelocity
    && a.minAcceleration == b.minAcceleration && a.maxAcceleration == b.maxAcceleration
    && a.actualPosition == b.actualPosition && a.actualVelocity == b.actualVelocity
  }

  /** `Start`: the two mouse axes at the current mouse coordinates and the
      two keyboard axes at 0 are (re)registered; the remote axes are kept. */
  function Start(s: InputState, mouseX: real, mouseY: real, now: real): (r: InputState)
    ensures r.mouse.Keys == s.mouse.Keys + {"Mouse X", "Mouse Y"}
    ensures r.keyboard.Keys == s.keyboard.Keys + {"Horizontal", "Vertical"}
    ensures r.mouse["Mouse X"].position == mouseX && r.mouse["Mouse Y"].position == mouseY
    ensures r.keyboard["Horizontal"].position == 0.0 && r.keyboard["Vertical"].position == 0.0
    ensures r.mouse["Mouse X"] == NewAxis(mouseX, now) && r.mouse["Mouse Y"] == NewAxis(mouseY, now)
    ensures r.keyboard["Horizontal"] == NewAxis(0.0, now) && r.keyboard["Vertical"] == NewAxis(0.0, now)
    ensures forall k :: k in s.mouse && k != "Mouse X" && k != "Mouse Y" ==> r.mouse[k] == s.mouse[k]
    ensures forall k :: k in s.keyboard && k != "Horizontal" && k != "Vertical" ==> r.keyboard[k] == s.keyboard[k]
    ensures r.remote == s.remote
    ensures Invariant(s) ==> Invariant(r)
  {
    s.(mouse := s.mouse["Mouse X" := NewAxis(mouseX, now)]["Mouse Y" := NewAxis(mouseY, now)],
       keyboard := s.keyboard["Horizontal" := NewAxis(0.0, now)]["Vertical" := NewAxis(0.0, now)])
  }

  /** `AddRemoteAxis`: a fresh record at the given position replaces whatever
      was registered under `id`; every other axis is untouched. */
  function AddRemoteAxis(s: InputState, id: string, initialPosition: real, now: real): (r: InputState)
    ensures id in r.remote && r.remote.Keys == s.remote.Keys + {id}
    ensures r.remote[id].position == initialPosition && r.remote[id].motionTime == now
    ensures r.remote[id].velocity == r.remote[id].acceleration == 0.0
    ensures r.remote[id].range == 1.0 && r.remote[id].setpoints == []
    ensures r.remote[id] == NewAxis(initialPosition, now)
    ensures OthersUnchanged(s.remote, r.remote, id)
    ensures r.mouse == s.mouse && r.keyboard == s.keyboard
    ensures Invariant(s) ==> Invariant(r)
  {
    s.(remote := s.remote[id := NewAxis(initialPosition, now)])
  }

  /** `RemoveRemoteAxis`: `id` is no longer a remote axis; removing an absent
      identifier changes nothing. */
  function RemoveRemoteAxis(s: InputState, id: string): (r: InputState)
    ensures id !in r.remote && r.remote.Keys == s.remote.Keys - {id}
    ensures OthersUnchanged(s.remote, r.remote, id)
    ensures id !in s.remote ==> r == s
    ensures r.mouse == s.mouse && r.keyboard == s.keyboard
    ensures Invariant(s) ==> Invariant(r)
  {
    s.(remote := s.remote - {id})
  }

  /** Registering and then removing an axis leaves the store as removing it
      alone would. */
  lemma RemoveAfterAdd(s: InputState, id: string, p: real, now: real)
    ensures RemoveRemoteAxis(AddRemoteAxis(s, id, p, now), id) == RemoveRemoteAxis(s, id)
  {
    assert s.remote[id := NewAxis(p, now)] - {id} == s.remote - {id};
  }

  /** Registering an identifier again discards the earlier record entirely. */
  lemma AddOverwrites(s: InputState, id: string, p: real, q: real, t: real, u: real)
    ensures AddRemoteAxis(AddRemoteAxis(s, id, p, t), id, q, u) == AddRemoteAxis(s, id, q, u)
  {
    assert s.remote[id := NewAxis(p, t)][id := NewAxis(q, u)] == s.remote[id := NewAxis(q, u)];
  }

  /** `CalibrateAxisSpeed`: the min/max tracker runs on the remote record
      `id`; nothing happens for an identifier that is not a remote axis. */
  function CalibrateAxisSpeed(s: InputState, id: string): (r: InputState)
    ensures id !in s.remote ==> r == s
    ensures id in s.remote ==> id in r.remote && r.remote[id] == CalibrateSpeed(s.remote[id])
    ensures OthersUnchanged(s.remote, r.remote, id) && r.remote.Keys == s.remote.Keys
    ensures r.mouse == s.mouse && r.keyboard == s.keyboard
    ensures Invariant(s) ==> Invariant(r)
  {
    if id in s.remote then s.(remote := s.remote[id := CalibrateSpeed(s.remote[id])]) else s
  }

  /** In a valid store, calibrating the speed of a remote axis leaves its
      current velocity and acceleration inside the tracked extrema, and a
      second calibration in the same frame changes nothing. */
  lemma CalibrateAxisSpeedBrackets(s: InputState, id: string)
    requires Invariant(s) && id in s.remote
    ensures var a := CalibrateAxisSpeed(s, id).remote[id];
            && a.minVelocity <= a.velocity <= a.maxVelocity
            && a.minAcceleration <= a.acceleration <= a.maxAcceleration
    ensures CalibrateAxisSpeed(CalibrateAxisSpeed(s, id), id) == CalibrateAxisSpeed(s, id)
  {
    var a := s.remote[id];
    assert Valid(a);
    CalibrateSpeedBrackets(a);
    CalibrateSpeedIdempotent(a);
    assert CalibrateAxisSpeed(s, id).remote[id := CalibrateSpeed(CalibrateSpeed(a))]
        == CalibrateAxisSpeed(s, id).remote;
  }

  /** `CalibrateAxisPosition`: new position bounds for the remote record `id`
      and the range derived from them, never zero; nothing happens for an
      identifier that is not a remote axis. */
  function CalibrateAxisPosition(s: InputState, id: string, lo: real, hi: real): (r: InputState)
    ensures id !in s.remote ==> r == s
    ensures id in s.remote ==> id in r.remote && r.remote[id] == CalibratePosition(s.remote[id], lo, hi)
    ensures id in s.remote ==> r.remote[id].range != 0.0 && (lo <= hi ==> r.remote[id].range > 0.0)
    ensures OthersUnchanged(s.remote, r.remote, id) && r.remote.Keys == s.remote.Keys
    ensures r.mouse == s.mouse && r.keyboard == s.keyboard
    ensures Invariant(s) ==> Invariant(r)
  {
    if id in s.remote then s.(remote := s.remote[id := CalibratePosition(s.remote[id], lo, hi)]) else s
  }

  /** Only the last position calibration of an axis matters. */
  lemma CalibratePositionOverwrites(s: InputState, id: string, lo: real, hi: real, lo': real, hi': real)
    ensures CalibrateAxisPosition(CalibrateAxisPosition(s, id, lo, hi), id, lo', hi')
            == CalibrateAxisPosition(s, id, lo', hi')
  {
    if id in s.remote {
      var a := s.remote[id];
      assert CalibratePosition(CalibratePosition(a, lo, hi), lo', hi') == CalibratePosition(a, lo', hi');
      assert s.remote[id := CalibratePosition(a, lo, hi)][id := CalibratePosition(a, lo', hi')]
          == s.remote[id := CalibratePosition(a, lo', hi')];
    }
  }

  /** After a position calibration with distinct ordered bounds, feedback
      setpoints -1 and +1 land exactly on the bounds, and [-1, 1] inside them. */
  lemma CalibratedFeedbackSpan(s: InputState, id: string, lo: real, hi: real, sp: real)
    requires Invariant(s) && id in s.remote && lo < hi && -1.0 <= sp <= 1.0
    ensures var a := CalibrateAxisPosition(s, id, lo, hi).remote[id];
            && Denormalize(a, -1.0) == lo && Denormalize(a, 1.0) == hi
            && lo <= Denormalize(a, sp) <= hi
  {
    var a := CalibrateAxisPosition(s, id, lo, hi).remote[id];
    assert Valid(a);
    DenormalizeSpansBounds(a, sp);
  }

  /** `SetAxisFeedback`: the normalised setpoints and velocity, brought into
      the units of the remote axis `id`, become its commanded trajectory.
      The source reads the first mapped setpoint, so a registered axis needs
      at least one; an unknown identifier changes nothing. */
  function SetAxisFeedback(s: InputState, id: string, v: real, setpoints: seq<real>): (r: InputState)
    requires id in s.remote ==> |setpoints| > 0
    ensures id !in s.remote ==> r == s
    ensures id in s.remote ==> id in r.remote && r.remote[id] == SetFeedback(s.remote[id], v, setpoints)
    ensures OthersUnchanged(s.remote, r.remote, id) && r.remote.Keys == s.remote.Keys
    ensures r.mouse == s.mouse && r.keyboard == s.keyboard
    ensures Invariant(s) ==> Invariant(r)
  {
    if id in s.remote then s.(remote := s.remote[id := SetFeedback(s.remote[id], v, setpoints)]) else s
  }

  /** In a valid store the feedback is recoverable: normalising the stored
      setpoints and commanded velocity of the axis gives back what was set,
      and the commanded position is the first setpoint. */
  lemma FeedbackRecoverable(s: InputState, id: string, v: real, setpoints: seq<real>)
    requires Invariant(s) && id in s.remote && |setpoints| > 0
    ensures var a := SetAxisFeedback(s, id, v, setpoints).remote[id];
            && |a.setpoints| == |setpoints|
            && (forall i :: 0 <= i < |setpoints| ==> Normalize(a, a.setpoints[i]) == setpoints[i])
            && NormalizedSpeed(a, a.actualVelocity) == v
            && Normalize(a, a.actualPosition) == setpoints[0]
  {
    assert Valid(s.remote[id]);
  }

  /** `GetAxisAbsolutePosition`: the stored position of the axis, looked up in
      the mouse, keyboard and remote maps in that order; 0 for an unknown
      identifier. */
  function GetAxisAbsolutePosition(s: InputState, id: string): (r: real)
    ensures id !in s.mouse && id !in s.keyboard && id !in s.remote ==> r == 0.0
    ensures id in s.mouse ==> r == s.mouse[id].position
    ensures id !in s.mouse && id in s.keyboard ==> r == s.keyboard[id].position
    ensures id !in s.mouse && id !in s.keyboard && id in s.remote ==> r == s.remote[id].position
  {
    if id in s.mouse then s.mouse[id].position
    else if id in s.keyboard then s.keyboard[id].position
    else if id in s.remote then s.remote[id].position
    else 0.0
  }

  /** A freshly registered remote axis reports its initial position, unless a
      mouse or keyboard axis of the same name shadows it. */
  lemma PositionAfterAdd(s: InputState, id: string, p: real, now: real)
    requires id !in s.mouse && id !in s.keyboard
    ensures GetAxisAbsolutePosition(AddRemoteAxis(s, id, p, now), id) == p
  {
  }

  /** Feedback and calibration never move the reported position. */
  lemma PositionUnaffected(s: InputState, id: string, x: string, lo: real, hi: real, v: real, sp: seq<real>)
    requires x in s.remote ==> |sp| > 0
    ensures GetAxisAbsolutePosition(CalibrateAxisPosition(s, x, lo, hi), id) == GetAxisAbsolutePosition(s, id)
    ensures GetAxisAbsolutePosition(CalibrateAxisSpeed(s, x), id) == GetAxisAbsolutePosition(s, id)
    ensures GetAxisAbsolutePosition(SetAxisFeedback(s, x, v, sp), id) == GetAxisAbsolutePosition(s, id)
  {
  }

  /** `GetAxisSpeed`. A mouse or keyboard axis divides its velocity by the
      range of the remote axis of the same name; when there is none the source
      faults on the lookup, which is `None` here. A remote axis gets the
      clamped estimate of the remote branch, which lies between the speeds
      the two ends of its widened acceleration envelope would give when time
      has moved on. Any other identifier reads 0. The remote branch divides by
      the elapsed time, so that must not be zero. */
  method GetAxisSpeed(s: InputState, id: string, now: real) returns (r: Option<real>)
    requires Invariant(s)
    requires id !in s.mouse && id !in s.keyboard && id in s.remote ==> now != s.remote[id].motionTime
    ensures id in s.mouse ==>
              (r.Some? <==> id in s.remote)
              && (r.Some? ==> r.value == NormalizedSpeed(s.remote[id], s.mouse[id].velocity))
    ensures id !in s.mouse && id in s.keyboard ==>
              (r.Some? <==> id in s.remote)
              && (r.Some? ==> r.value == NormalizedSpeed(s.remote[id], s.keyboard[id].velocity))
    ensures id !in s.mouse && id !in s.keyboard && id !in s.remote ==> r == Some(0.0)
    ensures id !in s.mouse && id !in s.keyboard && id in s.remote ==>
              var a := s.remote[id];
              && r == Some(RemoteSpeed(a, now))
              && (a.minPosition <= a.maxPosition && now > a.motionTime ==> SpeedBracketed(a, now, r.value))
  {
    if id in s.mouse {
      if id in s.remote {
        assert Valid(s.remote[id]);
        r := Some(NormalizedSpeed(s.remote[id], s.mouse[id].velocity));
      } else {
        r := None;
      }
    } else if id in s.keyboard {
      if id in s.remote {
        assert Valid(s.remote[id]);
        r := Some(NormalizedSpeed(s.remote[id], s.keyboard[id].velocity));
      } else {
        r := None;
      }
    } else if id in s.remote {
      var a := s.remote[id];
      assert Valid(a);
      RemoteSpeedWithin(a, now);
      r := Some(RemoteSpeed(a, now));
    } else {
      r := Some(0.0);
    }
  }

  /** The remote map after a report, and the feedback strings sent. */
  datatype Outcome = Outcome(remote: Store, sent: seq<string>)

  /** One report of a batch, given as its fields. An identifier that is not a
      remote axis is ignored. For a remote axis the record is refreshed from
      the three values when all of them parse, and left wholly unchanged
      otherwise; either way exactly one feedback string is sent, carrying the
      stored setpoints. */
  function ApplyReport(remote: Store, fields: seq<string>, now: real,
                       parse: string -> Option<real>, fmt: real -> string): (r: Outcome)
    requires |fields| >= 1 && AllValid(remote)
    ensures fields[0] !in remote ==> r == Outcome(remote, [])
    ensures fields[0] in remote ==> r.sent == [EncodeFeedback(fields[0], remote[fields[0]].setpoints, fmt)]
    ensures DecodeReading(fields, parse).None? ==> r.remote == remote
    ensures fields[0] in remote && DecodeReading(fields, parse).Some? ==>
              var a, rd := remote[fields[0]], DecodeReading(fields, parse).value;
              fields[0] in r.remote && r.remote[fields[0]] == Ingest(a, rd.position, rd.velocity, rd.acceleration, now)
    ensures OthersUnchanged(remote, r.remote, fields[0]) && r.remote.Keys == remote.Keys
    ensures forall k :: k in remote ==> SameSetup(remote[k], r.remote[k])
    ensures AllValid(r.remote)
  {
    var id := fields[0];
    if id !in remote then Outcome(remote, [])
    else
      var sent := [EncodeFeedback(id, remote[id].setpoints, fmt)];
      match DecodeReading(fields, parse)
      case None => Outcome(remote, sent)
      case Some(rd) =>
        assert Valid(remote[id]);
        Outcome(remote[id := Ingest(remote[id], rd.position, rd.velocity, rd.acceleration, now)], sent)
  }

  /** Every report of the batch has an identifier field. */
  predicate WellShaped(reports: seq<seq<string>>)
  {
    forall i :: 0 <= i < |reports| ==> |reports[i]| >= 1
  }

  /** The reports of a batch handled in order. */
  function ApplyReports(remote: Store, reports: seq<seq<string>>, now: real,
                        parse: string -> Option<real>, fmt: real -> string): (r: Outcome)
    requires WellShaped(reports) && AllValid(remote)
    ensures r.remote.Keys == remote.Keys
    ensures forall k :: k in remote ==> SameSetup(remote[k], r.remote[k])
    ensures AllValid(r.remote)
    ensures |r.sent| <= |reports|
    decreases |reports|
  {
    if |reports| == 0 then Outcome(remote, [])
    else
      var first := ApplyReport(remote, reports[0], now, parse, fmt);
      var rest := ApplyReports(first.remote, reports[1..], now, parse, fmt);
      Outcome(rest.remote, first.sent + rest.sent)
  }

  /** The feedback a batch should produce, read off the store before it: one
      string per report that names a remote axis, in report order. */
  function FeedbackFor(remote: Store, reports: seq<seq<string>>, fmt: real -> string): seq<string>
    requires WellShaped(reports)
    decreases |reports|
  {
    if |reports| == 0 then []
    else
      var id := reports[0][0];
      (if id in remote then [EncodeFeedback(id, remote[id].setpoints, fmt)] else [])
      + FeedbackFor(remote, reports[1..], fmt)
  }

  /** The expected feedback depends only on the identifiers and setpoints. */
  lemma {:induction false} FeedbackForSetup(m: Store, m': Store, reports: seq<seq<string>>, fmt: real -> string)
    requires WellShaped(reports)
    requires m'.Keys == m.Keys && forall k :: k in m ==> m'[k].setpoints == m[k].setpoints
    ensures FeedbackFor(m', reports, fmt) == FeedbackFor(m, reports, fmt)
    decreases |reports|
  {
    if |reports| > 0 {
      FeedbackForSetup(m, m', reports[1..], fmt);
    }
  }

  /** The strings sent for a batch are exactly the expected feedback: one per
      report with a registered identifier, whether or not its values parsed,
      each carrying the setpoints stored before the batch. */
  lemma {:induction false} FeedbackSent(remote: Store, reports: seq<seq<string>>, now: real,
                                        parse: string -> Option<real>, fmt: real -> string)
    requires WellShaped(reports) && AllValid(remote)
    ensures ApplyReports(remote, reports, now, parse, fmt).sent == FeedbackFor(remote, reports, fmt)
    decreases |reports|
  {
    if |reports| > 0 {
      var first := ApplyReport(remote, reports[0], now, parse, fmt);
      FeedbackSent(first.remote, reports[1..], now, parse, fmt);
      FeedbackForSetup(remote, first.remote, reports[1..], fmt);
    }
  }

  /** A remote axis that no report of the batch names keeps its record. */
  lemma {:induction false} UnmentionedUnchanged(remote: Store, reports: seq<seq<string>>, now: real,
                                                parse: string -> Option<real>, fmt: real -> string, id: string)
    requires WellShaped(reports) && AllValid(remote) && id in remote
    requires forall i :: 0 <= i < |reports| ==> reports[i][0] != id
    ensures ApplyReports(remote, reports, now, parse, fmt).remote[id] == remote[id]
    decreases |reports|
  {
    if |reports| > 0 {
      var first := ApplyReport(remote, reports[0], now, parse, fmt);
      UnmentionedUnchanged(first.remote, reports[1..], now, parse, fmt, id);
    }
  }

  /** A remote axis named by exactly one report of the batch, whose values
      parse, ends as that report's values ingested into its record. */
  lemma {:induction false} NamedOnceIngested(remote: Store, reports: seq<seq<string>>, now: real,
                                             parse: string -> Option<real>, fmt: real -> string, i: nat)
    requires WellShaped(reports) && AllValid(remote)
    requires i < |reports| && reports[i][0] in remote && DecodeReading(reports[i], parse).Some?
    requires forall j :: 0 <= j < |reports| && j != i ==> reports[j][0] != reports[i][0]
    ensures var id, rd := reports[i][0], DecodeReading(reports[i], parse).value;
            ApplyReports(remote, reports, now, parse, fmt).remote[id]
            == Ingest(remote[id], rd.position, rd.velocity, rd.acceleration, now)
    decreases |reports|
  {
    var id := reports[i][0];
    var first := ApplyReport(remote, reports[0], now, parse, fmt);
    if i == 0 {
      forall j | 0 <= j < |reports[1..]|
        ensures reports[1..][j][0] != id
      {
        assert reports[1..][j] == reports[j + 1];
      }
      UnmentionedUnchanged(first.remote, reports[1..], now, parse, fmt, id);
    } else {
      assert reports[0][0] != id;
      assert first.remote[id] == remote[id];
      assert reports[1..][i - 1] == reports[i];
      forall j | 0 <= j < |reports[1..]| && j != i - 1
        ensures reports[1..][j][0] != reports[1..][i - 1][0]
      {
        assert reports[1..][j] == reports[j + 1];
      }
      NamedOnceIngested(first.remote, reports[1..], now, parse, fmt, i - 1);
    }
  }

  /** The store after one received batch, and the feedback sent back. */
  datatype Polled = Polled(state: InputState, sent: seq<string>)

  /** The message-handling part of one polling frame: the received text is
      split into reports, each handled in order at clock reading `now`. The
      mouse and keyboard axes are not touched. */
  function UpdateRemoteAxes(s: InputState, received: string, now: real,
                            parse: string -> Option<real>, fmt: real -> string): (r: Polled)
    requires Invariant(s)
    ensures r.state.mouse == s.mouse && r.state.keyboard == s.keyboard
    ensures r.state.remote.Keys == s.remote.Keys
    ensures forall k :: k in s.remote ==> SameSetup(s.remote[k], r.state.remote[k])
    ensures Invariant(r.state)
    ensures r.sent == FeedbackFor(s.remote, Reports(received), fmt)
  {
    var reports := Reports(received);
    var o := ApplyReports(s.remote, reports, now, parse, fmt);
    FeedbackSent(s.remote, reports, now, parse, fmt);
    Polled(s.(remote := o.remote), o.sent)
  }

  /** A batch of one report is that report. */
  lemma ApplyOne(remote: Store, fields: seq<string>, now: real,
                 parse: string -> Option<real>, fmt: real -> string)
    requires |fields| >= 1 && AllValid(remote)
    ensures ApplyReports(remote, [fields], now, parse, fmt) == ApplyReport(remote, fields, now, parse, fmt)
  {
    var first := ApplyReport(remote, fields, now, parse, fmt);
    assert [fields][1..] == [];
    assert ApplyReports(first.remote, [], now, parse, fmt) == Outcome(first.remote, []);
    assert first.sent + [] == first.sent;
  }

  /** An empty receipt is one report with the empty identifier: nothing
      happens unless an axis is registered under "", in which case its
      feedback is still sent. */
  lemma EmptyReceipt(s: InputState, now: real, parse: string -> Option<real>, fmt: real -> string)
    requires Invariant(s)
    ensures "" !in s.remote ==> UpdateRemoteAxes(s, "", now, parse, fmt) == Polled(s, [])
    ensures UpdateRemoteAxes(s, "", now, parse, fmt).state == s
    ensures "" in s.remote ==> UpdateRemoteAxes(s, "", now, parse, fmt).sent == [EncodeFeedback("", s.remote[""].setpoints, fmt)]
  {
    assert Split("", ReportSeparator) == [""];
    assert Trim("") == "";
    assert Reports("") == [[""]];
    ApplyOne(s.remote, [""], now, parse, fmt);
    assert DecodeReading([""], parse).None?;
    assert s.(remote := s.remote) == s;
  }

  /** A receipt holding one well-formed report for a remote axis refreshes
      that axis from the report's values and sends its feedback once; every
      other axis keeps its record. */
  lemma SingleReportIngested(s: InputState, id: string, rd: Reading, now: real,
                             parse: string -> Option<real>, fmt: real -> string)
    requires Invariant(s) && id in s.remote
    requires Token(id) && Legible(rd, parse, fmt)
    ensures var r := UpdateRemoteAxes(s, WireReport(id, rd, fmt), now, parse, fmt);
            && r.state.remote == s.remote[id := Ingest(s.remote[id], rd.position, rd.velocity, rd.acceleration, now)]
            && r.sent == [EncodeFeedback(id, s.remote[id].setpoints, fmt)]
  {
    var reports := Reports(WireReport(id, rd, fmt));
    SingleRoundTrip(id, rd, parse, fmt);
    assert reports == [reports[0]];
    ApplyOne(s.remote, reports[0], now, parse, fmt);
    assert Valid(s.remote[id]);
  }

  /** A registered axis named by report `i` of a batch of well-formed
      reports with distinct identifiers ends as that report's values
      ingested into its record. */
  lemma BatchNamed(s: InputState, ids: seq<string>, rds: seq<Reading>, pre: seq<string>, post: seq<string>,
                   now: real, parse: string -> Option<real>, fmt: real -> string, i: nat)
    requires Invariant(s) && |ids| == |rds| == |pre| == |post| >= 1
    requires forall j :: 0 <= j < |ids| ==>
               Token(ids[j]) && Legible(rds[j], parse, fmt) && Blank(pre[j]) && Blank(post[j])
    requires forall j, k :: 0 <= j < k < |ids| ==> ids[j] != ids[k]
    requires i < |ids| && ids[i] in s.remote
    ensures UpdateRemoteAxes(s, Batch(ids, rds, pre, post, fmt), now, parse, fmt).state.remote[ids[i]]
            == Ingest(s.remote[ids[i]], rds[i].position, rds[i].velocity, rds[i].acceleration, now)
  {
    var reports := Reports(Batch(ids, rds, pre, post, fmt));
    BatchRoundTrip(ids, rds, pre, post, parse, fmt);
    forall j | 0 <= j < |reports| && j != i
      ensures reports[j][0] != reports[i][0]
    {
      if j < i { assert ids[j] != ids[i]; } else { assert ids[i] != ids[j]; }
    }
    NamedOnceIngested(s.remote, reports, now, parse, fmt, i);
  }

  /** A registered axis that no report of a batch of well-formed reports
      names keeps its record. */
  lemma BatchUnnamed(s: InputState, ids: seq<string>, rds: seq<Reading>, pre: seq<string>, post: seq<string>,
                     now: real, parse: string -> Option<real>, fmt: real -> string, k: string)
    requires Invariant(s) && |ids| == |rds| == |pre| == |post| >= 1
    requires forall j :: 0 <= j < |ids| ==>
               Token(ids[j]) && Legible(rds[j], parse, fmt) && Blank(pre[j]) && Blank(post[j])
    requires k in s.remote && k !in ids
    ensures UpdateRemoteAxes(s, Batch(ids, rds, pre, post, fmt), now, parse, fmt).state.remote[k] == s.remote[k]
  {
    var reports := Reports(Batch(ids, rds, pre, post, fmt));
    BatchRoundTrip(ids, rds, pre, post, parse, fmt);
    forall j | 0 <= j < |reports|
      ensures reports[j][0] != k
    {
      assert reports[j][0] == ids[j];
    }
    UnmentionedUnchanged(s.remote, reports, now, parse, fmt, k);
  }

  /** A received batch of well-formed reports with distinct identifiers,
      each padded with any white space, refreshes every remote axis it names
      from that axis's own report, and leaves every other remote axis alone;
      reports naming unregistered identifiers are ignored. */
  lemma BatchIngested(s: InputState, ids: seq<string>, rds: seq<Reading>, pre: seq<string>, post: seq<string>,
                      now: real, parse: string -> Option<real>, fmt: real -> string)
    requires Invariant(s) && |ids| == |rds| == |pre| == |post| >= 1
    requires forall i :: 0 <= i < |ids| ==>
               Token(ids[i]) && Legible(rds[i], parse, fmt) && Blank(pre[i]) && Blank(post[i])
    requires forall i, j :: 0 <= i < j < |ids| ==> ids[i] != ids[j]
    ensures var r := UpdateRemoteAxes(s, Batch(ids, rds, pre, post, fmt), now, parse, fmt);
            && (forall i :: 0 <= i < |ids| && ids[i] in s.remote ==>
                  r.state.remote[ids[i]]
                  == Ingest(s.remote[ids[i]], rds[i].position, rds[i].velocity, rds[i].acceleration, now))
            && (forall k :: k in s.remote && k !in ids ==> r.state.remote[k] == s.remote[k])
  {
    forall i | 0 <= i < |ids| && ids[i] in s.remote
      ensures UpdateRemoteAxes(s, Batch(ids, rds, pre, post, fmt), now, parse, fmt).state.remote[ids[i]]
              == Ingest(s.remote[ids[i]], rds[i].position, rds[i].velocity, rds[i].acceleration, now)
    {
      BatchNamed(s, ids, rds, pre, post, now, parse, fmt, i);
    }
    forall k | k in s.remote && k !in ids
      ensures UpdateRemoteAxes(s, Batch(ids, rds, pre, post, fmt), now, parse, fmt).state.remote[k] == s.remote[k]
    {
      BatchUnnamed(s, ids, rds, pre, post, now, parse, fmt, k);
    }
  }

}
