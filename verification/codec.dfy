/** The text protocol exchanged with the remote axis controller: a received
    batch of `:`-separated reports `<id> <position> <velocity> <acceleration>`,
    and the feedback string `<id> <setpoint> ... <setpoint>` sent back per axis.
    `float.Parse` and the float-to-text conversion of `StringBuilder.Append`
    are not modelled; they are passed in as `parse` and `fmt`. */
module Codec {
  import opened Wrappers
  import opened Text

  const ReportSeparator: char := ':'
  const FieldSeparator: char := ' '

  /** The three values a report carries. */
  datatype Reading = Reading(position: real, velocity: real, acceleration: real)

  /** The fields of every report in a received batch: the batch is split on
      `:`, and each report is trimmed and split on single spaces. Every report
      has at least one field, the axis identifier, and no field contains
      either separator. */
  function Reports(batch: string): (r: seq<seq<string>>)
    ensures |r| == Occurrences(batch, ReportSeparator) + 1
    ensures forall i :: 0 <= i < |r| ==> |r[i]| >= 1
    ensures forall i, j :: 0 <= i < |r| && 0 <= j < |r[i]| ==>
              FieldSeparator !in r[i][j] && ReportSeparator !in r[i][j]
  {
    var parts := Split(batch, ReportSeparator);
    var r := seq(|parts|, i requires 0 <= i < |parts| => Split(Trim(parts[i]), FieldSeparator));
    assert forall i :: 0 <= i < |parts| ==> ReportSeparator !in Trim(parts[i]);
    forall i | 0 <= i < |parts| { SplitAbsent(Trim(parts[i]), FieldSeparator, ReportSeparator); }
    r
  }

  /** Fields 1 to 3 of a report parsed as floats. There is no reading when a
      field is missing or does not parse: the parses all happen before any
      state is touched, so one failure discards the whole report. */
  function DecodeReading(fields: seq<string>, parse: string -> Option<real>): (r: Option<Reading>)
    ensures r.Some? <==> && |fields| >= 4
                         && parse(fields[1]).Some? && parse(fields[2]).Some? && parse(fields[3]).Some?
  {
    if |fields| < 4 then None
    else match (parse(fields[1]), parse(fields[2]), parse(fields[3]))
      case (Some(p), Some(v), Some(a)) => Some(Reading(p, v, a))
      case _ => None
  }

  /** The feedback string for one axis, built as the `StringBuilder` builds it:
      the identifier, then a space and the text of each setpoint in order. */
  function EncodeFeedback(id: string, setpoints: seq<real>, fmt: real -> string): (r: string)
    ensures |r| >= |id| && r[..|id|] == id
  {
    if |setpoints| == 0 then id
    else EncodeFeedback(id, setpoints[..|setpoints| - 1], fmt) + [FieldSeparator] + fmt(setpoints[|setpoints| - 1])
  }

  /** The text of each setpoint, in order. */
  function Formatted(setpoints: seq<real>, fmt: real -> string): (r: seq<string>)
    ensures |r| == |setpoints|
  {
    seq(|setpoints|, i requires 0 <= i < |setpoints| => fmt(setpoints[i]))
  }

  /** Joining one more piece appends a separator and the piece. */
  lemma {:induction false} JoinSnoc(xs: seq<string>, y: string, sep: char)
    requires |xs| >= 1
    ensures Join(xs + [y], sep) == Join(xs, sep) + [sep] + y
    decreases |xs|
  {
    if |xs| == 1 {
      assert (xs + [y])[1..] == [y];
    } else {
      assert (xs + [y])[1..] == xs[1..] + [y];
      JoinSnoc(xs[1..], y, sep);
    }
  }

  /** The feedback string is the identifier and the setpoint texts joined
      with single spaces. */
  lemma {:induction false} FeedbackIsJoin(id: string, setpoints: seq<real>, fmt: real -> string)
    ensures EncodeFeedback(id, setpoints, fmt) == Join([id] + Formatted(setpoints, fmt), FieldSeparator)
    decreases |setpoints|
  {
    if |setpoints| > 0 {
      var init := setpoints[..|setpoints| - 1];
      FeedbackIsJoin(id, init, fmt);
      assert [id] + Formatted(setpoints, fmt)
          == ([id] + Formatted(init, fmt)) + [fmt(setpoints[|setpoints| - 1])];
      JoinSnoc([id] + Formatted(init, fmt), fmt(setpoints[|setpoints| - 1]), FieldSeparator);
    }
  }

  /** A peer that splits the feedback string on spaces recovers the
      identifier and the text of every setpoint, in order, provided neither
      the identifier nor the text of any of these setpoints contains a space. */
  lemma {:induction false} FeedbackFields(id: string, setpoints: seq<real>, fmt: real -> string)
    requires FieldSeparator !in id
    requires forall i :: 0 <= i < |setpoints| ==> FieldSeparator !in fmt(setpoints[i])
    ensures Split(EncodeFeedback(id, setpoints, fmt), FieldSeparator) == [id] + Formatted(setpoints, fmt)
  {
    var pieces := [id] + Formatted(setpoints, fmt);
    forall i | 0 <= i < |pieces|
      ensures FieldSeparator !in pieces[i]
    {
      if i > 0 {
        assert pieces[i] == fmt(setpoints[i - 1]);
      }
    }
    FeedbackIsJoin(id, setpoints, fmt);
    SplitJoin(pieces, FieldSeparator);
  }

  /** A token that survives the wire grammar intact: non-empty, with no white
      space (so no field separator) and no report separator. */
  predicate Token(s: string)
  {
    |s| > 0 && forall k :: 0 <= k < |s| ==> !IsWhiteSpace(s[k]) && s[k] != ReportSeparator
  }

  lemma TokenHasNoSpace(s: string)
    requires Token(s)
    ensures FieldSeparator !in s && ReportSeparator !in s
  {
    forall k | 0 <= k < |s|
      ensures s[k] != FieldSeparator
    {
      assert !IsWhiteSpace(s[k]);
    }
  }

  /** The text written for each value of `rd` is a token and parses back to
      that value. */
  predicate Legible(rd: Reading, parse: string -> Option<real>, fmt: real -> string)
  {
    && Token(fmt(rd.position)) && Token(fmt(rd.velocity)) && Token(fmt(rd.acceleration))
    && parse(fmt(rd.position)) == Some(rd.position)
    && parse(fmt(rd.velocity)) == Some(rd.velocity)
    && parse(fmt(rd.acceleration)) == Some(rd.acceleration)
  }

  /** One report in the wire grammar. */
  function WireReport(id: string, rd: Reading, fmt: real -> string): string
  {
    Join([id, fmt(rd.position), fmt(rd.velocity), fmt(rd.acceleration)], FieldSeparator)
  }

  /** A well-formed report has no report separator and neither starts nor
      ends with white space. */
  lemma WireReportShape(id: string, rd: Reading, fmt: real -> string)
    requires Token(id) && Token(fmt(rd.position)) && Token(fmt(rd.velocity)) && Token(fmt(rd.acceleration))
    ensures ReportSeparator !in WireReport(id, rd, fmt)
    ensures var w := WireReport(id, rd, fmt);
            |w| > 0 && !IsWhiteSpace(w[0]) && !IsWhiteSpace(w[|w| - 1])
  {
    var p, v, a := fmt(rd.position), fmt(rd.velocity), fmt(rd.acceleration);
    var w := WireReport(id, rd, fmt);
    assert [id, p, v, a][1..] == [p, v, a];
    assert [p, v, a][1..] == [v, a];
    assert [v, a][1..] == [a];
    assert Join([v, a], FieldSeparator) == v + [FieldSeparator] + a;
    assert Join([p, v, a], FieldSeparator) == p + [FieldSeparator] + (v + [FieldSeparator] + a);
    assert w == id + [FieldSeparator] + (p + [FieldSeparator] + (v + [FieldSeparator] + a));
    assert w[0] == id[0];
    assert w[|w| - 1] == a[|a| - 1];
    TokenHasNoSpace(id);
    TokenHasNoSpace(p);
    TokenHasNoSpace(v);
    TokenHasNoSpace(a);
  }

  /** A well-formed report, once trimmed and split on spaces, gives back the
      identifier and the three value texts. */
  lemma ReportFields(id: string, rd: Reading, fmt: real -> string)
    requires Token(id) && Token(fmt(rd.position)) && Token(fmt(rd.velocity)) && Token(fmt(rd.acceleration))
    ensures Split(Trim(WireReport(id, rd, fmt)), FieldSeparator)
            == [id, fmt(rd.position), fmt(rd.velocity), fmt(rd.acceleration)]
  {
    WireReportShape(id, rd, fmt);
    TrimUnchanged(WireReport(id, rd, fmt));
    var fields := [id, fmt(rd.position), fmt(rd.velocity), fmt(rd.acceleration)];
    forall j | 0 <= j < |fields|
      ensures FieldSeparator !in fields[j]
    {
      TokenHasNoSpace(fields[j]);
    }
    SplitJoin(fields, FieldSeparator);
  }

  /** The pieces of a batch as a peer may write them: report `i` carries
      `ids[i]` and `rds[i]`, with the white space `pre[i]` before it and
      `post[i]` after it (`"A 1 0 0 : B 2 0 0"` has `post[0] == " "` and
      `pre[1] == " "`). */
  function Pieces(ids: seq<string>, rds: seq<Reading>, pre: seq<string>, post: seq<string>,
                  fmt: real -> string): seq<string>
    requires |ids| == |rds| == |pre| == |post|
  {
    seq(|ids|, i requires 0 <= i < |ids| => pre[i] + WireReport(ids[i], rds[i], fmt) + post[i])
  }

  /** The batch those pieces make, joined with the report separator. */
  function Batch(ids: seq<string>, rds: seq<Reading>, pre: seq<string>, post: seq<string>,
                 fmt: real -> string): string
    requires |ids| == |rds| == |pre| == |post| >= 1
  {
    Join(Pieces(ids, rds, pre, post, fmt), ReportSeparator)
  }

  /** A receipt holding one well-formed report decodes to that report alone. */
  lemma SingleRoundTrip(id: string, rd: Reading, parse: string -> Option<real>, fmt: real -> string)
    requires Token(id) && Legible(rd, parse, fmt)
    ensures var reports := Reports(WireReport(id, rd, fmt));
            && |reports| == 1 && |reports[0]| >= 1 && reports[0][0] == id
            && DecodeReading(reports[0], parse) == Some(rd)
  {
    var w := WireReport(id, rd, fmt);
    WireReportShape(id, rd, fmt);
    SplitJoin([w], ReportSeparator);
    assert "" + w + "" == w;
    ReportAt(w, 0, "", id, rd, "", parse, fmt);
  }

  /** Decoding a batch of well-formed reports, each padded with any white
      space, recovers report by report the identifier and the three values,
      provided the float text conversion reads back what it wrote for those
      values. */
  lemma BatchRoundTrip(ids: seq<string>, rds: seq<Reading>, pre: seq<string>, post: seq<string>,
                       parse: string -> Option<real>, fmt: real -> string)
    requires |ids| == |rds| == |pre| == |post| >= 1
    requires forall i :: 0 <= i < |ids| ==>
               Token(ids[i]) && Legible(rds[i], parse, fmt) && Blank(pre[i]) && Blank(post[i])
    ensures var reports := Reports(Batch(ids, rds, pre, post, fmt));
            && |reports| == |ids|
            && forall i :: 0 <= i < |ids| ==>
                 reports[i][0] == ids[i] && DecodeReading(reports[i], parse) == Some(rds[i])
  {
    var pieces := Pieces(ids, rds, pre, post, fmt);
    forall i | 0 <= i < |ids|
      ensures ReportSeparator !in pieces[i]
    {
      WireReportShape(ids[i], rds[i], fmt);
    }
    SplitJoin(pieces, ReportSeparator);
    var batch := Batch(ids, rds, pre, post, fmt);
    forall i | 0 <= i < |ids|
      ensures Reports(batch)[i][0] == ids[i] && DecodeReading(Reports(batch)[i], parse) == Some(rds[i])
    {
      ReportAt(batch, i, pre[i], ids[i], rds[i], post[i], parse, fmt);
    }
  }

  /** The report at position `i` of a batch whose `i`-th piece is a
      well-formed report with white space around it decodes to that report's
      identifier and values: the decoder trims the padding away. */
  lemma ReportAt(batch: string, i: nat, pre: string, id: string, rd: Reading, post: string,
                 parse: string -> Option<real>, fmt: real -> string)
    requires Token(id) && Legible(rd, parse, fmt) && Blank(pre) && Blank(post)
    requires i < |Split(batch, ReportSeparator)|
    requires Split(batch, ReportSeparator)[i] == pre + WireReport(id, rd, fmt) + post
    ensures i < |Reports(batch)|
    ensures Reports(batch)[i][0] == id && DecodeReading(Reports(batch)[i], parse) == Some(rd)
  {
    var w := WireReport(id, rd, fmt);
    WireReportShape(id, rd, fmt);
    TrimPadded(pre, w, post);
    TrimUnchanged(w);
    ReportFields(id, rd, fmt);
    assert Reports(batch)[i] == [id, fmt(rd.position), fmt(rd.velocity), fmt(rd.acceleration)];
  }

}
