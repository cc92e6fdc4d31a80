/**
 * Inbound messages of the live stream and the session fields they update
 * (LiveMode.jsx, the `onmessage` handler).  A message is classified by the
 * type of its payload: a text `ping`, other text (JSON telemetry), or binary
 * (an encoded frame).  JSON.parse is a foreign call: a text payload carries
 * the outcome of parsing it, either the telemetry record or `Fail`.
 */
module Protocol {
  import opened Wrappers

  /** The keepalive token the server sends as a text frame. */
  const Keepalive: string := "ping"

  /** A parsed telemetry object: every field may be absent. */
  datatype TelemetryRecord = TelemetryRecord(
    hazardType: Option<string>,
    laneCount: Option<int>,          // driver_lane_hazard_count
    distances: Option<seq<real>>,    // hazard_distances (absent or null: None)
    mode: Option<string>,
    videoProgress: Option<real>)

  datatype ParseOutcome = Parsed(rec: TelemetryRecord) | Fail

  /** `e.data` of a message event: a string, an ArrayBuffer/Blob, or anything else. */
  datatype Payload = Text(text: string, parse: ParseOutcome) | Binary | Other

  datatype MessageKind = KeepaliveMsg | TelemetryMsg(rec: TelemetryRecord) | Malformed | FrameMsg | Ignored

  function Classify(p: Payload): (k: MessageKind)
    ensures k.KeepaliveMsg? <==> p.Text? && p.text == Keepalive
    ensures k.TelemetryMsg? <==> p.Text? && p.text != Keepalive && p.parse.Parsed?
    ensures k.TelemetryMsg? ==> k.rec == p.parse.rec
    ensures k.Malformed? <==> p.Text? && p.text != Keepalive && p.parse.Fail?
    ensures k.FrameMsg? <==> p.Binary?
  {
    match p
    case Text(s, outcome) =>
      if s == Keepalive then KeepaliveMsg
      else if outcome.Fail? then Malformed
      else TelemetryMsg(outcome.rec)
    case Binary => FrameMsg
    case Other => Ignored
  }

  /** The `hazardDetected` state: `false` at mount, afterwards the object `{type: hazard_type}`. */
  datatype HazardFlag = NoHazard | Hazard(hazardType: Option<string>)

  /** The session fields written by telemetry. `laneCount` is None when the
      last record had no count (the state then holds `undefined`). */
  datatype Session = Session(
    hazard: HazardFlag,
    laneCount: Option<int>,
    distances: seq<real>,
    mode: string,
    videoProgress: real)

  const InitialSession: Session := Session(NoHazard, Some(0), [], "live", 0.0)

  /** `if (parsedData.mode)`: a string is truthy when it is not empty. */
  predicate Truthy(s: Option<string>)
  {
    s.Some? && s.value != ""
  }

  /** The session after one telemetry record. */
  function ApplyTelemetry(s: Session, rec: TelemetryRecord): (r: Session)
    // hazard type, lane count and distances always come from this record, together
    ensures r.hazard == Hazard(rec.hazardType) && r.hazard != NoHazard
    ensures r.laneCount == rec.laneCount
    ensures rec.distances.Some? ==> r.distances == rec.distances.value
    ensures rec.distances.None? ==> r.distances == []
    // mode only when present and truthy, progress only when defined
    ensures r.mode == (if Truthy(rec.mode) then rec.mode.value else s.mode)
    ensures rec.videoProgress.None? ==> r.videoProgress == s.videoProgress
    ensures rec.videoProgress.Some? ==> r.videoProgress == rec.videoProgress.value
  {
    Session(
      Hazard(rec.hazardType),
      rec.laneCount,
      if rec.distances.Some? then rec.distances.value else [],
      if Truthy(rec.mode) then rec.mode.value else s.mode,
      if rec.videoProgress.Some? then rec.videoProgress.value else s.videoProgress)
  }

  /** The session after one message; keepalives, parse failures, frames and
      unknown payloads leave it as it was. */
  function OnMessage(s: Session, p: Payload): (r: Session)
    ensures p.Text? && p.text == Keepalive ==> r == s
    ensures p.Text? && p.parse.Fail? ==> r == s
    ensures !p.Text? ==> r == s
    ensures p.Text? && p.text != Keepalive && p.parse.Parsed? ==> r == ApplyTelemetry(s, p.parse.rec)
  {
    match Classify(p)
    case TelemetryMsg(rec) => ApplyTelemetry(s, rec)
    case _ => s
  }

  /** Applying the same record twice is the same as applying it once. */
  lemma ApplyIdempotent(s: Session, rec: TelemetryRecord)
    ensures ApplyTelemetry(ApplyTelemetry(s, rec), rec) == ApplyTelemetry(s, rec)
  {
  }

  /** The lane count and the distances a reader sees always come from the same,
      latest, record: the earlier record leaves no trace in them. */
  lemma {:induction false} LatestRecordWins(s: Session, recs: seq<TelemetryRecord>)
    requires recs != []
    ensures var r := ApplyAll(s, recs); var last := recs[|recs| - 1];
      r.laneCount == last.laneCount &&
      r.distances == (if last.distances.Some? then last.distances.value else []) &&
      r.hazard == Hazard(last.hazardType)
  {
    if |recs| > 1 {
      LatestRecordWins(s, recs[..|recs| - 1]);
    }
  }

  function ApplyAll(s: Session, recs: seq<TelemetryRecord>): Session
  {
    if recs == [] then s else ApplyTelemetry(ApplyAll(s, recs[..|recs| - 1]), recs[|recs| - 1])
  }

  /** The mode changes only through records that carry a non-empty mode: a run of
      records without one leaves it as it was. */
  lemma {:induction false} ModeStableWithoutModeField(s: Session, recs: seq<TelemetryRecord>)
    requires forall i :: 0 <= i < |recs| ==> !Truthy(recs[i].mode)
    ensures ApplyAll(s, recs).mode == s.mode
  {
    if recs != [] {
      ModeStableWithoutModeField(s, recs[..|recs| - 1]);
    }
  }

  /** Scenario: {"driver_lane_hazard_count":2,"hazard_distances":[5.1,12.3]}. */
  lemma TwoHazardsScenario(s: Session)
    ensures var rec := TelemetryRecord(None, Some(2), Some([5.1, 12.3]), None, None);
      var r := OnMessage(s, Text("{...}", Parsed(rec)));
      r.laneCount == Some(2) && r.distances == [5.1, 12.3] && r.mode == s.mode
  {
  }
}
