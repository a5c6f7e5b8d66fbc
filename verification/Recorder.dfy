/** The fMP4 recorder (internal/recorder/format_fmp4_track.go, _segment.go, _part.go): samples are
    delayed by one to learn their durations, clamped so that time never runs backwards, discarded if
    they precede the segment, grouped into parts, and segments are rotated at sync samples.

    Decode times are in ticks of the track's clock, durations and positions in nanoseconds. A sample's
    payload is its identity and size. Writing files succeeds; a file is the sequence of its parts. */
module Recorder {
  import opened Wrappers
  import opened GoArith

  datatype Error = DriftDetected | MaximumPartSize

  datatype Result<+T> = Ok(value: T) | Err(error: Error)

  const NTP_DRIFT_TOLERANCE: int := 5 * SECOND
  const MAX_BASETIME: int := SECOND

  datatype Conf = Conf(partDuration: int, segmentDuration: int, maxPartSize: nat)

  /** A sample as received. */
  datatype Sample = Sample(id: nat, dts: int, ntp: int, nonSync: bool, size: nat)

  /** A sample as stored. The decode time is kept beside it for reasoning; a file holds only the
      duration. */
  datatype Stored = Stored(id: nat, dts: int, duration: int, nonSync: bool, size: nat)

  datatype PartTrack = PartTrack(base: int, samples: seq<Stored>)

  datatype Part = Part(number: int, startDTS: int, endDTS: int, size: nat, tracks: map<nat, PartTrack>)

  /** `parts` were written to the file, `cur` is still in memory. */
  datatype Segment = Segment(number: nat, startDTS: int, startNTP: int, endDTS: int, nextPartNumber: int,
                             parts: seq<Part>, cur: Option<Part>)

  datatype Origin = Origin(dts: int, ntp: int)

  datatype Track = Track(clockRate: int, isVideo: bool, next: Option<Sample>, start: Option<Origin>)

  datatype Rec = Rec(tracks: seq<Track>, hasVideo: bool, segment: Option<Segment>, nextNumber: nat,
                     files: seq<Segment>)

  predicate RatesOk(r: Rec) {
    forall i | 0 <= i < |r.tracks| :: r.tracks[i].clockRate > 0
  }

  // ----- parts

  function NewPart(number: int, dts: int): Part {
    Part(number, dts, 0, 0, map[])
  }

  function BaseTime(dts: int, segmentStart: int, rate: int): int {
    MultiplyAndDivide(dts - segmentStart, rate, SECOND)
  }

  function EndOf(x: Stored, dts: int, rate: int): int
    requires rate > 0
  {
    dts + TimestampToDuration(x.duration, rate)
  }

  function WriteToPart(c: Conf, p: Part, segmentStart: int, i: nat, rate: int, x: Stored, dts: int): Result<Part>
    requires rate > 0
  {
    if p.size + x.size > c.maxPartSize then Err(MaximumPartSize)
    else
      var pt := if i in p.tracks then p.tracks[i] else PartTrack(BaseTime(dts, segmentStart, rate), []);
      Ok(p.(size := p.size + x.size,
            tracks := p.tracks[i := pt.(samples := pt.samples + [x])],
            endDTS := Max(p.endDTS, EndOf(x, dts, rate))))
  }

  // ----- segments

  function NewSegment(number: nat, dts: int, ntp: int): Segment {
    Segment(number, dts, ntp, dts, 0, [], None)
  }

  function StartPart(g: Segment, dts: int): Segment {
    g.(cur := Some(NewPart(g.nextPartNumber, dts)), nextPartNumber := Uint32(g.nextPartNumber + 1))
  }

  function CloseCurPart(g: Segment): Segment
    requires g.cur.Some?
  {
    g.(parts := g.parts + [g.cur.value], cur := None)
  }

  function WithPart(c: Conf, g: Segment, dts: int): (g': Segment)
    ensures g'.cur.Some? && g'.startDTS == g.startDTS && g'.number == g.number
  {
    if g.cur.None? then StartPart(g, dts)
    else if g.cur.value.endDTS - g.cur.value.startDTS >= c.partDuration then StartPart(CloseCurPart(g), dts)
    else g
  }

  /** The segment as far as it gets before its part takes the sample. */
  function Reached(c: Conf, g: Segment, rate: int, x: Stored, dts: int): (g': Segment)
    requires rate > 0
    ensures g'.cur.Some? && g'.startDTS == g.startDTS && g'.number == g.number
  {
    WithPart(c, g.(endDTS := Max(g.endDTS, EndOf(x, dts, rate))), dts)
  }

  function WriteToSegment(c: Conf, g: Segment, i: nat, rate: int, x: Stored, dts: int): (r: Result<Segment>)
    requires rate > 0
    ensures r.Ok? ==> r.value.startDTS == g.startDTS && r.value.number == g.number
  {
    var g' := Reached(c, g, rate, x, dts);
    match WriteToPart(c, g'.cur.value, g'.startDTS, i, rate, x, dts)
    case Err(e) => Err(e)
    case Ok(p) => Ok(g'.(cur := Some(p)))
  }

  function CloseSegment(g: Segment): (g': Segment)
    ensures g'.startDTS == g.startDTS && g'.number == g.number && g'.cur.None?
  {
    if g.cur.Some? then CloseCurPart(g) else g
  }

  // ----- where the next segment starts

  function PendingDTS(t: Track): int
    requires t.next.Some? && t.clockRate > 0
  {
    TimestampToDuration(t.next.value.dts, t.clockRate)
  }

  /** The newest pending sample, but at least zero. */
  function NewestPending(ts: seq<Track>): int
    requires forall i | 0 <= i < |ts| :: ts[i].clockRate > 0
  {
    if ts == [] then 0
    else
      var m, t := NewestPending(ts[..|ts| - 1]), ts[|ts| - 1];
      if t.next.Some? && PendingDTS(t) > m then PendingDTS(t) else m
  }

  /** The oldest pending sample within reach of `newest`. */
  function OldestPending(ts: seq<Track>, newest: int): Origin
    requires forall i | 0 <= i < |ts| :: ts[i].clockRate > 0
  {
    if ts == [] then Origin(newest, 0)
    else
      var o, t := OldestPending(ts[..|ts| - 1], newest), ts[|ts| - 1];
      if t.next.Some? && newest - PendingDTS(t) <= MAX_BASETIME && PendingDTS(t) <= o.dts
      then Origin(PendingDTS(t), t.next.value.ntp) else o
  }

  function NextStart(ts: seq<Track>): Origin
    requires forall i | 0 <= i < |ts| :: ts[i].clockRate > 0
  {
    OldestPending(ts, NewestPending(ts))
  }

  // ----- one sample

  predicate Drifted(t: Track, x: Sample)
    requires t.clockRate > 0
  {
    t.start.Some? &&
    var drift := (x.ntp - t.start.value.ntp) - (TimestampToDuration(x.dts, t.clockRate) - t.start.value.dts);
    drift < -NTP_DRIFT_TOLERANCE || drift > NTP_DRIFT_TOLERANCE
  }

  function Clamped(x: Sample, s: Sample): Sample {
    if s.dts - x.dts < 0 then s.(dts := x.dts) else s
  }

  function Settle(x: Sample, next: Sample): Stored {
    Stored(x.id, x.dts, Uint32(next.dts - x.dts), x.nonSync, x.size)
  }

  /** The track after it took `s` and let go of its pending sample. */
  function Advanced(t: Track, s: Sample): (t': Track)
    requires t.clockRate > 0
    ensures t'.clockRate == t.clockRate && t'.isVideo == t.isVideo && t'.next.Some?
  {
    if t.next.None? then t.(next := Some(s))
    else
      var x := t.next.value;
      t.(next := Some(Clamped(x, s)),
         start := if t.start.None? then Some(Origin(TimestampToDuration(x.dts, t.clockRate), x.ntp)) else t.start)
  }

  predicate IsLate(r: Rec, dts: int) {
    r.segment.Some? && dts - r.segment.value.startDTS < 0
  }

  function CurrentSegment(r: Rec, dts: int, ntp: int): Segment {
    if r.segment.Some? then r.segment.value else NewSegment(r.nextNumber, dts, ntp)
  }

  predicate MustRotate(c: Conf, hasVideo: bool, t: Track, g: Segment)
    requires t.next.Some? && t.clockRate > 0
  {
    && (!hasVideo || t.isVideo)
    && !t.next.value.nonSync
    && PendingDTS(t) - g.startDTS >= c.segmentDuration
  }

  function Rotate(r: Rec): (r': Rec)
    requires r.segment.Some? && RatesOk(r)
    ensures r'.tracks == r.tracks
  {
    var o := NextStart(r.tracks);
    r.(files := r.files + [CloseSegment(r.segment.value)],
       segment := Some(NewSegment(r.nextNumber, o.dts, o.ntp)),
       nextNumber := r.nextNumber + 1)
  }

  /** The recorder after the track advanced, before the old sample is written. */
  function Took(r: Rec, i: nat, s: Sample): (r': Rec)
    requires i < |r.tracks| && RatesOk(r)
    ensures RatesOk(r') && |r'.tracks| == |r.tracks|
  {
    r.(hasVideo := r.hasVideo || r.tracks[i].isVideo, tracks := r.tracks[i := Advanced(r.tracks[i], s)])
  }

  function Stores(c: Conf, r: Rec, i: nat, x: Sample): (res: Result<Rec>)
    requires i < |r.tracks| && RatesOk(r) && r.tracks[i].next.Some?
    ensures res.Ok? ==> res.value.tracks == r.tracks && res.value.segment.Some?
  {
    var t := r.tracks[i];
    var dts := TimestampToDuration(x.dts, t.clockRate);
    var g := CurrentSegment(r, dts, x.ntp);
    var n := if r.segment.Some? then r.nextNumber else r.nextNumber + 1;
    match WriteToSegment(c, g, i, t.clockRate, Settle(x, t.next.value), dts)
    case Err(e) => Err(e)
    case Ok(g') => Ok(r.(segment := Some(g'), nextNumber := n))
  }

  /** `formatFMP4Track.write`. */
  function Write(c: Conf, r: Rec, i: nat, s: Sample): (res: Result<Rec>)
    requires i < |r.tracks| && RatesOk(r)
    ensures res.Ok? ==> res.value.tracks == Took(r, i, s).tracks && RatesOk(res.value)
  {
    var t, r1 := r.tracks[i], Took(r, i, s);
    if t.next.None? then Ok(r1)
    else if Drifted(t, t.next.value) then Err(DriftDetected)
    else if IsLate(r, TimestampToDuration(t.next.value.dts, t.clockRate)) then Ok(r1)
    else
      match Stores(c, r1, i, t.next.value)
      case Err(e) => Err(e)
      case Ok(r2) =>
        if MustRotate(c, r2.hasVideo, r2.tracks[i], r2.segment.value) then Ok(Rotate(r2)) else Ok(r2)
  }

  /** The recorder when a write fails: on drift the sample is lost before it meets the segment, on a part that is
      full the part it would have gone to is there. */
  function AfterError(c: Conf, r: Rec, i: nat, s: Sample): Rec
    requires i < |r.tracks| && RatesOk(r) && Write(c, r, i, s).Err?
  {
    var t, r1 := r.tracks[i], Took(r, i, s);
    var x := t.next.value;
    if Drifted(t, x) then r1 else FailedStore(c, r1, i, x)
  }

  function FailedStore(c: Conf, r: Rec, i: nat, x: Sample): Rec
    requires i < |r.tracks| && RatesOk(r) && r.tracks[i].next.Some?
  {
    var t := r.tracks[i];
    var dts := TimestampToDuration(x.dts, t.clockRate);
    var g := CurrentSegment(r, dts, x.ntp);
    r.(segment := Some(Reached(c, g, t.clockRate, Settle(x, t.next.value), dts)),
       nextNumber := if r.segment.Some? then r.nextNumber else r.nextNumber + 1)
  }

  /** `formatFMP4.close`: a segment that never closed a part has no file. */
  function Closed(r: Rec): seq<Segment> {
    if r.segment.Some? && (r.segment.value.parts != [] || r.segment.value.cur.Some?)
    then r.files + [CloseSegment(r.segment.value)] else r.files
  }
}
