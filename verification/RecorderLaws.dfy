/** What a recording promises to whoever plays it back. */
module RecorderLaws {
  import opened Wrappers
  import opened GoArith
  import opened Recorder
  import opened RecorderRuns

  // ----- whole runs

  datatype Op = Op(track: nat, sample: Sample)

  datatype TrackConf = TrackConf(clockRate: int, isVideo: bool)

  predicate OpsFit(ops: seq<Op>, n: nat) {
    forall j | 0 <= j < |ops| :: ops[j].track < n
  }

  predicate ClocksRun(ts: seq<TrackConf>) {
    forall i | 0 <= i < |ts| :: ts[i].clockRate > 0
  }

  function Initial(ts: seq<TrackConf>): (r: Rec)
    ensures |r.tracks| == |ts|
    ensures ClocksRun(ts) ==> RatesOk(r)
  {
    Rec(seq(|ts|, i requires 0 <= i < |ts| => Track(ts[i].clockRate, ts[i].isVideo, None, None)), false, None, 0, [])
  }

  function Run(c: Conf, r: Rec, ops: seq<Op>): (res: Result<Rec>)
    requires RatesOk(r) && OpsFit(ops, |r.tracks|)
    ensures res.Ok? ==> RatesOk(res.value) && |res.value.tracks| == |r.tracks|
  {
    if ops == [] then Ok(r)
    else
      var op := ops[|ops| - 1];
      match Run(c, r, ops[..|ops| - 1])
      case Err(e) => Err(e)
      case Ok(r1) => Write(c, r1, op.track, op.sample)
  }

  function Histories(c: Conf, r: Rec, ops: seq<Op>): (hs: seq<History>)
    requires RatesOk(r) && OpsFit(ops, |r.tracks|) && Run(c, r, ops).Ok?
    ensures |hs| == |r.tracks|
  {
    if ops == [] then seq(|r.tracks|, i => History([], []))
    else
      var p, op := ops[..|ops| - 1], ops[|ops| - 1];
      var hs := Histories(c, r, p);
      hs[op.track := Noted(hs[op.track], Run(c, r, p).value, op.track, op.sample)]
  }

  function Received(ops: seq<Op>, i: nat): seq<Sample> {
    if ops == [] then []
    else Received(ops[..|ops| - 1], i) + if ops[|ops| - 1].track == i then [ops[|ops| - 1].sample] else []
  }

  /** In every run without errors, every sample a track received is pending, was discarded as late, or
      is in exactly the segment it was written to, once and in order of arrival. */
  lemma {:induction false} EverySampleIsAccountedFor(c: Conf, ts: seq<TrackConf>, ops: seq<Op>)
    requires ClocksRun(ts) && OpsFit(ops, |ts|) && Run(c, Initial(ts), ops).Ok?
    ensures var r, hs := Run(c, Initial(ts), ops).value, Histories(c, Initial(ts), ops);
            && TracksOk(r, hs) && SegmentsOk(r)
            && forall i | 0 <= i < |ts| :: hs[i].recv == Received(ops, i)
  {
    hide TracksOk, SegmentsOk, Write;
    var r0 := Initial(ts);
    if ops == [] {
      InitialIsOk(c, ts);
    } else {
      var p, op := ops[..|ops| - 1], ops[|ops| - 1];
      EverySampleIsAccountedFor(c, ts, p);
      var r, hs := Run(c, r0, p).value, Histories(c, r0, p);
      WriteKeepsTracks(c, r, hs, op.track, op.sample);
      WriteKeepsSegments(c, r, op.track, op.sample);
    }
  }

  lemma InitialIsOk(c: Conf, ts: seq<TrackConf>)
    requires ClocksRun(ts)
    ensures TracksOk(Initial(ts), Histories(c, Initial(ts), [])) && SegmentsOk(Initial(ts))
    ensures forall i | 0 <= i < |ts| :: Histories(c, Initial(ts), [])[i].recv == Received([], i)
  {
  }

  // ----- segments and parts

  function AllParts(g: Segment): seq<Part> {
    g.parts + if g.cur.Some? then [g.cur.value] else []
  }

  /** A part records for each of its tracks where it starts, relative to the segment. */
  ghost predicate BasesOk(p: Part, start: int, rates: seq<int>) {
    forall i | i in p.tracks :: TrackBaseOk(p.tracks[i], start, if i < |rates| then rates[i] else 0)
  }

  predicate TrackBaseOk(pt: PartTrack, start: int, rate: int) {
    && rate > 0 && pt.samples != []
    && var d := TimestampToDuration(pt.samples[0].dts, rate);
       d >= start && pt.base == BaseTime(d, start, rate)
  }

  ghost predicate PartsOk(g: Segment, rates: seq<int>) {
    var ps := AllParts(g);
    && (forall q | 0 <= q < |ps| ::
          ps[q].number == Uint32(q) && ps[q].tracks != map[] && BasesOk(ps[q], g.startDTS, rates))
    && g.nextPartNumber == Uint32(|ps|)
  }

  function Rates(r: Rec): (rates: seq<int>)
    ensures |rates| == |r.tracks|
    ensures forall i | 0 <= i < |rates| :: rates[i] == r.tracks[i].clockRate
  {
    seq(|r.tracks|, i requires 0 <= i < |r.tracks| => r.tracks[i].clockRate)
  }

  ghost predicate SegmentsOk(r: Rec) {
    var segs := Segs(r);
    && r.nextNumber == |segs|
    && (r.segment.None? ==> r.files == [])
    && (forall n | 0 <= n < |segs| :: segs[n].number == n && PartsOk(segs[n], Rates(r)))
    && (forall n | 0 <= n < |r.files| :: r.files[n].parts != [] && r.files[n].cur.None?)
  }

  lemma ClosingKeepsParts(g: Segment, rates: seq<int>)
    requires PartsOk(g, rates)
    ensures PartsOk(CloseSegment(g), rates)
  {
    assert AllParts(CloseSegment(g)) == AllParts(g);
  }

  lemma NewSegmentHasParts(n: nat, dts: int, ntp: int, rates: seq<int>)
    ensures PartsOk(NewSegment(n, dts, ntp), rates)
  {
  }

  lemma WrittenPartOk(c: Conf, p: Part, start: int, i: nat, rates: seq<int>, x: Stored)
    requires BasesOk(p, start, rates) && i < |rates| && rates[i] > 0
    requires TimestampToDuration(x.dts, rates[i]) >= start
    requires WriteToPart(c, p, start, i, rates[i], x, TimestampToDuration(x.dts, rates[i])).Ok?
    ensures var p' := WriteToPart(c, p, start, i, rates[i], x, TimestampToDuration(x.dts, rates[i])).value;
            BasesOk(p', start, rates) && p'.tracks != map[] && p'.number == p.number
  {
    hide TimestampToDuration, BaseTime, Max, EndOf;
    var p' := WriteToPart(c, p, start, i, rates[i], x, TimestampToDuration(x.dts, rates[i])).value;
    assert i in p'.tracks;
    forall j | j in p'.tracks ensures TrackBaseOk(p'.tracks[j], start, if j < |rates| then rates[j] else 0) {
      if j != i {
        assert p'.tracks[j] == p.tracks[j];
      } else if i in p.tracks {
        assert TrackBaseOk(p.tracks[i], start, rates[i]);
      }
    }
  }

  /** All parts but the one being filled are as before. */
  lemma WithPartOk(c: Conf, g: Segment, dts: int, rates: seq<int>)
    requires PartsOk(g, rates)
    ensures var g' := WithPart(c, g, dts);
            var ps := AllParts(g');
            && (forall q | 0 <= q < |ps| - 1 :: ps[q].tracks != map[])
            && (forall q | 0 <= q < |ps| :: ps[q].number == Uint32(q) && BasesOk(ps[q], g.startDTS, rates))
            && g'.nextPartNumber == Uint32(|ps|)
  {
    hide Uint32;
    var g', ps := WithPart(c, g, dts), AllParts(g);
    if g.cur.None? || g.cur.value.endDTS - g.cur.value.startDTS >= c.partDuration {
      assert AllParts(g') == ps + [NewPart(g.nextPartNumber, dts)];
      Uint32Next(|ps|);
    } else {
      assert AllParts(g') == ps;
    }
  }

  lemma WrittenSegmentOk(c: Conf, g: Segment, i: nat, rates: seq<int>, x: Stored)
    requires PartsOk(g, rates) && i < |rates| && rates[i] > 0
    requires TimestampToDuration(x.dts, rates[i]) >= g.startDTS
    requires WriteToSegment(c, g, i, rates[i], x, TimestampToDuration(x.dts, rates[i])).Ok?
    ensures var g' := WriteToSegment(c, g, i, rates[i], x, TimestampToDuration(x.dts, rates[i])).value;
            PartsOk(g', rates) && g'.cur.Some?
  {
    hide TimestampToDuration, Max, EndOf, BasesOk, WithPart, Uint32, WriteToPart;
    var dts := TimestampToDuration(x.dts, rates[i]);
    var g1 := g.(endDTS := Max(g.endDTS, EndOf(x, dts, rates[i])));
    assert AllParts(g1) == AllParts(g);
    var g2 := WithPart(c, g1, dts);
    WithPartOk(c, g1, dts, rates);
    var p := g2.cur.value;
    assert AllParts(g2)[|g2.parts|] == p;
    WrittenPartOk(c, p, g.startDTS, i, rates, x);
    var p' := WriteToPart(c, p, g2.startDTS, i, rates[i], x, dts).value;
    assert AllParts(g2.(cur := Some(p'))) == AllParts(g2)[|g2.parts| := p'];
  }

  lemma StoringKeepsSegments(c: Conf, r: Rec, i: nat, s: Sample)
    requires SegmentsOk(r) && RatesOk(r) && i < |r.tracks| && r.tracks[i].next.Some?
    requires !IsLate(r, PendingDTS(r.tracks[i])) && Stores(c, Took(r, i, s), i, r.tracks[i].next.value).Ok?
    ensures var r' := Stores(c, Took(r, i, s), i, r.tracks[i].next.value).value;
            SegmentsOk(r') && r'.segment.Some? && r'.segment.value.cur.Some?
  {
    hide PartsOk, WriteToSegment, TimestampToDuration, Settle;
    var t, x, r1 := r.tracks[i], r.tracks[i].next.value, Took(r, i, s);
    var r' := Stores(c, r1, i, x).value;
    assert Rates(r') == Rates(r);
    var dts := TimestampToDuration(x.dts, t.clockRate);
    var g := CurrentSegment(r1, dts, x.ntp);
    if r.segment.None? {
      NewSegmentHasParts(r.nextNumber, dts, x.ntp, Rates(r));
    } else {
      assert Segs(r)[|r.files|] == g;
    }
    var y := Settle(x, r1.tracks[i].next.value);
    SettleKeepsDts(x, r1.tracks[i].next.value);
    WrittenSegmentOk(c, g, i, Rates(r), y);
    assert Segs(r') == r.files + [r'.segment.value];
    forall n | 0 <= n < |r.files| ensures Segs(r')[n] == Segs(r)[n] {
    }
  }

  lemma SettleKeepsDts(x: Sample, y: Sample)
    ensures Settle(x, y).dts == x.dts
  {
  }

  lemma RotateKeepsSegments(r: Rec)
    requires SegmentsOk(r) && RatesOk(r) && r.segment.Some? && r.segment.value.cur.Some?
    ensures SegmentsOk(Rotate(r))
  {
    hide PartsOk, NextStart;
    var r' := Rotate(r);
    assert Rates(r') == Rates(r);
    assert Segs(r)[|r.files|] == r.segment.value;
    ClosingKeepsParts(r.segment.value, Rates(r));
    var o := NextStart(r.tracks);
    NewSegmentHasParts(r.nextNumber, o.dts, o.ntp, Rates(r));
    assert Segs(r') == r.files + [CloseSegment(r.segment.value)] + [r'.segment.value];
    forall n | 0 <= n < |r.files| ensures Segs(r')[n] == Segs(r)[n] {
    }
  }

  lemma WriteKeepsSegments(c: Conf, r: Rec, i: nat, s: Sample)
    requires SegmentsOk(r) && RatesOk(r) && i < |r.tracks| && Write(c, r, i, s).Ok?
    ensures SegmentsOk(Write(c, r, i, s).value)
  {
    hide PartsOk, Stores, Rotate, Drifted, MustRotate;
    var r1 := Took(r, i, s);
    if r.tracks[i].next.None? || IsLate(r, PendingDTS(r.tracks[i])) {
      assert Rates(r1) == Rates(r) && Segs(r1) == Segs(r);
    } else {
      StoringKeepsSegments(c, r, i, s);
      var r2 := Stores(c, r1, i, r.tracks[i].next.value).value;
      RotateKeepsSegments(r2);
    }
  }
}
