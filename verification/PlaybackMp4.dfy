/** The whole-file muxer (internal/playback/muxer_mp4.go), compared with the incremental one. */
module PlaybackMp4 {
  import opened GoArith
  import opened Playback

  // ----- one track

  datatype Mp4Track = Mp4Track(timeOffset: int, lastDTS: int, samples: seq<OutSample>)

  const NEW_TRACK := Mp4Track(0, 0, [])

  /** A sync sample is presented when it is decoded. */
  function Mp4Out(x: Sample): OutSample {
    OutSample(0, if x.nonSync then x.ptsOffset else 0, x.nonSync, x.payload)
  }

  function Mp4Put(t: Mp4Track, x: Sample): Mp4Track {
    var kept := if (x.dts < 0 || t.lastDTS < 0) && !x.nonSync then [] else t.samples;
    Mp4Track(
      if kept == [] then Int32(x.dts) else t.timeOffset,
      x.dts,
      SetLastDuration(kept, Uint32(Max(x.dts - t.lastDTS, 0))) + [Mp4Out(x)])
  }

  function Mp4FinalDTS(t: Mp4Track, dts: int): Mp4Track {
    t.(samples := SetLastDuration(t.samples, Uint32(Max(dts - t.lastDTS, 0))))
  }

  // ----- what a track holds

  /** Every kept sample lasts until its successor, preroll included. */
  function Mp4KeptAt(xs: seq<Sample>, j: nat): OutSample
    requires j < |xs|
  {
    Mp4Out(xs[j]).(duration := if j + 1 >= |xs| then 0 else Uint32(Max(xs[j + 1].dts - xs[j].dts, 0)))
  }

  function Mp4KeptFrom(xs: seq<Sample>, k: nat): (r: seq<OutSample>)
    requires k <= |xs|
    ensures |r| == |xs| - k
  {
    seq(|xs| - k, i requires 0 <= i < |xs| - k => Mp4KeptAt(xs, k + i))
  }

  function Mp4Kept(xs: seq<Sample>): (r: seq<OutSample>)
    ensures |r| == |xs| - Start(xs)
  {
    Mp4KeptFrom(xs, Start(xs))
  }

  ghost predicate Mp4Ok(t: Mp4Track, xs: seq<Sample>) {
    && NonDecreasing(xs)
    && SameUpToLast(t.samples, Mp4Kept(xs))
    && (xs == [] ==> t.lastDTS == 0)
    && (xs != [] ==> t.lastDTS == xs[|xs| - 1].dts && t.timeOffset == Int32(xs[Start(xs)].dts))
  }

  lemma Mp4PutKeepsTrack(t: Mp4Track, xs: seq<Sample>, x: Sample)
    requires Mp4Ok(t, xs) && NonDecreasing(xs + [x])
    ensures Mp4Ok(Mp4Put(t, x), xs + [x])
  {
    hide NonDecreasing, HasVisible, Mp4KeptAt, SetLastDuration, Mp4KeptFrom, Uint32, Int32, Max;
    StartNext(xs, x);
    if xs != [] {
      RestartsTogether(xs, x);
    }
    if xs == [] || (!x.nonSync && !HasVisible(xs)) {
      Mp4PutFirst(t, xs, x);
    } else {
      Mp4KeptNext(xs, x, Start(xs));
      SettledLast([], t.samples, Mp4Kept(xs), Uint32(Max(x.dts - t.lastDTS, 0)));
      assert [] + t.samples == t.samples;
      assert Mp4Put(t, x).samples == Mp4Kept(xs + [x]);
    }
  }

  lemma Mp4PutFirst(t: Mp4Track, xs: seq<Sample>, x: Sample)
    requires xs == [] ==> t.samples == []
    requires xs != [] ==> (x.dts < 0 || t.lastDTS < 0) && !x.nonSync
    ensures Mp4Put(t, x).samples == Mp4KeptFrom(xs + [x], |xs|)
    ensures Mp4Put(t, x).timeOffset == Int32(x.dts)
  {
    hide Int32, Uint32, Max;
    assert Mp4KeptFrom(xs + [x], |xs|) == [Mp4Out(x)] by {
      assert Mp4KeptFrom(xs + [x], |xs|)[0] == Mp4KeptAt(xs + [x], |xs|);
    }
    assert Mp4Put(t, x).samples == [Mp4Out(x)];
  }

  /** Both muxers decide alike when to start over, though one looks at the last decode time and the
      other at whether anything was visible. */
  lemma RestartsTogether(xs: seq<Sample>, x: Sample)
    requires NonDecreasing(xs + [x]) && xs != []
    ensures x.dts < 0 || xs[|xs| - 1].dts < 0 <==> !HasVisible(xs)
  {
    PrefixNonDecreasing(xs, x);
    LastVisibleIff(xs);
    if HasVisible(xs) {
      VisibleStaysVisible(xs, x);
    }
  }

  lemma LastVisibleIff(xs: seq<Sample>)
    requires NonDecreasing(xs) && xs != []
    ensures HasVisible(xs) <==> xs[|xs| - 1].dts >= 0
  {
    if HasVisible(xs) {
      LastIsVisible(xs);
    }
  }

  lemma Mp4KeptNext(p: seq<Sample>, x: Sample, k: nat)
    requires k < |p|
    ensures Mp4KeptFrom(p + [x], k)
         == SetLastDuration(Mp4KeptFrom(p, k), Uint32(Max(x.dts - p[|p| - 1].dts, 0))) + [Mp4Out(x)]
  {
    hide Uint32, Max, Mp4KeptAt;
    var q, r := Mp4KeptFrom(p, k), Mp4KeptFrom(p + [x], k);
    Mp4KeptAtNext(p, x, |p| - 1);
    forall i: nat | i < |q| - 1 ensures r[i] == q[i] {
      Mp4KeptAtNext(p, x, k + i);
    }
    SetLastIs(q, Uint32(Max(x.dts - p[|p| - 1].dts, 0)), r, Mp4Out(x));
  }

  lemma Mp4KeptAtNext(p: seq<Sample>, x: Sample, j: nat)
    requires j < |p|
    ensures j < |p| - 1 ==> Mp4KeptAt(p + [x], j) == Mp4KeptAt(p, j)
    ensures j == |p| - 1 ==>
              Mp4KeptAt(p + [x], j) == Mp4KeptAt(p, j).(duration := Uint32(Max(x.dts - p[j].dts, 0)))
    ensures Mp4KeptAt(p + [x], |p|) == Mp4Out(x)
  {
    hide Uint32, Max;
  }

  lemma Mp4FinalKeepsTrack(t: Mp4Track, xs: seq<Sample>, dts: int)
    requires Mp4Ok(t, xs)
    ensures Mp4Ok(Mp4FinalDTS(t, dts), xs)
  {
  }

  // ----- timing

  /** The first kept decode time fits the 32-bit time offset and every gap after it the duration. */
  predicate Mp4Fits(xs: seq<Sample>)
    requires xs != []
  {
    && -0x8000_0000 <= xs[Start(xs)].dts < 0x8000_0000
    && forall j | Start(xs) <= j < |xs| - 1 :: xs[j + 1].dts - xs[j].dts < TWO32
  }

  /** The time at which a player decodes the `i`-th sample of a track. */
  function PlayedAt(t: Mp4Track, i: nat): int
    requires i <= |t.samples|
  {
    t.timeOffset + SumDurations(t.samples[..i])
  }

  ghost predicate PlaysOnTime(t: Mp4Track, xs: seq<Sample>)
    requires Mp4Ok(t, xs)
  {
    forall i: nat | i < |t.samples| :: PlayedAt(t, i) == xs[Start(xs) + i].dts
  }

  /** Samples play at their own decode times if and only if the file format can express them. */
  lemma Mp4TimelineIff(t: Mp4Track, xs: seq<Sample>)
    requires Mp4Ok(t, xs) && xs != []
    ensures PlaysOnTime(t, xs) <==> Mp4Fits(xs)
  {
    hide PlayedAt;
    if Mp4Fits(xs) {
      forall i: nat | i < |t.samples| ensures PlayedAt(t, i) == xs[Start(xs) + i].dts {
        FittingTimeline(t, xs, i);
      }
    }
    if PlaysOnTime(t, xs) {
      OnTimeFits(t, xs);
    }
  }

  lemma OnTimeFits(t: Mp4Track, xs: seq<Sample>)
    requires Mp4Ok(t, xs) && xs != [] && PlaysOnTime(t, xs)
    ensures Mp4Fits(xs)
  {
    var k := Start(xs);
    assert PlayedAt(t, 0) == t.timeOffset == xs[k].dts;
    hide PlayedAt;
    forall j | k <= j < |xs| - 1 ensures xs[j + 1].dts - xs[j].dts < TWO32 {
      PlayedNext(t, xs, j - k);
      assert PlayedAt(t, j - k) == xs[k + (j - k)].dts && PlayedAt(t, j - k + 1) == xs[k + (j - k + 1)].dts;
    }
  }

  lemma PlayedNext(t: Mp4Track, xs: seq<Sample>, i: nat)
    requires Mp4Ok(t, xs) && i + 1 < |t.samples|
    ensures var j := Start(xs) + i;
            PlayedAt(t, i + 1) == PlayedAt(t, i) + Uint32(xs[j + 1].dts - xs[j].dts) && xs[j].dts <= xs[j + 1].dts
  {
    var j := Start(xs) + i;
    assert t.samples[i] == Mp4KeptAt(xs, j);
    assert t.samples[..i + 1][..i] == t.samples[..i];
    assert xs[j].dts <= xs[j + 1].dts;
  }

  lemma Played0(t: Mp4Track)
    ensures PlayedAt(t, 0) == t.timeOffset
  {
  }

  lemma {:induction false} FittingTimeline(t: Mp4Track, xs: seq<Sample>, i: nat)
    requires Mp4Ok(t, xs) && xs != [] && Mp4Fits(xs) && i < |t.samples|
    ensures PlayedAt(t, i) == xs[Start(xs) + i].dts
  {
    hide PlayedAt;
    assert PlayedAt(t, 0) == t.timeOffset by { Played0(t); }
    if i > 0 {
      FittingTimeline(t, xs, i - 1);
      PlayedNext(t, xs, i - 1);
    }
  }

  // ----- all tracks

  function Mp4Apply(ts: seq<Mp4Track>, op: Op): (r: seq<Mp4Track>)
    requires op.track < |ts|
    ensures |r| == |ts|
  {
    var t := ts[op.track];
    ts[op.track := if op.PutOp? then Mp4Put(t, op.sample) else Mp4FinalDTS(t, op.dts)]
  }

  function Mp4New(n: nat): (r: seq<Mp4Track>)
    ensures |r| == n
    ensures forall i | 0 <= i < n :: r[i] == NEW_TRACK
  {
    seq(n, i => NEW_TRACK)
  }

  function Mp4Run(n: nat, ops: seq<Op>): (r: seq<Mp4Track>)
    requires forall j | 0 <= j < |ops| :: ops[j].track < n
    ensures |r| == n
  {
    if ops == [] then Mp4New(n) else Mp4Apply(Mp4Run(n, ops[..|ops| - 1]), ops[|ops| - 1])
  }

  lemma {:induction false} Mp4RunSelects(n: nat, ops: seq<Op>, i: nat)
    requires (forall j | 0 <= j < |ops| :: ops[j].track < n) && i < n && NonDecreasing(Inputs(ops, i))
    ensures Mp4Ok(Mp4Run(n, ops)[i], Inputs(ops, i))
  {
    if ops != [] {
      var prefix, op := ops[..|ops| - 1], ops[|ops| - 1];
      assert ops == prefix + [op];
      InputsNext(prefix, op, i);
      if op.PutOp? && op.track == i {
        PrefixNonDecreasing(Inputs(prefix, i), op.sample);
      }
      hide Mp4Ok, NonDecreasing;
      Mp4RunSelects(n, prefix, i);
      var t := Mp4Run(n, prefix)[i];
      if op.track == i {
        if op.PutOp? {
          Mp4PutKeepsTrack(t, Inputs(prefix, i), op.sample);
        } else {
          Mp4FinalKeepsTrack(t, Inputs(prefix, i), op.dts);
        }
      }
    }
  }

  datatype Mp4File = Mp4File(tracks: seq<(nat, Mp4Track)>)

  function NonEmptyTracks(ts: seq<Mp4Track>): seq<(nat, Mp4Track)> {
    if ts == [] then []
    else
      var n := |ts| - 1;
      NonEmptyTracks(ts[..n]) + if ts[n].samples != [] then [(n, ts[n])] else []
  }

  /** `flush` looks only at the track that was fed last. */
  function Mp4Flush(ts: seq<Mp4Track>, cur: nat): Result<Mp4File>
    requires cur < |ts|
  {
    if ts[cur].samples == [] || ts[cur].lastDTS < 0 then NoSegmentsFound else Ok(Mp4File(NonEmptyTracks(ts)))
  }

  lemma {:induction false} NonEmptyTracksIff(ts: seq<Mp4Track>, i: nat, t: Mp4Track)
    ensures (i, t) in NonEmptyTracks(ts) <==> i < |ts| && t == ts[i] && t.samples != []
  {
    if ts != [] {
      NonEmptyTracksIff(ts[..|ts| - 1], i, t);
    }
  }

  /** The file is refused if and only if the last-fed track has nothing visible. */
  lemma Mp4FlushFailsIff(n: nat, ops: seq<Op>, cur: nat)
    requires (forall j | 0 <= j < |ops| :: ops[j].track < n) && cur < n && NonDecreasing(Inputs(ops, cur))
    ensures Mp4Flush(Mp4Run(n, ops), cur) == NoSegmentsFound <==> !HasVisible(Inputs(ops, cur))
  {
    Mp4RunSelects(n, ops, cur);
    FlushedIff(Mp4Run(n, ops)[cur], Inputs(ops, cur));
  }

  lemma FlushedIff(t: Mp4Track, xs: seq<Sample>)
    requires Mp4Ok(t, xs)
    ensures t.samples == [] || t.lastDTS < 0 <==> !HasVisible(xs)
  {
    if xs != [] {
      LastVisibleIff(xs);
    }
  }

  /** Even if another track has something to play: the incremental muxer writes these samples, the
      whole-file one refuses. */
  lemma Mp4RefusesOtherTrack(x: Sample, y: Sample)
    requires x.dts >= 0 && y.dts < 0
    ensures var ops := [PutOp(0, x), PutOp(1, y)];
            && Mp4Flush(Mp4Run(2, ops), 1) == NoSegmentsFound
            && forall m | MuxerOk(m, ops) && |m.tracks| == 2 :: InnerFlush(m, true).Ok?
  {
    var ops := [PutOp(0, x), PutOp(1, y)];
    assert ops[..1] == [PutOp(0, x)] && [PutOp(0, x)][..0] == [];
    InputsNext([], PutOp(0, x), 0);
    InputsNext([], PutOp(0, x), 1);
    InputsNext([PutOp(0, x)], PutOp(1, y), 0);
    InputsNext([PutOp(0, x)], PutOp(1, y), 1);
    assert [] + [PutOp(0, x)] == [PutOp(0, x)] && [PutOp(0, x)] + [PutOp(1, y)] == ops;
    assert Inputs(ops, 0) == [x] && Inputs(ops, 1) == [y];
    Mp4FlushFailsIff(2, ops, 1);
    forall m | MuxerOk(m, ops) && |m.tracks| == 2 ensures InnerFlush(m, true).Ok? {
      assert HasVisible(Inputs(ops, 0)) by { assert [x][0].dts >= 0; }
      assert AnyVisible(ops, 2);
      FinalFlushFailsIff(m, ops);
    }
  }

  // ----- the two muxers keep the same samples

  /** Kept samples agree in everything but the presentation offset of sync samples and the duration of
      preroll, which the incremental muxer sets to zero. */
  lemma KeptAgree(xs: seq<Sample>, i: nat)
    requires i < |Kept(xs)|
    ensures |Mp4Kept(xs)| == |Kept(xs)|
    ensures Kept(xs)[i].payload == Mp4Kept(xs)[i].payload && Kept(xs)[i].nonSync == Mp4Kept(xs)[i].nonSync
    ensures xs[Start(xs) + i].dts >= 0 ==> Kept(xs)[i].duration == Mp4Kept(xs)[i].duration
    ensures xs[Start(xs) + i].dts < 0 ==> Kept(xs)[i].duration == 0
    ensures Kept(xs)[i].nonSync ==> Kept(xs)[i].ptsOffset == Mp4Kept(xs)[i].ptsOffset
  {
  }

  lemma Mp4SelectedPayloads(s: seq<OutSample>, xs: seq<Sample>)
    requires SameUpToLast(s, Mp4Kept(xs))
    ensures Payloads(s) == InputPayloads(xs)[Start(xs)..]
  {
    forall i | 0 <= i < |s| ensures Payloads(s)[i] == InputPayloads(xs)[Start(xs)..][i] {
      assert s[i].(duration := 0) == Mp4Kept(xs)[i].(duration := 0);
    }
  }

  /** Fed the same calls, the two muxers put the same samples of every visible track into their files:
      the input from the latest sync sample at or before the first visible one. */
  lemma MuxersSelectTheSame(timeScales: seq<nat>, ops: seq<Op>, i: nat, v: int, k: int)
    requires forall j | 0 <= j < |ops| :: ops[j].track < |timeScales| && ScaleOk(ops[j], timeScales)
    requires TracksInOrder(ops, |timeScales|) && i < |timeScales|
    requires IsFirstVisible(Inputs(ops, i), v) && IsStart(Inputs(ops, i), v, k)
    ensures var m := Run(NewMuxer(timeScales), ops);
            var f := if m.Ok? then InnerFlush(m.value, true) else NoSegmentsFound;
            && f.Ok?
            && Payloads(Written(LogOf(f.value.parts, i))) == InputPayloads(Inputs(ops, i))[k..]
            && Payloads(Mp4Run(|timeScales|, ops)[i].samples) == InputPayloads(Inputs(ops, i))[k..]
  {
    EveryRunSelects(timeScales, ops);
    FinalFlushWritesSelection(Run(NewMuxer(timeScales), ops).value, ops, i, v, k);
    Mp4RunSelects(|timeScales|, ops, i);
    var xs := Inputs(ops, i);
    StartIsLatestSync(xs, v);
    StartIsUnique(xs, v, k, Start(xs));
    Mp4SelectedPayloads(Mp4Run(|timeScales|, ops)[i].samples, xs);
  }

  // ----- a gap the format cannot express

  /** Two samples 2^32 ticks apart: the second plays at once. */
  lemma WideGapIsLost(x: Sample, y: Sample)
    requires x.dts == 0 && y.dts == TWO32 && y.nonSync
    ensures var t := Mp4Run(1, [PutOp(0, x), PutOp(0, y)])[0];
            |t.samples| == 2 && PlayedAt(t, 1) == 0 != y.dts
  {
    var ops := [PutOp(0, x), PutOp(0, y)];
    assert ops[..1] == [PutOp(0, x)] && ops[..1][..0] == [];
    var t1 := Mp4Put(NEW_TRACK, x);
    assert Mp4Run(1, []) == [NEW_TRACK];
    assert Mp4Run(1, ops[..1]) == [t1];
    var t2 := Mp4Put(t1, y);
    assert Mp4Run(1, ops) == [t2];
    assert t1.samples == [Mp4Out(x)];
    assert t2.samples == [Mp4Out(x).(duration := 0), Mp4Out(y)];
    assert t2.samples[..1][..0] == [];
    assert t2.samples[..1] == [Mp4Out(x).(duration := 0)];
    SumOfOne(Mp4Out(x).(duration := 0));
  }
}
