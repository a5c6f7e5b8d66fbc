/** What both playback muxers write, sample by sample and in full: every field of every sample, the duration of the
    last one included. */
module PlaybackEnds {
  import opened Wrappers
  import opened GoArith
  import opened Playback
  import opened PlaybackMp4
  import opened PlaybackFeed

  // ----- the end a track was told

  /** The end told for track `i` since its last sample, if any: the latest counts. */
  function ToldEnd(ops: seq<Op>, i: nat): Option<int> {
    if ops == [] then None
    else
      var op := ops[|ops| - 1];
      if op.track != i then ToldEnd(ops[..|ops| - 1], i)
      else if op.PutOp? then None
      else Some(op.dts)
  }

  /** How long the last sample of track `i` lasts: until the end told, or no time if none was. */
  function LastDuration(ops: seq<Op>, i: nat): int {
    var xs, end := Inputs(ops, i), ToldEnd(ops, i);
    if xs == [] || end.None? then 0 else Uint32(Max(end.value - xs[|xs| - 1].dts, 0))
  }

  lemma ToldEndNext(ops: seq<Op>, op: Op, i: nat)
    ensures ToldEnd(ops + [op], i)
         == if op.track != i then ToldEnd(ops, i) else if op.PutOp? then None else Some(op.dts)
  {
    assert (ops + [op])[..|ops|] == ops;
  }

  lemma LastDurationNext(ops: seq<Op>, op: Op, i: nat)
    ensures op.track != i ==> LastDuration(ops + [op], i) == LastDuration(ops, i)
    ensures op.track == i && op.PutOp? ==> LastDuration(ops + [op], i) == 0
    ensures op.track == i && op.FinalOp? && Inputs(ops, i) != [] ==>
              LastDuration(ops + [op], i) == Uint32(Max(op.dts - Inputs(ops, i)[|Inputs(ops, i)| - 1].dts, 0))
  {
    hide Uint32, Max, Inputs, ToldEnd;
    InputsNext(ops, op, i);
    ToldEndNext(ops, op, i);
  }

  predicate EndsWith(s: seq<OutSample>, d: int) {
    s != [] && s[|s| - 1].duration == d
  }

  // ----- the incremental muxer

  /** The last buffered sample of every visible track lasts until the end it was told. */
  ghost predicate EndsOk(m: Muxer, ops: seq<Op>) {
    forall i: nat | i < |m.tracks| && HasVisible(Inputs(ops, i)) :: EndsWith(m.tracks[i].samples, LastDuration(ops, i))
  }

  lemma PutEnds(t: Track, x: Sample)
    ensures EndsWith(Put(t, x).samples, 0)
  {
    hide Uint32, Max;
  }

  lemma FinalEnds(t: Track, log: seq<PartTrack>, xs: seq<Sample>, dts: int)
    requires TrackOk(t, log, xs) && HasVisible(xs)
    ensures EndsWith(FinalDTS(t, dts).samples, Uint32(Max(dts - xs[|xs| - 1].dts, 0)))
  {
    hide Uint32, Max, SameUpToLast, Kept, GapsFit;
  }

  lemma FlushEnds(t: Track, d: int)
    requires EndsWith(t.samples, d)
    ensures EndsWith(FlushedTrack(t, false).samples, d)
  {
  }

  lemma FlushKeepsEnds(m: Muxer, ops: seq<Op>)
    requires EndsOk(m, ops) && InnerFlush(m, false).Ok?
    ensures EndsOk(InnerFlush(m, false).value, ops)
  {
    hide EndsWith, HasVisible, FlushedTrack, LastDuration;
    var m' := InnerFlush(m, false).value;
    forall i: nat | i < |m'.tracks| && HasVisible(Inputs(ops, i))
      ensures EndsWith(m'.tracks[i].samples, LastDuration(ops, i))
    {
      FlushEnds(m.tracks[i], LastDuration(ops, i));
    }
  }

  lemma UpdateKeepsEnds(m: Muxer, ops: seq<Op>, op: Op)
    requires MuxerOk(m, ops) && EndsOk(m, ops) && op.track < |m.tracks|
    ensures EndsOk(m.(tracks := m.tracks[op.track := Updated(m.tracks[op.track], op)]), ops + [op])
  {
    hide EndsWith, HasVisible, LastDuration, Put, FinalDTS, TrackOk, Inputs;
    var j := op.track;
    var m' := m.(tracks := m.tracks[j := Updated(m.tracks[j], op)]);
    forall i: nat | i < |m'.tracks| && HasVisible(Inputs(ops + [op], i))
      ensures EndsWith(m'.tracks[i].samples, LastDuration(ops + [op], i))
    {
      InputsNext(ops, op, i);
      LastDurationNext(ops, op, i);
      if i == j && op.PutOp? {
        PutEnds(m.tracks[i], op.sample);
      } else if i == j {
        VisibleIsNonEmpty(Inputs(ops, i));
        FinalEnds(m.tracks[i], LogOf(m.parts, i), Inputs(ops, i), op.dts);
      }
    }
  }

  lemma ApplyKeepsEnds(m: Muxer, ops: seq<Op>, op: Op)
    requires MuxerOk(m, ops) && EndsOk(m, ops) && op.track < |m.tracks| && Apply(m, op).Ok?
    ensures EndsOk(Apply(m, op).value, ops + [op])
  {
    hide MuxerOk, EndsOk, InnerFlush, PartIsFull, Put, FinalDTS;
    UpdateKeepsEnds(m, ops, op);
    var m1 := m.(tracks := m.tracks[op.track := Updated(m.tracks[op.track], op)]);
    if InnerFlush(m1, false).Ok? {
      FlushKeepsEnds(m1, ops + [op]);
    }
  }

  lemma NothingEnds(timeScales: seq<nat>)
    ensures EndsOk(NewMuxer(timeScales), [])
  {
  }

  lemma {:induction false} EveryRunEnds(timeScales: seq<nat>, ops: seq<Op>)
    requires forall j | 0 <= j < |ops| :: ops[j].track < |timeScales| && ScaleOk(ops[j], timeScales)
    requires TracksInOrder(ops, |timeScales|)
    ensures var r := Run(NewMuxer(timeScales), ops);
            r.Ok? && |r.value.tracks| == |timeScales| && MuxerOk(r.value, ops) && EndsOk(r.value, ops)
  {
    hide MuxerOk, EndsOk, TracksInOrder, ScaleOk, Apply, NewMuxer;
    EveryRunSelects(timeScales, ops);
    if ops == [] {
      NothingEnds(timeScales);
    } else {
      var p, op := ops[..|ops| - 1], ops[|ops| - 1];
      assert ops == p + [op];
      Playback.PrefixInOrder(p, op, |timeScales|);
      EveryRunEnds(timeScales, p);
      ApplyKeepsEnds(Run(NewMuxer(timeScales), p).value, p, op);
    }
  }

  /** The sample `x`, lasting `d`, with everything else as it came. */
  predicate WrittenAs(o: OutSample, x: Sample, d: int) {
    o == OutSample(d, x.ptsOffset, x.nonSync, x.payload)
  }

  /** How long the incremental muxer lets sample `j` last: nothing before the requested start, then until the next
      one, and the last one until the end told. */
  function LastsFor(xs: seq<Sample>, j: nat, last: int): int
    requires j < |xs|
  {
    if j == |xs| - 1 then last
    else if xs[j].dts < 0 then 0
    else Uint32(xs[j + 1].dts - xs[j].dts)
  }

  lemma {:induction false} KeptInFull(s: seq<OutSample>, xs: seq<Sample>, k: nat, d: int)
    requires k < |xs| && NonDecreasing(xs) && Start(xs) == k && SameUpToLast(s, Kept(xs)) && EndsWith(s, d)
    ensures |s| == |xs| - k && forall j: nat | j < |s| :: WrittenAs(s[j], xs[k + j], LastsFor(xs, k + j, d))
  {
    hide KeptAt, WrittenAs, LastsFor;
    forall j: nat | j < |s| ensures WrittenAs(s[j], xs[k + j], LastsFor(xs, k + j, d)) {
      assert Kept(xs)[j] == KeptAt(xs, k + j);
      assert s[j].(duration := 0) == Kept(xs)[j].(duration := 0);
      assert j < |s| - 1 ==> s[j] == Kept(xs)[j] && xs[k + j].dts <= xs[k + j + 1].dts;
      OneInFull(s[j], xs, k + j, d);
    }
  }

  lemma {:induction false} OneInFull(o: OutSample, xs: seq<Sample>, a: nat, d: int)
    requires a < |xs| && o.(duration := 0) == KeptAt(xs, a).(duration := 0)
    requires if a < |xs| - 1 then o == KeptAt(xs, a) && xs[a].dts <= xs[a + 1].dts else o.duration == d
    ensures WrittenAs(o, xs[a], LastsFor(xs, a, d))
  {
    hide Uint32;
  }

  /** The file of the incremental muxer in full: of every track with something visible the input from the latest sync
      sample at or before the first visible one, each sample with its own presentation offset, sync flag and
      payload, and lasting as long as it should. */
  lemma FinalFlushInFull(timeScales: seq<nat>, ops: seq<Op>, i: nat, v: int, k: nat)
    requires forall j | 0 <= j < |ops| :: ops[j].track < |timeScales| && ScaleOk(ops[j], timeScales)
    requires TracksInOrder(ops, |timeScales|) && i < |timeScales|
    requires IsFirstVisible(Inputs(ops, i), v) && IsStart(Inputs(ops, i), v, k)
    ensures var m, xs := Run(NewMuxer(timeScales), ops), Inputs(ops, i);
            var f := if m.Ok? then InnerFlush(m.value, true) else NoSegmentsFound;
            && f.Ok?
            && var w := Written(LogOf(f.value.parts, i));
               && |w| == |xs| - k
               && forall j: nat | j < |w| :: WrittenAs(w[j], xs[k + j], LastsFor(xs, k + j, LastDuration(ops, i)))
  {
    EveryRunEnds(timeScales, ops);
    var m, xs := Run(NewMuxer(timeScales), ops).value, Inputs(ops, i);
    FinalFlushIs(m, ops, i, v, k);
    StartIsLatestSync(xs, v);
    StartIsUnique(xs, v, k, Start(xs));
    hide MuxerOk, EndsOk, Run, NewMuxer, InnerFlush, WrittenAs, LastDuration;
    KeptInFull(Written(LogOf(InnerFlush(m, true).value.parts, i)), xs, k, LastDuration(ops, i));
  }

  lemma FinalFlushIs(m: Muxer, ops: seq<Op>, i: nat, v: int, k: nat)
    requires MuxerOk(m, ops) && EndsOk(m, ops) && i < |m.tracks| && IsFirstVisible(Inputs(ops, i), v)
    ensures InnerFlush(m, true).Ok?
    ensures var w := Written(LogOf(InnerFlush(m, true).value.parts, i));
            NonDecreasing(Inputs(ops, i)) && SameUpToLast(w, Kept(Inputs(ops, i))) && EndsWith(w, LastDuration(ops, i))
  {
    var t, log, xs := m.tracks[i], LogOf(m.parts, i), Inputs(ops, i);
    assert TrackOk(t, log, xs);
    assert HasVisible(xs);
    assert EndsWith(t.samples, LastDuration(ops, i));
    hide *;
    VisibleIffFlushed(t, log, xs);
    SomethingToFlush(m.tracks, true, i);
    FlushedLog(m, i, true);
    WrittenNext(log, FlushedPart(t, i, true));
    FinalPartIsAll(t, log, xs, i, LastDuration(ops, i));
  }

  lemma FinalPartIsAll(t: Track, log: seq<PartTrack>, xs: seq<Sample>, i: nat, d: int)
    requires TrackOk(t, log, xs) && HasToFlush(t, true) && EndsWith(t.samples, d)
    ensures var w := Written(log) + FlushedPart(t, i, true).samples;
            NonDecreasing(xs) && SameUpToLast(w, Kept(xs)) && EndsWith(w, d)
  {
    hide GapsFit, Kept, SameUpToLast, BasesChain, Written;
  }

  // ----- the whole-file muxer

  lemma {:induction false} Mp4RunEnds(n: nat, ops: seq<Op>, i: nat)
    requires (forall j | 0 <= j < |ops| :: ops[j].track < n) && i < n && NonDecreasing(Inputs(ops, i))
    requires Inputs(ops, i) != []
    ensures EndsWith(Mp4Run(n, ops)[i].samples, LastDuration(ops, i))
  {
    hide *;
    NothingIsPut(i);
    var p, op := ops[..|ops| - 1], ops[|ops| - 1];
    assert ops == p + [op];
    InputsNext(p, op, i);
    LastDurationNext(p, op, i);
    Mp4RunNext(n, p, op, i);
    if op.PutOp? && op.track == i {
      Mp4PutEnds(Mp4Run(n, p)[i], op.sample);
    } else {
      Mp4RunEnds(n, p, i);
      if op.track == i {
        Mp4RunSelects(n, p, i);
        Mp4FinalEnds(Mp4Run(n, p)[i], Inputs(p, i), op.dts);
      }
    }
  }

  lemma NothingIsPut(i: nat)
    ensures Inputs([], i) == []
  {
  }

  lemma Mp4RunNext(n: nat, p: seq<Op>, op: Op, i: nat)
    requires (forall j | 0 <= j < |p + [op]| :: (p + [op])[j].track < n) && i < n
    ensures forall j | 0 <= j < |p| :: p[j].track < n
    ensures Mp4Run(n, p + [op])[i] == if op.track != i then Mp4Run(n, p)[i]
                                      else if op.PutOp? then Mp4Put(Mp4Run(n, p)[i], op.sample)
                                      else Mp4FinalDTS(Mp4Run(n, p)[i], op.dts)
  {
    hide Mp4Put, Mp4FinalDTS;
    assert (p + [op])[..|p|] == p && (p + [op])[|p|] == op;
    forall j | 0 <= j < |p| ensures p[j].track < n {
      assert (p + [op])[j] == p[j];
    }
  }

  lemma Mp4PutEnds(t: Mp4Track, x: Sample)
    ensures EndsWith(Mp4Put(t, x).samples, 0)
  {
    hide Uint32, Int32, Max;
  }

  lemma Mp4FinalEnds(t: Mp4Track, xs: seq<Sample>, dts: int)
    requires Mp4Ok(t, xs) && xs != []
    ensures EndsWith(Mp4FinalDTS(t, dts).samples, Uint32(Max(dts - xs[|xs| - 1].dts, 0)))
  {
    hide Uint32, Int32, Max;
  }

  /** How the whole-file muxer writes a sample: a sync sample is presented when it is decoded, and every sample but
      the last lasts until the next one. */
  predicate WrittenWhole(o: OutSample, xs: seq<Sample>, j: nat, last: int)
    requires j < |xs|
  {
    o == OutSample(if j == |xs| - 1 then last else Uint32(xs[j + 1].dts - xs[j].dts),
                   if xs[j].nonSync then xs[j].ptsOffset else 0, xs[j].nonSync, xs[j].payload)
  }

  /** The tracks of the whole-file muxer in full. */
  lemma {:induction false} Mp4RunInFull(n: nat, ops: seq<Op>, i: nat)
    requires (forall j | 0 <= j < |ops| :: ops[j].track < n) && i < n && NonDecreasing(Inputs(ops, i))
    requires Inputs(ops, i) != []
    ensures var s, xs := Mp4Run(n, ops)[i].samples, Inputs(ops, i);
            var k := Start(xs);
            |s| == |xs| - k && forall j: nat | j < |s| :: WrittenWhole(s[j], xs, k + j, LastDuration(ops, i))
  {
    hide LastDuration, Mp4Ok, EndsWith, NonDecreasing, WrittenWhole, Mp4Run;
    Mp4RunSelects(n, ops, i);
    Mp4RunEnds(n, ops, i);
    Mp4KeptInFull(Mp4Run(n, ops)[i], Inputs(ops, i), LastDuration(ops, i));
  }

  lemma {:induction false} Mp4KeptInFull(t: Mp4Track, xs: seq<Sample>, d: int)
    requires Mp4Ok(t, xs) && xs != [] && EndsWith(t.samples, d)
    ensures var s, k := t.samples, Start(xs);
            |s| == |xs| - k && forall j: nat | j < |s| :: WrittenWhole(s[j], xs, k + j, d)
  {
    hide Uint32, Int32;
    var s, k := t.samples, Start(xs);
    forall j: nat | j < |s| ensures WrittenWhole(s[j], xs, k + j, d) {
      assert s[j].(duration := 0) == Mp4Kept(xs)[j].(duration := 0);
      assert Mp4Kept(xs)[j] == Mp4KeptAt(xs, k + j);
      if j < |s| - 1 {
        assert s[j] == Mp4Kept(xs)[j];
        assert xs[k + j].dts <= xs[k + j + 1].dts;
      }
    }
  }

  // ----- the end the walk tells

  /** Reading a fragment tells its track the end of the samples that were fed of it. */
  lemma FragmentTellsEnd(f: Feed, b: Box, w: Window)
    requires !Stopped(f) && b.Traf? && b.track < |w.timeScales|
    ensures var base, es := BaseOf(w, b.track, b.baseTime), b.entries;
            ToldEnd(Step(f, b, w).ops, b.track) == Some(DtsAt(base, es, TakenFrom(base, es, EndOf(w, b.track), 0)))
  {
    hide TakenFrom, DtsAt, SamplesOf, EndOf, BaseOf;
    var base, es := BaseOf(w, b.track, b.baseTime), b.entries;
    var k := TakenFrom(base, es, EndOf(w, b.track), 0);
    ToldEndNext(f.ops + Puts(b.track, SamplesOf(base, es, k)), FinalOp(b.track, DtsAt(base, es, k)), b.track);
  }
}
