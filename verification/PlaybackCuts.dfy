/** Where the incremental muxer cuts a track into parts: the base time of every part is the decode time of a
    sample, and a gap too wide for a duration always ends a part. */
module PlaybackCuts {
  import opened GoArith
  import opened Playback

  /** The index of the input sample with which part `k` of the log begins. */
  function Position(log: seq<PartTrack>, xs: seq<Sample>, k: nat): nat
    requires k <= |log|
  {
    Start(xs) + |Written(log[..k])|
  }

  /** The decode time of the sample at `a`, or of the first visible one if that comes later. */
  predicate IsBase(base: int, a: nat, xs: seq<Sample>, v: int)
    requires IsFirstVisible(xs, v)
  {
    a < |xs| && base == xs[if a >= v then a else v].dts
  }

  predicate IsWide(xs: seq<Sample>, j: int)
    requires 0 <= j < |xs| - 1
  {
    xs[j + 1].dts - xs[j].dts >= TWO32
  }

  /** A part of the log ends before the sample at `j`. */
  ghost predicate EndsBefore(log: seq<PartTrack>, xs: seq<Sample>, j: int) {
    exists k: nat :: k <= |log| && k > 0 && Position(log, xs, k) == j
  }

  /** Parts are not empty, bases are decode times, and each wide gap among the first `n` ends a part. */
  ghost predicate CutOk(t: Track, log: seq<PartTrack>, xs: seq<Sample>, v: int, n: int)
    requires IsFirstVisible(xs, v)
  {
    && (forall k: nat | k < |log| :: log[k].samples != [] && IsBase(log[k].base, Position(log, xs, k), xs, v))
    && IsBase(t.firstDTS, Position(log, xs, |log|), xs, v)
    && (forall j | v <= j < n && j < |xs| - 1 && IsWide(xs, j) :: EndsBefore(log, xs, j + 1))
  }

  // ----- one track

  lemma {:induction false} FirstVisibleNext(xs: seq<Sample>, x: Sample, v: int)
    requires IsFirstVisible(xs + [x], v)
    ensures HasVisible(xs) ==> IsFirstVisible(xs, v)
    ensures !HasVisible(xs) ==> v == |xs|
    ensures HasVisible(xs + [x])
  {
    var ys := xs + [x];
    assert forall i | 0 <= i < |xs| :: ys[i] == xs[i];
    assert ys[v].dts >= 0;
  }

  lemma {:induction false} PositionNext(log: seq<PartTrack>, xs: seq<Sample>, x: Sample, k: nat)
    requires k <= |log| && HasVisible(xs)
    ensures Position(log, xs + [x], k) == Position(log, xs, k)
  {
    StartNext(xs, x);
    VisibleIsNonEmpty(xs);
  }

  lemma {:induction false} BaseNext(base: int, a: nat, xs: seq<Sample>, x: Sample, v: int)
    requires IsFirstVisible(xs, v) && IsFirstVisible(xs + [x], v) && IsBase(base, a, xs, v)
    ensures IsBase(base, a, xs + [x], v)
  {
  }

  /** A further visible sample moves no cut; its own gap may be wide. */
  lemma {:induction false} PutKeepsCuts(t: Track, log: seq<PartTrack>, xs: seq<Sample>, x: Sample, v: int)
    requires TrackOk(t, log, xs) && HasVisible(xs) && x.dts >= 0 && IsFirstVisible(xs, v)
    requires IsFirstVisible(xs + [x], v) && CutOk(t, log, xs, v, |xs| - 1)
    ensures CutOk(Put(t, x), log, xs + [x], v, |xs| - 1)
  {
    hide TrackOk, Position, IsBase, HasVisible;
    var ys := xs + [x];
    VisibleIffFlushed(t, log, xs);
    PutKeepsFirst(t, log, xs, x);
    forall k: nat | k <= |log| ensures Position(log, ys, k) == Position(log, xs, k) {
      PositionNext(log, xs, x, k);
    }
    forall k: nat | k < |log| ensures IsBase(log[k].base, Position(log, ys, k), ys, v) {
      BaseNext(log[k].base, Position(log, xs, k), xs, x, v);
    }
    BaseNext(t.firstDTS, Position(log, xs, |log|), xs, x, v);
    forall j | v <= j < |xs| - 1 && IsWide(ys, j) ensures EndsBefore(log, ys, j + 1) {
      WideNext(xs, x, v, j);
      var k: nat :| k <= |log| && k > 0 && Position(log, xs, k) == j + 1;
      assert Position(log, ys, k) == j + 1;
    }
  }

  lemma {:induction false} WideNext(xs: seq<Sample>, x: Sample, v: int, j: int)
    requires IsFirstVisible(xs, v) && v <= j < |xs| - 1 && IsWide(xs + [x], j)
    ensures IsWide(xs, j)
  {
  }

  lemma {:induction false} PutKeepsFirst(t: Track, log: seq<PartTrack>, xs: seq<Sample>, x: Sample)
    requires TrackOk(t, log, xs) && HasVisible(xs) && x.dts >= 0
    ensures Put(t, x).firstDTS == t.firstDTS && Put(t, x).lastDTS == x.dts && Put(t, x).timeScale == t.timeScale
  {
    hide Uint32, SetLastDuration;
  }

  /** The first visible sample is where the first part will begin, as far as time goes. */
  lemma {:induction false} FirstVisibleCuts(t: Track, log: seq<PartTrack>, xs: seq<Sample>, x: Sample, v: int)
    requires TrackOk(t, log, xs) && !HasVisible(xs) && x.dts >= 0 && IsFirstVisible(xs + [x], v) && v == |xs|
    ensures CutOk(Put(t, x), log, xs + [x], v, |xs|)
  {
    assert log == [] && t.firstDTS < 0;
    hide TrackOk;
    assert log[..0] == [];
    assert Put(t, x).firstDTS == x.dts;
  }

  /** Without a full part the gap before the last sample is not wide. */
  lemma {:induction false} NotFullMeansNotWide(t: Track, log: seq<PartTrack>, xs: seq<Sample>, x: Sample, v: int)
    requires TrackOk(t, log, xs) && HasVisible(xs) && x.dts >= 0 && t.timeScale < TWO32
    requires IsFirstVisible(xs, v) && IsFirstVisible(xs + [x], v)
    requires CutOk(t, log, xs, v, |xs| - 1) && !PartIsFull(Put(t, x))
    ensures CutOk(Put(t, x), log, xs + [x], v, |xs|)
  {
    PutKeepsCuts(t, log, xs, x, v);
    PutKeepsFirst(t, log, xs, x);
    PartLastsItsScale(t.timeScale);
    FirstIsNotAfterLast(t, log, xs, v);
    hide TrackOk, IsFirstVisible, HasVisible, IsBase, DurationGoToMp4, Put;
    var ys := xs + [x];
    forall j | v <= j < |xs| && j < |ys| - 1 && IsWide(ys, j) ensures EndsBefore(log, ys, j + 1) {
    }
  }

  lemma {:induction false} FirstIsNotAfterLast(t: Track, log: seq<PartTrack>, xs: seq<Sample>, v: int)
    requires TrackOk(t, log, xs) && IsFirstVisible(xs, v) && IsBase(t.firstDTS, Position(log, xs, |log|), xs, v)
    ensures t.firstDTS <= xs[|xs| - 1].dts
  {
    hide Kept, SameUpToLast, Position;
  }

  lemma {:induction false} PartLastsItsScale(timeScale: nat)
    ensures DurationGoToMp4(PART_DURATION, timeScale) == timeScale
  {
    hide Quo, Rem;
    DurationIsExact(SECOND, timeScale);
    QuoUnique(SECOND * timeScale, SECOND, timeScale);
  }

  /** A flush cuts right before the last sample. */
  lemma {:induction false} FlushKeepsCuts(t: Track, log: seq<PartTrack>, xs: seq<Sample>, v: int, i: nat)
    requires TrackOk(t, log, xs) && HasToFlush(t, false) && IsFirstVisible(xs, v)
    requires CutOk(t, log, xs, v, |xs| - 2)
    ensures CutOk(FlushedTrack(t, false), log + [FlushedPart(t, i, false)], xs, v, |xs| - 1)
  {
    hide *;
    var part := FlushedPart(t, i, false);
    var log', t' := log + [part], FlushedTrack(t, false);
    PartIsHead(t, i);
    FlushedPosition(t, log, xs, part);
    LastTime(t, log, xs);
    LastIsBase(t'.firstDTS, xs, v);
    ExtendedCuts(t, t', log, part, xs, v);
  }

  lemma {:induction false} PartIsHead(t: Track, i: nat)
    requires HasToFlush(t, false)
    ensures var s := FlushedPart(t, i, false).samples;
            t.samples != [] && s == t.samples[..|t.samples| - 1] && s != []
    ensures FlushedPart(t, i, false).base == t.firstDTS
  {
  }

  /** One more part that ends before the last sample. */
  lemma {:induction false} ExtendedCuts(t: Track, t': Track, log: seq<PartTrack>, part: PartTrack, xs: seq<Sample>,
                                        v: int)
    requires IsFirstVisible(xs, v) && CutOk(t, log, xs, v, |xs| - 2) && part.samples != [] && part.base == t.firstDTS
    requires Position(log + [part], xs, |log| + 1) == |xs| - 1 && IsBase(t'.firstDTS, |xs| - 1, xs, v)
    ensures CutOk(t', log + [part], xs, v, |xs| - 1)
  {
    hide IsBase, Position;
    var log' := log + [part];
    forall k: nat | k <= |log| ensures Position(log', xs, k) == Position(log, xs, k) {
      OldPosition(log, part, xs, k);
    }
    forall j | v <= j < |xs| - 1 && IsWide(xs, j) ensures EndsBefore(log', xs, j + 1) {
      if j < |xs| - 2 {
        var k: nat :| k <= |log| && k > 0 && Position(log, xs, k) == j + 1;
        assert Position(log', xs, k) == j + 1;
      } else {
        assert Position(log', xs, |log'|) == j + 1;
      }
    }
  }

  lemma {:induction false} OldPosition(log: seq<PartTrack>, part: PartTrack, xs: seq<Sample>, k: nat)
    requires k <= |log|
    ensures Position(log + [part], xs, k) == Position(log, xs, k)
  {
    assert (log + [part])[..k] == log[..k];
  }

  lemma {:induction false} FlushedPosition(t: Track, log: seq<PartTrack>, xs: seq<Sample>, part: PartTrack)
    requires TrackOk(t, log, xs) && t.samples != [] && part.samples == t.samples[..|t.samples| - 1]
    ensures xs != [] && Position(log + [part], xs, |log| + 1) == |xs| - 1
  {
    assert (log + [part])[..|log| + 1] == log + [part];
    WrittenNext(log, part);
    assert |Written(log) + t.samples| == |Kept(xs)|;
  }

  lemma {:induction false} LastTime(t: Track, log: seq<PartTrack>, xs: seq<Sample>)
    requires TrackOk(t, log, xs) && HasToFlush(t, false)
    ensures xs != [] && FlushedTrack(t, false).firstDTS == xs[|xs| - 1].dts
  {
    hide Kept, SameUpToLast, NonDecreasing;
  }

  lemma {:induction false} LastIsBase(base: int, xs: seq<Sample>, v: int)
    requires IsFirstVisible(xs, v) && base == xs[|xs| - 1].dts
    ensures IsBase(base, |xs| - 1, xs, v)
  {
  }

  // ----- all tracks, all runs

  /** A track is cut well, but for its last `open` gaps. */
  ghost predicate CutsTo(t: Track, log: seq<PartTrack>, xs: seq<Sample>, open: nat) {
    forall v | IsFirstVisible(xs, v) :: CutOk(t, log, xs, v, |xs| - 1 - open)
  }

  ghost predicate TrackCut(m: Muxer, ops: seq<Op>, i: nat, open: nat)
    requires i < |m.tracks|
  {
    CutsTo(m.tracks[i], LogOf(m.parts, i), Inputs(ops, i), open)
  }

  ghost predicate MuxerCut(m: Muxer, ops: seq<Op>) {
    forall i: nat | i < |m.tracks| :: TrackCut(m, ops, i, 0)
  }

  /** The last gap of track `i` may be wide. */
  ghost predicate AlmostCut(m: Muxer, ops: seq<Op>, i: nat)
    requires i < |m.tracks|
  {
    (forall j: nat | j < |m.tracks| && j != i :: TrackCut(m, ops, j, 0)) && TrackCut(m, ops, i, 1)
  }

  lemma {:induction false} FewerGaps(t: Track, log: seq<PartTrack>, xs: seq<Sample>, v: int, n: int, n': int)
    requires IsFirstVisible(xs, v) && CutOk(t, log, xs, v, n) && n' <= n
    ensures CutOk(t, log, xs, v, n')
  {
    hide IsBase, EndsBefore, IsWide;
  }

  lemma {:induction false} FlushKeepsMuxerCut(m: Muxer, ops: seq<Op>, i: nat)
    requires MuxerOk(m, ops) && i < |m.tracks| && AlmostCut(m, ops, i) && HasToFlush(m.tracks[i], false)
    ensures InnerFlush(m, false).Ok? && MuxerCut(InnerFlush(m, false).value, ops)
  {
    hide TrackOk, CutOk, IsFirstVisible, HasToFlush, SomeLog, NumbersOk;
    SomethingToFlush(m.tracks, false, i);
    var m' := InnerFlush(m, false).value;
    forall j: nat | j < |m'.tracks| ensures TrackCut(m', ops, j, 0) {
      FlushKeepsTrackCut(m, ops, i, j);
    }
  }

  lemma {:induction false} FlushKeepsTrackCut(m: Muxer, ops: seq<Op>, i: nat, j: nat)
    requires MuxerOk(m, ops) && i < |m.tracks| && AlmostCut(m, ops, i) && HasToFlush(m.tracks[i], false)
    requires j < |m.tracks| && PartTracks(m.tracks, false) != []
    ensures InnerFlush(m, false).Ok? && |InnerFlush(m, false).value.tracks| == |m.tracks|
    ensures TrackCut(InnerFlush(m, false).value, ops, j, 0)
  {
    hide TrackOk, CutOk, IsFirstVisible, HasToFlush, SomeLog, NumbersOk;
    FlushedLog(m, j, false);
    var xs, log := Inputs(ops, j), LogOf(m.parts, j);
    forall v | IsFirstVisible(xs, v)
      ensures CutOk(InnerFlush(m, false).value.tracks[j], LogOf(InnerFlush(m, false).value.parts, j), xs, v, |xs| - 1)
    {
      if j != i {
        assert TrackCut(m, ops, j, 0);
        FewerGaps(m.tracks[j], log, xs, v, |xs| - 1, |xs| - 2);
      }
      if HasToFlush(m.tracks[j], false) {
        FlushKeepsCuts(m.tracks[j], log, xs, v, j);
      } else {
        NothingFlushed(m.tracks[j]);
      }
    }
  }

  lemma {:induction false} NothingFlushed(t: Track)
    requires !HasToFlush(t, false)
    ensures FlushedTrack(t, false) == t
  {
  }

  /** One operation on one track: cut well, or almost and then the part is full. */
  lemma {:induction false} UpdateKeepsTrackCut(m: Muxer, ops: seq<Op>, op: Op, m1: Muxer)
    requires MuxerOk(m, ops) && op.track < |m.tracks| && TrackCut(m, ops, op.track, 0)
    requires TracksInOrder(ops + [op], |m.tracks|) && m.tracks[op.track].timeScale < TWO32
    requires m1 == m.(tracks := m.tracks[op.track := Updated(m.tracks[op.track], op)])
    ensures TrackCut(m1, ops + [op], op.track, 1)
    ensures || (op.PutOp? && op.sample.dts >= 0 && PartIsFull(m1.tracks[op.track]))
            || TrackCut(m1, ops + [op], op.track, 0)
  {
    var i := op.track;
    InputsNext(ops, op, i);
    assert TrackOk(m.tracks[i], LogOf(m.parts, i), Inputs(ops, i)) && NonDecreasing(Inputs(ops + [op], i));
    hide CutsTo, PartIsFull, MuxerOk, TracksInOrder, TrackOk, NonDecreasing, Updated;
    UpdateKeepsCuts(m.tracks[i], LogOf(m.parts, i), Inputs(ops, i), op, Inputs(ops + [op], i));
  }

  lemma {:induction false} UpdateKeepsCuts(t: Track, log: seq<PartTrack>, xs: seq<Sample>, op: Op, ys: seq<Sample>)
    requires TrackOk(t, log, xs) && NonDecreasing(ys) && t.timeScale < TWO32
    requires ys == if op.PutOp? then xs + [op.sample] else xs
    requires CutsTo(t, log, xs, 0)
    ensures CutsTo(Updated(t, op), log, ys, 1)
    ensures (op.PutOp? && op.sample.dts >= 0 && PartIsFull(Updated(t, op))) || CutsTo(Updated(t, op), log, ys, 0)
  {
    hide CutOk, PartIsFull, TrackOk, NonDecreasing, Put, FinalDTS;
    forall v | IsFirstVisible(ys, v)
      ensures CutOk(Updated(t, op), log, ys, v, |ys| - 2)
      ensures || (op.PutOp? && op.sample.dts >= 0 && PartIsFull(Updated(t, op)))
              || CutOk(Updated(t, op), log, ys, v, |ys| - 1)
    {
      if op.FinalOp? {
        FinalKeepsCuts(t, log, xs, op.dts, v);
      } else {
        PutIntoCuts(t, log, xs, op.sample, v);
      }
    }
  }

  lemma {:induction false} FinalKeepsCuts(t: Track, log: seq<PartTrack>, xs: seq<Sample>, dts: int, v: int)
    requires IsFirstVisible(xs, v) && CutOk(t, log, xs, v, |xs| - 1)
    ensures CutOk(FinalDTS(t, dts), log, xs, v, |xs| - 1) && CutOk(FinalDTS(t, dts), log, xs, v, |xs| - 2)
  {
    hide Uint32, SetLastDuration, IsBase, EndsBefore, IsWide;
  }

  lemma {:induction false} PutIntoCuts(t: Track, log: seq<PartTrack>, xs: seq<Sample>, x: Sample, v: int)
    requires TrackOk(t, log, xs) && NonDecreasing(xs + [x]) && t.timeScale < TWO32
    requires IsFirstVisible(xs + [x], v)
    requires forall u | IsFirstVisible(xs, u) :: CutOk(t, log, xs, u, |xs| - 1)
    ensures CutOk(Put(t, x), log, xs + [x], v, |xs| - 1)
    ensures x.dts >= 0 && (PartIsFull(Put(t, x)) || CutOk(Put(t, x), log, xs + [x], v, |xs|))
  {
    FirstVisibleNext(xs, x, v);
    if HasVisible(xs) {
      VisibleStaysVisible(xs, x);
      hide CutOk, PartIsFull, TrackOk;
      PutKeepsCuts(t, log, xs, x, v);
      if !PartIsFull(Put(t, x)) {
        NotFullMeansNotWide(t, log, xs, x, v);
      }
    } else {
      assert (xs + [x])[v] == x;
      hide CutOk, PartIsFull, TrackOk;
      FirstVisibleCuts(t, log, xs, x, v);
      FewerGaps(Put(t, x), log, xs + [x], v, |xs|, |xs| - 1);
    }
  }

  lemma {:induction false} ApplyKeepsCut(m: Muxer, ops: seq<Op>, op: Op, timeScales: seq<nat>)
    requires MuxerOk(m, ops) && MuxerCut(m, ops) && TimeScalesAre(m, timeScales) && op.track < |m.tracks|
    requires ScaleOk(op, timeScales) && timeScales[op.track] < TWO32 && TracksInOrder(ops + [op], |m.tracks|)
    ensures Apply(m, op).Ok? && MuxerCut(Apply(m, op).value, ops + [op])
  {
    hide MuxerOk, TrackCut, TracksInOrder, PartIsFull, HasToFlush, Put, FinalDTS, InnerFlush;
    var i := op.track;
    var m1 := m.(tracks := m.tracks[i := Updated(m.tracks[i], op)]);
    ApplyKeepsMuxer(m, ops, op, timeScales);
    UpdateKeepsTrackCut(m, ops, op, m1);
    UpdateKeepsMuxer(m, ops, op);
    UpdateKeepsScale(m.tracks[i], op);
    OthersStayCut(m, ops, op, m1);
    if op.PutOp? && op.sample.dts >= 0 && PartIsFull(m1.tracks[i]) {
      FullTrackFlushes(m1, ops, op);
      FlushKeepsMuxerCut(m1, ops + [op], i);
    } else {
      assert MuxerCut(m1, ops + [op]);
    }
  }

  lemma {:induction false} OthersStayCut(m: Muxer, ops: seq<Op>, op: Op, m1: Muxer)
    requires MuxerCut(m, ops) && op.track < |m.tracks|
    requires m1 == m.(tracks := m.tracks[op.track := Updated(m.tracks[op.track], op)])
    ensures forall j: nat | j < |m1.tracks| && j != op.track :: TrackCut(m1, ops + [op], j, 0)
  {
    hide CutOk, IsFirstVisible, Updated;
    forall j: nat | j < |m1.tracks| && j != op.track ensures TrackCut(m1, ops + [op], j, 0) {
      assert TrackCut(m, ops, j, 0);
      InputsNext(ops, op, j);
    }
  }

  lemma {:induction false} FullTrackFlushes(m: Muxer, ops: seq<Op>, op: Op)
    requires MuxerOk(m, ops + [op]) && op.PutOp? && op.sample.dts >= 0 && op.track < |m.tracks|
    requires m.tracks[op.track].timeScale > 0 && PartIsFull(m.tracks[op.track])
    ensures HasToFlush(m.tracks[op.track], false)
  {
    hide TrackOk, HasVisible, SomeLog, NumbersOk, PartIsFull, HasToFlush;
    var i := op.track;
    InputsNext(ops, op, i);
    HasVisibleNext(Inputs(ops, i), op.sample);
    FullPartCanFlush(m.tracks[i], LogOf(m.parts, i), Inputs(ops + [op], i));
  }

  lemma {:induction false} NewMuxerIsCut(timeScales: seq<nat>)
    ensures MuxerCut(NewMuxer(timeScales), [])
  {
  }

  /** In every run each wide gap of a track ends one of its parts. */
  lemma {:induction false} EveryRunIsCut(timeScales: seq<nat>, ops: seq<Op>)
    requires forall j | 0 <= j < |ops| :: ops[j].track < |timeScales| && ScaleOk(ops[j], timeScales)
    requires TracksInOrder(ops, |timeScales|) && forall i | 0 <= i < |timeScales| :: timeScales[i] < TWO32
    ensures Run(NewMuxer(timeScales), ops).Ok? && MuxerCut(Run(NewMuxer(timeScales), ops).value, ops)
  {
    hide MuxerOk, MuxerCut, NewMuxer, Apply;
    if ops == [] {
      NewMuxerIsCut(timeScales);
    } else {
      var prefix, op := ops[..|ops| - 1], ops[|ops| - 1];
      assert ops == prefix + [op];
      PrefixInOrder(prefix, op, |timeScales|);
      EveryRunSelects(timeScales, prefix);
      EveryRunIsCut(timeScales, prefix);
      hide TracksInOrder, ScaleOk;
      ApplyKeepsCut(Run(NewMuxer(timeScales), prefix).value, prefix, op, timeScales);
    }
  }

  // ----- when a part is written

  /** A new sample of a visible track fills the open part exactly if it is a second or more after the first
      sample in it. */
  lemma {:induction false} FullIff(t: Track, log: seq<PartTrack>, xs: seq<Sample>, x: Sample, v: int)
    requires TrackOk(t, log, xs) && NonDecreasing(xs + [x]) && IsFirstVisible(xs, v)
    requires IsBase(t.firstDTS, Position(log, xs, |log|), xs, v)
    ensures var a := Position(log, xs, |log|);
            x.dts >= 0 && (PartIsFull(Put(t, x)) <==> x.dts - xs[if a >= v then a else v].dts >= t.timeScale)
  {
    assert HasVisible(xs);
    PartLastsItsScale(t.timeScale);
    hide TrackOk, HasVisible, DurationGoToMp4, Put, Position;
    VisibleStaysVisible(xs, x);
    PutKeepsFirst(t, log, xs, x);
  }

  lemma {:induction false} FirstDoesNotFill(t: Track, log: seq<PartTrack>, xs: seq<Sample>, x: Sample)
    requires TrackOk(t, log, xs) && !HasVisible(xs) && x.dts >= 0 && t.timeScale > 0
    ensures !PartIsFull(Put(t, x))
  {
    PartLastsItsScale(t.timeScale);
    hide DurationGoToMp4, Kept, SameUpToLast;
  }

  lemma {:induction false} WriteCounts(m: Muxer, ops: seq<Op>, i: nat, x: Sample)
    requires MuxerOk(m, ops) && i < |m.tracks| && TracksInOrder(ops + [PutOp(i, x)], |m.tracks|)
    requires x.dts >= 0 ==> m.tracks[i].timeScale > 0
    ensures WriteSample(m, i, x).Ok?
    ensures |WriteSample(m, i, x).value.parts|
         == |m.parts| + if x.dts >= 0 && PartIsFull(Put(m.tracks[i], x)) then 1 else 0
  {
    hide MuxerOk, Put, PartIsFull, TracksInOrder, PartTracks, HasToFlush;
    var op := PutOp(i, x);
    var m1 := m.(tracks := m.tracks[i := Put(m.tracks[i], x)]);
    UpdateKeepsMuxer(m, ops, op);
    UpdateKeepsScale(m.tracks[i], op);
    if x.dts >= 0 && PartIsFull(m1.tracks[i]) {
      FullTrackFlushes(m1, ops, op);
      SomethingToFlush(m1.tracks, false, i);
    }
  }

  /** In every run, a sample makes the muxer write a part if and only if it is a second or more after the first
      sample of its track that is visible and not yet written. */
  lemma {:induction false} PartIsWrittenIff(timeScales: seq<nat>, ops: seq<Op>, i: nat, x: Sample)
    requires forall j | 0 <= j < |ops| :: ops[j].track < |timeScales| && ScaleOk(ops[j], timeScales)
    requires i < |timeScales| && ScaleOk(PutOp(i, x), timeScales) && TracksInOrder(ops + [PutOp(i, x)], |timeScales|)
    requires forall j | 0 <= j < |timeScales| :: timeScales[j] < TWO32
    ensures var m, xs := Run(NewMuxer(timeScales), ops), Inputs(ops, i);
            && m.Ok? && |m.value.tracks| == |timeScales| && WriteSample(m.value, i, x).Ok?
            && var n, n' := |m.value.parts|, |WriteSample(m.value, i, x).value.parts|;
               && (n' == n || n' == n + 1) && (!HasVisible(xs) ==> n' == n)
               && forall v | IsFirstVisible(xs, v) ::
                    var a := Position(LogOf(m.value.parts, i), xs, |LogOf(m.value.parts, i)|);
                    a < |xs| && (n' > n <==> x.dts - xs[if a >= v then a else v].dts >= timeScales[i])
  {
    PrefixInOrder(ops, PutOp(i, x), |timeScales|);
    EveryRunSelects(timeScales, ops);
    EveryRunIsCut(timeScales, ops);
    var m, xs := Run(NewMuxer(timeScales), ops).value, Inputs(ops, i);
    var t, log := m.tracks[i], LogOf(m.parts, i);
    assert TrackOk(t, log, xs) && TrackCut(m, ops, i, 0);
    InputsNext(ops, PutOp(i, x), i);
    assert NonDecreasing(xs + [x]);
    hide MuxerOk, MuxerCut, TrackOk, Run, NewMuxer, TracksInOrder, HasVisible, PartIsFull, Put, WriteSample, LogOf;
    WriteCounts(m, ops, i, x);
    if !HasVisible(xs) && x.dts >= 0 {
      FirstDoesNotFill(t, log, xs, x);
    }
    forall v | IsFirstVisible(xs, v)
      ensures var a := Position(log, xs, |log|);
              && a < |xs| && x.dts >= 0
              && (PartIsFull(Put(t, x)) <==> x.dts - xs[if a >= v then a else v].dts >= timeScales[i])
    {
      assert CutOk(t, log, xs, v, |xs| - 1 - 0);
      FullIff(t, log, xs, x, v);
    }
  }

  // ----- parts that do not follow each other

  /** The durations of the input samples from `a` up to `b`. */
  function Lasting(xs: seq<Sample>, a: nat, b: nat): int
    requires a <= b <= |xs|
    decreases b - a
  {
    if a == b then 0 else Lasting(xs, a, b - 1) + Duration(xs, b - 1)
  }

  /** Durations never add up to more than the time they cover. */
  lemma {:induction false} LastingIsBounded(xs: seq<Sample>, a: nat, b: nat, v: int)
    requires NonDecreasing(xs) && IsFirstVisible(xs, v) && a <= b < |xs|
    ensures b <= v ==> Lasting(xs, a, b) == 0
    ensures b >= v ==> Lasting(xs, a, b) <= xs[b].dts - xs[if a >= v then a else v].dts
    decreases b - a
  {
    if a < b {
      LastingIsBounded(xs, a, b - 1, v);
      DurationIsBounded(xs, b - 1);
    }
  }

  lemma {:induction false} DurationIsBounded(xs: seq<Sample>, j: nat)
    requires NonDecreasing(xs) && j + 1 < |xs|
    ensures 0 <= Duration(xs, j) <= xs[j + 1].dts - xs[j].dts
    ensures xs[j].dts < 0 ==> Duration(xs, j) == 0
    ensures IsWide(xs, j) ==> Duration(xs, j) < xs[j + 1].dts - xs[j].dts
  {
    Uint32Bound(xs[j + 1].dts - xs[j].dts);
    hide Uint32;
  }

  lemma {:induction false} Uint32Bound(x: int)
    requires x >= 0
    ensures 0 <= Uint32(x) <= x
  {
  }

  lemma {:induction false} WrittenSlice(log: seq<PartTrack>, q: nat)
    requires q < |log|
    ensures var c := |Written(log[..q])|;
            && |Written(log[..q + 1])| == c + |log[q].samples| <= |Written(log)|
            && Written(log)[c..c + |log[q].samples|] == log[q].samples
  {
    var n := |log| - 1;
    assert log[..q + 1][..q] == log[..q];
    if q == n {
      assert log[..q + 1] == log;
    } else {
      WrittenSlice(log[..n], q);
      assert log[..n][..q] == log[..q] && log[..n][..q + 1] == log[..q + 1];
      assert Written(log) == Written(log[..n]) + log[n].samples;
      hide Written;
      SliceStays(Written(log[..n]), log[n].samples, |Written(log[..q])|, |Written(log[..q])| + |log[q].samples|);
    }
  }

  lemma {:induction false} SliceStays(a: seq<OutSample>, b: seq<OutSample>, c: nat, d: nat)
    requires c <= d <= |a|
    ensures (a + b)[c..d] == a[c..d]
  {
  }

  lemma {:induction false} SumIsLasting(s: seq<OutSample>, xs: seq<Sample>, a: nat)
    requires a + |s| <= |xs| && forall i: nat | i < |s| :: s[i].duration == Duration(xs, a + i)
    ensures SumDurations(s) == Lasting(xs, a, a + |s|)
  {
    if s != [] {
      SumIsLasting(s[..|s| - 1], xs, a);
    }
  }

  lemma {:induction false} SliceAt(w: seq<OutSample>, rest: seq<OutSample>, s: seq<OutSample>, c: nat, i: nat)
    requires c + |s| <= |w| && w[c..c + |s|] == s && i < |s|
    ensures (w + rest)[c + i] == s[i]
  {
    assert s[i] == w[c..c + |s|][i];
  }

  /** Sample `i` of part `q` is settled. */
  lemma {:induction false} PartSampleIsKept(t: Track, log: seq<PartTrack>, xs: seq<Sample>, q: nat, i: nat)
    requires TrackOk(t, log, xs) && q < |log| && HasVisible(xs) && i < |log[q].samples|
    ensures Position(log, xs, q) + i < |xs| && log[q].samples[i] == KeptAt(xs, Position(log, xs, q) + i)
  {
    hide KeptFrom, Duration, NonDecreasing, GapsFit, BasesChain;
    WrittenSlice(log, q);
    var c := |Written(log[..q])|;
    SliceAt(Written(log), t.samples, log[q].samples, c, i);
  }

  lemma {:induction false} PartsLeaveTheLast(t: Track, log: seq<PartTrack>, xs: seq<Sample>, q: nat)
    requires TrackOk(t, log, xs) && q < |log| && HasVisible(xs)
    ensures Position(log, xs, q + 1) == Position(log, xs, q) + |log[q].samples| < |xs|
  {
    hide KeptFrom, Duration, NonDecreasing, GapsFit, BasesChain;
    WrittenSlice(log, q);
  }

  /** A part that was written lasts as long as its samples. */
  lemma {:induction false} PartLasts(t: Track, log: seq<PartTrack>, xs: seq<Sample>, q: nat)
    requires TrackOk(t, log, xs) && q < |log| && HasVisible(xs)
    ensures Position(log, xs, q + 1) == Position(log, xs, q) + |log[q].samples| < |xs|
    ensures SumDurations(log[q].samples) == Lasting(xs, Position(log, xs, q), Position(log, xs, q + 1))
  {
    PartsLeaveTheLast(t, log, xs, q);
    hide TrackOk, Position;
    var s, a := log[q].samples, Position(log, xs, q);
    forall i: nat | i < |s| ensures s[i].duration == Duration(xs, a + i) {
      PartSampleIsKept(t, log, xs, q, i);
    }
    SumIsLasting(s, xs, a);
  }

  lemma {:induction false} WidePartEndsShort(t: Track, log: seq<PartTrack>, xs: seq<Sample>, v: int, q: nat, j: nat)
    requires TrackOk(t, log, xs) && IsFirstVisible(xs, v) && CutOk(t, log, xs, v, |xs| - 1) && q < |log|
    requires v <= j < |xs| - 1 && IsWide(xs, j) && Position(log, xs, q + 1) == j + 1
    ensures log[q].base + SumDurations(log[q].samples) < xs[j + 1].dts
  {
    assert HasVisible(xs);
    PartLasts(t, log, xs, q);
    assert log[q].samples != [] && IsBase(log[q].base, Position(log, xs, q), xs, v) && NonDecreasing(xs);
    hide TrackOk, CutOk, NonDecreasing, IsWide, Position, SumDurations;
    var a := Position(log, xs, q);
    LastingIsBounded(xs, a, j, v);
    DurationIsBounded(xs, j);
  }

  lemma {:induction false} VisibleIsLater(xs: seq<Sample>, v: int, j: int)
    requires IsFirstVisible(xs, v) && 0 <= j < |xs| && xs[j].dts >= 0
    ensures v <= j
  {
  }

  /** The base of what comes after part `q`. */
  lemma {:induction false} NextBase(t: Track, log: seq<PartTrack>, xs: seq<Sample>, v: int, k: nat, j: nat, i: nat)
    requires IsFirstVisible(xs, v) && CutOk(t, log, xs, v, |xs| - 1) && 0 < k <= |log| && HasToFlush(t, true)
    requires Position(log, xs, k) == j + 1 && v <= j
    ensures j + 1 < |xs| && (log + [FlushedPart(t, i, true)])[k].base == xs[j + 1].dts
  {
    hide Position, EndsBefore, IsWide;
    assert IsBase((log + [FlushedPart(t, i, true)])[k].base, Position(log, xs, k), xs, v);
  }

  /** So after a wide gap the parts do not follow each other. */
  lemma {:induction false} WideGapBreaks(t: Track, log: seq<PartTrack>, xs: seq<Sample>, v: int, j: nat, i: nat)
    requires TrackOk(t, log, xs) && IsFirstVisible(xs, v) && CutOk(t, log, xs, v, |xs| - 1) && HasToFlush(t, true)
    requires j < |xs| - 1 && xs[j].dts >= 0 && IsWide(xs, j)
    ensures !PartsFollow(log + [FlushedPart(t, i, true)], xs[v].dts)
  {
    VisibleIsLater(xs, v, j);
    assert EndsBefore(log, xs, j + 1);
    var k: nat :| k <= |log| && k > 0 && Position(log, xs, k) == j + 1;
    hide TrackOk, CutOk, IsFirstVisible, HasToFlush, Position, SumDurations, IsWide;
    var q: nat := k - 1;
    WidePartEndsShort(t, log, xs, v, q, j);
    NextBase(t, log, xs, v, k, j, i);
    var log' := log + [FlushedPart(t, i, true)];
    assert log'[q] == log[q];
    assert log'[q + 1].base != log'[q].base + SumDurations(log'[q].samples);
  }

  /** In every run, for every track with something visible: the parts of the finished file follow each other if
      and only if every gap between visible samples fits a duration. */
  lemma {:induction false} FinishedPartsFollowIff(timeScales: seq<nat>, ops: seq<Op>, i: nat, v: int)
    requires forall j | 0 <= j < |ops| :: ops[j].track < |timeScales| && ScaleOk(ops[j], timeScales)
    requires TracksInOrder(ops, |timeScales|) && forall k | 0 <= k < |timeScales| :: timeScales[k] < TWO32
    requires i < |timeScales| && IsFirstVisible(Inputs(ops, i), v)
    ensures var m := Run(NewMuxer(timeScales), ops);
            && m.Ok? && InnerFlush(m.value, true).Ok?
            && var log := LogOf(InnerFlush(m.value, true).value.parts, i);
               PartsFollow(log, Inputs(ops, i)[v].dts) <==> GapsFit(Inputs(ops, i))
  {
    EveryRunSelects(timeScales, ops);
    EveryRunIsCut(timeScales, ops);
    hide NewMuxer, Run, TracksInOrder;
    FollowIff(Run(NewMuxer(timeScales), ops).value, ops, i, v);
  }

  lemma {:induction false} FollowIff(m: Muxer, ops: seq<Op>, i: nat, v: int)
    requires MuxerOk(m, ops) && MuxerCut(m, ops) && i < |m.tracks| && IsFirstVisible(Inputs(ops, i), v)
    ensures InnerFlush(m, true).Ok?
    ensures PartsFollow(LogOf(InnerFlush(m, true).value.parts, i), Inputs(ops, i)[v].dts) <==> GapsFit(Inputs(ops, i))
  {
    hide *;
    TrackIsCut(m, ops, i, v);
    TrackFollowIff(m.tracks[i], LogOf(m.parts, i), Inputs(ops, i), v, i);
    FinalLog(m, i);
  }

  lemma {:induction false} TrackIsCut(m: Muxer, ops: seq<Op>, i: nat, v: int)
    requires MuxerOk(m, ops) && MuxerCut(m, ops) && i < |m.tracks| && IsFirstVisible(Inputs(ops, i), v)
    ensures var t, log, xs := m.tracks[i], LogOf(m.parts, i), Inputs(ops, i);
            TrackOk(t, log, xs) && CutOk(t, log, xs, v, |xs| - 1)
  {
    hide TrackOk, CutOk, NumbersOk, SomeLog, LogOf, Inputs;
    var t, log, xs := m.tracks[i], LogOf(m.parts, i), Inputs(ops, i);
    assert TrackOk(t, log, xs) && TrackCut(m, ops, i, 0);
    assert CutOk(t, log, xs, v, |xs| - 1 - 0);
  }

  lemma {:induction false} FinalLog(m: Muxer, i: nat)
    requires i < |m.tracks| && HasToFlush(m.tracks[i], true)
    ensures InnerFlush(m, true).Ok?
    ensures LogOf(InnerFlush(m, true).value.parts, i) == LogOf(m.parts, i) + [FlushedPart(m.tracks[i], i, true)]
  {
    SomethingToFlush(m.tracks, true, i);
    FlushedLog(m, i, true);
  }

  lemma {:induction false} TrackFollowIff(t: Track, log: seq<PartTrack>, xs: seq<Sample>, v: int, i: nat)
    requires TrackOk(t, log, xs) && IsFirstVisible(xs, v) && CutOk(t, log, xs, v, |xs| - 1)
    ensures HasToFlush(t, true)
    ensures PartsFollow(log + [FlushedPart(t, i, true)], xs[v].dts) <==> GapsFit(xs)
  {
    assert HasVisible(xs);
    hide TrackOk, CutOk, PartsFollow, HasToFlush, BasesChain, HasVisible;
    VisibleIffFlushed(t, log, xs);
    if GapsFit(xs) {
      FinalPartFollows(t, log, xs, v, i);
      ChainedPartsFollow(log + [FlushedPart(t, i, true)], xs[v].dts);
    } else {
      AnyWideGapBreaks(t, log, xs, v, i);
    }
  }

  lemma {:induction false} AnyWideGapBreaks(t: Track, log: seq<PartTrack>, xs: seq<Sample>, v: int, i: nat)
    requires TrackOk(t, log, xs) && IsFirstVisible(xs, v) && CutOk(t, log, xs, v, |xs| - 1) && HasToFlush(t, true)
    requires !GapsFit(xs)
    ensures !PartsFollow(log + [FlushedPart(t, i, true)], xs[v].dts)
  {
    hide TrackOk, CutOk, PartsFollow, HasToFlush;
    var j :| 0 <= j < |xs| - 1 && xs[j].dts >= 0 && xs[j + 1].dts - xs[j].dts >= TWO32;
    WideGapBreaks(t, log, xs, v, j, i);
  }
}
