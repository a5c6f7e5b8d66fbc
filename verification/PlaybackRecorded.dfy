/** From a recording to what a viewer is sent: where in the requested window the samples of consecutive files of
    one recording lie (internal/recorder and `seekAndMux` of internal/playback/on_get.go together). */
module PlaybackRecorded {
  import opened Wrappers
  import opened GoArith
  import opened Playback
  import opened PlaybackFeed
  import opened PlaybackSeek
  import R = Recorder
  import S = RecorderRuns
  import L = RecorderLaws
  import T = RecorderTiming
  import J = RecorderRotation
  import B = RecorderPlayback

  // ----- what a walk feeds

  lemma {:induction false} FedComesFromFile(bs: seq<Box>, w: Window, i: nat)
    requires i < |w.timeScales|
    ensures forall x | x in Inputs(Play(bs, w).feed.ops, i) :: x in AllSamples(bs, w, i)
  {
    hide Step, Reached, BaseOf, EndOf, TakenFrom, SamplesOf;
    if bs != [] {
      var p, b := bs[..|bs| - 1], bs[|bs| - 1];
      FedComesFromFile(p, w, i);
      var f := Play(p, w).feed;
      if !Stopped(f) {
        StepFeedsHeld(f, b, w, i);
      }
    }
  }

  lemma StepFeedsHeld(f: Feed, b: Box, w: Window, i: nat)
    requires i < |w.timeScales| && !Stopped(f)
    ensures forall x | x in Inputs(Step(f, b, w).ops, i) :: x in Inputs(f.ops, i) || x in Held(b, w, i)
  {
    hide Inputs, BaseOf, EndOf, DtsAt;
    if b.Traf? && b.track < |w.timeScales| {
      InputsOfStep(f, b, w, i);
      var base := BaseOf(w, b.track, b.baseTime);
      var k := TakenFrom(base, b.entries, EndOf(w, b.track), 0);
      assert SamplesOf(base, b.entries, |b.entries|)[..k] == SamplesOf(base, b.entries, k);
    }
  }

  predicate Uncut(bs: seq<Box>, w: Window) {
    forall k | 0 <= k < |bs| && bs[k].Traf? :: bs[k].track < |w.timeScales| && !IsCut(bs[k], w)
  }

  /** A file in which no fragment is cut is fed whole. */
  lemma {:induction false} UncutIsFedWhole(bs: seq<Box>, w: Window, i: nat)
    requires i < |w.timeScales| && Uncut(bs, w)
    ensures !Stopped(Walk(bs, w)) && !Walk(bs, w).breakAtNextMdat
    ensures Inputs(Walk(bs, w).ops, i) == AllSamples(bs, w, i)
  {
    hide Inputs, Step, BaseOf, EndOf, DtsAt, IsCut;
    if bs == [] {
      NothingIsFed(i);
    } else {
      var p, b := bs[..|bs| - 1], bs[|bs| - 1];
      UncutIsFedWhole(p, w, i);
      var f := Walk(p, w);
      StepStops(f, b, w);
      if b.Traf? {
        UncutStep(f, b, w, i);
      } else {
        MdatFeedsNothing(f, w);
      }
    }
  }

  lemma NothingIsFed(i: nat)
    ensures Inputs([], i) == []
  {
  }

  lemma MdatFeedsNothing(f: Feed, w: Window)
    ensures Step(f, Mdat, w).ops == f.ops
    ensures !f.breakAtNextMdat ==> !Step(f, Mdat, w).breakAtNextMdat
  {
  }

  lemma UncutStep(f: Feed, b: Box, w: Window, i: nat)
    requires i < |w.timeScales| && !Stopped(f) && b.Traf? && b.track < |w.timeScales| && !IsCut(b, w)
    ensures Inputs(Step(f, b, w).ops, i) == Inputs(f.ops, i) + Held(b, w, i)
    ensures Step(f, b, w).breakAtNextMdat == f.breakAtNextMdat
  {
    hide Inputs, BaseOf, EndOf, DtsAt;
    InputsOfStep(f, b, w, i);
  }

  // ----- files of one recording

  /** Consecutive files of one recording, as the recorder leaves them on disk, asked for with its clocks. */
  ghost predicate Recorded(q: Query, fs: seq<File>, r: R.Rec, hs: seq<S.History>, streamID: int,
                           tracks: seq<J.InitTrack>, first: nat) {
    && S.TracksOk(r, hs) && L.SegmentsOk(r) && fs != [] && first + |fs| <= |R.Closed(r)|
    && q.timeScales == L.Rates(r) && (forall i | 0 <= i < |r.tracks| :: r.tracks[i].clockRate <= SECOND)
    && forall k: nat | k < |fs| :: IsFileOf(fs[k], R.Closed(r)[first + k], |r.tracks|, streamID, tracks)
  }

  predicate IsFileOf(f: File, g: R.Segment, n: nat, streamID: int, tracks: seq<J.InitTrack>) {
    f.header == J.HeaderOf(g, streamID, tracks) && f.dts == g.startDTS && f.boxes == B.FileBoxes(L.AllParts(g), n)
  }

  lemma ClosedIsSegment(r: R.Rec, n: nat, i: nat)
    requires n < |R.Closed(r)|
    ensures n < |S.Segs(r)|
    ensures var g, g' := S.Segs(r)[n], R.Closed(r)[n];
            L.AllParts(g') == L.AllParts(g) && S.InSegment(g', i) == S.InSegment(g, i) && g'.startDTS == g.startDTS
  {
    if n == |r.files| {
      S.ClosingKeepsSamples(r.segment.value, i);
    }
  }

  /** What the recorder kept of track `i` in the `k`-th of the files that start with file `first`. */
  function Kept(r: R.Rec, first: nat, k: nat, i: nat): seq<R.Stored>
    requires first + k < |R.Closed(r)|
  {
    S.InSegment(R.Closed(r)[first + k], i)
  }

  /** The exact place of a recorded sample in the window asked for, in ticks times 10^9. */
  function Place(y: R.Stored, first: File, q: Query, rate: int): int {
    SECOND * y.dts + (first.start - q.start - first.dts) * rate
  }

  /** What is fed is the sample recorded, less than three ticks before and less than two after its exact place. */
  predicate PlacedAt(x: Sample, y: R.Stored, first: File, q: Query, rate: int) {
    && x.payload == y.id && x.nonSync == y.nonSync
    && -2 * SECOND < Place(y, first, q, rate) - SECOND * x.dts < 3 * SECOND
  }

  lemma OffsetIsClose(v: int, rate: int)
    ensures -SECOND < v * rate - SECOND * DurationGoToMp4(v, rate) < SECOND
  {
    hide Quo, DurationGoToMp4;
    DurationIsExact(v, rate);
    QuoBounds(v * rate, SECOND);
  }

  lemma Shift(a: int, b: int, rate: int)
    ensures (a + b) * rate == a * rate + b * rate
  {
  }

  lemma InFileIsPlaced(x: Sample, y: R.Stored, start: int, first: File, q: Query, rate: int, low: int, v: int)
    requires low >= 1 - SECOND && v == start - first.dts + (first.start - q.start)
    requires B.InPlaceAt(x, y, DurationGoToMp4(v, rate), start, rate, low)
    ensures PlacedAt(x, y, first, q, rate)
  {
    hide DurationGoToMp4;
    OffsetIsClose(v, rate);
    Shift(start, first.start - q.start - first.dts, rate);
  }

  ghost predicate AllPlaced(xs: seq<Sample>, ys: seq<R.Stored>, first: File, q: Query, rate: int) {
    |xs| == |ys| && forall m | 0 <= m < |xs| :: PlacedAt(xs[m], ys[m], first, q, rate)
  }

  lemma InPlaceIsPlaced(xs: seq<Sample>, ys: seq<R.Stored>, start: int, first: File, q: Query, rate: int, low: int,
                        v: int)
    requires low >= 1 - SECOND && v == start - first.dts + (first.start - q.start)
    requires B.InPlace(xs, ys, DurationGoToMp4(v, rate), start, rate, low)
    ensures AllPlaced(xs, ys, first, q, rate)
  {
    hide DurationGoToMp4, B.InPlaceAt, PlacedAt;
    forall m | 0 <= m < |xs| ensures PlacedAt(xs[m], ys[m], first, q, rate) {
      InFileIsPlaced(xs[m], ys[m], start, first, q, rate, low, v);
    }
  }

  lemma OffsetInRecording(q: Query, fs: seq<File>, k: nat)
    requires k < |fs| && fs[0].header.mtxi.Some?
    ensures WindowOf(q, fs, k).timeScales == q.timeScales
    ensures WindowOf(q, fs, k).startDTS == fs[k].dts - fs[0].dts + (fs[0].start - q.start)
  {
  }

  /** What is known of one of the files. */
  lemma FileFacts(q: Query, fs: seq<File>, k: nat, i: nat, r: R.Rec, hs: seq<S.History>, streamID: int,
                  tracks: seq<J.InitTrack>, first: nat)
    requires Recorded(q, fs, r, hs, streamID, tracks, first) && k < |fs|
    ensures S.TracksOk(r, hs) && L.SegmentsOk(r) && first + k < |S.Segs(r)| && first + k < |R.Closed(r)|
    ensures |q.timeScales| == |r.tracks|
    ensures forall i | 0 <= i < |r.tracks| :: q.timeScales[i] == r.tracks[i].clockRate && 0 < q.timeScales[i] <= SECOND
    ensures fs[k].boxes == B.FileBoxes(L.AllParts(S.Segs(r)[first + k]), |r.tracks|)
    ensures WindowOf(q, fs, k).timeScales == q.timeScales
    ensures WindowOf(q, fs, k).startDTS == S.Segs(r)[first + k].startDTS - fs[0].dts + (fs[0].start - q.start)
    ensures Kept(r, first, k, i) == S.InSegment(S.Segs(r)[first + k], i)
  {
    assert IsFileOf(fs[k], R.Closed(r)[first + k], |r.tracks|, streamID, tracks);
    assert IsFileOf(fs[0], R.Closed(r)[first + 0], |r.tracks|, streamID, tracks);
    OffsetInRecording(q, fs, k);
    hide L.SegmentsOk, S.TrackOk, S.InSegment, L.AllParts, B.FileBoxes, WindowOf;
    ClosedIsSegment(r, first + k, i);
  }

  lemma LowIsBounded(nonNegative: bool)
    ensures B.Low(nonNegative) >= 1 - SECOND
  {
  }

  /** All that a file holds of a track, as the walk reads it. */
  lemma FileIsPlaced(q: Query, fs: seq<File>, k: nat, i: nat, r: R.Rec, hs: seq<S.History>, streamID: int,
                     tracks: seq<J.InitTrack>, first: nat)
    requires Recorded(q, fs, r, hs, streamID, tracks, first) && k < |fs| && i < |r.tracks| == |q.timeScales|
    requires T.GapsFit(Kept(r, first, k, i))
    ensures AllPlaced(AllSamples(fs[k].boxes, WindowOf(q, fs, k), i), Kept(r, first, k, i), fs[0], q,
                      r.tracks[i].clockRate)
  {
    hide *;
    FileFacts(q, fs, k, i, r, hs, streamID, tracks, first);
    var g, w, rate := S.Segs(r)[first + k], WindowOf(q, fs, k), r.tracks[i].clockRate;
    B.RecordedSegmentPlaysInPlace(r, hs, first + k, i, w);
    LowIsBounded(B.NonNegative(S.InSegment(g, i)));
    InPlaceIsPlaced(AllSamples(fs[k].boxes, w, i), S.InSegment(g, i), g.startDTS, fs[0], q, rate,
                    B.Low(B.NonNegative(S.InSegment(g, i))), w.startDTS);
  }

  // ----- nothing goes wrong

  lemma {:induction false} PartBoxesAreKnown(p: R.Part, n: nat, m: nat)
    requires n <= m
    ensures forall b | b in B.PartBoxes(p, n) :: b.Traf? && b.track < m
  {
    if n > 0 {
      PartBoxesAreKnown(p, n - 1, m);
    }
  }

  lemma {:induction false} BoxesAreKnown(ps: seq<R.Part>, n: nat)
    ensures forall b | b in B.FileBoxes(ps, n) && b.Traf? :: b.track < n
  {
    if ps != [] {
      BoxesAreKnown(ps[..|ps| - 1], n);
      PartBoxesAreKnown(ps[|ps| - 1], n, n);
    }
  }

  lemma {:induction false} KnownIsNeverInvalid(bs: seq<Box>, w: Window)
    requires forall b | b in bs && b.Traf? :: b.track < |w.timeScales|
    ensures !Walk(bs, w).invalidTrack
  {
    hide TakenFrom, SamplesOf, Puts;
    if bs != [] {
      KnownIsNeverInvalid(bs[..|bs| - 1], w);
      assert bs[|bs| - 1] in bs;
    }
  }

  lemma PositiveScalesDoNotDivide(bs: seq<Box>, w: Window)
    requires forall i | 0 <= i < |w.timeScales| :: w.timeScales[i] > 0
    ensures !Play(bs, w).dividedByZero && Play(bs, w).feed == Walk(bs, w)
  {
    hide Play, Walk, StopIndex;
    DividesByZeroIff(bs, w);
  }

  /** Consecutive files of a recording are all joined, and none of them makes the request fail. */
  lemma RecordedFilesNeverFail(q: Query, fs: seq<File>, r: R.Rec, hs: seq<S.History>, streamID: int,
                               tracks: seq<J.InitTrack>, first: nat, k: nat)
    requires Recorded(q, fs, r, hs, streamID, tracks, first) && k < |fs|
    ensures JoinedFrom(q, fs, 1) == |fs| && !Fails(q, fs, k)
    ensures PlayOf(q, fs, k).feed == Walk(fs[k].boxes, WindowOf(q, fs, k))
  {
    FileFacts(q, fs, k, 0, r, hs, streamID, tracks, first);
    var w := WindowOf(q, fs, k);
    BoxesAreKnown(L.AllParts(S.Segs(r)[first + k]), |r.tracks|);
    hide Play, Walk, S.TracksOk, L.SegmentsOk, L.AllParts, B.FileBoxes, S.Segs;
    KnownIsNeverInvalid(fs[k].boxes, w);
    PositiveScalesDoNotDivide(fs[k].boxes, w);
    RecordedFilesAllJoin(q, fs, r, streamID, tracks, first);
  }

  // ----- every sample fed is in its place

  ghost predicate ComesFrom(x: Sample, q: Query, fs: seq<File>, n: nat, r: R.Rec, first: nat, i: nat)
    requires fs != [] && first + n <= |R.Closed(r)| && i < |r.tracks|
  {
    exists k: nat :: k < n && IsPlacedIn(x, Kept(r, first, k, i), fs[0], q, r.tracks[i].clockRate)
  }

  ghost predicate IsPlacedIn(x: Sample, ys: seq<R.Stored>, first: File, q: Query, rate: int) {
    exists m: nat :: m < |ys| && PlacedAt(x, ys[m], first, q, rate)
  }

  /** Every sample that the muxer is fed, from whichever file, is one that was recorded and lies within three ticks
      of where the recording has it, counted from the requested start. */
  lemma {:induction false} FedSamplesAreInPlace(q: Query, fs: seq<File>, n: nat, i: nat, r: R.Rec,
                                                hs: seq<S.History>, streamID: int, tracks: seq<J.InitTrack>,
                                                first: nat, x: Sample)
    requires Recorded(q, fs, r, hs, streamID, tracks, first) && n <= |fs| && i < |r.tracks|
    requires forall k: nat | k < n :: T.GapsFit(Kept(r, first, k, i))
    requires x in Inputs(CallsOf(q, fs, n), i)
    ensures ComesFrom(x, q, fs, n, r, first, i)
  {
    hide *;
    RecordedFits(q, fs, r, hs, streamID, tracks, first);
    if n == 0 {
      NoCalls(q, fs, i);
    } else {
      var k := n - 1;
      CallsNext(q, fs, k, i, x);
      if x in Inputs(CallsOf(q, fs, k), i) {
        FedSamplesAreInPlace(q, fs, k, i, r, hs, streamID, tracks, first, x);
        ComesFromMore(x, q, fs, k, n, r, first, i);
      } else {
        FedByFile(q, fs, k, i, r, hs, streamID, tracks, first, x);
        ComesFromLast(x, q, fs, k, r, first, i);
      }
    }
  }

  lemma RecordedFits(q: Query, fs: seq<File>, r: R.Rec, hs: seq<S.History>, streamID: int, tracks: seq<J.InitTrack>,
                     first: nat)
    requires Recorded(q, fs, r, hs, streamID, tracks, first)
    ensures fs != [] && first + |fs| <= |R.Closed(r)|
  {
  }

  lemma NoCalls(q: Query, fs: seq<File>, i: nat)
    ensures Inputs(CallsOf(q, fs, 0), i) == []
  {
  }

  lemma CallsNext(q: Query, fs: seq<File>, k: nat, i: nat, x: Sample)
    requires k < |fs|
    ensures x in Inputs(CallsOf(q, fs, k + 1), i)
            <==> x in Inputs(CallsOf(q, fs, k), i) || x in Inputs(PlayOf(q, fs, k).feed.ops, i)
  {
    hide PlayOf;
    InputsConcat(CallsOf(q, fs, k), PlayOf(q, fs, k).feed.ops, i);
  }

  lemma ComesFromMore(x: Sample, q: Query, fs: seq<File>, k: nat, n: nat, r: R.Rec, first: nat, i: nat)
    requires fs != [] && k <= n && first + n <= |R.Closed(r)| && i < |r.tracks|
    requires ComesFrom(x, q, fs, k, r, first, i)
    ensures ComesFrom(x, q, fs, n, r, first, i)
  {
    hide IsPlacedIn, Kept, R.Closed;
  }

  lemma ComesFromLast(x: Sample, q: Query, fs: seq<File>, k: nat, r: R.Rec, first: nat, i: nat)
    requires fs != [] && first + k < |R.Closed(r)| && i < |r.tracks|
    requires IsPlacedIn(x, Kept(r, first, k, i), fs[0], q, r.tracks[i].clockRate)
    ensures ComesFrom(x, q, fs, k + 1, r, first, i)
  {
    hide IsPlacedIn, Kept, R.Closed;
  }

  lemma FedByFile(q: Query, fs: seq<File>, k: nat, i: nat, r: R.Rec, hs: seq<S.History>, streamID: int,
                  tracks: seq<J.InitTrack>, first: nat, x: Sample)
    requires Recorded(q, fs, r, hs, streamID, tracks, first) && k < |fs| && i < |r.tracks|
    requires T.GapsFit(Kept(r, first, k, i)) && x in Inputs(PlayOf(q, fs, k).feed.ops, i)
    ensures IsPlacedIn(x, Kept(r, first, k, i), fs[0], q, r.tracks[i].clockRate)
  {
    FileFacts(q, fs, k, i, r, hs, streamID, tracks, first);
    hide S.TracksOk, L.SegmentsOk, T.GapsFit, PlacedAt, Play, Kept, AllSamples, S.Segs, L.AllParts, B.FileBoxes;
    FileIsPlaced(q, fs, k, i, r, hs, streamID, tracks, first);
    var xs := AllSamples(fs[k].boxes, WindowOf(q, fs, k), i);
    FedComesFromFile(fs[k].boxes, WindowOf(q, fs, k), i);
    var m: nat :| m < |xs| && xs[m] == x;
  }

  /** So samples of different files are as far apart as they were recorded, to within four ticks. */
  lemma DistancesAreKept(x: Sample, y: R.Stored, x': Sample, y': R.Stored, first: File, q: Query, rate: int)
    requires PlacedAt(x, y, first, q, rate) && PlacedAt(x', y', first, q, rate)
    ensures -4 <= (x'.dts - x.dts) - (y'.dts - y.dts) <= 4
  {
  }

  // ----- and none is missing

  /** Everything recorded in a segment lies at least three ticks before the requested end. */
  ghost predicate EndsInTime(g: R.Segment, r: R.Rec, first: File, q: Query) {
    forall i: nat, m: nat | i < |r.tracks| && m < |S.InSegment(g, i)| ::
      Place(S.InSegment(g, i)[m], first, q, r.tracks[i].clockRate) + 3 * SECOND <= q.duration * r.tracks[i].clockRate
  }

  lemma PlacedBeforeEnd(x: Sample, y: R.Stored, first: File, q: Query, rate: int)
    requires PlacedAt(x, y, first, q, rate) && Place(y, first, q, rate) + 3 * SECOND <= q.duration * rate
    ensures x.dts < DurationGoToMp4(q.duration, rate)
  {
    hide DurationGoToMp4, Place;
    OffsetIsClose(q.duration, rate);
  }

  lemma {:induction false} HeldIsIn(bs: seq<Box>, w: Window, i: nat, j: nat)
    requires i < |w.timeScales| && j < |bs|
    ensures forall x | x in Held(bs[j], w, i) :: x in AllSamples(bs, w, i)
  {
    hide *;
    SplitAt(bs, w, i, j + 1);
    SamplesNext(bs, w, i, j);
  }

  lemma {:induction false} SamplesNext(bs: seq<Box>, w: Window, i: nat, j: nat)
    requires i < |w.timeScales| && j < |bs|
    ensures AllSamples(bs[..j + 1], w, i) == AllSamples(bs[..j], w, i) + Held(bs[j], w, i)
  {
    hide SamplesOf, BaseOf;
    assert bs[..j + 1][..j] == bs[..j];
  }

  lemma BeforeEndIsUncut(bs: seq<Box>, w: Window)
    requires forall b | b in bs && b.Traf? :: b.track < |w.timeScales|
    requires forall i: nat, x | i < |w.timeScales| && x in AllSamples(bs, w, i) :: x.dts < EndOf(w, i)
    ensures Uncut(bs, w)
  {
    hide BaseOf, EndOf, DtsAt, AllSamples;
    forall j: nat | j < |bs| && bs[j].Traf? ensures bs[j].track < |w.timeScales| && !IsCut(bs[j], w) {
      var b := bs[j];
      assert b in bs;
      var base, i := BaseOf(w, b.track, b.baseTime), b.track;
      HeldIsIn(bs, w, i, j);
      forall k: nat | k < |b.entries| ensures DtsAt(base, b.entries, k) < EndOf(w, i) {
        assert Held(b, w, i)[k] == SampleAt(base, b.entries, k);
        assert Held(b, w, i)[k] in AllSamples(bs, w, i);
      }
    }
  }

  /** A file that ends in time is fed whole: all that was recorded of every track, in order, each in its place. */
  lemma WholeFilesAreFed(q: Query, fs: seq<File>, k: nat, i: nat, r: R.Rec, hs: seq<S.History>, streamID: int,
                         tracks: seq<J.InitTrack>, first: nat)
    requires Recorded(q, fs, r, hs, streamID, tracks, first) && k < |fs| && i < |r.tracks|
    requires forall j: nat | j < |r.tracks| :: T.GapsFit(Kept(r, first, k, j))
    requires EndsInTime(R.Closed(r)[first + k], r, fs[0], q)
    ensures AllPlaced(Inputs(PlayOf(q, fs, k).feed.ops, i), Kept(r, first, k, i), fs[0], q,
                      r.tracks[i].clockRate)
  {
    var bs, w := fs[k].boxes, WindowOf(q, fs, k);
    FileFacts(q, fs, k, i, r, hs, streamID, tracks, first);
    RecordedFilesNeverFail(q, fs, r, hs, streamID, tracks, first, k);
    BoxesAreKnown(L.AllParts(S.Segs(r)[first + k]), |r.tracks|);
    hide Recorded, S.TracksOk, L.SegmentsOk, T.GapsFit, Play, S.InSegment, AllSamples, S.Segs, L.AllParts,
         B.FileBoxes, R.Closed, OffsetOf, EndsInTime, AllPlaced, DurationGoToMp4;
    forall j: nat, x | j < |w.timeScales| && x in AllSamples(bs, w, j) ensures x.dts < EndOf(w, j) {
      FileIsPlaced(q, fs, k, j, r, hs, streamID, tracks, first);
      EndsBeforeEnd(AllSamples(bs, w, j), R.Closed(r)[first + k], r, j, fs[0], q, x);
    }
    BeforeEndIsUncut(bs, w);
    UncutIsFedWhole(bs, w, i);
    FileIsPlaced(q, fs, k, i, r, hs, streamID, tracks, first);
  }

  lemma EndsBeforeEnd(xs: seq<Sample>, g: R.Segment, r: R.Rec, i: nat, first: File, q: Query, x: Sample)
    requires i < |r.tracks| && EndsInTime(g, r, first, q) && x in xs
    requires AllPlaced(xs, S.InSegment(g, i), first, q, r.tracks[i].clockRate)
    ensures x.dts < DurationGoToMp4(q.duration, r.tracks[i].clockRate)
  {
    hide PlacedAt, Place, S.InSegment, DurationGoToMp4;
    var m: nat :| m < |xs| && xs[m] == x;
    PlacedBeforeEnd(x, S.InSegment(g, i)[m], first, q, r.tracks[i].clockRate);
  }

  // ----- files without a recorded position

  function Later(x: Sample, d: int): Sample {
    x.(dts := x.dts + d)
  }

  lemma ZeroTicks(timeScale: nat)
    ensures DurationGoToMp4(0, timeScale) == 0
  {
    hide Quo, Rem, DurationGoToMp4;
    DurationIsExact(0, timeScale);
    QuoUnique(0, SECOND, 0);
  }

  /** Read from another start, a file holds the same samples, all moved by the same time. */
  lemma {:induction false} StartMovesSamples(bs: seq<Box>, w: Window, i: nat)
    requires i < |w.timeScales|
    ensures var xs, ys := AllSamples(bs, w, i), AllSamples(bs, w.(startDTS := 0), i);
            && |xs| == |ys|
            && forall m | 0 <= m < |xs| :: xs[m] == Later(ys[m], DurationGoToMp4(w.startDTS, w.timeScales[i]))
  {
    ZeroTicks(w.timeScales[i]);
    hide DurationGoToMp4;
    if bs != [] {
      StartMovesSamples(bs[..|bs| - 1], w, i);
    }
  }

  /** Files of older versions carry no position: what is fed of them lies within a tick of where the time in the
      file's own name puts it. */
  lemma LegacyFilesGoByName(q: Query, fs: seq<File>, k: nat, i: nat, x: Sample)
    requires k < |fs| && fs[0].header.mtxi.None? && i < |q.timeScales|
    requires x in Inputs(PlayOf(q, fs, k).feed.ops, i)
    ensures exists y :: y in AllSamples(fs[k].boxes, Window(0, q.duration, q.timeScales), i)
                        && IsMoved(x, y, fs[k].start - q.start, q.timeScales[i])
  {
    hide *;
    LegacyPlay(q, fs, k);
    var bs, w := fs[k].boxes, Window(fs[k].start - q.start, q.duration, q.timeScales);
    FedComesFromFile(bs, w, i);
    var y := MovedFrom(bs, w, i, x);
    assert y in AllSamples(bs, Window(0, q.duration, q.timeScales), i);
  }

  lemma LegacyPlay(q: Query, fs: seq<File>, k: nat)
    requires k < |fs| && fs[0].header.mtxi.None?
    ensures PlayOf(q, fs, k) == Play(fs[k].boxes, Window(fs[k].start - q.start, q.duration, q.timeScales))
  {
    hide Play;
  }

  /** `x` is `y` moved by `d` nanoseconds, to within a tick. */
  predicate IsMoved(x: Sample, y: Sample, d: int, timeScale: nat) {
    x == y.(dts := x.dts) && -SECOND < SECOND * (x.dts - y.dts) - d * timeScale < SECOND
  }

  lemma MovedFrom(bs: seq<Box>, w: Window, i: nat, x: Sample) returns (y: Sample)
    requires i < |w.timeScales| && x in AllSamples(bs, w, i)
    ensures y in AllSamples(bs, w.(startDTS := 0), i) && IsMoved(x, y, w.startDTS, w.timeScales[i])
  {
    hide AllSamples, DurationGoToMp4;
    StartMovesSamples(bs, w, i);
    var xs, ys := AllSamples(bs, w, i), AllSamples(bs, w.(startDTS := 0), i);
    var m: nat :| m < |xs| && xs[m] == x;
    y := ys[m];
    OffsetIsClose(w.startDTS, w.timeScales[i]);
  }
}
