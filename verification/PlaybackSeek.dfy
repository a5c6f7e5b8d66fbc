/** Playing several segments into one muxer (`seekAndMux` of internal/playback/on_get.go): how far segments are
    joined, and what the file then holds. */
module PlaybackSeek {
  import opened Wrappers
  import opened GoArith
  import opened Playback
  import opened PlaybackMp4
  import opened PlaybackFeed
  import R = Recorder
  import L = RecorderLaws
  import J = RecorderRotation

  /** A segment on disk: its header, the position recorded in it, the time in its name, and its boxes. */
  datatype File = File(header: J.Header, dts: int, start: int, boxes: seq<Box>)

  datatype Query = Query(start: int, duration: int, timeScales: seq<nat>)

  /** How far a segment starts after the requested start: by the recorded positions, or by the names of legacy
      files. */
  function OffsetOf(q: Query, fs: seq<File>, k: nat): int
    requires k < |fs|
  {
    if k == 0 || fs[0].header.mtxi.None? then fs[k].start - q.start
    else fs[k].dts - fs[0].dts + (fs[0].start - q.start)
  }

  function WindowOf(q: Query, fs: seq<File>, k: nat): Window
    requires k < |fs|
  {
    Window(OffsetOf(q, fs, k), q.duration, q.timeScales)
  }

  function PlayOf(q: Query, fs: seq<File>, k: nat): Played
    requires k < |fs|
  {
    Play(fs[k].boxes, WindowOf(q, fs, k))
  }

  predicate Joins(q: Query, fs: seq<File>, k: nat)
    requires 0 < k < |fs|
  {
    J.CanBeConcatenated(fs[k - 1].header, fs[k - 1].start + PlayOf(q, fs, k - 1).segmentDuration, fs[k].header,
                        fs[k].start)
  }

  /** How many segments are joined, given that the first `k` are. */
  function JoinedFrom(q: Query, fs: seq<File>, k: nat): (n: nat)
    requires 0 < k <= |fs|
    ensures k <= n <= |fs|
    ensures forall j: nat | k <= j < n :: Joins(q, fs, j)
    ensures n < |fs| ==> !Joins(q, fs, n)
    decreases |fs| - k
  {
    if k == |fs| || !Joins(q, fs, k) then k else JoinedFrom(q, fs, k + 1)
  }

  predicate Fails(q: Query, fs: seq<File>, k: nat)
    requires k < |fs|
  {
    PlayOf(q, fs, k).feed.invalidTrack || PlayOf(q, fs, k).dividedByZero
  }

  /** The calls of the first `n` segments, one after the other, on the same muxer. */
  function CallsOf(q: Query, fs: seq<File>, n: nat): seq<Op>
    requires n <= |fs|
  {
    if n == 0 then [] else CallsOf(q, fs, n - 1) + PlayOf(q, fs, n - 1).feed.ops
  }

  /** The loop over the segments: it stops at the first that does not join and fails with the first whose walk
      does. */
  method SeekAndMux(q: Query, fs: seq<File>) returns (failed: bool, ops: seq<Op>)
    requires fs != []
    ensures failed <==> exists k: nat :: k < JoinedFrom(q, fs, 1) && Fails(q, fs, k)
    ensures !failed ==> ops == CallsOf(q, fs, JoinedFrom(q, fs, 1))
  {
    hide Play;
    ghost var n := JoinedFrom(q, fs, 1);
    var p := MuxParts(fs[0].boxes, WindowOf(q, fs, 0));
    ops := p.feed.ops;
    assert CallsOf(q, fs, 0) == [];
    if p.feed.invalidTrack || p.dividedByZero {
      assert Fails(q, fs, 0);
      return true, ops;
    }
    var end, k := fs[0].start + p.segmentDuration, 1;
    while k < |fs|
      invariant 0 < k <= n && JoinedFrom(q, fs, k) == n
      invariant forall j: nat | j < k :: !Fails(q, fs, j)
      invariant ops == CallsOf(q, fs, k) && end == fs[k - 1].start + PlayOf(q, fs, k - 1).segmentDuration
      decreases |fs| - k
    {
      if !J.CanBeConcatenated(fs[k - 1].header, end, fs[k].header, fs[k].start) {
        break;
      }
      p := MuxParts(fs[k].boxes, WindowOf(q, fs, k));
      if p.feed.invalidTrack || p.dividedByZero {
        assert Fails(q, fs, k);
        return true, ops;
      }
      ops := ops + p.feed.ops;
      end := fs[k].start + p.segmentDuration;
      k := k + 1;
    }
    failed := false;
  }

  // ----- what reaches the muxer

  /** The samples of a track that the first `n` segments feed: of each those before the end, up to where its walk
      stops. */
  function FedOf(q: Query, fs: seq<File>, n: nat, i: nat): seq<Sample>
    requires n <= |fs| && i < |q.timeScales|
  {
    if n == 0 then []
    else
      var w, bs := WindowOf(q, fs, n - 1), fs[n - 1].boxes;
      FedOf(q, fs, n - 1, i) + Before(AllSamples(bs[..StopIndex(bs, w, 0)], w, i), EndOf(w, i))
  }

  /** Every segment holds its tracks in order. */
  ghost predicate EachInOrder(q: Query, fs: seq<File>, n: nat)
    requires n <= |fs|
  {
    forall k: nat | k < n :: InOrder(fs[k].boxes, WindowOf(q, fs, k)) && !Fails(q, fs, k)
  }

  lemma {:induction false} CallsFeed(q: Query, fs: seq<File>, n: nat, i: nat)
    requires n <= |fs| && i < |q.timeScales| && EachInOrder(q, fs, n)
    ensures Inputs(CallsOf(q, fs, n), i) == FedOf(q, fs, n, i)
  {
    hide Play, Walk, StopIndex, EndOf, AllSamples;
    if n > 0 {
      var k := n - 1;
      var w, bs := WindowOf(q, fs, k), fs[k].boxes;
      CallsFeed(q, fs, k, i);
      InputsConcat(CallsOf(q, fs, k), PlayOf(q, fs, k).feed.ops, i);
      assert InOrder(bs, w) && !Fails(q, fs, k);
      DividesByZeroIff(bs, w);
      FedUntilStop(bs, w, i);
    }
  }

  lemma {:induction false} CallsAreOk(q: Query, fs: seq<File>, n: nat)
    requires n <= |fs| && EachInOrder(q, fs, n)
    ensures forall j | 0 <= j < |CallsOf(q, fs, n)| ::
              CallsOf(q, fs, n)[j].track < |q.timeScales| && ScaleOk(CallsOf(q, fs, n)[j], q.timeScales)
  {
    hide Play, Walk, ScaleOk;
    if n > 0 {
      var k := n - 1;
      CallsAreOk(q, fs, k);
      assert InOrder(fs[k].boxes, WindowOf(q, fs, k)) && !Fails(q, fs, k);
      DividesByZeroIff(fs[k].boxes, WindowOf(q, fs, k));
      FedScalesAreOk(fs[k].boxes, WindowOf(q, fs, k));
    }
  }

  /** Across segments too, each track is fed in order. */
  ghost predicate FedInOrder(q: Query, fs: seq<File>, n: nat)
    requires n <= |fs|
  {
    forall i: nat | i < |q.timeScales| :: NonDecreasing(FedOf(q, fs, n, i))
  }

  /** From the files on disk to the file sent: for every track with something visible both muxers write what the
      joined segments feed, from the latest sync sample at or before the first visible one, wherever among the
      segments that lies. */
  lemma SeekSelects(q: Query, fs: seq<File>, n: nat, i: nat, v: int, k: int)
    requires n <= |fs| && i < |q.timeScales| && EachInOrder(q, fs, n) && FedInOrder(q, fs, n)
    requires IsFirstVisible(FedOf(q, fs, n, i), v) && IsStart(FedOf(q, fs, n, i), v, k)
    ensures var ops, fed := CallsOf(q, fs, n), InputPayloads(FedOf(q, fs, n, i));
            && (forall j | 0 <= j < |ops| :: ops[j].track < |q.timeScales|)
            && var m := Run(NewMuxer(q.timeScales), ops);
            var f := if m.Ok? then InnerFlush(m.value, true) else NoSegmentsFound;
            && f.Ok? && Payloads(Written(LogOf(f.value.parts, i))) == fed[k..]
            && Payloads(Mp4Run(|q.timeScales|, ops)[i].samples) == fed[k..]
  {
    CallsAreOk(q, fs, n);
    CallsInOrder(q, fs, n);
    CallsFeed(q, fs, n, i);
    hide CallsOf, FedOf, ScaleOk, Run, NewMuxer, InnerFlush, Mp4Run, IsFirstVisible, IsStart;
    MuxersSelectTheSame(q.timeScales, CallsOf(q, fs, n), i, v, k);
  }

  lemma CallsInOrder(q: Query, fs: seq<File>, n: nat)
    requires n <= |fs| && EachInOrder(q, fs, n) && FedInOrder(q, fs, n)
    ensures TracksInOrder(CallsOf(q, fs, n), |q.timeScales|)
  {
    hide NonDecreasing, EachInOrder;
    forall i: nat | i < |q.timeScales| ensures NonDecreasing(Inputs(CallsOf(q, fs, n), i)) {
      CallsFeed(q, fs, n, i);
    }
  }

  // ----- recordings

  /** Consecutive files of one recording are all joined, whatever the clocks in their names say. */
  lemma RecordedFilesAllJoin(q: Query, fs: seq<File>, r: R.Rec, streamID: int, tracks: seq<J.InitTrack>, first: nat)
    requires L.SegmentsOk(r) && fs != [] && first + |fs| <= |R.Closed(r)|
    requires forall k: nat | k < |fs| :: fs[k].header == J.HeaderOf(R.Closed(r)[first + k], streamID, tracks)
    ensures JoinedFrom(q, fs, 1) == |fs|
  {
    hide Play, L.SegmentsOk;
    forall k: nat | 0 < k < |fs| ensures Joins(q, fs, k) {
      var end := fs[k - 1].start + PlayOf(q, fs, k - 1).segmentDuration;
      assert fs[k - 1].header == J.HeaderOf(R.Closed(r)[first + (k - 1)], streamID, tracks);
      J.FilesJoinIff(r, streamID, tracks, first + (k - 1), first + k, end, fs[k].start);
    }
  }

  /** And nothing at or past the requested end is ever fed, by any segment. */
  lemma {:induction false} NothingPastTheEnd(q: Query, fs: seq<File>, n: nat, i: nat)
    requires n <= |fs| && i < |q.timeScales|
    ensures forall j | 0 <= j < |FedOf(q, fs, n, i)| ::
              FedOf(q, fs, n, i)[j].dts < DurationGoToMp4(q.duration, q.timeScales[i])
  {
    hide DurationGoToMp4, AllSamples, StopIndex;
    if n > 0 {
      NothingPastTheEnd(q, fs, n - 1, i);
      var w, bs := WindowOf(q, fs, n - 1), fs[n - 1].boxes;
      BeforeIsBefore(AllSamples(bs[..StopIndex(bs, w, 0)], w, i), EndOf(w, i));
    }
  }

  lemma {:induction false} BeforeIsBefore(xs: seq<Sample>, end: int)
    ensures forall j | 0 <= j < |Before(xs, end)| :: Before(xs, end)[j].dts < end
  {
    if xs != [] {
      BeforeIsBefore(xs[..|xs| - 1], end);
    }
  }
}
