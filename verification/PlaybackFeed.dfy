/** The loop that reads a recorded segment and feeds a muxer (`segmentFMP4MuxParts` of
    internal/playback/segment_fmp4.go), as the list of calls it makes, and what playback as a whole
    selects from a segment. */
module PlaybackFeed {
  import opened GoArith
  import opened Playback
  import opened PlaybackMp4

  datatype Entry = Entry(duration: nat, ptsOffset: int, nonSync: bool, payload: nat)

  /** The boxes the walk reacts to, in file order; a track fragment carries its track, the base time of
      its `tfdt` and the entries of its `trun`. */
  datatype Box = Traf(track: nat, baseTime: int, entries: seq<Entry>) | Mdat

  /** What was asked for: how far the segment starts after the requested start (negative if it started
      before), and for how long. */
  datatype Window = Window(startDTS: int, duration: int, timeScales: seq<nat>)

  function EndOf(w: Window, i: nat): int
    requires i < |w.timeScales|
  {
    DurationGoToMp4(w.duration, w.timeScales[i])
  }

  function BaseOf(w: Window, i: nat, baseTime: int): int
    requires i < |w.timeScales|
  {
    baseTime + DurationGoToMp4(w.startDTS, w.timeScales[i])
  }

  // ----- one fragment

  function Elapsed(es: seq<Entry>): nat {
    if es == [] then 0 else Elapsed(es[..|es| - 1]) + es[|es| - 1].duration
  }

  function DtsAt(base: int, es: seq<Entry>, i: nat): int
    requires i <= |es|
  {
    base + Elapsed(es[..i])
  }

  lemma DtsNext(base: int, es: seq<Entry>, i: nat)
    requires i < |es|
    ensures DtsAt(base, es, i + 1) == DtsAt(base, es, i) + es[i].duration
  {
    assert es[..i + 1][..i] == es[..i];
  }

  /** How many entries from `i` on come before the end. */
  function TakenFrom(base: int, es: seq<Entry>, end: int, i: nat): (k: nat)
    requires i <= |es|
    ensures i <= k <= |es|
    ensures forall j: nat | i <= j < k :: DtsAt(base, es, j) < end
    ensures k < |es| ==> DtsAt(base, es, k) >= end
    decreases |es| - i
  {
    if i == |es| || DtsAt(base, es, i) >= end then i else TakenFrom(base, es, end, i + 1)
  }

  function SampleAt(base: int, es: seq<Entry>, i: nat): Sample
    requires i < |es|
  {
    Sample(DtsAt(base, es, i), es[i].ptsOffset, es[i].nonSync, es[i].payload)
  }

  /** The first `k` entries as samples. */
  function SamplesOf(base: int, es: seq<Entry>, k: nat): (r: seq<Sample>)
    requires k <= |es|
    ensures |r| == k
    ensures forall i: nat | i < k :: r[i] == SampleAt(base, es, i)
  {
    seq(k, i requires 0 <= i < k => SampleAt(base, es, i))
  }

  function Puts(track: nat, xs: seq<Sample>): (r: seq<Op>)
    ensures |r| == |xs|
    ensures forall i | 0 <= i < |r| :: r[i] == PutOp(track, xs[i])
  {
    seq(|xs|, i requires 0 <= i < |xs| => PutOp(track, xs[i]))
  }

  // ----- the walk

  datatype Feed = Feed(ops: seq<Op>, breakAtNextMdat: bool, terminated: bool, invalidTrack: bool)

  const START := Feed([], false, false, false)

  predicate KnownTracks(ops: seq<Op>, n: nat) {
    forall j | 0 <= j < |ops| :: ops[j].track < n
  }

  function Step(f: Feed, b: Box, w: Window): Feed {
    if f.terminated || f.invalidTrack then f
    else
      match b
      case Mdat => f.(terminated := f.breakAtNextMdat)
      case Traf(i, baseTime, es) =>
        if i >= |w.timeScales| then f.(invalidTrack := true)
        else
          var base := BaseOf(w, i, baseTime);
          var k := TakenFrom(base, es, EndOf(w, i), 0);
          f.(ops := f.ops + Puts(i, SamplesOf(base, es, k)) + [FinalOp(i, DtsAt(base, es, k))],
             breakAtNextMdat := f.breakAtNextMdat || k < |es|)
  }

  function Walk(bs: seq<Box>, w: Window): (f: Feed)
    ensures KnownTracks(f.ops, |w.timeScales|)
  {
    if bs == [] then START else Step(Walk(bs[..|bs| - 1], w), bs[|bs| - 1], w)
  }

  method MuxTrun(track: nat, base: int, es: seq<Entry>, end: int, before: seq<Op>)
    returns (ops: seq<Op>, atEnd: bool, dts: int)
    ensures var k := TakenFrom(base, es, end, 0);
            && ops == before + Puts(track, SamplesOf(base, es, k)) + [FinalOp(track, DtsAt(base, es, k))]
            && atEnd == (k < |es|) && dts == DtsAt(base, es, k)
  {
    ops := before;
    atEnd := false;
    dts := base;
    var n := 0;
    while n < |es|
      invariant 0 <= n <= |es| && dts == DtsAt(base, es, n) && !atEnd
      invariant TakenFrom(base, es, end, n) == TakenFrom(base, es, end, 0)
      invariant ops == before + Puts(track, SamplesOf(base, es, n))
      decreases |es| - n
    {
      if dts >= end {
        atEnd := true;
        break;
      }
      var e := es[n];
      ops := ops + [PutOp(track, Sample(dts, e.ptsOffset, e.nonSync, e.payload))];
      assert Puts(track, SamplesOf(base, es, n + 1))
          == Puts(track, SamplesOf(base, es, n)) + [PutOp(track, SampleAt(base, es, n))];
      DtsNext(base, es, n);
      dts := dts + e.duration;
      n := n + 1;
    }
    ops := ops + [FinalOp(track, dts)];
  }

  // ----- what reaches the muxer

  /** Everything a segment holds for one track, however late. */
  function AllSamples(bs: seq<Box>, w: Window, i: nat): seq<Sample>
    requires i < |w.timeScales|
  {
    if bs == [] then []
    else
      var b := bs[|bs| - 1];
      AllSamples(bs[..|bs| - 1], w, i)
      + if b.Traf? && b.track == i then SamplesOf(BaseOf(w, i, b.baseTime), b.entries, |b.entries|) else []
  }

  lemma PutsNext(track: nat, p: seq<Sample>, x: Sample)
    ensures Puts(track, p + [x]) == Puts(track, p) + [PutOp(track, x)]
  {
  }

  lemma {:induction false} InputsConcat(a: seq<Op>, b: seq<Op>, i: nat)
    ensures Inputs(a + b, i) == Inputs(a, i) + Inputs(b, i)
  {
    if b == [] {
      assert a + b == a;
    } else {
      assert (a + b)[..|a + b| - 1] == a + b[..|b| - 1];
      InputsConcat(a, b[..|b| - 1], i);
    }
  }

  lemma {:induction false} InputsOfPutsAlone(track: nat, xs: seq<Sample>, i: nat)
    ensures Inputs(Puts(track, xs), i) == if track == i then xs else []
  {
    if xs != [] {
      var p, x := xs[..|xs| - 1], xs[|xs| - 1];
      assert xs == p + [x];
      InputsOfPutsAlone(track, p, i);
      PutsNext(track, p, x);
      InputsNext(Puts(track, p), PutOp(track, x), i);
    }
  }

  lemma InputsOfPuts(ops: seq<Op>, track: nat, xs: seq<Sample>, i: nat)
    ensures Inputs(ops + Puts(track, xs), i) == Inputs(ops, i) + if track == i then xs else []
  {
    InputsConcat(ops, Puts(track, xs), i);
    InputsOfPutsAlone(track, xs, i);
  }

  /** What one step gives to track `i`. */
  lemma InputsOfStep(f: Feed, b: Box, w: Window, i: nat)
    requires !f.terminated && !f.invalidTrack && b.Traf? && b.track < |w.timeScales|
    ensures var base := BaseOf(w, b.track, b.baseTime);
            var k := TakenFrom(base, b.entries, EndOf(w, b.track), 0);
            Inputs(Step(f, b, w).ops, i) ==
            Inputs(f.ops, i) + if b.track == i then SamplesOf(base, b.entries, k) else []
  {
    var base := BaseOf(w, b.track, b.baseTime);
    var k := TakenFrom(base, b.entries, EndOf(w, b.track), 0);
    var xs := SamplesOf(base, b.entries, k);
    InputsOfPuts(f.ops, b.track, xs, i);
    InputsNext(f.ops + Puts(b.track, xs), FinalOp(b.track, DtsAt(base, b.entries, k)), i);
  }

  /** A track got a prefix of its samples, all before the end; if it lacks some, the walk saw the end
      or an unknown track, and while it goes on everything lacking is at or past the end. */
  ghost predicate FedOk(f: Feed, xs: seq<Sample>, all: seq<Sample>, end: int) {
    && |xs| <= |all| && xs == all[..|xs|]
    && (forall j | 0 <= j < |xs| :: xs[j].dts < end)
    && (|xs| < |all| ==> f.breakAtNextMdat || f.invalidTrack)
    && (f.terminated ==> f.breakAtNextMdat)
    && (|xs| < |all| && !f.terminated && !f.invalidTrack ==> all[|xs|].dts >= end)
  }

  lemma FedNext(xs: seq<Sample>, all: seq<Sample>, more: seq<Sample>, k: nat, end: int)
    requires |xs| <= |all| && xs == all[..|xs|] && (|xs| < |all| ==> all[|xs|].dts >= end)
    requires NonDecreasing(all + more) && k <= |more| && (k < |more| ==> more[k].dts >= end)
    requires forall j | 0 <= j < k :: more[j].dts < end
    ensures var xs', all' := xs + more[..k], all + more;
            && |xs'| <= |all'| && xs' == all'[..|xs'|]
            && (|xs'| < |all'| ==> all'[|xs'|].dts >= end)
            && (|xs'| < |all'| ==> |xs| < |all| || k < |more|)
  {
    var all' := all + more;
    if |xs| < |all| {
      assert all'[|xs|] == all[|xs|];
      assert more != [] ==> all'[|all|] == more[0];
      assert k == 0;
      assert xs + more[..k] == xs;
      assert all'[..|xs|] == all[..|xs|];
    } else {
      assert all[..|xs|] == all;
      assert all'[..|xs| + k] == all + more[..k];
    }
  }

  /** Of every track the muxer gets a prefix of what the segment holds, and nothing at or past the
      requested end. */
  lemma {:induction false} FedIsPrefix(bs: seq<Box>, w: Window, i: nat)
    requires i < |w.timeScales| && NonDecreasing(AllSamples(bs, w, i))
    ensures FedOk(Walk(bs, w), Inputs(Walk(bs, w).ops, i), AllSamples(bs, w, i), EndOf(w, i))
  {
    if bs != [] {
      var p, b := bs[..|bs| - 1], bs[|bs| - 1];
      var all, all' := AllSamples(p, w, i), AllSamples(bs, w, i);
      assert NonDecreasing(all) by { PrefixInOrder(all, all'); }
      FedIsPrefix(p, w, i);
      FedStep(Walk(p, w), b, w, i, all, all');
    }
  }

  lemma PrefixInOrder(xs: seq<Sample>, ys: seq<Sample>)
    requires NonDecreasing(ys) && |xs| <= |ys| && xs == ys[..|xs|]
    ensures NonDecreasing(xs)
  {
    forall i, j | 0 <= i < j < |xs| ensures xs[i].dts <= xs[j].dts {
      assert xs[i] == ys[i] && xs[j] == ys[j];
    }
  }

  function Held(b: Box, w: Window, i: nat): seq<Sample>
    requires i < |w.timeScales|
  {
    if b.Traf? && b.track == i then SamplesOf(BaseOf(w, i, b.baseTime), b.entries, |b.entries|) else []
  }

  lemma FedStep(f: Feed, b: Box, w: Window, i: nat, all: seq<Sample>, all': seq<Sample>)
    requires i < |w.timeScales| && NonDecreasing(all')
    requires FedOk(f, Inputs(f.ops, i), all, EndOf(w, i)) && all' == all + Held(b, w, i)
    ensures FedOk(Step(f, b, w), Inputs(Step(f, b, w).ops, i), all', EndOf(w, i))
  {
    hide BaseOf, EndOf, DtsAt, NonDecreasing, Inputs;
    var xs, end := Inputs(f.ops, i), EndOf(w, i);
    if f.terminated || f.invalidTrack || b.Mdat? || b.track >= |w.timeScales| {
      assert xs == all'[..|xs|];
    } else {
      InputsOfStep(f, b, w, i);
      if b.track == i {
        var base, es := BaseOf(w, i, b.baseTime), b.entries;
        var k := TakenFrom(base, es, end, 0);
        var more := SamplesOf(base, es, |es|);
        assert more[..k] == SamplesOf(base, es, k);
        FedNext(xs, all, more, k, end);
      } else {
        assert all' == all;
      }
    }
  }

  // ----- whether everything before the end is fed

  /** A fragment of a known track with an entry at or past the end. */
  predicate IsCut(b: Box, w: Window) {
    b.Traf? && b.track < |w.timeScales|
    && TakenFrom(BaseOf(w, b.track, b.baseTime), b.entries, EndOf(w, b.track), 0) < |b.entries|
  }

  /** The walk stops at an unknown track, or at the first media data after a cut fragment, whichever track
      was cut. */
  predicate StopsAt(bs: seq<Box>, w: Window, k: nat)
    requires k < |bs|
  {
    || (bs[k].Traf? && bs[k].track >= |w.timeScales|)
    || (bs[k].Mdat? && exists j :: 0 <= j < k && IsCut(bs[j], w))
  }

  function StopIndex(bs: seq<Box>, w: Window, k: nat): (n: nat)
    requires k <= |bs|
    ensures k <= n <= |bs|
    ensures forall j: nat | k <= j < n :: !StopsAt(bs, w, j)
    ensures n < |bs| ==> StopsAt(bs, w, n)
    decreases |bs| - k
  {
    if k == |bs| || StopsAt(bs, w, k) then k else StopIndex(bs, w, k + 1)
  }

  predicate Stopped(f: Feed) {
    f.terminated || f.invalidTrack
  }

  lemma WalkNext(bs: seq<Box>, w: Window, k: nat)
    requires k < |bs|
    ensures Walk(bs[..k + 1], w) == Step(Walk(bs[..k], w), bs[k], w)
  {
    assert bs[..k + 1][..k] == bs[..k];
  }

  /** One box after a walk that has not stopped. */
  lemma StepStops(f: Feed, b: Box, w: Window)
    requires !Stopped(f)
    ensures Stopped(Step(f, b, w)) <==> (b.Traf? && b.track >= |w.timeScales|) || (b.Mdat? && f.breakAtNextMdat)
    ensures !Stopped(Step(f, b, w)) ==> (Step(f, b, w).breakAtNextMdat <==> f.breakAtNextMdat || IsCut(b, w))
    ensures Stopped(Step(f, b, w)) ==> Step(f, b, w).ops == f.ops
  {
    hide TakenFrom, SamplesOf, Puts;
  }

  lemma {:induction false} RunsOnUntil(bs: seq<Box>, w: Window, k: nat)
    requires k <= |bs| && forall j: nat | j < k :: !StopsAt(bs, w, j)
    ensures !Stopped(Walk(bs[..k], w))
    ensures Walk(bs[..k], w).breakAtNextMdat <==> exists j :: 0 <= j < k && IsCut(bs[j], w)
  {
    hide IsCut, Step;
    if k > 0 {
      RunsOnUntil(bs, w, k - 1);
      WalkNext(bs, w, k - 1);
      StepStops(Walk(bs[..k - 1], w), bs[k - 1], w);
      assert !StopsAt(bs, w, k - 1);
    }
  }

  lemma {:induction false} StaysStopped(bs: seq<Box>, w: Window, k: nat, n: nat)
    requires k <= n <= |bs| && Stopped(Walk(bs[..k], w))
    ensures Walk(bs[..n], w) == Walk(bs[..k], w)
  {
    if k < n {
      StaysStopped(bs, w, k, n - 1);
      WalkNext(bs, w, n - 1);
    }
  }

  /** The calls of a walk are those of the boxes up to where it stops. */
  lemma CallsUntilStop(bs: seq<Box>, w: Window)
    ensures Walk(bs, w).ops == Walk(bs[..StopIndex(bs, w, 0)], w).ops
    ensures !Stopped(Walk(bs[..StopIndex(bs, w, 0)], w))
  {
    hide IsCut, Step;
    var n := StopIndex(bs, w, 0);
    RunsOnUntil(bs, w, n);
    if n < |bs| {
      WalkNext(bs, w, n);
      StepStops(Walk(bs[..n], w), bs[n], w);
      StaysStopped(bs, w, n + 1, |bs|);
    }
    assert bs[..|bs|] == bs;
  }

  function Before(xs: seq<Sample>, end: int): seq<Sample> {
    if xs == [] then []
    else Before(xs[..|xs| - 1], end) + if xs[|xs| - 1].dts < end then [xs[|xs| - 1]] else []
  }

  lemma {:induction false} BeforeConcat(a: seq<Sample>, b: seq<Sample>, end: int)
    ensures Before(a + b, end) == Before(a, end) + Before(b, end)
  {
    if b == [] {
      assert a + b == a;
    } else {
      assert (a + b)[..|a + b| - 1] == a + b[..|b| - 1];
      BeforeConcat(a, b[..|b| - 1], end);
    }
  }

  lemma {:induction false} AllBefore(xs: seq<Sample>, end: int)
    requires forall j | 0 <= j < |xs| :: xs[j].dts < end
    ensures Before(xs, end) == xs
  {
    if xs != [] {
      AllBefore(xs[..|xs| - 1], end);
      assert xs == xs[..|xs| - 1] + [xs[|xs| - 1]];
    }
  }

  lemma {:induction false} NoneBeforeIff(xs: seq<Sample>, end: int)
    ensures Before(xs, end) == [] <==> forall j | 0 <= j < |xs| :: xs[j].dts >= end
  {
    if xs != [] {
      var p := xs[..|xs| - 1];
      NoneBeforeIff(p, end);
      assert forall j | 0 <= j < |p| :: p[j] == xs[j];
    }
  }

  lemma {:induction false} AllSamplesConcat(a: seq<Box>, b: seq<Box>, w: Window, i: nat)
    requires i < |w.timeScales|
    ensures AllSamples(a + b, w, i) == AllSamples(a, w, i) + AllSamples(b, w, i)
  {
    hide SamplesOf, BaseOf;
    if b == [] {
      assert a + b == a;
    } else {
      assert (a + b)[..|a + b| - 1] == a + b[..|b| - 1];
      AllSamplesConcat(a, b[..|b| - 1], w, i);
    }
  }

  /** A track that has not met the end of the walk got everything before its own end. */
  lemma FedIsBefore(f: Feed, xs: seq<Sample>, all: seq<Sample>, end: int)
    requires FedOk(f, xs, all, end) && !Stopped(f) && NonDecreasing(all)
    ensures Before(all, end) == xs
  {
    var rest := all[|xs|..];
    assert all == xs + rest;
    AllBefore(xs, end);
    forall j | 0 <= j < |rest| ensures rest[j].dts >= end {
      assert rest[j] == all[|xs| + j];
    }
    NoneBeforeIff(rest, end);
    BeforeConcat(xs, rest, end);
  }

  lemma SplitAt(bs: seq<Box>, w: Window, i: nat, k: nat)
    requires i < |w.timeScales| && k <= |bs|
    ensures AllSamples(bs, w, i) == AllSamples(bs[..k], w, i) + AllSamples(bs[k..], w, i)
  {
    assert bs == bs[..k] + bs[k..];
    AllSamplesConcat(bs[..k], bs[k..], w, i);
  }

  lemma FedBeforeStop(bs: seq<Box>, w: Window, i: nat, k: nat)
    requires i < |w.timeScales| && NonDecreasing(AllSamples(bs, w, i)) && k <= |bs|
    requires !Stopped(Walk(bs[..k], w)) && Walk(bs, w).ops == Walk(bs[..k], w).ops
    ensures Inputs(Walk(bs, w).ops, i) == Before(AllSamples(bs[..k], w, i), EndOf(w, i))
  {
    hide Step, SamplesOf, FedOk, NonDecreasing, Stopped, EndOf;
    SplitAt(bs, w, i, k);
    PrefixInOrder(AllSamples(bs[..k], w, i), AllSamples(bs, w, i));
    FedIsPrefix(bs[..k], w, i);
    FedIsBefore(Walk(bs[..k], w), Inputs(Walk(bs[..k], w).ops, i), AllSamples(bs[..k], w, i), EndOf(w, i));
  }

  /** A muxer is fed exactly the samples of a track that come before the end, among the boxes up to where
      the walk stops. */
  lemma FedUntilStop(bs: seq<Box>, w: Window, i: nat)
    requires i < |w.timeScales| && NonDecreasing(AllSamples(bs, w, i))
    ensures var k := StopIndex(bs, w, 0);
            Inputs(Walk(bs, w).ops, i) == Before(AllSamples(bs[..k], w, i), EndOf(w, i))
  {
    CallsUntilStop(bs, w);
    FedBeforeStop(bs, w, i, StopIndex(bs, w, 0));
  }

  predicate NothingBefore(xs: seq<Sample>, end: int) {
    forall j | 0 <= j < |xs| :: xs[j].dts >= end
  }

  lemma SplitIff(xs: seq<Sample>, head: seq<Sample>, rest: seq<Sample>, end: int)
    requires xs == Before(head, end)
    ensures xs == Before(head + rest, end) <==> NothingBefore(rest, end)
  {
    BeforeConcat(head, rest, end);
    NoneBeforeIff(rest, end);
  }

  /** All samples of a track before the end are fed if and only if none of them lies beyond the place where
      the walk stops. */
  lemma AllBeforeEndFedIff(bs: seq<Box>, w: Window, i: nat, k: nat)
    requires i < |w.timeScales| && NonDecreasing(AllSamples(bs, w, i)) && k == StopIndex(bs, w, 0)
    ensures Inputs(Walk(bs, w).ops, i) == Before(AllSamples(bs, w, i), EndOf(w, i))
       <==> NothingBefore(AllSamples(bs[k..], w, i), EndOf(w, i))
  {
    FedUntilStop(bs, w, i);
    SplitAt(bs, w, i, k);
    hide NothingBefore, NonDecreasing, EndOf, StopIndex;
    SplitIff(Inputs(Walk(bs, w).ops, i), AllSamples(bs[..k], w, i), AllSamples(bs[k..], w, i), EndOf(w, i));
  }

  /** Which can happen: one track reaches the requested end in the first fragment, and the sample of the
      other at time zero, in the second fragment, is never fed. */
  lemma OtherTracksEndLosesSamples(w: Window, bs: seq<Box>, e: Entry, d: Entry)
    requires w == Window(0, SECOND, [1, 1]) && bs == [Traf(0, 1, [e]), Mdat, Traf(1, 0, [d]), Mdat]
    ensures AllSamples(bs, w, 1) == [Sample(0, d.ptsOffset, d.nonSync, d.payload)] && EndOf(w, 1) == 1
    ensures Inputs(Walk(bs, w).ops, 1) == []
  {
    OneSecondWindow(w);
    OnlyThird(bs, w, d);
    hide EndOf, BaseOf, Walk;
    CutAtOnce(bs[0].entries, e);
    assert IsCut(bs[0], w);
    assert StopsAt(bs, w, 1);
    var k := StopIndex(bs, w, 0);
    FedUntilStop(bs, w, 1);
    assert k <= 1;
    assert bs[..1][..0] == [] && bs[..0] == [];
    assert AllSamples(bs[..0], w, 1) == [];
    assert AllSamples(bs[..1], w, 1) == [];
  }

  lemma CutAtOnce(es: seq<Entry>, e: Entry)
    requires es == [e]
    ensures TakenFrom(1, es, 1, 0) == 0
  {
    assert es[..0] == [] && Elapsed([]) == 0;
    assert DtsAt(1, es, 0) == 1;
  }

  lemma OneSecondWindow(w: Window)
    requires w == Window(0, SECOND, [1, 1])
    ensures EndOf(w, 0) == EndOf(w, 1) == 1 && BaseOf(w, 0, 1) == 1 && BaseOf(w, 1, 0) == 0
  {
  }

  lemma OnlyThird(bs: seq<Box>, w: Window, d: Entry)
    requires |w.timeScales| == 2 && BaseOf(w, 1, 0) == 0
    requires |bs| == 4 && bs[0].Traf? && bs[0].track == 0 && bs[1] == bs[3] == Mdat && bs[2] == Traf(1, 0, [d])
    ensures AllSamples(bs, w, 1) == [Sample(0, d.ptsOffset, d.nonSync, d.payload)]
  {
    hide BaseOf;
    assert bs[..3][..2] == bs[..2] && bs[..2][..1] == bs[..1] && bs[..1][..0] == [];
    assert AllSamples(bs[..0], w, 1) == [];
    assert AllSamples(bs[..1], w, 1) == [];
    assert AllSamples(bs[..2], w, 1) == [];
    assert [d][..0] == [] && Elapsed([]) == 0;
    assert SamplesOf(0, [d], 1) == [SampleAt(0, [d], 0)];
    assert AllSamples(bs[..3], w, 1) == SamplesOf(0, [d], 1);
  }

  // ----- how long the segment lasted, and when that cannot be told

  /** The walk also keeps the longest time any fragment reached, converted from ticks, for which it divides by
      the time scale. */
  datatype Played = Played(feed: Feed, segmentDuration: int, dividedByZero: bool)

  /** The time a fragment reached, counted from the start of the segment. */
  function Reached(b: Box, w: Window): int
    requires b.Traf? && b.track < |w.timeScales| && w.timeScales[b.track] > 0
  {
    var base := BaseOf(w, b.track, b.baseTime);
    var dts := DtsAt(base, b.entries, TakenFrom(base, b.entries, EndOf(w, b.track), 0));
    DurationMp4ToGo(dts - DurationGoToMp4(w.startDTS, w.timeScales[b.track]), w.timeScales[b.track])
  }

  predicate IsKnown(b: Box, w: Window) {
    b.Traf? && b.track < |w.timeScales|
  }

  predicate ZeroScale(b: Box, w: Window) {
    IsKnown(b, w) && w.timeScales[b.track] == 0
  }

  function PlayStep(p: Played, b: Box, w: Window): Played {
    if p.dividedByZero || Stopped(p.feed) then p
    else if ZeroScale(b, w) then Played(Step(p.feed, b, w), p.segmentDuration, true)
    else if IsKnown(b, w) then Played(Step(p.feed, b, w), Max(p.segmentDuration, Reached(b, w)), false)
    else p.(feed := Step(p.feed, b, w))
  }

  function Play(bs: seq<Box>, w: Window): (p: Played)
    ensures KnownTracks(p.feed.ops, |w.timeScales|)
  {
    if bs == [] then Played(START, 0, false) else PlayStep(Play(bs[..|bs| - 1], w), bs[|bs| - 1], w)
  }

  lemma PlayNext(bs: seq<Box>, w: Window, n: nat)
    requires n < |bs|
    ensures Play(bs[..n + 1], w) == PlayStep(Play(bs[..n], w), bs[n], w)
  {
    assert bs[..n + 1][..n] == bs[..n];
  }

  /** A fragment of a track with time scale zero is among the first `n` boxes that are read. */
  ghost predicate ReadsZeroScale(bs: seq<Box>, w: Window, n: nat)
    requires n <= |bs|
  {
    exists k: nat :: k < n && k < StopIndex(bs, w, 0) && ZeroScale(bs[k], w)
  }

  /** Where the walk is when it has not stopped. */
  lemma NotStoppedMeansBefore(bs: seq<Box>, w: Window, n: nat)
    requires n <= |bs|
    ensures !Stopped(Walk(bs[..n], w)) <==> n <= StopIndex(bs, w, 0)
  {
    hide IsCut, Step;
    var k := StopIndex(bs, w, 0);
    if n <= k {
      RunsOnUntil(bs, w, n);
    } else {
      RunsOnUntil(bs, w, k);
      WalkNext(bs, w, k);
      StepStops(Walk(bs[..k], w), bs[k], w);
      StaysStopped(bs, w, k + 1, n);
    }
  }

  lemma {:induction false} PlayIsWalk(bs: seq<Box>, w: Window, n: nat)
    requires n <= |bs|
    ensures Play(bs[..n], w).dividedByZero <==> ReadsZeroScale(bs, w, n)
    ensures !ReadsZeroScale(bs, w, n) ==> Play(bs[..n], w).feed == Walk(bs[..n], w)
  {
    hide Step, StopIndex, Reached;
    if n > 0 {
      var m := n - 1;
      PlayIsWalk(bs, w, m);
      PlayNext(bs, w, m);
      WalkNext(bs, w, m);
      NotStoppedMeansBefore(bs, w, m);
      StopIsNoZeroScale(bs, w);
      if Stopped(Walk(bs[..m], w)) {
        StaysStopped(bs, w, m, n);
      }
    }
  }

  lemma StopIsNoZeroScale(bs: seq<Box>, w: Window)
    ensures StopIndex(bs, w, 0) < |bs| ==> !ZeroScale(bs[StopIndex(bs, w, 0)], w)
  {
    hide IsCut;
  }

  /** The walk fails with a division by zero if and only if it reads a fragment of a track with time scale zero
      before it stops; otherwise it makes the calls told above. */
  lemma DividesByZeroIff(bs: seq<Box>, w: Window)
    ensures Play(bs, w).dividedByZero <==> ReadsZeroScale(bs, w, |bs|)
    ensures !Play(bs, w).dividedByZero ==> Play(bs, w).feed == Walk(bs, w)
  {
    PlayIsWalk(bs, w, |bs|);
    assert bs[..|bs|] == bs;
  }

  /** One empty fragment of such a track is enough. */
  lemma ZeroScaleDivides(w: Window, bs: seq<Box>)
    requires w.timeScales == [0] && bs == [Traf(0, 0, [])]
    ensures Play(bs, w).dividedByZero
  {
    hide Step;
    assert bs[..0] == [] && Play([], w) == Played(START, 0, false);
  }

  /** Without a failure the segment duration is the longest time any fragment that was read reached, or zero. */
  lemma {:induction false} SegmentDurationIsLongest(bs: seq<Box>, w: Window, n: nat)
    requires n <= |bs| && !ReadsZeroScale(bs, w, |bs|)
    ensures var d := Play(bs[..n], w).segmentDuration;
            && (forall k: nat | k < n && k < StopIndex(bs, w, 0) && IsKnown(bs[k], w) ::
                  w.timeScales[bs[k].track] > 0 && Reached(bs[k], w) <= d)
            && (d == 0 || exists k: nat :: k < n && IsKnown(bs[k], w) && w.timeScales[bs[k].track] > 0
                                           && Reached(bs[k], w) == d)
  {
    hide Step, StopIndex, Reached;
    if n > 0 {
      var m := n - 1;
      SegmentDurationIsLongest(bs, w, m);
      PlayNext(bs, w, m);
      PlayIsWalk(bs, w, m);
      NotStoppedMeansBefore(bs, w, m);
      StopIsNoZeroScale(bs, w);
      assert m < StopIndex(bs, w, 0) ==> !ZeroScale(bs[m], w);
    }
  }

  /** The walk as the source runs it: boxes one by one, entries one by one, every call made at once. */
  method MuxParts(bs: seq<Box>, w: Window) returns (p: Played)
    ensures p == Play(bs, w)
  {
    hide PlayStep;
    p := Played(START, 0, false);
    for n := 0 to |bs|
      invariant p == Play(bs[..n], w)
    {
      PlayNext(bs, w, n);
      p := VisitBox(p, bs[n], w);
    }
    assert bs[..|bs|] == bs;
  }

  method VisitBox(before: Played, b: Box, w: Window) returns (p: Played)
    ensures p == PlayStep(before, b, w)
  {
    hide TakenFrom, SamplesOf, Puts, DtsAt, DurationGoToMp4, DurationMp4ToGo;
    p := before;
    var f := p.feed;
    if p.dividedByZero || f.terminated || f.invalidTrack {
      return;
    }
    match b {
      case Mdat =>
        if f.breakAtNextMdat {
          p := p.(feed := f.(terminated := true));
        }
      case Traf(i, baseTime, es) =>
        if i >= |w.timeScales| {
          p := p.(feed := f.(invalidTrack := true));
          return;
        }
        var start := DurationGoToMp4(w.startDTS, w.timeScales[i]);
        var ops, atEnd, dts := MuxTrun(i, baseTime + start, es, EndOf(w, i), f.ops);
        p := p.(feed := f.(ops := ops, breakAtNextMdat := f.breakAtNextMdat || atEnd));
        if w.timeScales[i] == 0 {
          p := p.(dividedByZero := true);
        } else {
          var elapsed := DurationMp4ToGo(dts - start, w.timeScales[i]);
          if elapsed > p.segmentDuration {
            p := p.(segmentDuration := elapsed);
          }
        }
    }
  }

  // ----- playback of a segment

  ghost predicate InOrder(bs: seq<Box>, w: Window) {
    forall i: nat | i < |w.timeScales| :: NonDecreasing(AllSamples(bs, w, i))
  }

  /** Nothing at or past the end of its track is ever fed, in whatever order a segment holds its samples. */
  lemma {:induction false} FedBelowEnd(bs: seq<Box>, w: Window)
    ensures forall j | 0 <= j < |Walk(bs, w).ops| && Walk(bs, w).ops[j].PutOp? ::
              Walk(bs, w).ops[j].sample.dts < EndOf(w, Walk(bs, w).ops[j].track)
  {
    hide EndOf, BaseOf;
    if bs != [] {
      FedBelowEnd(bs[..|bs| - 1], w);
    }
  }

  /** A track with time scale zero ends at zero, so nothing visible of it reaches a muxer. */
  lemma FedScalesAreOk(bs: seq<Box>, w: Window)
    ensures forall j | 0 <= j < |Walk(bs, w).ops| :: ScaleOk(Walk(bs, w).ops[j], w.timeScales)
  {
    FedBelowEnd(bs, w);
    forall i: nat | i < |w.timeScales| && w.timeScales[i] == 0 ensures EndOf(w, i) == 0 {
      NoTicksInZeroScale(w.duration);
    }
    hide EndOf, Walk;
  }

  lemma NoTicksInZeroScale(v: int)
    ensures DurationGoToMp4(v, 0) == 0
  {
    hide Quo, Rem;
    DurationIsExact(v, 0);
    QuoUnique(0, SECOND, 0);
  }

  /** Whatever the segment, the window and the time scales: no call of the walk on the incremental muxer reports
      that there are no segments. */
  lemma EveryWalkRuns(bs: seq<Box>, w: Window)
    requires InOrder(bs, w)
    ensures Run(NewMuxer(w.timeScales), Walk(bs, w).ops).Ok?
  {
    FedTracksAreInOrder(bs, w);
    FedScalesAreOk(bs, w);
    EveryRunSelects(w.timeScales, Walk(bs, w).ops);
  }

  lemma FedTracksAreInOrder(bs: seq<Box>, w: Window)
    requires InOrder(bs, w)
    ensures TracksInOrder(Walk(bs, w).ops, |w.timeScales|)
  {
    forall i: nat | i < |w.timeScales| ensures NonDecreasing(Inputs(Walk(bs, w).ops, i)) {
      FedIsPrefix(bs, w, i);
      PrefixInOrder(Inputs(Walk(bs, w).ops, i), AllSamples(bs, w, i));
    }
  }

  /** The whole path from a segment to a file: both muxers write, of every track with something
      visible, the samples from the latest sync sample at or before the first visible one up to the
      last one fed; those fed are a prefix of the recording: its samples before the end, up to where the
      walk stops, and all of it if the walk saw neither the end nor an unknown track. */
  lemma PlaybackSelects(bs: seq<Box>, w: Window, i: nat, v: int, k: int)
    requires InOrder(bs, w) && i < |w.timeScales|
    requires IsFirstVisible(Inputs(Walk(bs, w).ops, i), v) && IsStart(Inputs(Walk(bs, w).ops, i), v, k)
    ensures var f, all := Walk(bs, w), InputPayloads(AllSamples(bs, w, i));
            var n := |Inputs(f.ops, i)|;
            && k < n <= |all|
            && FedWritten(w, f.ops, i) == Ok(all[k..n])
            && Mp4Written(w, f.ops, i) == all[k..n]
            && (!f.breakAtNextMdat && !f.invalidTrack ==> n == |all|)
            && n == |Before(AllSamples(bs[..StopIndex(bs, w, 0)], w, i), EndOf(w, i))|
  {
    FedUntilStop(bs, w, i);
    var ops, xs := Walk(bs, w).ops, Inputs(Walk(bs, w).ops, i);
    FedTracksAreInOrder(bs, w);
    FedScalesAreOk(bs, w);
    FedIsPrefix(bs, w, i);
    MuxersSelectTheSame(w.timeScales, ops, i, v, k);
    PrefixPayloads(xs, AllSamples(bs, w, i), k);
  }

  lemma PrefixPayloads(xs: seq<Sample>, all: seq<Sample>, k: nat)
    requires k <= |xs| <= |all| && xs == all[..|xs|]
    ensures InputPayloads(xs)[k..] == InputPayloads(all)[k..|xs|]
  {
  }

  /** The payloads of one track in the file of the incremental muxer. */
  function FedWritten(w: Window, ops: seq<Op>, i: nat): Result<seq<nat>>
    requires KnownTracks(ops, |w.timeScales|)
  {
    var m := Run(NewMuxer(w.timeScales), ops);
    if m.NoSegmentsFound? then NoSegmentsFound
    else
      var f := InnerFlush(m.value, true);
      if f.NoSegmentsFound? then NoSegmentsFound else Ok(Payloads(Written(LogOf(f.value.parts, i))))
  }

  /** The payloads of one track in the file of the whole-file muxer. */
  function Mp4Written(w: Window, ops: seq<Op>, i: nat): seq<nat>
    requires KnownTracks(ops, |w.timeScales|)
    requires i < |w.timeScales|
  {
    Payloads(Mp4Run(|w.timeScales|, ops)[i].samples)
  }
}
