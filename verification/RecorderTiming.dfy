/** Decode times in a recording: no gaps, and a base-time error that does not grow. */
module RecorderTiming {
  import opened Wrappers
  import opened GoArith
  import opened Recorder
  import opened RecorderRuns
  import opened RecorderLaws

  // ----- late samples

  /** Per track and segment, all discards precede all writes. */
  lemma DiscardsPrecedeWrites(recv: seq<Sample>, log: seq<Fate>, segs: seq<Segment>, rate: int, k: nat, l: nat)
    requires rate > 0 && FatesOk(recv, log, segs, rate)
    requires k < l < |log| && log[k].segment == log[l].segment && log[l].late
    ensures log[k].late
  {
    RunMaxMonotone(recv, k, l);
    TimestampMonotone(RunMax(recv, k), RunMax(recv, l), rate);
  }

  // ----- gaps

  /** Each sample lasts until its successor starts, in the 32 bits a duration has. */
  predicate Gapless(s: seq<Stored>) {
    forall m | 0 <= m < |s| - 1 :: s[m].dts <= s[m + 1].dts && s[m].duration == Uint32(s[m + 1].dts - s[m].dts)
  }

  /** `s` are the samples `a`, `a + 1`, ... of the track, all written to segment `n`, and the next one
      met a later segment. */
  ghost predicate IsRun(recv: seq<Sample>, log: seq<Fate>, s: seq<Stored>, n: nat, a: nat)
    requires log == [] || |log| < |recv|
  {
    && a + |s| <= |log|
    && (forall m: nat | m < |s| :: s[m] == StoredAt(recv, a + m))
    && (forall k: nat | a <= k < a + |s| :: log[k] == Fate(n, false))
    && (s != [] && a + |s| < |log| ==> log[a + |s|].segment > n)
  }

  lemma RunGoesOn(recv: seq<Sample>, log: seq<Fate>, segs: seq<Segment>, rate: int, n: nat, s: seq<Stored>, a: nat)
    requires rate > 0 && FatesOk(recv, log, segs, rate) && log != [] && s != []
    requires IsRun(recv, log[..|log| - 1], s, n, a)
    ensures var q := |log| - 1;
            IsRun(recv, log, if log[q] == Fate(n, false) then s + [StoredAt(recv, q)] else s, n, a)
  {
    hide TimestampToDuration, StoredAt, RunMax;
    var q := |log| - 1;
    var b := a + |s|;
    forall k: nat | a <= k < b ensures log[k] == Fate(n, false) {
      assert log[..q][k] == log[k];
    }
    assert log[b - 1].segment <= log[q].segment;
    if b < q {
      assert log[b] == log[..q][b];
    } else if log[q] == Fate(n, true) {
      DiscardsPrecedeWrites(recv, log, segs, rate, b - 1, q);
    }
  }

  lemma RunStarts(recv: seq<Sample>, log: seq<Fate>, n: nat)
    requires log != [] && |log| < |recv|
    ensures var q := |log| - 1;
            log[q] == Fate(n, false) ==> IsRun(recv, log, [StoredAt(recv, q)], n, q)
    ensures IsRun(recv, log, [], n, 0)
  {
    hide StoredAt;
  }

  lemma FatesPrefix(recv: seq<Sample>, log: seq<Fate>, segs: seq<Segment>, rate: int)
    requires rate > 0 && FatesOk(recv, log, segs, rate) && log != []
    ensures FatesOk(recv, log[..|log| - 1], segs, rate)
  {
    hide TimestampToDuration, RunMax;
  }

  lemma SelectedLast(recv: seq<Sample>, log: seq<Fate>, n: nat)
    requires log != [] && |log| < |recv|
    ensures var q := |log| - 1;
            var s := Selected(recv, log[..q], n);
            Selected(recv, log, n) == if log[q] == Fate(n, false) then s + [StoredAt(recv, q)] else s
  {
    hide StoredAt;
  }

  lemma LogIsShort(recv: seq<Sample>, log: seq<Fate>, segs: seq<Segment>, rate: int)
    requires rate > 0 && FatesOk(recv, log, segs, rate)
    ensures log == [] || |log| < |recv|
  {
  }

  /** The samples of one track in one segment were received one right after the other. */
  lemma {:induction false} SelectedIsRun(recv: seq<Sample>, log: seq<Fate>, segs: seq<Segment>, rate: int, n: nat)
    returns (a: nat)
    requires rate > 0 && FatesOk(recv, log, segs, rate)
    ensures IsRun(recv, log, Selected(recv, log, n), n, a)
  {
    LogIsShort(recv, log, segs, rate);
    if log == [] {
      a := 0;
      NothingIsARun(recv, n);
    } else {
      hide FatesOk, IsRun, StoredAt;
      var q := |log| - 1;
      FatesPrefix(recv, log, segs, rate);
      a := SelectedIsRun(recv, log[..q], segs, rate, n);
      SelectedLast(recv, log, n);
      var s := Selected(recv, log[..q], n);
      if s == [] {
        RunStarts(recv, log, n);
        assert [] + [StoredAt(recv, q)] == [StoredAt(recv, q)];
        a := if log[q] == Fate(n, false) then q else 0;
      } else {
        RunGoesOn(recv, log, segs, rate, n, s, a);
      }
    }
  }

  lemma NothingIsARun(recv: seq<Sample>, n: nat)
    ensures IsRun(recv, [], Selected(recv, [], n), n, 0)
  {
  }

  lemma SegmentsAreGapless(t: Track, i: nat, segs: seq<Segment>, recv: seq<Sample>, log: seq<Fate>, n: nat)
    requires TrackOk(t, i, segs, recv, log) && n < |segs|
    ensures Gapless(InSegment(segs[n], i))
  {
    hide InSegment, Selected, FatesOk;
    var s := Selected(recv, log, n);
    var a := SelectedIsRun(recv, log, segs, t.clockRate, n);
    hide TrackOk;
    assert InSegment(segs[n], i) == s;
    forall m: nat | m < |s| - 1 ensures s[m].dts <= s[m + 1].dts && s[m].duration == Uint32(s[m + 1].dts - s[m].dts) {
      RunMaxMonotone(recv, a + m, a + m + 1);
      assert s[m] == StoredAt(recv, a + m) && s[m + 1] == StoredAt(recv, a + (m + 1));
    }
  }

  // ----- parts

  lemma {:induction false} PartIsSlice(ps: seq<Part>, q: nat, i: nat) returns (a: nat)
    requires q < |ps|
    ensures a + |InPart(ps[q], i)| <= |InParts(ps, i)|
    ensures InParts(ps, i)[a..a + |InPart(ps[q], i)|] == InPart(ps[q], i)
  {
    var n := |ps| - 1;
    if q == n {
      a := |InParts(ps[..n], i)|;
    } else {
      a := PartIsSlice(ps[..n], q, i);
      assert InParts(ps, i)[..|InParts(ps[..n], i)|] == InParts(ps[..n], i);
    }
  }

  lemma SegmentIsItsParts(g: Segment, i: nat)
    ensures InSegment(g, i) == InParts(AllParts(g), i)
  {
    if g.cur.Some? {
      assert AllParts(g)[..|g.parts|] == g.parts;
    } else {
      assert AllParts(g) == g.parts;
    }
  }

  lemma GaplessSlice(s: seq<Stored>, a: nat, b: nat)
    requires Gapless(s) && a <= b <= |s|
    ensures Gapless(s[a..b])
  {
    forall m | 0 <= m < b - a - 1
      ensures s[a..b][m].dts <= s[a..b][m + 1].dts && s[a..b][m].duration == Uint32(s[a..b][m + 1].dts - s[a..b][m].dts)
    {
      assert s[a..b][m] == s[a + m] && s[a..b][m + 1] == s[a + m + 1];
    }
  }

  // ----- decode times as a player computes them

  function SumDurations(s: seq<Stored>): int {
    if s == [] then 0 else SumDurations(s[..|s| - 1]) + s[|s| - 1].duration
  }

  predicate GapsFit(s: seq<Stored>) {
    forall m | 0 <= m < |s| - 1 :: s[m + 1].dts - s[m].dts < TWO32
  }

  lemma SumNext(s: seq<Stored>, k: nat)
    requires k < |s|
    ensures SumDurations(s[..k + 1]) == SumDurations(s[..k]) + s[k].duration
  {
    assert s[..k + 1][..k] == s[..k];
  }

  lemma {:induction false} SumOfFittingGaps(s: seq<Stored>, k: nat)
    requires Gapless(s) && GapsFit(s) && k < |s|
    ensures SumDurations(s[..k]) == s[k].dts - s[0].dts
  {
    if k > 0 {
      SumOfFittingGaps(s, k - 1);
      SumNext(s, k - 1);
    }
  }

  predicate KeepsTime(s: seq<Stored>) {
    forall k: nat | k < |s| :: SumDurations(s[..k]) == s[k].dts - s[0].dts
  }

  /** Durations reproduce all decode times of a part if and only if every gap fits 32 bits. */
  lemma KeepsTimeIff(s: seq<Stored>)
    requires Gapless(s)
    ensures KeepsTime(s) <==> GapsFit(s)
  {
    if GapsFit(s) {
      forall k: nat | k < |s| ensures SumDurations(s[..k]) == s[k].dts - s[0].dts {
        SumOfFittingGaps(s, k);
      }
    }
    if KeepsTime(s) {
      forall m | 0 <= m < |s| - 1 ensures s[m + 1].dts - s[m].dts < TWO32 {
        SumNext(s, m);
        assert SumDurations(s[..m + 1]) == s[m + 1].dts - s[0].dts;
        assert SumDurations(s[..m]) == s[m].dts - s[0].dts;
      }
    }
  }

  // ----- base times

  /** How far a base time is below the exact position of the sample in its segment, in ticks times
      10^9. */
  function TickError(base: int, dts: int, start: int, rate: int): int {
    SECOND * dts - start * rate - SECOND * base
  }

  lemma BaseTimeNonNegative(d: int, start: int, rate: int)
    requires rate > 0 && d >= start
    ensures BaseTime(d, start, rate) >= 0
  {
    ScalingIsExact(d - start, rate, SECOND);
    MulMonotone(rate, 0, d - start);
    RemBounds((d - start) * rate, SECOND);
  }

  /** The error splits into what converting ticks to nanoseconds lost and what converting back lost. */
  lemma ErrorSplits(dts: int, start: int, rate: int)
    requires rate > 0 && TimestampToDuration(dts, rate) >= start
    ensures var d := TimestampToDuration(dts, rate);
            && TickError(BaseTime(d, start, rate), dts, start, rate)
               == (SECOND * dts - rate * d) + Rem((d - start) * rate, SECOND)
            && 0 <= Rem((d - start) * rate, SECOND) < SECOND
            && (dts >= 0 ==> 0 <= SECOND * dts - rate * d < rate)
            && (dts <= 0 ==> -rate < SECOND * dts - rate * d <= 0)
  {
    hide Quo, Rem, TimestampToDuration, MultiplyAndDivide;
    var d := TimestampToDuration(dts, rate);
    TimestampIsExact(dts, rate);
    QuoBounds(dts * SECOND, rate);
    ScalingIsExact(d - start, rate, SECOND);
    MulMonotone(rate, 0, d - start);
    RemBounds((d - start) * rate, SECOND);
    assert (d - start) * rate == d * rate - start * rate;
  }

  /** For a clock of at most one tick per nanosecond the base time is never two ticks early, nor a whole
      tick late; for a non-negative decode time it is never late. */
  lemma BaseTimeError(dts: int, start: int, rate: int)
    requires 0 < rate <= SECOND && TimestampToDuration(dts, rate) >= start
    ensures var e := TickError(BaseTime(TimestampToDuration(dts, rate), start, rate), dts, start, rate);
            -SECOND < e < 2 * SECOND && (dts >= 0 ==> e >= 0)
  {
    ErrorSplits(dts, start, rate);
  }

  /** It is late exactly when truncating a negative decode time toward zero gained more than truncating
      the base time lost. */
  lemma BaseTimeIsLateIff(dts: int, start: int, rate: int)
    requires rate > 0 && TimestampToDuration(dts, rate) >= start
    ensures var d := TimestampToDuration(dts, rate);
            TickError(BaseTime(d, start, rate), dts, start, rate) < 0
            <==> Rem((d - start) * rate, SECOND) < rate * d - SECOND * dts
  {
    ErrorSplits(dts, start, rate);
  }

  /** Which happens: at 3 ticks per second, tick -1 is at -0.33 s, rounded up to -333333333 ns; a segment
      starting there gives it base time 0, which is a little late. */
  lemma NegativeTimeCanBeLate()
    ensures var d := TimestampToDuration(-1, 3);
            d == -333_333_333 && BaseTime(d, d, 3) == 0 && TickError(BaseTime(d, d, 3), -1, d, 3) < 0
  {
  }

  /** Sample `k` of a part is played as far from its exact place in the segment as the first one, which
      is less than two ticks too early and not too late. */
  predicate PlaysInPlace(pt: PartTrack, start: int, rate: int, k: nat)
    requires k < |pt.samples|
  {
    var first := pt.samples[0].dts;
    var e := TickError(pt.base, first, start, rate);
    && pt.base >= 0
    && TickError(pt.base + SumDurations(pt.samples[..k]), pt.samples[k].dts, start, rate) == e
    && (rate <= SECOND ==> -SECOND < e < 2 * SECOND && (first >= 0 ==> e >= 0))
  }

  lemma GaplessPartPlaysInPlace(pt: PartTrack, start: int, rate: int, k: nat)
    requires TrackBaseOk(pt, start, rate) && Gapless(pt.samples) && GapsFit(pt.samples) && k < |pt.samples|
    ensures PlaysInPlace(pt, start, rate, k)
  {
    hide Uint32, TimestampToDuration, BaseTime, TickError, SumDurations;
    SumOfFittingGaps(pt.samples, k);
    var first := pt.samples[0].dts;
    BaseTimeNonNegative(TimestampToDuration(first, rate), start, rate);
    SameError(pt.base, SumDurations(pt.samples[..k]), first, pt.samples[k].dts, start, rate);
    if rate <= SECOND {
      BaseTimeError(first, start, rate);
    }
  }

  /** The base-time error is the same for all samples of a part, however many there are. */
  lemma PartTimeline(r: Rec, hs: seq<History>, n: nat, q: nat, i: nat, k: nat)
    requires TracksOk(r, hs) && SegmentsOk(r) && n < |Segs(r)| && q < |AllParts(Segs(r)[n])|
    requires i in AllParts(Segs(r)[n])[q].tracks && k < |AllParts(Segs(r)[n])[q].tracks[i].samples|
    requires GapsFit(AllParts(Segs(r)[n])[q].tracks[i].samples)
    ensures i < |r.tracks|
    ensures PlaysInPlace(AllParts(Segs(r)[n])[q].tracks[i], Segs(r)[n].startDTS, r.tracks[i].clockRate, k)
  {
    PartIsOk(r, n, q, i);
    hide TrackOk, SegmentsOk, TrackBaseOk, PlaysInPlace, GapsFit, Gapless, AllParts;
    PartIsGapless(r.tracks[i], hs[i], Segs(r), n, q, i);
    GaplessPartPlaysInPlace(AllParts(Segs(r)[n])[q].tracks[i], Segs(r)[n].startDTS, r.tracks[i].clockRate, k);
  }

  lemma SameError(base: int, sum: int, first: int, dts: int, start: int, rate: int)
    requires sum == dts - first
    ensures TickError(base + sum, dts, start, rate) == TickError(base, first, start, rate)
  {
  }

  lemma PartIsOk(r: Rec, n: nat, q: nat, i: nat)
    requires SegmentsOk(r) && n < |Segs(r)| && q < |AllParts(Segs(r)[n])| && i in AllParts(Segs(r)[n])[q].tracks
    ensures i < |r.tracks|
    ensures TrackBaseOk(AllParts(Segs(r)[n])[q].tracks[i], Segs(r)[n].startDTS, r.tracks[i].clockRate)
  {
    var g, rates := Segs(r)[n], Rates(r);
    assert PartsOk(g, rates);
    assert BasesOk(AllParts(g)[q], g.startDTS, rates);
    assert TrackBaseOk(AllParts(g)[q].tracks[i], g.startDTS, if i < |rates| then rates[i] else 0);
  }

  lemma PartIsGapless(t: Track, h: History, segs: seq<Segment>, n: nat, q: nat, i: nat)
    requires TrackOk(t, i, segs, h.recv, h.log) && n < |segs| && q < |AllParts(segs[n])|
    ensures Gapless(InPart(AllParts(segs[n])[q], i))
  {
    hide TrackOk, Gapless, InPart;
    var ps := AllParts(segs[n]);
    SegmentsAreGapless(t, i, segs, h.recv, h.log, n);
    SegmentIsItsParts(segs[n], i);
    var a := PartIsSlice(ps, q, i);
    GaplessSlice(InParts(ps, i), a, a + |InPart(ps[q], i)|);
  }

  // ----- drift

  /** How far sample `k` is from where the wall clock expects it, counted from the first sample. */
  function Drift(recv: seq<Sample>, k: nat, rate: int): int
    requires k < |recv| && rate > 0
  {
    (recv[k].ntp - recv[0].ntp) - (TimestampToDuration(RunMax(recv, k), rate) - TimestampToDuration(recv[0].dts, rate))
  }

  /** All samples but the pending one are within the tolerance of the wall clock. */
  ghost predicate Undrifted(t: Track, recv: seq<Sample>) {
    && t.clockRate > 0
    && t.start == (if |recv| < 2 then None
                   else Some(Origin(TimestampToDuration(recv[0].dts, t.clockRate), recv[0].ntp)))
    && forall k: nat | k + 1 < |recv| :: -NTP_DRIFT_TOLERANCE <= Drift(recv, k, t.clockRate) <= NTP_DRIFT_TOLERANCE
  }

  lemma DriftPrefix(recv: seq<Sample>, s: Sample, k: nat, rate: int)
    requires k < |recv| && rate > 0
    ensures Drift(recv + [s], k, rate) == Drift(recv, k, rate)
  {
    RunMaxPrefix(recv, s, k);
  }

  lemma AdvancedIsUndrifted(t: Track, i: nat, segs: seq<Segment>, h: History, s: Sample)
    requires TrackOk(t, i, segs, h.recv, h.log) && Undrifted(t, h.recv)
    requires t.next.Some? ==> !Drifted(t, t.next.value)
    ensures Undrifted(Advanced(t, s), h.recv + [s])
  {
    hide TimestampToDuration, InSegment, Selected, FatesOk;
    var recv, recv', rate := h.recv, h.recv + [s], t.clockRate;
    forall k: nat | k + 1 < |recv'|
      ensures -NTP_DRIFT_TOLERANCE <= Drift(recv', k, rate) <= NTP_DRIFT_TOLERANCE
    {
      DriftPrefix(recv, s, k, rate);
      if k + 1 == |recv| && k > 0 {
        assert Drift(recv, k, rate)
            == (t.next.value.ntp - t.start.value.ntp) - (PendingDTS(t) - t.start.value.dts);
      }
    }
  }

  ghost predicate AllUndrifted(r: Rec, hs: seq<History>) {
    |hs| == |r.tracks| && forall i | 0 <= i < |hs| :: Undrifted(r.tracks[i], hs[i].recv)
  }

  lemma WriteKeepsUndrifted(c: Conf, r: Rec, hs: seq<History>, i: nat, s: Sample)
    requires TracksOk(r, hs) && AllUndrifted(r, hs) && i < |hs| && Write(c, r, i, s).Ok?
    ensures AllUndrifted(Write(c, r, i, s).value, hs[i := Noted(hs[i], r, i, s)])
  {
    hide TrackOk, Undrifted, Drifted, Stores, Rotate, MustRotate, TimestampToDuration, Advanced;
    AdvancedIsUndrifted(r.tracks[i], i, Segs(r), hs[i], s);
  }

  /** In every run without errors no track strays from the wall clock by more than the tolerance, not
      even little by little. */
  lemma {:induction false} EveryRunIsUndrifted(c: Conf, ts: seq<TrackConf>, ops: seq<Op>)
    requires ClocksRun(ts) && OpsFit(ops, |ts|) && Run(c, Initial(ts), ops).Ok?
    ensures AllUndrifted(Run(c, Initial(ts), ops).value, Histories(c, Initial(ts), ops))
  {
    if ops != [] {
      hide Write, Undrifted, TracksOk, SegmentsOk;
      var p, op := ops[..|ops| - 1], ops[|ops| - 1];
      EveryRunIsUndrifted(c, ts, p);
      EverySampleIsAccountedFor(c, ts, p);
      WriteKeepsUndrifted(c, Run(c, Initial(ts), p).value, Histories(c, Initial(ts), p), op.track, op.sample);
    }
  }

  // ----- a gap the format cannot express

  /** With a clock of one tick per nanosecond ticks are nanoseconds. */
  lemma TicksAreNanoseconds(v: int)
    ensures TimestampToDuration(v, SECOND) == v
  {
    TimestampIsExact(v, SECOND);
    QuoUnique(v * SECOND, SECOND, v);
  }

  const LONG := Conf(100 * SECOND, 100 * SECOND, 1000)

  function Tick(id: nat, dts: int): Sample {
    Sample(id, dts, dts, false, 1)
  }

  function OneTrack(next: Sample, start: Option<Origin>): seq<Track> {
    [Track(SECOND, true, Some(next), start)]
  }

  /** A write that stores the pending sample of the only track and does not rotate. */
  lemma WriteStores(r: Rec, x: Sample, s: Sample, start: Option<Origin>, g: Segment, g': Segment)
    requires r.tracks == OneTrack(x, start) && r.hasVideo && r.files == []
    requires x.dts == x.ntp && 0 <= x.dts <= s.dts < 100 * SECOND && (start == None || start == Some(Origin(0, 0)))
    requires g == CurrentSegment(r, x.dts, x.ntp) && g.startDTS == 0
    requires WriteToSegment(LONG, g, 0, SECOND, Settle(x, s), x.dts) == Ok(g')
    ensures Write(LONG, r, 0, s)
         == Ok(Rec(OneTrack(s, if start == None then Some(Origin(x.dts, x.ntp)) else start), true, Some(g'),
                   if r.segment.Some? then r.nextNumber else r.nextNumber + 1, []))
  {
    TicksAreNanoseconds(x.dts);
    TicksAreNanoseconds(s.dts);
    hide TimestampToDuration, WriteToSegment, Settle, Rotate;
    var t := r.tracks[0];
    assert Took(r, 0, s).tracks == [Advanced(t, s)];
    assert !Drifted(t, x) && !IsLate(r, x.dts);
    assert Stores(LONG, Took(r, 0, s), 0, x).Ok?;
    assert !MustRotate(LONG, true, Advanced(t, s), g');
  }

  /** The open segment of a recording with one part and one track that starts at zero. */
  function OpenSegment(end: int, size: nat, samples: seq<Stored>): Segment {
    Segment(0, 0, 0, end, 1, [], Some(Part(0, 0, end, size, map[0 := PartTrack(0, samples)])))
  }

  lemma FirstStored(x: Stored, g: Segment)
    requires x.dts == 0 && x.duration == 0 && x.size == 1 && g == NewSegment(0, 0, 0)
    ensures WriteToSegment(LONG, g, 0, SECOND, x, x.dts) == Ok(OpenSegment(0, 1, [x]))
  {
    hide EndOf, BaseTime, Uint32;
    var p := NewPart(0, x.dts);
    EndOfTick(x);
    BaseOfTick(x.dts);
    assert [] + [x] == [x];
    assert p.tracks[0 := PartTrack(0, [x])] == map[0 := PartTrack(0, [x])];
  }

  lemma EndOfTick(x: Stored)
    ensures EndOf(x, x.dts, SECOND) == x.dts + x.duration
  {
    TicksAreNanoseconds(x.duration);
  }

  lemma BaseOfTick(d: int)
    ensures BaseTime(d, 0, SECOND) == d
  {
    hide MultiplyAndDivide;
    TicksAreNanoseconds(d);
  }

  lemma SecondStored(x: Stored, y: Stored, dts: int, end: int, g1: Segment, g2: Segment)
    requires dts == y.dts && end == y.dts + y.duration && 0 <= end < 100 * SECOND && y.size == 1
    requires g1 == OpenSegment(0, 1, [x]) && g2 == OpenSegment(end, 2, [x, y])
    ensures WriteToSegment(LONG, g1, 0, SECOND, y, dts) == Ok(g2)
  {
    EndOfTick(y);
    hide EndOf, BaseTime;
    assert [x] + [y] == [x, y];
    var pt, pt' := PartTrack(0, [x]), PartTrack(0, [x, y]);
    assert map[0 := pt][0 := pt'] == map[0 := pt'];
  }

  lemma FirstWrite(c: Conf, x: Sample)
    ensures Write(c, Initial([TrackConf(SECOND, true)]), 0, x) == Ok(Rec(OneTrack(x, None), true, None, 0, []))
  {
    var r0 := Initial([TrackConf(SECOND, true)]);
    assert r0.tracks == [Track(SECOND, true, None, None)];
    assert Took(r0, 0, x).tracks == OneTrack(x, None);
  }

  lemma RunOfThree(c: Conf, r0: Rec, a: Op, b: Op, d: Op, r1: Rec, r2: Rec)
    requires RatesOk(r0) && |r0.tracks| == 1 && a.track == b.track == d.track == 0
    requires Write(c, r0, 0, a.sample) == Ok(r1)
    requires |r1.tracks| == 1 && RatesOk(r1) && Write(c, r1, 0, b.sample) == Ok(r2)
    requires |r2.tracks| == 1 && RatesOk(r2)
    ensures Run(c, r0, [a, b, d]) == Write(c, r2, 0, d.sample)
  {
    hide Write;
    var ops := [a, b, d];
    assert ops[..2] == [a, b] && [a, b][..1] == [a] && [a][..0] == [];
    assert Run(c, r0, []) == Ok(r0);
    assert Run(c, r0, [a]) == Ok(r1);
    assert Run(c, r0, [a, b]) == Ok(r2);
  }

  /** Three samples, the second 2^32 ticks after the first: the first is stored with a duration of zero, so
      the second plays where the first does. */
  lemma WideGapIsLost(x: Sample, y: Sample, z: Sample)
    requires x == Tick(0, 0) && y == Tick(1, TWO32) && z == Tick(2, TWO32 + 5)
    ensures var res := Run(LONG, Initial([TrackConf(SECOND, true)]), [Op(0, x), Op(0, y), Op(0, z)]);
            var s := [Stored(0, 0, 0, false, 1), Stored(1, TWO32, 5, false, 1)];
            && res.Ok? && res.value.segment == Some(OpenSegment(TWO32 + 5, 2, s))
            && SumDurations(s[..1]) == 0 && !KeepsTime(s)
  {
    var a, b := Settle(x, y), Settle(y, z);
    assert a == Stored(0, 0, 0, false, 1) && b == Stored(1, TWO32, 5, false, 1);
    hide Settle;
    FirstWrite(LONG, x);
    ThreeWrites(Initial([TrackConf(SECOND, true)]), x, y, z, a, b);
    WideSum(a, b);
  }

  lemma ThreeWrites(r0: Rec, x: Sample, y: Sample, z: Sample, a: Stored, b: Stored)
    requires |r0.tracks| == 1 && RatesOk(r0)
    requires Write(LONG, r0, 0, x) == Ok(Rec(OneTrack(x, None), true, None, 0, []))
    requires x.dts == x.ntp == 0 && y.dts == y.ntp && 0 <= y.dts <= z.dts < 100 * SECOND
    requires a == Settle(x, y) && b == Settle(y, z) && a.duration == 0 && b.duration == z.dts - y.dts
    requires x.size == y.size == 1
    ensures var res := Run(LONG, r0, [Op(0, x), Op(0, y), Op(0, z)]);
            res.Ok? && res.value.segment == Some(OpenSegment(z.dts, 2, [a, b]))
  {
    hide Uint32, Write, WriteToSegment, OpenSegment, NewSegment, Run;
    assert a.dts == 0 && a.size == b.size == 1 && b.dts == y.dts;
    hide Settle;
    var r1 := Rec(OneTrack(x, None), true, None, 0, []);
    var g0, g1, g2 := NewSegment(0, 0, 0), OpenSegment(0, 1, [a]), OpenSegment(z.dts, 2, [a, b]);
    var r2 := Rec(OneTrack(y, Some(Origin(0, 0))), true, Some(g1), 1, []);
    SegmentsStartAtZero(g0, g1, a);
    FirstStored(a, g0);
    WriteStores(r1, x, y, None, g0, g1);
    SecondStored(a, b, y.dts, z.dts, g1, g2);
    WriteStores(r2, y, z, Some(Origin(0, 0)), g1, g2);
    RunOfThree(LONG, r0, Op(0, x), Op(0, y), Op(0, z), r1, r2);
  }

  lemma SegmentsStartAtZero(g0: Segment, g1: Segment, a: Stored)
    requires g0 == NewSegment(0, 0, 0) && g1 == OpenSegment(0, 1, [a])
    ensures g0.startDTS == g1.startDTS == 0
  {
  }

  lemma WideSum(a: Stored, b: Stored)
    requires a.duration == 0 && b.dts != a.dts
    ensures SumDurations([a, b][..1]) == 0 && !KeepsTime([a, b])
  {
    var s := [a, b];
    assert s[..1][..0] == [];
    assert SumDurations([]) == 0;
    assert SumDurations(s[..1]) == 0;
  }

  // ----- a late base time

  /** The sample a recording starts with gets base time zero, which is late if and only if its decode time is
      negative and not a whole number of nanoseconds. */
  lemma FirstBaseIsLateIff(dts: int, rate: int)
    requires rate > 0
    ensures var d := TimestampToDuration(dts, rate);
            && BaseTime(d, d, rate) == 0
            && (TickError(0, dts, d, rate) < 0 <==> dts < 0 && (SECOND * dts) % rate != 0)
  {
    hide Quo, Rem, TimestampToDuration, MultiplyAndDivide;
    var d := TimestampToDuration(dts, rate);
    BaseOfStart(d, rate);
    TimestampIsExact(dts, rate);
    RemBounds(dts * SECOND, rate);
    var q, r := Quo(dts * SECOND, rate), Rem(dts * SECOND, rate);
    assert SECOND * dts - d * rate == r;
    if dts < 0 {
      NegativeRemainder(SECOND * dts, rate, q, r);
    }
  }

  lemma NegativeRemainder(a: int, b: int, q: int, r: int)
    requires b > 0 && a == b * q + r && -b < r <= 0
    ensures r == 0 <==> a % b == 0
  {
    DivMod(a, b);
    if r == 0 {
      DivUnique(a, b, q);
    } else {
      assert b * (q - 1) == b * q - b;
      DivUnique(a, b, q - 1);
    }
  }

  lemma TickMinusOne(dts: int, rate: int, d: int)
    requires dts == -1 && rate == 3 && d == -333_333_333
    ensures TimestampToDuration(dts, rate) == d && TimestampToDuration(0, rate) == 0
    ensures BaseTime(d, d, rate) == 0 && TickError(0, dts, d, rate) < 0
  {
    BaseOfStart(d, rate);
    hide BaseTime;
  }

  lemma BaseOfStart(d: int, rate: int)
    ensures BaseTime(d, d, rate) == 0
  {
    hide Quo, Rem;
    ScalingIsExact(0, rate, SECOND);
    QuoUnique(0, SECOND, 0);
  }

  lemma FirstWriteAt(c: Conf, x: Sample, rate: int)
    requires rate > 0
    ensures Write(c, Initial([TrackConf(rate, true)]), 0, x)
         == Ok(Rec([Track(rate, true, Some(x), None)], true, None, 0, []))
  {
    var r0 := Initial([TrackConf(rate, true)]);
    assert r0.tracks == [Track(rate, true, None, None)];
    assert Took(r0, 0, x).tracks == [Track(rate, true, Some(x), None)];
  }

  lemma RunOfTwo(c: Conf, r0: Rec, a: Op, b: Op, r1: Rec)
    requires RatesOk(r0) && |r0.tracks| == 1 && a.track == b.track == 0 && Write(c, r0, 0, a.sample) == Ok(r1)
    requires |r1.tracks| == 1 && RatesOk(r1)
    ensures Run(c, r0, [a, b]) == Write(c, r1, 0, b.sample)
  {
    hide Write;
    assert [a, b][..1] == [a] && [a][..0] == [];
    assert Run(c, r0, []) == Ok(r0);
    assert Run(c, r0, [a]) == Ok(r1);
  }

  /** And so in a recording: a sample at tick -1 of a clock with three ticks per second is stored with a base
      time of zero, a little later than its place. */
  lemma LateBaseRun(c: Conf, x: Sample, s: Sample, rate: int, d: int)
    requires rate == 3 && d == -333_333_333
    requires x.dts == -1 && s.dts == 0 && c.segmentDuration >= SECOND && x.size <= c.maxPartSize
    ensures var res := Run(c, Initial([TrackConf(rate, true)]), [Op(0, x), Op(0, s)]);
            && res.Ok? && res.value.segment.Some?
            && var g := res.value.segment.value;
               && g.startDTS == d && g.cur.Some? && 0 in g.cur.value.tracks
               && g.cur.value.tracks[0].base == 0 && |g.cur.value.tracks[0].samples| == 1
    ensures TickError(0, x.dts, d, rate) < 0
  {
    hide TimestampToDuration, BaseTime, Write, Run, Initial, TickError;
    TickMinusOne(x.dts, rate, d);
    var t := Track(rate, true, Some(x), None);
    FirstWriteAt(c, x, rate);
    LateBaseWrite(c, Rec([t], true, None, 0, []), t, x, s, d);
    RunOfTwo(c, Initial([TrackConf(rate, true)]), Op(0, x), Op(0, s), Rec([t], true, None, 0, []));
  }

  lemma LateBaseWrite(c: Conf, r: Rec, t: Track, x: Sample, s: Sample, d: int)
    requires t.clockRate > 0 && t.next == Some(x) && t.start == None && t.isVideo
    requires r == Rec([t], true, None, 0, [])
    requires d == TimestampToDuration(x.dts, t.clockRate) && TimestampToDuration(s.dts, t.clockRate) == 0
    requires -SECOND < d && x.dts <= s.dts && BaseTime(d, d, t.clockRate) == 0
    requires c.segmentDuration >= SECOND && x.size <= c.maxPartSize
    ensures var res := Write(c, r, 0, s);
            && res.Ok? && res.value.segment.Some?
            && var g := res.value.segment.value;
               && g.startDTS == d && g.cur.Some? && 0 in g.cur.value.tracks
               && g.cur.value.tracks[0].base == 0 && |g.cur.value.tracks[0].samples| == 1
  {
    hide TimestampToDuration, BaseTime, EndOf, Uint32;
    var r1 := Took(r, 0, s);
    assert r1.tracks == [Advanced(t, s)] && PendingDTS(r1.tracks[0]) == 0;
    assert !Drifted(t, x);
    assert Stores(c, r1, 0, x).Ok?;
    assert !MustRotate(c, true, r1.tracks[0], Stores(c, r1, 0, x).value.segment.value);
  }
}
