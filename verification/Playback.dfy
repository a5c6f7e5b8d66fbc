/** The two playback muxers and the loop that feeds them (internal/playback): which samples of a
    recording they keep when playback starts in the middle of a group of pictures, with which
    durations, and how the incremental one cuts them into parts.

    A decode time is relative to the requested start, so samples before it are negative. Payload
    bytes are a number that stands for them; reading them is assumed to succeed. Tracks are
    identified by their position. */
module Playback {
  import opened GoArith

  datatype Result<+T> = Ok(value: T) | NoSegmentsFound

  datatype Sample = Sample(dts: int, ptsOffset: int, nonSync: bool, payload: nat)

  datatype OutSample = OutSample(duration: int, ptsOffset: int, nonSync: bool, payload: nat)

  const PART_DURATION: int := SECOND

  // ----- what both muxers must keep

  predicate NonDecreasing(xs: seq<Sample>) {
    forall i, j | 0 <= i < j < |xs| :: xs[i].dts <= xs[j].dts
  }

  predicate HasVisible(xs: seq<Sample>) {
    exists i :: 0 <= i < |xs| && xs[i].dts >= 0
  }

  predicate IsFirstVisible(xs: seq<Sample>, v: int) {
    0 <= v < |xs| && xs[v].dts >= 0 && forall i | 0 <= i < v :: xs[i].dts < 0
  }

  /** `k` starts the kept samples: the latest sync sample at or before the first visible one, or the
      beginning if there is none. */
  predicate IsStart(xs: seq<Sample>, v: int, k: int)
    requires IsFirstVisible(xs, v)
  {
    && 0 <= k <= v
    && (k == 0 || !xs[k].nonSync)
    && (forall i | k < i <= v :: xs[i].nonSync)
  }

  /** The same place, computed one sample at a time. */
  function Start(xs: seq<Sample>): (k: nat)
    ensures xs == [] ==> k == 0
    ensures xs != [] ==> k < |xs|
  {
    if xs == [] then 0
    else
      var p, x := xs[..|xs| - 1], xs[|xs| - 1];
      if p == [] || (!x.nonSync && !HasVisible(p)) then |p| else Start(p)
  }

  lemma HasVisibleNext(p: seq<Sample>, x: Sample)
    ensures HasVisible(p + [x]) <==> HasVisible(p) || x.dts >= 0
  {
    if HasVisible(p) {
      var i :| 0 <= i < |p| && p[i].dts >= 0;
      assert (p + [x])[i].dts >= 0;
    }
    if x.dts >= 0 {
      assert (p + [x])[|p|].dts >= 0;
    }
    if HasVisible(p + [x]) && x.dts < 0 {
      var i :| 0 <= i < |p + [x]| && (p + [x])[i].dts >= 0;
      assert p[i].dts >= 0;
    }
  }

  /** Before anything is visible `Start` is the latest sync sample, and it does not move once
      something is. */
  lemma {:induction false} StartIsLatestSync(xs: seq<Sample>, v: int)
    requires NonDecreasing(xs) && IsFirstVisible(xs, v)
    ensures IsStart(xs, v, Start(xs))
  {
    var p, x := xs[..|xs| - 1], xs[|xs| - 1];
    assert xs == p + [x];
    if v == |p| {
      assert !HasVisible(p);
      PrerollStart(p);
    } else {
      assert p[v].dts >= 0;
      assert HasVisible(p);
      StartIsLatestSync(p, v);
    }
  }

  lemma {:induction false} PrerollStart(xs: seq<Sample>)
    requires !HasVisible(xs)
    ensures xs != [] ==> (Start(xs) == 0 || !xs[Start(xs)].nonSync)
                         && forall i | Start(xs) < i < |xs| :: xs[i].nonSync
  {
    if xs != [] {
      var p, x := xs[..|xs| - 1], xs[|xs| - 1];
      assert xs == p + [x];
      HasVisibleNext(p, x);
      PrerollStart(p);
    }
  }

  lemma StartIsUnique(xs: seq<Sample>, v: int, k: int, k': int)
    requires IsFirstVisible(xs, v) && IsStart(xs, v, k) && IsStart(xs, v, k')
    ensures k == k'
  {
  }

  function Payloads(s: seq<OutSample>): (r: seq<nat>)
    ensures |r| == |s|
  {
    seq(|s|, i requires 0 <= i < |s| => s[i].payload)
  }

  function InputPayloads(xs: seq<Sample>): (r: seq<nat>)
    ensures |r| == |xs|
  {
    seq(|xs|, i requires 0 <= i < |xs| => xs[i].payload)
  }

  function SumDurations(s: seq<OutSample>): int {
    if s == [] then 0 else SumDurations(s[..|s| - 1]) + s[|s| - 1].duration
  }

  lemma {:induction false} SumDurationsConcat(a: seq<OutSample>, b: seq<OutSample>)
    ensures SumDurations(a + b) == SumDurations(a) + SumDurations(b)
  {
    if b == [] {
      assert a + b == a;
    } else {
      assert (a + b)[..|a + b| - 1] == a + b[..|b| - 1];
      SumDurationsConcat(a, b[..|b| - 1]);
    }
  }

  // ----- the incremental muxer, one track

  datatype Track = Track(timeScale: nat, firstDTS: int, lastDTS: int, samples: seq<OutSample>)

  function SetLastDuration(s: seq<OutSample>, d: int): (r: seq<OutSample>)
    ensures |r| == |s|
  {
    if s == [] then s else s[|s| - 1 := s[|s| - 1].(duration := d)]
  }

  function Out(x: Sample): OutSample {
    OutSample(0, x.ptsOffset, x.nonSync, x.payload)
  }

  /** `writeSample` up to the decision to flush. */
  function Put(t: Track, x: Sample): Track {
    if x.dts >= 0 then
      var t1 :=
        if t.firstDTS < 0 then
          t.(firstDTS := x.dts, samples := if !x.nonSync then [] else t.samples)
        else
          t.(samples := SetLastDuration(t.samples, Uint32(Max(x.dts - t.lastDTS, 0))));
      t1.(samples := t1.samples + [Out(x)], lastDTS := x.dts)
    else if !x.nonSync then t.(samples := [Out(x)])
    else t.(samples := t.samples + [Out(x)])
  }

  predicate PartIsFull(t: Track) {
    t.lastDTS - t.firstDTS >= DurationGoToMp4(PART_DURATION, t.timeScale)
  }

  function FinalDTS(t: Track, dts: int): Track {
    if t.samples != [] && t.firstDTS >= 0
    then t.(samples := SetLastDuration(t.samples, Uint32(Max(dts - t.lastDTS, 0)))) else t
  }

  datatype PartTrack = PartTrack(track: nat, base: int, samples: seq<OutSample>)

  predicate HasToFlush(t: Track, final: bool) {
    t.firstDTS >= 0 && (|t.samples| > 1 || (final && |t.samples| != 0))
  }

  function FlushedPart(t: Track, i: nat, final: bool): PartTrack
    requires HasToFlush(t, final)
  {
    PartTrack(i, t.firstDTS, if final then t.samples else t.samples[..|t.samples| - 1])
  }

  function FlushedTrack(t: Track, final: bool): Track {
    if HasToFlush(t, final) && !final
    then t.(samples := t.samples[|t.samples| - 1..], firstDTS := t.lastDTS) else t
  }

  // ----- what one track has written and still holds

  function Written(log: seq<PartTrack>): seq<OutSample> {
    if log == [] then [] else Written(log[..|log| - 1]) + log[|log| - 1].samples
  }

  /** A preroll sample lasts nothing, a visible one until its successor. */
  function Duration(xs: seq<Sample>, j: nat): int
    requires j < |xs|
  {
    if xs[j].dts < 0 || j + 1 >= |xs| then 0 else Uint32(Max(xs[j + 1].dts - xs[j].dts, 0))
  }

  /** The samples to keep of `xs`, with the durations known so far. */
  function Kept(xs: seq<Sample>): (r: seq<OutSample>)
    ensures |r| == |xs| - Start(xs)
    ensures forall i | 0 <= i < |r| :: r[i] == KeptAt(xs, Start(xs) + i)
  {
    KeptFrom(xs, Start(xs))
  }

  function KeptFrom(xs: seq<Sample>, k: nat): (r: seq<OutSample>)
    requires k <= |xs|
    ensures |r| == |xs| - k
  {
    seq(|xs| - k, i requires 0 <= i < |xs| - k => KeptAt(xs, k + i))
  }

  function KeptAt(xs: seq<Sample>, j: nat): OutSample
    requires j < |xs|
  {
    Out(xs[j]).(duration := Duration(xs, j))
  }

  /** Equal, except that the duration of the last sample is still open. */
  predicate SameUpToLast(a: seq<OutSample>, b: seq<OutSample>) {
    && |a| == |b|
    && (forall i | 0 <= i < |a| :: a[i].(duration := 0) == b[i].(duration := 0))
    && (forall i | 0 <= i < |a| - 1 :: a[i] == b[i])
  }

  lemma StartNext(p: seq<Sample>, x: Sample)
    ensures Start(p + [x]) == if p == [] || (!x.nonSync && !HasVisible(p)) then |p| else Start(p)
  {
    var xs := p + [x];
    assert xs[..|xs| - 1] == p && xs[|xs| - 1] == x;
  }

  /** Settled entries do not change when a sample is appended. */
  lemma KeptAtNext(p: seq<Sample>, x: Sample, j: nat)
    requires j < |p|
    ensures j < |p| - 1 || p[j].dts < 0 ==> KeptAt(p + [x], j) == KeptAt(p, j)
    ensures j == |p| - 1 && p[j].dts >= 0 ==>
              KeptAt(p + [x], j) == KeptAt(p, j).(duration := Uint32(Max(x.dts - p[j].dts, 0)))
    ensures KeptAt(p + [x], |p|) == Out(x)
  {
    hide Uint32, Max;
  }

  /** How keeping goes on: a sync sample before anything was visible starts over; otherwise the last
      duration is settled and the new sample appended. */
  lemma KeptNext(p: seq<Sample>, x: Sample)
    requires NonDecreasing(p + [x])
    ensures Kept(p + [x]) ==
            if p == [] || (!x.nonSync && !HasVisible(p)) then [Out(x)]
            else if !HasVisible(p) then Kept(p) + [Out(x)]
            else SetLastDuration(Kept(p), Uint32(Max(x.dts - p[|p| - 1].dts, 0))) + [Out(x)]
  {
    StartNext(p, x);
    if p == [] || (!x.nonSync && !HasVisible(p)) {
      assert KeptAt(p + [x], |p|) == Out(x);
    } else if !HasVisible(p) {
      KeptNextPreroll(p, x);
    } else {
      KeptNextVisible(p, x);
    }
  }

  lemma KeptFromPreroll(p: seq<Sample>, x: Sample, k: nat)
    requires k < |p| && forall j | 0 <= j < |p| :: p[j].dts < 0
    ensures KeptFrom(p + [x], k) == KeptFrom(p, k) + [Out(x)]
  {
    hide Uint32, Max, KeptAt;
    var q, r := KeptFrom(p, k), KeptFrom(p + [x], k);
    KeptAtNext(p, x, |p| - 1);
    forall i: nat | i < |q| ensures r[i] == q[i] {
      KeptAtNext(p, x, k + i);
    }
  }

  lemma KeptNextPreroll(p: seq<Sample>, x: Sample)
    requires p != [] && !HasVisible(p) && Start(p + [x]) == Start(p)
    ensures Kept(p + [x]) == Kept(p) + [Out(x)]
  {
    hide KeptFrom, KeptAt;
    KeptFromPreroll(p, x, Start(p));
  }

  lemma KeptFromNext(p: seq<Sample>, x: Sample, k: nat)
    requires k < |p| && p[|p| - 1].dts >= 0
    ensures KeptFrom(p + [x], k)
         == SetLastDuration(KeptFrom(p, k), Uint32(Max(x.dts - p[|p| - 1].dts, 0))) + [Out(x)]
  {
    hide Uint32, Max, KeptAt;
    var q, r := KeptFrom(p, k), KeptFrom(p + [x], k);
    KeptAtNext(p, x, |p| - 1);
    forall i: nat | i < |q| - 1 ensures r[i] == q[i] {
      KeptAtNext(p, x, k + i);
    }
    SetLastIs(q, Uint32(Max(x.dts - p[|p| - 1].dts, 0)), r, Out(x));
  }

  lemma KeptNextVisible(p: seq<Sample>, x: Sample)
    requires NonDecreasing(p + [x]) && HasVisible(p) && Start(p + [x]) == Start(p)
    ensures Kept(p + [x]) == SetLastDuration(Kept(p), Uint32(Max(x.dts - p[|p| - 1].dts, 0))) + [Out(x)]
  {
    hide NonDecreasing, HasVisible, KeptFrom, KeptAt, SetLastDuration, Uint32, Max;
    PrefixNonDecreasing(p, x);
    VisibleIsNonEmpty(p);
    LastIsVisible(p);
    KeptFromNext(p, x, Start(p));
  }

  lemma VisibleIsNonEmpty(p: seq<Sample>)
    requires HasVisible(p)
    ensures p != []
  {
  }

  lemma SetLastIs(q: seq<OutSample>, d: int, r: seq<OutSample>, o: OutSample)
    requires q != [] && |r| == |q| + 1 && r[|q|] == o && r[|q| - 1] == q[|q| - 1].(duration := d)
    requires forall i: nat | i < |q| - 1 :: r[i] == q[i]
    ensures r == SetLastDuration(q, d) + [o]
  {
  }

  lemma PrefixNonDecreasing(p: seq<Sample>, x: Sample)
    requires NonDecreasing(p + [x])
    ensures NonDecreasing(p)
  {
    forall i, j | 0 <= i < j < |p| ensures p[i].dts <= p[j].dts {
      assert (p + [x])[i] == p[i] && (p + [x])[j] == p[j];
    }
  }

  lemma LastIsVisible(p: seq<Sample>)
    requires NonDecreasing(p) && HasVisible(p)
    ensures p[|p| - 1].dts >= 0
  {
    var i :| 0 <= i < |p| && p[i].dts >= 0;
  }

  /** Every gap between visible samples fits the 32-bit duration field. */
  predicate GapsFit(xs: seq<Sample>) {
    forall i | 0 <= i < |xs| - 1 && xs[i].dts >= 0 :: xs[i + 1].dts - xs[i].dts < TWO32
  }

  /** The settled durations of the kept samples never exceed the time from the first visible sample to
      the last one, and add up to it exactly if and only if every gap fits. */
  lemma {:induction false} KeptDurationsAddUpIff(xs: seq<Sample>, v: int)
    requires NonDecreasing(xs) && IsFirstVisible(xs, v)
    ensures var k := Kept(xs);
            var sum := SumDurations(k[..|k| - 1]);
            && sum <= xs[|xs| - 1].dts - xs[v].dts
            && (sum == xs[|xs| - 1].dts - xs[v].dts <==> GapsFit(xs))
  {
    var p, x := xs[..|xs| - 1], xs[|xs| - 1];
    assert xs == p + [x];
    if v == |p| {
      ZeroDurations(xs, |Kept(xs)| - 1);
      assert GapsFit(xs);
    } else {
      assert p[v].dts >= 0;
      assert HasVisible(p);
      KeptDurationsAddUpIff(p, v);
      LastIsVisible(p);
      SettledSum(p, x);
      GapsFitNext(p, x);
    }
  }

  /** Appending a sample settles one more duration. */
  lemma SettledSum(p: seq<Sample>, x: Sample)
    requires NonDecreasing(p + [x]) && HasVisible(p)
    ensures var q, k := Kept(p), Kept(p + [x]);
            SumDurations(k[..|k| - 1]) == SumDurations(q[..|q| - 1]) + Uint32(x.dts - p[|p| - 1].dts)
  {
    KeptNext(p, x);
    var q, g := Kept(p), x.dts - p[|p| - 1].dts;
    assert (p + [x])[|p| - 1].dts <= (p + [x])[|p|].dts;
    var settled := SetLastDuration(q, Uint32(g));
    assert Kept(p + [x])[..|q|] == settled;
    assert settled[..|q| - 1] == q[..|q| - 1];
  }

  lemma GapsFitNext(p: seq<Sample>, x: Sample)
    requires p != [] && p[|p| - 1].dts >= 0
    ensures GapsFit(p + [x]) <==> GapsFit(p) && x.dts - p[|p| - 1].dts < TWO32
  {
    var xs := p + [x];
    if GapsFit(xs) {
      assert xs[|p| - 1].dts >= 0 && xs[|p| - 1 + 1] == x;
      forall i | 0 <= i < |p| - 1 && p[i].dts >= 0 ensures p[i + 1].dts - p[i].dts < TWO32 {
        assert xs[i] == p[i] && xs[i + 1] == p[i + 1];
      }
    }
  }

  lemma {:induction false} ZeroDurations(xs: seq<Sample>, n: nat)
    requires n <= |Kept(xs)| && forall j | Start(xs) <= j < Start(xs) + n :: xs[j].dts < 0
    ensures SumDurations(Kept(xs)[..n]) == 0
  {
    if n > 0 {
      ZeroDurations(xs, n - 1);
      var s := Kept(xs)[..n];
      assert s[..n - 1] == Kept(xs)[..n - 1];
      assert s[n - 1].duration == Duration(xs, Start(xs) + n - 1) == 0;
    }
  }

  /** Each part of the track starts where the parts before it end. */
  predicate BasesChain(log: seq<PartTrack>, b0: int) {
    forall k | 0 <= k < |log| :: log[k].base == b0 + SumDurations(Written(log[..k]))
  }

  /** The state of a track after the samples `xs`, some of which went out in `log`. */
  ghost predicate TrackOk(t: Track, log: seq<PartTrack>, xs: seq<Sample>) {
    && NonDecreasing(xs)
    && (t.firstDTS >= 0 <==> HasVisible(xs))
    && SameUpToLast(Written(log) + t.samples, Kept(xs))
    && (HasVisible(xs) ==> t.samples != [] && t.lastDTS == xs[|xs| - 1].dts)
    && (HasVisible(xs) && |t.samples| == 1 ==> t.firstDTS == t.lastDTS)
    && (!HasVisible(xs) ==> log == [] && t.samples == Kept(xs))
    && (GapsFit(xs) ==> forall v | IsFirstVisible(xs, v) ::
          t.firstDTS == xs[v].dts + SumDurations(Written(log)) && BasesChain(log, xs[v].dts))
  }

  lemma PutKeepsTrack(t: Track, log: seq<PartTrack>, xs: seq<Sample>, x: Sample)
    requires TrackOk(t, log, xs) && NonDecreasing(xs + [x])
    ensures TrackOk(Put(t, x), log, xs + [x])
  {
    HasVisibleNext(xs, x);
    if HasVisible(xs) {
      VisibleStaysVisible(xs, x);
      PutVisible(t, log, xs, x);
    } else {
      PutFirst(t, log, xs, x);
    }
    if GapsFit(xs + [x]) {
      PutKeepsBases(t, log, xs, x);
    }
  }

  lemma VisibleStaysVisible(xs: seq<Sample>, x: Sample)
    requires NonDecreasing(xs + [x]) && HasVisible(xs)
    ensures x.dts >= 0 && x.dts >= xs[|xs| - 1].dts
  {
    var ys := xs + [x];
    assert forall i | 0 <= i < |xs| :: ys[i] == xs[i];
    LastIsVisible(xs);
    assert ys[|xs| - 1].dts <= ys[|xs|].dts;
  }

  lemma PutVisible(t: Track, log: seq<PartTrack>, xs: seq<Sample>, x: Sample)
    requires TrackOk(t, log, xs) && NonDecreasing(xs + [x]) && HasVisible(xs)
    requires x.dts >= 0
    ensures Written(log) + Put(t, x).samples == Kept(xs + [x])
  {
    hide Kept, SameUpToLast, NonDecreasing, HasVisible, Put, Uint32, Max, SetLastDuration, GapsFit, BasesChain;
    KeptNext(xs, x);
    var d := Uint32(Max(x.dts - t.lastDTS, 0));
    SettledLast(Written(log), t.samples, Kept(xs), d);
    PutSamples(t, x);
    Associates(Written(log), SetLastDuration(t.samples, d), [Out(x)]);
  }

  lemma PutSamples(t: Track, x: Sample)
    requires x.dts >= 0 && t.firstDTS >= 0
    ensures Put(t, x).samples == SetLastDuration(t.samples, Uint32(Max(x.dts - t.lastDTS, 0))) + [Out(x)]
  {
    hide Uint32, Max, SetLastDuration;
  }

  lemma Associates(a: seq<OutSample>, b: seq<OutSample>, c: seq<OutSample>)
    ensures a + (b + c) == (a + b) + c
  {
  }

  lemma PutFirst(t: Track, log: seq<PartTrack>, xs: seq<Sample>, x: Sample)
    requires TrackOk(t, log, xs) && NonDecreasing(xs + [x]) && !HasVisible(xs)
    ensures Put(t, x).samples == Kept(xs + [x]) && Written(log) + Put(t, x).samples == Put(t, x).samples
  {
    KeptNext(xs, x);
    assert xs == [] ==> Kept(xs) == [];
  }

  lemma SettledLast(w: seq<OutSample>, s: seq<OutSample>, k: seq<OutSample>, d: int)
    requires SameUpToLast(w + s, k) && s != []
    ensures w + SetLastDuration(s, d) == SetLastDuration(k, d)
  {
    var a, b := w + SetLastDuration(s, d), SetLastDuration(k, d);
    forall i | 0 <= i < |a| ensures a[i] == b[i] {
      assert (w + s)[i].(duration := 0) == k[i].(duration := 0);
      if i < |a| - 1 {
        assert (w + s)[i] == k[i];
      }
    }
  }

  lemma PutKeepsBases(t: Track, log: seq<PartTrack>, xs: seq<Sample>, x: Sample)
    requires TrackOk(t, log, xs) && NonDecreasing(xs + [x]) && GapsFit(xs + [x])
    ensures forall v | IsFirstVisible(xs + [x], v) ::
              && Put(t, x).firstDTS == (xs + [x])[v].dts + SumDurations(Written(log))
              && BasesChain(log, (xs + [x])[v].dts)
  {
    var ys := xs + [x];
    assert forall i | 0 <= i < |xs| :: ys[i] == xs[i];
    forall i | 0 <= i < |xs| - 1 && xs[i].dts >= 0 ensures xs[i + 1].dts - xs[i].dts < TWO32 {
      assert ys[i].dts >= 0 && ys[i + 1] == xs[i + 1];
    }
    forall v | IsFirstVisible(ys, v)
      ensures Put(t, x).firstDTS == ys[v].dts + SumDurations(Written(log)) && BasesChain(log, ys[v].dts)
    {
      if v < |xs| {
        assert IsFirstVisible(xs, v);
        assert HasVisible(xs);
      } else {
        assert !HasVisible(xs);
      }
    }
  }

  lemma FinalKeepsTrack(t: Track, log: seq<PartTrack>, xs: seq<Sample>, dts: int)
    requires TrackOk(t, log, xs)
    ensures TrackOk(FinalDTS(t, dts), log, xs)
  {
    if t.samples != [] && t.firstDTS >= 0 {
      var d := Uint32(Max(dts - t.lastDTS, 0));
      SettledLast(Written(log), t.samples, Kept(xs), d);
    }
  }

  lemma FlushKeepsTrack(t: Track, log: seq<PartTrack>, xs: seq<Sample>, i: nat)
    requires TrackOk(t, log, xs) && HasToFlush(t, false)
    ensures TrackOk(FlushedTrack(t, false), log + [FlushedPart(t, i, false)], xs)
  {
    hide NonDecreasing, HasVisible, Kept, SameUpToLast, GapsFit, BasesChain, SumDurations;
    var part := FlushedPart(t, i, false);
    var log', t' := log + [part], FlushedTrack(t, false);
    WrittenNext(log, part);
    LastIsVisible(xs);
    assert Written(log') + t'.samples == Written(log) + t.samples;
    if GapsFit(xs) {
      forall v | IsFirstVisible(xs, v)
        ensures t'.firstDTS == xs[v].dts + SumDurations(Written(log')) && BasesChain(log', xs[v].dts)
      {
        FlushedSum(t, log, xs, v, part);
        ExtendedChain(log, part, xs[v].dts);
      }
    }
  }

  lemma FlushedSum(t: Track, log: seq<PartTrack>, xs: seq<Sample>, v: int, part: PartTrack)
    requires TrackOk(t, log, xs) && GapsFit(xs) && IsFirstVisible(xs, v) && t.samples != []
    requires part.samples == t.samples[..|t.samples| - 1]
    ensures SumDurations(Written(log + [part])) == xs[|xs| - 1].dts - xs[v].dts
  {
    hide GapsFit, IsFirstVisible, NonDecreasing, HasVisible, Kept, SumDurations, BasesChain;
    KeptDurationsAddUpIff(xs, v);
    WrittenNext(log, part);
    SettledPrefix(Written(log), t.samples, Kept(xs));
  }

  lemma WrittenNext(log: seq<PartTrack>, part: PartTrack)
    ensures Written(log + [part]) == Written(log) + part.samples
  {
    assert (log + [part])[..|log|] == log;
  }

  lemma SettledPrefix(w: seq<OutSample>, s: seq<OutSample>, k: seq<OutSample>)
    requires SameUpToLast(w + s, k) && s != []
    ensures w + s[..|s| - 1] == k[..|k| - 1]
  {
    var all := w + s;
    assert all[..|all| - 1] == w + s[..|s| - 1];
  }

  lemma ExtendedChain(log: seq<PartTrack>, part: PartTrack, b0: int)
    requires BasesChain(log, b0) && part.base == b0 + SumDurations(Written(log))
    ensures BasesChain(log + [part], b0)
  {
    var log' := log + [part];
    forall k | 0 <= k < |log'| ensures log'[k].base == b0 + SumDurations(Written(log'[..k])) {
      assert log'[..k] == log[..k];
    }
  }

  // ----- the incremental muxer, all tracks

  datatype Part = Part(number: int, tracks: seq<PartTrack>)

  datatype Muxer = Muxer(initPending: bool, nextNumber: int, tracks: seq<Track>, parts: seq<Part>)

  function NewMuxer(timeScales: seq<nat>): Muxer {
    Muxer(true, 0, seq(|timeScales|, i requires 0 <= i < |timeScales| => Track(timeScales[i], -1, 0, [])), [])
  }

  function PartTracks(ts: seq<Track>, final: bool): seq<PartTrack> {
    if ts == [] then []
    else
      var n := |ts| - 1;
      PartTracks(ts[..n], final) + if HasToFlush(ts[n], final) then [FlushedPart(ts[n], n, final)] else []
  }

  function FlushedTracks(ts: seq<Track>, final: bool): (r: seq<Track>)
    ensures |r| == |ts|
  {
    seq(|ts|, i requires 0 <= i < |ts| => FlushedTrack(ts[i], final))
  }

  function InnerFlush(m: Muxer, final: bool): Result<Muxer> {
    var pts := PartTracks(m.tracks, final);
    if pts == [] then if m.initPending then NoSegmentsFound else Ok(m)
    else Ok(Muxer(false, Uint32(m.nextNumber + 1), FlushedTracks(m.tracks, final), m.parts + [Part(m.nextNumber, pts)]))
  }

  function WriteSample(m: Muxer, cur: nat, x: Sample): Result<Muxer>
    requires cur < |m.tracks|
  {
    var m1 := m.(tracks := m.tracks[cur := Put(m.tracks[cur], x)]);
    if x.dts >= 0 && PartIsFull(m1.tracks[cur]) then InnerFlush(m1, false) else Ok(m1)
  }

  function WriteFinalDTS(m: Muxer, cur: nat, dts: int): Muxer
    requires cur < |m.tracks|
  {
    m.(tracks := m.tracks[cur := FinalDTS(m.tracks[cur], dts)])
  }

  /** The parts of one track, in the order written. */
  function EntriesOf(pts: seq<PartTrack>, i: nat): seq<PartTrack> {
    if pts == [] then []
    else EntriesOf(pts[..|pts| - 1], i) + if pts[|pts| - 1].track == i then [pts[|pts| - 1]] else []
  }

  function LogOf(parts: seq<Part>, i: nat): seq<PartTrack> {
    if parts == [] then [] else LogOf(parts[..|parts| - 1], i) + EntriesOf(parts[|parts| - 1].tracks, i)
  }

  lemma {:induction false} EntryOfTrack(ts: seq<Track>, final: bool, i: nat)
    ensures EntriesOf(PartTracks(ts, final), i)
         == if i < |ts| && HasToFlush(ts[i], final) then [FlushedPart(ts[i], i, final)] else []
  {
    if ts != [] {
      var n := |ts| - 1;
      EntryOfTrack(ts[..n], final, i);
      var head := PartTracks(ts[..n], final);
      if HasToFlush(ts[n], final) {
        assert PartTracks(ts, final)[..|head|] == head;
      } else {
        assert PartTracks(ts, final) == head;
      }
    }
  }

  datatype Op = PutOp(track: nat, sample: Sample) | FinalOp(track: nat, dts: int)

  function Apply(m: Muxer, op: Op): Result<Muxer>
    requires op.track < |m.tracks|
  {
    match op
    case PutOp(i, x) => WriteSample(m, i, x)
    case FinalOp(i, dts) => Ok(WriteFinalDTS(m, i, dts))
  }

  /** What each track was given so far. */
  function Inputs(ops: seq<Op>, i: nat): seq<Sample> {
    if ops == [] then []
    else
      var o := ops[|ops| - 1];
      Inputs(ops[..|ops| - 1], i) + if o.PutOp? && o.track == i then [o.sample] else []
  }

  ghost predicate MuxerOk(m: Muxer, ops: seq<Op>) {
    && (forall i | 0 <= i < |m.tracks| :: TrackOk(m.tracks[i], LogOf(m.parts, i), Inputs(ops, i)))
    && NumbersOk(m)
    && (m.parts == [] || SomeLog(m))
  }

  /** Some track has written something. */
  ghost predicate SomeLog(m: Muxer) {
    exists i: nat :: i < |m.tracks| && LogOf(m.parts, i) != []
  }

  /** A flush that writes something moves each track's settled samples into its log. */
  lemma FlushKeepsMuxer(m: Muxer, ops: seq<Op>)
    requires MuxerOk(m, ops) && InnerFlush(m, false).Ok?
    ensures MuxerOk(InnerFlush(m, false).value, ops)
  {
    hide TrackOk;
    if PartTracks(m.tracks, false) != [] {
      var m' := InnerFlush(m, false).value;
      forall i | 0 <= i < |m'.tracks| ensures TrackOk(m'.tracks[i], LogOf(m'.parts, i), Inputs(ops, i)) {
        FlushedLog(m, i, false);
        if HasToFlush(m.tracks[i], false) {
          FlushKeepsTrack(m.tracks[i], LogOf(m.parts, i), Inputs(ops, i), i);
        }
      }
      NumbersNext(m, false);
      FlushedSomething(m);
    }
  }

  lemma FlushedSomething(m: Muxer)
    requires PartTracks(m.tracks, false) != []
    ensures SomeLog(InnerFlush(m, false).value)
  {
    if forall i | 0 <= i < |m.tracks| :: !HasToFlush(m.tracks[i], false) {
      NothingToFlush(m.tracks, false);
    } else {
      var i :| 0 <= i < |m.tracks| && HasToFlush(m.tracks[i], false);
      FlushedLog(m, i, false);
      assert LogOf(InnerFlush(m, false).value.parts, i) != [];
    }
  }

  lemma FlushedLog(m: Muxer, i: nat, final: bool)
    requires i < |m.tracks| && PartTracks(m.tracks, final) != []
    ensures InnerFlush(m, final).Ok?
    ensures LogOf(InnerFlush(m, final).value.parts, i)
         == LogOf(m.parts, i) + if HasToFlush(m.tracks[i], final) then [FlushedPart(m.tracks[i], i, final)] else []
    ensures !HasToFlush(m.tracks[i], final) ==> LogOf(InnerFlush(m, final).value.parts, i) == LogOf(m.parts, i)
  {
    EntryOfTrack(m.tracks, final, i);
    assert InnerFlush(m, final).value.parts[..|m.parts|] == m.parts;
  }

  ghost predicate NumbersOk(m: Muxer) {
    && (forall n | 0 <= n < |m.parts| :: m.parts[n].number == Uint32(n) && m.parts[n].tracks != [])
    && m.nextNumber == Uint32(|m.parts|)
    && (m.initPending <==> m.parts == [])
  }

  lemma NumbersNext(m: Muxer, final: bool)
    requires NumbersOk(m) && PartTracks(m.tracks, final) != []
    ensures NumbersOk(InnerFlush(m, final).value)
  {
    Uint32Next(|m.parts|);
  }

  lemma {:induction false} SomethingToFlush(ts: seq<Track>, final: bool, i: nat)
    requires i < |ts| && HasToFlush(ts[i], final)
    ensures PartTracks(ts, final) != []
  {
    EntryOfTrack(ts, final, i);
    assert EntriesOf(PartTracks(ts, final), i) != [];
  }

  /** A part filled by a track with a positive time scale holds at least two of its samples, so a flush
      in mid-stream always has something to write. */
  lemma FullPartCanFlush(t: Track, log: seq<PartTrack>, xs: seq<Sample>)
    requires TrackOk(t, log, xs) && HasVisible(xs) && t.timeScale > 0 && PartIsFull(t)
    ensures HasToFlush(t, false)
  {
  }

  // ----- runs of the incremental muxer

  function Run(m: Muxer, ops: seq<Op>): Result<Muxer>
    requires forall j | 0 <= j < |ops| :: ops[j].track < |m.tracks|
    ensures Run(m, ops).Ok? ==> |Run(m, ops).value.tracks| == |m.tracks|
  {
    if ops == [] then Ok(m)
    else
      match Run(m, ops[..|ops| - 1])
      case NoSegmentsFound => NoSegmentsFound
      case Ok(m1) => Apply(m1, ops[|ops| - 1])
  }

  /** The time scales, which no operation changes. */
  predicate TimeScalesAre(m: Muxer, timeScales: seq<nat>) {
    |m.tracks| == |timeScales| && forall i | 0 <= i < |m.tracks| :: m.tracks[i].timeScale == timeScales[i]
  }

  predicate TracksInOrder(ops: seq<Op>, n: nat) {
    forall i: nat | i < n :: NonDecreasing(Inputs(ops, i))
  }

  lemma InputsNext(ops: seq<Op>, op: Op, i: nat)
    ensures Inputs(ops + [op], i) == Inputs(ops, i) + if op.PutOp? && op.track == i then [op.sample] else []
    ensures !(op.PutOp? && op.track == i) ==> Inputs(ops + [op], i) == Inputs(ops, i)
  {
    var all := ops + [op];
    assert all[..|all| - 1] == ops && all[|all| - 1] == op;
  }

  function Updated(t: Track, op: Op): Track {
    if op.PutOp? then Put(t, op.sample) else FinalDTS(t, op.dts)
  }

  lemma UpdateKeepsMuxer(m: Muxer, ops: seq<Op>, op: Op)
    requires MuxerOk(m, ops) && op.track < |m.tracks| && TracksInOrder(ops + [op], |m.tracks|)
    ensures MuxerOk(m.(tracks := m.tracks[op.track := Updated(m.tracks[op.track], op)]), ops + [op])
  {
    hide TrackOk, HasVisible, NonDecreasing;
    var i := op.track;
    var m1 := m.(tracks := m.tracks[i := Updated(m.tracks[i], op)]);
    forall j | 0 <= j < |m1.tracks| ensures TrackOk(m1.tracks[j], LogOf(m1.parts, j), Inputs(ops + [op], j)) {
      InputsNext(ops, op, j);
      if j == i {
        if op.PutOp? {
          PutKeepsTrack(m.tracks[i], LogOf(m.parts, i), Inputs(ops, i), op.sample);
        } else {
          FinalKeepsTrack(m.tracks[i], LogOf(m.parts, i), Inputs(ops, i), op.dts);
        }
      }
    }
  }

  lemma UpdateKeepsScale(t: Track, op: Op)
    ensures Updated(t, op).timeScale == t.timeScale
  {
    hide Uint32, SetLastDuration;
  }

  lemma FlushKeepsScales(m: Muxer, timeScales: seq<nat>)
    requires TimeScalesAre(m, timeScales) && InnerFlush(m, false).Ok?
    ensures TimeScalesAre(InnerFlush(m, false).value, timeScales)
  {
    hide PartTracks;
  }

  /** A visible sample is only ever given to a track with a positive time scale. */
  predicate ScaleOk(op: Op, timeScales: seq<nat>) {
    op.PutOp? && op.sample.dts >= 0 ==> op.track < |timeScales| && timeScales[op.track] > 0
  }

  /** Every such operation succeeds and keeps the invariant. */
  lemma ApplyKeepsMuxer(m: Muxer, ops: seq<Op>, op: Op, timeScales: seq<nat>)
    requires MuxerOk(m, ops) && TimeScalesAre(m, timeScales) && op.track < |m.tracks|
    requires ScaleOk(op, timeScales) && TracksInOrder(ops + [op], |m.tracks|)
    ensures Apply(m, op).Ok? && MuxerOk(Apply(m, op).value, ops + [op])
    ensures TimeScalesAre(Apply(m, op).value, timeScales)
  {
    hide MuxerOk, Put, FinalDTS, PartIsFull, InnerFlush, TracksInOrder;
    var i := op.track;
    var t' := Updated(m.tracks[i], op);
    var m1 := m.(tracks := m.tracks[i := t']);
    UpdateKeepsMuxer(m, ops, op);
    UpdateKeepsScale(m.tracks[i], op);
    assert TimeScalesAre(m1, timeScales);
    if op.PutOp? && op.sample.dts >= 0 && PartIsFull(t') {
      FullMuxerFlushes(m1, ops + [op], ops, op);
      FlushKeepsMuxer(m1, ops + [op]);
      FlushKeepsScales(m1, timeScales);
    }
  }

  lemma FullMuxerFlushes(m: Muxer, all: seq<Op>, ops: seq<Op>, op: Op)
    requires MuxerOk(m, all) && all == ops + [op] && op.PutOp? && op.track < |m.tracks| && op.sample.dts >= 0
    requires m.tracks[op.track].timeScale > 0 && PartIsFull(m.tracks[op.track])
    ensures InnerFlush(m, false).Ok?
  {
    hide TrackOk, HasVisible, NonDecreasing, SomeLog, NumbersOk, PartIsFull, PartTracks;
    var i := op.track;
    InputsNext(ops, op, i);
    HasVisibleNext(Inputs(ops, i), op.sample);
    FullPartCanFlush(m.tracks[i], LogOf(m.parts, i), Inputs(all, i));
    SomethingToFlush(m.tracks, false, i);
  }

  lemma NewMuxerOk(timeScales: seq<nat>)
    ensures MuxerOk(NewMuxer(timeScales), []) && TimeScalesAre(NewMuxer(timeScales), timeScales)
  {
  }

  lemma PrefixInOrder(ops: seq<Op>, op: Op, n: nat)
    requires TracksInOrder(ops + [op], n)
    ensures TracksInOrder(ops, n)
  {
    forall i: nat | i < n ensures NonDecreasing(Inputs(ops, i)) {
      InputsNext(ops, op, i);
      if op.PutOp? && op.track == i {
        PrefixNonDecreasing(Inputs(ops, i), op.sample);
      }
    }
  }

  /** Over every interleaving of tracks, with flushes wherever parts fill up: no operation reports that
      there are no segments, and parts plus buffers hold exactly the selected samples of each track. */
  lemma {:induction false} EveryRunSelects(timeScales: seq<nat>, ops: seq<Op>)
    requires forall j | 0 <= j < |ops| :: ops[j].track < |timeScales| && ScaleOk(ops[j], timeScales)
    requires TracksInOrder(ops, |timeScales|)
    ensures var r := Run(NewMuxer(timeScales), ops);
            r.Ok? && MuxerOk(r.value, ops) && TimeScalesAre(r.value, timeScales)
  {
    if ops == [] {
      NewMuxerOk(timeScales);
    } else {
      var prefix, op := ops[..|ops| - 1], ops[|ops| - 1];
      assert ops == prefix + [op];
      PrefixInOrder(prefix, op, |timeScales|);
      EveryRunSelects(timeScales, prefix);
      hide MuxerOk;
      ApplyKeepsMuxer(Run(NewMuxer(timeScales), prefix).value, prefix, op, timeScales);
    }
  }

  /** The muxer alone, whoever feeds it, would fail on a time scale of zero: every sequence of operations in
      order succeeds if and only if all time scales are positive. */
  lemma MuxerNeverFailsIff(timeScales: seq<nat>)
    ensures NeverFails(timeScales) <==> forall i | 0 <= i < |timeScales| :: timeScales[i] > 0
  {
    if forall i | 0 <= i < |timeScales| :: timeScales[i] > 0 {
      forall ops: seq<Op> | Feeds(timeScales, ops) ensures Run(NewMuxer(timeScales), ops).Ok? {
        EveryRunSelects(timeScales, ops);
      }
    } else {
      var i :| 0 <= i < |timeScales| && timeScales[i] == 0;
      var x := Sample(0, 0, false, 0);
      OneVisibleFails(timeScales, i, x);
      OneSampleFeeds(timeScales, i, x);
    }
  }

  /** Operations on known tracks, each track in order. */
  ghost predicate Feeds(timeScales: seq<nat>, ops: seq<Op>) {
    (forall j | 0 <= j < |ops| :: ops[j].track < |timeScales|) && TracksInOrder(ops, |timeScales|)
  }

  ghost predicate NeverFails(timeScales: seq<nat>) {
    forall ops | Feeds(timeScales, ops) :: Run(NewMuxer(timeScales), ops).Ok?
  }

  lemma OneSampleFeeds(timeScales: seq<nat>, i: nat, x: Sample)
    requires i < |timeScales|
    ensures Feeds(timeScales, [PutOp(i, x)])
  {
    forall t: nat | t < |timeScales| ensures NonDecreasing(Inputs([PutOp(i, x)], t)) {
      InputsNext([], PutOp(i, x), t);
      assert [] + [PutOp(i, x)] == [PutOp(i, x)];
    }
  }

  lemma OneVisibleFails(timeScales: seq<nat>, i: nat, x: Sample)
    requires i < |timeScales| && timeScales[i] == 0 && x.dts >= 0
    ensures Run(NewMuxer(timeScales), [PutOp(i, x)]) == NoSegmentsFound
  {
    var m := NewMuxer(timeScales);
    var t := Put(m.tracks[i], x);
    var m1 := m.(tracks := m.tracks[i := t]);
    assert DurationGoToMp4(PART_DURATION, 0) == 0;
    hide DurationGoToMp4;
    assert t.samples == [Out(x)] && t.lastDTS == t.firstDTS == x.dts;
    forall k | 0 <= k < |m1.tracks| ensures !HasToFlush(m1.tracks[k], false) {
    }
    NothingToFlush(m1.tracks, false);
    assert [PutOp(i, x)][..0] == [];
    assert Run(m, []) == Ok(m);
  }

  // ----- the final flush

  /** After the final flush the file holds, for every track with something visible, exactly its input
      from the latest sync sample at or before the first visible one, in order. */
  lemma FinalFlushWritesSelection(m: Muxer, ops: seq<Op>, i: nat, v: int, k: int)
    requires MuxerOk(m, ops) && i < |m.tracks|
    requires IsFirstVisible(Inputs(ops, i), v) && IsStart(Inputs(ops, i), v, k)
    ensures InnerFlush(m, true).Ok?
    ensures Payloads(Written(LogOf(InnerFlush(m, true).value.parts, i))) == InputPayloads(Inputs(ops, i))[k..]
  {
    var t, log, xs := m.tracks[i], LogOf(m.parts, i), Inputs(ops, i);
    assert TrackOk(t, log, xs);
    assert HasVisible(xs);
    SomethingToFlush(m.tracks, true, i);
    FlushedLog(m, i, true);
    StartIsLatestSync(xs, v);
    StartIsUnique(xs, v, k, Start(xs));
    var part := FlushedPart(t, i, true);
    assert (log + [part])[..|log|] == log;
    assert Written(log + [part]) == Written(log) + t.samples;
    SelectedPayloads(Written(log) + t.samples, xs);
  }

  /** Each part starts where the one before it ends. */
  predicate PartsFollow(log: seq<PartTrack>, b0: int) {
    && (log != [] ==> log[0].base == b0)
    && (forall k | 0 <= k < |log| - 1 :: log[k + 1].base == log[k].base + SumDurations(log[k].samples))
  }

  lemma ChainedPartsFollow(log: seq<PartTrack>, b0: int)
    requires BasesChain(log, b0)
    ensures PartsFollow(log, b0)
  {
    if log != [] {
      assert log[0].base == b0 + SumDurations(Written(log[..0]));
    }
    forall k | 0 <= k < |log| - 1 ensures log[k + 1].base == log[k].base + SumDurations(log[k].samples) {
      assert log[..k + 1] == log[..k] + [log[k]];
      WrittenNext(log[..k], log[k]);
      SumDurationsConcat(Written(log[..k]), log[k].samples);
    }
  }

  /** In the finished file the parts of a track with something visible start at its first visible sample
      and follow each other without a gap, and part numbers are consecutive. */
  lemma FinishedPartsFollow(m: Muxer, ops: seq<Op>, i: nat, v: int)
    requires MuxerOk(m, ops) && i < |m.tracks| && IsFirstVisible(Inputs(ops, i), v) && GapsFit(Inputs(ops, i))
    ensures var f := InnerFlush(m, true);
            f.Ok? && NumbersOk(f.value) && PartsFollow(LogOf(f.value.parts, i), Inputs(ops, i)[v].dts)
  {
    var t, log, xs := m.tracks[i], LogOf(m.parts, i), Inputs(ops, i);
    assert TrackOk(t, log, xs);
    assert HasVisible(xs);
    hide TrackOk, GapsFit, IsFirstVisible, HasVisible, NonDecreasing, BasesChain, NumbersOk, PartsFollow, SumDurations;
    VisibleIffFlushed(t, log, xs);
    SomethingToFlush(m.tracks, true, i);
    FlushedLog(m, i, true);
    NumbersNext(m, true);
    FinalPartFollows(t, log, xs, v, i);
    ChainedPartsFollow(log + [FlushedPart(t, i, true)], xs[v].dts);
  }

  lemma FinalPartFollows(t: Track, log: seq<PartTrack>, xs: seq<Sample>, v: int, i: nat)
    requires TrackOk(t, log, xs) && IsFirstVisible(xs, v) && GapsFit(xs) && HasToFlush(t, true)
    ensures BasesChain(log + [FlushedPart(t, i, true)], xs[v].dts)
  {
    hide BasesChain, Kept, SumDurations;
    ExtendedChain(log, FlushedPart(t, i, true), xs[v].dts);
  }

  lemma SelectedPayloads(s: seq<OutSample>, xs: seq<Sample>)
    requires SameUpToLast(s, Kept(xs))
    ensures Payloads(s) == InputPayloads(xs)[Start(xs)..]
  {
    forall i | 0 <= i < |s| ensures Payloads(s)[i] == InputPayloads(xs)[Start(xs)..][i] {
      assert s[i].(duration := 0) == Kept(xs)[i].(duration := 0);
    }
  }

  ghost predicate AnyVisible(ops: seq<Op>, n: nat) {
    exists i: nat :: i < n && HasVisible(Inputs(ops, i))
  }

  /** The final flush reports that there are no segments if and only if no track has anything visible. */
  lemma FinalFlushFailsIff(m: Muxer, ops: seq<Op>)
    requires MuxerOk(m, ops)
    ensures InnerFlush(m, true) == NoSegmentsFound <==> !AnyVisible(ops, |m.tracks|)
  {
    hide TrackOk, HasVisible, HasToFlush;
    forall i: nat | i < |m.tracks|
      ensures HasToFlush(m.tracks[i], true) <==> HasVisible(Inputs(ops, i))
      ensures !HasVisible(Inputs(ops, i)) ==> LogOf(m.parts, i) == []
    {
      VisibleIffFlushed(m.tracks[i], LogOf(m.parts, i), Inputs(ops, i));
    }
    if AnyVisible(ops, |m.tracks|) {
      var i: nat :| i < |m.tracks| && HasVisible(Inputs(ops, i));
      SomethingToFlush(m.tracks, true, i);
    } else {
      NothingToFlush(m.tracks, true);
      assert !SomeLog(m);
    }
  }

  lemma VisibleIffFlushed(t: Track, log: seq<PartTrack>, xs: seq<Sample>)
    requires TrackOk(t, log, xs)
    ensures HasToFlush(t, true) <==> HasVisible(xs)
    ensures !HasVisible(xs) ==> log == []
  {
  }

  lemma {:induction false} NothingToFlush(ts: seq<Track>, final: bool)
    requires forall i | 0 <= i < |ts| :: !HasToFlush(ts[i], final)
    ensures PartTracks(ts, final) == []
  {
    if ts != [] {
      NothingToFlush(ts[..|ts| - 1], final);
    }
  }

  // ----- a gap the format cannot express

  /** Two samples 2^32 ticks apart, at an ordinary time scale: the first goes out in a part of its own with
      a duration of zero, so the next part does not start where it ends. */
  lemma WideGapIsLost(x: Sample, y: Sample)
    requires x.dts == 0 && y.dts == TWO32
    ensures var m := Run(NewMuxer([90_000]), [PutOp(0, x), PutOp(0, y)]);
            && m.Ok?
            && InnerFlush(m.value, true).Ok?
            && var log := LogOf(InnerFlush(m.value, true).value.parts, 0);
               log == [PartTrack(0, 0, [Out(x)]), PartTrack(0, TWO32, [Out(y)])] && !PartsFollow(log, 0)
  {
    var m0, ops := NewMuxer([90_000]), [PutOp(0, x), PutOp(0, y)];
    var m1 := m0.(tracks := [Track(90_000, 0, 0, [Out(x)])]);
    var p1, p2 := PartTrack(0, 0, [Out(x)]), PartTrack(0, TWO32, [Out(y)]);
    var t3 := Track(90_000, TWO32, TWO32, [Out(y)]);
    var m2 := Muxer(false, 1, [t3], [Part(0, [p1])]);
    FirstIsKept(m0, x);
    WideSecondFlushes(m1, x, y);
    hide WriteSample, NewMuxer;
    assert ops[..1] == [PutOp(0, x)] && ops[..1][..0] == [];
    assert Run(m0, []) == Ok(m0);
    assert Run(m0, ops[..1]) == Ok(m1);
    assert Run(m0, ops) == Ok(m2);
    OneTrackFlush(t3, true);
    assert FlushedPart(t3, 0, true) == p2;
    assert m2.parts + [Part(1, [p2])] == [Part(0, [p1]), Part(1, [p2])];
    TwoParts(Part(0, [p1]), Part(1, [p2]), p1, p2);
    SumOfOne(Out(x));
    var log := [p1, p2];
    assert log[0 + 1].base != log[0].base + SumDurations(log[0].samples);
  }

  lemma FirstIsKept(m: Muxer, x: Sample)
    requires x.dts == 0 && m == NewMuxer([90_000])
    ensures WriteSample(m, 0, x) == Ok(m.(tracks := [Track(90_000, 0, 0, [Out(x)])]))
  {
    var t0 := Track(90_000, -1, 0, []);
    assert m.tracks == [t0];
    OneSecondOfTicks();
    hide DurationGoToMp4;
    var t1 := Track(90_000, 0, 0, [Out(x)]);
    assert [] + [Out(x)] == [Out(x)];
    assert Put(t0, x) == t1;
    assert m.tracks[0 := t1] == [t1];
  }

  lemma OneSecondOfTicks()
    ensures DurationGoToMp4(PART_DURATION, 90_000) == 90_000
  {
  }

  lemma WideSecondFlushes(m: Muxer, x: Sample, y: Sample)
    requires y.dts == TWO32 && m.tracks == [Track(90_000, 0, 0, [Out(x)])] && m.parts == [] && m.nextNumber == 0
    ensures WriteSample(m, 0, y)
         == Ok(Muxer(false, 1, [Track(90_000, TWO32, TWO32, [Out(y)])], [Part(0, [PartTrack(0, 0, [Out(x)])])]))
  {
    OneSecondOfTicks();
    hide DurationGoToMp4;
    var t2 := Track(90_000, 0, TWO32, [Out(x), Out(y)]);
    assert Put(m.tracks[0], y) == t2;
    assert m.tracks[0 := t2] == [t2];
    OneTrackFlush(t2, false);
    assert FlushedPart(t2, 0, false) == PartTrack(0, 0, [Out(x)]);
    assert FlushedTrack(t2, false) == Track(90_000, TWO32, TWO32, [Out(y)]);
    assert m.parts + [Part(0, [PartTrack(0, 0, [Out(x)])])] == [Part(0, [PartTrack(0, 0, [Out(x)])])];
  }

  lemma OneTrackFlush(t: Track, final: bool)
    requires HasToFlush(t, final)
    ensures PartTracks([t], final) == [FlushedPart(t, 0, final)]
    ensures FlushedTracks([t], final) == [FlushedTrack(t, final)]
  {
    assert [t][..0] == [];
    assert PartTracks([], final) == [];
  }

  lemma TwoParts(a: Part, b: Part, p: PartTrack, q: PartTrack)
    requires a.tracks == [p] && b.tracks == [q] && p.track == q.track == 0
    ensures LogOf([a, b], 0) == [p, q]
  {
    assert [a, b][..1] == [a] && [a][..0] == [] && [p][..0] == [] && [q][..0] == [];
    assert EntriesOf([], 0) == [] && LogOf([], 0) == [];
    assert EntriesOf([p], 0) == [p] && EntriesOf([q], 0) == [q];
    assert LogOf([a], 0) == [p];
  }

  lemma SumOfOne(o: OutSample)
    ensures SumDurations([o]) == o.duration
  {
    assert [o][..0] == [];
    assert SumDurations([]) == 0;
  }
}
