/** From recorder to playback: what the playback loop reads back from a segment the recorder wrote. */
module RecorderPlayback {
  import opened GoArith
  import opened Recorder
  import opened RecorderRuns
  import opened RecorderLaws
  import opened RecorderTiming
  import P = Playback
  import F = PlaybackFeed

  // ----- the boxes of a recorded file

  function EntryOf(x: Stored): F.Entry {
    F.Entry(if x.duration >= 0 then x.duration else 0, 0, x.nonSync, x.id)
  }

  function EntriesOf(s: seq<Stored>): (es: seq<F.Entry>)
    ensures |es| == |s|
    ensures forall k | 0 <= k < |s| :: es[k] == EntryOf(s[k])
  {
    seq(|s|, k requires 0 <= k < |s| => EntryOf(s[k]))
  }

  /** The fragments of a part, one for each of the first `n` tracks that is in it. */
  function PartBoxes(p: Part, n: nat): seq<F.Box> {
    if n == 0 then []
    else PartBoxes(p, n - 1) + if n - 1 in p.tracks then [TrafOf(p.tracks[n - 1], n - 1)] else []
  }

  function TrafOf(pt: PartTrack, i: nat): F.Box {
    F.Traf(i, pt.base, EntriesOf(pt.samples))
  }

  function FileBoxes(ps: seq<Part>, n: nat): seq<F.Box> {
    if ps == [] then [] else FileBoxes(ps[..|ps| - 1], n) + (PartBoxes(ps[|ps| - 1], n) + [F.Mdat])
  }

  // ----- what playback reads of one part

  function ReadOf(p: Part, w: F.Window, i: nat): seq<P.Sample>
    requires i < |w.timeScales|
  {
    if i in p.tracks then F.Held(TrafOf(p.tracks[i], i), w, i) else []
  }

  lemma OneBox(b: F.Box, w: F.Window, i: nat)
    requires i < |w.timeScales|
    ensures F.AllSamples([b], w, i) == F.Held(b, w, i)
  {
    assert [b][..0] == [];
    assert F.AllSamples([], w, i) == [];
  }

  lemma OtherTrack(pt: PartTrack, j: nat, w: F.Window, i: nat)
    requires i < |w.timeScales| && i != j
    ensures F.Held(TrafOf(pt, j), w, i) == []
  {
  }

  lemma {:induction false} PartIsRead(p: Part, n: nat, w: F.Window, i: nat)
    requires i < |w.timeScales|
    ensures F.AllSamples(PartBoxes(p, n), w, i) == if i < n then ReadOf(p, w, i) else []
  {
    hide F.Held, TrafOf;
    if n > 0 {
      var j := n - 1;
      PartIsRead(p, j, w, i);
      if j in p.tracks {
        var b := TrafOf(p.tracks[j], j);
        F.AllSamplesConcat(PartBoxes(p, j), [b], w, i);
        OneBox(b, w, i);
        if i != j {
          OtherTrack(p.tracks[j], j, w, i);
        }
      } else {
        assert PartBoxes(p, n) == PartBoxes(p, j);
      }
    }
  }

  /** A sample read back is the one stored, and is decoded less than two ticks before, and not after, its exact
      place in the segment; a little after only if decode times are negative. */
  predicate InPlaceAt(x: P.Sample, y: Stored, offset: int, start: int, rate: int, low: int) {
    && x.payload == y.id && x.nonSync == y.nonSync
    && low <= TickError(x.dts - offset, y.dts, start, rate) < 2 * SECOND
  }

  predicate InPlace(xs: seq<P.Sample>, ys: seq<Stored>, offset: int, start: int, rate: int, low: int) {
    |xs| == |ys| && forall m | 0 <= m < |xs| :: InPlaceAt(xs[m], ys[m], offset, start, rate, low)
  }

  predicate NonNegative(s: seq<Stored>) {
    forall m | 0 <= m < |s| :: s[m].dts >= 0
  }

  function Low(nonNegative: bool): int {
    if nonNegative then 0 else 1 - SECOND
  }

  lemma ElapsedNext(es: seq<F.Entry>, k: nat)
    requires k < |es|
    ensures F.Elapsed(es[..k + 1]) == F.Elapsed(es[..k]) + es[k].duration
  {
    assert es[..k + 1][..k] == es[..k];
  }

  lemma DurationIsKept(s: seq<Stored>, k: nat)
    requires Gapless(s) && k + 1 < |s|
    ensures EntryOf(s[k]).duration == s[k].duration
  {
    hide Uint32;
    assert s[k].duration == Uint32(s[k + 1].dts - s[k].dts);
  }

  lemma {:induction false} ElapsedIsSum(s: seq<Stored>, k: nat)
    requires Gapless(s) && k < |s|
    ensures F.Elapsed(EntriesOf(s)[..k]) == SumDurations(s[..k])
  {
    hide Gapless, EntryOf;
    if k > 0 {
      ElapsedIsSum(s, k - 1);
      SumNext(s, k - 1);
      ElapsedNext(EntriesOf(s), k - 1);
      DurationIsKept(s, k - 1);
    }
  }

  lemma ReadAt(p: Part, w: F.Window, i: nat, k: nat)
    requires i in p.tracks && i < |w.timeScales| && k < |p.tracks[i].samples| && Gapless(p.tracks[i].samples)
    ensures |ReadOf(p, w, i)| == |p.tracks[i].samples|
    ensures var x, y := ReadOf(p, w, i)[k], p.tracks[i].samples[k];
            && x.payload == y.id && x.nonSync == y.nonSync
            && x.dts == F.BaseOf(w, i, p.tracks[i].base) + SumDurations(p.tracks[i].samples[..k])
  {
    hide Gapless, SumDurations;
    ElapsedIsSum(p.tracks[i].samples, k);
  }

  lemma PartIsInPlace(p: Part, w: F.Window, i: nat, start: int, rate: int)
    requires i in p.tracks && i < |w.timeScales| && w.timeScales[i] == rate <= SECOND
    requires TrackBaseOk(p.tracks[i], start, rate) && Gapless(p.tracks[i].samples) && GapsFit(p.tracks[i].samples)
    ensures InPlace(ReadOf(p, w, i), p.tracks[i].samples, DurationGoToMp4(w.startDTS, rate), start, rate,
                    Low(NonNegative(p.tracks[i].samples)))
  {
    var pt, offset := p.tracks[i], DurationGoToMp4(w.startDTS, rate);
    ReadAt(p, w, i, 0);
    forall k | 0 <= k < |pt.samples|
      ensures InPlaceAt(ReadOf(p, w, i)[k], pt.samples[k], offset, start, rate, Low(NonNegative(pt.samples)))
    {
      ReadAt(p, w, i, k);
      GaplessPartPlaysInPlace(pt, start, rate, k);
      hide ReadOf, TickError, SumDurations, Gapless, TrackBaseOk, DurationGoToMp4;
      assert ReadOf(p, w, i)[k].dts - offset == pt.base + SumDurations(pt.samples[..k]);
    }
  }

  // ----- a whole segment

  ghost predicate PartsInPlace(ps: seq<Part>, w: F.Window, i: nat, start: int, rate: int, low: int)
    requires i < |w.timeScales|
  {
    forall q | 0 <= q < |ps| ::
      InPlace(ReadOf(ps[q], w, i), InPart(ps[q], i), DurationGoToMp4(w.startDTS, rate), start, rate, low)
  }

  lemma InPlaceConcat(a: seq<P.Sample>, b: seq<P.Sample>, c: seq<Stored>, d: seq<Stored>, offset: int, start: int,
                      rate: int, low: int)
    requires InPlace(a, c, offset, start, rate, low) && InPlace(b, d, offset, start, rate, low)
    ensures InPlace(a + b, c + d, offset, start, rate, low)
  {
    hide InPlaceAt;
  }

  lemma {:induction false} FileIsInPlace(ps: seq<Part>, n: nat, w: F.Window, i: nat, start: int, rate: int, low: int)
    requires i < n && i < |w.timeScales| && PartsInPlace(ps, w, i, start, rate, low)
    ensures InPlace(F.AllSamples(FileBoxes(ps, n), w, i), InParts(ps, i), DurationGoToMp4(w.startDTS, rate), start,
                    rate, low)
  {
    hide InPlace, ReadOf, InPart, DurationGoToMp4;
    if ps == [] {
      NothingIsInPlace(DurationGoToMp4(w.startDTS, rate), start, rate, low);
    } else {
      var init, p := ps[..|ps| - 1], ps[|ps| - 1];
      assert PartsInPlace(init, w, i, start, rate, low) by {
        assert forall q | 0 <= q < |init| :: init[q] == ps[q];
      }
      FileIsInPlace(init, n, w, i, start, rate, low);
      PartIsRead(p, n, w, i);
      F.AllSamplesConcat(PartBoxes(p, n), [F.Mdat], w, i);
      OneBox(F.Mdat, w, i);
      assert F.AllSamples(PartBoxes(p, n) + [F.Mdat], w, i) == ReadOf(p, w, i);
      F.AllSamplesConcat(FileBoxes(init, n), PartBoxes(p, n) + [F.Mdat], w, i);
      InPlaceConcat(F.AllSamples(FileBoxes(init, n), w, i), ReadOf(p, w, i), InParts(init, i), InPart(p, i),
                    DurationGoToMp4(w.startDTS, rate), start, rate, low);
    }
  }

  lemma NothingIsInPlace(offset: int, start: int, rate: int, low: int)
    ensures InPlace([], [], offset, start, rate, low)
  {
  }

  lemma SliceFits(s: seq<Stored>, a: nat, b: nat)
    requires a <= b <= |s|
    ensures GapsFit(s) ==> GapsFit(s[a..b])
    ensures NonNegative(s) ==> NonNegative(s[a..b])
  {
    if GapsFit(s) {
      forall m | 0 <= m < b - a - 1 ensures s[a..b][m + 1].dts - s[a..b][m].dts < TWO32 {
        assert s[a..b][m] == s[a + m] && s[a..b][m + 1] == s[a + m + 1];
      }
    }
  }

  lemma RelaxLow(xs: seq<P.Sample>, ys: seq<Stored>, offset: int, start: int, rate: int, low: int, low': int)
    requires InPlace(xs, ys, offset, start, rate, low) && low' <= low
    ensures InPlace(xs, ys, offset, start, rate, low')
  {
    hide TickError;
    forall m | 0 <= m < |xs| ensures InPlaceAt(xs[m], ys[m], offset, start, rate, low') {
      assert InPlaceAt(xs[m], ys[m], offset, start, rate, low);
    }
  }

  lemma SegmentPartIsInPlace(r: Rec, hs: seq<History>, n: nat, q: nat, i: nat, w: F.Window)
    requires TracksOk(r, hs) && SegmentsOk(r) && n < |Segs(r)| && q < |AllParts(Segs(r)[n])|
    requires i < |r.tracks| && i < |w.timeScales| && w.timeScales[i] == r.tracks[i].clockRate <= SECOND
    requires GapsFit(InSegment(Segs(r)[n], i))
    ensures var g, rate := Segs(r)[n], r.tracks[i].clockRate;
            InPlace(ReadOf(AllParts(g)[q], w, i), InPart(AllParts(g)[q], i), DurationGoToMp4(w.startDTS, rate),
                    g.startDTS, rate, Low(NonNegative(InSegment(g, i))))
  {
    var g, rate := Segs(r)[n], r.tracks[i].clockRate;
    var ps, p := AllParts(g), AllParts(g)[q];
    var offset, low := DurationGoToMp4(w.startDTS, rate), Low(NonNegative(InSegment(g, i)));
    if i in p.tracks {
      PartIsOk(r, n, q, i);
      hide TrackOk, SegmentsOk, TrackBaseOk, GapsFit, Gapless, InPlace, ReadOf, DurationGoToMp4, NonNegative;
      PartIsGapless(r.tracks[i], hs[i], Segs(r), n, q, i);
      SegmentIsItsParts(g, i);
      var a := PartIsSlice(ps, q, i);
      SliceFits(InSegment(g, i), a, a + |InPart(p, i)|);
      PartIsInPlace(p, w, i, g.startDTS, rate);
      RelaxLow(ReadOf(p, w, i), p.tracks[i].samples, offset, g.startDTS, rate, Low(NonNegative(p.tracks[i].samples)),
               low);
    } else {
      NothingIsInPlace(offset, g.startDTS, rate, low);
    }
  }

  /** Whatever the recorder wrote of a track into a segment, playback reads back: every sample, in order, each
      decoded within the same bounds of its exact place, however long the segment. */
  lemma RecordedSegmentPlaysInPlace(r: Rec, hs: seq<History>, n: nat, i: nat, w: F.Window)
    requires TracksOk(r, hs) && SegmentsOk(r) && n < |Segs(r)|
    requires i < |r.tracks| && i < |w.timeScales| && w.timeScales[i] == r.tracks[i].clockRate <= SECOND
    requires GapsFit(InSegment(Segs(r)[n], i))
    ensures var g, rate := Segs(r)[n], r.tracks[i].clockRate;
            InPlace(F.AllSamples(FileBoxes(AllParts(g), |r.tracks|), w, i), InSegment(g, i),
                    DurationGoToMp4(w.startDTS, rate), g.startDTS, rate, Low(NonNegative(InSegment(g, i))))
  {
    hide TrackOk, SegmentsOk, GapsFit, InPlace, ReadOf, DurationGoToMp4, NonNegative, InSegment, AllParts;
    var g, rate := Segs(r)[n], r.tracks[i].clockRate;
    var low := Low(NonNegative(InSegment(g, i)));
    forall q | 0 <= q < |AllParts(g)|
      ensures InPlace(ReadOf(AllParts(g)[q], w, i), InPart(AllParts(g)[q], i), DurationGoToMp4(w.startDTS, rate),
                      g.startDTS, rate, low)
    {
      SegmentPartIsInPlace(r, hs, n, q, i, w);
    }
    FileIsInPlace(AllParts(g), |r.tracks|, w, i, g.startDTS, rate, low);
    SegmentIsItsParts(g, i);
  }

  // ----- order

  predicate Advancing(s: seq<Stored>) {
    forall a, b | 0 <= a < b < |s| :: s[a].dts < s[b].dts
  }

  /** If decode times are not negative and each is later than the one before, what playback reads is in order,
      across part boundaries too, so that everything proved about playback applies to it. */
  lemma AdvancingIsReadInOrder(xs: seq<P.Sample>, ys: seq<Stored>, offset: int, start: int, rate: int)
    requires InPlace(xs, ys, offset, start, rate, 0) && Advancing(ys)
    ensures P.NonDecreasing(xs)
  {
    forall a, b | 0 <= a < b < |xs| ensures xs[a].dts <= xs[b].dts {
      assert InPlaceAt(xs[a], ys[a], offset, start, rate, 0) && InPlaceAt(xs[b], ys[b], offset, start, rate, 0);
      ErrorsKeepOrder(xs[a].dts - offset, xs[b].dts - offset, ys[a].dts, ys[b].dts, start, rate);
    }
  }

  lemma ErrorsKeepOrder(a: int, b: int, c: int, d: int, start: int, rate: int)
    requires 0 <= TickError(a, c, start, rate) && TickError(b, d, start, rate) < 2 * SECOND && c < d
    ensures a <= b
  {
  }
}
