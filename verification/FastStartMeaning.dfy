/** Remuxing preserves meaning: what a fragmented file says about its samples, read off its structure,
    against what the remuxed tables say. */
module FastStartMeaning {
  import opened Wrappers
  import opened GoArith
  import opened FastStart

  // ----- the meaning of a fragmented file

  datatype Run = Run(dataOffset: int, entries: seq<Entry>)

  datatype Traf = Traf(trackID: int, base: int, runs: seq<Run>)

  datatype Frag = Frag(moofOffset: nat, trafs: seq<Traf>)

  /** A track fragment and the position of its movie fragment, from which data offsets count. */
  datatype Placed = Placed(moofOffset: nat, traf: Traf)

  datatype In = In(dts: int, duration: nat, ptsOffset: int, nonSync: bool, offset: int, size: nat)

  /** Within a run, decode times add up durations and byte ranges follow each other. */
  function InAt(moofOffset: nat, start: int, run: Run, k: nat): In
    requires k < |run.entries|
  {
    var e, before := run.entries[k], run.entries[..k];
    In(start + Durations(before), e.duration, e.ptsOffset, e.nonSync,
       moofOffset + run.dataOffset + Sizes(before), e.size)
  }

  function RunSamples(moofOffset: nat, start: int, run: Run): (r: seq<In>)
    ensures |r| == |run.entries|
  {
    seq(|run.entries|, k requires 0 <= k < |run.entries| => InAt(moofOffset, start, run, k))
  }

  function RunsDuration(rs: seq<Run>): nat {
    if rs == [] then 0 else RunsDuration(rs[..|rs| - 1]) + Durations(rs[|rs| - 1].entries)
  }

  function RunsSize(rs: seq<Run>): nat {
    if rs == [] then 0 else RunsSize(rs[..|rs| - 1]) + Sizes(rs[|rs| - 1].entries)
  }

  /** A run starts where the runs before it end; the first one at the decode time of the fragment. */
  function TrafSamples(moofOffset: nat, base: int, rs: seq<Run>): seq<In> {
    if rs == [] then []
    else
      var p := rs[..|rs| - 1];
      TrafSamples(moofOffset, base, p) + RunSamples(moofOffset, base + RunsDuration(p), rs[|rs| - 1])
  }

  function PlacedOf(fs: seq<Frag>): seq<Placed> {
    if fs == [] then []
    else PlacedOf(fs[..|fs| - 1]) + Placements(fs[|fs| - 1].moofOffset, fs[|fs| - 1].trafs)
  }

  function Placements(moofOffset: nat, ts: seq<Traf>): seq<Placed> {
    if ts == [] then [] else Placements(moofOffset, ts[..|ts| - 1]) + [Placed(moofOffset, ts[|ts| - 1])]
  }

  /** All samples of the `i`-th track. */
  function Meaning(ps: seq<Placed>, ids: seq<int>, i: nat): seq<In> {
    if ps == [] then []
    else
      var p := ps[|ps| - 1];
      Meaning(ps[..|ps| - 1], ids, i)
      + if Owns(ids, i, p.traf.trackID) then TrafSamples(p.moofOffset, p.traf.base, p.traf.runs) else []
  }

  /** Where the last fragment of the `i`-th track ends. */
  function EndOf(ps: seq<Placed>, ids: seq<int>, i: nat): int {
    if ps == [] then 0
    else
      var p := ps[|ps| - 1];
      if Owns(ids, i, p.traf.trackID) then p.traf.base + RunsDuration(p.traf.runs)
      else EndOf(ps[..|ps| - 1], ids, i)
  }

  function TotalSize(ps: seq<Placed>): nat {
    if ps == [] then 0 else TotalSize(ps[..|ps| - 1]) + RunsSize(ps[|ps| - 1].traf.runs)
  }

  /** An error that the fragments give reason for. */
  predicate IsReason(e: Error, ps: seq<Placed>, ids: seq<int>) {
    match e
    case InvalidTrackID => !AllKnown(ps, ids)
    case TooLarge => TotalSize(ps) > MAX_PAYLOAD_SIZE
    case _ => false
  }

  predicate AllKnown(ps: seq<Placed>, ids: seq<int>) {
    forall k | 0 <= k < |ps| :: ps[k].traf.trackID in ids
  }

  // ----- the boxes of a file

  function RunBoxes(rs: seq<Run>): seq<Box> {
    if rs == [] then [] else RunBoxes(rs[..|rs| - 1]) + [Trun(rs[|rs| - 1].dataOffset, rs[|rs| - 1].entries)]
  }

  function TrafBoxes(t: Traf): seq<Box> {
    [Tfhd(t.trackID), Tfdt(t.base)] + RunBoxes(t.runs)
  }

  function TrafsBoxes(ts: seq<Traf>): seq<Box> {
    if ts == [] then [] else TrafsBoxes(ts[..|ts| - 1]) + TrafBoxes(ts[|ts| - 1])
  }

  function FileBoxes(fs: seq<Frag>): seq<Box> {
    if fs == [] then []
    else FileBoxes(fs[..|fs| - 1]) + ([Moof(fs[|fs| - 1].moofOffset)] + TrafsBoxes(fs[|fs| - 1].trafs))
  }

  // ----- one sample

  predicate SameSample(x: Out, y: In) {
    x.ptsOffset == y.ptsOffset && x.nonSync == y.nonSync && x.offset == y.offset && x.size == y.size
  }

  predicate SameSamples(xs: seq<Out>, ys: seq<In>) {
    |xs| == |ys| && forall k | 0 <= k < |xs| :: SameSample(xs[k], ys[k])
  }

  /** All durations but the last are the distances between decode times. */
  predicate Spaced(xs: seq<Out>, ys: seq<In>)
    requires |xs| == |ys|
  {
    forall k | 0 <= k < |xs| - 1 :: xs[k].duration == Uint32(Max(ys[k + 1].dts - ys[k].dts, 0))
  }

  ghost predicate TrackOk(t: Track, ins: seq<In>, end: int) {
    && t.endDTS == end
    && (t.started <==> ins != [])
    && SameSamples(t.samples, ins) && Spaced(t.samples, ins)
    && (ins != [] ==> t.lastDTS == ins[|ins| - 1].dts && t.timeOffset == Int32(ins[0].dts))
  }

  lemma EntryKeepsTrack(t: Track, ins: seq<In>, end: int, e: Entry, offset: int)
    requires TrackOk(t, ins, end)
    ensures var t' := AddSample(t, end, Out(0, e.ptsOffset, e.nonSync, offset, e.size));
            TrackOk(t'.(endDTS := end + e.duration),
                    ins + [In(end, e.duration, e.ptsOffset, e.nonSync, offset, e.size)], end + e.duration)
  {
    hide Int32, Uint32, Max;
  }

  // ----- one run

  lemma RunSamplesNext(moofOffset: nat, start: int, run: Run)
    requires run.entries != []
    ensures var es := run.entries;
            RunSamples(moofOffset, start, run)
            == RunSamples(moofOffset, start, run.(entries := es[..|es| - 1])) + [InAt(moofOffset, start, run, |es| - 1)]
  {
    var es, n := run.entries, |run.entries| - 1;
    forall k | 0 <= k < n
      ensures InAt(moofOffset, start, run, k) == InAt(moofOffset, start, run.(entries := es[..n]), k)
    {
      assert es[..n][..k] == es[..k];
    }
  }

  /** `w'` is `w` after `size` more bytes of track `i`, which now is `t`. */
  predicate Grown(w: Walk, w': Walk, i: nat, t: Track, size: nat)
    requires i < |w.tracks|
  {
    w' == w.(tracks := w.tracks[i := t], payloadSize := w.payloadSize + size) && t.id == w.tracks[i].id
  }

  /** The outcome of giving track `i` samples of `size` bytes, after which it stands for `ins`. */
  ghost predicate Outcome(w: Walk, r: Result<Walk>, i: nat, ins: seq<In>, end: int, size: nat)
    requires i < |w.tracks|
  {
    && (r.Ok? <==> w.payloadSize + size <= MAX_PAYLOAD_SIZE)
    && (r.Err? ==> r.error.TooLarge?)
    && (r.Ok? ==>
          && |r.value.tracks| == |w.tracks|
          && Grown(w, r.value, i, r.value.tracks[i], size)
          && TrackOk(r.value.tracks[i], ins, end))
  }

  /** Outcomes compose; a failure stays one. */
  lemma OutcomesCompose(w: Walk, r1: Result<Walk>, r2: Result<Walk>, i: nat, ins1: seq<In>, ins2: seq<In>,
                        end1: int, end2: int, size1: nat, size2: nat)
    requires i < |w.tracks| && Outcome(w, r1, i, ins1, end1, size1)
    requires r1.Ok? ==> Outcome(r1.value, r2, i, ins2, end2, size2)
    requires r1.Err? ==> r2 == r1
    ensures Outcome(w, r2, i, ins2, end2, size1 + size2)
  {
    hide TrackOk;
  }

  lemma {:induction false} RunKeepsTrack(w: Walk, i: nat, ins: seq<In>, start: int, moofOffset: nat, run: Run)
    requires i < |w.tracks| && TrackOk(w.tracks[i], ins, start) && w.payloadSize <= MAX_PAYLOAD_SIZE
    ensures Outcome(w, AddEntries(w, i, moofOffset + run.dataOffset, run.entries), i,
                    ins + RunSamples(moofOffset, start, run), start + Durations(run.entries), Sizes(run.entries))
    decreases |run.entries|
  {
    hide TrackOk, AddSample, RunSamples;
    var es := run.entries;
    if es == [] {
      NoSamplesInEmptyRun(moofOffset, start, run);
      assert ins + [] == ins;
    } else {
      var n := |es| - 1;
      var p := run.(entries := es[..n]);
      RunKeepsTrack(w, i, ins, start, moofOffset, p);
      var r := AddEntries(w, i, moofOffset + run.dataOffset, p.entries);
      if r.Ok? {
        var w1, ins1 := r.value, ins + RunSamples(moofOffset, start, p);
        EntryKeepsTrack(w1.tracks[i], ins1, start + Durations(p.entries), es[n],
                        moofOffset + run.dataOffset + Sizes(p.entries));
        RunSamplesNext(moofOffset, start, run);
        assert ins + RunSamples(moofOffset, start, run) == ins1 + [InAt(moofOffset, start, run, n)];
        EndIsEnd(w1.tracks[i], ins1, start + Durations(p.entries));
        AddKeepsId(w1.tracks[i], start + Durations(p.entries),
                   Out(0, es[n].ptsOffset, es[n].nonSync, moofOffset + run.dataOffset + Sizes(p.entries), es[n].size));
      }
    }
  }

  lemma NoSamplesInEmptyRun(moofOffset: nat, start: int, run: Run)
    requires run.entries == []
    ensures RunSamples(moofOffset, start, run) == []
  {
  }

  lemma EndIsEnd(t: Track, ins: seq<In>, end: int)
    requires TrackOk(t, ins, end)
    ensures t.endDTS == end
  {
  }

  lemma AddKeepsId(t: Track, dts: int, x: Out)
    ensures AddSample(t, dts, x).id == t.id && AddSample(t, dts, x).endDTS == t.endDTS
  {
    hide Int32, Uint32, Max;
  }

  // ----- one track fragment

  lemma {:induction false} ScanConcat(w: Walk, a: seq<Box>, b: seq<Box>)
    ensures Scan(w, a + b) == match Scan(w, a) case Err(x) => Err(x) case Ok(w1) => Scan(w1, b)
  {
    hide Visit;
    if b == [] {
      assert a + b == a;
    } else {
      var n := |b| - 1;
      assert (a + b)[..|a + b| - 1] == a + b[..n];
      ScanConcat(w, a, b[..n]);
    }
  }

  lemma ScanOne(w: Walk, b: Box)
    ensures Scan(w, [b]) == Visit(w, b)
  {
    assert [b][..0] == [];
    assert Scan(w, []) == Ok(w);
  }

  function AfterRun(r: Result<Walk>, run: Run): Result<Walk> {
    match r case Err(x) => Err(x) case Ok(w) => Visit(w, Trun(run.dataOffset, run.entries))
  }

  /** One more run, after those that left `ins` and end at `end`. */
  lemma RunIsOutcome(w: Walk, r: Result<Walk>, i: nat, ins: seq<In>, end: int, size: nat, run: Run)
    requires i < |w.tracks| && w.cur == Some(i) && Outcome(w, r, i, ins, end, size)
    ensures Outcome(w, AfterRun(r, run), i, ins + RunSamples(w.moofOffset, end, run),
                    end + Durations(run.entries), size + Sizes(run.entries))
  {
    hide TrackOk, AddEntries, RunSamples, Sizes, Durations, Find;
    if r.Ok? {
      RunKeepsTrack(r.value, i, ins, end, w.moofOffset, run);
    }
    var ins' := ins + RunSamples(w.moofOffset, end, run);
    hide Outcome;
    OutcomesCompose(w, r, AfterRun(r, run), i, ins, ins', end, end + Durations(run.entries), size, Sizes(run.entries));
  }

  lemma ScanRun(w: Walk, p: seq<Run>, run: Run)
    ensures Scan(w, RunBoxes(p) + [Trun(run.dataOffset, run.entries)]) == AfterRun(Scan(w, RunBoxes(p)), run)
  {
    hide Visit;
    var last := Trun(run.dataOffset, run.entries);
    ScanConcat(w, RunBoxes(p), [last]);
    if Scan(w, RunBoxes(p)).Ok? {
      ScanOne(Scan(w, RunBoxes(p)).value, last);
    }
  }

  lemma {:induction false} RunsKeepTrack(w: Walk, i: nat, ins: seq<In>, base: int, rs: seq<Run>)
    requires i < |w.tracks| && w.cur == Some(i) && TrackOk(w.tracks[i], ins, base) && w.payloadSize <= MAX_PAYLOAD_SIZE
    ensures Outcome(w, Scan(w, RunBoxes(rs)), i,
                    ins + TrafSamples(w.moofOffset, base, rs), base + RunsDuration(rs), RunsSize(rs))
  {
    hide TrackOk, RunSamples, Sizes, Durations, AfterRun, Visit;
    if rs == [] {
      assert ins + [] == ins;
    } else {
      var p, run := rs[..|rs| - 1], rs[|rs| - 1];
      RunsKeepTrack(w, i, ins, base, p);
      var ins1, end1 := ins + TrafSamples(w.moofOffset, base, p), base + RunsDuration(p);
      hide Outcome, Scan;
      ScanRun(w, p, run);
      RunIsOutcome(w, Scan(w, RunBoxes(p)), i, ins1, end1, RunsSize(p), run);
      assert ins + TrafSamples(w.moofOffset, base, rs) == ins1 + RunSamples(w.moofOffset, end1, run);
    }
  }

  // ----- the whole file

  ghost predicate WalkOk(w: Walk, ids: seq<int>, ps: seq<Placed>) {
    && Ids(w.tracks) == ids
    && w.payloadSize == TotalSize(ps) <= MAX_PAYLOAD_SIZE
    && forall i: nat | i < |ids| :: TrackOk(w.tracks[i], Meaning(ps, ids, i), EndOf(ps, ids, i))
  }

  /** The walk after the headers of a track fragment of track `i`. */
  function Headed(w: Walk, i: nat, base: int): Walk
    requires i < |w.tracks|
  {
    w.(cur := Some(i), tracks := w.tracks[i := w.tracks[i].(endDTS := base)])
  }

  lemma TrafScan(w: Walk, t: Traf)
    ensures var i := Find(Ids(w.tracks), t.trackID);
            Scan(w, TrafBoxes(t)) == if i.None? then Err(InvalidTrackID)
                                     else Scan(Headed(w, i.value, t.base), RunBoxes(t.runs))
  {
    assert TrafBoxes(t) == [Tfhd(t.trackID)] + ([Tfdt(t.base)] + RunBoxes(t.runs));
    ScanConcat(w, [Tfhd(t.trackID)], [Tfdt(t.base)] + RunBoxes(t.runs));
    ScanOne(w, Tfhd(t.trackID));
    var i := Find(Ids(w.tracks), t.trackID);
    if i.Some? {
      var w1 := w.(cur := i);
      ScanConcat(w1, [Tfdt(t.base)], RunBoxes(t.runs));
      ScanOne(w1, Tfdt(t.base));
    }
  }

  lemma TrafKeepsWalk(w: Walk, ids: seq<int>, ps: seq<Placed>, t: Traf)
    requires WalkOk(w, ids, ps)
    ensures var r, ps' := Scan(w, TrafBoxes(t)), ps + [Placed(w.moofOffset, t)];
            && (r.Ok? <==> t.trackID in ids && TotalSize(ps') <= MAX_PAYLOAD_SIZE)
            && (r.Err? ==> r.error == if t.trackID in ids then TooLarge else InvalidTrackID)
            && (r.Ok? ==> WalkOk(r.value, ids, ps') && r.value.moofOffset == w.moofOffset)
  {
    hide TrackOk, RunsDuration, RunsSize, TrafSamples, TrafBoxes, RunBoxes;
    var ps' := ps + [Placed(w.moofOffset, t)];
    assert ps'[..|ps|] == ps;
    TrafScan(w, t);
    var found := Find(ids, t.trackID);
    if found.Some? {
      var i := found.value;
      var w2 := Headed(w, i, t.base);
      Restarted(w.tracks[i], Meaning(ps, ids, i), EndOf(ps, ids, i), t.base);
      RunsKeepTrack(w2, i, Meaning(ps, ids, i), t.base, t.runs);
      var r := Scan(w2, RunBoxes(t.runs));
      if r.Ok? {
        assert Ids(r.value.tracks) == ids;
        forall j: nat | j < |ids| ensures TrackOk(r.value.tracks[j], Meaning(ps', ids, j), EndOf(ps', ids, j)) {
          FindIff(ids, t.trackID, j);
          if j != i {
            assert r.value.tracks[j] == w.tracks[j];
            assert Meaning(ps', ids, j) == Meaning(ps, ids, j);
          }
        }
      }
    }
  }

  lemma Restarted(t: Track, ins: seq<In>, end: int, base: int)
    requires TrackOk(t, ins, end)
    ensures TrackOk(t.(endDTS := base), ins, base)
  {
  }

  lemma {:induction false} TotalSizeGrows(a: seq<Placed>, b: seq<Placed>)
    ensures TotalSize(a) <= TotalSize(a + b)
  {
    if b == [] {
      assert a + b == a;
    } else {
      assert (a + b)[..|a + b| - 1] == a + b[..|b| - 1];
      TotalSizeGrows(a, b[..|b| - 1]);
    }
  }

  lemma {:induction false} TrafsKeepWalk(w: Walk, ids: seq<int>, ps: seq<Placed>, ts: seq<Traf>)
    requires WalkOk(w, ids, ps) && AllKnown(ps, ids)
    ensures var r, ps' := Scan(w, TrafsBoxes(ts)), ps + Placements(w.moofOffset, ts);
            && (r.Ok? <==> AllKnown(ps', ids) && TotalSize(ps') <= MAX_PAYLOAD_SIZE)
            && (r.Err? ==> IsReason(r.error, ps', ids))
            && (r.Ok? ==> WalkOk(r.value, ids, ps') && r.value.moofOffset == w.moofOffset)
  {
    hide WalkOk, TrafBoxes, TotalSize;
    if ts == [] {
      assert ps + [] == ps;
      WithinBounds(w, ids, ps);
    } else {
      var p, t := ts[..|ts| - 1], ts[|ts| - 1];
      var ps1 := ps + Placements(w.moofOffset, p);
      var ps' := ps1 + [Placed(w.moofOffset, t)];
      assert ps + Placements(w.moofOffset, ts) == ps';
      TrafsKeepWalk(w, ids, ps, p);
      ScanConcat(w, TrafsBoxes(p), TrafBoxes(t));
      TotalSizeGrows(ps1, [Placed(w.moofOffset, t)]);
      KnownNext(ps1, Placed(w.moofOffset, t), ids);
      var r := Scan(w, TrafsBoxes(p));
      if r.Ok? {
        TrafKeepsWalk(r.value, ids, ps1, t);
      }
    }
  }

  lemma WithinBounds(w: Walk, ids: seq<int>, ps: seq<Placed>)
    requires WalkOk(w, ids, ps)
    ensures TotalSize(ps) <= MAX_PAYLOAD_SIZE
  {
  }

  lemma KnownNext(ps: seq<Placed>, p: Placed, ids: seq<int>)
    ensures AllKnown(ps + [p], ids) <==> AllKnown(ps, ids) && p.traf.trackID in ids
  {
    var all := ps + [p];
    if AllKnown(all, ids) {
      assert all[|ps|] == p;
      forall k | 0 <= k < |ps| ensures ps[k].traf.trackID in ids {
        assert all[k] == ps[k];
      }
    }
  }

  lemma {:induction false} KnownPrefix(a: seq<Placed>, b: seq<Placed>, ids: seq<int>)
    requires AllKnown(a + b, ids)
    ensures AllKnown(a, ids)
  {
    forall k | 0 <= k < |a| ensures a[k].traf.trackID in ids {
      assert (a + b)[k] == a[k];
    }
  }

  lemma MovedKeepsWalk(w: Walk, ids: seq<int>, ps: seq<Placed>, offset: nat)
    requires WalkOk(w, ids, ps)
    ensures WalkOk(w.(moofOffset := offset), ids, ps)
  {
  }

  lemma NewWalkIsOk(ids: seq<int>)
    ensures WalkOk(Walk(NewTracks(ids), None, 0, 0), ids, [])
  {
  }

  lemma {:induction false} FileKeepsWalk(ids: seq<int>, fs: seq<Frag>)
    ensures var r, ps := Scan(Walk(NewTracks(ids), None, 0, 0), FileBoxes(fs)), PlacedOf(fs);
            && (r.Ok? <==> AllKnown(ps, ids) && TotalSize(ps) <= MAX_PAYLOAD_SIZE)
            && (r.Err? ==> IsReason(r.error, ps, ids))
            && (r.Ok? ==> WalkOk(r.value, ids, ps))
  {
    hide WalkOk, TrafsBoxes, TotalSize, Placements;
    var w0 := Walk(NewTracks(ids), None, 0, 0);
    if fs == [] {
      NewWalkIsOk(ids);
      WithinBounds(w0, ids, []);
    } else {
      var p, f := fs[..|fs| - 1], fs[|fs| - 1];
      var ps, more := PlacedOf(p), Placements(f.moofOffset, f.trafs);
      FileKeepsWalk(ids, p);
      ScanConcat(w0, FileBoxes(p), [Moof(f.moofOffset)] + TrafsBoxes(f.trafs));
      TotalSizeGrows(ps, more);
      if AllKnown(ps + more, ids) {
        KnownPrefix(ps, more, ids);
      }
      var r := Scan(w0, FileBoxes(p));
      if r.Ok? {
        var w1 := r.value.(moofOffset := f.moofOffset);
        ScanConcat(r.value, [Moof(f.moofOffset)], TrafsBoxes(f.trafs));
        ScanOne(r.value, Moof(f.moofOffset));
        MovedKeepsWalk(r.value, ids, ps, f.moofOffset);
        TrafsKeepWalk(w1, ids, ps, f.trafs);
      }
    }
  }

  // ----- the result

  /** A remuxed track says what the input said: the same samples in the same order with the same bytes,
      spaced as they were, the last one lasting until the end of the fragment. */
  ghost predicate Preserves(t: Track, ins: seq<In>, end: int) {
    && ins != []
    && SameSamples(t.samples, ins) && Spaced(t.samples, ins)
    && t.timeOffset == Int32(ins[0].dts)
    && t.samples[|t.samples| - 1].duration == Uint32(Max(end - ins[|ins| - 1].dts, 0))
  }

  lemma FinalizePreserves(t: Track, ins: seq<In>, end: int)
    requires TrackOk(t, ins, end) && t.samples != []
    ensures Preserves(Finalize(t), ins, end)
  {
    hide Int32, Uint32, Max;
  }

  lemma {:induction false} CollectedIff(ts: seq<Track>, t: Track)
    ensures t in Collected(ts) <==> exists i: nat :: i < |ts| && ts[i].samples != [] && t == Finalize(ts[i])
  {
    hide Finalize;
    if ts != [] {
      var p, n := ts[..|ts| - 1], |ts| - 1;
      CollectedIff(p, t);
      if i: nat :| i < |p| && p[i].samples != [] && t == Finalize(p[i]) {
        assert ts[i] == p[i];
      }
      if i: nat :| i < |ts| && ts[i].samples != [] && t == Finalize(ts[i]) {
        assert i < n ==> p[i] == ts[i];
      }
    }
  }

  ghost predicate HasSamples(fs: seq<Frag>, ids: seq<int>) {
    exists i: nat :: i < |ids| && Meaning(PlacedOf(fs), ids, i) != []
  }

  /** Remuxing fails exactly for an unknown track, for more payload than 32 bits can address, or for
      nothing to remux, and says which. */
  lemma ReadSucceedsIff(ids: seq<int>, fs: seq<Frag>)
    ensures Read(ids, FileBoxes(fs)).Ok?
       <==> AllKnown(PlacedOf(fs), ids) && TotalSize(PlacedOf(fs)) <= MAX_PAYLOAD_SIZE && HasSamples(fs, ids)
    ensures var r, ps := Read(ids, FileBoxes(fs)), PlacedOf(fs);
            r.Err? ==> if AllKnown(ps, ids) && TotalSize(ps) <= MAX_PAYLOAD_SIZE then r.error.NoSamplesFound?
                       else IsReason(r.error, ps, ids)
  {
    FileKeepsWalk(ids, fs);
    var ps, r := PlacedOf(fs), Scan(Walk(NewTracks(ids), None, 0, 0), FileBoxes(fs));
    hide FileBoxes, PlacedOf, Scan, AllKnown;
    if r.Ok? {
      var ts := r.value.tracks;
      assert |Ids(ts)| == |ts|;
      CollectedIsEmptyIff(ts);
      forall i: nat | i < |ids| ensures ts[i].samples == [] <==> Meaning(ps, ids, i) == [] {
        assert TrackOk(ts[i], Meaning(ps, ids, i), EndOf(ps, ids, i));
      }
    }
  }

  lemma {:induction false} CollectedIsEmptyIff(ts: seq<Track>)
    ensures Collected(ts) == [] <==> forall i: nat | i < |ts| :: ts[i].samples == []
  {
    if ts != [] {
      var p, n := ts[..|ts| - 1], |ts| - 1;
      CollectedIsEmptyIff(p);
      if Collected(ts) == [] {
        forall i: nat | i < |ts| ensures ts[i].samples == [] {
          assert i < n ==> p[i] == ts[i];
        }
      }
    }
  }

  /** Every track of the result preserves one track of the input, and every track of the input that has
      samples is in the result. */
  lemma ReadPreserves(ids: seq<int>, fs: seq<Frag>) returns (ts: seq<Track>)
    requires Read(ids, FileBoxes(fs)).Ok?
    ensures |ts| == |ids| && Read(ids, FileBoxes(fs)) == Ok(Collected(ts))
    ensures forall i: nat | i < |ids| ::
              && ts[i].id == ids[i]
              && (ts[i].samples == [] <==> Meaning(PlacedOf(fs), ids, i) == [])
              && (ts[i].samples != [] ==>
                    Preserves(Finalize(ts[i]), Meaning(PlacedOf(fs), ids, i), EndOf(PlacedOf(fs), ids, i)))
  {
    hide Meaning, EndOf, Preserves, Finalize;
    FileKeepsWalk(ids, fs);
    var ps := PlacedOf(fs);
    var w := Scan(Walk(NewTracks(ids), None, 0, 0), FileBoxes(fs)).value;
    ts := w.tracks;
    assert |Ids(ts)| == |ts|;
    forall i: nat | i < |ids|
      ensures ts[i].id == ids[i] && (ts[i].samples == [] <==> Meaning(ps, ids, i) == [])
      ensures ts[i].samples != [] ==> Preserves(Finalize(ts[i]), Meaning(ps, ids, i), EndOf(ps, ids, i))
    {
      assert Ids(ts)[i] == ts[i].id;
      assert TrackOk(ts[i], Meaning(ps, ids, i), EndOf(ps, ids, i));
      if ts[i].samples != [] {
        FinalizePreserves(ts[i], Meaning(ps, ids, i), EndOf(ps, ids, i));
      }
    }
  }

  // ----- decode times

  function SumDurations(s: seq<Out>): int {
    if s == [] then 0 else SumDurations(s[..|s| - 1]) + s[|s| - 1].duration
  }

  /** When a player of the output decodes the `k`-th sample. */
  function PlayedAt(t: Track, k: nat): int
    requires k <= |t.samples|
  {
    t.timeOffset + SumDurations(t.samples[..k])
  }

  predicate KeepsTime(t: Track, ins: seq<In>)
    requires |t.samples| == |ins|
  {
    forall k: nat | k < |ins| :: PlayedAt(t, k) == ins[k].dts
  }

  /** The output format can express these decode times: the first fits its offset, time does not run
      back, and every distance, gaps between fragments included, fits a duration. */
  predicate Expressible(ins: seq<In>)
    requires ins != []
  {
    && -0x8000_0000 <= ins[0].dts < 0x8000_0000
    && forall k | 0 <= k < |ins| - 1 :: 0 <= ins[k + 1].dts - ins[k].dts < TWO32
  }

  lemma PlayedNext(t: Track, ins: seq<In>, end: int, k: nat)
    requires Preserves(t, ins, end) && k + 1 < |ins|
    ensures PlayedAt(t, k + 1) == PlayedAt(t, k) + Uint32(Max(ins[k + 1].dts - ins[k].dts, 0))
  {
    assert t.samples[..k + 1][..k] == t.samples[..k];
  }

  lemma PlayedFirst(t: Track)
    ensures PlayedAt(t, 0) == t.timeOffset
  {
  }

  lemma {:induction false} ExpressibleKeepsTime(t: Track, ins: seq<In>, end: int, k: nat)
    requires Preserves(t, ins, end) && Expressible(ins) && k < |ins|
    ensures PlayedAt(t, k) == ins[k].dts
  {
    hide PlayedAt, SameSamples, Spaced;
    PlayedFirst(t);
    if k > 0 {
      ExpressibleKeepsTime(t, ins, end, k - 1);
      PlayedNext(t, ins, end, k - 1);
      assert ins[k - 1 + 1] == ins[k];
    }
  }

  /** Every sample is decoded when it was in the input if and only if the format can express it. */
  lemma KeepsTimeIff(t: Track, ins: seq<In>, end: int)
    requires Preserves(t, ins, end)
    ensures KeepsTime(t, ins) <==> Expressible(ins)
  {
    hide PlayedAt, Spaced;
    if Expressible(ins) {
      forall k: nat | k < |ins| ensures PlayedAt(t, k) == ins[k].dts {
        ExpressibleKeepsTime(t, ins, end, k);
      }
    }
    if KeepsTime(t, ins) {
      PlayedFirst(t);
      assert PlayedAt(t, 0) == ins[0].dts;
      forall k: nat | k < |ins| - 1 ensures 0 <= ins[k + 1].dts - ins[k].dts < TWO32 {
        PlayedNext(t, ins, end, k);
        assert PlayedAt(t, k) == ins[k].dts && PlayedAt(t, k + 1) == ins[k + 1].dts;
      }
    }
  }

  // ----- the last sample

  /** The last track fragment of the `i`-th track. */
  function Tail(ps: seq<Placed>, ids: seq<int>, i: nat): Option<Placed> {
    if ps == [] then None
    else if Owns(ids, i, ps[|ps| - 1].traf.trackID) then Some(ps[|ps| - 1])
    else Tail(ps[..|ps| - 1], ids, i)
  }

  lemma {:induction false} TrafEnds(moofOffset: nat, base: int, rs: seq<Run>)
    ensures var s := TrafSamples(moofOffset, base, rs);
            && (s != [] ==> s[|s| - 1].dts + s[|s| - 1].duration == base + RunsDuration(rs))
            && (s == [] ==> RunsDuration(rs) == 0)
  {
    if rs != [] {
      var n := |rs| - 1;
      TrafEnds(moofOffset, base, rs[..n]);
      var es := rs[n].entries;
      if es != [] {
        assert RunSamples(moofOffset, base + RunsDuration(rs[..n]), rs[n])[|es| - 1]
            == InAt(moofOffset, base + RunsDuration(rs[..n]), rs[n], |es| - 1);
      }
    }
  }

  /** The end the last duration is measured to: the end of the last sample, unless an empty fragment
      follows and claims another time. */
  lemma {:induction false} EndComesFromTail(ps: seq<Placed>, ids: seq<int>, i: nat)
    requires Meaning(ps, ids, i) != []
    ensures var s, tail := Meaning(ps, ids, i), Tail(ps, ids, i);
            && tail.Some?
            && EndOf(ps, ids, i)
               == if EmptyTraf(tail.value) then tail.value.traf.base else s[|s| - 1].dts + s[|s| - 1].duration
  {
    var n := |ps| - 1;
    var p := ps[n];
    if Owns(ids, i, p.traf.trackID) {
      TrafEnds(p.moofOffset, p.traf.base, p.traf.runs);
    } else {
      EndComesFromTail(ps[..n], ids, i);
    }
  }

  predicate EmptyTraf(p: Placed) {
    TrafSamples(p.moofOffset, p.traf.base, p.traf.runs) == []
  }

  /** What a last sample that started `d` before the claimed end keeps of its duration: exactly `d` modulo
      2^32, and nothing if the claim is earlier. */
  predicate ClaimKeeps(duration: nat, d: int) {
    if d >= 0 then d % TWO32 == duration else duration == 0
  }

  /** In the remuxed table the last sample has its declared duration if and only if its track ends with a
      fragment that has samples, or the empty one that follows claims a time that keeps it. */
  lemma LastDurationIsKeptIff(t: Track, ps: seq<Placed>, ids: seq<int>, i: nat)
    requires Meaning(ps, ids, i) != [] && Preserves(t, Meaning(ps, ids, i), EndOf(ps, ids, i))
    requires var s := Meaning(ps, ids, i); s[|s| - 1].duration < TWO32
    ensures var s, tail := Meaning(ps, ids, i), Tail(ps, ids, i);
            var last := s[|s| - 1];
            && tail.Some?
            && (t.samples[|t.samples| - 1].duration == last.duration
                <==> !EmptyTraf(tail.value) || ClaimKeeps(last.duration, tail.value.traf.base - last.dts))
  {
    EndComesFromTail(ps, ids, i);
  }

  /** For claims less than 2^32 ticks after the last sample: the claimed time must be its end, or not after
      its start if it lasts nothing. */
  lemma NearClaimsKeepIff(duration: nat, d: int)
    requires d < TWO32
    ensures ClaimKeeps(duration, d) <==> d == duration || (d <= 0 && duration == 0)
  {
  }

  // ----- files that lose something

  lemma OnlyTrack(id: int)
    ensures Owns([id], 0, id)
  {
  }

  function OneSample(base: int, duration: nat): Traf {
    Traf(1, base, [Run(0, [Entry(1, duration, false, 0)])])
  }

  /** The samples and the end of a track of two fragments of one sample each, the second possibly empty. */
  lemma TwoFragments(first: Traf, second: Traf)
    requires first.trackID == second.trackID == 1
    ensures var fs, ids := [Frag(0, [first]), Frag(0, [second])], [1];
            && PlacedOf(fs) == [Placed(0, first), Placed(0, second)]
            && Meaning(PlacedOf(fs), ids, 0)
               == TrafSamples(0, first.base, first.runs) + TrafSamples(0, second.base, second.runs)
            && EndOf(PlacedOf(fs), ids, 0) == second.base + RunsDuration(second.runs)
            && AllKnown(PlacedOf(fs), ids)
            && TotalSize(PlacedOf(fs)) == RunsSize(first.runs) + RunsSize(second.runs)
  {
    hide TrafSamples, RunsDuration, RunsSize;
    OnlyTrack(1);
    var f1, f2 := Frag(0, [first]), Frag(0, [second]);
    var p1, p2 := Placed(0, first), Placed(0, second);
    assert [f1, f2][..1] == [f1] && [f1][..0] == [] && [first][..0] == [] && [second][..0] == [];
    assert Placements(0, []) == [] && PlacedOf([]) == [];
    assert Placements(0, [first]) == [p1] && Placements(0, [second]) == [p2];
    assert PlacedOf([f1]) == [p1];
    assert [p1, p2][..1] == [p1] && [p1][..0] == [];
    assert Meaning([], [1], 0) == [] && TotalSize([]) == 0;
    assert Meaning([p1], [1], 0) == TrafSamples(0, first.base, first.runs);
    assert TotalSize([p1]) == RunsSize(first.runs);
  }

  lemma OneSampleMeans(base: int, duration: nat)
    ensures var t := OneSample(base, duration);
            && TrafSamples(0, base, t.runs) == [In(base, duration, 0, false, 0, 1)]
            && RunsDuration(t.runs) == duration && RunsSize(t.runs) == 1
  {
    var es := [Entry(1, duration, false, 0)];
    var run := Run(0, es);
    assert es[..0] == [] && [run][..0] == [];
    assert Durations([]) == 0 && Sizes([]) == 0 && RunsDuration([]) == 0 && RunsSize([]) == 0;
    assert RunSamples(0, base, run) == [InAt(0, base, run, 0)];
    assert TrafSamples(0, base, []) == [];
  }

  lemma NoSamplesMean(base: int)
    ensures TrafSamples(0, base, []) == [] && RunsDuration([]) == 0 && RunsSize([]) == 0
  {
  }

  /** The one track of such a file, remuxed. */
  lemma RemuxedTrack(fs: seq<Frag>) returns (t: Track)
    requires AllKnown(PlacedOf(fs), [1]) && TotalSize(PlacedOf(fs)) <= MAX_PAYLOAD_SIZE
    requires Meaning(PlacedOf(fs), [1], 0) != []
    ensures Read([1], FileBoxes(fs)) == Ok([t])
    ensures Preserves(t, Meaning(PlacedOf(fs), [1], 0), EndOf(PlacedOf(fs), [1], 0))
  {
    hide AllKnown, Preserves, Finalize, Scan;
    assert HasSamples(fs, [1]);
    ReadSucceedsIff([1], fs);
    var ts := ReadPreserves([1], fs);
    assert ts[..0] == [];
    assert Collected(ts[..0]) == [];
    t := Finalize(ts[0]);
    assert Collected(ts) == [t];
  }

  /** A sample of five ticks at time 10, then an empty fragment that claims time 100: remuxed, the sample
      lasts 90. */
  lemma LastDurationCanBeLost() returns (t: Track)
    ensures Read([1], FileBoxes([Frag(0, [OneSample(10, 5)]), Frag(0, [Traf(1, 100, [])])])) == Ok([t])
    ensures |t.samples| == 1 && t.samples[0].duration == 90
  {
    hide FileBoxes, Read, PlacedOf, Meaning, EndOf, AllKnown, TotalSize;
    TwoFragments(OneSample(10, 5), Traf(1, 100, []));
    OneSampleMeans(10, 5);
    NoSamplesMean(100);
    t := RemuxedTrack([Frag(0, [OneSample(10, 5)]), Frag(0, [Traf(1, 100, [])])]);
  }

  /** A gap of 2^32 ticks between fragments is remuxed to none. */
  lemma WideGapIsLost() returns (t: Track)
    ensures Read([1], FileBoxes([Frag(0, [OneSample(0, 5)]), Frag(0, [OneSample(TWO32, 5)])])) == Ok([t])
    ensures |t.samples| == 2 && PlayedAt(t, 1) == 0
  {
    hide FileBoxes, Read, PlacedOf, Meaning, EndOf, AllKnown, TotalSize;
    TwoFragments(OneSample(0, 5), OneSample(TWO32, 5));
    OneSampleMeans(0, 5);
    OneSampleMeans(TWO32, 5);
    t := RemuxedTrack([Frag(0, [OneSample(0, 5)]), Frag(0, [OneSample(TWO32, 5)])]);
    TwoPlayed(t, 0, TWO32, TWO32 + 5);
  }

  /** Time that runs back from 10 to 0 is remuxed to standing still: the second sample plays at 10. */
  lemma RunningBackIsLost() returns (t: Track)
    ensures Read([1], FileBoxes([Frag(0, [OneSample(10, 5)]), Frag(0, [OneSample(0, 5)])])) == Ok([t])
    ensures |t.samples| == 2 && PlayedAt(t, 1) == 10
  {
    hide FileBoxes, Read, PlacedOf, Meaning, EndOf, AllKnown, TotalSize;
    TwoFragments(OneSample(10, 5), OneSample(0, 5));
    OneSampleMeans(10, 5);
    OneSampleMeans(0, 5);
    t := RemuxedTrack([Frag(0, [OneSample(10, 5)]), Frag(0, [OneSample(0, 5)])]);
    TwoPlayed(t, 10, 0, 5);
  }

  lemma TwoPlayed(t: Track, a: int, b: int, end: int)
    requires Preserves(t, [In(a, 5, 0, false, 0, 1)] + [In(b, 5, 0, false, 0, 1)], end)
    ensures |t.samples| == 2 && PlayedAt(t, 1) == Int32(a) + Uint32(Max(b - a, 0))
  {
    var ins := [In(a, 5, 0, false, 0, 1)] + [In(b, 5, 0, false, 0, 1)];
    PlayedFirst(t);
    PlayedNext(t, ins, end, 0);
  }
}
