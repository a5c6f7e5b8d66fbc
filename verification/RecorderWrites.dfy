/** What one more sample does to a recording, said of every run and in terms of what was received: when a segment
    is rotated, where the next one starts, which part the sample goes to. */
module RecorderWrites {
  import opened Wrappers
  import opened GoArith
  import opened Recorder
  import opened RecorderRuns
  import opened RecorderLaws
  import opened RecorderParts
  import opened RecorderTiming
  import opened RecorderRotation

  // ----- what a run knows of its tracks

  ghost predicate VideoReceived(ts: seq<TrackConf>, ops: seq<Op>) {
    exists j: nat :: j < |ts| && ts[j].isVideo && Received(ops, j) != []
  }

  predicate SameTracks(ts: seq<TrackConf>, r: Rec) {
    && |r.tracks| == |ts|
    && forall j | 0 <= j < |ts| :: r.tracks[j].clockRate == ts[j].clockRate && r.tracks[j].isVideo == ts[j].isVideo
  }

  predicate Runs(c: Conf, ts: seq<TrackConf>, ops: seq<Op>) {
    ClocksRun(ts) && OpsFit(ops, |ts|) && Run(c, Initial(ts), ops).Ok?
  }

  function After(c: Conf, ts: seq<TrackConf>, ops: seq<Op>): (r: Rec)
    requires Runs(c, ts, ops)
    ensures RatesOk(r) && |r.tracks| == |ts|
  {
    Run(c, Initial(ts), ops).value
  }

  lemma RunsBefore(c: Conf, ts: seq<TrackConf>, ops: seq<Op>, op: Op)
    requires Runs(c, ts, ops + [op])
    ensures Runs(c, ts, ops) && op.track < |ts|
    ensures Write(c, After(c, ts, ops), op.track, op.sample) == Ok(After(c, ts, ops + [op]))
    ensures forall j: nat :: Received(ops + [op], j) == Received(ops, j) + if op.track == j then [op.sample] else []
  {
    hide Write;
    var all := ops + [op];
    assert all[..|ops|] == ops && all[|ops|] == op;
    assert OpsFit(ops, |ts|) by {
      forall j | 0 <= j < |ops| ensures ops[j].track < |ts| {
        assert all[j] == ops[j];
      }
    }
  }

  lemma WriteKeepsTrackConfs(c: Conf, ts: seq<TrackConf>, r: Rec, i: nat, s: Sample)
    requires SameTracks(ts, r) && RatesOk(r) && i < |ts| && Write(c, r, i, s).Ok?
    ensures SameTracks(ts, Write(c, r, i, s).value)
    ensures Write(c, r, i, s).value.hasVideo == (r.hasVideo || ts[i].isVideo)
  {
    hide WriteToSegment, MustRotate, Drifted, NextStart, TimestampToDuration, Settle, Clamped;
  }

  /** The recorder remembers exactly whether any video track has received anything. */
  lemma {:induction false} HasVideoIff(c: Conf, ts: seq<TrackConf>, ops: seq<Op>)
    requires Runs(c, ts, ops)
    ensures SameTracks(ts, After(c, ts, ops))
    ensures After(c, ts, ops).hasVideo <==> VideoReceived(ts, ops)
  {
    hide Write;
    if ops != [] {
      var p, op := ops[..|ops| - 1], ops[|ops| - 1];
      assert p + [op] == ops;
      RunsBefore(c, ts, p, op);
      HasVideoIff(c, ts, p);
      WriteKeepsTrackConfs(c, ts, After(c, ts, p), op.track, op.sample);
      if VideoReceived(ts, p) {
        var j: nat :| j < |ts| && ts[j].isVideo && Received(p, j) != [];
        assert Received(ops, j) != [];
      }
      assert ts[op.track].isVideo ==> Received(ops, op.track) != [];
      if VideoReceived(ts, ops) {
        var j: nat :| j < |ts| && ts[j].isVideo && Received(ops, j) != [];
        assert j != op.track ==> Received(p, j) != [];
      }
    }
  }

  // ----- when a segment is rotated

  /** The time of the `k`-th sample received, in nanoseconds, after clamping. */
  function TimeOf(recv: seq<Sample>, k: nat, rate: int): int
    requires k < |recv| && rate > 0
  {
    TimestampToDuration(RunMax(recv, k), rate)
  }

  /** The start of the segment that a sample at time `d` meets: the open one, or the one it opens. */
  function StartMet(r: Rec, d: int): int {
    if r.segment.Some? then r.segment.value.startDTS else d
  }

  lemma PendingIsLast(t: Track, i: nat, segs: seq<Segment>, h: History, s: Sample)
    requires TrackOk(t, i, segs, h.recv, h.log)
    ensures t.next.None? <==> h.recv == []
    ensures h.recv != [] ==>
              && t.next.value == h.recv[|h.recv| - 1].(dts := RunMax(h.recv, |h.recv| - 1))
              && PendingDTS(t) == TimeOf(h.recv, |h.recv| - 1, t.clockRate)
              && Advanced(t, s).next == Some(s.(dts := RunMax(h.recv + [s], |h.recv|)))
  {
    hide InSegment, FatesOk, TimestampToDuration, Selected;
    if h.recv != [] {
      SettledIsStored(t, h.recv, s);
    }
  }

  /** What the track that is written to has pending. */
  lemma PendingInRun(c: Conf, ts: seq<TrackConf>, ops: seq<Op>, i: nat, s: Sample)
    requires Runs(c, ts, ops) && i < |ts|
    ensures var r, recv, rate := After(c, ts, ops), Received(ops, i), ts[i].clockRate;
            var t := r.tracks[i];
            && t.clockRate == rate > 0 && t.isVideo == ts[i].isVideo && (t.next.None? <==> recv == [])
            && (recv != [] ==>
                  && t.next.value == recv[|recv| - 1].(dts := RunMax(recv, |recv| - 1))
                  && PendingDTS(t) == TimeOf(recv, |recv| - 1, rate)
                  && Advanced(t, s).next == Some(s.(dts := RunMax(recv + [s], |recv|)))
                  && PendingDTS(Advanced(t, s)) == TimeOf(recv + [s], |recv|, rate)
                  && Settle(t.next.value, Clamped(t.next.value, s)) == StoredAt(recv + [s], |recv| - 1))
  {
    hide Run, TrackOk, SegmentsOk, TimestampToDuration, RunMax, Received, StoredAt, Settle, Clamped;
    HasVideoIff(c, ts, ops);
    EverySampleIsAccountedFor(c, ts, ops);
    var r := After(c, ts, ops);
    var h := Histories(c, Initial(ts), ops)[i];
    PendingIsLast(r.tracks[i], i, Segs(r), h, s);
    if h.recv != [] {
      SettledIsStored(r.tracks[i], h.recv, s);
    }
  }

  lemma LateIff(r: Rec, d: int)
    ensures IsLate(r, d) <==> d < StartMet(r, d)
  {
  }

  lemma WriteRotatesIff(c: Conf, r: Rec, i: nat, s: Sample)
    requires RatesOk(r) && i < |r.tracks| && Write(c, r, i, s).Ok?
    ensures var t, r' := r.tracks[i], Write(c, r, i, s).value;
            var t' := Advanced(t, s);
            && (r'.files == r.files || |r'.files| == |r.files| + 1)
            && (|r'.files| > |r.files| <==>
                  && t.next.Some? && PendingDTS(t) >= StartMet(r, PendingDTS(t))
                  && (!(r.hasVideo || t.isVideo) || t.isVideo)
                  && !t'.next.value.nonSync
                  && PendingDTS(t') - StartMet(r, PendingDTS(t)) >= c.segmentDuration)
  {
    hide WriteToSegment, Drifted, NextStart, TimestampToDuration, Settle, Clamped;
  }

  /** In every run, a write rotates the segment if and only if it stores a sample, no video track has received
      anything yet or this is one, and the sample received is sync and at least the segment duration after the
      segment's start. */
  lemma RotatesIff(c: Conf, ts: seq<TrackConf>, ops: seq<Op>, op: Op)
    requires Runs(c, ts, ops + [op])
    ensures Runs(c, ts, ops)
    ensures var r, r' := After(c, ts, ops), After(c, ts, ops + [op]);
            var recv, rate := Received(ops, op.track), ts[op.track].clockRate;
            && (r'.files == r.files || |r'.files| == |r.files| + 1)
            && (|r'.files| > |r.files| <==>
                  && recv != []
                  && var d := TimeOf(recv, |recv| - 1, rate);
                     && d >= StartMet(r, d)
                     && (ts[op.track].isVideo || !VideoReceived(ts, ops + [op]))
                     && !op.sample.nonSync
                     && TimeOf(recv + [op.sample], |recv|, rate) - StartMet(r, d) >= c.segmentDuration)
  {
    hide *;
    var i := op.track;
    RunsBefore(c, ts, ops, op);
    HasVideoIff(c, ts, ops);
    HasVideoIff(c, ts, ops + [op]);
    PendingInRun(c, ts, ops, i, op.sample);
    WriteKeepsTrackConfs(c, ts, After(c, ts, ops), i, op.sample);
    WriteRotatesIff(c, After(c, ts, ops), i, op.sample);
  }

  /** Once video was received only a video track rotates, and if its pending sample is in reach, what it has in the
      new file begins with a sync sample, however the recording goes on. */
  lemma VideoStartsWithSync(c: Conf, ts: seq<TrackConf>, ops: seq<Op>, op: Op, more: seq<Op>)
    requires Runs(c, ts, ops + [op]) && Runs(c, ts, ops) && VideoReceived(ts, ops + [op])
    requires |After(c, ts, ops + [op]).files| > |After(c, ts, ops).files|
    requires OpsFit(more, |ts|) && Run(c, After(c, ts, ops + [op]), more).Ok?
    ensures ts[op.track].isVideo
    ensures var r' := After(c, ts, ops + [op]);
            InReach(r'.tracks, op.track, NewestPending(r'.tracks)) ==>
              StartsWithSync(Run(c, r', more).value, |r'.files|, op.track)
  {
    hide Write, StartsWithSync, NewestPending, TimeOf, Received;
    RotatesIff(c, ts, ops, op);
    RunsBefore(c, ts, ops, op);
    var r, r' := After(c, ts, ops), After(c, ts, ops + [op]);
    if InReach(r'.tracks, op.track, NewestPending(r'.tracks)) {
      RotationStartsWithSync(c, r, op.track, op.sample);
      RunKeepsSync(c, r', more, |r'.files|, op.track);
    }
  }

  // ----- where segments start

  predicate StartsAt(g: Segment, o: Origin) {
    g.startDTS == o.dts && g.startNTP == o.ntp
  }

  /** The oldest of the pending samples that are at most a second older than the newest, with its own clock time;
      without any, the newest time. */
  ghost predicate IsNextStart(ts: seq<Track>, o: Origin)
    requires Clocked(ts)
  {
    var newest := NewestPending(ts);
    && (forall j | InReach(ts, j, newest) :: o.dts <= At(ts, j))
    && (if exists j :: InReach(ts, j, newest)
        then exists j :: InReach(ts, j, newest) && o == Origin(At(ts, j), ts[j].next.value.ntp)
        else o == Origin(newest, 0))
  }

  lemma NextStartIs(ts: seq<Track>)
    requires Clocked(ts)
    ensures IsNextStart(ts, NextStart(ts))
  {
    hide NewestPending, OldestPending, PendingDTS;
    NewestIsGreatest(ts);
    OldestIsLeastInReach(ts, NewestPending(ts));
  }

  lemma WritingKeepsStart(c: Conf, g: Segment, i: nat, rate: int, x: Stored, dts: int)
    requires rate > 0 && WriteToSegment(c, g, i, rate, x, dts).Ok?
    ensures StartsAt(WriteToSegment(c, g, i, rate, x, dts).value, Origin(g.startDTS, g.startNTP))
    ensures StartsAt(CloseSegment(g), Origin(g.startDTS, g.startNTP))
  {
    hide EndOf, Uint32, Max;
  }

  /** What a write adds to the segments: nothing, the first one when a sample is stored without any, and the next
      one when it rotates. Those that are there keep their start. */
  ghost predicate AddsSegments(r: Rec, r': Rec, first: Origin)
    requires RatesOk(r')
  {
    var segs, segs' := Segs(r), Segs(r');
    var opens, rotates := r.segment.None? && r'.segment.Some?, |r'.files| > |r.files|;
    && |segs'| == |segs| + (if opens then 1 else 0) + (if rotates then 1 else 0)
    && (forall n | 0 <= n < |segs| :: StartsAt(segs'[n], Origin(segs[n].startDTS, segs[n].startNTP)))
    && (opens ==> StartsAt(segs'[|segs|], first))
    && (rotates ==> IsNextStart(r'.tracks, Origin(segs'[|segs'| - 1].startDTS, segs'[|segs'| - 1].startNTP)))
  }

  lemma WriteAddsSegments(c: Conf, r: Rec, i: nat, s: Sample, first: Origin)
    requires RatesOk(r) && i < |r.tracks| && Write(c, r, i, s).Ok?
    requires r.tracks[i].next.Some? ==> first == Origin(PendingDTS(r.tracks[i]), r.tracks[i].next.value.ntp)
    ensures AddsSegments(r, Write(c, r, i, s).value, first)
  {
    hide WriteToSegment, Drifted, NextStart, TimestampToDuration, Settle, Clamped, IsNextStart, MustRotate,
         CloseSegment;
    var t, r', r1 := r.tracks[i], Write(c, r, i, s).value, Took(r, i, s);
    if t.next.Some? && !IsLate(r, PendingDTS(t)) {
      var g := CurrentSegment(r1, PendingDTS(t), t.next.value.ntp);
      WritingKeepsStart(c, g, i, t.clockRate, Settle(t.next.value, r1.tracks[i].next.value), PendingDTS(t));
      var g' := Stores(c, r1, i, t.next.value).value.segment.value;
      ClosingKeepsStart(g');
      NextStartIs(r1.tracks);
    } else {
      assert Segs(r') == Segs(r);
    }
  }

  lemma ClosingKeepsStart(g: Segment)
    ensures StartsAt(CloseSegment(g), Origin(g.startDTS, g.startNTP))
  {
  }

  /** In every run the first segment starts with the first sample stored, and each later one with the oldest pending
      sample in reach when it was started; start and clock time then stay. */
  lemma SegmentStartsArePinned(c: Conf, ts: seq<TrackConf>, ops: seq<Op>, op: Op)
    requires Runs(c, ts, ops + [op])
    ensures Runs(c, ts, ops)
    ensures var recv := Received(ops, op.track);
            var k := |recv| - 1;
            AddsSegments(After(c, ts, ops), After(c, ts, ops + [op]),
                         if recv == [] then Origin(0, 0)
                         else Origin(TimeOf(recv, k, ts[op.track].clockRate), recv[k].ntp))
  {
    hide *;
    RunsBefore(c, ts, ops, op);
    PendingInRun(c, ts, ops, op.track, op.sample);
    var recv := Received(ops, op.track);
    var k := |recv| - 1;
    WriteAddsSegments(c, After(c, ts, ops), op.track, op.sample,
                      if recv == [] then Origin(0, 0)
                      else Origin(TimeOf(recv, k, ts[op.track].clockRate), recv[k].ntp));
  }

  // ----- which part a sample goes to

  /** The last part takes the sample if it has not reached the part duration; if it has, or if there is none, the
      sample starts the next part. */
  ghost predicate GrowsBy(c: Conf, ps: seq<Part>, ps': seq<Part>, i: nat, x: Stored, dts: int) {
    var n := |ps|;
    if ps != [] && ps[n - 1].endDTS - ps[n - 1].startDTS < c.partDuration
    then && |ps'| == n && ps'[..n - 1] == ps[..n - 1] && Appends(ps[n - 1], ps'[n - 1], i, x)
         && ps'[n - 1].startDTS == ps[n - 1].startDTS
    else && |ps'| == n + 1 && ps'[..n] == ps && ps'[n].startDTS == dts
         && forall j: nat :: InPart(ps'[n], j) == if j == i then [x] else []
  }

  lemma WriteGrows(c: Conf, g: Segment, i: nat, rate: int, x: Stored, dts: int)
    requires rate > 0 && Open(g) && WriteToSegment(c, g, i, rate, x, dts).Ok?
    ensures GrowsBy(c, AllParts(g), AllParts(WriteToSegment(c, g, i, rate, x, dts).value), i, x, dts)
  {
    hide EndOf, BaseTime, Max, Uint32, Appends, InPart;
    var g', ps := Reached(c, g, rate, x, dts), AllParts(g);
    var p := g'.cur.value;
    var p' := WriteToPart(c, p, g'.startDTS, i, rate, x, dts).value;
    var ps' := AllParts(g'.(cur := Some(p')));
    WriteToPartAppends(c, p, g'.startDTS, i, rate, x, dts);
    forall j: nat ensures InPart(p', j) == InPart(p, j) + if j == i then [x] else [] {
      AppendsAt(p, p', i, x, j);
    }
    if g.cur.None? || g.cur.value.endDTS - g.cur.value.startDTS >= c.partDuration {
      assert ps' == ps + [p'];
      forall j: nat ensures InPart(p, j) == [] {
        EmptyPart(p, j);
      }
    }
  }

  lemma EmptyPart(p: Part, j: nat)
    requires p.tracks == map[]
    ensures InPart(p, j) == []
  {
  }

  /** In every run, a sample that is stored goes to the last part of the segment it meets while that part is not
      full, and to a new one otherwise; a write that stores nothing changes no segment. */
  lemma StoredSampleGoesWhere(c: Conf, ts: seq<TrackConf>, ops: seq<Op>, op: Op)
    requires Runs(c, ts, ops + [op])
    ensures Runs(c, ts, ops)
    ensures var r, r' := After(c, ts, ops), After(c, ts, ops + [op]);
            var recv, rate := Received(ops, op.track), ts[op.track].clockRate;
            var d := if recv == [] then 0 else TimeOf(recv, |recv| - 1, rate);
            if recv != [] && d >= StartMet(r, d)
            then && |Segs(r')| > |r.files|
                 && GrowsBy(c, if r.segment.Some? then AllParts(r.segment.value) else [],
                            AllParts(Segs(r')[|r.files|]), op.track, StoredAt(recv + [op.sample], |recv| - 1), d)
            else Segs(r') == Segs(r)
  {
    hide *;
    RunsBefore(c, ts, ops, op);
    PendingInRun(c, ts, ops, op.track, op.sample);
    SegmentIsOpen(c, ts, ops);
    var r, recv := After(c, ts, ops), Received(ops, op.track);
    LateIff(r, if recv == [] then 0 else TimeOf(recv, |recv| - 1, ts[op.track].clockRate));
    WriteGrowsSegment(c, r, op.track, op.sample);
  }

  lemma SegmentIsOpen(c: Conf, ts: seq<TrackConf>, ops: seq<Op>)
    requires Runs(c, ts, ops)
    ensures After(c, ts, ops).segment.Some? ==> Open(After(c, ts, ops).segment.value)
  {
    hide WellCut, Run;
    EveryRunIsWellCut(c, ts, ops);
  }

  lemma WriteGrowsSegment(c: Conf, r: Rec, i: nat, s: Sample)
    requires RatesOk(r) && i < |r.tracks| && Write(c, r, i, s).Ok? && (r.segment.Some? ==> Open(r.segment.value))
    ensures var t, r' := r.tracks[i], Write(c, r, i, s).value;
            if t.next.Some? && !IsLate(r, PendingDTS(t))
            then && |Segs(r')| > |r.files|
                 && GrowsBy(c, if r.segment.Some? then AllParts(r.segment.value) else [],
                            AllParts(Segs(r')[|r.files|]), i, Settle(t.next.value, Clamped(t.next.value, s)),
                            PendingDTS(t))
            else Segs(r') == Segs(r)
  {
    hide WriteToSegment, Drifted, NextStart, TimestampToDuration, Settle, Clamped, GrowsBy, MustRotate, CloseSegment;
    var t, r', r1 := r.tracks[i], Write(c, r, i, s).value, Took(r, i, s);
    if t.next.Some? && !IsLate(r, PendingDTS(t)) {
      var g := CurrentSegment(r1, PendingDTS(t), t.next.value.ntp);
      assert r.segment.None? ==> AllParts(g) == [];
      WriteGrows(c, g, i, t.clockRate, Settle(t.next.value, r1.tracks[i].next.value), PendingDTS(t));
      var g' := Stores(c, r1, i, t.next.value).value.segment.value;
      ClosingKeepsAllParts(g');
    }
  }

  lemma ClosingKeepsAllParts(g: Segment)
    ensures AllParts(CloseSegment(g)) == AllParts(g)
  {
  }

  // ----- when a write fails

  /** The bytes already in the part that the next sample of a segment goes to. */
  function TakenBytes(c: Conf, ps: seq<Part>): nat {
    if ps != [] && ps[|ps| - 1].endDTS - ps[|ps| - 1].startDTS < c.partDuration then ps[|ps| - 1].size else 0
  }

  predicate Strays(recv: seq<Sample>, rate: int)
    requires rate > 0
  {
    recv != [] &&
    var drift := Drift(recv, |recv| - 1, rate);
    drift < -NTP_DRIFT_TOLERANCE || drift > NTP_DRIFT_TOLERANCE
  }

  lemma DriftedIff(t: Track, i: nat, segs: seq<Segment>, h: History)
    requires TrackOk(t, i, segs, h.recv, h.log) && Undrifted(t, h.recv) && h.recv != []
    ensures Drifted(t, t.next.value) <==> Strays(h.recv, t.clockRate)
  {
    hide InSegment, FatesOk, TimestampToDuration, Selected;
    assert |h.recv| == 1 ==> RunMax(h.recv, 0) == h.recv[0].dts;
  }

  lemma PartIsTooSmallIff(c: Conf, g: Segment, i: nat, rate: int, x: Stored, dts: int)
    requires rate > 0 && Open(g)
    ensures var res := WriteToSegment(c, g, i, rate, x, dts);
            && (res.Err? ==> res == Err(MaximumPartSize))
            && (res.Err? <==> TakenBytes(c, AllParts(g)) + x.size > c.maxPartSize)
  {
    hide EndOf, BaseTime, Max, Uint32;
  }

  lemma WriteErrors(c: Conf, r: Rec, i: nat, s: Sample)
    requires RatesOk(r) && i < |r.tracks| && (r.segment.Some? ==> Open(r.segment.value))
    ensures var t, res := r.tracks[i], Write(c, r, i, s);
            var strays := t.next.Some? && Drifted(t, t.next.value);
            && (res == Err(DriftDetected) <==> strays)
            && (res == Err(MaximumPartSize) <==>
                  && t.next.Some? && !strays && !IsLate(r, PendingDTS(t))
                  && TakenBytes(c, if r.segment.Some? then AllParts(r.segment.value) else []) + t.next.value.size
                     > c.maxPartSize)
  {
    hide WriteToSegment, Drifted, NextStart, TimestampToDuration, Clamped, TakenBytes, MustRotate, Uint32;
    var t, r1 := r.tracks[i], Took(r, i, s);
    if t.next.Some? && !Drifted(t, t.next.value) && !IsLate(r, PendingDTS(t)) {
      var g := CurrentSegment(r1, PendingDTS(t), t.next.value.ntp);
      assert r.segment.None? ==> AllParts(g) == [];
      PartIsTooSmallIff(c, g, i, t.clockRate, Settle(t.next.value, r1.tracks[i].next.value), PendingDTS(t));
    }
  }

  /** A run goes wrong with the next sample if and only if the one before it on its track strays from the wall clock
      by more than the tolerance, counted from the first, or has to be stored in a part that it would make too
      big. */
  lemma FailsIff(c: Conf, ts: seq<TrackConf>, ops: seq<Op>, op: Op)
    requires Runs(c, ts, ops) && op.track < |ts|
    ensures OpsFit(ops + [op], |ts|)
    ensures var r, res := After(c, ts, ops), Run(c, Initial(ts), ops + [op]);
            var recv, rate := Received(ops, op.track), ts[op.track].clockRate;
            && (res == Err(DriftDetected) <==> Strays(recv, rate))
            && (res == Err(MaximumPartSize) <==>
                  && recv != [] && !Strays(recv, rate)
                  && var d := TimeOf(recv, |recv| - 1, rate);
                     && d >= StartMet(r, d)
                     && TakenBytes(c, if r.segment.Some? then AllParts(r.segment.value) else [])
                        + recv[|recv| - 1].size > c.maxPartSize)
  {
    hide *;
    var i := op.track;
    RunNext(c, ts, ops, op);
    PendingInRun(c, ts, ops, i, op.sample);
    SegmentIsOpen(c, ts, ops);
    StraysIff(c, ts, ops, i);
    var r, recv := After(c, ts, ops), Received(ops, i);
    LateIff(r, if recv == [] then 0 else TimeOf(recv, |recv| - 1, ts[i].clockRate));
    WriteErrors(c, r, i, op.sample);
  }

  lemma RunNext(c: Conf, ts: seq<TrackConf>, ops: seq<Op>, op: Op)
    requires Runs(c, ts, ops) && op.track < |ts|
    ensures OpsFit(ops + [op], |ts|)
    ensures Run(c, Initial(ts), ops + [op]) == Write(c, After(c, ts, ops), op.track, op.sample)
  {
    hide Write;
    assert (ops + [op])[..|ops|] == ops;
  }

  lemma StraysIff(c: Conf, ts: seq<TrackConf>, ops: seq<Op>, i: nat)
    requires Runs(c, ts, ops) && i < |ts|
    ensures var t := After(c, ts, ops).tracks[i];
            (t.next.Some? && Drifted(t, t.next.value)) <==> Strays(Received(ops, i), ts[i].clockRate)
  {
    hide Run, TrackOk, SegmentsOk, Drifted, Undrifted, Strays, Received;
    HasVideoIff(c, ts, ops);
    EverySampleIsAccountedFor(c, ts, ops);
    EveryRunIsUndrifted(c, ts, ops);
    var r, h := After(c, ts, ops), Histories(c, Initial(ts), ops)[i];
    PendingMeansReceived(r.tracks[i], i, Segs(r), h.recv, h.log);
    if h.recv != [] {
      DriftedIff(r.tracks[i], i, Segs(r), h);
    } else {
      NothingStrays(ts[i].clockRate);
    }
  }

  lemma NothingStrays(rate: int)
    requires rate > 0
    ensures !Strays([], rate)
  {
  }

  // ----- when a recording ends

  /** Closing leaves a file for every segment that holds anything, with all it holds; what is lost is the one sample
      each track still waits with. */
  lemma ClosingLosesOnlyPending(c: Conf, ts: seq<TrackConf>, ops: seq<Op>, i: nat, n: nat)
    requires Runs(c, ts, ops) && i < |ts|
    ensures var r, h := After(c, ts, ops), Histories(c, Initial(ts), ops)[i];
            && h.recv == Received(ops, i) && |h.log| == (if h.recv == [] then 0 else |h.recv| - 1)
            && (Selected(h.recv, h.log, n) != [] ==> n < |Closed(r)|)
            && (n < |Closed(r)| ==> InSegment(Closed(r)[n], i) == Selected(h.recv, h.log, n))
  {
    hide SegmentsOk, Selected, Run, RunMax, TimestampToDuration, InSegment;
    EverySampleIsAccountedFor(c, ts, ops);
    var r, h := After(c, ts, ops), Histories(c, Initial(ts), ops)[i];
    var segs := Segs(r);
    assert TrackOk(r.tracks[i], i, segs, h.recv, h.log);
    LogIsWithin(h, segs, r.tracks[i].clockRate);
    if n < |segs| {
      assert InSegment(segs[n], i) == Selected(h.recv, h.log, n);
      if n == |r.files| {
        ClosingKeepsSamples(r.segment.value, i);
        EmptySegment(r.segment.value, i);
      }
    } else {
      SelectedOfNew(h.recv, h.log, n);
    }
  }

  lemma LogIsWithin(h: History, segs: seq<Segment>, rate: int)
    requires rate > 0 && FatesOk(h.recv, h.log, segs, rate)
    ensures forall k | 0 <= k < |h.log| :: h.log[k].segment < |segs|
  {
    hide TimestampToDuration, RunMax;
  }

  lemma EmptySegment(g: Segment, i: nat)
    ensures g.parts == [] && g.cur.None? ==> InSegment(g, i) == []
  {
  }
}
