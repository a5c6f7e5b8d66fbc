/** Where segments start, what they start with, and that playback can join them (with
    `segmentFMP4CanBeConcatenated` of internal/playback/segment_fmp4.go). */
module RecorderRotation {
  import opened Wrappers
  import opened GoArith
  import opened Recorder
  import opened RecorderRuns
  import opened RecorderLaws
  import opened RecorderTiming

  // ----- the start of the next segment

  predicate Clocked(ts: seq<Track>) {
    forall i | 0 <= i < |ts| :: ts[i].clockRate > 0
  }

  predicate IsPending(ts: seq<Track>, i: int)
    requires Clocked(ts)
  {
    0 <= i < |ts| && ts[i].next.Some?
  }

  function At(ts: seq<Track>, i: int): int
    requires Clocked(ts) && IsPending(ts, i)
  {
    PendingDTS(ts[i])
  }

  lemma {:induction false} NewestIsGreatest(ts: seq<Track>)
    requires Clocked(ts)
    ensures var m := NewestPending(ts);
            && m >= 0
            && (forall i | IsPending(ts, i) :: At(ts, i) <= m)
            && (m == 0 || exists i :: IsPending(ts, i) && At(ts, i) == m)
  {
    hide PendingDTS;
    if ts != [] {
      var p, n := ts[..|ts| - 1], |ts| - 1;
      NewestIsGreatest(p);
      var m := NewestPending(p);
      forall i | IsPending(ts, i) ensures At(ts, i) <= NewestPending(ts) {
        assert i < n ==> IsPending(p, i) && At(p, i) == At(ts, i);
      }
      if m != 0 && NewestPending(ts) == m {
        var i :| IsPending(p, i) && At(p, i) == m;
        assert IsPending(ts, i) && At(ts, i) == m;
      } else if NewestPending(ts) != m {
        assert IsPending(ts, n) && At(ts, n) == NewestPending(ts);
      }
    }
  }

  predicate InReach(ts: seq<Track>, i: int, newest: int)
    requires Clocked(ts)
  {
    IsPending(ts, i) && newest - At(ts, i) <= MAX_BASETIME
  }

  /** Among the pending samples in reach the oldest is chosen; without any, `newest` itself. */
  lemma {:induction false} OldestIsLeastInReach(ts: seq<Track>, newest: int)
    requires Clocked(ts) && forall i | IsPending(ts, i) :: At(ts, i) <= newest
    ensures var o := OldestPending(ts, newest);
            && (forall i | InReach(ts, i, newest) :: o.dts <= At(ts, i))
            && o.dts <= newest
            && (o == Origin(newest, 0)
                || exists i :: InReach(ts, i, newest) && o == Origin(At(ts, i), ts[i].next.value.ntp))
            && ((exists i :: InReach(ts, i, newest))
                ==> exists i :: InReach(ts, i, newest) && o == Origin(At(ts, i), ts[i].next.value.ntp))
  {
    hide PendingDTS;
    if ts != [] {
      var p, n := ts[..|ts| - 1], |ts| - 1;
      assert forall i | 0 <= i < n :: p[i] == ts[i];
      assert forall i | IsPending(p, i) :: IsPending(ts, i) && At(ts, i) == At(p, i);
      OldestIsLeastInReach(p, newest);
      var o, o' := OldestPending(p, newest), OldestPending(ts, newest);
      forall i | InReach(ts, i, newest) ensures o'.dts <= At(ts, i) {
        assert i < n ==> InReach(p, i, newest);
      }
      if o' != o || (InReach(ts, n, newest) && At(ts, n) <= o.dts) {
        assert InReach(ts, n, newest) && o' == Origin(At(ts, n), ts[n].next.value.ntp);
      } else if exists i :: InReach(p, i, newest) {
        var i :| InReach(p, i, newest) && o == Origin(At(p, i), p[i].next.value.ntp);
        assert InReach(ts, i, newest) && o' == Origin(At(ts, i), ts[i].next.value.ntp);
      } else {
        assert o' == Origin(newest, 0);
        forall i | InReach(ts, i, newest) ensures i == n {
          assert i < n ==> InReach(p, i, newest);
        }
      }
    }
  }

  ghost predicate IsNewest(ts: seq<Track>, i: int)
    requires Clocked(ts)
  {
    IsPending(ts, i) && forall j | IsPending(ts, j) :: At(ts, j) <= At(ts, i)
  }

  /** The new segment starts at or up to one second before the newest pending sample if and only if
      that sample is not more than one second before zero. */
  lemma StartIsWithinASecondIff(ts: seq<Track>, i: int)
    requires Clocked(ts) && IsNewest(ts, i)
    ensures At(ts, i) - MAX_BASETIME <= NextStart(ts).dts <= At(ts, i) <==> At(ts, i) >= -MAX_BASETIME
  {
    hide PendingDTS, NewestPending, OldestPending, At;
    NewestIsGreatest(ts);
    var m := NewestPending(ts);
    OldestIsLeastInReach(ts, m);
    assert m == Max(0, At(ts, i));
    if At(ts, i) >= -MAX_BASETIME {
      assert InReach(ts, i, m);
      var j :| InReach(ts, j, m) && NextStart(ts) == Origin(At(ts, j), ts[j].next.value.ntp);
    } else {
      forall j | IsPending(ts, j) ensures !InReach(ts, j, m) {
        assert At(ts, j) <= At(ts, i);
      }
      assert NextStart(ts) == Origin(0, 0);
    }
  }

  /** Otherwise the segment starts in the future of everything pending: -2 s is not within reach. */
  lemma FarNegativeTimesStartLate(x: Sample)
    requires x.dts == -2
    ensures var ts := [Track(1, true, Some(x), None)];
            At(ts, 0) == -2 * SECOND && NextStart(ts).dts == 0
  {
    var t := Track(1, true, Some(x), None);
    assert [t][..0] == [];
    assert NewestPending([t]) == NewestPending([]) == 0;
    assert OldestPending([t], 0) == OldestPending([], 0);
  }

  /** And so in a recording: a sample four seconds before zero, and a sync sample two seconds later that starts
      a new segment. The segment starts at zero, and the very sample it was started for will be too late. */
  lemma FarNegativeRun(c: Conf, x: Sample, s: Sample)
    requires x.dts == -4 * SECOND && s.dts == -2 * SECOND && !s.nonSync
    requires c.segmentDuration == SECOND && x.size <= c.maxPartSize
    ensures var res := Run(c, Initial([TrackConf(SECOND, true)]), [Op(0, x), Op(0, s)]);
            && res.Ok? && |res.value.files| == 1 && res.value.segment == Some(NewSegment(1, 0, 0))
            && |res.value.tracks| == 1 && res.value.tracks[0].next == Some(s)
            && IsLate(res.value, PendingDTS(res.value.tracks[0]))
  {
    var r0, r1 := Initial([TrackConf(SECOND, true)]), Rec(OneTrack(x, None), true, None, 0, []);
    FirstWrite(c, x);
    FarNegativeRotation(c, r1, x, s);
    hide Write;
    var ops := [Op(0, x), Op(0, s)];
    assert ops[..1] == [Op(0, x)] && ops[..1][..0] == [];
    assert Run(c, r0, []) == Ok(r0);
    assert Run(c, r0, ops[..1]) == Ok(r1);
  }

  lemma FarNegativeRotation(c: Conf, r: Rec, x: Sample, s: Sample)
    requires r == Rec(OneTrack(x, None), true, None, 0, [])
    requires x.dts == -4 * SECOND && s.dts == -2 * SECOND && !s.nonSync
    requires c.segmentDuration == SECOND && x.size <= c.maxPartSize
    ensures var res := Write(c, r, 0, s);
            && res.Ok? && |res.value.files| == 1 && res.value.segment == Some(NewSegment(1, 0, 0))
            && |res.value.tracks| == 1 && res.value.tracks[0].next == Some(s)
            && IsLate(res.value, PendingDTS(res.value.tracks[0]))
  {
    TicksAreNanoseconds(x.dts);
    TicksAreNanoseconds(s.dts);
    hide TimestampToDuration, BaseTime, EndOf, Uint32;
    var r1 := Took(r, 0, s);
    var t := r1.tracks[0];
    assert r1.tracks == [t] && t.next == Some(s) && PendingDTS(t) == s.dts;
    assert !Drifted(r.tracks[0], x);
    assert Stores(c, r1, 0, x).Ok?;
    assert [t][..0] == [];
    assert NewestPending([]) == 0 && NewestPending([t]) == 0;
    assert OldestPending([], 0) == Origin(0, 0) && OldestPending([t], 0) == Origin(0, 0);
  }

  // ----- what a new segment starts with

  /** Track `i` begins segment `n` with a sync sample, has nothing in it, or, while it is open, still has
      to write the sync sample it waits with. */
  ghost predicate StartsWithSync(r: Rec, n: nat, i: nat) {
    && i < |r.tracks| && RatesOk(r) && n < |Segs(r)| && r.segment.Some?
    && var g := Segs(r)[n];
       var s := InSegment(g, i);
    && (s != [] ==> !s[0].nonSync)
    && (s == [] && n == |r.files| ==>
          && r.tracks[i].next.Some? && !r.tracks[i].next.value.nonSync
          && PendingDTS(r.tracks[i]) >= g.startDTS)
  }

  lemma FirstOf(s: seq<Stored>, x: Stored)
    ensures (s + [x])[0] == if s == [] then x else s[0]
  {
  }

  lemma StoringKeepsSync(c: Conf, r: Rec, j: nat, s: Sample, n: nat, i: nat)
    requires StartsWithSync(r, n, i) && j < |r.tracks| && r.tracks[j].next.Some?
    requires Stores(c, Took(r, j, s), j, r.tracks[j].next.value).Ok?
    ensures StartsWithSync(Stores(c, Took(r, j, s), j, r.tracks[j].next.value).value, n, i)
  {
    hide InSegment, TimestampToDuration, WriteToSegment, Clamped;
    var x, t := r.tracks[j].next.value, r.tracks[j];
    var r' := Stores(c, Took(r, j, s), j, x).value;
    var y := Settle(x, Advanced(t, s).next.value);
    WriteAppends(c, r.segment.value, j, t.clockRate, y, PendingDTS(t), i);
    FirstOf(InSegment(r.segment.value, i), y);
    if n < |r.files| {
      assert Segs(r')[n] == Segs(r)[n];
    }
  }

  lemma RotateKeepsSync(r: Rec, n: nat, i: nat)
    requires StartsWithSync(r, n, i)
    ensures StartsWithSync(Rotate(r), n, i)
  {
    hide InSegment, NextStart, TimestampToDuration;
    var r' := Rotate(r);
    ClosingKeepsSamples(r.segment.value, i);
    if n < |r.files| {
      assert Segs(r')[n] == Segs(r)[n];
    } else {
      assert Segs(r')[n] == CloseSegment(r.segment.value);
    }
  }

  lemma WriteKeepsSync(c: Conf, r: Rec, j: nat, s: Sample, n: nat, i: nat)
    requires StartsWithSync(r, n, i) && j < |r.tracks| && Write(c, r, j, s).Ok?
    ensures StartsWithSync(Write(c, r, j, s).value, n, i)
  {
    hide InSegment, Rotate, Stores, MustRotate, Drifted;
    var t := r.tracks[j];
    if t.next.None? || IsLate(r, PendingDTS(t)) {
      assert Segs(Took(r, j, s)) == Segs(r);
    } else {
      StoringKeepsSync(c, r, j, s, n, i);
      RotateKeepsSync(Stores(c, Took(r, j, s), j, t.next.value).value, n, i);
    }
  }

  /** A rotation caused by a track whose pending sample is within reach: from then on, for as long as
      the recording goes on, what that track has in the new segment begins with a sync sample. */
  lemma RotationStartsWithSync(c: Conf, r: Rec, i: nat, s: Sample)
    requires RatesOk(r) && i < |r.tracks| && Write(c, r, i, s).Ok?
    requires var r' := Write(c, r, i, s).value;
             |r'.files| > |r.files| && InReach(r'.tracks, i, NewestPending(r'.tracks))
    ensures var r' := Write(c, r, i, s).value;
            StartsWithSync(r', |r'.files|, i)
  {
    var r' := Write(c, r, i, s).value;
    hide InSegment, NewestPending, OldestPending, WriteToSegment, TimestampToDuration;
    NewestIsGreatest(r'.tracks);
    OldestIsLeastInReach(r'.tracks, NewestPending(r'.tracks));
    NewSegmentIsEmpty(r'.segment.value, i);
    assert Segs(r')[|r'.files|] == r'.segment.value;
    assert r'.segment.value.startDTS <= At(r'.tracks, i);
  }

  lemma {:induction false} RunKeepsSync(c: Conf, r: Rec, ops: seq<Op>, n: nat, i: nat)
    requires RatesOk(r) && StartsWithSync(r, n, i) && OpsFit(ops, |r.tracks|) && Run(c, r, ops).Ok?
    ensures StartsWithSync(Run(c, r, ops).value, n, i)
  {
    hide StartsWithSync, Write;
    if ops != [] {
      RunKeepsSync(c, r, ops[..|ops| - 1], n, i);
      var op := ops[|ops| - 1];
      WriteKeepsSync(c, Run(c, r, ops[..|ops| - 1]).value, op.track, op.sample, n, i);
    }
  }

  // ----- joining files

  datatype Mtxi = Mtxi(streamID: int, segmentNumber: nat)

  datatype InitTrack = InitTrack(id: int, timeScale: int, codec: int)

  datatype Header = Header(mtxi: Option<Mtxi>, tracks: seq<InitTrack>)

  const CONCATENATION_TOLERANCE: int := SECOND

  predicate CanBeConcatenated(prev: Header, prevEnd: int, cur: Header, curStart: int) {
    match (prev.mtxi, cur.mtxi)
    case (None, Some(_)) => false
    case (Some(_), None) => false
    case (None, None) =>
      && prev.tracks == cur.tracks
      && curStart >= prevEnd - CONCATENATION_TOLERANCE
      && curStart <= prevEnd + CONCATENATION_TOLERANCE
    case (Some(m1), Some(m2)) => m1.streamID == m2.streamID && m1.segmentNumber + 1 == m2.segmentNumber
  }

  function HeaderOf(g: Segment, streamID: int, tracks: seq<InitTrack>): Header {
    Header(Some(Mtxi(streamID, g.number)), tracks)
  }

  /** The files of a recording are all non-empty, and playback joins two of them if and only if they
      follow each other, whatever the clocks say. */
  lemma FilesJoinIff(r: Rec, streamID: int, tracks: seq<InitTrack>, n: nat, m: nat, end: int, start: int)
    requires SegmentsOk(r) && n < |Closed(r)| && m < |Closed(r)|
    ensures AllParts(Closed(r)[n]) != []
    ensures var prev, cur := HeaderOf(Closed(r)[n], streamID, tracks), HeaderOf(Closed(r)[m], streamID, tracks);
            CanBeConcatenated(prev, end, cur, start) <==> m == n + 1
  {
    hide PartsOk;
    forall k | 0 <= k < |Closed(r)| ensures Closed(r)[k].number == k && Closed(r)[k].parts != [] {
      assert Segs(r)[k].number == k;
    }
  }

  /** Only an open segment can be empty: every segment closed by a rotation holds a sample. */
  lemma RotatedSegmentsHoldSamples(r: Rec, n: nat)
    requires SegmentsOk(r) && n < |r.files|
    ensures exists i: nat :: i < |r.tracks| && InSegment(r.files[n], i) != []
  {
    hide BasesOk, Uint32, InSegment, InPart, InParts;
    var g, ps := r.files[n], r.files[n].parts;
    assert Segs(r)[n] == g && AllParts(g) == ps;
    var i := FilledPart(ps[|ps| - 1], g.startDTS, Rates(r));
    LastPartIsIn(g, i);
  }

  lemma FilledPart(p: Part, start: int, rates: seq<int>) returns (i: nat)
    requires p.tracks != map[] && BasesOk(p, start, rates)
    ensures i < |rates| && InPart(p, i) != []
  {
    i :| i in p.tracks;
    assert TrackBaseOk(p.tracks[i], start, if i < |rates| then rates[i] else 0);
  }

  lemma LastPartIsIn(g: Segment, i: nat)
    requires g.parts != [] && InPart(g.parts[|g.parts| - 1], i) != []
    ensures InSegment(g, i) != []
  {
  }
}
