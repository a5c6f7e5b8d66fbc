/** What whole recordings keep: every sample accounted for, in order, without gaps; segments numbered
    one after the other and never empty. */
module RecorderRuns {
  import opened Wrappers
  import opened GoArith
  import opened Recorder

  // ----- what a segment holds of a track

  function InPart(p: Part, i: nat): seq<Stored> {
    if i in p.tracks then p.tracks[i].samples else []
  }

  function InParts(ps: seq<Part>, i: nat): seq<Stored> {
    if ps == [] then [] else InParts(ps[..|ps| - 1], i) + InPart(ps[|ps| - 1], i)
  }

  function InSegment(g: Segment, i: nat): seq<Stored> {
    InParts(g.parts, i) + if g.cur.Some? then InPart(g.cur.value, i) else []
  }

  lemma ClosingKeepsSamples(g: Segment, i: nat)
    ensures InSegment(CloseSegment(g), i) == InSegment(g, i)
  {
    if g.cur.Some? {
      var ps := g.parts + [g.cur.value];
      assert ps[..|ps| - 1] == g.parts;
    }
  }

  lemma WithPartKeepsSamples(c: Conf, g: Segment, dts: int, i: nat)
    ensures InSegment(WithPart(c, g, dts), i) == InSegment(g, i)
  {
    hide Uint32;
    if g.cur.Some? {
      ClosingKeepsSamples(g, i);
    }
  }

  /** Writing appends to one track and leaves the others alone. */
  lemma WriteAppends(c: Conf, g: Segment, i: nat, rate: int, x: Stored, dts: int, j: nat)
    requires rate > 0 && WriteToSegment(c, g, i, rate, x, dts).Ok?
    ensures var g' := WriteToSegment(c, g, i, rate, x, dts).value;
            InSegment(g', j) == InSegment(g, j) + if i == j then [x] else []
  {
    hide Max, EndOf, BaseTime, WithPart;
    var g1 := g.(endDTS := Max(g.endDTS, EndOf(x, dts, rate)));
    var g2 := WithPart(c, g1, dts);
    WithPartKeepsSamples(c, g1, dts, j);
    assert InSegment(g1, j) == InSegment(g, j);
    var p' := WriteToPart(c, g2.cur.value, g2.startDTS, i, rate, x, dts).value;
    assert InPart(p', j) == InPart(g2.cur.value, j) + if i == j then [x] else [];
  }

  // ----- what became of each sample

  /** The greatest decode time so far: the clamped decode time of sample `k`. */
  function RunMax(recv: seq<Sample>, k: nat): int
    requires k < |recv|
  {
    if k == 0 then recv[0].dts else Max(RunMax(recv, k - 1), recv[k].dts)
  }

  /** Sample `k` as it is stored, once its successor is known. */
  function StoredAt(recv: seq<Sample>, k: nat): Stored
    requires k + 1 < |recv|
  {
    Stored(recv[k].id, RunMax(recv, k), Uint32(RunMax(recv, k + 1) - RunMax(recv, k)), recv[k].nonSync, recv[k].size)
  }

  /** The segment a sample met when its turn came, and whether it was too late for it. */
  datatype Fate = Fate(segment: nat, late: bool)

  /** The samples of a track that went into segment `n`, in order of arrival. */
  function Selected(recv: seq<Sample>, log: seq<Fate>, n: nat): seq<Stored>
    requires log == [] || |log| < |recv|
  {
    if log == [] then []
    else
      var k := |log| - 1;
      Selected(recv, log[..k], n) + if log[k] == Fate(n, false) then [StoredAt(recv, k)] else []
  }

  ghost predicate FatesOk(recv: seq<Sample>, log: seq<Fate>, segs: seq<Segment>, rate: int)
    requires rate > 0
  {
    && (log == [] || |log| < |recv|)
    && (forall k | 0 <= k < |log| ::
          && log[k].segment < |segs|
          && (log[k].late <==> TimestampToDuration(RunMax(recv, k), rate) < segs[log[k].segment].startDTS))
    && (forall k, l | 0 <= k < l < |log| :: log[k].segment <= log[l].segment)
  }

  /** The pending sample is the last one received, clamped; all before it have met their fate, and each
      segment holds exactly those that were written to it. */
  ghost predicate TrackOk(t: Track, i: nat, segs: seq<Segment>, recv: seq<Sample>, log: seq<Fate>) {
    && t.clockRate > 0
    && (recv == [] <==> t.next.None?)
    && |log| == (if recv == [] then 0 else |recv| - 1)
    && (recv != [] ==> t.next.value == recv[|recv| - 1].(dts := RunMax(recv, |recv| - 1)))
    && FatesOk(recv, log, segs, t.clockRate)
    && (forall n: nat | n < |segs| :: InSegment(segs[n], i) == Selected(recv, log, n))
  }

  lemma {:induction false} RunMaxPrefix(recv: seq<Sample>, s: Sample, k: nat)
    requires k < |recv|
    ensures RunMax(recv + [s], k) == RunMax(recv, k)
  {
    if k > 0 {
      RunMaxPrefix(recv, s, k - 1);
    }
  }

  lemma {:induction false} RunMaxMonotone(recv: seq<Sample>, k: nat, l: nat)
    requires k <= l < |recv|
    ensures RunMax(recv, k) <= RunMax(recv, l)
  {
    if k < l {
      RunMaxMonotone(recv, k, l - 1);
    }
  }

  lemma StoredAtPrefix(recv: seq<Sample>, s: Sample, k: nat)
    requires k + 1 < |recv|
    ensures StoredAt(recv + [s], k) == StoredAt(recv, k)
  {
    RunMaxPrefix(recv, s, k);
    RunMaxPrefix(recv, s, k + 1);
  }

  lemma {:induction false} SelectedPrefix(recv: seq<Sample>, s: Sample, log: seq<Fate>, n: nat)
    requires log == [] || |log| < |recv|
    ensures Selected(recv + [s], log, n) == Selected(recv, log, n)
  {
    if log != [] {
      SelectedPrefix(recv, s, log[..|log| - 1], n);
      StoredAtPrefix(recv, s, |log| - 1);
    }
  }

  lemma SelectedNext(recv: seq<Sample>, log: seq<Fate>, f: Fate, n: nat)
    requires |log| + 1 < |recv|
    ensures Selected(recv, log + [f], n)
         == Selected(recv, log, n) + if f == Fate(n, false) then [StoredAt(recv, |log|)] else []
  {
    assert (log + [f])[..|log|] == log;
  }

  lemma {:induction false} SelectedOfNew(recv: seq<Sample>, log: seq<Fate>, n: nat)
    requires (log == [] || |log| < |recv|) && forall k | 0 <= k < |log| :: log[k].segment < n
    ensures Selected(recv, log, n) == []
  {
    if log != [] {
      SelectedOfNew(recv, log[..|log| - 1], n);
    }
  }

  // ----- one step, one track

  lemma NewSegmentKeepsTrack(t: Track, i: nat, segs: seq<Segment>, g: Segment, recv: seq<Sample>, log: seq<Fate>)
    requires TrackOk(t, i, segs, recv, log) && InSegment(g, i) == []
    ensures TrackOk(t, i, segs + [g], recv, log)
  {
    hide InSegment, TimestampToDuration, RunMax, Selected;
    SelectedOfNew(recv, log, |segs|);
  }

  lemma SameSamplesKeepTrack(t: Track, i: nat, segs: seq<Segment>, g: Segment, recv: seq<Sample>, log: seq<Fate>)
    requires TrackOk(t, i, segs, recv, log) && segs != []
    requires InSegment(g, i) == InSegment(segs[|segs| - 1], i) && g.startDTS == segs[|segs| - 1].startDTS
    ensures TrackOk(t, i, segs[|segs| - 1 := g], recv, log)
  {
    hide InSegment, TimestampToDuration, RunMax, Selected;
  }

  lemma FirstSampleKeepsTrack(t: Track, i: nat, segs: seq<Segment>, s: Sample)
    requires TrackOk(t, i, segs, [], [])
    ensures TrackOk(Advanced(t, s), i, segs, [s], [])
  {
    hide InSegment, TimestampToDuration;
    forall n: nat | n < |segs| ensures InSegment(segs[n], i) == Selected([s], [], n) {
      assert InSegment(segs[n], i) == Selected([], [], n);
    }
  }

  lemma SettledIsStored(t: Track, recv: seq<Sample>, s: Sample)
    requires recv != [] && t.next.Some? && t.next.value == recv[|recv| - 1].(dts := RunMax(recv, |recv| - 1))
    ensures Settle(t.next.value, Clamped(t.next.value, s)) == StoredAt(recv + [s], |recv| - 1)
    ensures Clamped(t.next.value, s) == s.(dts := RunMax(recv + [s], |recv|))
  {
    hide Uint32;
    RunMaxPrefix(recv, s, |recv| - 1);
  }

  lemma FatesNext(recv: seq<Sample>, log: seq<Fate>, segs: seq<Segment>, segs': seq<Segment>, rate: int, s: Sample,
                  late: bool)
    requires rate > 0 && FatesOk(recv, log, segs, rate) && |log| + 1 == |recv|
    requires segs != [] && |segs'| == |segs| && forall n | 0 <= n < |segs| :: segs'[n].startDTS == segs[n].startDTS
    requires late <==> TimestampToDuration(RunMax(recv, |recv| - 1), rate) < segs[|segs| - 1].startDTS
    ensures FatesOk(recv + [s], log + [Fate(|segs| - 1, late)], segs', rate)
  {
    hide TimestampToDuration, RunMax;
    forall k | 0 <= k < |recv| ensures RunMax(recv + [s], k) == RunMax(recv, k) {
      RunMaxPrefix(recv, s, k);
    }
  }

  /** The pending sample meets the last segment: too late, or appended. */
  lemma SampleKeepsTrack(t: Track, i: nat, segs: seq<Segment>, g: Segment, recv: seq<Sample>, log: seq<Fate>, s: Sample)
    requires TrackOk(t, i, segs, recv, log) && recv != [] && segs != []
    requires var last, late := segs[|segs| - 1], PendingDTS(t) < segs[|segs| - 1].startDTS;
             && g.startDTS == last.startDTS
             && InSegment(g, i) == InSegment(last, i)
                                   + if late then [] else [Settle(t.next.value, Clamped(t.next.value, s))]
    ensures TrackOk(Advanced(t, s), i, segs[|segs| - 1 := g], recv + [s],
                    log + [Fate(|segs| - 1, PendingDTS(t) < segs[|segs| - 1].startDTS)])
  {
    hide InSegment, TimestampToDuration, Selected, RunMax, Settle, Clamped, Uint32, StoredAt;
    var m := |segs| - 1;
    var late := PendingDTS(t) < segs[m].startDTS;
    var segs', log' := segs[m := g], log + [Fate(m, late)];
    SettledIsStored(t, recv, s);
    FatesNext(recv, log, segs, segs', t.clockRate, s, late);
    forall n: nat | n < |segs| ensures InSegment(segs'[n], i) == Selected(recv + [s], log', n) {
      SelectedPrefix(recv, s, log, n);
      SelectedNext(recv + [s], log, Fate(m, late), n);
    }
  }

  // ----- one step, the whole recorder

  /** All segments so far, the open one last. */
  function Segs(r: Rec): (segs: seq<Segment>)
    ensures |segs| == |r.files| + if r.segment.Some? then 1 else 0
  {
    r.files + if r.segment.Some? then [r.segment.value] else []
  }

  /** What a track received, and what became of all but its pending sample. */
  datatype History = History(recv: seq<Sample>, log: seq<Fate>)

  function FateOf(r: Rec, i: nat): Fate
    requires i < |r.tracks| && r.tracks[i].next.Some? && RatesOk(r)
  {
    Fate(|r.files|, IsLate(r, PendingDTS(r.tracks[i])))
  }

  function Noted(h: History, r: Rec, i: nat, s: Sample): History
    requires i < |r.tracks| && RatesOk(r)
  {
    History(h.recv + [s], if r.tracks[i].next.None? then h.log else h.log + [FateOf(r, i)])
  }

  ghost predicate TracksOk(r: Rec, hs: seq<History>) {
    && |hs| == |r.tracks| && RatesOk(r)
    && (r.segment.None? ==> r.files == [])
    && forall j | 0 <= j < |hs| :: TrackOk(r.tracks[j], j, Segs(r), hs[j].recv, hs[j].log)
  }

  /** The recorder with the segment the pending sample will meet. */
  function Opened(r: Rec, x: Sample, rate: int): Rec
    requires rate > 0
  {
    if r.segment.Some? then r
    else r.(segment := Some(NewSegment(r.nextNumber, TimestampToDuration(x.dts, rate), x.ntp)),
            nextNumber := r.nextNumber + 1)
  }

  lemma OpenedKeepsTracks(r: Rec, hs: seq<History>, x: Sample, rate: int)
    requires TracksOk(r, hs) && rate > 0
    ensures TracksOk(Opened(r, x, rate), hs)
  {
    hide TrackOk, TimestampToDuration;
    var r' := Opened(r, x, rate);
    if r.segment.None? {
      assert Segs(r') == Segs(r) + [r'.segment.value];
      forall j | 0 <= j < |hs| ensures TrackOk(r'.tracks[j], j, Segs(r'), hs[j].recv, hs[j].log) {
        assert InSegment(r'.segment.value, j) == [];
        NewSegmentKeepsTrack(r.tracks[j], j, Segs(r), r'.segment.value, hs[j].recv, hs[j].log);
      }
    }
  }

  lemma RotateKeepsTracks(r: Rec, hs: seq<History>)
    requires TracksOk(r, hs) && r.segment.Some?
    ensures TracksOk(Rotate(r), hs)
  {
    hide TrackOk, NextStart;
    var r', g := Rotate(r), CloseSegment(r.segment.value);
    var segs := Segs(r);
    assert Segs(r') == segs[|segs| - 1 := g] + [r'.segment.value];
    forall j | 0 <= j < |hs| ensures TrackOk(r'.tracks[j], j, Segs(r'), hs[j].recv, hs[j].log) {
      assert InSegment(r'.segment.value, j) == [];
      ClosingKeepsSamples(r.segment.value, j);
      SameSamplesKeepTrack(r.tracks[j], j, segs, g, hs[j].recv, hs[j].log);
      NewSegmentKeepsTrack(r.tracks[j], j, segs[|segs| - 1 := g], r'.segment.value, hs[j].recv, hs[j].log);
    }
  }

  /** The open segment takes the pending sample of track `i`, or leaves it as too late. */
  lemma MeetingKeepsTracks(r: Rec, r': Rec, hs: seq<History>, i: nat, s: Sample, g: Segment)
    requires TracksOk(r, hs) && i < |hs| && r.segment.Some? && r.tracks[i].next.Some?
    requires r'.tracks == r.tracks[i := Advanced(r.tracks[i], s)]
    requires r'.files == r.files && r'.segment == Some(g) && g.startDTS == r.segment.value.startDTS
    requires var x := r.tracks[i].next.value;
             forall j: nat | j < |hs| :: InSegment(g, j) == InSegment(r.segment.value, j)
               + if j == i && !IsLate(r, PendingDTS(r.tracks[i])) then [Settle(x, Clamped(x, s))] else []
    ensures TracksOk(r', hs[i := Noted(hs[i], r, i, s)])
  {
    hide TrackOk, InSegment, PendingDTS, Settle, Clamped, Advanced;
    var segs, hs' := Segs(r), hs[i := Noted(hs[i], r, i, s)];
    assert Segs(r') == segs[|segs| - 1 := g];
    forall j: nat | j < |hs| ensures TrackOk(r'.tracks[j], j, Segs(r'), hs'[j].recv, hs'[j].log) {
      if j == i {
        PendingMeansReceived(r.tracks[i], i, segs, hs[i].recv, hs[i].log);
        SampleKeepsTrack(r.tracks[i], i, segs, g, hs[i].recv, hs[i].log, s);
      } else {
        SameSamplesKeepTrack(r.tracks[j], j, segs, g, hs[j].recv, hs[j].log);
      }
    }
  }

  lemma PendingMeansReceived(t: Track, i: nat, segs: seq<Segment>, recv: seq<Sample>, log: seq<Fate>)
    requires TrackOk(t, i, segs, recv, log)
    ensures t.next.None? <==> recv == []
    ensures recv == [] ==> log == []
  {
  }

  lemma FirstKeepsTracks(r: Rec, hs: seq<History>, i: nat, s: Sample)
    requires TracksOk(r, hs) && i < |hs| && r.tracks[i].next.None?
    ensures TracksOk(Took(r, i, s), hs[i := Noted(hs[i], r, i, s)])
  {
    hide TrackOk, Advanced;
    var r', hs' := Took(r, i, s), hs[i := Noted(hs[i], r, i, s)];
    PendingMeansReceived(r.tracks[i], i, Segs(r), hs[i].recv, hs[i].log);
    FirstSampleKeepsTrack(r.tracks[i], i, Segs(r), s);
    assert [] + [s] == [s];
    forall j: nat | j < |hs| ensures TrackOk(r'.tracks[j], j, Segs(r'), hs'[j].recv, hs'[j].log) {
      assert Segs(r') == Segs(r);
    }
  }

  lemma StoringKeepsTracks(c: Conf, r: Rec, hs: seq<History>, i: nat, s: Sample)
    requires TracksOk(r, hs) && i < |hs| && r.tracks[i].next.Some?
    requires !IsLate(r, PendingDTS(r.tracks[i])) && Stores(c, Took(r, i, s), i, r.tracks[i].next.value).Ok?
    ensures TracksOk(Stores(c, Took(r, i, s), i, r.tracks[i].next.value).value, hs[i := Noted(hs[i], r, i, s)])
  {
    hide TrackOk, InSegment, WriteToSegment, Settle, Clamped, TimestampToDuration;
    var t, x := r.tracks[i], r.tracks[i].next.value;
    var o := Opened(r, x, t.clockRate);
    OpenedKeepsTracks(r, hs, x, t.clockRate);
    assert Noted(hs[i], r, i, s) == Noted(hs[i], o, i, s);
    var r' := Stores(c, Took(r, i, s), i, x).value;
    var y := Settle(x, Clamped(x, s));
    forall j: nat ensures InSegment(r'.segment.value, j) == InSegment(o.segment.value, j) + if j == i then [y] else [] {
      WriteAppends(c, o.segment.value, i, t.clockRate, y, PendingDTS(t), j);
    }
    MeetingKeepsTracks(o, r', hs, i, s, r'.segment.value);
  }

  lemma LateKeepsTracks(r: Rec, hs: seq<History>, i: nat, s: Sample)
    requires TracksOk(r, hs) && i < |hs| && r.tracks[i].next.Some? && IsLate(r, PendingDTS(r.tracks[i]))
    ensures TracksOk(Took(r, i, s), hs[i := Noted(hs[i], r, i, s)])
  {
    hide TrackOk, InSegment;
    MeetingKeepsTracks(r, Took(r, i, s), hs, i, s, r.segment.value);
  }

  lemma WriteKeepsTracks(c: Conf, r: Rec, hs: seq<History>, i: nat, s: Sample)
    requires TracksOk(r, hs) && i < |hs| && Write(c, r, i, s).Ok?
    ensures TracksOk(Write(c, r, i, s).value, hs[i := Noted(hs[i], r, i, s)])
  {
    hide TrackOk, Noted, Stores, Rotate, Drifted, MustRotate;
    if r.tracks[i].next.None? {
      FirstKeepsTracks(r, hs, i, s);
    } else if IsLate(r, PendingDTS(r.tracks[i])) {
      LateKeepsTracks(r, hs, i, s);
    } else {
      StoringKeepsTracks(c, r, hs, i, s);
      RotateKeepsTracks(Stores(c, Took(r, i, s), i, r.tracks[i].next.value).value, hs[i := Noted(hs[i], r, i, s)]);
    }
  }

  // ----- what an error leaves behind

  /** An error costs the sample that caused it and nothing else: the open segment holds what it held, and no
      file changes. */
  lemma ErrorKeepsSamples(c: Conf, r: Rec, i: nat, s: Sample, j: nat)
    requires i < |r.tracks| && RatesOk(r) && Write(c, r, i, s).Err?
    ensures var r' := AfterError(c, r, i, s);
            && r'.files == r.files && (r.segment.Some? ==> r'.segment.Some?)
            && (r'.segment.Some? ==>
                  InSegment(r'.segment.value, j) == if r.segment.Some? then InSegment(r.segment.value, j) else [])
  {
    hide InSegment, TimestampToDuration, Settle, Drifted, WithPart;
    var t, r1 := r.tracks[i], Took(r, i, s);
    var x := t.next.value;
    var dts := TimestampToDuration(x.dts, t.clockRate);
    var g := CurrentSegment(r1, dts, x.ntp);
    var y := Settle(x, r1.tracks[i].next.value);
    var g1 := g.(endDTS := Max(g.endDTS, EndOf(y, dts, t.clockRate)));
    WithPartKeepsSamples(c, g1, dts, j);
    EndDoesNotMatter(g, g1.endDTS, j);
    NewSegmentIsEmpty(NewSegment(r.nextNumber, dts, x.ntp), j);
  }

  lemma EndDoesNotMatter(g: Segment, e: int, j: nat)
    ensures InSegment(g.(endDTS := e), j) == InSegment(g, j)
  {
  }

  lemma NewSegmentIsEmpty(g: Segment, i: nat)
    requires g.parts == [] && g.cur.None?
    ensures InSegment(g, i) == []
  {
  }
}
