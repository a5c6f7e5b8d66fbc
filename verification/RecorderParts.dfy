/** How a recording is cut into parts, and what the ends and sizes it keeps track of mean. */
module RecorderParts {
  import opened Wrappers
  import opened GoArith
  import opened Recorder
  import opened RecorderRuns
  import opened RecorderLaws

  function EndAt(x: Stored, rate: int): int
    requires rate > 0
  {
    EndOf(x, TimestampToDuration(x.dts, rate), rate)
  }

  predicate Positive(rates: seq<int>) {
    forall i | 0 <= i < |rates| :: rates[i] > 0
  }

  // ----- ends

  predicate Below(p: Part, rates: seq<int>, e: int)
    requires Positive(rates)
  {
    forall i: nat, k: nat | i < |rates| && k < |InPart(p, i)| :: EndAt(InPart(p, i)[k], rates[i]) <= e
  }

  ghost predicate Attains(p: Part, rates: seq<int>, e: int)
    requires Positive(rates)
  {
    exists i: nat, k: nat :: i < |rates| && k < |InPart(p, i)| && EndAt(InPart(p, i)[k], rates[i]) == e
  }

  // ----- sizes

  function Sizes(s: seq<Stored>): nat {
    if s == [] then 0 else Sizes(s[..|s| - 1]) + s[|s| - 1].size
  }

  function PartSize(p: Part, n: nat): nat {
    if n == 0 then 0 else PartSize(p, n - 1) + Sizes(InPart(p, n - 1))
  }

  // ----- one part

  /** The end of a part is the latest end of a sample in it, its size that of all of them. */
  ghost predicate Measured(c: Conf, p: Part, rates: seq<int>)
    requires Positive(rates)
  {
    && Below(p, rates, p.endDTS) && (p.endDTS == 0 || Attains(p, rates, p.endDTS))
    && p.size == PartSize(p, |rates|) <= c.maxPartSize
  }

  /** `p'` is `p` with `x` appended to track `i`. */
  ghost predicate Appends(p: Part, p': Part, i: nat, x: Stored) {
    forall j: nat :: InPart(p', j) == InPart(p, j) + if j == i then [x] else []
  }

  lemma WriteToPartAppends(c: Conf, p: Part, start: int, i: nat, rate: int, x: Stored, dts: int)
    requires rate > 0 && WriteToPart(c, p, start, i, rate, x, dts).Ok?
    ensures Appends(p, WriteToPart(c, p, start, i, rate, x, dts).value, i, x)
  {
    hide EndOf, BaseTime, Max;
  }

  lemma SizesNext(s: seq<Stored>, x: Stored)
    ensures Sizes(s + [x]) == Sizes(s) + x.size
  {
    assert (s + [x])[..|s|] == s;
  }

  lemma AppendsAt(p: Part, p': Part, i: nat, x: Stored, j: nat)
    requires Appends(p, p', i, x)
    ensures j == i ==> InPart(p', j) == InPart(p, j) + [x]
    ensures j != i ==> InPart(p', j) == InPart(p, j)
  {
    assert InPart(p', j) == InPart(p, j) + if j == i then [x] else [];
  }

  lemma {:induction false} SizeGrows(p: Part, p': Part, i: nat, x: Stored, n: nat)
    requires Appends(p, p', i, x)
    ensures PartSize(p', n) == PartSize(p, n) + if i < n then x.size else 0
  {
    hide Appends, InPart, Sizes;
    if n > 0 {
      SizeGrows(p, p', i, x, n - 1);
      AppendsAt(p, p', i, x, n - 1);
      SizesNext(InPart(p, n - 1), x);
    }
  }

  lemma BelowGrows(p: Part, p': Part, i: nat, x: Stored, rates: seq<int>, e: int)
    requires Positive(rates) && Appends(p, p', i, x) && i < |rates| && Below(p, rates, e)
    ensures Below(p', rates, Max(e, EndAt(x, rates[i])))
    ensures Attains(p', rates, EndAt(x, rates[i]))
    ensures Attains(p, rates, e) ==> Attains(p', rates, e)
  {
    hide EndAt, InPart;
    forall j: nat, k: nat | j < |rates| && k < |InPart(p', j)|
      ensures EndAt(InPart(p', j)[k], rates[j]) <= Max(e, EndAt(x, rates[i]))
    {
      assert k < |InPart(p, j)| ==> InPart(p', j)[k] == InPart(p, j)[k];
    }
    assert InPart(p', i)[|InPart(p, i)|] == x;
    if Attains(p, rates, e) {
      var j: nat, k: nat :| j < |rates| && k < |InPart(p, j)| && EndAt(InPart(p, j)[k], rates[j]) == e;
      assert InPart(p', j)[k] == InPart(p, j)[k];
    }
  }

  lemma WriteKeepsMeasured(c: Conf, p: Part, start: int, i: nat, rates: seq<int>, x: Stored)
    requires Positive(rates) && i < |rates| && Measured(c, p, rates)
    requires WriteToPart(c, p, start, i, rates[i], x, TimestampToDuration(x.dts, rates[i])).Ok?
    ensures var p' := WriteToPart(c, p, start, i, rates[i], x, TimestampToDuration(x.dts, rates[i])).value;
            Measured(c, p', rates) && Appends(p, p', i, x) && p'.startDTS == p.startDTS
  {
    hide Below, Attains, Appends, PartSize, InPart, TimestampToDuration, BaseTime;
    var dts := TimestampToDuration(x.dts, rates[i]);
    var p' := WriteToPart(c, p, start, i, rates[i], x, dts).value;
    WriteToPartAppends(c, p, start, i, rates[i], x, dts);
    SizeGrows(p, p', i, x, |rates|);
    BelowGrows(p, p', i, x, rates, p.endDTS);
  }

  lemma {:induction false} EmptySize(p: Part, n: nat)
    requires p.tracks == map[]
    ensures PartSize(p, n) == 0
  {
    if n > 0 {
      EmptySize(p, n - 1);
    }
  }

  lemma NewPartIsMeasured(c: Conf, number: int, dts: int, rates: seq<int>)
    requires Positive(rates)
    ensures Measured(c, NewPart(number, dts), rates)
  {
    EmptySize(NewPart(number, dts), |rates|);
  }

  // ----- one segment

  /** Parts are measured; all but the last reached the part duration; the end of the segment, from which
      its header gets the duration, is the latest end of a sample in it, or its start. */
  ghost predicate WellCut(c: Conf, g: Segment, rates: seq<int>)
    requires Positive(rates)
  {
    var ps := AllParts(g);
    && (forall q | 0 <= q < |ps| :: Measured(c, ps[q], rates) && Below(ps[q], rates, g.endDTS))
    && (forall q | 0 <= q < |ps| - 1 :: ps[q].endDTS - ps[q].startDTS >= c.partDuration)
    && g.endDTS >= g.startDTS
    && (g.endDTS == g.startDTS || exists q :: 0 <= q < |ps| && Attains(ps[q], rates, g.endDTS))
  }

  lemma ClosingKeepsCut(c: Conf, g: Segment, rates: seq<int>)
    requires Positive(rates) && WellCut(c, g, rates)
    ensures WellCut(c, CloseSegment(g), rates)
  {
    hide Measured, Below, Attains;
    assert AllParts(CloseSegment(g)) == AllParts(g);
  }

  lemma NewSegmentIsWellCut(c: Conf, n: nat, dts: int, ntp: int, rates: seq<int>)
    requires Positive(rates)
    ensures WellCut(c, NewSegment(n, dts, ntp), rates)
  {
  }

  /** Parts are closed only to open another, until the segment is closed. */
  predicate Open(g: Segment) {
    g.cur.None? ==> g.parts == []
  }

  /** A part is opened only when there is none or the last one is full. */
  lemma WithPartKeepsCut(c: Conf, g: Segment, dts: int, rates: seq<int>)
    requires Positive(rates) && WellCut(c, g, rates) && Open(g)
    ensures WellCut(c, WithPart(c, g, dts), rates)
  {
    hide Measured, Below, Attains, Uint32;
    var g', ps := WithPart(c, g, dts), AllParts(g);
    if g.cur.None? || g.cur.value.endDTS - g.cur.value.startDTS >= c.partDuration {
      var p := NewPart(g.nextPartNumber, dts);
      assert AllParts(g') == ps + [p];
      NewPartIsMeasured(c, g.nextPartNumber, dts, rates);
      NothingIsBelow(p, rates, g.endDTS);
      assert forall q | 0 <= q < |ps| :: AllParts(g')[q] == ps[q];
    } else {
      assert AllParts(g') == ps;
    }
  }

  lemma NothingIsBelow(p: Part, rates: seq<int>, e: int)
    requires Positive(rates) && p.tracks == map[]
    ensures Below(p, rates, e)
  {
  }

  lemma BelowIsMonotone(p: Part, rates: seq<int>, e: int, e': int)
    requires Positive(rates) && Below(p, rates, e) && e <= e'
    ensures Below(p, rates, e')
  {
    hide EndAt, InPart;
    forall i: nat, k: nat | i < |rates| && k < |InPart(p, i)| ensures EndAt(InPart(p, i)[k], rates[i]) <= e' {
      assert EndAt(InPart(p, i)[k], rates[i]) <= e;
    }
  }

  lemma WriteKeepsCut(c: Conf, g: Segment, i: nat, rates: seq<int>, x: Stored)
    requires Positive(rates) && i < |rates| && WellCut(c, g, rates) && Open(g)
    requires WriteToSegment(c, g, i, rates[i], x, TimestampToDuration(x.dts, rates[i])).Ok?
    ensures var g' := WriteToSegment(c, g, i, rates[i], x, TimestampToDuration(x.dts, rates[i])).value;
            WellCut(c, g', rates) && Open(g')
  {
    hide Measured, Below, Attains, Appends, InPart, TimestampToDuration, BaseTime, WithPart, WriteToPart;
    var dts := TimestampToDuration(x.dts, rates[i]);
    var g1 := WithPart(c, g, dts);
    WithPartKeepsCut(c, g, dts, rates);
    WithPartIgnoresEnd(c, g, dts, Max(g.endDTS, EndOf(x, dts, rates[i])));
    var p := g1.cur.value;
    var p' := WriteToPart(c, p, g1.startDTS, i, rates[i], x, dts).value;
    assert AllParts(g1)[|g1.parts|] == p;
    WriteKeepsMeasured(c, p, g1.startDTS, i, rates, x);
    BelowGrows(p, p', i, x, rates, g1.endDTS);
    WrittenIsWellCut(c, g1, rates, p', EndAt(x, rates[i]));
  }

  /** The new end of the segment does not matter for which part is written to. */
  lemma WithPartIgnoresEnd(c: Conf, g: Segment, dts: int, e: int)
    ensures WithPart(c, g.(endDTS := e), dts) == WithPart(c, g, dts).(endDTS := e)
    ensures WithPart(c, g, dts).endDTS == g.endDTS
  {
    hide Uint32;
  }

  lemma WrittenIsWellCut(c: Conf, g: Segment, rates: seq<int>, p': Part, e: int)
    requires Positive(rates) && WellCut(c, g, rates) && g.cur.Some?
    requires Measured(c, p', rates) && Below(p', rates, Max(g.endDTS, e)) && Attains(p', rates, e)
    requires Attains(g.cur.value, rates, g.endDTS) ==> Attains(p', rates, g.endDTS)
    ensures WellCut(c, g.(endDTS := Max(g.endDTS, e), cur := Some(p')), rates)
  {
    hide Measured, Below, Attains;
    var g', n := g.(endDTS := Max(g.endDTS, e), cur := Some(p')), |g.parts|;
    var ps, ps' := AllParts(g), AllParts(g');
    assert ps' == ps[n := p'] && ps[n] == g.cur.value;
    forall q | 0 <= q < |ps'| ensures Measured(c, ps'[q], rates) && Below(ps'[q], rates, g'.endDTS) {
      if q < n {
        BelowIsMonotone(ps[q], rates, g.endDTS, g'.endDTS);
      }
    }
    if g'.endDTS != g.endDTS {
      assert Attains(ps'[n], rates, g'.endDTS);
    } else if g.endDTS != g.startDTS {
      var q :| 0 <= q < |ps| && Attains(ps[q], rates, g.endDTS);
      assert Attains(ps'[q], rates, g'.endDTS);
    }
  }

  // ----- whole runs

  ghost predicate AllWellCut(c: Conf, r: Rec)
    requires RatesOk(r)
  {
    && (forall n | 0 <= n < |r.files| :: WellCut(c, r.files[n], Rates(r)))
    && (r.segment.Some? ==> WellCut(c, r.segment.value, Rates(r)) && Open(r.segment.value))
  }

  lemma StoringKeepsAllCut(c: Conf, r: Rec, i: nat, s: Sample)
    requires RatesOk(r) && AllWellCut(c, r) && i < |r.tracks| && r.tracks[i].next.Some?
    requires Stores(c, Took(r, i, s), i, r.tracks[i].next.value).Ok?
    ensures AllWellCut(c, Stores(c, Took(r, i, s), i, r.tracks[i].next.value).value)
  {
    hide WellCut, WriteToSegment, TimestampToDuration, Settle;
    var t, x, r1 := r.tracks[i], r.tracks[i].next.value, Took(r, i, s);
    var r' := Stores(c, r1, i, x).value;
    assert Rates(r') == Rates(r);
    var dts := TimestampToDuration(x.dts, t.clockRate);
    NewSegmentIsWellCut(c, r.nextNumber, dts, x.ntp, Rates(r));
    SettleKeepsDts(x, r1.tracks[i].next.value);
    WriteKeepsCut(c, CurrentSegment(r1, dts, x.ntp), i, Rates(r), Settle(x, r1.tracks[i].next.value));
  }

  lemma WriteKeepsAllCut(c: Conf, r: Rec, i: nat, s: Sample)
    requires RatesOk(r) && AllWellCut(c, r) && i < |r.tracks| && Write(c, r, i, s).Ok?
    ensures AllWellCut(c, Write(c, r, i, s).value)
  {
    hide WellCut, Stores, Drifted, MustRotate, NextStart, TimestampToDuration;
    var r1, r' := Took(r, i, s), Write(c, r, i, s).value;
    assert Rates(r1) == Rates(r);
    if r.tracks[i].next.Some? && !IsLate(r, PendingDTS(r.tracks[i])) {
      StoringKeepsAllCut(c, r, i, s);
      var r2 := Stores(c, r1, i, r.tracks[i].next.value).value;
      assert Rates(r') == Rates(r2);
      ClosingKeepsCut(c, r2.segment.value, Rates(r2));
      var o := NextStart(r2.tracks);
      NewSegmentIsWellCut(c, r2.nextNumber, o.dts, o.ntp, Rates(r2));
    }
  }

  /** In every run without errors, all segments are well cut. */
  lemma {:induction false} EveryRunIsWellCut(c: Conf, ts: seq<TrackConf>, ops: seq<Op>)
    requires ClocksRun(ts) && OpsFit(ops, |ts|) && Run(c, Initial(ts), ops).Ok?
    ensures AllWellCut(c, Run(c, Initial(ts), ops).value)
  {
    hide WellCut, Write;
    if ops != [] {
      var p, op := ops[..|ops| - 1], ops[|ops| - 1];
      EveryRunIsWellCut(c, ts, p);
      WriteKeepsAllCut(c, Run(c, Initial(ts), p).value, op.track, op.sample);
    }
  }
}
