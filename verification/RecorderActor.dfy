/** The recorder as the objects it is made of: a format with its open segment, a segment with its open
    part, each updated in place. */
module RecorderActor {
  import opened Wrappers
  import opened GoArith
  import opened Recorder
  import opened RecorderLaws

  class FormatPart {
    const segmentStartDTS: int
    const number: int
    const startDTS: int
    var partTracks: map<nat, PartTrack>
    var size: nat
    var endDTS: int

    constructor (segmentStartDTS: int, number: int, startDTS: int)
      ensures this.segmentStartDTS == segmentStartDTS && View() == NewPart(number, startDTS)
    {
      this.segmentStartDTS, this.number, this.startDTS := segmentStartDTS, number, startDTS;
      partTracks, size, endDTS := map[], 0, 0;
    }

    function View(): Part
      reads this
    {
      Part(number, startDTS, endDTS, size, partTracks)
    }

    method Write(c: Conf, i: nat, rate: int, x: Stored, dts: int) returns (err: Option<Error>)
      requires rate > 0
      modifies this
      ensures match WriteToPart(c, old(View()), segmentStartDTS, i, rate, x, dts)
              case Ok(p) => err == None && View() == p
              case Err(e) => err == Some(e) && View() == old(View())
    {
      if size + x.size > c.maxPartSize {
        return Some(MaximumPartSize);
      }
      size := size + x.size;
      if i !in partTracks {
        partTracks := partTracks[i := PartTrack(MultiplyAndDivide(dts - segmentStartDTS, rate, SECOND), [])];
      }
      partTracks := partTracks[i := partTracks[i].(samples := partTracks[i].samples + [x])];
      var end := dts + TimestampToDuration(x.duration, rate);
      if end > endDTS {
        endDTS := end;
      }
      err := None;
    }

    function Duration(): int
      reads this
    {
      endDTS - startDTS
    }
  }

  class FormatSegment {
    const startDTS: int
    const startNTP: int
    const number: nat
    var file: seq<Part>
    var curPart: FormatPart?
    var endDTS: int
    var nextPartNumber: int

    ghost predicate Valid()
      reads this, curPart
    {
      curPart != null ==> curPart.segmentStartDTS == startDTS
    }

    function View(): Segment
      reads this, curPart
    {
      Segment(number, startDTS, startNTP, endDTS, nextPartNumber, file,
              if curPart == null then None else Some(curPart.View()))
    }

    constructor (number: nat, startDTS: int, startNTP: int)
      ensures Valid() && View() == NewSegment(number, startDTS, startNTP) && curPart == null
    {
      this.number, this.startDTS, this.startNTP := number, startDTS, startNTP;
      file, curPart, endDTS, nextPartNumber := [], null, startDTS, 0;
    }

    method CloseCurPart()
      requires curPart != null
      modifies this`file
      ensures file == old(file) + [curPart.View()]
    {
      file := file + [curPart.View()];
    }

    method OpenPart(dts: int)
      modifies this`curPart, this`nextPartNumber
      ensures Valid() && fresh(curPart)
      ensures View() == StartPart(old(View()), dts)
    {
      curPart := new FormatPart(startDTS, nextPartNumber, dts);
      nextPartNumber := Uint32(nextPartNumber + 1);
    }

    method Write(c: Conf, i: nat, rate: int, x: Stored, dts: int) returns (err: Option<Error>)
      requires Valid() && rate > 0
      modifies this, curPart
      ensures Valid() && (curPart == old(curPart) || fresh(curPart))
      ensures match WriteToSegment(c, old(View()), i, rate, x, dts)
              case Ok(g) => err == None && View() == g
              case Err(e) => err == Some(e) && View() == Reached(c, old(View()), rate, x, dts)
    {
      hide WriteToPart;
      var end := dts + TimestampToDuration(x.duration, rate);
      if end > endDTS {
        endDTS := end;
      }
      ghost var g1 := View();
      if curPart == null {
        OpenPart(dts);
      } else if curPart.Duration() >= c.partDuration {
        CloseCurPart();
        curPart := null;
        OpenPart(dts);
      }
      assert View() == WithPart(c, g1, dts);
      err := curPart.Write(c, i, rate, x, dts);
    }

    method Close()
      modifies this
      ensures Valid() && curPart == null
      ensures View() == CloseSegment(old(View()))
    {
      if curPart != null {
        CloseCurPart();
        curPart := null;
      }
    }
  }

  /** The two loops of `nextSegmentStartingPos`. */
  method NextSegmentStartingPos(tracks: seq<Track>) returns (ntp: int, dts: int)
    requires forall i | 0 <= i < |tracks| :: tracks[i].clockRate > 0
    ensures Origin(dts, ntp) == NextStart(tracks)
  {
    var maxDTS := 0;
    for k := 0 to |tracks|
      invariant maxDTS == NewestPending(tracks[..k])
    {
      assert tracks[..k + 1][..k] == tracks[..k];
      if tracks[k].next.Some? {
        var d := TimestampToDuration(tracks[k].next.value.dts, tracks[k].clockRate);
        if d > maxDTS {
          maxDTS := d;
        }
      }
    }
    assert tracks[..|tracks|] == tracks;
    ntp, dts := 0, maxDTS;
    for k := 0 to |tracks|
      invariant Origin(dts, ntp) == OldestPending(tracks[..k], maxDTS)
    {
      assert tracks[..k + 1][..k] == tracks[..k];
      if tracks[k].next.Some? {
        var d := TimestampToDuration(tracks[k].next.value.dts, tracks[k].clockRate);
        if maxDTS - d <= MAX_BASETIME && d <= dts {
          ntp := tracks[k].next.value.ntp;
          dts := d;
        }
      }
    }
  }

  class FormatFMP4 {
    const conf: Conf
    var tracks: seq<Track>
    var hasVideo: bool
    var currentSegment: FormatSegment?
    var nextSegmentNumber: nat
    var files: seq<Segment>

    ghost function Repr(): set<object>
      reads this, currentSegment
    {
      {this} + if currentSegment == null then {}
               else {currentSegment} + if currentSegment.curPart == null then {} else {currentSegment.curPart}
    }

    ghost predicate Valid()
      reads this, Repr()
    {
      && (forall i | 0 <= i < |tracks| :: tracks[i].clockRate > 0)
      && (currentSegment != null ==> currentSegment.Valid())
    }

    ghost function View(): Rec
      reads this, Repr()
    {
      Rec(tracks, hasVideo, if currentSegment == null then None else Some(currentSegment.View()),
          nextSegmentNumber, files)
    }

    constructor (conf: Conf, tracks: seq<Track>)
      requires forall i | 0 <= i < |tracks| :: tracks[i].clockRate > 0
      ensures Valid() && fresh(Repr()) && this.conf == conf && View() == Rec(tracks, false, None, 0, [])
    {
      this.conf, this.tracks := conf, tracks;
      hasVideo, currentSegment, nextSegmentNumber, files := false, null, 0, [];
    }

    /** The pending sample gives way to `sample`, which is clamped so that time does not run back. */
    method Take(i: nat, sample: Sample) returns (drift: bool)
      requires Valid() && i < |tracks|
      modifies this`tracks, this`hasVideo
      ensures Valid() && View() == Took(old(View()), i, sample)
      ensures drift == (old(tracks)[i].next.Some? && Drifted(old(tracks)[i], old(tracks)[i].next.value))
    {
      var t := tracks[i];
      if t.isVideo {
        hasVideo := true;
      }
      drift := false;
      if t.next.None? {
        tracks := tracks[i := t.(next := Some(sample))];
        return;
      }
      var x, next := t.next.value, sample;
      if next.dts - x.dts < 0 {
        next := next.(dts := x.dts);
      }
      var dts := TimestampToDuration(x.dts, t.clockRate);
      if t.start.None? {
        t := t.(start := Some(Origin(dts, x.ntp)));
      } else {
        var d := (x.ntp - t.start.value.ntp) - (dts - t.start.value.dts);
        drift := d < -NTP_DRIFT_TOLERANCE || d > NTP_DRIFT_TOLERANCE;
      }
      tracks := tracks[i := t.(next := Some(next))];
    }

    method Store(i: nat, x: Sample) returns (err: Option<Error>)
      requires Valid() && i < |tracks| && tracks[i].next.Some?
      modifies Repr()
      ensures Valid() && fresh(Repr() - old(Repr()))
      ensures match Stores(conf, old(View()), i, x)
              case Ok(r) => err == None && View() == r
              case Err(e) => err == Some(e) && View() == FailedStore(conf, old(View()), i, x)
    {
      hide WriteToSegment, TimestampToDuration, Reached;
      var t := tracks[i];
      var dts := TimestampToDuration(x.dts, t.clockRate);
      if currentSegment == null {
        currentSegment := new FormatSegment(nextSegmentNumber, dts, x.ntp);
        nextSegmentNumber := nextSegmentNumber + 1;
      }
      var y := Stored(x.id, x.dts, Uint32(t.next.value.dts - x.dts), x.nonSync, x.size);
      err := currentSegment.Write(conf, i, t.clockRate, y, dts);
    }

    method RotateSegment()
      requires Valid() && currentSegment != null
      modifies Repr()
      ensures Valid() && fresh(Repr() - old(Repr())) && View() == Rotate(old(View()))
    {
      currentSegment.Close();
      files := files + [currentSegment.View()];
      var ntp, dts := NextSegmentStartingPos(tracks);
      currentSegment := new FormatSegment(nextSegmentNumber, dts, ntp);
      nextSegmentNumber := nextSegmentNumber + 1;
    }

    /** A sync sample that is far enough from the start of the segment begins a new one. */
    method RotateIfDue(i: nat)
      requires Valid() && currentSegment != null && i < |tracks| && tracks[i].next.Some?
      modifies Repr()
      ensures Valid() && fresh(Repr() - old(Repr()))
      ensures View() == if MustRotate(conf, old(hasVideo), old(tracks)[i], old(currentSegment.View()))
                        then Rotate(old(View())) else old(View())
    {
      hide Rotate, TimestampToDuration;
      var next := tracks[i].next.value;
      if (!hasVideo || tracks[i].isVideo) && !next.nonSync
         && TimestampToDuration(next.dts, tracks[i].clockRate) - currentSegment.startDTS >= conf.segmentDuration {
        RotateSegment();
      }
    }

    /** `close`: the open segment becomes a file if it ever had a part. */
    method CloseAll()
      requires Valid()
      modifies Repr()
      ensures files == Closed(old(View()))
    {
      if currentSegment != null {
        var hasFile := currentSegment.file != [] || currentSegment.curPart != null;
        currentSegment.Close();
        if hasFile {
          files := files + [currentSegment.View()];
        }
      }
    }

    method Write(i: nat, sample: Sample) returns (err: Option<Error>)
      requires Valid() && i < |tracks|
      modifies Repr()
      ensures Valid() && fresh(Repr() - old(Repr()))
      ensures match Recorder.Write(conf, old(View()), i, sample)
              case Ok(r) => err == None && View() == r
              case Err(e) => err == Some(e) && View() == AfterError(conf, old(View()), i, sample)
    {
      hide Stores, FailedStore, Rotate, Drifted, TimestampToDuration, Clamped, MustRotate;
      var x := tracks[i].next;
      var drift := Take(i, sample);
      if x.None? {
        return None;
      }
      if drift {
        return Some(DriftDetected);
      }
      var rate := tracks[i].clockRate;
      if currentSegment != null && TimestampToDuration(x.value.dts, rate) - currentSegment.startDTS < 0 {
        return None;
      }
      err := Store(i, x.value);
      if err.Some? {
        return;
      }
      RotateIfDue(i);
    }
  }

  /** A recording from start to end: samples are written until one fails, then the open segment is closed, so
      that the files are those of the recorder as it then is. `n` samples were taken. */
  method RecordAll(c: Conf, ts: seq<TrackConf>, ops: seq<Op>)
    returns (err: Option<Error>, n: nat, f: FormatFMP4)
    requires ClocksRun(ts) && OpsFit(ops, |ts|)
    ensures fresh(f) && n <= |ops| && Run(c, Initial(ts), ops[..n]).Ok?
    ensures err == None ==>
              n == |ops| && Run(c, Initial(ts), ops).Ok? && f.files == Closed(Run(c, Initial(ts), ops).value)
    ensures err.Some? ==>
              && Run(c, Initial(ts), ops) == Err(err.value) && n < |ops|
              && Write(c, Run(c, Initial(ts), ops[..n]).value, ops[n].track, ops[n].sample).Err?
              && f.files == Closed(AfterError(c, Run(c, Initial(ts), ops[..n]).value, ops[n].track, ops[n].sample))
  {
    hide Write, AfterError, Closed, Run;
    var tracks := seq(|ts|, i requires 0 <= i < |ts| => Track(ts[i].clockRate, ts[i].isVideo, None, None));
    f := new FormatFMP4(c, tracks);
    n := 0;
    RunOfNone(c, Initial(ts), ops);
    while n < |ops|
      invariant n <= |ops| && fresh(f.Repr()) && f.Valid() && f.conf == c
      invariant Run(c, Initial(ts), ops[..n]) == Ok(f.View())
    {
      RunNext(c, Initial(ts), ops, n);
      err := f.Write(ops[n].track, ops[n].sample);
      if err.Some? {
        RunFails(c, Initial(ts), ops, n + 1);
        f.CloseAll();
        return;
      }
      n := n + 1;
    }
    assert ops[..|ops|] == ops;
    f.CloseAll();
    err := None;
  }

  lemma RunOfNone(c: Conf, r: Rec, ops: seq<Op>)
    requires RatesOk(r) && OpsFit(ops, |r.tracks|)
    ensures Run(c, r, ops[..0]) == Ok(r)
  {
  }

  lemma RunNext(c: Conf, r: Rec, ops: seq<Op>, n: nat)
    requires RatesOk(r) && OpsFit(ops, |r.tracks|) && n < |ops| && Run(c, r, ops[..n]).Ok?
    ensures Run(c, r, ops[..n + 1]) == Write(c, Run(c, r, ops[..n]).value, ops[n].track, ops[n].sample)
  {
    assert ops[..n + 1][..n] == ops[..n];
  }

  lemma {:induction false} RunFails(c: Conf, r: Rec, ops: seq<Op>, n: nat)
    requires RatesOk(r) && OpsFit(ops, |r.tracks|) && n <= |ops| && Run(c, r, ops[..n]).Err?
    ensures Run(c, r, ops) == Run(c, r, ops[..n])
  {
    hide Write;
    if n == |ops| {
      assert ops[..n] == ops;
    } else {
      assert ops[..|ops| - 1][..n] == ops[..n];
      RunFails(c, r, ops[..|ops| - 1], n);
    }
  }
}
