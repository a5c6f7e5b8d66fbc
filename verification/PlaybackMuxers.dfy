/** The muxers of internal/playback as the objects they are: fields updated in place, the file as the
    sequence of what was written to it. */
module PlaybackMuxers {
  import opened GoArith
  import opened Playback
  import opened PlaybackMp4
  import F = PlaybackFeed

  class MuxerFMP4 {
    var initPending: bool
    var nextSequenceNumber: int
    var tracks: seq<Track>
    var curTrack: nat
    var file: seq<Part>

    constructor (timeScales: seq<nat>)
      ensures View() == NewMuxer(timeScales) && curTrack == 0
    {
      initPending, nextSequenceNumber, curTrack, file := true, 0, 0, [];
      tracks := seq(|timeScales|, i requires 0 <= i < |timeScales| => Track(timeScales[i], -1, 0, []));
    }

    function View(): Muxer
      reads this
    {
      Muxer(initPending, nextSequenceNumber, tracks, file)
    }

    method SetTrack(i: nat)
      requires i < |tracks|
      modifies this`curTrack
      ensures curTrack == i
    {
      curTrack := i;
    }

    method WriteSample(x: Sample) returns (ok: bool)
      requires curTrack < |tracks|
      modifies this`initPending, this`nextSequenceNumber, this`tracks, this`file
      ensures ok == Playback.WriteSample(old(View()), curTrack, x).Ok?
      ensures ok ==> View() == Playback.WriteSample(old(View()), curTrack, x).value
      ensures !ok ==> View() == old(View()).(tracks := old(tracks)[curTrack := Put(old(tracks)[curTrack], x)])
    {
      var t := tracks[curTrack];
      var out := OutSample(0, x.ptsOffset, x.nonSync, x.payload);
      ok := true;
      if x.dts >= 0 {
        if t.firstDTS < 0 {
          t := t.(firstDTS := x.dts);
          if !x.nonSync {
            t := t.(samples := []);
          }
        } else {
          var duration := Max(x.dts - t.lastDTS, 0);
          t := t.(samples := SetLastDuration(t.samples, Uint32(duration)));
        }
        t := t.(samples := t.samples + [out]);
        t := t.(lastDTS := x.dts);
        assert t == Put(tracks[curTrack], x);
        tracks := tracks[curTrack := t];
        if t.lastDTS - t.firstDTS >= DurationGoToMp4(PART_DURATION, t.timeScale) {
          ok := InnerFlush(false);
        }
      } else {
        if !x.nonSync {
          t := t.(samples := []);
        }
        t := t.(samples := t.samples + [out]);
        assert t == Put(tracks[curTrack], x);
        tracks := tracks[curTrack := t];
      }
    }

    method WriteFinalDTS(dts: int)
      requires curTrack < |tracks|
      modifies this`tracks
      ensures View() == Playback.WriteFinalDTS(old(View()), curTrack, dts)
    {
      var t := tracks[curTrack];
      if |t.samples| != 0 && t.firstDTS >= 0 {
        var duration := Max(dts - t.lastDTS, 0);
        t := t.(samples := SetLastDuration(t.samples, Uint32(duration)));
      }
      tracks := tracks[curTrack := t];
    }

    method InnerFlush(final: bool) returns (ok: bool)
      modifies this`initPending, this`nextSequenceNumber, this`tracks, this`file
      ensures ok == Playback.InnerFlush(old(View()), final).Ok?
      ensures View() == if ok then Playback.InnerFlush(old(View()), final).value else old(View())
    {
      hide Put, HasToFlush;
      ghost var old_ := tracks;
      var partTracks := CollectTracks(final);
      if partTracks == [] {
        ok := !initPending;
        NothingFlushedIsUnchanged(old_, final);
        return;
      }
      file := file + [Part(nextSequenceNumber, partTracks)];
      nextSequenceNumber := Uint32(nextSequenceNumber + 1);
      initPending := false;
      ok := true;
    }

    /** The loop of the flush: what each track contributes, taken out of its buffer. */
    method CollectTracks(final: bool) returns (partTracks: seq<PartTrack>)
      modifies this`tracks
      ensures partTracks == PartTracks(old(tracks), final)
      ensures tracks == FlushedTracks(old(tracks), final)
    {
      partTracks := [];
      CollectNone(tracks, final);
      for i := 0 to |tracks|
        invariant |tracks| == |old(tracks)| && CollectedUpTo(old(tracks), tracks, partTracks, i, final)
      {
        hide CollectedUpTo;
        CollectStep(old(tracks), tracks, partTracks, i, final);
        var t := tracks[i];
        if t.firstDTS >= 0 && (|t.samples| > 1 || (final && |t.samples| != 0)) {
          var samples := if !final then t.samples[..|t.samples| - 1] else t.samples;
          partTracks := partTracks + [PartTrack(i, t.firstDTS, samples)];
          if !final {
            t := t.(samples := t.samples[|t.samples| - 1..]);
            t := t.(firstDTS := t.lastDTS);
          }
        }
        tracks := tracks[i := t];
      }
      assert old(tracks)[..|tracks|] == old(tracks);
    }

    method Flush() returns (ok: bool)
      modifies this`initPending, this`nextSequenceNumber, this`tracks, this`file
      ensures ok == Playback.InnerFlush(old(View()), true).Ok?
      ensures View() == if ok then Playback.InnerFlush(old(View()), true).value else old(View())
    {
      ok := InnerFlush(true);
    }
  }

  /** The first `i` tracks have given what they had to. */
  predicate CollectedUpTo(ts: seq<Track>, cur: seq<Track>, parts: seq<PartTrack>, i: nat, final: bool) {
    && i <= |ts| && |cur| == |ts|
    && parts == PartTracks(ts[..i], final) && cur == FlushedTracks(ts[..i], final) + ts[i..]
  }

  lemma CollectNone(ts: seq<Track>, final: bool)
    ensures CollectedUpTo(ts, ts, [], 0, final)
  {
  }

  lemma CollectStep(ts: seq<Track>, cur: seq<Track>, parts: seq<PartTrack>, i: nat, final: bool)
    requires i < |ts| && CollectedUpTo(ts, cur, parts, i, final)
    ensures |cur| == |ts| && cur[i] == ts[i]
    ensures HasToFlush(ts[i], final) ==>
              CollectedUpTo(ts, cur[i := FlushedTrack(ts[i], final)], parts + [FlushedPart(ts[i], i, final)], i + 1,
                            final)
    ensures !HasToFlush(ts[i], final) ==> CollectedUpTo(ts, cur[i := ts[i]], parts, i + 1, final)
  {
    assert ts[..i + 1][..i] == ts[..i];
  }

  lemma {:induction false} NothingFlushedIsUnchanged(ts: seq<Track>, final: bool)
    requires PartTracks(ts, final) == []
    ensures FlushedTracks(ts, final) == ts
  {
    forall i | 0 <= i < |ts| ensures FlushedTrack(ts[i], final) == ts[i] {
      if HasToFlush(ts[i], final) {
        SomethingToFlush(ts, final, i);
      }
    }
  }

  class MuxerMP4 {
    var tracks: seq<Mp4Track>
    var curTrack: nat

    constructor (n: nat)
      ensures tracks == Mp4Run(n, []) && curTrack == 0
    {
      tracks, curTrack := seq(n, i => Mp4Track(0, 0, [])), 0;
    }

    method SetTrack(i: nat)
      requires i < |tracks|
      modifies this`curTrack
      ensures curTrack == i
    {
      curTrack := i;
    }

    method WriteSample(x: Sample)
      requires curTrack < |tracks|
      modifies this`tracks
      ensures tracks == Mp4Apply(old(tracks), PutOp(curTrack, x))
    {
      var t := tracks[curTrack];
      if (x.dts < 0 || (x.dts >= 0 && t.lastDTS < 0)) && !x.nonSync {
        t := t.(samples := []);
      }
      if |t.samples| == 0 {
        t := t.(timeOffset := Int32(x.dts));
      } else {
        var duration := Max(x.dts - t.lastDTS, 0);
        t := t.(samples := SetLastDuration(t.samples, Uint32(duration)));
      }
      var ptsOffset := x.ptsOffset;
      if !x.nonSync {
        ptsOffset := 0;
      }
      t := t.(samples := t.samples + [OutSample(0, ptsOffset, x.nonSync, x.payload)]);
      t := t.(lastDTS := x.dts);
      assert t == Mp4Put(tracks[curTrack], x);
      tracks := tracks[curTrack := t];
    }

    method WriteFinalDTS(dts: int)
      requires curTrack < |tracks|
      modifies this`tracks
      ensures tracks == Mp4Apply(old(tracks), FinalOp(curTrack, dts))
    {
      var t := tracks[curTrack];
      if |t.samples| != 0 {
        var duration := Max(dts - t.lastDTS, 0);
        t := t.(samples := SetLastDuration(t.samples, Uint32(duration)));
      }
      tracks := tracks[curTrack := t];
    }

    method Flush() returns (r: Result<Mp4File>)
      requires curTrack < |tracks|
      ensures r == Mp4Flush(tracks, curTrack)
    {
      if |tracks[curTrack].samples| == 0 || tracks[curTrack].lastDTS < 0 {
        return NoSegmentsFound;
      }
      var out := [];
      for i := 0 to |tracks|
        invariant out == NonEmptyTracks(tracks[..i])
      {
        assert tracks[..i + 1][..i] == tracks[..i];
        if |tracks[i].samples| != 0 {
          out := out + [(i, tracks[i])];
        }
      }
      assert tracks[..|tracks|] == tracks;
      r := Ok(Mp4File(out));
    }
  }

  // ----- from a segment to a file

  /** The calls of the walk, made on the incremental muxer until one fails. */
  method DriveFMP4(m: MuxerFMP4, ops: seq<Op>) returns (ok: bool)
    requires forall j | 0 <= j < |ops| :: ops[j].track < |m.tracks|
    modifies m
    ensures ok == Run(old(m.View()), ops).Ok?
    ensures ok ==> m.View() == Run(old(m.View()), ops).value
  {
    hide Playback.WriteSample, Playback.WriteFinalDTS;
    ghost var m0 := m.View();
    assert ops[..0] == [];
    for n := 0 to |ops|
      invariant Run(m0, ops[..n]) == Ok(m.View()) && |m.tracks| == |m0.tracks|
    {
      RunNext(m0, ops, n);
      m.SetTrack(ops[n].track);
      match ops[n] {
        case PutOp(_, x) =>
          ok := m.WriteSample(x);
          if !ok {
            RunFails(m0, ops, n + 1);
            return;
          }
        case FinalOp(_, dts) =>
          m.WriteFinalDTS(dts);
      }
    }
    assert ops[..|ops|] == ops;
    ok := true;
  }

  lemma RunNext(m: Muxer, ops: seq<Op>, n: nat)
    requires (forall j | 0 <= j < |ops| :: ops[j].track < |m.tracks|) && n < |ops| && Run(m, ops[..n]).Ok?
    ensures Run(m, ops[..n + 1]) == Apply(Run(m, ops[..n]).value, ops[n])
  {
    assert ops[..n + 1][..n] == ops[..n];
  }

  lemma {:induction false} RunFails(m: Muxer, ops: seq<Op>, n: nat)
    requires (forall j | 0 <= j < |ops| :: ops[j].track < |m.tracks|) && n <= |ops|
    requires Run(m, ops[..n]).NoSegmentsFound?
    ensures Run(m, ops).NoSegmentsFound?
  {
    if n == |ops| {
      assert ops[..n] == ops;
    } else {
      assert ops[..|ops| - 1][..n] == ops[..n];
      RunFails(m, ops[..|ops| - 1], n);
    }
  }

  /** Playing a segment into a fragmented file: for each track the payloads that `PlaybackFeed.PlaybackSelects`
      tells, unless the walk meets an unknown track or a time scale of zero. */
  method PlayFMP4(bs: seq<F.Box>, w: F.Window) returns (ok: bool, file: seq<Part>)
    ensures var p := F.Play(bs, w);
            && ok == (!p.feed.invalidTrack && !p.dividedByZero && F.FedWritten(w, p.feed.ops, 0).Ok?)
            && (ok ==> forall i: nat :: F.FedWritten(w, p.feed.ops, i) == Ok(Payloads(Written(LogOf(file, i)))))
  {
    hide Run, Playback.InnerFlush;
    var p := F.MuxParts(bs, w);
    file := [];
    if p.feed.invalidTrack || p.dividedByZero {
      return false, file;
    }
    var m := new MuxerFMP4(w.timeScales);
    ok := DriveFMP4(m, p.feed.ops);
    if ok {
      ok := m.Flush();
      file := m.file;
    }
  }
}
