/** The fast-start remuxer (internal/recording/faststart.go): a fragmented MP4, scanned box by box, is
    turned into one sample table per track.

    Boxes are already parsed. A payload is its byte range in the input. The meaning of the input, with
    which the outcome is compared, is that of section 8.8.8 (track fragment run) and section 8.8.12
    (track fragment decode time) of ISO/IEC 14496-12. */
module FastStart {
  import opened Wrappers
  import opened GoArith

  datatype Error = InvalidTrackID | TooLarge | NoSamplesFound | MissingTrackHeader

  datatype Result<+T> = Ok(value: T) | Err(error: Error)

  const MAX_PAYLOAD_SIZE: int := 0xFFFF_FFFF - 8

  datatype Entry = Entry(size: nat, duration: nat, nonSync: bool, ptsOffset: int)

  datatype Box = Moof(offset: nat) | Tfhd(trackID: int) | Tfdt(base: int) | Trun(dataOffset: int, entries: seq<Entry>)

  /** A sample of the output; its payload is copied from the given place in the input. */
  datatype Out = Out(duration: int, ptsOffset: int, nonSync: bool, offset: int, size: nat)

  datatype Track = Track(id: int, timeOffset: int, samples: seq<Out>, lastDTS: int, endDTS: int, started: bool)

  datatype Walk = Walk(tracks: seq<Track>, cur: Option<nat>, moofOffset: nat, payloadSize: nat)

  // ----- the scan

  function SetLastDuration(s: seq<Out>, d: int): (r: seq<Out>)
    ensures |r| == |s|
  {
    if s == [] then s else s[|s| - 1 := s[|s| - 1].(duration := d)]
  }

  function AddSample(t: Track, dts: int, x: Out): Track {
    if !t.started then t.(timeOffset := Int32(dts), started := true, samples := t.samples + [x], lastDTS := dts)
    else t.(samples := SetLastDuration(t.samples, Uint32(Max(dts - t.lastDTS, 0))) + [x], lastDTS := dts)
  }

  function Finalize(t: Track): Track {
    t.(samples := SetLastDuration(t.samples, Uint32(Max(t.endDTS - t.lastDTS, 0))))
  }

  /** Track `i` is the first with this identifier; if identifiers are distinct, the only one. */
  predicate Owns(ids: seq<int>, i: nat, id: int) {
    i < |ids| && ids[i] == id && id !in ids[..i]
  }

  lemma DistinctOwns(ids: seq<int>, i: nat, id: int)
    requires forall j, k | 0 <= j < k < |ids| :: ids[j] != ids[k]
    ensures Owns(ids, i, id) <==> i < |ids| && ids[i] == id
  {
  }

  /** The first track with the given identifier, if there is any. */
  function Find(ids: seq<int>, id: int): (r: Option<nat>)
    ensures r.Some? <==> id in ids
    ensures r.Some? ==> Owns(ids, r.value, id)
  {
    if ids == [] then None
    else
      var n := |ids| - 1;
      match Find(ids[..n], id)
      case Some(i) => assert ids[..n][..i] == ids[..i]; Some(i)
      case None => if ids[n] == id then Some(n) else None
  }

  function Ids(ts: seq<Track>): (r: seq<int>)
    ensures |r| == |ts|
    ensures forall i | 0 <= i < |ts| :: r[i] == ts[i].id
  {
    seq(|ts|, i requires 0 <= i < |ts| => ts[i].id)
  }

  function Sizes(es: seq<Entry>): nat {
    if es == [] then 0 else Sizes(es[..|es| - 1]) + es[|es| - 1].size
  }

  function Durations(es: seq<Entry>): nat {
    if es == [] then 0 else Durations(es[..|es| - 1]) + es[|es| - 1].duration
  }

  function AddEntry(w: Walk, i: nat, offset: int, e: Entry): (r: Result<Walk>)
    requires i < |w.tracks|
    ensures r.Ok? ==> |r.value.tracks| == |w.tracks|
  {
    if w.payloadSize + e.size > MAX_PAYLOAD_SIZE then Err(TooLarge)
    else
      var t := AddSample(w.tracks[i], w.tracks[i].endDTS, Out(0, e.ptsOffset, e.nonSync, offset, e.size));
      Ok(w.(payloadSize := w.payloadSize + e.size, tracks := w.tracks[i := t.(endDTS := t.endDTS + e.duration)]))
  }

  function AddEntries(w: Walk, i: nat, offset: int, es: seq<Entry>): (r: Result<Walk>)
    requires i < |w.tracks|
    ensures r.Ok? ==> |r.value.tracks| == |w.tracks|
  {
    if es == [] then Ok(w)
    else
      var p, e := es[..|es| - 1], es[|es| - 1];
      match AddEntries(w, i, offset, p)
      case Err(x) => Err(x)
      case Ok(w1) => AddEntry(w1, i, offset + Sizes(p), e)
  }

  /** A fragment time or run before any track header would dereference a nil track. */
  function Visit(w: Walk, b: Box): Result<Walk> {
    match b
    case Moof(offset) => Ok(w.(moofOffset := offset))
    case Tfhd(id) =>
      var i := Find(Ids(w.tracks), id);
      if i.None? then Err(InvalidTrackID) else Ok(w.(cur := i))
    case Tfdt(base) =>
      if w.cur.None? || w.cur.value >= |w.tracks| then Err(MissingTrackHeader)
      else Ok(w.(tracks := w.tracks[w.cur.value := w.tracks[w.cur.value].(endDTS := base)]))
    case Trun(dataOffset, es) =>
      if w.cur.None? || w.cur.value >= |w.tracks| then Err(MissingTrackHeader)
      else AddEntries(w, w.cur.value, w.moofOffset + dataOffset, es)
  }

  function Scan(w: Walk, bs: seq<Box>): Result<Walk> {
    if bs == [] then Ok(w)
    else
      match Scan(w, bs[..|bs| - 1])
      case Err(x) => Err(x)
      case Ok(w1) => Visit(w1, bs[|bs| - 1])
  }

  function NewTracks(ids: seq<int>): (ts: seq<Track>)
    ensures |ts| == |ids|
    ensures forall i | 0 <= i < |ids| :: ts[i] == Track(ids[i], 0, [], 0, 0, false)
  {
    seq(|ids|, i requires 0 <= i < |ids| => Track(ids[i], 0, [], 0, 0, false))
  }

  function Collected(ts: seq<Track>): seq<Track> {
    if ts == [] then []
    else
      var t := ts[|ts| - 1];
      Collected(ts[..|ts| - 1]) + if t.samples != [] then [Finalize(t)] else []
  }

  /** `readFragmentedMP4`. */
  function Read(ids: seq<int>, bs: seq<Box>): Result<seq<Track>> {
    match Scan(Walk(NewTracks(ids), None, 0, 0), bs)
    case Err(x) => Err(x)
    case Ok(w) =>
      var r := Collected(w.tracks);
      if r == [] then Err(NoSamplesFound) else Ok(r)
  }

  /** The scan as the source runs it. */
  method ReadFragmentedMP4(ids: seq<int>, bs: seq<Box>) returns (r: Result<seq<Track>>)
    ensures r == Read(ids, bs)
  {
    var w := Walk(NewTracks(ids), None, 0, 0);
    for n := 0 to |bs|
      invariant Scan(Walk(NewTracks(ids), None, 0, 0), bs[..n]) == Ok(w)
    {
      ScanNext(Walk(NewTracks(ids), None, 0, 0), bs, n);
      var next;
      match bs[n] {
        case Moof(offset) =>
          next := Ok(w.(moofOffset := offset));
        case Tfhd(id) =>
          var i := FindTrack(w.tracks, id);
          next := if i.None? then Err(InvalidTrackID) else Ok(w.(cur := i));
        case Tfdt(base) =>
          next := Visit(w, bs[n]);
        case Trun(dataOffset, es) =>
          if w.cur.None? || w.cur.value >= |w.tracks| {
            next := Err(MissingTrackHeader);
          } else {
            next := ReadRun(w, w.cur.value, w.moofOffset + dataOffset, es);
          }
      }
      if next.Err? {
        ScanFails(Walk(NewTracks(ids), None, 0, 0), bs, n + 1);
        return Err(next.error);
      }
      w := next.value;
    }
    assert bs[..|bs|] == bs;
    var out := [];
    for i := 0 to |w.tracks|
      invariant out == Collected(w.tracks[..i])
    {
      assert w.tracks[..i + 1][..i] == w.tracks[..i];
      if w.tracks[i].samples != [] {
        out := out + [Finalize(w.tracks[i])];
      }
    }
    assert w.tracks[..|w.tracks|] == w.tracks;
    r := if out == [] then Err(NoSamplesFound) else Ok(out);
  }

  method FindTrack(ts: seq<Track>, id: int) returns (r: Option<nat>)
    ensures r == Find(Ids(ts), id)
  {
    for n := 0 to |ts|
      invariant Find(Ids(ts)[..n], id) == None
    {
      assert Ids(ts)[..n + 1][..n] == Ids(ts)[..n];
      if ts[n].id == id {
        FindStays(Ids(ts), id, n + 1);
        return Some(n);
      }
    }
    assert Ids(ts)[..|ts|] == Ids(ts);
    r := None;
  }

  lemma FindIff(ids: seq<int>, id: int, i: nat)
    ensures Find(ids, id) == Some(i) <==> Owns(ids, i, id)
  {
    if Owns(ids, i, id) {
      assert ids[i] in ids;
    }
  }

  lemma {:induction false} FindStays(ids: seq<int>, id: int, n: nat)
    requires n <= |ids| && Find(ids[..n], id).Some?
    ensures Find(ids, id) == Find(ids[..n], id)
  {
    if n == |ids| {
      assert ids[..n] == ids;
    } else {
      assert ids[..|ids| - 1][..n] == ids[..n];
      FindStays(ids[..|ids| - 1], id, n);
    }
  }

  method ReadRun(w: Walk, i: nat, start: int, es: seq<Entry>) returns (r: Result<Walk>)
    requires i < |w.tracks|
    ensures r == AddEntries(w, i, start, es)
  {
    var cur, offset := w, start;
    for n := 0 to |es|
      invariant |cur.tracks| == |w.tracks| && offset == start + Sizes(es[..n])
      invariant AddEntries(w, i, start, es[..n]) == Ok(cur)
    {
      hide Int32, Uint32, Max;
      var e := es[n];
      assert es[..n + 1][..n] == es[..n];
      cur := cur.(payloadSize := cur.payloadSize + e.size);
      if cur.payloadSize > MAX_PAYLOAD_SIZE {
        EntriesFail(w, i, start, es, n + 1);
        return Err(TooLarge);
      }
      var t := AddSample(cur.tracks[i], cur.tracks[i].endDTS, Out(0, e.ptsOffset, e.nonSync, offset, e.size));
      offset := offset + e.size;
      t := t.(endDTS := t.endDTS + e.duration);
      cur := cur.(tracks := cur.tracks[i := t]);
    }
    assert es[..|es|] == es;
    r := Ok(cur);
  }

  lemma ScanNext(w: Walk, bs: seq<Box>, n: nat)
    requires n < |bs| && Scan(w, bs[..n]).Ok?
    ensures Scan(w, bs[..n + 1]) == Visit(Scan(w, bs[..n]).value, bs[n])
  {
    assert bs[..n + 1][..n] == bs[..n];
  }

  lemma {:induction false} ScanFails(w: Walk, bs: seq<Box>, n: nat)
    requires n <= |bs| && Scan(w, bs[..n]).Err?
    ensures Scan(w, bs) == Scan(w, bs[..n])
  {
    if n == |bs| {
      assert bs[..n] == bs;
    } else {
      assert bs[..|bs| - 1][..n] == bs[..n];
      ScanFails(w, bs[..|bs| - 1], n);
    }
  }

  lemma {:induction false} EntriesFail(w: Walk, i: nat, offset: int, es: seq<Entry>, n: nat)
    requires i < |w.tracks| && n <= |es| && AddEntries(w, i, offset, es[..n]).Err?
    ensures AddEntries(w, i, offset, es) == AddEntries(w, i, offset, es[..n])
  {
    if n == |es| {
      assert es[..n] == es;
    } else {
      assert es[..|es| - 1][..n] == es[..n];
      EntriesFail(w, i, offset, es[..|es| - 1], n);
    }
  }
}
