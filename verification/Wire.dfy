/** The protobuf wire format as the control client uses it: variable-length integers, tags, strings, and
    skipping a field of unknown meaning, groups included. */
module Wire {

  type byte = x: int | 0 <= x < 256

  /** A value read from the front of a byte string and how many bytes it took, or a malformed one. */
  datatype Parsed<+T> = Bad | Good(value: T, n: nat)

  const TWO64: nat := 0x1_0000_0000_0000_0000

  const MAX_NUMBER: nat := 0x7FFF_FFFF

  const VARINT: nat := 0
  const FIXED64: nat := 1
  const BYTES: nat := 2
  const START_GROUP: nat := 3
  const END_GROUP: nat := 4
  const FIXED32: nat := 5

  const RECURSION_LIMIT: int := 10_000

  // ----- reading

  /** Seven bits a byte, least significant first, the top bit telling that more follow; the tenth byte
      has room for one bit only. */
  function VarintAt(b: seq<byte>, k: nat): (r: Parsed<nat>)
    requires k < 10
    ensures r.Good? ==> 0 < r.n <= |b| && r.n <= 10 - k
    decreases |b|
  {
    if b == [] then Bad
    else if k == 9 then if b[0] < 2 then Good(b[0], 1) else Bad
    else if b[0] < 128 then Good(b[0], 1)
    else
      match VarintAt(b[1..], k + 1)
      case Bad => Bad
      case Good(v, n) => Good(b[0] - 128 + 128 * v, n + 1)
  }

  function ConsumeVarint(b: seq<byte>): (r: Parsed<nat>)
    ensures r.Good? ==> 0 < r.n <= |b|
  {
    VarintAt(b, 0)
  }

  datatype Tag = Tag(number: nat, wire: nat)

  function ConsumeTag(b: seq<byte>): (r: Parsed<Tag>)
    ensures r.Good? ==> 0 < r.n <= |b|
  {
    match ConsumeVarint(b)
    case Bad => Bad
    case Good(v, n) => if 1 <= v / 8 <= MAX_NUMBER then Good(Tag(v / 8, v % 8), n) else Bad
  }

  function ConsumeBytes(b: seq<byte>): (r: Parsed<seq<byte>>)
    ensures r.Good? ==> 0 < r.n <= |b|
  {
    match ConsumeVarint(b)
    case Bad => Bad
    case Good(m, n) => if m > |b| - n then Bad else Good(b[n..n + m], n + m)
  }

  /** The length of a field's value. */
  function SkipValue(number: nat, wire: nat, b: seq<byte>, depth: int): (r: Parsed<()>)
    ensures r.Good? ==> r.n <= |b|
    decreases |b|, 1
  {
    if wire == VARINT then
      match ConsumeVarint(b)
      case Bad => Bad
      case Good(_, n) => Good((), n)
    else if wire == FIXED32 then if |b| < 4 then Bad else Good((), 4)
    else if wire == FIXED64 then if |b| < 8 then Bad else Good((), 8)
    else if wire == BYTES then
      match ConsumeBytes(b)
      case Bad => Bad
      case Good(_, n) => Good((), n)
    else if wire == START_GROUP then if depth < 0 then Bad else SkipGroup(number, b, depth)
    else Bad
  }

  /** The length of the fields of a group, the end tag included. */
  function SkipGroup(number: nat, b: seq<byte>, depth: int): (r: Parsed<()>)
    ensures r.Good? ==> r.n <= |b|
    decreases |b|, 0
  {
    match ConsumeTag(b)
    case Bad => Bad
    case Good(t, n) =>
      if t.wire == END_GROUP then if t.number == number then Good((), n) else Bad
      else
        match SkipValue(t.number, t.wire, b[n..], depth - 1)
        case Bad => Bad
        case Good(_, m) =>
          match SkipGroup(number, b[n..][m..], depth)
          case Bad => Bad
          case Good(_, l) => Good((), n + m + l)
  }

  // ----- writing

  function Varint(v: nat): (r: seq<byte>)
    ensures r != []
  {
    if v < 128 then [v] else [128 + v % 128] + Varint(v / 128)
  }

  function TagBytes(number: nat, wire: nat): seq<byte> {
    Varint(number * 8 + wire)
  }

  function StringBytes(s: seq<byte>): seq<byte> {
    Varint(|s|) + s
  }

  // ----- reading back what was written

  /** What fits into the bytes from the `k`-th on. */
  function Room(k: nat): nat
    requires k < 10
    decreases 10 - k
  {
    if k == 9 then 2 else 128 * Room(k + 1)
  }

  lemma RoomIs64Bits()
    ensures Room(0) == TWO64
  {
    assert Room(9) == 2 && Room(8) == 256 && Room(7) == 0x8000;
    assert Room(6) == 0x40_0000 && Room(5) == 0x2000_0000 && Room(4) == 0x10_0000_0000;
    assert Room(3) == 0x800_0000_0000 && Room(2) == 0x4_0000_0000_0000;
    assert Room(1) == 0x200_0000_0000_0000;
  }

  lemma {:induction false} VarintRoundTripAt(v: nat, k: nat, rest: seq<byte>)
    requires k < 10 && v < Room(k)
    ensures VarintAt(Varint(v) + rest, k) == Good(v, |Varint(v)|)
    decreases v
  {
    var b := Varint(v) + rest;
    if v >= 128 {
      assert k < 9;
      DivBelow(v, Room(k + 1));
      VarintRoundTripAt(v / 128, k + 1, rest);
      assert b[1..] == Varint(v / 128) + rest;
    }
  }

  lemma DivBelow(v: nat, m: nat)
    requires v < 128 * m
    ensures v / 128 < m
  {
  }

  lemma VarintRoundTrip(v: nat, rest: seq<byte>)
    requires v < TWO64
    ensures ConsumeVarint(Varint(v) + rest) == Good(v, |Varint(v)|)
  {
    RoomIs64Bits();
    VarintRoundTripAt(v, 0, rest);
  }

  lemma TagRoundTrip(number: nat, wire: nat, rest: seq<byte>)
    requires 1 <= number <= MAX_NUMBER && wire < 8
    ensures ConsumeTag(TagBytes(number, wire) + rest) == Good(Tag(number, wire), |TagBytes(number, wire)|)
  {
    VarintRoundTrip(number * 8 + wire, rest);
  }

  lemma Dropped(a: seq<byte>, b: seq<byte>)
    ensures (a + b)[|a|..] == b
  {
  }

  lemma BytesRoundTrip(s: seq<byte>, rest: seq<byte>)
    requires |s| < TWO64
    ensures ConsumeBytes(StringBytes(s) + rest) == Good(s, |StringBytes(s)|)
  {
    var h := Varint(|s|);
    assert StringBytes(s) + rest == h + (s + rest);
    VarintRoundTrip(|s|, s + rest);
    Dropped(h, s + rest);
    assert (h + (s + rest))[|h|..|h| + |s|] == s;
  }

  // ----- messages

  datatype Field =
    | Str(number: nat, value: seq<byte>)
    | Int(number: nat, v: nat)
    | Raw32(number: nat, raw: seq<byte>)
    | Raw64(number: nat, raw: seq<byte>)
    | Group(number: nat, fields: Fields)

  datatype Fields = NoFields | Then(first: Field, rest: Fields)

  predicate Valid(f: Field) {
    && 1 <= f.number <= MAX_NUMBER
    && match f
       case Str(_, s) => |s| < TWO64
       case Int(_, v) => v < TWO64
       case Raw32(_, raw) => |raw| == 4
       case Raw64(_, raw) => |raw| == 8
       case Group(_, fs) => AllValid(fs)
  }

  predicate AllValid(fs: Fields) {
    fs.Then? ==> Valid(fs.first) && AllValid(fs.rest)
  }

  /** How deep groups nest. */
  function Nesting(f: Field): nat {
    if f.Group? then 1 + MaxNesting(f.fields) else 0
  }

  function MaxNesting(fs: Fields): nat {
    if fs.NoFields? then 0
    else if Nesting(fs.first) >= MaxNesting(fs.rest) then Nesting(fs.first) else MaxNesting(fs.rest)
  }

  function WireOf(f: Field): nat {
    match f
    case Str(_, _) => BYTES
    case Int(_, _) => VARINT
    case Raw32(_, _) => FIXED32
    case Raw64(_, _) => FIXED64
    case Group(_, _) => START_GROUP
  }

  function ValueBytes(f: Field): seq<byte>
    decreases f, 0
  {
    match f
    case Str(_, s) => StringBytes(s)
    case Int(_, v) => Varint(v)
    case Raw32(_, raw) => raw
    case Raw64(_, raw) => raw
    case Group(number, fs) => AllBytes(fs) + TagBytes(number, END_GROUP)
  }

  function FieldBytes(f: Field): seq<byte>
    decreases f, 1
  {
    TagBytes(f.number, WireOf(f)) + ValueBytes(f)
  }

  function AllBytes(fs: Fields): seq<byte>
    decreases fs, 0
  {
    if fs.NoFields? then [] else FieldBytes(fs.first) + AllBytes(fs.rest)
  }

  /** Any field within the nesting limit is skipped exactly. */
  lemma {:induction false} SkipsValue(f: Field, rest: seq<byte>, depth: int)
    requires Valid(f) && Nesting(f) <= depth + 1
    ensures SkipValue(f.number, WireOf(f), ValueBytes(f) + rest, depth) == Good((), |ValueBytes(f)|)
    decreases f
  {
    hide ConsumeVarint, ConsumeBytes, StringBytes, Varint, TagBytes, SkipGroup, AllBytes;
    if f.Group? {
      SkipsFields(f.number, f.fields, rest, depth);
      assert ValueBytes(f) + rest == AllBytes(f.fields) + (TagBytes(f.number, END_GROUP) + rest);
    } else {
      SkipsPlainValue(f, rest, depth);
    }
  }

  lemma SkipsPlainValue(f: Field, rest: seq<byte>, depth: int)
    requires Valid(f) && !f.Group?
    ensures SkipValue(f.number, WireOf(f), ValueBytes(f) + rest, depth) == Good((), |ValueBytes(f)|)
  {
    hide ConsumeVarint, ConsumeBytes, StringBytes, Varint;
    match f
    case Str(_, s) => BytesRoundTrip(s, rest);
    case Int(_, v) => VarintRoundTrip(v, rest);
    case Raw32(_, raw) =>
    case Raw64(_, raw) =>
  }

  lemma {:induction false} SkipsFields(number: nat, fs: Fields, rest: seq<byte>, depth: int)
    requires 1 <= number <= MAX_NUMBER && AllValid(fs) && MaxNesting(fs) <= depth
    ensures SkipGroup(number, AllBytes(fs) + (TagBytes(number, END_GROUP) + rest), depth)
         == Good((), |AllBytes(fs)| + |TagBytes(number, END_GROUP)|)
    decreases fs
  {
    hide TagBytes, ValueBytes, SkipValue, Valid;
    var end := TagBytes(number, END_GROUP) + rest;
    if fs.NoFields? {
      assert [] + end == end;
      TagRoundTrip(number, END_GROUP, rest);
    } else {
      var f, more := fs.first, AllBytes(fs.rest) + end;
      ValidNumber(f);
      var t, v := TagBytes(f.number, WireOf(f)), ValueBytes(f);
      assert AllBytes(fs) + end == t + (v + more);
      TagRoundTrip(f.number, WireOf(f), v + more);
      SkipsValue(f, more, depth - 1);
      SkipsFields(number, fs.rest, rest, depth);
      hide AllBytes, SkipGroup;
      SkipsOne(number, t, v, more, depth);
    }
  }

  /** A group goes on after a field. */
  lemma SkipsOne(number: nat, t: seq<byte>, v: seq<byte>, more: seq<byte>, depth: int)
    requires ConsumeTag(t + (v + more)).Good? && ConsumeTag(t + (v + more)).n == |t|
    requires var tag := ConsumeTag(t + (v + more)).value;
             tag.wire != END_GROUP && SkipValue(tag.number, tag.wire, v + more, depth - 1) == Good((), |v|)
    requires SkipGroup(number, more, depth).Good?
    ensures SkipGroup(number, t + (v + more), depth) == Good((), |t| + |v| + SkipGroup(number, more, depth).n)
  {
    hide ConsumeTag, SkipValue;
    Dropped(t, v + more);
    Dropped(v, more);
  }

  /** Any field beyond the nesting limit is refused. */
  lemma {:induction false} RefusesValue(f: Field, rest: seq<byte>, depth: int)
    requires Valid(f) && Nesting(f) > depth + 1 && depth >= -1
    ensures SkipValue(f.number, WireOf(f), ValueBytes(f) + rest, depth) == Bad
    decreases f
  {
    hide TagBytes, SkipGroup, AllBytes;
    assert f.Group?;
    if depth >= 0 {
      RefusesFields(f.number, f.fields, rest, depth);
      assert ValueBytes(f) + rest == AllBytes(f.fields) + (TagBytes(f.number, END_GROUP) + rest);
    }
  }

  /** The bytes of a group are the tag and value of its first field, then the rest. */
  lemma BytesSplit(fs: Fields, end: seq<byte>)
    requires fs.Then?
    ensures var f := fs.first;
            AllBytes(fs) + end == TagBytes(f.number, WireOf(f)) + (ValueBytes(f) + (AllBytes(fs.rest) + end))
  {
    hide TagBytes, ValueBytes;
  }

  lemma {:induction false} RefusesFields(number: nat, fs: Fields, rest: seq<byte>, depth: int)
    requires 1 <= number <= MAX_NUMBER && AllValid(fs) && MaxNesting(fs) > depth >= 0
    ensures SkipGroup(number, AllBytes(fs) + (TagBytes(number, END_GROUP) + rest), depth) == Bad
    decreases fs
  {
    hide TagBytes, ValueBytes, SkipValue, SkipGroup, Valid, Nesting;
    var f := fs.first;
    var more := AllBytes(fs.rest) + (TagBytes(number, END_GROUP) + rest);
    BytesSplit(fs, TagBytes(number, END_GROUP) + rest);
    if Nesting(f) > depth {
      RefusesValue(f, more, depth - 1);
    } else {
      SkipsValue(f, more, depth - 1);
      RefusesFields(number, fs.rest, rest, depth);
    }
    RefusedFieldRefuses(number, f, more, depth);
  }

  lemma RefusedFieldRefuses(number: nat, f: Field, more: seq<byte>, depth: int)
    requires Valid(f)
    requires || SkipValue(f.number, WireOf(f), ValueBytes(f) + more, depth - 1) == Bad
             || (SkipValue(f.number, WireOf(f), ValueBytes(f) + more, depth - 1) == Good((), |ValueBytes(f)|)
                 && SkipGroup(number, more, depth) == Bad)
    ensures SkipGroup(number, TagBytes(f.number, WireOf(f)) + (ValueBytes(f) + more), depth) == Bad
  {
    hide TagBytes, ValueBytes, SkipValue, SkipGroup;
    ValidNumber(f);
    TagRoundTrip(f.number, WireOf(f), ValueBytes(f) + more);
    RefusesOne(number, TagBytes(f.number, WireOf(f)), ValueBytes(f), more, depth);
  }

  /** A group is refused if a field of it is, or the rest. */
  lemma RefusesOne(number: nat, t: seq<byte>, v: seq<byte>, more: seq<byte>, depth: int)
    requires ConsumeTag(t + (v + more)).Good? && ConsumeTag(t + (v + more)).n == |t|
    requires var tag := ConsumeTag(t + (v + more)).value;
             && tag.wire != END_GROUP
             && (|| SkipValue(tag.number, tag.wire, v + more, depth - 1) == Bad
                 || (SkipValue(tag.number, tag.wire, v + more, depth - 1) == Good((), |v|)
                     && SkipGroup(number, more, depth) == Bad))
    ensures SkipGroup(number, t + (v + more), depth) == Bad
  {
    hide ConsumeTag, SkipValue;
    Dropped(t, v + more);
    Dropped(v, more);
  }

  lemma ValidNumber(f: Field)
    requires Valid(f)
    ensures 1 <= f.number <= MAX_NUMBER
  {
  }
}
