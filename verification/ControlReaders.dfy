/** What the other side reads from the messages a node sends (internal/mmxcontrol/client.go): field by field, from
    the bytes. */
module ControlReaders {
  import opened Wrappers
  import opened Wire
  import opened ControlCodec

  // ----- a reader that wants one field and skips all others

  /** One field off the front, if it has the number wanted, and what is left. */
  function TakeField(data: seq<byte>, number: nat): (r: Option<(seq<Field>, seq<byte>)>)
    ensures r.Some? ==> |r.value.1| < |data|
  {
    match ConsumeTag(data)
    case Bad => None
    case Good(t, n) =>
      var rest := data[n..];
      if t.number != number then
        match SkipValue(t.number, t.wire, rest, RECURSION_LIMIT)
        case Bad => None
        case Good(_, m) => Some(([], rest[m..]))
      else if t.wire == BYTES then
        match ConsumeBytes(rest)
        case Bad => None
        case Good(value, m) => Some(([Str(number, value)], rest[m..]))
      else if t.wire == VARINT then
        match ConsumeVarint(rest)
        case Bad => None
        case Good(v, m) => Some(([Int(number, v)], rest[m..]))
      else None
  }

  /** All that a message has under a number, in order. */
  function TakeAll(data: seq<byte>, number: nat): Option<seq<Field>>
    decreases |data|
  {
    if data == [] then Some([])
    else
      match TakeField(data, number)
      case None => None
      case Some((found, rest)) =>
        match TakeAll(rest, number)
        case None => None
        case Some(more) => Some(found + more)
  }

  predicate Plain(fs: Fields) {
    fs.Then? ==> Valid(fs.first) && (fs.first.Str? || fs.first.Int?) && Plain(fs.rest)
  }

  function Numbered(fs: Fields, number: nat): seq<Field> {
    if fs.NoFields? then []
    else (if fs.first.number == number then [fs.first] else []) + Numbered(fs.rest, number)
  }

  lemma TakesOne(f: Field, rest: seq<byte>, number: nat)
    requires Valid(f) && (f.Str? || f.Int?)
    ensures TakeField(FieldBytes(f) + rest, number) == Some((if f.number == number then [f] else [], rest))
  {
    hide ConsumeTag, ConsumeBytes, ConsumeVarint, SkipValue, TagBytes, StringBytes, Varint;
    var t, v := TagBytes(f.number, WireOf(f)), ValueBytes(f);
    assert FieldBytes(f) + rest == t + (v + rest);
    TagRoundTrip(f.number, WireOf(f), v + rest);
    Dropped(t, v + rest);
    Dropped(v, rest);
    if f.number != number {
      assert Nesting(f) == 0;
      SkipsValue(f, rest, RECURSION_LIMIT);
    } else if f.Str? {
      BytesRoundTrip(f.value, rest);
    } else {
      VarintRoundTrip(f.v, rest);
    }
  }

  lemma {:induction false} TakesAll(fs: Fields, number: nat)
    requires Plain(fs)
    ensures TakeAll(AllBytes(fs), number) == Some(Numbered(fs, number))
    decreases fs
  {
    hide TakeField, FieldBytes, Valid;
    if fs.Then? {
      FieldIsNotEmpty(fs.first);
      TakesOne(fs.first, AllBytes(fs.rest), number);
      TakesAll(fs.rest, number);
    }
  }

  // ----- registrations

  /** A field that is left out if it is empty. */
  function IfGiven(number: nat, value: Name): seq<Field> {
    if value == [] then [] else [Str(number, value)]
  }

  lemma OptionalSays(number: nat, value: Name, rest: Fields, n: nat)
    requires 1 <= number <= MAX_NUMBER && |value| < TWO64 && Plain(rest)
    ensures Plain(Optional(number, value, rest))
    ensures n != number ==> Numbered(Optional(number, value, rest), n) == Numbered(rest, n)
    ensures n == number && Numbered(rest, n) == [] ==>
              Numbered(Optional(number, value, rest), n) == IfGiven(number, value)
  {
  }

  lemma StrSays(number: nat, value: Name, rest: Fields, n: nat)
    requires 1 <= number <= MAX_NUMBER && |value| < TWO64 && Plain(rest)
    ensures Plain(Then(Str(number, value), rest))
    ensures n != number ==> Numbered(Then(Str(number, value), rest), n) == Numbered(rest, n)
    ensures n == number && Numbered(rest, n) == [] ==>
              Numbered(Then(Str(number, value), rest), n) == [Str(number, value)]
  {
  }

  /** What a registration says under each number. */
  function SaidBy(i: Identity, n: nat): seq<Field> {
    match n
    case 1 => [Str(1, Ascii("COMMAND_TYPE_REGISTER"))]
    case 2 => [Str(2, i.secret)]
    case 3 => [Str(3, i.nodeType)]
    case 4 => [Str(4, i.diskSerial)]
    case 5 => [Str(5, i.version)]
    case 6 => [Str(6, i.region)]
    case 7 => IfGiven(7, i.webRTCBaseURL)
    case 8 => IfGiven(8, i.publishURL)
    case 9 => IfGiven(9, i.abrNegotiationAddress)
    case _ => []
  }

  /** From the bytes of a registration a reader gets every part of the node's identity under its own number, the
      last three only if they are given, and nothing else. */
  lemma RegistrationSays(i: Identity, n: nat)
    requires ShortIdentity(i)
    ensures TakeAll(AllBytes(Registration(i)), n) == Some(SaidBy(i, n))
  {
    ShortParts(i);
    AsciiLength("COMMAND_TYPE_REGISTER");
    hide Ascii, TakeAll, AllBytes, Numbered, Plain, IfGiven;
    Nothing(n);
    var f9 := Optional(9, i.abrNegotiationAddress, NoFields);
    OptionalSays(9, i.abrNegotiationAddress, NoFields, n);
    var f8 := Optional(8, i.publishURL, f9);
    OptionalSays(8, i.publishURL, f9, n);
    var f7 := Optional(7, i.webRTCBaseURL, f8);
    OptionalSays(7, i.webRTCBaseURL, f8, n);
    hide Optional;
    var f6 := Then(Str(6, i.region), f7);
    StrSays(6, i.region, f7, n);
    var f5 := Then(Str(5, i.version), f6);
    StrSays(5, i.version, f6, n);
    var f4 := Then(Str(4, i.diskSerial), f5);
    StrSays(4, i.diskSerial, f5, n);
    var f3 := Then(Str(3, i.nodeType), f4);
    StrSays(3, i.nodeType, f4, n);
    var f2 := Then(Str(2, i.secret), f3);
    StrSays(2, i.secret, f3, n);
    StrSays(1, Ascii("COMMAND_TYPE_REGISTER"), f2, n);
    TakesAll(Registration(i), n);
  }

  lemma Nothing(n: nat)
    ensures Plain(NoFields) && Numbered(NoFields, n) == []
  {
  }

  lemma ShortParts(i: Identity)
    requires ShortIdentity(i)
    ensures |i.secret| < TWO64 && |i.nodeType| < TWO64 && |i.diskSerial| < TWO64 && |i.version| < TWO64
    ensures |i.region| < TWO64 && |i.webRTCBaseURL| < TWO64 && |i.publishURL| < TWO64
    ensures |i.abrNegotiationAddress| < TWO64
  {
    var all := [i.secret, i.nodeType, i.diskSerial, i.version, i.region, i.webRTCBaseURL, i.publishURL,
                i.abrNegotiationAddress];
    assert |all[0]| < TWO64 && |all[1]| < TWO64 && |all[2]| < TWO64 && |all[3]| < TWO64 && |all[4]| < TWO64;
    assert |all[5]| < TWO64 && |all[6]| < TWO64 && |all[7]| < TWO64;
  }

  // ----- heartbeats

  function AsFields(number: nat, values: seq<Name>): (fs: seq<Field>)
    ensures |fs| == |values|
  {
    seq(|values|, k requires 0 <= k < |values| => Str(number, values[k]))
  }

  lemma {:induction false} StrsSay(number: nat, values: seq<Name>, n: nat)
    requires 1 <= number <= MAX_NUMBER && Short(values)
    ensures Plain(Strs(number, values))
    ensures Numbered(Strs(number, values), n) == if n == number then AsFields(number, values) else []
  {
    if values != [] {
      StrsSay(number, values[1..], n);
      assert AsFields(number, values) == [Str(number, values[0])] + AsFields(number, values[1..]);
    }
  }

  /** A list of names holds exactly the distinct non-empty ones of another, in strict order. */
  ghost predicate ListsInOrder(names: seq<Name>, pipelines: seq<Name>) {
    IsStrictlySorted(names) && forall y :: y in names <==> y in pipelines && y != []
  }

  /** From the bytes of a heartbeat a reader gets its type, the capacity as an unsigned 64-bit number, and the
      distinct non-empty pipelines in strict order. */
  lemma HeartbeatSays(capacity: int, pipelines: seq<Name>) returns (names: seq<Name>)
    requires Short(pipelines)
    ensures ListsInOrder(names, pipelines)
    ensures var b := AllBytes(Heartbeat(capacity, pipelines));
            && TakeAll(b, 1) == Some([Str(1, Ascii("COMMAND_TYPE_HEARTBEAT"))])
            && TakeAll(b, 2) == Some([Int(2, capacity % TWO64)])
            && TakeAll(b, 3) == Some(AsFields(3, names))
  {
    names := Dedup(Sort(pipelines));
    PipelinesAreStrictlySorted(pipelines);
    AsciiLength("COMMAND_TYPE_HEARTBEAT");
    var t := Ascii("COMMAND_TYPE_HEARTBEAT");
    hide Sort, Dedup, IsStrictlySorted, Ascii, TakeAll, AllBytes, Strs;
    NamesAreShort(names, pipelines);
    var more := Strs(3, names);
    assert 0 <= capacity % TWO64 < TWO64;
    forall n: nat ensures TakeAll(AllBytes(Heartbeat(capacity, pipelines)), n)
                       == Some(if n == 1 then [Str(1, t)] else if n == 2 then [Int(2, capacity % TWO64)]
                               else if n == 3 then AsFields(3, names) else [])
    {
      StrsSay(3, names, n);
      HeadSays(t, capacity % TWO64, more, n);
      TakesAll(Heartbeat(capacity, pipelines), n);
    }
  }

  lemma HeadSays(t: Name, v: nat, more: Fields, n: nat)
    requires |t| < TWO64 && v < TWO64 && Plain(more)
    ensures var fs := Then(Str(1, t), Then(Int(2, v), more));
            && Plain(fs)
            && (n == 1 && Numbered(more, n) == [] ==> Numbered(fs, n) == [Str(1, t)])
            && (n == 2 && Numbered(more, n) == [] ==> Numbered(fs, n) == [Int(2, v)])
            && (n > 2 || n == 0 ==> Numbered(fs, n) == Numbered(more, n))
  {
    var rest := Then(Int(2, v), more);
    assert Plain(rest);
    assert n != 2 ==> Numbered(rest, n) == Numbered(more, n);
  }

  lemma NamesAreShort(names: seq<Name>, pipelines: seq<Name>)
    requires Short(pipelines) && forall y | y in names :: y in pipelines
    ensures Short(names)
  {
    forall k | 0 <= k < |names| ensures |names[k]| < TWO64 {
      assert names[k] in names;
      var j :| 0 <= j < |pipelines| && pipelines[j] == names[k];
    }
  }
}
