/** The messages of the control client (internal/mmxcontrol/client.go): what a node sends, and how it
    reads commands.

    Strings are their bytes. Configuration values that the source trims are given trimmed. */
module ControlCodec {
  import opened Wrappers
  import opened Wire
  import Lex

  type Name = seq<byte>

  function Ascii(s: string): Name {
    seq(|s|, i requires 0 <= i < |s| => (s[i] as int) % 256)
  }

  datatype Command = Command(msgType: Name, streamPath: Name, msgID: Name)

  const NOTHING := Command([], [], [])

  predicate IsNotForNodes(msgType: Name) {
    || msgType == []
    || msgType == Ascii("COMMAND_TYPE_REGISTER")
    || msgType == Ascii("COMMAND_TYPE_HEARTBEAT")
    || msgType == Ascii("COMMAND_TYPE_INDICATION")
    || msgType == Ascii("COMMAND_TYPE_REGISTER_ACK")
    || msgType == Ascii("COMMAND_TYPE_RESPONSE")
  }

  // ----- decoding

  function With(c: Command, number: nat, value: Name): Command {
    if number == 1 then c.(msgType := value)
    else if number == 4 then c.(streamPath := value)
    else c.(msgID := value)
  }

  predicate IsOurs(number: nat) {
    number == 1 || number == 4 || number == 6
  }

  /** One field: the command so far and the bytes left. The fields that matter are read as strings
      whatever their wire type. */
  function DecodeField(c: Command, data: seq<byte>): (r: Option<(Command, seq<byte>)>)
    ensures r.Some? ==> |r.value.1| < |data|
  {
    match ConsumeTag(data)
    case Bad => None
    case Good(t, n) =>
      if IsOurs(t.number) then
        match ConsumeBytes(data[n..])
        case Bad => None
        case Good(value, m) => Some((With(c, t.number, value), data[n..][m..]))
      else
        match SkipValue(t.number, t.wire, data[n..], RECURSION_LIMIT)
        case Bad => None
        case Good(_, m) => Some((c, data[n..][m..]))
  }

  function DecodeFrom(c: Command, data: seq<byte>): Option<Command>
    decreases |data|
  {
    if data == [] then Some(c)
    else
      match DecodeField(c, data)
      case None => None
      case Some((c', rest)) => DecodeFrom(c', rest)
  }

  function Decode(data: seq<byte>): Option<Command> {
    match DecodeFrom(NOTHING, data)
    case None => None
    case Some(c) => if IsNotForNodes(c.msgType) then None else Some(c)
  }

  /** The loop of the source; it ends on every byte string. */
  method DecodeNodeMsgReq(data: seq<byte>) returns (cmd: Command, ok: bool)
    ensures ok == Decode(data).Some?
    ensures cmd == if ok then Decode(data).value else NOTHING
  {
    cmd := NOTHING;
    var left := data;
    while |left| > 0
      invariant DecodeFrom(cmd, left) == DecodeFrom(NOTHING, data)
      decreases |left|
    {
      hide ConsumeTag, ConsumeBytes, SkipValue;
      var tag := ConsumeTag(left);
      if tag.Bad? {
        return NOTHING, false;
      }
      var rest := left[tag.n..];
      var number := tag.value.number;
      if number == 1 || number == 4 || number == 6 {
        var value := ConsumeBytes(rest);
        if value.Bad? {
          return NOTHING, false;
        }
        if number == 1 {
          cmd := cmd.(msgType := value.value);
        } else if number == 4 {
          cmd := cmd.(streamPath := value.value);
        } else {
          cmd := cmd.(msgID := value.value);
        }
        left := rest[value.n..];
      } else {
        var value := SkipValue(number, tag.value.wire, rest, RECURSION_LIMIT);
        if value.Bad? {
          return NOTHING, false;
        }
        left := rest[value.n..];
      }
    }
    if IsNotForNodes(cmd.msgType) {
      return NOTHING, false;
    }
    ok := true;
  }

  // ----- every well-formed message is understood

  /** Fields that matter are strings; anything else may stand between them, groups up to the limit. */
  predicate Readable(fs: Fields) {
    fs.Then? ==>
      && Valid(fs.first)
      && (if IsOurs(fs.first.number) then fs.first.Str? else Nesting(fs.first) <= RECURSION_LIMIT + 1)
      && Readable(fs.rest)
  }

  /** The last value given for a field. */
  function LastOf(fs: Fields, number: nat, otherwise: Name): Name {
    if fs.NoFields? then otherwise
    else LastOf(fs.rest, number, if fs.first.Str? && fs.first.number == number then fs.first.value else otherwise)
  }

  lemma DecodesOne(c: Command, f: Field, rest: seq<byte>)
    requires Valid(f)
    requires if IsOurs(f.number) then f.Str? else Nesting(f) <= RECURSION_LIMIT + 1
    ensures DecodeField(c, FieldBytes(f) + rest)
         == Some((if IsOurs(f.number) then With(c, f.number, f.value) else c, rest))
  {
    hide ConsumeTag, ConsumeBytes, SkipValue, TagBytes, StringBytes, Valid, Nesting;
    var t, v := TagBytes(f.number, WireOf(f)), ValueBytes(f);
    assert FieldBytes(f) + rest == t + (v + rest);
    ValidNumber(f);
    TagRoundTrip(f.number, WireOf(f), v + rest);
    Dropped(t, v + rest);
    Dropped(v, rest);
    if IsOurs(f.number) {
      ValidString(f);
      BytesRoundTrip(f.value, rest);
    } else {
      SkipsValue(f, rest, RECURSION_LIMIT);
    }
  }

  lemma ValidString(f: Field)
    requires Valid(f) && f.Str?
    ensures |f.value| < TWO64
  {
  }

  lemma {:induction false} DecodesAll(c: Command, fs: Fields)
    requires Readable(fs)
    ensures DecodeFrom(c, AllBytes(fs))
         == Some(Command(LastOf(fs, 1, c.msgType), LastOf(fs, 4, c.streamPath), LastOf(fs, 6, c.msgID)))
    decreases fs
  {
    hide DecodeField, FieldBytes, Valid, Nesting;
    if fs.Then? {
      var f, rest := fs.first, AllBytes(fs.rest);
      DecodesOne(c, f, rest);
      FieldIsNotEmpty(f);
      DecodesAll(if IsOurs(f.number) then With(c, f.number, f.value) else c, fs.rest);
    }
  }

  lemma FieldIsNotEmpty(f: Field)
    ensures FieldBytes(f) != []
  {
  }

  /** Any well-formed message gives exactly its type, argument and identifier, whatever unknown fields
      stand between them, and is a command unless its type is one that only nodes send or answer. */
  lemma RecoversCommand(fs: Fields)
    requires Readable(fs)
    ensures var c := Command(LastOf(fs, 1, []), LastOf(fs, 4, []), LastOf(fs, 6, []));
            Decode(AllBytes(fs)) == if IsNotForNodes(c.msgType) then None else Some(c)
  {
    hide IsNotForNodes;
    DecodesAll(NOTHING, fs);
  }

  /** The fields that matter are strings, and all are well formed, however deep. */
  predicate WellFormed(fs: Fields) {
    fs.Then? ==> Valid(fs.first) && (IsOurs(fs.first.number) ==> fs.first.Str?) && WellFormed(fs.rest)
  }

  /** A well-formed message is read if and only if no unknown field nests groups beyond the limit. */
  lemma {:induction false} IsReadIff(c: Command, fs: Fields)
    requires WellFormed(fs)
    ensures DecodeFrom(c, AllBytes(fs)).Some? <==> Readable(fs)
    decreases fs
  {
    hide DecodeField, FieldBytes, Valid, Nesting;
    if fs.Then? {
      var f, rest := fs.first, AllBytes(fs.rest);
      FieldIsNotEmpty(f);
      if IsOurs(f.number) || Nesting(f) <= RECURSION_LIMIT + 1 {
        DecodesOne(c, f, rest);
        IsReadIff(if IsOurs(f.number) then With(c, f.number, f.value) else c, fs.rest);
      } else {
        RefusesOne(c, f, rest);
      }
    }
  }

  lemma RefusesOne(c: Command, f: Field, rest: seq<byte>)
    requires Valid(f) && !IsOurs(f.number) && Nesting(f) > RECURSION_LIMIT + 1
    ensures DecodeField(c, FieldBytes(f) + rest) == None
  {
    hide ConsumeTag, SkipValue, TagBytes, Valid, Nesting;
    var t, v := TagBytes(f.number, WireOf(f)), ValueBytes(f);
    assert FieldBytes(f) + rest == t + (v + rest);
    ValidNumber(f);
    TagRoundTrip(f.number, WireOf(f), v + rest);
    Dropped(t, v + rest);
    RefusesValue(f, rest, RECURSION_LIMIT);
  }

  // ----- what a node sends

  function Strs(number: nat, values: seq<Name>): Fields {
    if values == [] then NoFields else Then(Str(number, values[0]), Strs(number, values[1..]))
  }

  function Optional(number: nat, value: Name, rest: Fields): Fields {
    if value == [] then rest else Then(Str(number, value), rest)
  }

  datatype Identity = Identity(secret: Name, nodeType: Name, diskSerial: Name, version: Name, region: Name,
                               webRTCBaseURL: Name, publishURL: Name, abrNegotiationAddress: Name)

  function Registration(i: Identity): Fields {
    Then(Str(1, Ascii("COMMAND_TYPE_REGISTER")),
    Then(Str(2, i.secret),
    Then(Str(3, i.nodeType),
    Then(Str(4, i.diskSerial),
    Then(Str(5, i.version),
    Then(Str(6, i.region),
    Optional(7, i.webRTCBaseURL, Optional(8, i.publishURL, Optional(9, i.abrNegotiationAddress, NoFields)))))))))
  }

  function Heartbeat(capacity: int, pipelines: seq<Name>): Fields {
    Then(Str(1, Ascii("COMMAND_TYPE_HEARTBEAT")),
    Then(Int(2, capacity % TWO64),
    Strs(3, Dedup(Sort(pipelines)))))
  }

  predicate Short(values: seq<Name>) {
    forall k | 0 <= k < |values| :: |values[k]| < TWO64
  }

  lemma {:induction false} StrsAreReadable(number: nat, values: seq<Name>)
    requires 1 <= number <= MAX_NUMBER && Short(values)
    ensures Readable(Strs(number, values))
    ensures forall n, d | n != number :: LastOf(Strs(number, values), n, d) == d
  {
    if values != [] {
      StrsAreReadable(number, values[1..]);
    }
  }

  /** No heartbeat, whatever its pipelines and capacity, reads as a command. */
  lemma HeartbeatIsNoCommand(capacity: int, pipelines: seq<Name>)
    requires Short(pipelines)
    ensures Decode(AllBytes(Heartbeat(capacity, pipelines))) == None
  {
    hide AllBytes, Decode, Ascii, Sort, Dedup;
    var names := Dedup(Sort(pipelines));
    forall k | 0 <= k < |names| ensures |names[k]| < TWO64 {
      SortedMembers(pipelines, names[k]);
      DedupMembers(Sort(pipelines), names[k]);
    }
    StrsAreReadable(3, names);
    AsciiLength("COMMAND_TYPE_HEARTBEAT");
    var h := Heartbeat(capacity, pipelines);
    assert Readable(h);
    var t := Ascii("COMMAND_TYPE_HEARTBEAT");
    assert LastOf(Strs(3, names), 1, t) == t;
    assert LastOf(h.rest, 1, t) == t;
    RecoversCommand(h);
  }

  lemma AsciiLength(s: string)
    ensures |Ascii(s)| == |s|
  {
  }

  predicate ShortIdentity(i: Identity) {
    Short([i.secret, i.nodeType, i.diskSerial, i.version, i.region, i.webRTCBaseURL, i.publishURL,
           i.abrNegotiationAddress])
  }

  lemma OptionalIsReadable(number: nat, value: Name, rest: Fields)
    requires 7 <= number <= 9 && |value| < TWO64 && Readable(rest)
    ensures Readable(Optional(number, value, rest))
    ensures forall d :: LastOf(rest, 1, d) == d ==> LastOf(Optional(number, value, rest), 1, d) == d
  {
  }

  /** No registration, whatever the node's identity, reads as a command. */
  lemma RegistrationIsNoCommand(i: Identity)
    requires ShortIdentity(i)
    ensures Decode(AllBytes(Registration(i))) == None
  {
    hide AllBytes, Decode, Ascii, Optional;
    var all := [i.secret, i.nodeType, i.diskSerial, i.version, i.region, i.webRTCBaseURL, i.publishURL,
                i.abrNegotiationAddress];
    assert |all[0]| < TWO64 && |all[1]| < TWO64 && |all[2]| < TWO64 && |all[3]| < TWO64 && |all[4]| < TWO64;
    assert |all[5]| < TWO64 && |all[6]| < TWO64 && |all[7]| < TWO64;
    AsciiLength("COMMAND_TYPE_REGISTER");
    var f9 := Optional(9, i.abrNegotiationAddress, NoFields);
    OptionalIsReadable(9, i.abrNegotiationAddress, NoFields);
    var f8 := Optional(8, i.publishURL, f9);
    OptionalIsReadable(8, i.publishURL, f9);
    OptionalIsReadable(7, i.webRTCBaseURL, f8);
    var type_ := Ascii("COMMAND_TYPE_REGISTER");
    assert LastOf(f9, 1, type_) == type_;
    assert LastOf(Optional(7, i.webRTCBaseURL, f8), 1, type_) == type_;
    SixFields(i, Optional(7, i.webRTCBaseURL, f8));
    RecoversCommand(Registration(i));
  }

  lemma SixFields(i: Identity, rest: Fields)
    requires |i.secret| < TWO64 && |i.nodeType| < TWO64 && |i.diskSerial| < TWO64 && |i.version| < TWO64
    requires |i.region| < TWO64 && Readable(rest)
    requires var t := Ascii("COMMAND_TYPE_REGISTER");
             LastOf(rest, 1, t) == t
    ensures var t := Ascii("COMMAND_TYPE_REGISTER");
            var fs := Then(Str(1, t), Then(Str(2, i.secret), Then(Str(3, i.nodeType),
                      Then(Str(4, i.diskSerial), Then(Str(5, i.version), Then(Str(6, i.region), rest))))));
            Readable(fs) && LastOf(fs, 1, []) == t
  {
    hide Ascii;
    AsciiLength("COMMAND_TYPE_REGISTER");
    var f5 := Then(Str(5, i.version), Then(Str(6, i.region), rest));
    assert Readable(f5);
    var f3 := Then(Str(3, i.nodeType), Then(Str(4, i.diskSerial), f5));
    assert Readable(f3);
    var t := Ascii("COMMAND_TYPE_REGISTER");
    assert LastOf(f5, 1, t) == t;
    assert LastOf(f3, 1, t) == t;
  }

  // ----- the pipelines of a heartbeat

  predicate IsSorted(s: seq<Name>) {
    forall i, j | 0 <= i < j < |s| :: !Lex.Less(s[j], s[i])
  }

  predicate IsStrictlySorted(s: seq<Name>) {
    forall i, j | 0 <= i < j < |s| :: Lex.Less(s[i], s[j])
  }

  function Insert(x: Name, s: seq<Name>): seq<Name> {
    if s == [] then [x]
    else if Lex.Less(s[|s| - 1], x) then s + [x]
    else Insert(x, s[..|s| - 1]) + [s[|s| - 1]]
  }

  /** The library's `sort.Strings`. */
  function Sort(s: seq<Name>): seq<Name> {
    if s == [] then [] else Insert(s[|s| - 1], Sort(s[..|s| - 1]))
  }

  function Dedup(s: seq<Name>): seq<Name> {
    if s == [] then []
    else
      var r, x := Dedup(s[..|s| - 1]), s[|s| - 1];
      if x == [] || (r != [] && r[|r| - 1] == x) then r else r + [x]
  }

  lemma {:induction false} InsertMembers(x: Name, s: seq<Name>, y: Name)
    ensures y in Insert(x, s) <==> y == x || y in s
  {
    if s != [] && !Lex.Less(s[|s| - 1], x) {
      InsertMembers(x, s[..|s| - 1], y);
      assert s == s[..|s| - 1] + [s[|s| - 1]];
    }
  }

  lemma {:induction false} SortedMembers(s: seq<Name>, y: Name)
    ensures y in Sort(s) <==> y in s
  {
    if s != [] {
      SortedMembers(s[..|s| - 1], y);
      InsertMembers(s[|s| - 1], Sort(s[..|s| - 1]), y);
      assert s == s[..|s| - 1] + [s[|s| - 1]];
    }
  }

  lemma {:induction false} DedupMembers(s: seq<Name>, y: Name)
    ensures y in Dedup(s) <==> y in s && y != []
  {
    if s != [] {
      DedupMembers(s[..|s| - 1], y);
      assert s == s[..|s| - 1] + [s[|s| - 1]];
    }
  }

  lemma LessOrLast(a: Name, b: Name, c: Name)
    requires !Lex.Less(b, a) && Lex.Less(b, c)
    ensures Lex.Less(a, c)
  {
    Lex.LessTotal(a, b);
    if Lex.Less(a, b) {
      Lex.LessTransitive(a, b, c);
    }
  }

  lemma LessIsOneWay(a: Name, b: Name)
    requires Lex.Less(a, b)
    ensures !Lex.Less(b, a)
  {
    if Lex.Less(b, a) {
      Lex.LessTransitive(a, b, a);
      Lex.LessIrreflexive(a);
    }
  }

  lemma {:induction false} InsertKeepsSorted(x: Name, s: seq<Name>)
    requires IsSorted(s)
    ensures IsSorted(Insert(x, s))
  {
    if s != [] {
      var p, z := s[..|s| - 1], s[|s| - 1];
      if Lex.Less(z, x) {
        forall i | 0 <= i < |s| ensures !Lex.Less(x, s[i]) {
          if i < |p| {
            LessOrLast(s[i], z, x);
          }
          LessIsOneWay(s[i], x);
        }
      } else {
        InsertKeepsSorted(x, p);
        var q := Insert(x, p);
        forall i | 0 <= i < |q| ensures !Lex.Less(z, q[i]) {
          InsertMembers(x, p, q[i]);
        }
      }
    }
  }

  lemma {:induction false} SortSorts(s: seq<Name>)
    ensures IsSorted(Sort(s))
  {
    if s != [] {
      SortSorts(s[..|s| - 1]);
      InsertKeepsSorted(s[|s| - 1], Sort(s[..|s| - 1]));
    }
  }

  lemma {:induction false} DedupIsStrict(s: seq<Name>)
    requires IsSorted(s)
    ensures IsStrictlySorted(Dedup(s))
  {
    if s != [] {
      var p, x := s[..|s| - 1], s[|s| - 1];
      DedupIsStrict(p);
      var r := Dedup(p);
      if x != [] && (r == [] || r[|r| - 1] != x) {
        forall i | 0 <= i < |r| ensures Lex.Less(r[i], x) {
          LastComesAfter(p, x, r, i);
        }
      }
    }
  }

  lemma LastComesAfter(p: seq<Name>, x: Name, r: seq<Name>, i: nat)
    requires IsSorted(p + [x]) && r == Dedup(p) && IsStrictlySorted(r) && i < |r| && r[|r| - 1] != x
    ensures Lex.Less(r[i], x)
  {
    var z := r[|r| - 1];
    DedupMembers(p, z);
    var k :| 0 <= k < |p| && p[k] == z;
    assert (p + [x])[k] == z && (p + [x])[|p|] == x;
    Lex.LessTotal(z, x);
    if i < |r| - 1 {
      Lex.LessTransitive(r[i], z, x);
    }
  }

  /** The pipelines of a heartbeat are the distinct non-empty names, strictly sorted. */
  lemma PipelinesAreStrictlySorted(pipelines: seq<Name>)
    ensures IsStrictlySorted(Dedup(Sort(pipelines)))
    ensures forall y :: y in Dedup(Sort(pipelines)) <==> y in pipelines && y != []
  {
    SortSorts(pipelines);
    DedupIsStrict(Sort(pipelines));
    forall y ensures y in Dedup(Sort(pipelines)) <==> y in pipelines && y != [] {
      SortedMembers(pipelines, y);
      DedupMembers(Sort(pipelines), y);
    }
  }

  /** There is only one way to write a set of names down in strict order. */
  lemma {:induction false} StrictOrderIsUnique(a: seq<Name>, b: seq<Name>)
    requires IsStrictlySorted(a) && IsStrictlySorted(b) && forall y :: y in a <==> y in b
    ensures a == b
  {
    EmptyTogether(a, b);
    if a != [] {
      var p, x, q, z := a[..|a| - 1], a[|a| - 1], b[..|b| - 1], b[|b| - 1];
      GreatestAgree(a, b);
      forall y ensures y in p <==> y in q {
        NotTheLast(a, y);
        NotTheLast(b, y);
      }
      StrictOrderIsUnique(p, q);
      assert a == p + [x] && b == q + [z];
    }
  }

  lemma EmptyTogether(a: seq<Name>, b: seq<Name>)
    requires forall y :: y in a <==> y in b
    ensures a == [] <==> b == []
  {
    if a != [] {
      assert a[0] in b;
    }
    if b != [] {
      assert b[0] in a;
    }
  }

  lemma NotTheLast(a: seq<Name>, y: Name)
    requires IsStrictlySorted(a) && a != []
    ensures y in a[..|a| - 1] <==> y in a && y != a[|a| - 1]
  {
    var n := |a| - 1;
    assert a == a[..n] + [a[n]];
    if y in a[..n] {
      var k :| 0 <= k < n && a[..n][k] == y;
      assert Lex.Less(a[k], a[n]);
      Lex.LessIrreflexive(a[n]);
    }
  }

  lemma GreatestAgree(a: seq<Name>, b: seq<Name>)
    requires IsStrictlySorted(a) && IsStrictlySorted(b) && a != [] && b != []
    requires a[|a| - 1] in b && b[|b| - 1] in a
    ensures a[|a| - 1] == b[|b| - 1]
  {
    var x, z := a[|a| - 1], b[|b| - 1];
    var i :| 0 <= i < |b| && b[i] == x;
    var j :| 0 <= j < |a| && a[j] == z;
    if i < |b| - 1 && j < |a| - 1 {
      LessIsOneWay(x, z);
    }
  }

  /** So a heartbeat depends only on which pipelines there are, not on how they were listed. */
  lemma HeartbeatIsCanonical(capacity: int, p: seq<Name>, q: seq<Name>)
    requires forall y :: y != [] ==> (y in p <==> y in q)
    ensures Heartbeat(capacity, p) == Heartbeat(capacity, q)
  {
    PipelinesAreStrictlySorted(p);
    PipelinesAreStrictlySorted(q);
    StrictOrderIsUnique(Dedup(Sort(p)), Dedup(Sort(q)));
  }

  /** The loop of the source, which writes over the slice it reads. */
  method Deduplicate(values: array<Name>) returns (n: nat)
    modifies values
    ensures n <= values.Length && values[..n] == Dedup(old(values[..]))
  {
    n := 0;
    for i := 0 to values.Length
      invariant n <= i && values[..n] == Dedup(old(values[..])[..i])
      invariant forall k | i <= k < values.Length :: values[k] == old(values[k])
    {
      var value := values[i];
      assert old(values[..])[..i + 1][..i] == old(values[..])[..i];
      assert n > 0 ==> values[..n][n - 1] == values[n - 1];
      if value == [] || (n > 0 && values[n - 1] == value) {
        continue;
      }
      values[n] := value;
      n := n + 1;
    }
    assert old(values[..])[..values.Length] == old(values[..]);
  }

  /** The heartbeat as it is put together, field after field. */
  method BuildHeartbeat(capacity: int, pipelines: seq<Name>) returns (out: seq<byte>)
    ensures out == AllBytes(Heartbeat(capacity, pipelines))
  {
    hide TagBytes, StringBytes, Varint, Ascii;
    var names := Dedup(Sort(pipelines));
    out := AppendString([], 1, Ascii("COMMAND_TYPE_HEARTBEAT"));
    out := out + TagBytes(2, VARINT);
    out := out + Varint(capacity % TWO64);
    assert names[0..] == names;
    HeartbeatHead(capacity, pipelines);
    for k := 0 to |names|
      invariant out + AllBytes(Strs(3, names[k..])) == AllBytes(Heartbeat(capacity, pipelines))
    {
      StrsNext(out, names, k);
      out := AppendString(out, 3, names[k]);
    }
    assert out + [] == out;
  }

  function AppendString(out: seq<byte>, number: nat, value: Name): seq<byte> {
    out + TagBytes(number, BYTES) + StringBytes(value)
  }

  lemma StrBytes(number: nat, value: Name)
    ensures FieldBytes(Str(number, value)) == TagBytes(number, BYTES) + StringBytes(value)
  {
  }

  lemma HeartbeatHead(capacity: int, pipelines: seq<Name>)
    ensures var head := AppendString([], 1, Ascii("COMMAND_TYPE_HEARTBEAT"))
                        + TagBytes(2, VARINT) + Varint(capacity % TWO64);
            AllBytes(Heartbeat(capacity, pipelines)) == head + AllBytes(Strs(3, Dedup(Sort(pipelines))))
  {
    hide TagBytes, StringBytes, Varint, Ascii, Sort, Dedup;
    var t, n := Ascii("COMMAND_TYPE_HEARTBEAT"), capacity % TWO64;
    var more := Strs(3, Dedup(Sort(pipelines)));
    StrBytes(1, t);
    assert FieldBytes(Int(2, n)) == TagBytes(2, VARINT) + Varint(n);
    assert AllBytes(Then(Int(2, n), more)) == FieldBytes(Int(2, n)) + AllBytes(more);
    assert AllBytes(Heartbeat(capacity, pipelines)) == FieldBytes(Str(1, t)) + AllBytes(Then(Int(2, n), more));
    assert AppendString([], 1, t) == FieldBytes(Str(1, t));
  }

  lemma StrsNext(out: seq<byte>, names: seq<Name>, k: nat)
    requires k < |names|
    ensures out + AllBytes(Strs(3, names[k..])) == AppendString(out, 3, names[k]) + AllBytes(Strs(3, names[k + 1..]))
  {
    assert names[k..][1..] == names[k + 1..];
    var t, v, more := TagBytes(3, BYTES), StringBytes(names[k]), AllBytes(Strs(3, names[k + 1..]));
    assert Strs(3, names[k..]) == Then(Str(3, names[k]), Strs(3, names[k + 1..]));
    StrBytes(3, names[k]);
    assert AllBytes(Strs(3, names[k..])) == (t + v) + more;
    assert out + ((t + v) + more) == out + t + v + more;
  }
}
