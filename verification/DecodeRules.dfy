/**
 What a decoder does with each form of field: which value a payload stands for, what a repeated or
 overwritten field becomes, and which bytes are refused. Stated with keys, varints and byte counts.
 */
module DecodeRules {
  import opened Common
  import opened Wire
  import opened Codec
  import opened Messages
  import opened MessageRoundTrip
  import opened UnknownFields

  // ---- One more field --------------------------------------------------------------------------

  lemma WholeAt(p: seq<Byte>)
    ensures HasAt(p, 0, p)
  {
  }

  /** The payload `p` of field `f` with the given wire type decodes to `v`, all of it. */
  ghost predicate Payload(reg: Registry, f: Field, wire: nat, p: seq<Byte>, v: Value) {
    FieldIs(reg, f, wire, p, 0, v, |p|)
  }

  lemma PayloadAt(reg: Registry, f: Field, wire: nat, p: seq<Byte>, v: Value, b: seq<Byte>, j: nat)
    requires Payload(reg, f, wire, p, v) && HasAt(b, j, p)
    ensures FieldIs(reg, f, wire, b, j, v, j + |p|)
  {
    FieldIsInside(b, j, p, 0, reg, f, wire, v, |p|);
  }

  /**
   A further field after complete fields: a singular one replaces what was there, a repeated one is
   added to its list, and nothing else changes.
   */
  lemma OneMoreField(reg: Registry, name: string, a: seq<Byte>, m: map<string, Value>, number: nat, wire: nat, p: seq<Byte>, v: Value)
    requires name in reg && DecodeMessage(reg, name, a) == Ok(Obj(m)) && number in reg[name].byNumber && number < TWO_32 && wire < 8
    requires Payload(reg, reg[name].byNumber[number], wire, p, v)
    ensures var f := reg[name].byNumber[number];
            var decoded := DecodeMessage(reg, name, a + (Key(number, wire) + p));
            if !f.repeated then decoded == Ok(Obj(m[f.name := v]))
            else if f.name in m && m[f.name].Arr? then decoded == Ok(Obj(m[f.name := Arr(m[f.name].items + [v])]))
            else decoded == Ok(Obj(m[f.name := Arr(if f.name in m then [m[f.name], v] else [v])]))
  {
    var s, f, e := reg[name], reg[name].byNumber[number], Key(number, wire) + p;
    GoesOnAfter(reg, s, a, e, m);
    WholeAt(e);
    var j := KeyThen(e, 0, number, wire, p);
    PayloadAt(reg, f, wire, p, v, e, j);
    var out := Append(m, f.name, v, f.repeated);
    DeclaredOne(reg, s, e, 0, number, wire, j, m, v, |e|);
    OneLeads(reg, s, e, 0, m, out, |e|);
    RestEnds(reg, s, e, out);
  }

  // ---- Payloads --------------------------------------------------------------------------------

  /** `n` is the number of the given kind that the code stands for: in range, and equal to it modulo 2^32 or 2^64. */
  predicate StandsFor(kind: Kind, u: nat, n: int) {
    InRange(kind, n) && if Narrow(kind) then n % TWO_32 == u % TWO_32 else n % TWO_64 == u % TWO_64
  }

  predicate Narrow(kind: Kind) {
    kind.Int32? || kind.UInt32? || kind.Enum? || kind.Fixed32? || kind.SFixed32?
  }

  predicate Plain(kind: Kind) {
    kind.Int64? || kind.UInt64? || kind.Fixed64? || kind.SFixed64? || Narrow(kind)
  }

  lemma Residue32(u: nat)
    ensures IsU32(AsU32(u)) && AsU32(u) % TWO_32 == u % TWO_32
    ensures IsI32(AsI32(u)) && AsI32(u) % TWO_32 == u % TWO_32
  {
  }

  lemma Residue64(u: nat)
    requires u < TWO_64
    ensures IsI64(AsI64(u)) && AsI64(u) % TWO_64 == u % TWO_64
  {
  }

  lemma PlainDecodes(kind: Kind, u: nat)
    requires Plain(kind) && u < TWO_64 && (kind.Fixed32? ==> u < TWO_32)
    ensures StandsFor(kind, u, Decoded(kind, u))
  {
    if Narrow(kind) {
      Residue32(u);
    } else {
      Residue64(u);
    }
  }

  lemma SingleIsField(reg: Registry, f: Field, wire: nat, b: seq<Byte>, i: nat, r: Result<Read<Value>>)
    requires DecodeSingle(reg, f, wire, b, i) == r && !(f.repeated && f.packable && wire == 2)
    ensures FieldAt(reg, f, wire, b, i) == r
  {
  }

  lemma ScalarIsSingle(reg: Registry, f: Field, b: seq<Byte>, i: nat, r: Result<Read<Value>>)
    requires !f.kind.Message? && ReadScalar(f.kind, b, i) == r
    ensures DecodeSingle(reg, f, WireType(f.kind), b, i) == r
  {
  }

  /** A scalar read from the whole payload is the field's value. */
  lemma ScalarPayload(reg: Registry, f: Field, p: seq<Byte>, v: Value)
    requires !f.kind.Message? && !(f.repeated && f.packable && WireType(f.kind) == 2) && ScalarIs(f.kind, p, 0, v, |p|)
    ensures Payload(reg, f, WireType(f.kind), p, v)
  {
    ScalarIsSingle(reg, f, p, 0, Ok(Read(v, |p|)));
    SingleIsField(reg, f, WireType(f.kind), p, 0, Ok(Read(v, |p|)));
  }

  /** Any varint is accepted for a varint number, whatever its size, and stands for its residue. */
  lemma VarintPayload(reg: Registry, f: Field, u: nat, n: int)
    requires Plain(f.kind) && WireType(f.kind) == 0 && u < TWO_64 && n == Decoded(f.kind, u)
    ensures Payload(reg, f, 0, Varint(u), Num(n)) && StandsFor(f.kind, u, n)
  {
    PlainDecodes(f.kind, u);
    WholeAt(Varint(u));
    VarintReadsBack(Varint(u), 0, u);
    ScalarPayload(reg, f, Varint(u), Num(n));
  }

  /** Every varint but zero is true. */
  lemma BoolPayload(reg: Registry, f: Field, u: nat)
    requires f.kind.Boolean? && u < TWO_64
    ensures Payload(reg, f, 0, Varint(u), Bool(u != 0))
  {
    WholeAt(Varint(u));
    VarintReadsBack(Varint(u), 0, u);
    ScalarPayload(reg, f, Varint(u), Bool(u != 0));
  }

  /** Eight or four bytes, the least significant first. */
  lemma FixedPayload(reg: Registry, f: Field, u: nat, n: int)
    requires Plain(f.kind) && (WireType(f.kind) == 1 || WireType(f.kind) == 5)
    requires u < (if WireType(f.kind) == 1 then TWO_64 else TWO_32) && n == Decoded(f.kind, u)
    ensures StandsFor(f.kind, u, n)
    ensures WireType(f.kind) == 1 ==> Payload(reg, f, 1, LittleEndian(u, 8), Num(n))
    ensures WireType(f.kind) == 5 ==> Payload(reg, f, 5, LittleEndian(u, 4), Num(n))
  {
    PlainDecodes(f.kind, u);
    FixedWidths();
    var width := if WireType(f.kind) == 1 then 8 else 4;
    var p := LittleEndian(u, width);
    WholeAt(p);
    FixedReadsBack(p, 0, u, width);
    ScalarPayload(reg, f, p, Num(n));
  }

  lemma TextFromPayload(reg: Registry, f: Field, p: seq<Byte>, text: seq<Byte>)
    requires f.kind == Text && !f.packable && ReadSlice(p, 0) == Ok(Read(text, |p|)) && ProperText(Str(text))
    ensures Payload(reg, f, 2, p, Str(text))
  {
    TextFromSlice(p, 0, text, |p|);
    ScalarPayload(reg, f, p, Str(text));
  }

  lemma WholeSlice(text: seq<Byte>, p: seq<Byte>)
    requires p == Varint(|text|) + text && |text| < TWO_64
    ensures ReadSlice(p, 0) == Ok(Read(text, |p|))
  {
    WholeAt(p);
    SliceReadsBack(p, 0, text);
  }

  lemma TextPayload(reg: Registry, f: Field, text: seq<Byte>, p: seq<Byte>)
    requires f.kind == Text && !f.packable && ProperText(Str(text)) && |text| < TWO_64 && p == Varint(|text|) + text
    ensures Payload(reg, f, 2, p, Str(text))
  {
    WholeSlice(text, p);
    TextFromPayload(reg, f, p, text);
  }

  lemma MessagePayload(reg: Registry, f: Field, body: seq<Byte>, v: Value)
    requires f.kind.Message? && !f.packable && DecodeMessage(reg, f.kind.name, body) == Ok(v) && |body| < TWO_64
    ensures Payload(reg, f, 2, Varint(|body|) + body, v)
  {
    var p := Varint(|body|) + body;
    WholeAt(p);
    SliceReadsBack(p, 0, body);
    MessageIsSingle(reg, f, p, body, v);
    SingleIsField(reg, f, 2, p, 0, Ok(Read(v, |p|)));
  }

  lemma MessageIsSingle(reg: Registry, f: Field, p: seq<Byte>, body: seq<Byte>, v: Value)
    requires f.kind.Message? && ReadSlice(p, 0) == Ok(Read(body, |p|)) && DecodeMessage(reg, f.kind.name, body) == Ok(v)
    ensures DecodeSingle(reg, f, 2, p, 0) == Ok(Read(v, |p|))
  {
  }

  // ---- Refused bytes -----------------------------------------------------------------------------

  /** Bytes that no field starts with: the key never ends, in ten bytes or before the bytes do. */
  predicate EndlessKey(rest: seq<Byte>) {
    rest != [] && forall j :: 0 <= j < |rest| && j < 10 ==> rest[j] >= 128
  }

  lemma {:induction false} EndlessGroups(b: seq<Byte>, i: nat, room: nat)
    requires forall j :: i <= j < |b| && j < i + room ==> b[j] >= 128
    ensures GroupsAt(b, i, room) == Err
    decreases room
  {
    if i < |b| && room > 0 {
      EndlessGroups(b, i + 1, room - 1);
    }
  }

  /** After complete fields, decoding fails if the next field does. */
  lemma NextFieldFails(reg: Registry, name: string, a: seq<Byte>, m: map<string, Value>, rest: seq<Byte>)
    requires name in reg && DecodeMessage(reg, name, a) == Ok(Obj(m)) && rest != [] && One(reg, reg[name], rest, 0, m).Err?
    ensures DecodeMessage(reg, name, a + rest) == Err
  {
    GoesOnAfter(reg, reg[name], a, rest, m);
    RestStep(reg, reg[name], rest, 0, m);
  }

  lemma KeyThenFails(reg: Registry, s: Schema, number: nat, wire: nat, p: seq<Byte>, m: map<string, Value>)
    requires number < TWO_32 && wire < 8
    requires var b, j := Key(number, wire) + p, |Key(number, wire)|;
             if number in s.byNumber then FieldAt(reg, s.byNumber[number], wire, b, j).Err? else SkipValue(wire, b, j).Err?
    ensures Key(number, wire) + p != [] && One(reg, s, Key(number, wire) + p, 0, m).Err?
  {
    var b := Key(number, wire) + p;
    assert HasAt(b, 0, Key(number, wire) + p);
    KeyParts(number, wire);
    HasAtSplit(b, 0, Key(number, wire), p);
    VarintReadsBack(b, 0, 8 * number + wire);
  }

  lemma EndlessKeyFails(reg: Registry, name: string, a: seq<Byte>, m: map<string, Value>, rest: seq<Byte>)
    requires name in reg && DecodeMessage(reg, name, a) == Ok(Obj(m)) && EndlessKey(rest)
    ensures DecodeMessage(reg, name, a + rest) == Err
  {
    EndlessGroups(rest, 0, 10);
    NextFieldFails(reg, name, a, m, rest);
  }

  /** Wire types 3, 4, 6 and 7 are refused, and so is a declared field under a wire type that is not its own. */
  lemma WrongWireTypeFails(reg: Registry, name: string, a: seq<Byte>, m: map<string, Value>, number: nat, wire: nat, p: seq<Byte>)
    requires name in reg && DecodeMessage(reg, name, a) == Ok(Obj(m)) && number < TWO_32 && wire < 8
    requires number !in reg[name].byNumber ==> wire in {3, 4, 6, 7}
    requires number in reg[name].byNumber ==>
               var f := reg[name].byNumber[number]; wire != WireType(f.kind) && !(f.repeated && f.packable && wire == 2)
    ensures DecodeMessage(reg, name, a + (Key(number, wire) + p)) == Err
  {
    if number in reg[name].byNumber {
      SingleIsField(reg, reg[name].byNumber[number], wire, Key(number, wire) + p, |Key(number, wire)|, Err);
    }
    KeyThenFails(reg, reg[name], number, wire, p, m);
    NextFieldFails(reg, name, a, m, Key(number, wire) + p);
  }

  /** A length that announces more bytes than follow is refused, for every field. */
  lemma OverlongLengthFails(reg: Registry, name: string, a: seq<Byte>, m: map<string, Value>, number: nat, length: nat, body: seq<Byte>)
    requires name in reg && DecodeMessage(reg, name, a) == Ok(Obj(m)) && number < TWO_32 && |body| < length < TWO_64
    ensures DecodeMessage(reg, name, a + (Key(number, 2) + (Varint(length) + body))) == Err
  {
    var p := Varint(length) + body;
    var b, j := Key(number, 2) + p, |Key(number, 2)|;
    assert HasAt(b, j, Varint(length));
    VarintReadsBack(b, j, length);
    assert ReadSpan(b, j).Err?;
    if number in reg[name].byNumber {
      NoSpanNoField(reg, reg[name].byNumber[number], b, j);
    }
    KeyThenFails(reg, reg[name], number, 2, p, m);
    NextFieldFails(reg, name, a, m, b);
  }

  lemma NoSpanNoField(reg: Registry, f: Field, b: seq<Byte>, i: nat)
    requires ReadSpan(b, i).Err?
    ensures FieldAt(reg, f, 2, b, i).Err?
  {
    if !(f.repeated && f.packable) {
      NoSpanNoSingle(reg, f, b, i);
    }
  }

  lemma NoSpanNoSingle(reg: Registry, f: Field, b: seq<Byte>, i: nat)
    requires ReadSpan(b, i).Err?
    ensures DecodeSingle(reg, f, 2, b, i).Err?
  {
  }

  /** A fixed-width value that is cut short is refused, declared or not. */
  lemma ShortFixedFails(reg: Registry, name: string, a: seq<Byte>, m: map<string, Value>, number: nat, wire: nat, p: seq<Byte>)
    requires name in reg && DecodeMessage(reg, name, a) == Ok(Obj(m)) && number < TWO_32
    requires (wire == 1 && |p| < 8) || (wire == 5 && |p| < 4)
    ensures DecodeMessage(reg, name, a + (Key(number, wire) + p)) == Err
  {
    var b, j := Key(number, wire) + p, |Key(number, wire)|;
    if number in reg[name].byNumber {
      ShortSingle(reg, reg[name].byNumber[number], wire, b, j);
    }
    KeyThenFails(reg, reg[name], number, wire, p, m);
    NextFieldFails(reg, name, a, m, b);
  }

  lemma ShortSingle(reg: Registry, f: Field, wire: nat, b: seq<Byte>, i: nat)
    requires (wire == 1 && |b| < i + 8) || (wire == 5 && |b| < i + 4)
    ensures DecodeSingle(reg, f, wire, b, i).Err?
  {
  }

  /** Text that is not UTF-8 is refused. */
  lemma BadTextFails(reg: Registry, name: string, a: seq<Byte>, m: map<string, Value>, number: nat, text: seq<Byte>)
    requires name in reg && DecodeMessage(reg, name, a) == Ok(Obj(m)) && number < TWO_32 && number in reg[name].byNumber
    requires reg[name].byNumber[number].kind.Text? && !reg[name].byNumber[number].packable
    requires !ProperText(Str(text)) && |text| < TWO_64
    ensures DecodeMessage(reg, name, a + (Key(number, 2) + (Varint(|text|) + text))) == Err
  {
    var p := Varint(|text|) + text;
    var b, j := Key(number, 2) + p, |Key(number, 2)|;
    assert HasAt(b, j, p);
    SliceReadsBack(b, j, text);
    BadTextSingle(reg, reg[name].byNumber[number], b, j, text);
    KeyThenFails(reg, reg[name], number, 2, p, m);
    NextFieldFails(reg, name, a, m, b);
  }

  lemma BadTextSingle(reg: Registry, f: Field, b: seq<Byte>, i: nat, text: seq<Byte>)
    requires f.kind.Text? && ReadSlice(b, i).Ok? && ReadSlice(b, i).value.value == text && !ProperText(Str(text))
    ensures DecodeSingle(reg, f, 2, b, i).Err?
  {
  }

  /** A nested message that does not decode fails its message. */
  lemma BadMessageFails(reg: Registry, name: string, a: seq<Byte>, m: map<string, Value>, number: nat, body: seq<Byte>)
    requires name in reg && DecodeMessage(reg, name, a) == Ok(Obj(m)) && number < TWO_32 && number in reg[name].byNumber
    requires reg[name].byNumber[number].kind.Message? && !reg[name].byNumber[number].packable
    requires DecodeMessage(reg, reg[name].byNumber[number].kind.name, body) == Err && |body| < TWO_64
    ensures DecodeMessage(reg, name, a + (Key(number, 2) + (Varint(|body|) + body))) == Err
  {
    var p := Varint(|body|) + body;
    var b, j := Key(number, 2) + p, |Key(number, 2)|;
    assert HasAt(b, j, p);
    SliceReadsBack(b, j, body);
    BadMessageSingle(reg, reg[name].byNumber[number], b, j, body);
    KeyThenFails(reg, reg[name], number, 2, p, m);
    NextFieldFails(reg, name, a, m, b);
  }

  lemma BadMessageSingle(reg: Registry, f: Field, b: seq<Byte>, i: nat, body: seq<Byte>)
    requires f.kind.Message? && ReadSlice(b, i).Ok? && ReadSlice(b, i).value.value == body
    requires DecodeMessage(reg, f.kind.name, body) == Err
    ensures DecodeSingle(reg, f, 2, b, i).Err?
  {
  }
}
