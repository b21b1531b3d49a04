/**
 What the encoder accepts and the bytes it writes, against the Protocol Buffers wire format: which
 JSON values stand for a scalar, which objects encode, and the key, width and byte order of each field.
 */
module EncodeRules {
  import opened Common
  import opened Wire
  import opened Codec
  import opened Messages
  import opened MessageRoundTrip

  // ---- Numerals --------------------------------------------------------------------------------

  predicate IsNumeral(s: seq<Byte>) {
    s != [] && forall i :: 0 <= i < |s| ==> 48 <= s[i] < 58
  }

  function Pow10(n: nat): nat {
    if n == 0 then 1 else 10 * Pow10(n - 1)
  }

  /** The value of a numeral, the first digit weighing most. */
  function NumeralValue(s: seq<Byte>): nat
    requires IsNumeral(s)
  {
    if |s| == 1 then s[0] - 48 else (s[0] - 48) * Pow10(|s| - 1) + NumeralValue(s[1..])
  }

  lemma NumeralShift(d: nat, n: nat, tail: nat, shorter: nat, last: int)
    requires n > 0 && tail == 10 * shorter + last
    ensures d * Pow10(n) + tail == 10 * (d * Pow10(n - 1) + shorter) + last
  {
    var p := Pow10(n - 1);
    assert Pow10(n) == 10 * p;
    assert d * (10 * p) == 10 * (d * p);
  }

  lemma {:induction false} NumeralByLast(s: seq<Byte>)
    requires IsNumeral(s) && |s| > 1
    ensures IsNumeral(s[..|s| - 1]) && NumeralValue(s) == 10 * NumeralValue(s[..|s| - 1]) + s[|s| - 1] - 48
    decreases |s|
  {
    var n := |s| - 1;
    if n > 1 {
      NumeralByLast(s[1..]);
      assert s[1..][..n - 1] == s[..n][1..];
      NumeralShift(s[0] - 48, n, NumeralValue(s[1..]), NumeralValue(s[..n][1..]), s[n] - 48);
    } else {
      assert Pow10(1) == 10 * Pow10(0);
    }
  }

  /** Digits are read as the numeral they write, and nothing else is read. */
  lemma {:induction false} DigitsAreNumerals(s: seq<Byte>)
    ensures ParseDigits(s) == if IsNumeral(s) then Ok(NumeralValue(s)) else Err
    decreases |s|
  {
    if |s| > 1 {
      DigitsAreNumerals(s[..|s| - 1]);
      if IsNumeral(s) {
        NumeralByLast(s);
      } else if 48 <= s[|s| - 1] < 58 {
        var i :| 0 <= i < |s| && !(48 <= s[i] < 58);
        assert !(48 <= s[..|s| - 1][i] < 58);
      }
    }
  }

  const PLUS: Byte := 43
  const MINUS: Byte := 45

  /** `s` writes the integer `n`: digits, or a sign and digits, a minus only where numbers have a sign. */
  ghost predicate Writes(s: seq<Byte>, signed: bool, n: int) {
    || (IsNumeral(s) && n == NumeralValue(s))
    || (s != [] && s[0] == PLUS && IsNumeral(s[1..]) && n == NumeralValue(s[1..]))
    || (signed && s != [] && s[0] == MINUS && IsNumeral(s[1..]) && n + NumeralValue(s[1..]) == 0)
  }

  lemma TextIsReadAsWritten(s: seq<Byte>, signed: bool, n: int)
    ensures ParseInt(s, signed) == Ok(n) <==> Writes(s, signed, n)
  {
    DigitsAreNumerals(s);
    if s != [] {
      DigitsAreNumerals(s[1..]);
    }
  }

  // ---- Accepted scalars --------------------------------------------------------------------------

  /** An integer field accepts exactly the numbers in its range, written as numbers or as text. */
  lemma IntegersAccepted(kind: Kind, v: Value, n: int)
    ensures ToInt(kind, v) == Ok(n) <==> InRange(kind, n) && (v == Num(n) || (v.Str? && Writes(v.s, !IsUnsigned(kind), n)))
  {
    if v.Str? {
      TextIsReadAsWritten(v.s, !IsUnsigned(kind), n);
      var r := ParseInt(v.s, !IsUnsigned(kind));
      if r.Ok? {
        TextIsReadAsWritten(v.s, !IsUnsigned(kind), r.value);
      }
    }
  }

  /** Every number the decoder can produce for a kind is one the encoder accepts, and the other way round. */
  lemma RangeIsWhatDecodes(kind: Kind, n: int)
    requires !kind.Boolean? && !kind.Text? && !kind.Message?
    ensures InRange(kind, n) <==> exists u: nat :: Codes(kind, u, n)
  {
    if InRange(kind, n) {
      CodeInverts(kind, n);
      assert Codes(kind, Code(kind, n), n);
    }
    if exists u: nat :: Codes(kind, u, n) {
      var u: nat :| Codes(kind, u, n);
      DecodedInRange(kind, u);
    }
  }

  ghost predicate Codes(kind: Kind, u: nat, n: int) {
    u < TWO_64 && (WireType(kind) == 5 ==> u < TWO_32) && Decoded(kind, u) == n
  }

  lemma DecodedInRange(kind: Kind, u: nat)
    requires !kind.Boolean? && !kind.Text? && !kind.Message? && u < TWO_64 && (WireType(kind) == 5 ==> u < TWO_32)
    ensures InRange(kind, Decoded(kind, u))
  {
  }

  /** `s` is `word` up to the case of its letters. */
  predicate SpelledLike(s: seq<Byte>, word: seq<Byte>) {
    |s| == |word| && forall i :: 0 <= i < |s| ==> s[i] == word[i] || (s[i] as int + 32 == word[i] && 65 <= s[i] <= 90)
  }

  /** A bool field accepts booleans and the words true and false in any case. */
  lemma BooleansAccepted(v: Value, b: bool)
    ensures ToBool(v) == Ok(b) <==> v == Bool(b) || (v.Str? && SpelledLike(v.s, if b then TRUE_TEXT else FALSE_TEXT))
  {
    if v.Str? {
      SpellingIsCaseless(v.s, TRUE_TEXT);
      SpellingIsCaseless(v.s, FALSE_TEXT);
    }
  }

  lemma SpellingIsCaseless(s: seq<Byte>, word: seq<Byte>)
    requires forall i :: 0 <= i < |word| ==> 97 <= word[i] <= 122
    ensures EqualIgnoringCase(s, word) <==> SpelledLike(s, word)
  {
    if |s| == |word| {
      forall i | 0 <= i < |s| ensures Lower(s[i]) == word[i] <==> s[i] == word[i] || (s[i] as int + 32 == word[i] && 65 <= s[i] <= 90) {
      }
    }
  }

  /** What `v` stands for in a field of scalar `kind`; text takes numbers in decimal and booleans as words. */
  ghost predicate StandsFor(kind: Kind, v: Value, c: Value) {
    match kind
    case Boolean => c.Bool? && (v == c || (v.Str? && SpelledLike(v.s, if c.b then TRUE_TEXT else FALSE_TEXT)))
    case Text => c.Str? && (v == c || (v.Num? && c.s == Decimal(v.n)) || (v.Bool? && c.s == if v.b then TRUE_TEXT else FALSE_TEXT))
    case _ => c.Num? && InRange(kind, c.n) && (v == c || (v.Str? && Writes(v.s, !IsUnsigned(kind), c.n)))
  }

  /** A scalar field accepts exactly the values that stand for one of its own, and reads each as that one. */
  lemma ScalarsAccepted(kind: Kind, v: Value, c: Value)
    ensures Canonical(kind, v) == Ok(c) <==> StandsFor(kind, v, c)
  {
    match kind
    case Boolean =>
      BooleansAccepted(v, true);
      BooleansAccepted(v, false);
    case Text =>
    case _ =>
      if c.Num? {
        IntegersAccepted(kind, v, c.n);
      }
  }

  // ---- Accepted objects --------------------------------------------------------------------------

  /** An object of declared keys whose every value suits its field, at every depth. */
  ghost predicate Encodable(reg: Registry, name: string, v: Value)
    decreases v, 2
  {
    && name in reg && v.Obj? && Known(reg[name], v.fields.Keys)
    && forall k :: k in v.fields ==> EncodableField(reg, FieldOf(reg[name], k), v.fields[k])
  }

  ghost predicate EncodableField(reg: Registry, f: Field, v: Value)
    decreases v, 4
  {
    if f.repeated then v.Arr? && forall n :: 0 <= n < |v.items| ==> EncodableSingle(reg, f, v.items[n]) else EncodableSingle(reg, f, v)
  }

  ghost predicate EncodableSingle(reg: Registry, f: Field, v: Value)
    decreases v, 3
  {
    if f.kind.Message? then Encodable(reg, f.kind.name, v) else Canonical(f.kind, v).Ok?
  }

  lemma ScalarEncodes(kind: Kind, v: Value)
    requires !kind.Message?
    ensures ScalarBytes(kind, v).Ok? <==> Canonical(kind, v).Ok?
  {
  }

  lemma {:induction false} PackedEncodes(kind: Kind, items: seq<Value>)
    requires IsPackable(kind)
    ensures PackedBytes(kind, items).Ok? <==> forall n :: 0 <= n < |items| ==> Canonical(kind, items[n]).Ok?
  {
    if items != [] {
      ScalarEncodes(kind, items[0]);
      PackedEncodes(kind, items[1..]);
      if forall n :: 0 <= n < |items[1..]| ==> Canonical(kind, items[1..][n]).Ok? {
        forall n | 1 <= n < |items| ensures Canonical(kind, items[n]).Ok? {
          assert items[1..][n - 1] == items[n];
        }
      }
    }
  }

  /** The encoder accepts exactly the encodable objects. */
  lemma {:induction false} EncodesExactlyTheEncodable(reg: Registry, name: string, v: Value)
    requires WellFormed(reg)
    ensures EncodeMessage(reg, name, v).Ok? <==> Encodable(reg, name, v)
    decreases v, 2
  {
    if name in reg && v.Obj? && Known(reg[name], v.fields.Keys) {
      var keys := Arrangement(reg[name], v.fields.Keys);
      ArrangementCovers(reg[name], v.fields.Keys);
      FieldsEncode(reg, reg[name], v, keys);
      if Encodable(reg, name, v) {
        forall n | 0 <= n < |keys| ensures EncodableField(reg, FieldOf(reg[name], keys[n]), v.fields[keys[n]]) {
          assert keys[n] in v.fields;
        }
      }
      if forall n :: 0 <= n < |keys| ==> EncodableField(reg, FieldOf(reg[name], keys[n]), v.fields[keys[n]]) {
        forall k | k in v.fields ensures EncodableField(reg, FieldOf(reg[name], k), v.fields[k]) {
          var n :| 0 <= n < |keys| && keys[n] == k;
        }
      }
    }
  }

  lemma {:induction false} FieldsEncode(reg: Registry, s: Schema, v: Value, keys: seq<string>)
    requires WellFormed(reg) && WellFormedSchema(s) && v.Obj? && Known(s, v.fields.Keys) && forall n :: 0 <= n < |keys| ==> keys[n] in v.fields
    ensures EncodeFields(reg, s, v, keys).Ok? <==> forall n :: 0 <= n < |keys| ==> EncodableField(reg, FieldOf(s, keys[n]), v.fields[keys[n]])
    decreases v, 1, |keys|
  {
    if keys != [] {
      FieldEncodes(reg, FieldOf(s, keys[0]), v.fields[keys[0]]);
      FieldsEncode(reg, s, v, keys[1..]);
      if forall n :: 0 <= n < |keys[1..]| ==> EncodableField(reg, FieldOf(s, keys[1..][n]), v.fields[keys[1..][n]]) {
        forall n | 1 <= n < |keys| ensures EncodableField(reg, FieldOf(s, keys[n]), v.fields[keys[n]]) {
          assert keys[1..][n - 1] == keys[n];
        }
      }
    }
  }

  lemma {:induction false} FieldEncodes(reg: Registry, f: Field, v: Value)
    requires WellFormed(reg) && f.packable == IsPackable(f.kind)
    ensures EncodeField(reg, f, v).Ok? <==> EncodableField(reg, f, v)
    decreases v, 5
  {
    if !f.repeated {
      SingleEncodes(reg, f, v);
    } else if v.Arr? {
      if f.packable {
        PackedEncodes(f.kind, v.items);
      } else {
        ItemsEncode(reg, f, v, 0);
      }
    }
  }

  lemma {:induction false} ItemsEncode(reg: Registry, f: Field, v: Value, n: nat)
    requires WellFormed(reg) && v.Arr? && n <= |v.items|
    ensures EncodeItems(reg, f, v, n).Ok? <==> forall m :: n <= m < |v.items| ==> EncodableSingle(reg, f, v.items[m])
    decreases v, 4, |v.items| - n
  {
    if n < |v.items| {
      SingleEncodes(reg, f, v.items[n]);
      ItemsEncode(reg, f, v, n + 1);
    }
  }

  lemma {:induction false} SingleEncodes(reg: Registry, f: Field, v: Value)
    requires WellFormed(reg)
    ensures EncodeSingle(reg, f, v).Ok? <==> EncodableSingle(reg, f, v)
    decreases v, 3
  {
    if f.kind.Message? {
      EncodesExactlyTheEncodable(reg, f.kind.name, v);
    } else {
      ScalarEncodes(f.kind, v);
    }
  }

  // ---- The bytes ---------------------------------------------------------------------------------

  /** The number that base-128 groups stand for, the first weighing least. */
  function GroupsValue(s: seq<Byte>): nat {
    if s == [] then 0 else s[0] % 128 + 128 * GroupsValue(s[1..])
  }

  /** A varint: groups that stand for the number, all but the last marked, and none in vain. */
  ghost predicate IsVarintOf(s: seq<Byte>, v: nat) {
    && s != [] && GroupsValue(s) == v && s[|s| - 1] < 128 && (|s| > 1 ==> s[|s| - 1] != 0)
    && forall j :: 0 <= j < |s| - 1 ==> s[j] >= 128
  }

  lemma {:induction false} VarintIsBase128(v: nat)
    ensures IsVarintOf(Varint(v), v)
    decreases v
  {
    if v >= 128 {
      VarintIsBase128(v / 128);
      assert Varint(v)[1..] == Varint(v / 128);
    } else {
      assert Varint(v)[1..] == [];
    }
  }

  /** The number that bytes stand for, the first weighing least. */
  function BytesValue(s: seq<Byte>): nat {
    if s == [] then 0 else s[0] + 256 * BytesValue(s[1..])
  }

  lemma {:induction false} LittleEndianIsLeastFirst(v: nat, width: nat)
    requires v < Pow256(width)
    ensures |LittleEndian(v, width)| == width && BytesValue(LittleEndian(v, width)) == v
    decreases width
  {
    if width > 0 {
      LittleEndianIsLeastFirst(v / 256, width - 1);
      assert LittleEndian(v, width)[1..] == LittleEndian(v / 256, width - 1);
    }
  }

  /** The wire types of the format. */
  predicate IsVarintKind(kind: Kind) {
    kind.Int64? || kind.UInt64? || kind.Int32? || kind.UInt32? || kind.SInt32? || kind.SInt64? || kind.Enum?
  }

  /** What a scalar is on the wire: zigzag or two's complement for varints, fixed-width numbers, flags and counted text. */
  ghost predicate IsWireForm(kind: Kind, c: Value, wire: nat, body: seq<Byte>) {
    if kind.Boolean? then c.Bool? && wire == 0 && body == [if c.b then 1 else 0]
    else if kind.Text? then c.Str? && wire == 2 && exists head :: body == head + c.s && IsVarintOf(head, |c.s|)
    else if kind.Fixed64? || kind.SFixed64? then c.Num? && wire == 1 && |body| == 8 && BytesValue(body) == c.n % TWO_64
    else if kind.Fixed32? || kind.SFixed32? then c.Num? && wire == 5 && |body| == 4 && BytesValue(body) == c.n % TWO_32
    else if kind.SInt32? || kind.SInt64? then c.Num? && wire == 0 && IsVarintOf(body, if c.n < 0 then -2 * c.n - 1 else 2 * c.n)
    else if kind.Int32? || kind.Enum? then c.Num? && wire == 0 && IsVarintOf(body, c.n % TWO_32)
    else c.Num? && wire == 0 && IsVarintOf(body, c.n % TWO_64)
  }

  predicate IsFixedKind(kind: Kind) {
    kind.Fixed64? || kind.SFixed64? || kind.Fixed32? || kind.SFixed32?
  }

  lemma FixedCode(kind: Kind, n: int)
    requires IsFixedKind(kind) && InRange(kind, n)
    ensures Code(kind, n) == n % (if kind.Fixed32? || kind.SFixed32? then TWO_32 else TWO_64)
  {
  }

  lemma FixedBytes(kind: Kind, n: int, body: seq<Byte>)
    requires IsFixedKind(kind) && InRange(kind, n) && body == IntBytes(kind, n)
    ensures IsWireForm(kind, Num(n), WireType(kind), body)
  {
    var code, width := Code(kind, n), if kind.Fixed32? || kind.SFixed32? then 4 else 8;
    assert body == LittleEndian(code, width);
    FixedCode(kind, n);
    FixedWidths();
    LittleEndianIsLeastFirst(code, width);
  }

  lemma ZigzagCode(kind: Kind, n: int)
    requires (kind.SInt32? || kind.SInt64?) && InRange(kind, n)
    ensures Code(kind, n) == if n < 0 then -2 * n - 1 else 2 * n
  {
    if kind.SInt32? {
      ZigzagInverts32(n);
    } else {
      ZigzagInverts64(n);
    }
  }

  lemma PlainCode(kind: Kind, n: int)
    requires IsVarintKind(kind) && !kind.SInt32? && !kind.SInt64? && InRange(kind, n)
    ensures Code(kind, n) == n % (if kind.Int32? || kind.Enum? then TWO_32 else TWO_64)
  {
  }

  lemma VarintBytes(kind: Kind, n: int, body: seq<Byte>)
    requires IsVarintKind(kind) && InRange(kind, n) && body == IntBytes(kind, n)
    ensures IsWireForm(kind, Num(n), WireType(kind), body)
  {
    var code := Code(kind, n);
    assert body == Varint(code);
    VarintIsBase128(code);
    if kind.SInt32? || kind.SInt64? {
      ZigzagCode(kind, n);
    } else {
      PlainCode(kind, n);
    }
  }

  /** Every accepted scalar is written in its wire form. */
  lemma ScalarsAreWrittenInWireForm(kind: Kind, v: Value, body: seq<Byte>)
    requires !kind.Message? && ScalarBytes(kind, v) == Ok(body)
    ensures Canonical(kind, v).Ok? && IsWireForm(kind, Canonical(kind, v).value, WireType(kind), body)
  {
    var c := Canonical(kind, v).value;
    match c
    case Bool(b) => assert Varint(1) == [1] && Varint(0) == [0];
    case Str(s) => VarintIsBase128(|s|);
    case Num(n) =>
      if IsVarintKind(kind) {
        VarintBytes(kind, n, body);
      } else {
        FixedBytes(kind, n, body);
      }
    case _ =>
  }

  /** A written field is its key, the varint of eight times its number plus its wire type, and its body. */
  lemma FieldIsKeyAndBody(reg: Registry, f: Field, v: Value, e: seq<Byte>) returns (key: seq<Byte>, body: seq<Byte>)
    requires EncodeSingle(reg, f, v) == Ok(e)
    ensures e == key + body && IsVarintOf(key, 8 * f.number + WireType(f.kind))
    ensures f.kind.Message? ==>
              WireType(f.kind) == 2 && EncodeMessage(reg, f.kind.name, v).Ok?
              && var inner := EncodeMessage(reg, f.kind.name, v).value; exists head :: body == head + inner && IsVarintOf(head, |inner|)
    ensures !f.kind.Message? ==> Canonical(f.kind, v).Ok? && IsWireForm(f.kind, Canonical(f.kind, v).value, WireType(f.kind), body)
  {
    key, body := Key(f.number, WireType(f.kind)), EncodeBody(reg, f, v).value;
    VarintIsBase128(8 * f.number + WireType(f.kind));
    if f.kind.Message? {
      VarintIsBase128(|EncodeMessage(reg, f.kind.name, v).value|);
    } else {
      ScalarsAreWrittenInWireForm(f.kind, v, body);
    }
  }

  function Concat(parts: seq<seq<Byte>>): seq<Byte> {
    if parts == [] then [] else parts[0] + Concat(parts[1..])
  }

  /** A packed list is one field of wire type 2 whose counted body is the wire forms of its items in order. */
  lemma PackedListIsCounted(reg: Registry, f: Field, v: Value, e: seq<Byte>)
    returns (key: seq<Byte>, head: seq<Byte>, parts: seq<seq<Byte>>)
    requires f.repeated && f.packable && IsPackable(f.kind) && EncodeField(reg, f, v) == Ok(e)
    ensures v.Arr? && |parts| == |v.items| && e == key + (head + Concat(parts))
    ensures IsVarintOf(key, 8 * f.number + 2) && IsVarintOf(head, |Concat(parts)|)
    ensures forall n :: 0 <= n < |parts| ==> IsWritten(f.kind, v.items[n], parts[n])
  {
    parts := ItemParts(f.kind, v.items);
    key, head := Key(f.number, 2), Varint(|Concat(parts)|);
    VarintIsBase128(8 * f.number + 2);
    VarintIsBase128(|Concat(parts)|);
  }

  ghost predicate IsWritten(kind: Kind, v: Value, body: seq<Byte>) {
    Canonical(kind, v).Ok? && IsWireForm(kind, Canonical(kind, v).value, WireType(kind), body)
  }

  lemma {:induction false} ItemParts(kind: Kind, items: seq<Value>) returns (parts: seq<seq<Byte>>)
    requires IsPackable(kind) && PackedBytes(kind, items).Ok?
    ensures |parts| == |items| && PackedBytes(kind, items).value == Concat(parts)
    ensures forall n :: 0 <= n < |parts| ==> IsWritten(kind, items[n], parts[n])
  {
    if items == [] {
      parts := [];
    } else {
      var rest := ItemParts(kind, items[1..]);
      var first := ScalarBytes(kind, items[0]).value;
      ScalarsAreWrittenInWireForm(kind, items[0], first);
      parts := [first] + rest;
      assert parts[1..] == rest;
      forall n | 0 <= n < |parts| ensures IsWritten(kind, items[n], parts[n]) {
        if n > 0 {
          assert items[1..][n - 1] == items[n] && rest[n - 1] == parts[n];
        }
      }
    }
  }

  /** An unpacked list is one field for each item, in order. */
  lemma {:induction false} UnpackedListIsItsItems(reg: Registry, f: Field, v: Value, n: nat, e: seq<Byte>) returns (parts: seq<seq<Byte>>)
    requires v.Arr? && n <= |v.items| && EncodeItems(reg, f, v, n) == Ok(e)
    ensures |parts| == |v.items| - n && e == Concat(parts)
    ensures forall m :: 0 <= m < |parts| ==> EncodeSingle(reg, f, v.items[n + m]) == Ok(parts[m])
    decreases |v.items| - n
  {
    if n == |v.items| {
      parts := [];
    } else {
      var first, after := EncodeSingle(reg, f, v.items[n]).value, EncodeItems(reg, f, v, n + 1).value;
      var rest := UnpackedListIsItsItems(reg, f, v, n + 1, after);
      parts := [first] + rest;
      assert parts[1..] == rest;
      forall m | 0 <= m < |parts| ensures EncodeSingle(reg, f, v.items[n + m]) == Ok(parts[m]) {
        if m > 0 {
          assert parts[m] == rest[m - 1] && v.items[n + m] == v.items[(n + 1) + (m - 1)];
        }
      }
    }
  }

  lemma {:induction false} ArrangementAscends(s: Schema, keys: set<string>)
    requires Known(s, keys)
    ensures forall k :: k in Arrangement(s, keys) ==> k in keys
    ensures var a := Arrangement(s, keys); forall m, n :: 0 <= m < n < |a| ==> a[m] != a[n] && s.byName[a[m]] <= s.byName[a[n]]
    decreases |keys|
  {
    if keys != {} {
      var a := Arrangement(s, keys);
      var rest := keys - {a[0]};
      ArrangementAscends(s, rest);
      assert a == [a[0]] + Arrangement(s, rest);
      assert Least(s, keys, a[0]);
      forall m, n | 0 <= m < n < |a| ensures a[m] != a[n] && s.byName[a[m]] <= s.byName[a[n]] {
        assert a[n] == Arrangement(s, rest)[n - 1];
        assert m > 0 ==> a[m] == Arrangement(s, rest)[m - 1];
      }
    }
  }

  /** Distinct keys of declared fields whose numbers ascend; the two names of one field share a number. */
  ghost predicate InOrder(s: Schema, keys: seq<string>) {
    && (forall n :: 0 <= n < |keys| ==> keys[n] in s.byName && s.byName[keys[n]] in s.byNumber)
    && (forall m, n :: 0 <= m < n < |keys| ==> keys[m] != keys[n] && FieldOf(s, keys[m]).number <= FieldOf(s, keys[n]).number)
  }

  lemma ArrangementInOrder(s: Schema, keys: set<string>)
    requires WellFormedSchema(s) && Known(s, keys)
    ensures InOrder(s, Arrangement(s, keys))
  {
    ArrangementAscends(s, keys);
    var a := Arrangement(s, keys);
    forall n | 0 <= n < |a| ensures a[n] in s.byName && s.byName[a[n]] in s.byNumber && FieldOf(s, a[n]).number == s.byName[a[n]] {
      assert a[n] in keys;
    }
  }

  lemma {:induction false} FieldParts(reg: Registry, s: Schema, v: Value, keys: seq<string>, e: seq<Byte>) returns (parts: seq<seq<Byte>>)
    requires v.Obj? && Known(s, v.fields.Keys) && EncodeFields(reg, s, v, keys) == Ok(e)
    requires forall k :: k in keys ==> k in v.fields
    ensures |parts| == |keys| && e == Concat(parts)
    ensures forall n :: 0 <= n < |keys| ==> EncodeField(reg, FieldOf(s, keys[n]), v.fields[keys[n]]) == Ok(parts[n])
    decreases |keys|
  {
    if keys == [] {
      parts := [];
    } else {
      var first, after := EncodeField(reg, FieldOf(s, keys[0]), v.fields[keys[0]]).value, EncodeFields(reg, s, v, keys[1..]).value;
      var rest := FieldParts(reg, s, v, keys[1..], after);
      parts := [first] + rest;
      assert parts[1..] == rest;
      forall n | 0 <= n < |keys| ensures EncodeField(reg, FieldOf(s, keys[n]), v.fields[keys[n]]) == Ok(parts[n]) {
        if n > 0 {
          assert keys[1..][n - 1] == keys[n] && parts[n] == rest[n - 1];
        }
      }
    }
  }

  /** A message is each of its fields once, in ascending order of their numbers. */
  lemma MessageIsItsFieldsInOrder(reg: Registry, name: string, v: Value, e: seq<Byte>) returns (keys: seq<string>, parts: seq<seq<Byte>>)
    requires WellFormed(reg) && EncodeMessage(reg, name, v) == Ok(e)
    ensures name in reg && v.Obj? && Known(reg[name], v.fields.Keys) && |parts| == |keys| && e == Concat(parts)
    ensures forall k :: k in keys <==> k in v.fields
    ensures InOrder(reg[name], keys)
    ensures forall n :: 0 <= n < |keys| ==> EncodeField(reg, FieldOf(reg[name], keys[n]), v.fields[keys[n]]) == Ok(parts[n])
  {
    var s := reg[name];
    keys := Arrangement(s, v.fields.Keys);
    ArrangementCovers(s, v.fields.Keys);
    ArrangementInOrder(s, v.fields.Keys);
    parts := FieldParts(reg, s, v, keys, e);
  }
}
