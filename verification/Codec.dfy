/**
 The descriptor-driven protobuf codec: JSON objects to wire bytes and back, for integer, enum, bool,
 string and message fields, singular or repeated.
 */
module Codec {
  import opened Common
  import opened Wire

  /** Strings are their UTF-8 bytes; numbers are integers. */
  datatype Value =
    | Null
    | Bool(b: bool)
    | Num(n: int)
    | Str(s: seq<Byte>)
    | Arr(items: seq<Value>)
    | Obj(fields: map<string, Value>)

  datatype Kind =
    | Int64 | UInt64 | Int32 | UInt32 | SInt32 | SInt64 | Enum
    | Fixed32 | Fixed64 | SFixed32 | SFixed64
    | Boolean | Text | Message(name: string)

  datatype Field = Field(name: string, number: nat, repeated: bool, packable: bool, kind: Kind)

  datatype Schema = Schema(byName: map<string, nat>, byNumber: map<nat, Field>)

  type Registry = map<string, Schema>

  predicate IsPackable(kind: Kind) {
    !kind.Text? && !kind.Message?
  }

  /** What collecting a descriptor set establishes of every message. */
  predicate WellFormedSchema(s: Schema) {
    && (forall n :: n in s.byNumber ==>
          s.byNumber[n].number == n && 0 < n < TWO_31 && s.byNumber[n].packable == IsPackable(s.byNumber[n].kind))
    && (forall m, n :: m in s.byNumber && n in s.byNumber && m != n ==> s.byNumber[m].name != s.byNumber[n].name)
  }

  predicate WellFormed(reg: Registry) {
    forall name :: name in reg ==> WellFormedSchema(reg[name])
  }

  // ---- Text ----------------------------------------------------------------------------------

  predicate Continuation(b: Byte) {
    0x80 <= b < 0xC0
  }

  /** The number of bytes of the UTF-8 character at the front, 0 if malformed. */
  function CharLength(s: seq<Byte>): (n: nat)
    ensures n <= |s|
  {
    if s == [] then 0
    else if s[0] < 0x80 then 1
    else if |s| >= 2 && 0xC2 <= s[0] < 0xE0 && Continuation(s[1]) then 2
    else if |s| >= 3 && 0xE0 <= s[0] < 0xF0 && Continuation(s[1]) && Continuation(s[2])
            && (s[0] == 0xE0 ==> s[1] >= 0xA0) && (s[0] == 0xED ==> s[1] < 0xA0) then 3
    else if |s| >= 4 && 0xF0 <= s[0] < 0xF5 && Continuation(s[1]) && Continuation(s[2]) && Continuation(s[3])
            && (s[0] == 0xF0 ==> s[1] >= 0x90) && (s[0] == 0xF4 ==> s[1] < 0x90) then 4
    else 0
  }

  predicate ValidUtf8(s: seq<Byte>) {
    s == [] || (CharLength(s) > 0 && ValidUtf8(s[CharLength(s)..]))
  }

  lemma {:induction false} AsciiIsUtf8(s: seq<Byte>)
    requires forall i :: 0 <= i < |s| ==> s[i] < 0x80
    ensures ValidUtf8(s)
  {
    if s != [] {
      AsciiIsUtf8(s[1..]);
    }
  }

  function Digits(n: nat): (s: seq<Byte>)
    ensures |s| > 0 && forall i :: 0 <= i < |s| ==> 48 <= s[i] < 58
  {
    if n < 10 then [48 + n] else Digits(n / 10) + [48 + n % 10]
  }

  function Decimal(n: int): (s: seq<Byte>)
    ensures forall i :: 0 <= i < |s| ==> s[i] < 0x80
  {
    if n < 0 then [45] + Digits(-n) else Digits(n)
  }

  const TRUE_TEXT: seq<Byte> := [116, 114, 117, 101]
  const FALSE_TEXT: seq<Byte> := [102, 97, 108, 115, 101]

  function Lower(b: Byte): Byte {
    if 65 <= b <= 90 then b + 32 else b
  }

  predicate EqualIgnoringCase(s: seq<Byte>, lower: seq<Byte>) {
    |s| == |lower| && forall i :: 0 <= i < |s| ==> Lower(s[i]) == lower[i]
  }

  function ParseDigits(s: seq<Byte>): Result<nat> {
    if s == [] || !(48 <= s[|s| - 1] < 58) then Err
    else if |s| == 1 then Ok(s[0] - 48)
    else match ParseDigits(s[..|s| - 1])
      case Err => Err
      case Ok(n) => Ok(10 * n + s[|s| - 1] - 48)
  }

  /** `str::parse`: an optional sign, `-` only for signed types, then digits. */
  function ParseInt(s: seq<Byte>, signed: bool): Result<int> {
    if s != [] && s[0] == 43 then match ParseDigits(s[1..]) { case Ok(n) => Ok(n) case Err => Err }
    else if s != [] && s[0] == 45 && signed then match ParseDigits(s[1..]) { case Ok(n) => Ok(-(n as int)) case Err => Err }
    else match ParseDigits(s) { case Ok(n) => Ok(n) case Err => Err }
  }

  lemma {:induction false} DigitsParse(n: nat)
    ensures ParseDigits(Digits(n)) == Ok(n)
  {
    if n >= 10 {
      DigitsParse(n / 10);
      assert Digits(n)[..|Digits(n)| - 1] == Digits(n / 10);
    }
  }

  /** The decimal text of a number is accepted wherever the number is. */
  lemma DecimalParses(n: int)
    ensures ParseInt(Decimal(n), true) == Ok(n)
    ensures n >= 0 ==> ParseInt(Decimal(n), false) == Ok(n)
  {
    if n < 0 {
      DigitsParse(-n);
      assert Decimal(n)[1..] == Digits(-n);
    } else {
      DigitsParse(n);
    }
  }

  // ---- Scalars -------------------------------------------------------------------------------

  predicate InRange(kind: Kind, n: int) {
    match kind
    case Int32 => IsI32(n)
    case Enum => IsI32(n)
    case SInt32 => IsI32(n)
    case SFixed32 => IsI32(n)
    case Int64 => IsI64(n)
    case SInt64 => IsI64(n)
    case SFixed64 => IsI64(n)
    case UInt32 => IsU32(n)
    case Fixed32 => IsU32(n)
    case UInt64 => IsU64(n)
    case Fixed64 => IsU64(n)
    case _ => false
  }

  predicate IsUnsigned(kind: Kind) {
    kind.UInt32? || kind.Fixed32? || kind.UInt64? || kind.Fixed64?
  }

  /** Integer fields accept numbers and decimal strings in range. */
  function ToInt(kind: Kind, v: Value): (r: Result<int>)
    ensures r.Ok? ==> InRange(kind, r.value)
  {
    match v
    case Num(n) => if InRange(kind, n) then Ok(n) else Err
    case Str(s) =>
      (match ParseInt(s, !IsUnsigned(kind))
       case Ok(n) => if InRange(kind, n) then Ok(n) else Err
       case Err => Err)
    case _ => Err
  }

  function ToBool(v: Value): Result<bool> {
    match v
    case Bool(b) => Ok(b)
    case Str(s) =>
      if EqualIgnoringCase(s, TRUE_TEXT) then Ok(true)
      else if EqualIgnoringCase(s, FALSE_TEXT) then Ok(false)
      else Err
    case _ => Err
  }

  function ToText(v: Value): Result<seq<Byte>> {
    match v
    case Str(s) => Ok(s)
    case Num(n) => Ok(Decimal(n))
    case Bool(b) => Ok(if b then TRUE_TEXT else FALSE_TEXT)
    case _ => Err
  }

  /** The value a scalar stands for once its field's type is known. */
  function Canonical(kind: Kind, v: Value): Result<Value> {
    if kind.Boolean? then match ToBool(v) { case Ok(b) => Ok(Bool(b)) case Err => Err }
    else if kind.Text? then match ToText(v) { case Ok(s) => Ok(Str(s)) case Err => Err }
    else match ToInt(kind, v) { case Ok(n) => Ok(Num(n)) case Err => Err }
  }

  function WireType(kind: Kind): nat {
    match kind
    case Fixed64 => 1
    case SFixed64 => 1
    case Fixed32 => 5
    case SFixed32 => 5
    case Text => 2
    case Message(_) => 2
    case _ => 0
  }

  /** The unsigned code of an integer of the given kind, and the integer of a code. */
  function Code(kind: Kind, n: int): (u: nat)
    requires InRange(kind, n)
    ensures u < TWO_64 && (WireType(kind) == 5 ==> u < TWO_32)
  {
    match kind
    case Int64 => AsU64(n)
    case SFixed64 => AsU64(n)
    case Int32 => AsU32(n)
    case Enum => AsU32(n)
    case SFixed32 => AsU32(n)
    case SInt32 => Zigzag32(n)
    case SInt64 => Zigzag64(n)
    case UInt32 => n
    case UInt64 => n
    case Fixed32 => n
    case Fixed64 => n
  }

  function Decoded(kind: Kind, u: nat): int
    requires u < TWO_64
  {
    match kind
    case Int64 => AsI64(u)
    case SFixed64 => AsI64(u)
    case Int32 => AsI32(u)
    case Enum => AsI32(u)
    case SFixed32 => AsI32(u)
    case SInt32 => Unzigzag32(u)
    case SInt64 => Unzigzag64(u)
    case UInt32 => AsU32(u)
    case _ => u
  }

  lemma CodeInverts(kind: Kind, n: int)
    requires InRange(kind, n)
    ensures Decoded(kind, Code(kind, n)) == n
  {
    match kind
    case SInt32 => ZigzagInverts32(n);
    case SInt64 => ZigzagInverts64(n);
    case _ => CastsInvert(n);
  }

  lemma SignExtension(n: int)
    requires IsI32(n)
    ensures AsU32(n) == (if n < 0 then n + TWO_32 else n) && AsU64(n) == (if n < 0 then n + TWO_64 else n)
    ensures AsI32(AsU64(n)) == n
  {
  }

  lemma FiveAndTenBytes(short: nat, long: nat)
    requires TWO_31 <= short < TWO_32 && TWO_64 - TWO_31 <= long < TWO_64
    ensures |Varint(short)| == 5 && |Varint(long)| == 10
  {
    FiveAndTenGroups();
    VarintLength(short, 5);
    VarintLength(long, 10);
  }

  /**
   Negative `int32` and enum values are written as the five-byte varint of their low 32 bits, not as
   the ten-byte sign-extended varint; the reader takes either form for the same number.
   */
  lemma NegativeInt32IsFiveBytes(kind: Kind, n: int)
    requires (kind.Int32? || kind.Enum?) && IsI32(n)
    ensures Code(kind, n) == AsU64(n) <==> n >= 0
    ensures Decoded(kind, Code(kind, n)) == Decoded(kind, AsU64(n)) == n
    ensures n < 0 ==> |Varint(Code(kind, n))| == 5 && |Varint(AsU64(n))| == 10
  {
    CodeInverts(kind, n);
    SignExtension(n);
    if n < 0 {
      FiveAndTenBytes(n + TWO_32, n + TWO_64);
    }
  }

  lemma FiveAndTenGroups()
    ensures Pow128(4) <= TWO_31 && TWO_32 <= Pow128(5)
    ensures Pow128(9) <= TWO_64 - TWO_31 && TWO_64 <= Pow128(10)
  {
    assert Pow128(2) == 16384;
    assert Pow128(4) == 16384 * 16384;
    assert Pow128(6) == 16384 * 16384 * 16384;
    assert Pow128(8) == 16384 * 16384 * 16384 * 16384;
  }

  function IntBytes(kind: Kind, n: int): seq<Byte>
    requires InRange(kind, n)
  {
    Layout(WireType(kind), Code(kind, n))
  }

  function Layout(wire: nat, u: nat): seq<Byte> {
    if wire == 1 then LittleEndian(u, 8) else if wire == 5 then LittleEndian(u, 4) else Varint(u)
  }

  /** Canonical scalars: what a field of each kind holds. */
  predicate IsCanonical(kind: Kind, c: Value) {
    if kind.Boolean? then c.Bool?
    else if kind.Text? then c.Str? && ValidUtf8(c.s)
    else c.Num? && InRange(kind, c.n)
  }

  function CanonicalBytes(kind: Kind, c: Value): Result<seq<Byte>> {
    match c
    case Bool(b) => Ok(Varint(if b then 1 else 0))
    case Str(s) => Ok(Varint(|s|) + s)
    case Num(n) => if InRange(kind, n) then Ok(IntBytes(kind, n)) else Err
    case _ => Err
  }

  function ScalarBytes(kind: Kind, v: Value): Result<seq<Byte>> {
    match Canonical(kind, v)
    case Err => Err
    case Ok(c) => CanonicalBytes(kind, c)
  }

  function ReadCode(wire: nat, b: seq<Byte>, i: nat): (r: Result<Read<nat>>)
    ensures r.Ok? ==> i < r.value.next <= |b| && r.value.value < TWO_64
  {
    FixedWidths();
    if wire == 1 then ReadFixed(b, i, 8) else if wire == 5 then ReadFixed(b, i, 4) else ReadVarint(b, i)
  }

  function ReadInt(kind: Kind, b: seq<Byte>, i: nat): (r: Result<Read<int>>)
    ensures r.Ok? ==> i < r.value.next <= |b|
  {
    match ReadCode(WireType(kind), b, i)
    case Err => Err
    case Ok(g) => Ok(Read(Decoded(kind, g.value), g.next))
  }

  datatype Span = Span(start: nat, end: nat)

  /** A length and the stretch of buffer it announces, never beyond the buffer. */
  function ReadSpan(b: seq<Byte>, i: nat): (r: Result<Span>)
    ensures r.Ok? ==> i < r.value.start <= r.value.end <= |b|
  {
    match ReadVarint(b, i)
    case Err => Err
    case Ok(g) => if g.next + g.value > |b| then Err else Ok(Span(g.next, g.next + g.value))
  }

  /** read_length_delimited: strictly less than the whole buffer. */
  function ReadSlice(b: seq<Byte>, i: nat): (r: Result<Read<seq<Byte>>>)
    ensures r.Ok? ==> i < r.value.next <= |b| && |r.value.value| < |b|
  {
    match ReadSpan(b, i)
    case Err => Err
    case Ok(g) => Ok(Read(b[g.start..g.end], g.end))
  }

  function ReadScalar(kind: Kind, b: seq<Byte>, i: nat): (r: Result<Read<Value>>)
    ensures r.Ok? ==> i < r.value.next <= |b|
  {
    if kind.Boolean? then
      match ReadVarint(b, i) { case Err => Err case Ok(g) => Ok(Read(Bool(g.value != 0), g.next)) }
    else if kind.Text? then
      match ReadSlice(b, i)
      case Err => Err
      case Ok(g) => if ValidUtf8(g.value) then Ok(Read(Str(g.value), g.next)) else Err
    else
      match ReadInt(kind, b, i) { case Err => Err case Ok(g) => Ok(Read(Num(g.value), g.next)) }
  }

  /** Strings of a value are well-formed UTF-8, as the language guarantees. */
  predicate ProperText(v: Value) {
    v.Str? ==> ValidUtf8(v.s)
  }

  lemma CodeReadsBack(wire: nat, u: nat, b: seq<Byte>, i: nat)
    requires u < TWO_64 && (wire == 5 ==> u < TWO_32) && HasAt(b, i, Layout(wire, u))
    ensures ReadCode(wire, b, i) == Ok(Read(u, i + |Layout(wire, u)|))
  {
    FixedWidths();
    if wire == 1 {
      FixedReadsBack(b, i, u, 8);
    } else if wire == 5 {
      FixedReadsBack(b, i, u, 4);
    } else {
      VarintReadsBack(b, i, u);
    }
  }

  lemma IntReadsBack(kind: Kind, n: int, b: seq<Byte>, i: nat)
    requires InRange(kind, n) && HasAt(b, i, IntBytes(kind, n))
    ensures ReadInt(kind, b, i) == Ok(Read(n, i + |IntBytes(kind, n)|))
  {
    CodeReadsBack(WireType(kind), Code(kind, n), b, i);
    CodeInverts(kind, n);
  }

  lemma SpanFromLength(b: seq<Byte>, i: nat, length: nat, start: nat)
    requires ReadVarint(b, i) == Ok(Read(length, start)) && start + length <= |b|
    ensures ReadSpan(b, i) == Ok(Span(start, start + length))
  {
  }

  lemma SpanReadsBack(b: seq<Byte>, i: nat, s: seq<Byte>) returns (start: nat, end: nat)
    requires HasAt(b, i, Varint(|s|) + s) && |s| < TWO_64
    ensures ReadSpan(b, i) == Ok(Span(start, end)) && HasAt(b, start, s)
    ensures end == i + |Varint(|s|) + s| && end == start + |s|
  {
    var head := Varint(|s|);
    HasAtSplit(b, i, head, s);
    VarintReadsBack(b, i, |s|);
    start := i + |head|;
    end := start + |s|;
    SpanFromLength(b, i, |s|, start);
  }

  lemma SliceFromSpan(b: seq<Byte>, i: nat, s: seq<Byte>, start: nat, end: nat)
    requires ReadSpan(b, i) == Ok(Span(start, end)) && HasAt(b, start, s) && end == start + |s|
    ensures ReadSlice(b, i) == Ok(Read(s, end))
  {
  }

  lemma SliceReadsBack(b: seq<Byte>, i: nat, s: seq<Byte>)
    requires HasAt(b, i, Varint(|s|) + s) && |s| < TWO_64
    ensures ReadSlice(b, i) == Ok(Read(s, i + |Varint(|s|) + s|))
  {
    var start, end := SpanReadsBack(b, i, s);
    SliceFromSpan(b, i, s, start, end);
  }

  lemma CanonicalText(v: Value)
    requires ProperText(v) && ToText(v).Ok?
    ensures ValidUtf8(ToText(v).value)
  {
    match v
    case Num(n) => AsciiIsUtf8(Decimal(n));
    case Bool(b) => AsciiIsUtf8(if b then TRUE_TEXT else FALSE_TEXT);
    case _ =>
  }

  lemma CanonicalIsCanonical(kind: Kind, v: Value)
    requires ProperText(v) && Canonical(kind, v).Ok?
    ensures IsCanonical(kind, Canonical(kind, v).value)
  {
    if kind.Text? {
      CanonicalText(v);
    }
  }

  lemma BoolReadsBack(v: bool, b: seq<Byte>, i: nat, s: seq<Byte>)
    requires s == Varint(if v then 1 else 0) && HasAt(b, i, s)
    ensures ReadScalar(Boolean, b, i) == Ok(Read(Bool(v), i + |s|))
  {
    VarintReadsBack(b, i, if v then 1 else 0);
  }

  lemma TextFromSlice(b: seq<Byte>, i: nat, text: seq<Byte>, next: nat)
    requires ReadSlice(b, i) == Ok(Read(text, next)) && ProperText(Str(text))
    ensures ReadScalar(Text, b, i) == Ok(Read(Str(text), next))
  {
  }

  lemma TextReadsBack(text: seq<Byte>, b: seq<Byte>, i: nat)
    requires HasAt(b, i, Varint(|text|) + text) && ProperText(Str(text)) && |text| < TWO_64
    ensures ReadScalar(Text, b, i) == Ok(Read(Str(text), i + |Varint(|text|) + text|))
  {
    SliceReadsBack(b, i, text);
    TextFromSlice(b, i, text, i + |Varint(|text|) + text|);
  }

  lemma NumReadsBack(kind: Kind, n: int, b: seq<Byte>, i: nat, s: seq<Byte>)
    requires !kind.Boolean? && !kind.Text? && InRange(kind, n) && s == IntBytes(kind, n) && HasAt(b, i, s)
    ensures ReadScalar(kind, b, i) == Ok(Read(Num(n), i + |s|))
  {
    IntReadsBack(kind, n, b, i);
  }

  lemma CanonicalReadsBack(kind: Kind, c: Value, b: seq<Byte>, i: nat, s: seq<Byte>)
    requires IsCanonical(kind, c) && CanonicalBytes(kind, c) == Ok(s) && HasAt(b, i, s) && |b| < TWO_64
    ensures ReadScalar(kind, b, i) == Ok(Read(c, i + |s|))
  {
    if kind.Boolean? {
      BoolReadsBack(c.b, b, i, s);
    } else if kind.Text? {
      TextReadsBack(c.s, b, i);
    } else {
      NumReadsBack(kind, c.n, b, i, s);
    }
  }

  /** Whatever the encoder accepts for a scalar field, the decoder reads back in canonical form. */
  lemma ScalarReadsBack(kind: Kind, v: Value, b: seq<Byte>, i: nat, s: seq<Byte>)
    requires ScalarBytes(kind, v) == Ok(s) && ProperText(v) && |b| < TWO_64 && HasAt(b, i, s)
    ensures Canonical(kind, v).Ok? && ReadScalar(kind, b, i) == Ok(Read(Canonical(kind, v).value, i + |s|))
  {
    CanonicalIsCanonical(kind, v);
    CanonicalReadsBack(kind, Canonical(kind, v).value, b, i, s);
  }
}
