/** Whole messages: encoding, decoding, and what a round trip gives back. */
module Messages {
  import opened Common
  import opened Wire
  import opened Codec

  // ---- Encoding ------------------------------------------------------------------------------

  predicate Known(s: Schema, keys: set<string>) {
    forall k :: k in keys ==> k in s.byName && s.byName[k] in s.byNumber
  }

  function FieldOf(s: Schema, key: string): Field
    requires key in s.byName && s.byName[key] in s.byNumber
  {
    s.byNumber[s.byName[key]]
  }

  ghost predicate Least(s: Schema, keys: set<string>, k: string)
    requires Known(s, keys)
  {
    k in keys && forall j :: j in keys ==> s.byName[k] <= s.byName[j]
  }

  lemma {:induction false} LeastExists(s: Schema, keys: set<string>)
    requires Known(s, keys) && keys != {}
    ensures exists k :: Least(s, keys, k)
    decreases |keys|
  {
    var k :| k in keys;
    if keys == {k} {
      assert Least(s, keys, k);
    } else {
      assert keys - {k} != {} by {
        assert keys == (keys - {k}) + {k};
      }
      LeastExists(s, keys - {k});
      var j :| Least(s, keys - {k}, j);
      assert Least(s, keys, if s.byName[j] < s.byName[k] then j else k);
    }
  }

  /** The keys of an object sorted by field number; keys that name the same field in any order. */
  ghost function Arrangement(s: Schema, keys: set<string>): seq<string>
    requires Known(s, keys)
    decreases |keys|
  {
    if keys == {} then []
    else
      LeastExists(s, keys);
      var k :| Least(s, keys, k);
      [k] + Arrangement(s, keys - {k})
  }

  function Key(number: nat, wire: nat): seq<Byte> {
    Varint(8 * number + wire)
  }

  function Join(a: Result<seq<Byte>>, b: Result<seq<Byte>>): Result<seq<Byte>> {
    if a.Ok? && b.Ok? then Ok(a.value + b.value) else Err
  }

  function Prefixed(body: Result<seq<Byte>>): Result<seq<Byte>> {
    if body.Err? then Err else Ok(Varint(|body.value|) + body.value)
  }

  function Keyed(number: nat, wire: nat, body: Result<seq<Byte>>): Result<seq<Byte>> {
    if body.Err? then Err else Ok(Key(number, wire) + body.value)
  }

  function PackedBytes(kind: Kind, items: seq<Value>): Result<seq<Byte>> {
    if items == [] then Ok([])
    else if !IsPackable(kind) then Err
    else Join(ScalarBytes(kind, items[0]), PackedBytes(kind, items[1..]))
  }

  ghost function EncodeMessage(reg: Registry, name: string, v: Value): Result<seq<Byte>>
    decreases v, 2
  {
    if name !in reg || !v.Obj? || !Known(reg[name], v.fields.Keys) then Err
    else EncodeFields(reg, reg[name], v, Arrangement(reg[name], v.fields.Keys))
  }

  ghost function EncodeFields(reg: Registry, s: Schema, v: Value, keys: seq<string>): Result<seq<Byte>>
    requires v.Obj? && Known(s, v.fields.Keys)
    decreases v, 1, |keys|
  {
    if keys == [] then Ok([])
    else if keys[0] !in v.fields then Err
    else Join(EncodeField(reg, FieldOf(s, keys[0]), v.fields[keys[0]]), EncodeFields(reg, s, v, keys[1..]))
  }

  ghost function EncodeField(reg: Registry, f: Field, v: Value): Result<seq<Byte>>
    decreases v, 6
  {
    if !f.repeated then EncodeSingle(reg, f, v)
    else if !v.Arr? then Err
    else if f.packable then Keyed(f.number, 2, Prefixed(PackedBytes(f.kind, v.items)))
    else EncodeItems(reg, f, v, 0)
  }

  ghost function EncodeItems(reg: Registry, f: Field, v: Value, n: nat): Result<seq<Byte>>
    requires v.Arr? && n <= |v.items|
    decreases v, 5, |v.items| - n
  {
    if n == |v.items| then Ok([]) else Join(EncodeSingle(reg, f, v.items[n]), EncodeItems(reg, f, v, n + 1))
  }

  ghost function EncodeSingle(reg: Registry, f: Field, v: Value): Result<seq<Byte>>
    decreases v, 4
  {
    Keyed(f.number, WireType(f.kind), EncodeBody(reg, f, v))
  }

  ghost function EncodeBody(reg: Registry, f: Field, v: Value): Result<seq<Byte>>
    decreases v, 3
  {
    if f.kind.Message? then Prefixed(EncodeMessage(reg, f.kind.name, v)) else ScalarBytes(f.kind, v)
  }

  // ---- Decoding ------------------------------------------------------------------------------

  function Append(out: map<string, Value>, name: string, v: Value, repeated: bool): map<string, Value> {
    if !repeated then out[name := v]
    else if name !in out then out[name := Arr([v])]
    else if out[name].Arr? then out[name := Arr(out[name].items + [v])]
    else out[name := Arr([out[name], v])]
  }

  function SkipValue(wire: nat, b: seq<Byte>, i: nat): (r: Result<nat>)
    requires i <= |b|
    ensures r.Ok? ==> i <= r.value <= |b|
  {
    match wire
    case 0 => (match ReadVarint(b, i) case Ok(g) => Ok(g.next) case Err => Err)
    case 1 => if i + 8 > |b| then Err else Ok(i + 8)
    case 2 => (match ReadSlice(b, i) case Ok(g) => Ok(g.next) case Err => Err)
    case 5 => if i + 4 > |b| then Err else Ok(i + 4)
    case _ => Err
  }

  /** The packed loop reads items from the whole buffer until the index passes `end`. */
  function DecodePacked(kind: Kind, b: seq<Byte>, i: nat, end: nat): Result<seq<Value>>
    decreases |b| - i
  {
    if i >= end then Ok([])
    else if !IsPackable(kind) then Err
    else match ReadScalar(kind, b, i)
      case Err => Err
      case Ok(g) =>
        (match DecodePacked(kind, b, g.next, end)
         case Err => Err
         case Ok(rest) => Ok([g.value] + rest))
  }

  function DecodeSingle(reg: Registry, f: Field, wire: nat, b: seq<Byte>, i: nat): (r: Result<Read<Value>>)
    ensures r.Ok? ==> i < r.value.next <= |b|
    decreases |b|, 0
  {
    if wire != WireType(f.kind) then Err
    else if f.kind.Message? then
      match ReadSlice(b, i)
      case Err => Err
      case Ok(g) =>
        (match DecodeMessage(reg, f.kind.name, g.value)
         case Err => Err
         case Ok(v) => Ok(Read(v, g.next)))
    else ReadScalar(f.kind, b, i)
  }

  /** A packed run: its length, then items up to its end. */
  function DecodeList(kind: Kind, b: seq<Byte>, i: nat): (r: Result<Read<Value>>)
    ensures r.Ok? ==> i < r.value.next <= |b|
  {
    match ReadSpan(b, i)
    case Err => Err
    case Ok(g) =>
      match DecodePacked(kind, b, g.start, g.end)
      case Err => Err
      case Ok(items) => Ok(Read(Arr(items), g.end))
  }

  /** What follows the key of a declared field. */
  function DecodeField(reg: Registry, f: Field, wire: nat, b: seq<Byte>, i: nat): (r: Result<Read<Value>>)
    ensures r.Ok? ==> i < r.value.next <= |b|
    decreases |b|, 1
  {
    if f.repeated && f.packable && wire == 2 then DecodeList(f.kind, b, i) else DecodeSingle(reg, f, wire, b, i)
  }

  /** One key and what follows it; the field number is cast to 32 bits. */
  function DecodeOne(reg: Registry, s: Schema, b: seq<Byte>, i: nat,
                     out: map<string, Value>): (r: Result<Read<map<string, Value>>>)
    ensures r.Ok? ==> i < r.value.next <= |b|
    decreases |b|, 2
  {
    match ReadVarint(b, i)
    case Err => Err
    case Ok(key) =>
      var number, wire := (key.value / 8) % TWO_32, key.value % 8;
      if number in s.byNumber then
        var f := s.byNumber[number];
        match DecodeField(reg, f, wire, b, key.next)
        case Err => Err
        case Ok(g) => Ok(Read(Append(out, f.name, g.value, f.repeated), g.next))
      else match SkipValue(wire, b, key.next)
        case Err => Err
        case Ok(next) => Ok(Read(out, next))
  }

  function DecodeFields(reg: Registry, s: Schema, b: seq<Byte>, i: nat, out: map<string, Value>): Result<Value>
    decreases |b|, 3, |b| - i
  {
    if i >= |b| then Ok(Obj(out))
    else match DecodeOne(reg, s, b, i, out)
      case Err => Err
      case Ok(g) => DecodeFields(reg, s, b, g.next, g.value)
  }

  function DecodeMessage(reg: Registry, name: string, b: seq<Byte>): Result<Value>
    decreases |b|, 4
  {
    if name !in reg then Err else DecodeFields(reg, reg[name], b, 0, map[])
  }
}
