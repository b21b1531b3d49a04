/** Decoding an encoded message, for every schema and every value the encoder accepts. */
module MessageRoundTrip {
  import opened Common
  import opened Wire
  import opened Codec
  import opened Messages

  // ---- What a value looks like after a round trip ------------------------------------------------

  function CanonicalItems(kind: Kind, items: seq<Value>): (r: seq<Value>)
    ensures |r| == |items|
  {
    if items == [] then []
    else [if Canonical(kind, items[0]).Ok? then Canonical(kind, items[0]).value else Null] + CanonicalItems(kind, items[1..])
  }

  /**
   The value with proto field names, scalars in canonical form and empty unpacked lists dropped.
   With `wrap`, a packed list comes back as a list holding the list.
   */
  ghost function ImageMessage(reg: Registry, wrap: bool, name: string, v: Value): Value
    decreases v, 2
  {
    if name !in reg || !v.Obj? || !Known(reg[name], v.fields.Keys) then Null
    else Obj(ImageFields(reg, wrap, reg[name], v, Arrangement(reg[name], v.fields.Keys), map[]))
  }

  function Put(out: map<string, Value>, name: string, image: Option<Value>): map<string, Value> {
    if image.None? then out else out[name := image.value]
  }

  ghost function ImageFields(reg: Registry, wrap: bool, s: Schema, v: Value, keys: seq<string>,
                             out: map<string, Value>): map<string, Value>
    requires v.Obj? && Known(s, v.fields.Keys)
    decreases v, 1, |keys|
  {
    if keys == [] || keys[0] !in v.fields then out
    else
      var f := FieldOf(s, keys[0]);
      ImageFields(reg, wrap, s, v, keys[1..], Put(out, f.name, ImageField(reg, wrap, f, v.fields[keys[0]])))
  }

  ghost function ImageField(reg: Registry, wrap: bool, f: Field, v: Value): Option<Value>
    decreases v, 4
  {
    if !f.repeated then Some(ImageSingle(reg, wrap, f, v))
    else if !v.Arr? then None
    else if f.packable then
      var list := Arr(CanonicalItems(f.kind, v.items));
      Some(if wrap then Arr([list]) else list)
    else if v.items == [] then None
    else Some(Arr(ImageItems(reg, wrap, f, v, |v.items|)))
  }

  ghost function ImageItems(reg: Registry, wrap: bool, f: Field, v: Value, n: nat): (r: seq<Value>)
    requires v.Arr? && n <= |v.items|
    ensures |r| == n
    decreases v, 3, n
  {
    if n == 0 then [] else ImageItems(reg, wrap, f, v, n - 1) + [ImageSingle(reg, wrap, f, v.items[n - 1])]
  }

  ghost function ImageSingle(reg: Registry, wrap: bool, f: Field, v: Value): Value
    decreases v, 3, 0
  {
    if f.kind.Message? then ImageMessage(reg, wrap, f.kind.name, v)
    else if Canonical(f.kind, v).Ok? then Canonical(f.kind, v).value else Null
  }

  // ---- Proper inputs -------------------------------------------------------------------------

  /** Strings are UTF-8, and no object names one field twice (by its name and by its JSON name). */
  ghost predicate ProperMessage(reg: Registry, name: string, v: Value)
    decreases v, 2
  {
    name in reg && v.Obj? && Known(reg[name], v.fields.Keys) ==>
      && Unaliased(reg[name], v.fields.Keys)
      && forall k :: k in v.fields ==> ProperField(reg, FieldOf(reg[name], k), v.fields[k])
  }

  ghost predicate Unaliased(s: Schema, keys: set<string>)
    requires Known(s, keys)
  {
    forall j, k :: j in keys && k in keys && j != k ==> s.byName[j] != s.byName[k]
  }

  ghost predicate ProperField(reg: Registry, f: Field, v: Value)
    decreases v, 4
  {
    if f.repeated then v.Arr? ==> forall n :: 0 <= n < |v.items| ==> ProperSingle(reg, f, v.items[n])
    else ProperSingle(reg, f, v)
  }

  ghost predicate ProperSingle(reg: Registry, f: Field, v: Value)
    decreases v, 3
  {
    if f.kind.Message? then ProperMessage(reg, f.kind.name, v) else ProperText(v)
  }

  ghost predicate Declared(s: Schema, f: Field) {
    0 < f.number < TWO_31 && f.packable == IsPackable(f.kind) && f.number in s.byNumber && s.byNumber[f.number] == f
  }

  // ---- One key -------------------------------------------------------------------------------

  /** A written key reads back, and its body follows at `j`. */
  lemma KeyedReads(b: seq<Byte>, i: nat, number: nat, wire: nat, body: seq<Byte>, e: seq<Byte>) returns (j: nat)
    requires 0 < number < TWO_31 && wire < 8 && Keyed(number, wire, Ok(body)) == Ok(e) && HasAt(b, i, e)
    ensures ReadVarint(b, i) == Ok(Read(8 * number + wire, j)) && HasAt(b, j, body) && i < j && j + |body| == i + |e|
  {
    var key := Key(number, wire);
    HasAtSplit(b, i, key, body);
    VarintReadsBack(b, i, 8 * number + wire);
    j := i + |key|;
  }

  /** What decoding one key and its value makes of the output so far. */
  ghost function One(reg: Registry, s: Schema, b: seq<Byte>, i: nat,
                     out: map<string, Value>): Result<Read<map<string, Value>>> {
    DecodeOne(reg, s, b, i, out)
  }

  lemma KeyStep(reg: Registry, s: Schema, f: Field, wire: nat, b: seq<Byte>, i: nat, j: nat, next: nat, image: Value,
                out: map<string, Value>)
    requires Declared(s, f) && wire < 8 && ReadVarint(b, i) == Ok(Read(8 * f.number + wire, j))
    requires DecodeField(reg, f, wire, b, j) == Ok(Read(image, next))
    ensures One(reg, s, b, i, out) == Ok(Read(Append(out, f.name, image, f.repeated), next))
  {
    assert (8 * f.number + wire) / 8 == f.number && (8 * f.number + wire) % 8 == wire;
    assert f.number % TWO_32 == f.number;
  }

  // ---- Packed lists --------------------------------------------------------------------------

  /** What the packed loop reads from `i` to `end`. */
  ghost function Packed(kind: Kind, b: seq<Byte>, i: nat, end: nat): Result<seq<Value>> {
    DecodePacked(kind, b, i, end)
  }

  lemma PackedNext(kind: Kind, b: seq<Byte>, i: nat, end: nat, v: Value, j: nat, rest: seq<Value>)
    requires IsPackable(kind) && i < end && ReadScalar(kind, b, i) == Ok(Read(v, j)) && Packed(kind, b, j, end) == Ok(rest)
    ensures Packed(kind, b, i, end) == Ok([v] + rest)
  {
  }

  lemma PackedBytesSplit(kind: Kind, items: seq<Value>, s: seq<Byte>) returns (head: seq<Byte>, tail: seq<Byte>)
    requires items != [] && PackedBytes(kind, items) == Ok(s)
    ensures ScalarBytes(kind, items[0]) == Ok(head) && PackedBytes(kind, items[1..]) == Ok(tail) && s == head + tail
  {
    head, tail := ScalarBytes(kind, items[0]).value, PackedBytes(kind, items[1..]).value;
  }

  lemma ScalarTakesSpace(kind: Kind, v: Value, b: seq<Byte>, i: nat, s: seq<Byte>) returns (c: Value, next: nat)
    requires ScalarBytes(kind, v) == Ok(s) && ProperText(v) && |b| < TWO_64 && HasAt(b, i, s)
    ensures Canonical(kind, v) == Ok(c) && ReadScalar(kind, b, i) == Ok(Read(c, next)) && next == i + |s| && i < next
  {
    ScalarReadsBack(kind, v, b, i, s);
    c, next := Canonical(kind, v).value, i + |s|;
  }

  /** The packed loop recovers exactly the items that were packed. */
  lemma {:induction false} PackedReadsBack(kind: Kind, items: seq<Value>, list: seq<Value>, b: seq<Byte>, i: nat,
                                           s: seq<Byte>, end: nat)
    requires IsPackable(kind) && PackedBytes(kind, items) == Ok(s) && HasAt(b, i, s) && end == i + |s| && |b| < TWO_64
    requires list == CanonicalItems(kind, items) && forall n :: 0 <= n < |items| ==> ProperText(items[n])
    ensures Packed(kind, b, i, end) == Ok(list)
    decreases |items|
  {
    if items != [] {
      var head, tail := PackedBytesSplit(kind, items, s);
      HasAtSplit(b, i, head, tail);
      var c, next := ScalarTakesSpace(kind, items[0], b, i, head);
      var rest := CanonicalItems(kind, items[1..]);
      PackedReadsBack(kind, items[1..], rest, b, next, tail, end);
      PackedNext(kind, b, i, end, c, next, rest);
    }
  }

  lemma ListFromSpan(kind: Kind, b: seq<Byte>, j: nat, start: nat, end: nat, list: seq<Value>)
    requires ReadSpan(b, j) == Ok(Span(start, end)) && Packed(kind, b, start, end) == Ok(list)
    ensures DecodeList(kind, b, j) == Ok(Read(Arr(list), end))
  {
  }

  /** `list` is what a packed run with body `body` holds, wherever it lies. */
  ghost predicate Packs(kind: Kind, body: seq<Byte>, list: seq<Value>) {
    forall b, start: nat, end: nat :: HasAt(b, start, body) && end == start + |body| && |b| < TWO_64 ==> Packed(kind, b, start, end) == Ok(list)
  }

  lemma PackedBytesPack(kind: Kind, items: seq<Value>, body: seq<Byte>, list: seq<Value>)
    requires IsPackable(kind) && PackedBytes(kind, items) == Ok(body) && list == CanonicalItems(kind, items)
    requires forall n :: 0 <= n < |items| ==> ProperText(items[n])
    ensures Packs(kind, body, list)
  {
    forall b, start: nat, end: nat | HasAt(b, start, body) && end == start + |body| && |b| < TWO_64
      ensures Packed(kind, b, start, end) == Ok(list)
    {
      PackedReadsBack(kind, items, list, b, start, body, end);
    }
  }

  lemma ListReadsBack(kind: Kind, body: seq<Byte>, list: seq<Value>, b: seq<Byte>, j: nat) returns (next: nat)
    requires |b| < TWO_64 && HasAt(b, j, Varint(|body|) + body) && Packs(kind, body, list)
    ensures DecodeList(kind, b, j) == Ok(Read(Arr(list), next)) && next == j + |Varint(|body|) + body|
  {
    var start, end := SpanReadsBack(b, j, body);
    ListFromSpan(kind, b, j, start, end, list);
    next := end;
  }

  lemma PackedStep(reg: Registry, s: Schema, f: Field, body: seq<Byte>, list: seq<Value>, b: seq<Byte>, i: nat,
                   e: seq<Byte>, out: map<string, Value>)
    requires Declared(s, f) && f.repeated && f.packable && |b| < TWO_64 && Packs(f.kind, body, list)
    requires Keyed(f.number, 2, Prefixed(Ok(body))) == Ok(e) && HasAt(b, i, e)
    ensures |e| > 0 && One(reg, s, b, i, out) == Ok(Read(Append(out, f.name, Arr(list), true), i + |e|))
  {
    var j := KeyedReads(b, i, f.number, 2, Varint(|body|) + body, e);
    var next := ListReadsBack(f.kind, body, list, b, j);
    assert next == i + |e|;
    KeyStep(reg, s, f, 2, b, i, j, next, Arr(list), out);
  }

  // ---- Messages ------------------------------------------------------------------------------

  lemma ScalarSingle(reg: Registry, f: Field, v: Value, b: seq<Byte>, j: nat, body: seq<Byte>)
    requires !f.kind.Message? && ScalarBytes(f.kind, v) == Ok(body) && ProperText(v) && |b| < TWO_64 && HasAt(b, j, body)
    ensures DecodeSingle(reg, f, WireType(f.kind), b, j) == Ok(Read(ImageSingle(reg, true, f, v), j + |body|))
  {
    ScalarReadsBack(f.kind, v, b, j, body);
  }

  lemma {:induction false} MessageSingle(reg: Registry, f: Field, v: Value, b: seq<Byte>, j: nat, e: seq<Byte>)
    requires WellFormed(reg) && f.kind.Message? && ProperMessage(reg, f.kind.name, v) && |b| < TWO_64
    requires Prefixed(EncodeMessage(reg, f.kind.name, v)) == Ok(e) && HasAt(b, j, e)
    ensures DecodeSingle(reg, f, 2, b, j) == Ok(Read(ImageSingle(reg, true, f, v), j + |e|))
    decreases v, 3
  {
    var body := EncodeMessage(reg, f.kind.name, v).value;
    SliceReadsBack(b, j, body);
    MessageReadsBack(reg, f.kind.name, v, body);
  }

  /** The value that follows the key of a singular field. */
  ghost function Single(reg: Registry, f: Field, b: seq<Byte>, j: nat): Result<Read<Value>> {
    DecodeSingle(reg, f, WireType(f.kind), b, j)
  }

  lemma {:induction false} BodyReadsBack(reg: Registry, f: Field, v: Value, image: Value, b: seq<Byte>, j: nat,
                                         body: seq<Byte>, next: nat)
    requires WellFormed(reg) && ProperSingle(reg, f, v) && |b| < TWO_64 && image == ImageSingle(reg, true, f, v)
    requires EncodeBody(reg, f, v) == Ok(body) && HasAt(b, j, body) && next == j + |body|
    ensures Single(reg, f, b, j) == Ok(Read(image, next))
    decreases v, 4
  {
    if f.kind.Message? {
      MessageSingle(reg, f, v, b, j, body);
    } else {
      ScalarSingle(reg, f, v, b, j, body);
    }
  }

  /** A written singular field is its key, read back as such, and its body at `j`. */
  lemma SingleSplits(reg: Registry, f: Field, v: Value, b: seq<Byte>, i: nat, e: seq<Byte>)
    returns (j: nat, body: seq<Byte>)
    requires 0 < f.number < TWO_31 && EncodeSingle(reg, f, v) == Ok(e) && HasAt(b, i, e)
    ensures EncodeBody(reg, f, v) == Ok(body) && HasAt(b, j, body) && j + |body| == i + |e|
    ensures ReadVarint(b, i) == Ok(Read(8 * f.number + WireType(f.kind), j))
  {
    body := EncodeBody(reg, f, v).value;
    j := KeyedReads(b, i, f.number, WireType(f.kind), body, e);
  }

  /** A keyed body that decodes to `image` appends it. */
  lemma KeyedSingle(reg: Registry, s: Schema, f: Field, b: seq<Byte>, i: nat, j: nat, next: nat, image: Value,
                    out: map<string, Value>)
    requires Declared(s, f) && ReadVarint(b, i) == Ok(Read(8 * f.number + WireType(f.kind), j))
    requires Single(reg, f, b, j) == Ok(Read(image, next))
    ensures One(reg, s, b, i, out) == Ok(Read(Append(out, f.name, image, f.repeated), next))
  {
    KeyStep(reg, s, f, WireType(f.kind), b, i, j, next, image, out);
  }

  lemma {:induction false} SingleReadsBack(reg: Registry, s: Schema, f: Field, v: Value, image: Value, b: seq<Byte>,
                                           i: nat, e: seq<Byte>, next: nat, out: map<string, Value>)
    requires WellFormed(reg) && Declared(s, f) && ProperSingle(reg, f, v) && |b| < TWO_64 && image == ImageSingle(reg, true, f, v)
    requires EncodeSingle(reg, f, v) == Ok(e) && HasAt(b, i, e) && next == i + |e|
    ensures One(reg, s, b, i, out) == Ok(Read(Append(out, f.name, image, f.repeated), next))
    decreases v, 5
  {
    var j, body := SingleSplits(reg, f, v, b, i, e);
    BodyReadsBack(reg, f, v, image, b, j, body, next);
    KeyedSingle(reg, s, f, b, i, j, next, image, out);
  }

  /** The output once the first `n` items of an unpacked list have been decoded. */
  function WithItems(out: map<string, Value>, name: string, items: seq<Value>): map<string, Value> {
    if items == [] then out else out[name := Arr(items)]
  }

  lemma AppendItem(out: map<string, Value>, name: string, items: seq<Value>, v: Value)
    requires name !in out
    ensures Append(WithItems(out, name, items), name, v, true) == WithItems(out, name, items + [v])
  {
    if items == [] {
      assert items + [v] == [v];
    } else {
      var last := Arr(items + [v]);
      assert out[name := Arr(items)][name := last] == out[name := last];
    }
  }

  /** What decoding the rest of the buffer makes of the output so far. */
  ghost function Rest(reg: Registry, s: Schema, b: seq<Byte>, i: nat, out: map<string, Value>): Result<Value> {
    DecodeFields(reg, s, b, i, out)
  }

  lemma DecodeNext(reg: Registry, s: Schema, b: seq<Byte>, i: nat, out: map<string, Value>, next: nat,
                   out': map<string, Value>)
    requires One(reg, s, b, i, out) == Ok(Read(out', next))
    ensures Rest(reg, s, b, i, out) == Rest(reg, s, b, next, out')
  {
  }

  lemma {:induction false} ItemReadsBack(reg: Registry, s: Schema, f: Field, v: Value, b: seq<Byte>, i: nat,
                                         e: seq<Byte>, out: map<string, Value>, done: seq<Value>)
    requires WellFormed(reg) && Declared(s, f) && f.repeated && f.name !in out && ProperSingle(reg, f, v) && |b| < TWO_64
    requires EncodeSingle(reg, f, v) == Ok(e) && HasAt(b, i, e)
    ensures Rest(reg, s, b, i, WithItems(out, f.name, done))
         == Rest(reg, s, b, i + |e|, WithItems(out, f.name, done + [ImageSingle(reg, true, f, v)]))
    decreases v, 6
  {
    var image := ImageSingle(reg, true, f, v);
    SingleReadsBack(reg, s, f, v, image, b, i, e, i + |e|, WithItems(out, f.name, done));
    AppendItem(out, f.name, done, image);
    DecodeNext(reg, s, b, i, WithItems(out, f.name, done), i + |e|, WithItems(out, f.name, done + [image]));
  }

  lemma {:induction false} ItemsReadBack(reg: Registry, s: Schema, f: Field, v: Value, n: nat, b: seq<Byte>, i: nat,
                                         e: seq<Byte>, out: map<string, Value>)
    requires WellFormed(reg) && Declared(s, f) && f.repeated && v.Arr? && n <= |v.items| && f.name !in out && |b| < TWO_64
    requires forall m :: 0 <= m < |v.items| ==> ProperSingle(reg, f, v.items[m])
    requires EncodeItems(reg, f, v, n) == Ok(e) && HasAt(b, i, e)
    ensures Rest(reg, s, b, i, WithItems(out, f.name, ImageItems(reg, true, f, v, n)))
         == Rest(reg, s, b, i + |e|, WithItems(out, f.name, ImageItems(reg, true, f, v, |v.items|)))
    decreases v, 6, |v.items| - n
  {
    if n < |v.items| {
      var head, tail := EncodeSingle(reg, f, v.items[n]).value, EncodeItems(reg, f, v, n + 1).value;
      HasAtSplit(b, i, head, tail);
      assert |e| == |head| + |tail|;
      assert ImageItems(reg, true, f, v, n + 1) == ImageItems(reg, true, f, v, n) + [ImageSingle(reg, true, f, v.items[n])];
      ItemReadsBack(reg, s, f, v.items[n], b, i, head, out, ImageItems(reg, true, f, v, n));
      ItemsReadBack(reg, s, f, v, n + 1, b, i + |head|, tail, out);
    }
  }

  lemma PackedReads(reg: Registry, s: Schema, f: Field, v: Value, b: seq<Byte>, i: nat, e: seq<Byte>,
                    out: map<string, Value>)
    requires Declared(s, f) && f.repeated && f.packable && v.Arr? && f.name !in out && |b| < TWO_64
    requires forall n :: 0 <= n < |v.items| ==> ProperSingle(reg, f, v.items[n])
    requires Keyed(f.number, 2, Prefixed(PackedBytes(f.kind, v.items))) == Ok(e) && HasAt(b, i, e)
    ensures Rest(reg, s, b, i, out) == Rest(reg, s, b, i + |e|, out[f.name := Arr([Arr(CanonicalItems(f.kind, v.items))])])
  {
    var body, list := PackedBytes(f.kind, v.items).value, CanonicalItems(f.kind, v.items);
    PackedBytesPack(f.kind, v.items, body, list);
    PackedStep(reg, s, f, body, list, b, i, e, out);
    DecodeNext(reg, s, b, i, out, i + |e|, out[f.name := Arr([Arr(list)])]);
  }

  lemma {:induction false} SingleReads(reg: Registry, s: Schema, f: Field, v: Value, image: Value, b: seq<Byte>, i: nat,
                                       e: seq<Byte>, out: map<string, Value>)
    requires WellFormed(reg) && Declared(s, f) && ProperSingle(reg, f, v) && !f.repeated && |b| < TWO_64
    requires EncodeSingle(reg, f, v) == Ok(e) && HasAt(b, i, e) && image == ImageSingle(reg, true, f, v)
    ensures Rest(reg, s, b, i, out) == Rest(reg, s, b, i + |e|, out[f.name := image])
    decreases v, 6
  {
    SingleReadsBack(reg, s, f, v, image, b, i, e, i + |e|, out);
    DecodeNext(reg, s, b, i, out, i + |e|, out[f.name := image]);
  }

  lemma {:induction false} FieldReadsBack(reg: Registry, s: Schema, f: Field, v: Value, b: seq<Byte>, i: nat,
                                          e: seq<Byte>, out: map<string, Value>)
    requires WellFormed(reg) && Declared(s, f) && ProperField(reg, f, v) && f.name !in out && |b| < TWO_64
    requires EncodeField(reg, f, v) == Ok(e) && HasAt(b, i, e)
    ensures Rest(reg, s, b, i, out) == Rest(reg, s, b, i + |e|, Put(out, f.name, ImageField(reg, true, f, v)))
    decreases v, 7
  {
    if !f.repeated {
      SingleReads(reg, s, f, v, ImageSingle(reg, true, f, v), b, i, e, out);
    } else if f.packable {
      PackedReads(reg, s, f, v, b, i, e, out);
    } else {
      ItemsReadBack(reg, s, f, v, 0, b, i, e, out);
    }
  }

  /** No two keys of `keys` name the same field. */
  ghost predicate DistinctFields(s: Schema, keys: seq<string>)
    requires forall n :: 0 <= n < |keys| ==> keys[n] in s.byName
  {
    forall m, n :: 0 <= m < n < |keys| ==> s.byName[keys[m]] != s.byName[keys[n]]
  }

  lemma {:induction false} ArrangementCovers(s: Schema, keys: set<string>)
    requires Known(s, keys)
    ensures forall k :: k in keys <==> k in Arrangement(s, keys)
    ensures Unaliased(s, keys) ==> DistinctFields(s, Arrangement(s, keys))
    decreases |keys|
  {
    if keys != {} {
      var a := Arrangement(s, keys);
      ArrangementCovers(s, keys - {a[0]});
      assert a == [a[0]] + Arrangement(s, keys - {a[0]});
    }
  }

  /** The keys still to be read name distinct fields of which none has been output. */
  ghost predicate Ready(reg: Registry, s: Schema, v: Value, keys: seq<string>, out: map<string, Value>)
    requires v.Obj? && Known(s, v.fields.Keys)
  {
    && (forall n :: 0 <= n < |keys| ==> keys[n] in v.fields)
    && DistinctFields(s, keys)
    && (forall n :: 0 <= n < |keys| ==> FieldOf(s, keys[n]).name !in out)
    && (forall k :: k in v.fields ==> ProperField(reg, FieldOf(s, k), v.fields[k]))
  }

  lemma ReadyNext(reg: Registry, s: Schema, v: Value, keys: seq<string>, out: map<string, Value>, image: Option<Value>)
    requires WellFormedSchema(s) && v.Obj? && Known(s, v.fields.Keys) && Ready(reg, s, v, keys, out) && keys != []
    ensures Ready(reg, s, v, keys[1..], Put(out, FieldOf(s, keys[0]).name, image))
    ensures Declared(s, FieldOf(s, keys[0])) && FieldOf(s, keys[0]).name !in out
    ensures ProperField(reg, FieldOf(s, keys[0]), v.fields[keys[0]])
  {
    var rest, out' := keys[1..], Put(out, FieldOf(s, keys[0]).name, image);
    forall n | 0 <= n < |rest| ensures rest[n] in v.fields && FieldOf(s, rest[n]).name !in out' {
      assert rest[n] == keys[n + 1];
      assert s.byName[keys[0]] != s.byName[keys[n + 1]];
    }
  }

  lemma {:induction false} FieldsReadBack(reg: Registry, s: Schema, v: Value, keys: seq<string>, b: seq<Byte>, i: nat,
                                          e: seq<Byte>, out: map<string, Value>)
    requires WellFormed(reg) && WellFormedSchema(s) && v.Obj? && Known(s, v.fields.Keys) && |b| < TWO_64
    requires Ready(reg, s, v, keys, out)
    requires EncodeFields(reg, s, v, keys) == Ok(e) && HasAt(b, i, e) && i + |e| == |b|
    ensures Rest(reg, s, b, i, out) == Ok(Obj(ImageFields(reg, true, s, v, keys, out)))
    decreases v, 1, |keys|
  {
    if keys != [] {
      var f := FieldOf(s, keys[0]);
      var x := v.fields[keys[0]];
      var head, tail := EncodeField(reg, f, x).value, EncodeFields(reg, s, v, keys[1..]).value;
      var image := ImageField(reg, true, f, x);
      HasAtSplit(b, i, head, tail);
      ReadyNext(reg, s, v, keys, out, image);
      FieldReadsBack(reg, s, f, x, b, i, head, out);
      FieldsReadBack(reg, s, v, keys[1..], b, i + |head|, tail, Put(out, f.name, image));
    }
  }

  /** Decoding what the encoder wrote gives back the value's image. */
  lemma {:induction false} MessageReadsBack(reg: Registry, name: string, v: Value, b: seq<Byte>)
    requires WellFormed(reg) && ProperMessage(reg, name, v) && |b| < TWO_64
    requires EncodeMessage(reg, name, v) == Ok(b)
    ensures DecodeMessage(reg, name, b) == Ok(ImageMessage(reg, true, name, v))
    decreases v, 2
  {
    var s := reg[name];
    ArrangementCovers(s, v.fields.Keys);
    FieldsReadBack(reg, s, v, Arrangement(s, v.fields.Keys), b, 0, b, map[]);
  }
}
