/** The codec as it runs: growing output buffers, an index advanced through the input, a sorted field list. */
module CodecLoops {
  import opened Common
  import opened Wire
  import opened Codec
  import opened Messages
  import opened MessageRoundTrip

  // ---- Decoding ------------------------------------------------------------------------------

  function Prepended(items: seq<Value>, r: Result<seq<Value>>): Result<seq<Value>> {
    match r
    case Err => Err
    case Ok(rest) => Ok(items + rest)
  }

  lemma PrependNothing(r: Result<seq<Value>>)
    ensures Prepended([], r) == r
  {
    if r.Ok? {
      assert [] + r.value == r.value;
    }
  }

  lemma PrependOne(items: seq<Value>, v: Value, r: Result<seq<Value>>)
    ensures Prepended(items, Prepended([v], r)) == Prepended(items + [v], r)
  {
    if r.Ok? {
      assert items + ([v] + r.value) == items + [v] + r.value;
    }
  }

  method DecodePackedItems(kind: Kind, b: seq<Byte>, start: nat, end: nat) returns (r: Result<seq<Value>>)
    ensures r == DecodePacked(kind, b, start, end)
  {
    var items: seq<Value> := [];
    var idx := start;
    PrependNothing(DecodePacked(kind, b, start, end));
    while idx < end
      invariant DecodePacked(kind, b, start, end) == Prepended(items, DecodePacked(kind, b, idx, end))
    {
      if !IsPackable(kind) {
        return Err;
      }
      match ReadScalar(kind, b, idx) {
        case Err =>
          return Err;
        case Ok(g) =>
          PrependOne(items, g.value, DecodePacked(kind, b, g.next, end));
          items := items + [g.value];
          idx := g.next;
      }
    }
    assert items + [] == items;
    return Ok(items);
  }

  method DecodePackedRun(kind: Kind, b: seq<Byte>, i: nat) returns (r: Result<Read<Value>>)
    ensures r == DecodeList(kind, b, i)
  {
    var span := ReadSpan(b, i);
    if span.Err? {
      return Err;
    }
    var items := DecodePackedItems(kind, b, span.value.start, span.value.end);
    if items.Err? {
      return Err;
    }
    return Ok(Read(Arr(items.value), span.value.end));
  }

  method DecodeValue(reg: Registry, f: Field, wire: nat, b: seq<Byte>, i: nat) returns (r: Result<Read<Value>>)
    ensures r == DecodeSingle(reg, f, wire, b, i)
    decreases |b|, 0
  {
    if wire != WireType(f.kind) {
      return Err;
    }
    if !f.kind.Message? {
      return ReadScalar(f.kind, b, i);
    }
    match ReadSlice(b, i) {
      case Err =>
        return Err;
      case Ok(g) =>
        var nested := DecodeBytes(reg, f.kind.name, g.value);
        match nested {
          case Err =>
            return Err;
          case Ok(v) =>
            return Ok(Read(v, g.next));
        }
    }
  }

  /** decode_message: one field per iteration, each consuming at least its key. */
  method DecodeBytes(reg: Registry, name: string, b: seq<Byte>) returns (r: Result<Value>)
    ensures r == DecodeMessage(reg, name, b)
    decreases |b|, 1
  {
    if name !in reg {
      return Err;
    }
    var s := reg[name];
    var out: map<string, Value> := map[];
    var idx: nat := 0;
    while idx < |b|
      invariant DecodeMessage(reg, name, b) == Rest(reg, s, b, idx, out)
    {
      ghost var before := idx;
      ghost var previous := out;
      var key := ReadVarintLoop(b, idx);
      if key.Err? {
        assert DecodeOne(reg, s, b, before, previous).Err?;
        return Err;
      }
      idx := key.value.next;
      var number, wire := (key.value.value / 8) % TWO_32, key.value.value % 8;
      if number !in s.byNumber {
        var skipped := SkipValue(wire, b, idx);
        if skipped.Err? {
          return Err;
        }
        idx := skipped.value;
      } else {
        var f := s.byNumber[number];
        var value;
        if f.repeated && f.packable && wire == 2 {
          value := DecodePackedRun(f.kind, b, idx);
        } else {
          value := DecodeValue(reg, f, wire, b, idx);
        }
        if value.Err? {
          return Err;
        }
        idx := value.value.next;
        out := Append(out, f.name, value.value.value, f.repeated);
      }
      assert DecodeOne(reg, s, b, before, previous) == Ok(Read(out, idx));
      DecodeNext(reg, s, b, before, previous, idx, out);
    }
    return Ok(Obj(out));
  }

  // ---- Encoding ------------------------------------------------------------------------------

  function Number(s: Schema, k: string): nat {
    if k in s.byName then s.byName[k] else 0
  }

  ghost predicate SortedKeys(s: Schema, keys: seq<string>) {
    forall m, n :: 0 <= m < n < |keys| ==> Number(s, keys[m]) <= Number(s, keys[n])
  }

  /** Insert after every key with a smaller or equal field number. */
  method InsertKey(s: Schema, keys: seq<string>, k: string) returns (r: seq<string>)
    requires SortedKeys(s, keys)
    ensures |r| == |keys| + 1 && (forall j :: j in r <==> j in keys || j == k) && SortedKeys(s, r)
  {
    var at := |keys|;
    while at > 0 && Number(s, keys[at - 1]) > Number(s, k)
      invariant 0 <= at <= |keys|
      invariant forall n :: at <= n < |keys| ==> Number(s, k) < Number(s, keys[n])
    {
      at := at - 1;
    }
    r := keys[..at] + [k] + keys[at..];
    InsertedMembers(keys, at, k);
    InsertedSorted(s, keys, at, k);
  }

  lemma InsertedMembers(keys: seq<string>, at: nat, k: string)
    requires at <= |keys|
    ensures forall j :: j in keys[..at] + [k] + keys[at..] <==> j in keys || j == k
  {
    assert keys == keys[..at] + keys[at..];
  }

  lemma InsertedSorted(s: Schema, keys: seq<string>, at: nat, k: string)
    requires SortedKeys(s, keys) && at <= |keys|
    requires at > 0 ==> Number(s, keys[at - 1]) <= Number(s, k)
    requires forall n :: at <= n < |keys| ==> Number(s, k) < Number(s, keys[n])
    ensures SortedKeys(s, keys[..at] + [k] + keys[at..])
  {
    var r := keys[..at] + [k] + keys[at..];
    forall m, n | 0 <= m < n < |r| ensures Number(s, r[m]) <= Number(s, r[n]) {
      if n < at || at < m {
        var m', n' := if n < at then m else m - 1, if n < at then n else n - 1;
        assert r[m] == keys[m'] && r[n] == keys[n'];
      } else if n == at {
        assert r[m] == keys[m] && Number(s, keys[m]) <= Number(s, keys[at - 1]);
      } else if m == at {
        assert r[n] == keys[n - 1];
      } else {
        assert r[m] == keys[m] && r[n] == keys[n - 1];
      }
    }
  }

  method SortByNumber(s: Schema, keys: set<string>) returns (order: seq<string>)
    ensures |order| == |keys| && (forall k :: k in order <==> k in keys) && SortedKeys(s, order)
  {
    order := [];
    var left := keys;
    while left != {}
      invariant left <= keys && |order| + |left| == |keys|
      invariant forall k :: k in order <==> k in keys && k !in left
      invariant SortedKeys(s, order)
    {
      var k :| k in left;
      order := InsertKey(s, order, k);
      left := left - {k};
    }
  }

  lemma FirstIsLeast(s: Schema, keys: set<string>, order: seq<string>)
    requires Known(s, keys) && order != [] && (forall k :: k in order <==> k in keys) && SortedKeys(s, order)
    ensures Least(s, keys, order[0])
  {
    forall j | j in keys ensures s.byName[order[0]] <= s.byName[j] {
      var n :| 0 <= n < |order| && order[n] == j;
      assert Number(s, order[0]) <= Number(s, order[n]);
    }
  }

  lemma LeastIsUnique(s: Schema, keys: set<string>, a: string, b: string)
    requires Known(s, keys) && Unaliased(s, keys) && Least(s, keys, a) && Least(s, keys, b)
    ensures a == b
  {
    assert s.byName[a] == s.byName[b];
  }

  /** `order` lists all of `keys`, which name different fields, by field number. */
  ghost predicate Sorts(s: Schema, keys: set<string>, order: seq<string>) {
    && Known(s, keys) && Unaliased(s, keys) && |order| == |keys|
    && (forall k :: k in order <==> k in keys) && SortedKeys(s, order)
  }

  lemma SortsTail(s: Schema, keys: set<string>, order: seq<string>)
    requires Sorts(s, keys, order) && order != []
    ensures Sorts(s, keys - {order[0]}, order[1..])
  {
    FirstOnce(order, keys);
  }

  lemma FirstOfArrangement(s: Schema, keys: set<string>, k: string)
    requires Known(s, keys) && Unaliased(s, keys) && Least(s, keys, k)
    ensures Arrangement(s, keys) == [k] + Arrangement(s, keys - {k})
  {
    var a :| Least(s, keys, a) && Arrangement(s, keys) == [a] + Arrangement(s, keys - {a});
    LeastIsUnique(s, keys, a, k);
  }

  /** Without aliases a sorted list of all keys is the arrangement. */
  lemma {:induction false} SortedIsArrangement(s: Schema, keys: set<string>, order: seq<string>)
    requires Sorts(s, keys, order)
    ensures order == Arrangement(s, keys)
    decreases |keys|
  {
    if keys == {} {
      assert order == [];
    } else {
      FirstIsLeast(s, keys, order);
      FirstOfArrangement(s, keys, order[0]);
      SortsTail(s, keys, order);
      SortedIsArrangement(s, keys - {order[0]}, order[1..]);
      assert order == [order[0]] + order[1..];
    }
  }

  /** A list as long as the set it covers holds its first element once. */
  lemma FirstOnce(order: seq<string>, keys: set<string>)
    requires |order| == |keys| && order != [] && forall k :: k in order <==> k in keys
    ensures forall k :: k in order[1..] <==> k in keys - {order[0]}
  {
    if order[0] in order[1..] {
      CoverSize(order[1..], keys);
    }
    assert order == [order[0]] + order[1..];
  }

  lemma {:induction false} CoverSize<T>(order: seq<T>, keys: set<T>)
    requires forall k :: k in keys ==> k in order
    ensures |keys| <= |order|
  {
    if order == [] {
      assert keys == {};
    } else {
      var n := |order| - 1;
      forall k | k in keys - {order[n]} ensures k in order[..n] {
        var m :| 0 <= m < |order| && order[m] == k;
        assert order[..n][m] == k;
      }
      CoverSize(order[..n], keys - {order[n]});
      assert keys <= (keys - {order[n]}) + {order[n]};
    }
  }

  lemma JoinNothing(r: Result<seq<Byte>>)
    ensures Join(Ok([]), r) == r && Join(r, Ok([])) == r
  {
    if r.Ok? {
      assert [] + r.value == r.value && r.value + [] == r.value;
    }
  }

  lemma JoinMore(a: seq<Byte>, b: seq<Byte>, r: Result<seq<Byte>>)
    ensures Join(Ok(a), Join(Ok(b), r)) == Join(Ok(a + b), r)
  {
    if r.Ok? {
      assert a + (b + r.value) == a + b + r.value;
    }
  }

  method PackItems(kind: Kind, items: seq<Value>) returns (r: Result<seq<Byte>>)
    ensures r == PackedBytes(kind, items)
  {
    var out: seq<Byte> := [];
    JoinNothing(PackedBytes(kind, items));
    assert items[0..] == items;
    for i := 0 to |items|
      invariant PackedBytes(kind, items) == Join(Ok(out), PackedBytes(kind, items[i..]))
    {
      assert items[i..][0] == items[i] && items[i..][1..] == items[i + 1..];
      if !IsPackable(kind) {
        return Err;
      }
      var scalar := ScalarBytes(kind, items[i]);
      if scalar.Err? {
        return Err;
      }
      JoinMore(out, scalar.value, PackedBytes(kind, items[i + 1..]));
      out := out + scalar.value;
    }
    assert items[|items|..] == [];
    JoinNothing(Ok(out));
    return Ok(out);
  }

  method EncodeOne(reg: Registry, f: Field, v: Value) returns (r: Result<seq<Byte>>)
    ensures ProperSingle(reg, f, v) ==> r == EncodeSingle(reg, f, v)
    decreases v, 3
  {
    var body;
    if f.kind.Message? {
      var nested := EncodeValue(reg, f.kind.name, v);
      body := Prefixed(nested);
    } else {
      body := ScalarBytes(f.kind, v);
    }
    return Keyed(f.number, WireType(f.kind), body);
  }

  method EncodeList(reg: Registry, f: Field, v: Value) returns (r: Result<seq<Byte>>)
    requires v.Arr?
    ensures (forall n :: 0 <= n < |v.items| ==> ProperSingle(reg, f, v.items[n])) ==> r == EncodeItems(reg, f, v, 0)
    decreases v, 3
  {
    var out: seq<Byte> := [];
    ghost var proper := forall n :: 0 <= n < |v.items| ==> ProperSingle(reg, f, v.items[n]);
    JoinNothing(EncodeItems(reg, f, v, 0));
    for n := 0 to |v.items|
      invariant proper ==> EncodeItems(reg, f, v, 0) == Join(Ok(out), EncodeItems(reg, f, v, n))
    {
      var item := EncodeOne(reg, f, v.items[n]);
      if item.Err? {
        return Err;
      }
      JoinMore(out, item.value, EncodeItems(reg, f, v, n + 1));
      out := out + item.value;
    }
    JoinNothing(Ok(out));
    return Ok(out);
  }

  /** encode_field: packed lists in one keyed run, other lists one keyed item after the other. */
  method EncodeEntry(reg: Registry, f: Field, v: Value) returns (r: Result<seq<Byte>>)
    ensures ProperField(reg, f, v) ==> r == EncodeField(reg, f, v)
    decreases v, 4
  {
    if !f.repeated {
      r := EncodeOne(reg, f, v);
    } else if !v.Arr? {
      r := Err;
    } else if f.packable {
      var packed := PackItems(f.kind, v.items);
      r := Keyed(f.number, 2, Prefixed(packed));
    } else {
      r := EncodeList(reg, f, v);
    }
  }

  /** encode_message: every key must be declared; fields are written in order of their numbers. */
  method EncodeValue(reg: Registry, name: string, v: Value) returns (r: Result<seq<Byte>>)
    ensures ProperMessage(reg, name, v) ==> r == EncodeMessage(reg, name, v)
    decreases v, 2
  {
    if name !in reg || !v.Obj? || !Known(reg[name], v.fields.Keys) {
      return Err;
    }
    var s := reg[name];
    var order := SortByNumber(s, v.fields.Keys);
    ghost var proper := ProperMessage(reg, name, v);
    if proper {
      SortedIsArrangement(s, v.fields.Keys, order);
    }
    r := EncodeOrdered(reg, s, v, order);
  }

  method EncodeOrdered(reg: Registry, s: Schema, v: Value, order: seq<string>) returns (r: Result<seq<Byte>>)
    requires v.Obj? && Known(s, v.fields.Keys) && forall k :: k in order ==> k in v.fields
    ensures (forall k :: k in v.fields ==> ProperField(reg, FieldOf(s, k), v.fields[k])) ==> r == EncodeFields(reg, s, v, order)
    decreases v, 1
  {
    var out: seq<Byte> := [];
    ghost var proper := forall k :: k in v.fields ==> ProperField(reg, FieldOf(s, k), v.fields[k]);
    JoinNothing(EncodeFields(reg, s, v, order));
    assert order[0..] == order;
    for n := 0 to |order|
      invariant proper ==> EncodeFields(reg, s, v, order) == Join(Ok(out), EncodeFields(reg, s, v, order[n..]))
    {
      assert order[n..][0] == order[n] && order[n..][1..] == order[n + 1..];
      assert order[n] in v.fields;
      var entry := EncodeEntry(reg, FieldOf(s, order[n]), v.fields[order[n]]);
      if entry.Err? {
        return Err;
      }
      JoinMore(out, entry.value, EncodeFields(reg, s, v, order[n + 1..]));
      out := out + entry.value;
    }
    assert order[|order|..] == [];
    JoinNothing(Ok(out));
    return Ok(out);
  }
}
