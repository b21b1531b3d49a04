/**
 Decoding does not depend on where bytes lie, and fields that the schema does not declare are
 transparent: inserted between complete fields, they never change what a message decodes to.
 */
module UnknownFields {
  import opened Common
  import opened Wire
  import opened Codec
  import opened Messages
  import opened MessageRoundTrip

  // ---- Reading inside a larger buffer ------------------------------------------------------------

  lemma ByteInside(b: seq<Byte>, k: nat, a: seq<Byte>, i: nat)
    requires HasAt(b, k, a) && i < |a|
    ensures k + i < |b| && b[k + i] == a[i]
  {
    assert b[k..k + |a|][i] == b[k + i];
  }

  lemma StretchInside(b: seq<Byte>, k: nat, a: seq<Byte>, i: nat, j: nat)
    requires HasAt(b, k, a) && i <= j <= |a|
    ensures k + j <= |b| && b[k + i..k + j] == a[i..j]
  {
    forall n | 0 <= n < j - i ensures b[k + i..k + j][n] == a[i..j][n] {
      ByteInside(b, k, a, i + n);
    }
  }

  lemma {:induction false} GroupsInside(b: seq<Byte>, k: nat, a: seq<Byte>, i: nat, room: nat, v: nat, next: nat)
    requires HasAt(b, k, a) && GroupsAt(a, i, room) == Ok(Read(v, next))
    ensures GroupsAt(b, k + i, room) == Ok(Read(v, k + next))
    decreases room
  {
    ByteInside(b, k, a, i);
    if a[i] >= 128 {
      var rest := GroupsAt(a, i + 1, room - 1).value;
      GroupsInside(b, k, a, i + 1, room - 1, rest.value, rest.next);
    }
  }

  lemma VarintInside(b: seq<Byte>, k: nat, a: seq<Byte>, i: nat, v: nat, next: nat)
    requires HasAt(b, k, a) && ReadVarint(a, i) == Ok(Read(v, next))
    ensures ReadVarint(b, k + i) == Ok(Read(v, k + next))
  {
    var g := GroupsAt(a, i, 10).value;
    GroupsInside(b, k, a, i, 10, g.value, g.next);
  }

  lemma FixedInside(b: seq<Byte>, k: nat, a: seq<Byte>, i: nat, width: nat, v: nat, next: nat)
    requires HasAt(b, k, a) && ReadFixed(a, i, width) == Ok(Read(v, next))
    ensures ReadFixed(b, k + i, width) == Ok(Read(v, k + next))
  {
    StretchInside(b, k, a, i, i + width);
  }

  lemma CodeInside(b: seq<Byte>, k: nat, a: seq<Byte>, i: nat, wire: nat, v: nat, next: nat)
    requires HasAt(b, k, a) && ReadCode(wire, a, i) == Ok(Read(v, next))
    ensures ReadCode(wire, b, k + i) == Ok(Read(v, k + next))
  {
    if wire == 1 {
      FixedInside(b, k, a, i, 8, v, next);
    } else if wire == 5 {
      FixedInside(b, k, a, i, 4, v, next);
    } else {
      VarintInside(b, k, a, i, v, next);
    }
  }

  lemma SpanInside(b: seq<Byte>, k: nat, a: seq<Byte>, i: nat, start: nat, end: nat)
    requires HasAt(b, k, a) && ReadSpan(a, i) == Ok(Span(start, end))
    ensures ReadSpan(b, k + i) == Ok(Span(k + start, k + end))
  {
    var g := ReadVarint(a, i).value;
    VarintInside(b, k, a, i, g.value, g.next);
  }

  lemma SliceInside(b: seq<Byte>, k: nat, a: seq<Byte>, i: nat, s: seq<Byte>, next: nat)
    requires HasAt(b, k, a) && ReadSlice(a, i) == Ok(Read(s, next))
    ensures ReadSlice(b, k + i) == Ok(Read(s, k + next))
  {
    var g := ReadSpan(a, i).value;
    SpanInside(b, k, a, i, g.start, g.end);
    StretchInside(b, k, a, g.start, g.end);
  }

  lemma BoolInside(b: seq<Byte>, k: nat, a: seq<Byte>, i: nat, v: Value, next: nat)
    requires HasAt(b, k, a) && ReadScalar(Boolean, a, i) == Ok(Read(v, next))
    ensures ReadScalar(Boolean, b, k + i) == Ok(Read(v, k + next))
  {
    VarintInside(b, k, a, i, ReadVarint(a, i).value.value, next);
  }

  lemma TextInside(b: seq<Byte>, k: nat, a: seq<Byte>, i: nat, v: Value, next: nat)
    requires HasAt(b, k, a) && ReadScalar(Text, a, i) == Ok(Read(v, next))
    ensures ReadScalar(Text, b, k + i) == Ok(Read(v, k + next))
  {
    SliceInside(b, k, a, i, ReadSlice(a, i).value.value, next);
  }

  lemma NumberInside(b: seq<Byte>, k: nat, a: seq<Byte>, i: nat, kind: Kind, v: Value, next: nat)
    requires !kind.Boolean? && !kind.Text?
    requires HasAt(b, k, a) && ReadScalar(kind, a, i) == Ok(Read(v, next))
    ensures ReadScalar(kind, b, k + i) == Ok(Read(v, k + next))
  {
    CodeInside(b, k, a, i, WireType(kind), ReadCode(WireType(kind), a, i).value.value, next);
  }

  lemma ScalarInside(b: seq<Byte>, k: nat, a: seq<Byte>, i: nat, kind: Kind, v: Value, next: nat)
    requires HasAt(b, k, a) && ReadScalar(kind, a, i) == Ok(Read(v, next))
    ensures ReadScalar(kind, b, k + i) == Ok(Read(v, k + next))
  {
    if kind.Boolean? {
      BoolInside(b, k, a, i, v, next);
    } else if kind.Text? {
      TextInside(b, k, a, i, v, next);
    } else {
      NumberInside(b, k, a, i, kind, v, next);
    }
  }

  ghost predicate ScalarIs(kind: Kind, b: seq<Byte>, i: nat, v: Value, next: nat) {
    ReadScalar(kind, b, i) == Ok(Read(v, next))
  }

  lemma ScalarIsInside(b: seq<Byte>, k: nat, a: seq<Byte>, i: nat, kind: Kind, v: Value, next: nat)
    requires HasAt(b, k, a) && ScalarIs(kind, a, i, v, next)
    ensures ScalarIs(kind, b, k + i, v, k + next)
  {
    ScalarInside(b, k, a, i, kind, v, next);
  }

  lemma PackedFirst(kind: Kind, a: seq<Byte>, i: nat, end: nat, items: seq<Value>) returns (v: Value, next: nat)
    requires i < end && Packed(kind, a, i, end) == Ok(items)
    ensures IsPackable(kind) && items != [] && v == items[0] && ScalarIs(kind, a, i, v, next) && i < next <= |a|
    ensures Packed(kind, a, next, end) == Ok(items[1..])
  {
    v, next := ReadScalar(kind, a, i).value.value, ReadScalar(kind, a, i).value.next;
  }

  lemma PackedMore(kind: Kind, b: seq<Byte>, i: nat, end: nat, items: seq<Value>, next: nat)
    requires IsPackable(kind) && i < end && items != [] && ScalarIs(kind, b, i, items[0], next)
    requires Packed(kind, b, next, end) == Ok(items[1..])
    ensures Packed(kind, b, i, end) == Ok(items)
  {
    PackedNext(kind, b, i, end, items[0], next, items[1..]);
    assert items == [items[0]] + items[1..];
  }

  lemma {:induction false} PackedInside(b: seq<Byte>, k: nat, a: seq<Byte>, i: nat, kind: Kind, end: nat, items: seq<Value>)
    requires HasAt(b, k, a) && Packed(kind, a, i, end) == Ok(items)
    ensures Packed(kind, b, k + i, k + end) == Ok(items)
    decreases |a| - i
  {
    if i < end {
      var v, next := PackedFirst(kind, a, i, end, items);
      ScalarIsInside(b, k, a, i, kind, v, next);
      PackedInside(b, k, a, next, kind, end, items[1..]);
      PackedMore(kind, b, k + i, k + end, items, k + next);
    }
  }

  lemma ListParts(kind: Kind, a: seq<Byte>, i: nat, v: Value, next: nat) returns (start: nat)
    requires DecodeList(kind, a, i) == Ok(Read(v, next))
    ensures v.Arr? && ReadSpan(a, i) == Ok(Span(start, next)) && Packed(kind, a, start, next) == Ok(v.items)
  {
    start := ReadSpan(a, i).value.start;
  }

  lemma ListInside(b: seq<Byte>, k: nat, a: seq<Byte>, i: nat, kind: Kind, v: Value, next: nat)
    requires HasAt(b, k, a) && DecodeList(kind, a, i) == Ok(Read(v, next))
    ensures DecodeList(kind, b, k + i) == Ok(Read(v, k + next))
  {
    var start := ListParts(kind, a, i, v, next);
    SpanInside(b, k, a, i, start, next);
    PackedInside(b, k, a, start, kind, next, v.items);
    ListFromSpan(kind, b, k + i, k + start, k + next, v.items);
  }

  lemma SingleInside(b: seq<Byte>, k: nat, a: seq<Byte>, i: nat, reg: Registry, f: Field, wire: nat, v: Value, next: nat)
    requires HasAt(b, k, a) && DecodeSingle(reg, f, wire, a, i) == Ok(Read(v, next))
    ensures DecodeSingle(reg, f, wire, b, k + i) == Ok(Read(v, k + next))
  {
    if f.kind.Message? {
      var g := ReadSlice(a, i).value;
      SliceInside(b, k, a, i, g.value, g.next);
    } else {
      ScalarInside(b, k, a, i, f.kind, v, next);
    }
  }

  /** What follows the key of a declared field. */
  ghost function FieldAt(reg: Registry, f: Field, wire: nat, b: seq<Byte>, i: nat): Result<Read<Value>> {
    DecodeField(reg, f, wire, b, i)
  }

  lemma FieldInside(b: seq<Byte>, k: nat, a: seq<Byte>, i: nat, reg: Registry, f: Field, wire: nat, v: Value, next: nat)
    requires HasAt(b, k, a) && FieldAt(reg, f, wire, a, i) == Ok(Read(v, next))
    ensures FieldAt(reg, f, wire, b, k + i) == Ok(Read(v, k + next))
  {
    if f.repeated && f.packable && wire == 2 {
      ListInside(b, k, a, i, f.kind, v, next);
    } else {
      SingleInside(b, k, a, i, reg, f, wire, v, next);
    }
  }

  lemma SkipInside(b: seq<Byte>, k: nat, a: seq<Byte>, i: nat, wire: nat, next: nat)
    requires HasAt(b, k, a) && i <= |a| && SkipValue(wire, a, i) == Ok(next)
    ensures SkipValue(wire, b, k + i) == Ok(k + next)
  {
    if wire == 0 {
      var g := ReadVarint(a, i).value;
      VarintInside(b, k, a, i, g.value, g.next);
    } else if wire == 2 {
      var g := ReadSlice(a, i).value;
      SliceInside(b, k, a, i, g.value, g.next);
    }
  }

  /** The field number of a key, as the decoder casts it. */
  function NumberOf(key: nat): nat {
    (key / 8) % TWO_32
  }

  /** A key with this number and wire type lies at `i`, and its payload starts at `start`. */
  ghost predicate KeyIs(b: seq<Byte>, i: nat, number: nat, wire: nat, start: nat) {
    && start <= |b|
    && exists key :: ReadVarint(b, i) == Ok(Read(key, start)) && NumberOf(key) == number && key % 8 == wire
  }

  ghost predicate FieldIs(reg: Registry, f: Field, wire: nat, b: seq<Byte>, i: nat, v: Value, next: nat) {
    FieldAt(reg, f, wire, b, i) == Ok(Read(v, next))
  }

  ghost predicate SkipIs(wire: nat, b: seq<Byte>, i: nat, next: nat) {
    i <= |b| && SkipValue(wire, b, i) == Ok(next)
  }

  /** One field decoded at `i` takes the output so far to `out'` and the index to `j`. */
  ghost predicate OneIs(reg: Registry, s: Schema, b: seq<Byte>, i: nat, out: map<string, Value>, j: nat, out': map<string, Value>) {
    One(reg, s, b, i, out) == Ok(Read(out', j))
  }

  lemma KeyOfOne(reg: Registry, s: Schema, b: seq<Byte>, i: nat, out: map<string, Value>, out': map<string, Value>, next: nat)
    returns (number: nat, wire: nat, start: nat)
    requires OneIs(reg, s, b, i, out, next, out')
    ensures KeyIs(b, i, number, wire, start)
  {
    var key := ReadVarint(b, i).value;
    number, wire, start := NumberOf(key.value), key.value % 8, key.next;
  }

  lemma DeclaredOne(reg: Registry, s: Schema, b: seq<Byte>, i: nat, number: nat, wire: nat, start: nat, out: map<string, Value>,
                    v: Value, next: nat)
    requires KeyIs(b, i, number, wire, start) && number in s.byNumber && FieldIs(reg, s.byNumber[number], wire, b, start, v, next)
    ensures OneIs(reg, s, b, i, out, next, Append(out, s.byNumber[number].name, v, s.byNumber[number].repeated))
  {
  }

  lemma DeclaredValue(reg: Registry, s: Schema, b: seq<Byte>, i: nat, number: nat, wire: nat, start: nat, out: map<string, Value>,
                      out': map<string, Value>, next: nat) returns (v: Value)
    requires KeyIs(b, i, number, wire, start) && number in s.byNumber && OneIs(reg, s, b, i, out, next, out')
    ensures FieldIs(reg, s.byNumber[number], wire, b, start, v, next)
    ensures out' == Append(out, s.byNumber[number].name, v, s.byNumber[number].repeated)
  {
    v := FieldAt(reg, s.byNumber[number], wire, b, start).value.value;
  }

  lemma UndeclaredOne(reg: Registry, s: Schema, b: seq<Byte>, i: nat, number: nat, wire: nat, start: nat, out: map<string, Value>,
                      next: nat)
    requires KeyIs(b, i, number, wire, start) && number !in s.byNumber && SkipIs(wire, b, start, next)
    ensures OneIs(reg, s, b, i, out, next, out)
  {
  }

  lemma UndeclaredValue(reg: Registry, s: Schema, b: seq<Byte>, i: nat, number: nat, wire: nat, start: nat, out: map<string, Value>,
                        out': map<string, Value>, next: nat)
    requires KeyIs(b, i, number, wire, start) && number !in s.byNumber && OneIs(reg, s, b, i, out, next, out')
    ensures SkipIs(wire, b, start, next) && out' == out
  {
  }

  lemma KeyInside(b: seq<Byte>, k: nat, a: seq<Byte>, i: nat, number: nat, wire: nat, start: nat)
    requires HasAt(b, k, a) && KeyIs(a, i, number, wire, start)
    ensures KeyIs(b, k + i, number, wire, k + start)
  {
    VarintInside(b, k, a, i, ReadVarint(a, i).value.value, start);
  }

  lemma FieldIsInside(b: seq<Byte>, k: nat, a: seq<Byte>, i: nat, reg: Registry, f: Field, wire: nat, v: Value, next: nat)
    requires HasAt(b, k, a) && FieldIs(reg, f, wire, a, i, v, next)
    ensures FieldIs(reg, f, wire, b, k + i, v, k + next)
  {
    FieldInside(b, k, a, i, reg, f, wire, v, next);
  }

  lemma SkipIsInside(b: seq<Byte>, k: nat, a: seq<Byte>, i: nat, wire: nat, next: nat)
    requires HasAt(b, k, a) && SkipIs(wire, a, i, next)
    ensures SkipIs(wire, b, k + i, k + next)
  {
    SkipInside(b, k, a, i, wire, next);
  }

  lemma DeclaredInside(b: seq<Byte>, k: nat, a: seq<Byte>, i: nat, reg: Registry, s: Schema, out: map<string, Value>,
                       out': map<string, Value>, next: nat, number: nat, wire: nat, start: nat)
    requires HasAt(b, k, a) && OneIs(reg, s, a, i, out, next, out') && KeyIs(a, i, number, wire, start) && number in s.byNumber
    ensures OneIs(reg, s, b, k + i, out, k + next, out')
  {
    var v := DeclaredValue(reg, s, a, i, number, wire, start, out, out', next);
    KeyInside(b, k, a, i, number, wire, start);
    FieldIsInside(b, k, a, start, reg, s.byNumber[number], wire, v, next);
    DeclaredOne(reg, s, b, k + i, number, wire, k + start, out, v, k + next);
  }

  lemma UndeclaredInside(b: seq<Byte>, k: nat, a: seq<Byte>, i: nat, reg: Registry, s: Schema, out: map<string, Value>,
                         out': map<string, Value>, next: nat, number: nat, wire: nat, start: nat)
    requires HasAt(b, k, a) && OneIs(reg, s, a, i, out, next, out') && KeyIs(a, i, number, wire, start) && number !in s.byNumber
    ensures OneIs(reg, s, b, k + i, out, k + next, out')
  {
    UndeclaredValue(reg, s, a, i, number, wire, start, out, out', next);
    KeyInside(b, k, a, i, number, wire, start);
    SkipIsInside(b, k, a, start, wire, next);
    UndeclaredOne(reg, s, b, k + i, number, wire, k + start, out, k + next);
  }

  lemma OneInside(b: seq<Byte>, k: nat, a: seq<Byte>, i: nat, reg: Registry, s: Schema, out: map<string, Value>,
                  out': map<string, Value>, next: nat)
    requires HasAt(b, k, a) && OneIs(reg, s, a, i, out, next, out')
    ensures OneIs(reg, s, b, k + i, out, k + next, out')
  {
    var number, wire, start := KeyOfOne(reg, s, a, i, out, out', next);
    if number in s.byNumber {
      DeclaredInside(b, k, a, i, reg, s, out, out', next, number, wire, start);
    } else {
      UndeclaredInside(b, k, a, i, reg, s, out, out', next, number, wire, start);
    }
  }

  lemma RestEnds(reg: Registry, s: Schema, b: seq<Byte>, out: map<string, Value>)
    ensures Rest(reg, s, b, |b|, out) == Ok(Obj(out))
  {
  }

  /** Decoding goes field by field, and fails with the first field that does. */
  lemma RestStep(reg: Registry, s: Schema, b: seq<Byte>, i: nat, out: map<string, Value>)
    requires i < |b|
    ensures match One(reg, s, b, i, out)
            case Err => Rest(reg, s, b, i, out) == Err
            case Ok(g) => i < g.next <= |b| && Rest(reg, s, b, i, out) == Rest(reg, s, b, g.next, g.value)
  {
  }

  /** Decoding from `i` with `out` comes to the same as decoding from `j` with `out'`. */
  ghost predicate Leads(reg: Registry, s: Schema, b: seq<Byte>, i: nat, out: map<string, Value>, j: nat, out': map<string, Value>) {
    Rest(reg, s, b, i, out) == Rest(reg, s, b, j, out')
  }

  ghost predicate Gives(reg: Registry, s: Schema, b: seq<Byte>, i: nat, out: map<string, Value>, out': map<string, Value>) {
    Rest(reg, s, b, i, out) == Ok(Obj(out'))
  }

  lemma OneLeads(reg: Registry, s: Schema, b: seq<Byte>, i: nat, out: map<string, Value>, out': map<string, Value>, next: nat)
    requires One(reg, s, b, i, out) == Ok(Read(out', next))
    ensures Leads(reg, s, b, i, out, next, out')
  {
    DecodeNext(reg, s, b, i, out, next, out');
  }

  lemma NextField(reg: Registry, s: Schema, b: seq<Byte>, i: nat, out: map<string, Value>, end: map<string, Value>)
    returns (out': map<string, Value>, next: nat)
    requires i < |b| && Gives(reg, s, b, i, out, end)
    ensures One(reg, s, b, i, out) == Ok(Read(out', next)) && i < next <= |b|
    ensures Gives(reg, s, b, next, out', end)
  {
    RestStep(reg, s, b, i, out);
    out', next := One(reg, s, b, i, out).value.value, One(reg, s, b, i, out).value.next;
  }

  lemma LeadsOn(reg: Registry, s: Schema, b: seq<Byte>, i: nat, out: map<string, Value>, j: nat, out': map<string, Value>, k: nat,
                out'': map<string, Value>)
    requires Leads(reg, s, b, i, out, j, out') && Leads(reg, s, b, j, out', k, out'')
    ensures Leads(reg, s, b, i, out, k, out'')
  {
  }

  lemma GivesAtEnd(reg: Registry, s: Schema, b: seq<Byte>, out: map<string, Value>, out': map<string, Value>)
    requires Gives(reg, s, b, |b|, out, out')
    ensures out == out'
  {
    RestEnds(reg, s, b, out);
  }

  /** A place between two fields and the output so far. */
  datatype Place = Place(at: nat, out: map<string, Value>)

  ghost predicate Trace(reg: Registry, s: Schema, b: seq<Byte>, places: seq<Place>) {
    && places != []
    && forall n :: 0 <= n < |places| - 1 ==> OneIs(reg, s, b, places[n].at, places[n].out, places[n + 1].at, places[n + 1].out)
  }

  lemma {:induction false} TraceOf(reg: Registry, s: Schema, a: seq<Byte>, i: nat, out: map<string, Value>, end: map<string, Value>)
    returns (places: seq<Place>)
    requires i <= |a| && Gives(reg, s, a, i, out, end)
    ensures Trace(reg, s, a, places) && places[0] == Place(i, out) && places[|places| - 1] == Place(|a|, end)
    decreases |a| - i
  {
    if i == |a| {
      GivesAtEnd(reg, s, a, out, end);
      places := [Place(i, out)];
    } else {
      var mid, next := NextField(reg, s, a, i, out, end);
      var rest := TraceOf(reg, s, a, next, mid, end);
      assert OneIs(reg, s, a, i, out, next, mid);
      places := [Place(i, out)] + rest;
    }
  }

  lemma OneIsInside(b: seq<Byte>, k: nat, a: seq<Byte>, reg: Registry, s: Schema, p: Place, q: Place)
    requires HasAt(b, k, a) && OneIs(reg, s, a, p.at, p.out, q.at, q.out)
    ensures OneIs(reg, s, b, k + p.at, p.out, k + q.at, q.out)
  {
    OneInside(b, k, a, p.at, reg, s, p.out, q.out, q.at);
  }

  function Shifted(places: seq<Place>, k: nat): (r: seq<Place>)
    ensures |r| == |places| && forall n :: 0 <= n < |r| ==> r[n] == Place(k + places[n].at, places[n].out)
  {
    seq(|places|, n requires 0 <= n < |places| => Place(k + places[n].at, places[n].out))
  }

  lemma TraceInside(b: seq<Byte>, k: nat, a: seq<Byte>, reg: Registry, s: Schema, places: seq<Place>)
    requires HasAt(b, k, a) && Trace(reg, s, a, places)
    ensures Trace(reg, s, b, Shifted(places, k))
  {
    var r := Shifted(places, k);
    forall n | 0 <= n < |r| - 1 ensures OneIs(reg, s, b, r[n].at, r[n].out, r[n + 1].at, r[n + 1].out) {
      OneIsInside(b, k, a, reg, s, places[n], places[n + 1]);
    }
  }

  lemma {:induction false} TraceLeads(reg: Registry, s: Schema, b: seq<Byte>, places: seq<Place>)
    requires Trace(reg, s, b, places)
    ensures var n := |places| - 1; Leads(reg, s, b, places[0].at, places[0].out, places[n].at, places[n].out)
    decreases |places|
  {
    if |places| > 1 {
      var rest, n := places[1..], |places| - 1;
      forall m | 0 <= m < |rest| - 1 ensures OneIs(reg, s, b, rest[m].at, rest[m].out, rest[m + 1].at, rest[m + 1].out) {
        assert rest[m] == places[m + 1] && rest[m + 1] == places[m + 2];
      }
      TraceLeads(reg, s, b, rest);
      assert OneIs(reg, s, b, places[0].at, places[0].out, places[1].at, places[1].out);
      OneLeads(reg, s, b, places[0].at, places[0].out, places[1].out, places[1].at);
      LeadsOn(reg, s, b, places[0].at, places[0].out, places[1].at, places[1].out, places[n].at, places[n].out);
    }
  }

  /** Complete fields `a` inside a buffer are decoded as on their own, and decoding goes on after them. */
  lemma FieldsInside(b: seq<Byte>, k: nat, a: seq<Byte>, reg: Registry, s: Schema, out: map<string, Value>, out': map<string, Value>)
    requires HasAt(b, k, a) && Gives(reg, s, a, 0, out, out')
    ensures Leads(reg, s, b, k, out, k + |a|, out')
  {
    var places := TraceOf(reg, s, a, 0, out, out');
    TraceInside(b, k, a, reg, s, places);
    TraceLeads(reg, s, b, Shifted(places, k));
  }

  // ---- Reading at the end of a larger buffer -----------------------------------------------------

  /** `a` is the rest of `b` from `k` on. */
  predicate Tail(b: seq<Byte>, k: nat, a: seq<Byte>) {
    HasAt(b, k, a) && k + |a| == |b|
  }

  lemma {:induction false} GroupsOfTail(b: seq<Byte>, k: nat, a: seq<Byte>, i: nat, room: nat)
    requires Tail(b, k, a) && GroupsAt(b, k + i, room).Ok?
    ensures GroupsAt(a, i, room).Ok?
    decreases room
  {
    ByteInside(b, k, a, i);
    if a[i] >= 128 {
      GroupsOfTail(b, k, a, i + 1, room - 1);
    }
  }

  lemma VarintOfTail(b: seq<Byte>, k: nat, a: seq<Byte>, i: nat)
    requires Tail(b, k, a) && ReadVarint(b, k + i).Ok?
    ensures ReadVarint(a, i).Ok?
  {
    GroupsOfTail(b, k, a, i, 10);
  }

  lemma SpanOfTail(b: seq<Byte>, k: nat, a: seq<Byte>, i: nat)
    requires Tail(b, k, a) && ReadSpan(b, k + i).Ok?
    ensures ReadSpan(a, i).Ok?
  {
    VarintOfTail(b, k, a, i);
    var g := ReadVarint(a, i).value;
    VarintInside(b, k, a, i, g.value, g.next);
  }

  lemma SliceOfTail(b: seq<Byte>, k: nat, a: seq<Byte>, i: nat)
    requires Tail(b, k, a) && ReadSlice(b, k + i).Ok?
    ensures ReadSlice(a, i).Ok?
  {
    SpanOfTail(b, k, a, i);
  }

  lemma ScalarOfTail(b: seq<Byte>, k: nat, a: seq<Byte>, i: nat, kind: Kind)
    requires Tail(b, k, a) && ReadScalar(kind, b, k + i).Ok?
    ensures ReadScalar(kind, a, i).Ok?
  {
    if kind.Text? {
      SliceOfTail(b, k, a, i);
      var g := ReadSlice(a, i).value;
      SliceInside(b, k, a, i, g.value, g.next);
    } else if kind.Boolean? || (WireType(kind) != 1 && WireType(kind) != 5) {
      VarintOfTail(b, k, a, i);
    }
  }

  lemma ScalarIsOfTail(b: seq<Byte>, k: nat, a: seq<Byte>, i: nat, kind: Kind, v: Value, next: nat) returns (next': nat)
    requires Tail(b, k, a) && ScalarIs(kind, b, k + i, v, next)
    ensures next == k + next' && i < next' <= |a| && ScalarIs(kind, a, i, v, next')
  {
    ScalarOfTail(b, k, a, i, kind);
    next' := ReadScalar(kind, a, i).value.next;
    ScalarInside(b, k, a, i, kind, ReadScalar(kind, a, i).value.value, next');
  }

  lemma {:induction false} PackedOfTail(b: seq<Byte>, k: nat, a: seq<Byte>, i: nat, kind: Kind, end: nat, items: seq<Value>)
    requires Tail(b, k, a) && Packed(kind, b, k + i, k + end) == Ok(items)
    ensures Packed(kind, a, i, end) == Ok(items)
    decreases |a| - i
  {
    if i < end {
      var v, next := PackedFirst(kind, b, k + i, k + end, items);
      var next' := ScalarIsOfTail(b, k, a, i, kind, v, next);
      PackedOfTail(b, k, a, next', kind, end, items[1..]);
      PackedMore(kind, a, i, end, items, next');
    }
  }

  lemma SpanOfTailIs(b: seq<Byte>, k: nat, a: seq<Byte>, i: nat, start: nat, end: nat) returns (start': nat, end': nat)
    requires Tail(b, k, a) && ReadSpan(b, k + i) == Ok(Span(start, end))
    ensures start == k + start' && end == k + end' && ReadSpan(a, i) == Ok(Span(start', end'))
  {
    SpanOfTail(b, k, a, i);
    start', end' := ReadSpan(a, i).value.start, ReadSpan(a, i).value.end;
    SpanInside(b, k, a, i, start', end');
  }

  lemma ListOfTail(b: seq<Byte>, k: nat, a: seq<Byte>, i: nat, kind: Kind, v: Value, next: nat)
    requires Tail(b, k, a) && DecodeList(kind, b, k + i) == Ok(Read(v, next))
    ensures DecodeList(kind, a, i).Ok?
  {
    var start := ListParts(kind, b, k + i, v, next);
    var start', end' := SpanOfTailIs(b, k, a, i, start, next);
    PackedOfTail(b, k, a, start', kind, end', v.items);
    ListFromSpan(kind, a, i, start', end', v.items);
  }

  lemma SingleOfTail(b: seq<Byte>, k: nat, a: seq<Byte>, i: nat, reg: Registry, f: Field, wire: nat)
    requires Tail(b, k, a) && DecodeSingle(reg, f, wire, b, k + i).Ok?
    ensures DecodeSingle(reg, f, wire, a, i).Ok?
  {
    if f.kind.Message? {
      SliceOfTail(b, k, a, i);
      var g := ReadSlice(a, i).value;
      SliceInside(b, k, a, i, g.value, g.next);
    } else {
      ScalarOfTail(b, k, a, i, f.kind);
    }
  }

  lemma FieldOfTail(b: seq<Byte>, k: nat, a: seq<Byte>, i: nat, reg: Registry, f: Field, wire: nat)
    requires Tail(b, k, a) && FieldAt(reg, f, wire, b, k + i).Ok?
    ensures FieldAt(reg, f, wire, a, i).Ok?
  {
    if f.repeated && f.packable && wire == 2 {
      var g := DecodeList(f.kind, b, k + i).value;
      ListOfTail(b, k, a, i, f.kind, g.value, g.next);
    } else {
      SingleOfTail(b, k, a, i, reg, f, wire);
    }
  }

  lemma SkipOfTail(b: seq<Byte>, k: nat, a: seq<Byte>, i: nat, wire: nat)
    requires Tail(b, k, a) && i <= |a| && SkipValue(wire, b, k + i).Ok?
    ensures SkipValue(wire, a, i).Ok?
  {
    if wire == 0 {
      VarintOfTail(b, k, a, i);
    } else if wire == 2 {
      SliceOfTail(b, k, a, i);
    }
  }

  lemma KeyOfTail(b: seq<Byte>, k: nat, a: seq<Byte>, i: nat, number: nat, wire: nat, start: nat) returns (start': nat)
    requires Tail(b, k, a) && KeyIs(b, k + i, number, wire, start)
    ensures start == k + start' && KeyIs(a, i, number, wire, start')
  {
    VarintOfTail(b, k, a, i);
    start' := ReadVarint(a, i).value.next;
    VarintInside(b, k, a, i, ReadVarint(a, i).value.value, start');
  }

  lemma FieldIsOfTail(b: seq<Byte>, k: nat, a: seq<Byte>, i: nat, reg: Registry, f: Field, wire: nat, v: Value, next: nat)
    returns (next': nat)
    requires Tail(b, k, a) && FieldIs(reg, f, wire, b, k + i, v, next)
    ensures next == k + next' && FieldIs(reg, f, wire, a, i, v, next')
  {
    FieldOfTail(b, k, a, i, reg, f, wire);
    next' := FieldAt(reg, f, wire, a, i).value.next;
    FieldInside(b, k, a, i, reg, f, wire, FieldAt(reg, f, wire, a, i).value.value, next');
  }

  lemma SkipIsOfTail(b: seq<Byte>, k: nat, a: seq<Byte>, i: nat, wire: nat, next: nat) returns (next': nat)
    requires Tail(b, k, a) && i <= |a| && SkipIs(wire, b, k + i, next)
    ensures next == k + next' && SkipIs(wire, a, i, next')
  {
    SkipOfTail(b, k, a, i, wire);
    next' := SkipValue(wire, a, i).value;
    SkipInside(b, k, a, i, wire, next');
  }

  lemma DeclaredOfTail(b: seq<Byte>, k: nat, a: seq<Byte>, i: nat, reg: Registry, s: Schema, out: map<string, Value>,
                       out': map<string, Value>, next: nat, number: nat, wire: nat, start: nat) returns (next': nat)
    requires Tail(b, k, a) && OneIs(reg, s, b, k + i, out, next, out') && KeyIs(b, k + i, number, wire, start) && number in s.byNumber
    ensures next == k + next' && OneIs(reg, s, a, i, out, next', out')
  {
    var v := DeclaredValue(reg, s, b, k + i, number, wire, start, out, out', next);
    var start' := KeyOfTail(b, k, a, i, number, wire, start);
    next' := FieldIsOfTail(b, k, a, start', reg, s.byNumber[number], wire, v, next);
    DeclaredOne(reg, s, a, i, number, wire, start', out, v, next');
  }

  lemma UndeclaredOfTail(b: seq<Byte>, k: nat, a: seq<Byte>, i: nat, reg: Registry, s: Schema, out: map<string, Value>,
                         out': map<string, Value>, next: nat, number: nat, wire: nat, start: nat) returns (next': nat)
    requires Tail(b, k, a) && OneIs(reg, s, b, k + i, out, next, out') && KeyIs(b, k + i, number, wire, start) && number !in s.byNumber
    ensures next == k + next' && OneIs(reg, s, a, i, out, next', out')
  {
    UndeclaredValue(reg, s, b, k + i, number, wire, start, out, out', next);
    var start' := KeyOfTail(b, k, a, i, number, wire, start);
    next' := SkipIsOfTail(b, k, a, start', wire, next);
    UndeclaredOne(reg, s, a, i, number, wire, start', out, next');
  }

  lemma OneOfTail(b: seq<Byte>, k: nat, a: seq<Byte>, i: nat, reg: Registry, s: Schema, out: map<string, Value>,
                  out': map<string, Value>, next: nat) returns (next': nat)
    requires Tail(b, k, a) && OneIs(reg, s, b, k + i, out, next, out')
    ensures next == k + next' && OneIs(reg, s, a, i, out, next', out')
  {
    var number, wire, start := KeyOfOne(reg, s, b, k + i, out, out', next);
    if number in s.byNumber {
      next' := DeclaredOfTail(b, k, a, i, reg, s, out, out', next, number, wire, start);
    } else {
      next' := UndeclaredOfTail(b, k, a, i, reg, s, out, out', next, number, wire, start);
    }
  }

  /** What follows the first `k` bytes decodes the same wherever it lies, errors included. */
  lemma {:induction false} TailDecodesAlone(b: seq<Byte>, k: nat, a: seq<Byte>, i: nat, reg: Registry, s: Schema,
                                            out: map<string, Value>)
    requires Tail(b, k, a) && i <= |a|
    ensures Rest(reg, s, b, k + i, out) == Rest(reg, s, a, i, out)
    decreases |a| - i
  {
    if i == |a| {
      RestEnds(reg, s, a, out);
      RestEnds(reg, s, b, out);
    } else {
      RestStep(reg, s, a, i, out);
      RestStep(reg, s, b, k + i, out);
      var here, there := One(reg, s, a, i, out), One(reg, s, b, k + i, out);
      if here.Ok? {
        assert OneIs(reg, s, a, i, out, here.value.next, here.value.value);
        OneInside(b, k, a, i, reg, s, out, here.value.value, here.value.next);
        TailDecodesAlone(b, k, a, here.value.next, reg, s, here.value.value);
      } else if there.Ok? {
        assert OneIs(reg, s, b, k + i, out, there.value.next, there.value.value);
        var next := OneOfTail(b, k, a, i, reg, s, out, there.value.value, there.value.next);
      }
    }
  }

  // ---- Undeclared fields -------------------------------------------------------------------------

  /** The payloads a field can have on the wire: a varint, eight bytes, a counted stretch, or four bytes. */
  ghost predicate IsPayload(wire: nat, p: seq<Byte>) {
    match wire
    case 0 => exists v: nat :: v < TWO_64 && p == Varint(v)
    case 1 => |p| == 8
    case 2 => exists body: seq<Byte> :: |body| < TWO_64 && p == Varint(|body|) + body
    case 5 => |p| == 4
    case _ => false
  }

  /** A whole field with a number that the schema does not declare. */
  ghost predicate IsUndeclared(s: Schema, number: nat, wire: nat, p: seq<Byte>) {
    number < TWO_32 && number !in s.byNumber && IsPayload(wire, p)
  }

  lemma PayloadIsSkipped(b: seq<Byte>, i: nat, wire: nat, p: seq<Byte>)
    requires IsPayload(wire, p) && HasAt(b, i, p)
    ensures SkipIs(wire, b, i, i + |p|)
  {
    if wire == 0 {
      var v: nat :| v < TWO_64 && p == Varint(v);
      VarintReadsBack(b, i, v);
    } else if wire == 2 {
      var body: seq<Byte> :| |body| < TWO_64 && p == Varint(|body|) + body;
      SliceReadsBack(b, i, body);
    }
  }

  lemma KeyParts(number: nat, wire: nat)
    requires number < TWO_32 && wire < 8
    ensures 8 * number + wire < TWO_64 && NumberOf(8 * number + wire) == number && (8 * number + wire) % 8 == wire
  {
    assert (8 * number + wire) / 8 == number;
    SmallRemainder(number, TWO_32);
  }

  /** A key lies at `i` and its payload at `j`. */
  lemma KeyThen(b: seq<Byte>, i: nat, number: nat, wire: nat, p: seq<Byte>) returns (j: nat)
    requires number < TWO_32 && wire < 8 && HasAt(b, i, Key(number, wire) + p)
    ensures KeyIs(b, i, number, wire, j) && HasAt(b, j, p) && j + |p| == i + |Key(number, wire) + p|
  {
    KeyParts(number, wire);
    HasAtSplit(b, i, Key(number, wire), p);
    VarintReadsBack(b, i, 8 * number + wire);
    j := i + |Key(number, wire)|;
  }

  lemma UndeclaredIsOneStep(reg: Registry, s: Schema, b: seq<Byte>, i: nat, number: nat, wire: nat, p: seq<Byte>,
                            out: map<string, Value>)
    requires IsUndeclared(s, number, wire, p) && HasAt(b, i, Key(number, wire) + p)
    ensures OneIs(reg, s, b, i, out, i + |Key(number, wire) + p|, out)
  {
    var j := KeyThen(b, i, number, wire, p);
    PayloadIsSkipped(b, j, wire, p);
    UndeclaredOne(reg, s, b, i, number, wire, j, out, j + |p|);
  }

  /**
   Undeclared fields are transparent: put between complete fields `a` and any bytes `c`, a field the
   schema does not know changes neither the decoded message nor whether decoding fails.
   */
  lemma UndeclaredFieldsAreTransparent(reg: Registry, name: string, a: seq<Byte>, number: nat, wire: nat, p: seq<Byte>,
                                       c: seq<Byte>)
    requires name in reg && DecodeMessage(reg, name, a).Ok? && IsUndeclared(reg[name], number, wire, p)
    ensures DecodeMessage(reg, name, a + (Key(number, wire) + p) + c) == DecodeMessage(reg, name, a + c)
  {
    var s, u := reg[name], Key(number, wire) + p;
    var m := CompleteFields(reg, name, a);
    GoesOnAfter(reg, s, a, u + c, m);
    GoesOnAfter(reg, s, a, c, m);
    assert a + u + c == a + (u + c);
    assert HasAt(u + c, 0, u);
    UndeclaredIsOneStep(reg, s, u + c, 0, number, wire, p, m);
    DecodeNext(reg, s, u + c, 0, m, |u|, m);
    TailDecodesAlone(u + c, |u|, c, 0, reg, s, m);
  }

  /** After complete fields `a`, decoding is that of the rest, with what `a` decoded to. */
  lemma GoesOnAfter(reg: Registry, s: Schema, a: seq<Byte>, rest: seq<Byte>, m: map<string, Value>)
    requires Rest(reg, s, a, 0, map[]) == Ok(Obj(m))
    ensures Rest(reg, s, a + rest, 0, map[]) == Rest(reg, s, rest, 0, m)
  {
    var b := a + rest;
    assert HasAt(b, 0, a) && Tail(b, |a|, rest);
    FieldsInside(b, 0, a, reg, s, map[], m);
    TailDecodesAlone(b, |a|, rest, 0, reg, s, m);
  }

  lemma CompleteFields(reg: Registry, name: string, a: seq<Byte>) returns (m: map<string, Value>)
    requires name in reg && DecodeMessage(reg, name, a).Ok?
    ensures Rest(reg, reg[name], a, 0, map[]) == Ok(Obj(m))
  {
    DecodesToObject(reg, reg[name], a, 0, map[]);
    m := DecodeMessage(reg, name, a).value.fields;
  }

  lemma {:induction false} DecodesToObject(reg: Registry, s: Schema, b: seq<Byte>, i: nat, out: map<string, Value>)
    requires Rest(reg, s, b, i, out).Ok?
    ensures Rest(reg, s, b, i, out).value.Obj?
    decreases |b| - i
  {
    if i < |b| {
      RestStep(reg, s, b, i, out);
      DecodesToObject(reg, s, b, One(reg, s, b, i, out).value.next, One(reg, s, b, i, out).value.value);
    }
  }
}
