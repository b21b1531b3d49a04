/**
 Messages already in the form the decoder produces: proto field names, scalars of their field's kind,
 no empty unpacked list, at every depth. They encode, and come back as themselves exactly when they
 hold no packed list.
 */
module TypedMessages {
  import opened Common
  import opened Wire
  import opened Codec
  import opened Messages
  import opened MessageRoundTrip
  import opened PackedFields

  ghost predicate TypedMessage(reg: Registry, name: string, v: Value)
    decreases v, 2
  {
    && name in reg && v.Obj? && Known(reg[name], v.fields.Keys)
    && forall k :: k in v.fields ==> FieldOf(reg[name], k).name == k && TypedField(reg, FieldOf(reg[name], k), v.fields[k])
  }

  ghost predicate TypedField(reg: Registry, f: Field, v: Value)
    decreases v, 4
  {
    if !f.repeated then TypedSingle(reg, f, v)
    else v.Arr? && (f.packable || v.items != []) && forall n :: 0 <= n < |v.items| ==> TypedSingle(reg, f, v.items[n])
  }

  ghost predicate TypedSingle(reg: Registry, f: Field, v: Value)
    decreases v, 3
  {
    if f.kind.Message? then TypedMessage(reg, f.kind.name, v) else IsCanonical(f.kind, v)
  }

  // ---- Typed messages are proper -----------------------------------------------------------------

  lemma {:induction false} TypedIsProper(reg: Registry, name: string, v: Value)
    requires TypedMessage(reg, name, v)
    ensures ProperMessage(reg, name, v)
    decreases v, 2
  {
    forall k | k in v.fields ensures ProperField(reg, FieldOf(reg[name], k), v.fields[k]) {
      TypedFieldIsProper(reg, FieldOf(reg[name], k), v.fields[k]);
    }
  }

  lemma {:induction false} TypedFieldIsProper(reg: Registry, f: Field, v: Value)
    requires TypedField(reg, f, v)
    ensures ProperField(reg, f, v)
    decreases v, 4
  {
    if f.repeated {
      forall n | 0 <= n < |v.items| ensures ProperSingle(reg, f, v.items[n]) {
        TypedSingleIsProper(reg, f, v.items[n]);
      }
    } else {
      TypedSingleIsProper(reg, f, v);
    }
  }

  lemma {:induction false} TypedSingleIsProper(reg: Registry, f: Field, v: Value)
    requires TypedSingle(reg, f, v)
    ensures ProperSingle(reg, f, v)
    decreases v, 3
  {
    if f.kind.Message? {
      TypedIsProper(reg, f.kind.name, v);
    }
  }

  // ---- Typed messages are their own image --------------------------------------------------------

  lemma CanonicalStays(kind: Kind, c: Value)
    requires IsCanonical(kind, c) && !kind.Message?
    ensures Canonical(kind, c) == Ok(c) && CanonicalBytes(kind, c).Ok?
  {
  }

  lemma {:induction false} CanonicalItemsStay(kind: Kind, items: seq<Value>)
    requires !kind.Message? && forall n :: 0 <= n < |items| ==> IsCanonical(kind, items[n])
    ensures CanonicalItems(kind, items) == items
    ensures IsPackable(kind) ==> PackedBytes(kind, items).Ok?
  {
    if items != [] {
      CanonicalStays(kind, items[0]);
      CanonicalItemsStay(kind, items[1..]);
      assert items == [items[0]] + items[1..];
    }
  }

  lemma {:induction false} TypedImage(reg: Registry, name: string, v: Value)
    requires WellFormed(reg) && TypedMessage(reg, name, v)
    ensures ImageMessage(reg, false, name, v) == v
    decreases v, 2
  {
    TypedIsProper(reg, name, v);
    var image := ImageMessage(reg, false, name, v);
    forall k | k in v.fields ensures Says(image.fields, k, Some(v.fields[k])) {
      ImageOfField(reg, false, name, v, k);
      TypedFieldImage(reg, FieldOf(reg[name], k), v.fields[k]);
    }
    forall x | x !in v.fields ensures x !in image.fields {
      ImageHasNoOtherField(reg, false, name, v, x);
    }
    assert image.fields == v.fields;
  }

  lemma {:induction false} TypedFieldImage(reg: Registry, f: Field, v: Value)
    requires WellFormed(reg) && TypedField(reg, f, v) && f.packable == IsPackable(f.kind)
    ensures ImageField(reg, false, f, v) == Some(v)
    decreases v, 5
  {
    if !f.repeated {
      TypedSingleImage(reg, f, v);
    } else if f.packable {
      CanonicalItemsStay(f.kind, v.items);
    } else {
      TypedItemsImage(reg, f, v, |v.items|);
      assert v.items[..|v.items|] == v.items;
    }
  }

  lemma {:induction false} TypedItemsImage(reg: Registry, f: Field, v: Value, n: nat)
    requires WellFormed(reg) && v.Arr? && n <= |v.items| && forall m :: 0 <= m < |v.items| ==> TypedSingle(reg, f, v.items[m])
    ensures ImageItems(reg, false, f, v, n) == v.items[..n]
    decreases v, 4, n
  {
    if n > 0 {
      TypedItemsImage(reg, f, v, n - 1);
      TypedSingleImage(reg, f, v.items[n - 1]);
    }
  }

  lemma {:induction false} TypedSingleImage(reg: Registry, f: Field, v: Value)
    requires WellFormed(reg) && TypedSingle(reg, f, v)
    ensures ImageSingle(reg, false, f, v) == v
    decreases v, 3
  {
    if f.kind.Message? {
      TypedImage(reg, f.kind.name, v);
    } else {
      CanonicalStays(f.kind, v);
    }
  }

  // ---- Typed messages encode ---------------------------------------------------------------------

  lemma {:induction false} TypedEncodes(reg: Registry, name: string, v: Value)
    requires WellFormed(reg) && TypedMessage(reg, name, v)
    ensures EncodeMessage(reg, name, v).Ok?
    decreases v, 2
  {
    ArrangementCovers(reg[name], v.fields.Keys);
    TypedFieldsEncode(reg, reg[name], v, Arrangement(reg[name], v.fields.Keys));
  }

  lemma {:induction false} TypedFieldsEncode(reg: Registry, s: Schema, v: Value, keys: seq<string>)
    requires WellFormed(reg) && WellFormedSchema(s) && v.Obj? && Known(s, v.fields.Keys)
    requires forall k :: k in v.fields ==> TypedField(reg, FieldOf(s, k), v.fields[k])
    requires forall n :: 0 <= n < |keys| ==> keys[n] in v.fields
    ensures EncodeFields(reg, s, v, keys).Ok?
    decreases v, 1, |keys|
  {
    if keys != [] {
      TypedFieldEncodes(reg, FieldOf(s, keys[0]), v.fields[keys[0]]);
      TypedFieldsEncode(reg, s, v, keys[1..]);
    }
  }

  lemma {:induction false} TypedFieldEncodes(reg: Registry, f: Field, v: Value)
    requires WellFormed(reg) && TypedField(reg, f, v) && f.packable == IsPackable(f.kind)
    ensures EncodeField(reg, f, v).Ok?
    decreases v, 5
  {
    if !f.repeated {
      TypedSingleEncodes(reg, f, v);
    } else if f.packable {
      CanonicalItemsStay(f.kind, v.items);
    } else {
      TypedItemsEncode(reg, f, v, 0);
    }
  }

  lemma {:induction false} TypedItemsEncode(reg: Registry, f: Field, v: Value, n: nat)
    requires WellFormed(reg) && v.Arr? && n <= |v.items| && forall m :: 0 <= m < |v.items| ==> TypedSingle(reg, f, v.items[m])
    ensures EncodeItems(reg, f, v, n).Ok?
    decreases v, 4, |v.items| - n
  {
    if n < |v.items| {
      TypedSingleEncodes(reg, f, v.items[n]);
      TypedItemsEncode(reg, f, v, n + 1);
    }
  }

  lemma {:induction false} TypedSingleEncodes(reg: Registry, f: Field, v: Value)
    requires WellFormed(reg) && TypedSingle(reg, f, v)
    ensures EncodeSingle(reg, f, v).Ok?
    decreases v, 3
  {
    if f.kind.Message? {
      TypedEncodes(reg, f.kind.name, v);
    } else {
      CanonicalStays(f.kind, v);
    }
  }

  /** A typed message encodes, and decoding gives the very same value if and only if it holds no packed list. */
  lemma TypedRoundTrip(reg: Registry, name: string, v: Value)
    requires WellFormed(reg) && TypedMessage(reg, name, v)
    ensures EncodeMessage(reg, name, v).Ok?
    ensures var b := EncodeMessage(reg, name, v).value;
            |b| < TWO_64 ==> (DecodeMessage(reg, name, b) == Ok(v) <==> PackedFree(reg, name, v))
  {
    TypedEncodes(reg, name, v);
    TypedIsProper(reg, name, v);
    TypedImage(reg, name, v);
    var b := EncodeMessage(reg, name, v).value;
    if |b| < TWO_64 {
      RoundTripIsExactWithoutPackedLists(reg, name, v, b);
    }
  }
}
