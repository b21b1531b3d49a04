/**
 When a round trip is exact. Decoding a packed list gives a list that holds the list, so a message
 comes back as itself exactly when no packed list occurs anywhere in it.
 */
module PackedFields {
  import opened Common
  import opened Wire
  import opened Codec
  import opened Messages
  import opened MessageRoundTrip

  // ---- What an image contains ----------------------------------------------------------------

  /** Fields that are not among `keys` keep what `out` said of them. */
  lemma {:induction false} ImageKeeps(reg: Registry, wrap: bool, s: Schema, v: Value, keys: seq<string>,
                                      out: map<string, Value>, name: string)
    requires v.Obj? && Known(s, v.fields.Keys)
    requires forall n :: 0 <= n < |keys| ==> keys[n] in v.fields && FieldOf(s, keys[n]).name != name
    ensures var m := ImageFields(reg, wrap, s, v, keys, out);
            (name in m <==> name in out) && (name in out ==> m[name] == out[name])
    decreases |keys|
  {
    if keys != [] {
      var f := FieldOf(s, keys[0]);
      ImageKeeps(reg, wrap, s, v, keys[1..], Put(out, f.name, ImageField(reg, wrap, f, v.fields[keys[0]])), name);
    }
  }

  /** `m` says of `name` what `image` says. */
  predicate Says(m: map<string, Value>, name: string, image: Option<Value>) {
    (name in m <==> image.Some?) && (image.Some? ==> name in m && m[name] == image.value)
  }

  lemma {:induction false} ImageSays(reg: Registry, wrap: bool, s: Schema, v: Value, keys: seq<string>,
                                     out: map<string, Value>, n: nat)
    requires WellFormedSchema(s) && v.Obj? && Known(s, v.fields.Keys) && Ready(reg, s, v, keys, out) && n < |keys|
    ensures Says(ImageFields(reg, wrap, s, v, keys, out), FieldOf(s, keys[n]).name, ImageField(reg, wrap, FieldOf(s, keys[n]), v.fields[keys[n]]))
    decreases |keys|
  {
    var f := FieldOf(s, keys[0]);
    var out' := Put(out, f.name, ImageField(reg, wrap, f, v.fields[keys[0]]));
    if n == 0 {
      forall j | 0 <= j < |keys[1..]| ensures keys[1..][j] in v.fields && FieldOf(s, keys[1..][j]).name != f.name {
        assert s.byName[keys[0]] != s.byName[keys[j + 1]];
      }
      ImageKeeps(reg, wrap, s, v, keys[1..], out', f.name);
    } else {
      ReadyNext(reg, s, v, keys, out, ImageField(reg, wrap, f, v.fields[keys[0]]));
      ImageSays(reg, wrap, s, v, keys[1..], out', n - 1);
    }
  }

  /** The image of a message holds exactly the images of its fields, under their proto names. */
  lemma ImageOfField(reg: Registry, wrap: bool, name: string, v: Value, k: string)
    requires WellFormed(reg) && name in reg && v.Obj? && Known(reg[name], v.fields.Keys) && ProperMessage(reg, name, v)
    requires k in v.fields
    ensures ImageMessage(reg, wrap, name, v).Obj?
    ensures Says(ImageMessage(reg, wrap, name, v).fields, FieldOf(reg[name], k).name, ImageField(reg, wrap, FieldOf(reg[name], k), v.fields[k]))
  {
    var s := reg[name];
    var keys := Arrangement(s, v.fields.Keys);
    ArrangementCovers(s, v.fields.Keys);
    var n :| 0 <= n < |keys| && keys[n] == k;
    assert Ready(reg, s, v, keys, map[]);
    ImageSays(reg, wrap, s, v, keys, map[], n);
  }

  /** And nothing else. */
  lemma ImageHasNoOtherField(reg: Registry, wrap: bool, name: string, v: Value, x: string)
    requires name in reg && v.Obj? && Known(reg[name], v.fields.Keys)
    requires forall k :: k in v.fields ==> FieldOf(reg[name], k).name != x
    ensures ImageMessage(reg, wrap, name, v).Obj? && x !in ImageMessage(reg, wrap, name, v).fields
  {
    var keys := Arrangement(reg[name], v.fields.Keys);
    ArrangementCovers(reg[name], v.fields.Keys);
    ImageKeeps(reg, wrap, reg[name], v, keys, map[], x);
  }

  // ---- Packed lists --------------------------------------------------------------------------

  /** No packed list occurs in the message, at any depth. */
  ghost predicate PackedFree(reg: Registry, name: string, v: Value)
    decreases v, 2
  {
    name in reg && v.Obj? && Known(reg[name], v.fields.Keys) ==>
      forall k :: k in v.fields ==> PackedFreeField(reg, FieldOf(reg[name], k), v.fields[k])
  }

  ghost predicate PackedFreeField(reg: Registry, f: Field, v: Value)
    decreases v, 4
  {
    if !f.repeated then PackedFreeSingle(reg, f, v)
    else if !v.Arr? then true
    else !f.packable && forall n :: 0 <= n < |v.items| ==> PackedFreeSingle(reg, f, v.items[n])
  }

  ghost predicate PackedFreeSingle(reg: Registry, f: Field, v: Value)
    decreases v, 3
  {
    f.kind.Message? ==> PackedFree(reg, f.kind.name, v)
  }

  lemma CanonicalIsScalar(kind: Kind, v: Value)
    ensures Canonical(kind, v).Ok? ==> !Canonical(kind, v).value.Arr?
  {
  }

  lemma ListIsNotItsWrapping(kind: Kind, items: seq<Value>)
    ensures Arr([Arr(CanonicalItems(kind, items))]) != Arr(CanonicalItems(kind, items))
  {
    if items != [] {
      CanonicalIsScalar(kind, items[0]);
      assert !CanonicalItems(kind, items)[0].Arr?;
    }
  }

  lemma {:induction false} ImageItemsAt(reg: Registry, wrap: bool, f: Field, v: Value, n: nat, m: nat)
    requires v.Arr? && m < n <= |v.items|
    ensures ImageItems(reg, wrap, f, v, n)[m] == ImageSingle(reg, wrap, f, v.items[m])
    decreases n
  {
    if m < n - 1 {
      ImageItemsAt(reg, wrap, f, v, n - 1, m);
    }
  }

  // ---- Equal images mean no packed list ----------------------------------------------------------

  ghost predicate SameSingle(reg: Registry, f: Field, v: Value) {
    ImageSingle(reg, true, f, v) == ImageSingle(reg, false, f, v)
  }

  lemma {:induction false} EqualImageIsPackedFree(reg: Registry, name: string, v: Value)
    requires WellFormed(reg) && ProperMessage(reg, name, v)
    requires ImageMessage(reg, true, name, v) == ImageMessage(reg, false, name, v)
    ensures PackedFree(reg, name, v)
    decreases v, 2
  {
    if name in reg && v.Obj? && Known(reg[name], v.fields.Keys) {
      forall k | k in v.fields ensures PackedFreeField(reg, FieldOf(reg[name], k), v.fields[k]) {
        ImageOfField(reg, true, name, v, k);
        ImageOfField(reg, false, name, v, k);
        EqualFieldIsPackedFree(reg, FieldOf(reg[name], k), v.fields[k]);
      }
    }
  }

  lemma {:induction false} EqualFieldIsPackedFree(reg: Registry, f: Field, v: Value)
    requires WellFormed(reg) && ProperField(reg, f, v)
    requires ImageField(reg, true, f, v) == ImageField(reg, false, f, v)
    ensures PackedFreeField(reg, f, v)
    decreases v, 4
  {
    if !f.repeated {
      EqualSingleIsPackedFree(reg, f, v);
    } else if v.Arr? {
      ListIsNotItsWrapping(f.kind, v.items);
      forall n | 0 <= n < |v.items| ensures !f.packable ==> PackedFreeSingle(reg, f, v.items[n]) {
        if !f.packable {
          ImageItemsAt(reg, true, f, v, |v.items|, n);
          ImageItemsAt(reg, false, f, v, |v.items|, n);
          EqualSingleIsPackedFree(reg, f, v.items[n]);
        }
      }
    }
  }

  lemma {:induction false} EqualSingleIsPackedFree(reg: Registry, f: Field, v: Value)
    requires WellFormed(reg) && ProperSingle(reg, f, v) && SameSingle(reg, f, v)
    ensures PackedFreeSingle(reg, f, v)
    decreases v, 3
  {
    if f.kind.Message? {
      EqualImageIsPackedFree(reg, f.kind.name, v);
    }
  }

  // ---- No packed list means equal images ---------------------------------------------------------

  lemma {:induction false} PackedFreeImage(reg: Registry, name: string, v: Value)
    requires PackedFree(reg, name, v)
    ensures ImageMessage(reg, true, name, v) == ImageMessage(reg, false, name, v)
    decreases v, 2
  {
    if name in reg && v.Obj? && Known(reg[name], v.fields.Keys) {
      PackedFreeFields(reg, reg[name], v, Arrangement(reg[name], v.fields.Keys), map[]);
    }
  }

  lemma {:induction false} PackedFreeFields(reg: Registry, s: Schema, v: Value, keys: seq<string>,
                                            out: map<string, Value>)
    requires v.Obj? && Known(s, v.fields.Keys)
    requires forall k :: k in v.fields ==> PackedFreeField(reg, FieldOf(s, k), v.fields[k])
    ensures ImageFields(reg, true, s, v, keys, out) == ImageFields(reg, false, s, v, keys, out)
    decreases v, 1, |keys|
  {
    if keys != [] && keys[0] in v.fields {
      var f, x := FieldOf(s, keys[0]), v.fields[keys[0]];
      PackedFreeOne(reg, f, x);
      PackedFreeFields(reg, s, v, keys[1..], Put(out, f.name, ImageField(reg, true, f, x)));
    }
  }

  lemma {:induction false} PackedFreeOne(reg: Registry, f: Field, v: Value)
    requires PackedFreeField(reg, f, v)
    ensures ImageField(reg, true, f, v) == ImageField(reg, false, f, v)
    decreases v, 5
  {
    if !f.repeated {
      PackedFreeItem(reg, f, v);
    } else if v.Arr? {
      PackedFreeItems(reg, f, v, |v.items|);
    }
  }

  lemma {:induction false} PackedFreeItems(reg: Registry, f: Field, v: Value, n: nat)
    requires v.Arr? && n <= |v.items| && forall m :: 0 <= m < |v.items| ==> PackedFreeSingle(reg, f, v.items[m])
    ensures ImageItems(reg, true, f, v, n) == ImageItems(reg, false, f, v, n)
    decreases v, 4, n
  {
    if n > 0 {
      PackedFreeItems(reg, f, v, n - 1);
      PackedFreeItem(reg, f, v.items[n - 1]);
    }
  }

  lemma {:induction false} PackedFreeItem(reg: Registry, f: Field, v: Value)
    requires PackedFreeSingle(reg, f, v)
    ensures SameSingle(reg, f, v)
    decreases v, 3
  {
    if f.kind.Message? {
      PackedFreeImage(reg, f.kind.name, v);
    }
  }

  /** Encoding then decoding gives the value back, in canonical form, exactly when it holds no packed list. */
  lemma RoundTripIsExactWithoutPackedLists(reg: Registry, name: string, v: Value, b: seq<Byte>)
    requires WellFormed(reg) && ProperMessage(reg, name, v) && EncodeMessage(reg, name, v) == Ok(b) && |b| < TWO_64
    ensures DecodeMessage(reg, name, b) == Ok(ImageMessage(reg, false, name, v)) <==> PackedFree(reg, name, v)
  {
    MessageReadsBack(reg, name, v, b);
    if PackedFree(reg, name, v) {
      PackedFreeImage(reg, name, v);
    }
    if ImageMessage(reg, true, name, v) == ImageMessage(reg, false, name, v) {
      EqualImageIsPackedFree(reg, name, v);
    }
  }
}
