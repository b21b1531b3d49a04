/**
 The scalar layer of the Protocol Buffers wire format: base-128 varints, little-endian fixed-width
 integers, zigzag numbers and two's-complement casts. Shifts and masks are written as arithmetic.
 */
module Wire {
  import opened Common

  type Byte = x: int | 0 <= x < 256 witness 0

  const TWO_31: int := 0x8000_0000
  const TWO_32: int := 0x1_0000_0000
  const TWO_63: int := 0x8000_0000_0000_0000
  const TWO_64: int := 0x1_0000_0000_0000_0000

  /** A value read at an index, and the index after it. */
  datatype Read<+T> = Read(value: T, next: nat)

  /** `s` lies in `b` at `i`. */
  predicate HasAt(b: seq<Byte>, i: nat, s: seq<Byte>) {
    i + |s| <= |b| && b[i..i + |s|] == s
  }

  lemma HasAtSplit(b: seq<Byte>, i: nat, s: seq<Byte>, t: seq<Byte>)
    requires HasAt(b, i, s + t)
    ensures HasAt(b, i, s) && HasAt(b, i + |s|, t)
  {
    var w := b[i..i + |s + t|];
    assert w[..|s|] == s && w[|s|..] == t;
    assert b[i..i + |s|] == w[..|s|];
    assert b[i + |s|..i + |s| + |t|] == w[|s|..];
  }

  // ---- Varints -------------------------------------------------------------------------------

  function Varint(v: nat): (s: seq<Byte>)
    ensures |s| >= 1
  {
    if v < 128 then [v] else [v % 128 + 128] + Varint(v / 128)
  }

  /** At most `room` bytes, the last one below 128. */
  function GroupsAt(b: seq<Byte>, i: nat, room: nat): (r: Result<Read<nat>>)
    ensures r.Ok? ==> i < r.value.next <= |b|
    decreases room
  {
    if i >= |b| || room == 0 then Err
    else if b[i] < 128 then Ok(Read(b[i], i + 1))
    else match GroupsAt(b, i + 1, room - 1)
      case Err => Err
      case Ok(rest) => Ok(Read(b[i] - 128 + 128 * rest.value, rest.next))
  }

  /** read_varint: at most ten bytes; bits beyond the sixty-fourth are lost. */
  function ReadVarint(b: seq<Byte>, i: nat): (r: Result<Read<nat>>)
    ensures r.Ok? ==> i < r.value.next <= |b| && r.value.value < TWO_64
  {
    match GroupsAt(b, i, 10)
    case Err => Err
    case Ok(g) => Ok(Read(g.value % TWO_64, g.next))
  }

  function Pow128(n: nat): (p: nat)
    ensures p >= 1
  {
    if n == 0 then 1 else 128 * Pow128(n - 1)
  }

  lemma {:induction false} GroupsOfVarint(b: seq<Byte>, i: nat, v: nat, room: nat)
    requires HasAt(b, i, Varint(v)) && room >= 1 && v < Pow128(room)
    ensures GroupsAt(b, i, room) == Ok(Read(v, i + |Varint(v)|))
    decreases v
  {
    if v < 128 {
      assert b[i] == b[i..i + 1][0] == v;
    } else {
      var head: seq<Byte> := [v % 128 + 128];
      assert Varint(v) == head + Varint(v / 128);
      HasAtSplit(b, i, head, Varint(v / 128));
      assert b[i] == b[i..i + 1][0];
      assert Pow128(1) == 128 * Pow128(0);
      assert Pow128(room) == 128 * Pow128(room - 1);
      GroupsOfVarint(b, i + 1, v / 128, room - 1);
    }
  }

  lemma TenGroupsHold64Bits()
    ensures Pow128(10) > TWO_64
  {
    assert Pow128(2) == 128 * 128;
    assert Pow128(4) == 128 * 128 * Pow128(2);
    assert Pow128(6) == 128 * 128 * Pow128(4);
    assert Pow128(8) == 128 * 128 * Pow128(6);
    assert Pow128(10) == 128 * 128 * Pow128(8);
  }

  lemma SmallRemainder(x: nat, m: nat)
    requires x < m
    ensures x % m == x
  {
  }

  lemma {:induction false} VarintLength(v: nat, k: nat)
    requires k >= 1 && v < Pow128(k) && (k > 1 ==> Pow128(k - 1) <= v)
    ensures |Varint(v)| == k
    decreases k
  {
    if k > 1 {
      PowGrows(k - 1);
      DivideBounds(v, Pow128(k - 1), if k > 2 then Pow128(k - 2) else 0);
      VarintLength(v / 128, k - 1);
    }
  }

  lemma PowGrows(k: nat)
    ensures Pow128(k) >= 1 && (k >= 1 ==> Pow128(k) >= 128)
  {
  }

  lemma DivideBounds(v: nat, hi: nat, lo: nat)
    requires v < 128 * hi
    ensures v / 128 < hi && (128 * lo <= v ==> lo <= v / 128)
  {
  }

  /** Reading back a written varint gives the number and stops right after it. */
  lemma VarintReadsBack(b: seq<Byte>, i: nat, v: nat)
    requires v < TWO_64 && HasAt(b, i, Varint(v))
    ensures ReadVarint(b, i) == Ok(Read(v, i + |Varint(v)|))
  {
    TenGroupsHold64Bits();
    GroupsOfVarint(b, i, v, 10);
    SmallRemainder(v, TWO_64);
  }

  method WriteVarint(out: seq<Byte>, v: nat) returns (r: seq<Byte>)
    ensures r == out + Varint(v)
  {
    r := out;
    var value := v;
    while value >= 128
      invariant r + Varint(value) == out + Varint(v)
    {
      ghost var before := r;
      r := r + [value % 128 + 128];
      value := value / 128;
      assert r + Varint(value) == before + ([r[|before|]] + Varint(value));
    }
    r := r + [value];
  }

  /** The accumulated value after `k` groups, continued by what `GroupsAt` reads next. */
  function Continued(acc: nat, k: nat, rest: Result<Read<nat>>): Result<Read<nat>> {
    match rest
    case Err => Err
    case Ok(g) => Ok(Read((acc + Pow128(k) * g.value) % TWO_64, g.next))
  }

  lemma ContinueOne(acc: nat, k: nat, byte: nat, rest: Result<Read<nat>>)
    requires 128 <= byte < 256
    ensures (match rest case Err => Err case Ok(g) => Continued(acc, k, Ok(Read(byte - 128 + 128 * g.value, g.next))))
         == Continued(Extended(acc, k, byte), k + 1, rest)
  {
    if rest.Ok? {
      var g, p := rest.value.value, Pow128(k);
      assert Pow128(k + 1) == 128 * p;
      assert p * (byte - 128 + 128 * g) == (byte - 128) * p + 128 * p * g;
    }
  }

  /** Up to nine groups fit below 2^63, so only the tenth can lose bits. */
  lemma NineGroupsFit(k: nat)
    requires k <= 9
    ensures Pow128(k) <= TWO_63
  {
    assert Pow128(2) == 128 * 128;
    assert Pow128(4) == 128 * 128 * Pow128(2);
    assert Pow128(6) == 128 * 128 * Pow128(4);
    assert Pow128(8) == 128 * 128 * Pow128(6);
    assert Pow128(9) == 128 * Pow128(8) == TWO_63;
    Pow128Monotone(k, 9);
  }

  lemma {:induction false} Pow128Monotone(a: nat, b: nat)
    requires a <= b
    ensures Pow128(a) <= Pow128(b)
    decreases b
  {
    if a < b {
      Pow128Monotone(a, b - 1);
    }
  }

  lemma GroupGrows(acc: nat, k: nat, byte: nat)
    requires acc < Pow128(k) && 128 <= byte < 256
    ensures Extended(acc, k, byte) < Pow128(k + 1)
  {
    var p := Pow128(k);
    assert (byte - 128) * p <= 127 * p by {
      assert (255 - byte) * p >= 0;
    }
  }

  /** The `u64` accumulator after one more continued group: nothing is lost yet. */
  function Accumulated(acc: nat, k: nat, byte: nat): nat
    requires 128 <= byte < 256
  {
    Extended(acc, k, byte) % TWO_64
  }

  function Extended(acc: nat, k: nat, byte: nat): nat
    requires 128 <= byte < 256
  {
    acc + (byte - 128) * Pow128(k)
  }

  lemma AccumulatedExactly(acc: nat, k: nat, byte: nat)
    requires k < 9 && acc < Pow128(k) && 128 <= byte < 256
    ensures Accumulated(acc, k, byte) == Extended(acc, k, byte) < Pow128(k + 1)
  {
    GroupGrows(acc, k, byte);
    NineGroupsFit(k + 1);
    SmallRemainder(Extended(acc, k, byte), TWO_64);
  }

  lemma AccumulateOne(b: seq<Byte>, idx: nat, k: nat, acc: nat)
    requires k < 9 && acc < Pow128(k) && idx < |b| && b[idx] >= 128
    ensures Accumulated(acc, k, b[idx]) < Pow128(k + 1)
    ensures Continued(acc, k, GroupsAt(b, idx, 10 - k))
         == Continued(Accumulated(acc, k, b[idx]), k + 1, GroupsAt(b, idx + 1, 9 - k))
  {
    AccumulatedExactly(acc, k, b[idx]);
    ContinueOne(acc, k, b[idx], GroupsAt(b, idx + 1, 9 - k));
  }

  /** The reading loop, with its `u64` accumulator. */
  method ReadVarintLoop(b: seq<Byte>, start: nat) returns (r: Result<Read<nat>>)
    ensures r == ReadVarint(b, start)
  {
    var idx: nat, k: nat, acc: nat := start, 0, 0;
    while idx < |b| && b[idx] >= 128
      invariant k <= 9 && acc < Pow128(k)
      invariant ReadVarint(b, start) == Continued(acc, k, GroupsAt(b, idx, 10 - k))
      decreases 10 - k
    {
      if k == 9 {
        return Err;
      }
      AccumulateOne(b, idx, k, acc);
      acc := Accumulated(acc, k, b[idx]);
      idx := idx + 1;
      k := k + 1;
    }
    if idx >= |b| {
      return Err;
    }
    return Ok(Read((acc + Pow128(k) * b[idx]) % TWO_64, idx + 1));
  }

  // ---- Fixed-width integers --------------------------------------------------------------------

  function Pow256(n: nat): (p: nat)
    ensures p >= 1
  {
    if n == 0 then 1 else 256 * Pow256(n - 1)
  }

  function LittleEndian(v: nat, width: nat): (s: seq<Byte>)
    ensures |s| == width
  {
    if width == 0 then [] else [v % 256] + LittleEndian(v / 256, width - 1)
  }

  function FromLittleEndian(s: seq<Byte>): (v: nat)
    ensures v < Pow256(|s|)
  {
    if s == [] then 0 else s[0] + 256 * FromLittleEndian(s[1..])
  }

  lemma {:induction false} LittleEndianInverts(v: nat, width: nat)
    requires v < Pow256(width)
    ensures FromLittleEndian(LittleEndian(v, width)) == v
  {
    if width > 0 {
      LittleEndianInverts(v / 256, width - 1);
      assert LittleEndian(v, width)[1..] == LittleEndian(v / 256, width - 1);
    }
  }

  function ReadFixed(b: seq<Byte>, i: nat, width: nat): (r: Result<Read<nat>>)
    ensures r.Ok? ==> r.value.next == i + width <= |b| && r.value.value < Pow256(width)
  {
    if i + width > |b| then Err else Ok(Read(FromLittleEndian(b[i..i + width]), i + width))
  }

  lemma FixedReadsBack(b: seq<Byte>, i: nat, v: nat, width: nat)
    requires v < Pow256(width) && HasAt(b, i, LittleEndian(v, width))
    ensures ReadFixed(b, i, width) == Ok(Read(v, i + width))
  {
    LittleEndianInverts(v, width);
  }

  lemma FixedWidths()
    ensures Pow256(4) == TWO_32 && Pow256(8) == TWO_64
  {
    assert Pow256(2) == 256 * 256;
    assert Pow256(4) == 256 * 256 * Pow256(2);
    assert Pow256(6) == 256 * 256 * Pow256(4);
    assert Pow256(8) == 256 * 256 * Pow256(6);
  }

  // ---- Casts and zigzag ------------------------------------------------------------------------

  predicate IsI32(v: int) {
    -TWO_31 <= v < TWO_31
  }

  predicate IsI64(v: int) {
    -TWO_63 <= v < TWO_63
  }

  predicate IsU32(v: int) {
    0 <= v < TWO_32
  }

  predicate IsU64(v: int) {
    0 <= v < TWO_64
  }

  function AsU32(v: int): (u: nat)
    ensures u < TWO_32
  {
    v % TWO_32
  }

  function AsU64(v: int): (u: nat)
    ensures u < TWO_64
  {
    v % TWO_64
  }

  function AsI32(v: int): (i: int)
    ensures IsI32(i)
  {
    var u := v % TWO_32;
    if u < TWO_31 then u else u - TWO_32
  }

  function AsI64(v: int): (i: int)
    ensures IsI64(i)
  {
    var u := v % TWO_64;
    if u < TWO_63 then u else u - TWO_64
  }

  /** `(v << 1) ^ (v >> 31)`: the shift wraps, and xor with the sign mask is complement or identity. */
  function Zigzag32(v: int): (z: nat)
    requires IsI32(v)
    ensures z < TWO_32
  {
    AsU32(if v < 0 then -AsI32(2 * v) - 1 else AsI32(2 * v))
  }

  function Zigzag64(v: int): (z: nat)
    requires IsI64(v)
    ensures z < TWO_64
  {
    AsU64(if v < 0 then -AsI64(2 * v) - 1 else AsI64(2 * v))
  }

  /** `(z >> 1) ^ -(z & 1)` on the low 32 bits. */
  function Unzigzag32(value: nat): (v: int)
    ensures IsI32(v)
  {
    var z := value % TWO_32;
    if z % 2 == 0 then z / 2 else -(z / 2) - 1
  }

  function Unzigzag64(value: nat): (v: int)
    requires value < TWO_64
    ensures IsI64(v)
  {
    if value % 2 == 0 then value / 2 else -(value / 2) - 1
  }

  lemma Doubled32(v: int)
    requires IsI32(v)
    ensures AsI32(2 * v) == if v < -(TWO_31 / 2) then 2 * v + TWO_32 else if v < TWO_31 / 2 then 2 * v else 2 * v - TWO_32
  {
  }

  lemma ZigzagCode32(v: int)
    requires IsI32(v)
    ensures Zigzag32(v) == if v < 0 then -2 * v - 1 else 2 * v
  {
    Doubled32(v);
  }

  lemma Uncoded32(v: int, z: nat)
    requires IsI32(v) && z == if v < 0 then -2 * v - 1 else 2 * v
    ensures Unzigzag32(z) == v
  {
    SmallRemainder(z, TWO_32);
  }

  lemma ZigzagInverts32(v: int)
    requires IsI32(v)
    ensures Zigzag32(v) == (if v < 0 then -2 * v - 1 else 2 * v) && Unzigzag32(Zigzag32(v)) == v
  {
    ZigzagCode32(v);
    Uncoded32(v, Zigzag32(v));
  }

  /** Doubling overflows the signed range in its upper and lower halves. */
  lemma Doubled64(v: int)
    requires IsI64(v)
    ensures AsI64(2 * v) == if v < -(TWO_63 / 2) then 2 * v + TWO_64 else if v < TWO_63 / 2 then 2 * v else 2 * v - TWO_64
  {
  }

  lemma ZigzagCode64(v: int)
    requires IsI64(v)
    ensures Zigzag64(v) == if v < 0 then -2 * v - 1 else 2 * v
  {
    Doubled64(v);
  }

  lemma ZigzagInverts64(v: int)
    requires IsI64(v)
    ensures Zigzag64(v) == (if v < 0 then -2 * v - 1 else 2 * v) && Unzigzag64(Zigzag64(v)) == v
  {
    ZigzagCode64(v);
  }

  /** Unzigzag also inverts the other way: every 32- and 64-bit code is the code of its number. */
  lemma UnzigzagInverts(z: nat)
    ensures z < TWO_32 ==> Zigzag32(Unzigzag32(z)) == z
    ensures z < TWO_64 ==> Zigzag64(Unzigzag64(z)) == z
  {
    if z < TWO_32 {
      ZigzagInverts32(Unzigzag32(z));
    }
    if z < TWO_64 {
      ZigzagInverts64(Unzigzag64(z));
    }
  }

  lemma CastsInvert(v: int)
    ensures IsI32(v) ==> AsI32(AsU32(v)) == v
    ensures IsI64(v) ==> AsI64(AsU64(v)) == v
  {
  }
}
