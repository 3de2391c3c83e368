/** Base 128 varints: the `encodeVarint*`, `sov*` and shift-and-or loops that the code generator
    repeats in every .pb.go file (section "Base 128 Varints" of the Protocol Buffers Encoding
    specification). A uint64 is an integer in [0, 2^64). */
module Varint {
  import opened Bytes

  // ----- bit-level operations on unsigned integers

  function Pow2(n: nat): (p: nat)
    ensures p > 0
  {
    if n == 0 then 1 else 2 * Pow2(n - 1)
  }

  /** `a | b`, bit by bit. */
  function BitOr(a: nat, b: nat): nat
    decreases a + b
  {
    if a == 0 then b
    else if b == 0 then a
    else 2 * BitOr(a / 2, b / 2) + (if a % 2 == 1 || b % 2 == 1 then 1 else 0)
  }

  /** `x << shift` on uint64: bits moved past bit 63 are lost. */
  function Shl64(x: nat, shift: nat): nat {
    x * Pow2(shift) % TWO_64
  }

  /** `math/bits.Len64`: the number of bits needed to represent x. */
  function Len64(x: nat): nat {
    if x == 0 then 0 else 1 + Len64(x / 2)
  }

  lemma {:induction false} Pow2Add(a: nat, b: nat)
    ensures Pow2(a + b) == Pow2(a) * Pow2(b)
  {
    if a > 0 {
      Pow2Add(a - 1, b);
    }
  }

  /** Or-ing into bits that are still clear is addition. */
  lemma {:induction false} OrDisjoint(acc: nat, x: nat, shift: nat)
    requires acc < Pow2(shift)
    ensures BitOr(acc, x * Pow2(shift)) == acc + x * Pow2(shift)
    decreases shift
  {
    if shift > 0 && acc > 0 && x > 0 {
      var y := x * Pow2(shift - 1);
      assert x * Pow2(shift) == 2 * y;
      OrDisjoint(acc / 2, x, shift - 1);
    }
  }

  /** Shifting left on 64 bits keeps the low 64 - shift bits of x. */
  lemma Shl64Value(x: nat, shift: nat)
    requires shift <= 64
    ensures Shl64(x, shift) == x % Pow2(64 - shift) * Pow2(shift)
  {
    var hi, p := Pow2(64 - shift), Pow2(shift);
    assert hi * p == TWO_64 by {
      Pow2Add(64 - shift, shift);
      Pow2Values();
    }
    SplitMod(x, hi, p);
  }

  lemma SplitMod(x: nat, hi: nat, p: nat)
    requires hi > 0 && p > 0
    ensures 0 < hi * p
    ensures x * p % (hi * p) == x % hi * p
  {
    var q, r := x / hi, x % hi;
    MulLess(0, hi, p);
    MulLess(r, hi, p);
    assert x * p == r * p + q * (hi * p) by {
      assert x == q * hi + r;
      MulSplit(q, hi, r, p);
    }
    MulLess(-1, r, p);
    ModUnique(x * p, q, r * p, hi * p);
  }

  lemma MulSplit(q: nat, hi: nat, r: nat, p: nat)
    ensures (q * hi + r) * p == r * p + q * (hi * p)
  {
    assert q * hi * p == q * (hi * p);
  }

  /** One group of the decoding loop: seven more bits land above those already read, and the tenth
      group keeps its lowest bit only. */
  lemma GroupStep(acc: nat, x: nat, shift: nat)
    requires acc < Pow2(shift) && shift < 64
    ensures BitOr(acc, Shl64(x, shift)) == acc + Shl64(x, shift)
  {
    Shl64Value(x, shift);
    OrDisjoint(acc, x % Pow2(64 - shift), shift);
  }

  lemma MulLess(a: int, b: int, c: nat)
    requires a < b && c > 0
    ensures a * c < b * c
  {}

  lemma ModUnique(x: nat, q: nat, r: nat, m: nat)
    requires m > 0 && x == r + q * m && r < m
    ensures x % m == r && x / m == q
  {
    if x / m > q {
      MulMonotone(q + 1, x / m, m);
    } else if x / m < q {
      MulMonotone(x / m + 1, q, m);
    }
  }

  lemma MulMonotone(a: int, b: int, c: nat)
    requires a <= b
    ensures a * c <= b * c
  {}

  lemma Pow2Values()
    ensures Pow2(7) == 128 && Pow2(63) == TWO_63 && Pow2(64) == TWO_64
  {
    assert Pow2(1) == 2;
    Pow2Double(1, 2);
    Pow2Double(2, 4);
    Pow2Double(4, 16);
    Pow2Double(8, 0x100);
    Pow2Double(16, 0x1_0000);
    Pow2Double(32, 0x1_0000_0000);
    Pow2Add(4, 3);
    assert Pow2(3) == 2 * Pow2(2);
    assert Pow2(64) == 2 * Pow2(63);
  }

  lemma Pow2Double(n: nat, p: nat)
    requires Pow2(n) == p
    ensures Pow2(2 * n) == p * p
  {
    Pow2Add(n, n);
  }

  // ----- the two loops, as functions of the bytes

  /** The bytes that `encodeVarint` writes for v. */
  function VarintBytes(v: nat): (s: Str) {
    if v < 128 then [v] else [v % 128 + 128] + VarintBytes(v / 128)
  }

  /** `sov(x)`: (Len64(x|1) + 6) / 7. */
  function Sov(x: nat): nat {
    (Len64(BitOr(x, 1)) + 6) / 7
  }

  /** A decoded varint: its value and the number of bytes it took. */
  datatype Varint = Varint(value: nat, size: nat)

  /** The decoding loop, entered with `groups` groups already or-ed into `acc`. It fails when the
      shift reaches 64 or the bytes end. */
  function ReadFrom(s: Str, groups: nat, acc: nat): (r: Result<Varint>)
    ensures r.Ok? ==> groups < r.value.size <= groups + |s| && r.value.size <= 10
    ensures r.Ok? && acc < TWO_64 ==> r.value.value < TWO_64
  {
    if 7 * groups >= 64 || s == [] then Err
    else
      var v := (acc + Shl64(s[0] % 128, 7 * groups)) % TWO_64;
      if s[0] < 128 then Ok(Varint(v, groups + 1))
      else ReadFrom(s[1..], groups + 1, v)
  }

  function ReadVarint(s: Str): (r: Result<Varint>)
    ensures r.Ok? ==> 0 < r.value.size <= |s| && r.value.size <= 10 && r.value.value < TWO_64
  {
    ReadFrom(s, 0, 0)
  }

  // ----- what a varint means, independently of the loops

  /** Little-endian base 128: the low seven bits of each byte. */
  function Base128(s: Str): nat {
    if s == [] then 0 else s[0] % 128 + 128 * Base128(s[1..])
  }

  /** Exactly one varint: every byte but the last carries the continuation bit. */
  predicate OneVarint(s: Str) {
    0 < |s| <= 10 && s[|s| - 1] < 128 && forall k :: 0 <= k < |s| - 1 ==> s[k] >= 128
  }

  lemma {:induction false} ReadFromShape(s: Str, groups: nat, acc: nat)
    requires ReadFrom(s, groups, acc).Ok?
    ensures var n := ReadFrom(s, groups, acc).value.size - groups;
      0 < n <= |s| && s[n - 1] < 128 && forall k :: 0 <= k < n - 1 ==> s[k] >= 128
  {
    if s[0] >= 128 {
      ReadFromShape(s[1..], groups + 1, (acc + Shl64(s[0] % 128, 7 * groups)) % TWO_64);
    }
    hide Shl64;
  }

  /** The value that is read, on top of what is there already. */
  lemma {:induction false} ReadFromMeaning(s: Str, groups: nat, acc: nat)
    requires acc < TWO_64 && ReadFrom(s, groups, acc).Ok?
    ensures var n := ReadFrom(s, groups, acc).value.size - groups;
      && 0 < n <= |s| && s[n - 1] < 128 && (forall k :: 0 <= k < n - 1 ==> s[k] >= 128)
      && ReadFrom(s, groups, acc).value.value == (acc + Base128(s[..n]) * Pow2(7 * groups)) % TWO_64
  {
    ReadFromShape(s, groups, acc);
    var v := (acc + Shl64(s[0] % 128, 7 * groups)) % TWO_64;
    var n := ReadFrom(s, groups, acc).value.size - groups;
    var later := s[1..][..n - 1];
    assert s[..n][1..] == later && s[..n][0] == s[0];
    assert Base128(s[..n]) == s[0] % 128 + 128 * Base128(later);
    GroupAccumulates(acc, s[0] % 128, Base128(later), 7 * groups);
    hide Shl64, Pow2, Base128;
    if s[0] < 128 {
      assert later == [];
      NoGroups(v, 7 * groups + 7);
    } else {
      ReadFromMeaning(s[1..], groups + 1, v);
    }
  }

  lemma NoGroups(v: nat, shift: nat)
    requires v < TWO_64
    ensures (v + Base128([]) * Pow2(shift)) % TWO_64 == v
  {
    hide Pow2;
  }

  /** Adding groups modulo 2^64 one at a time or all at once is the same. */
  lemma GroupAccumulates(acc: nat, x: nat, rest: nat, shift: nat)
    ensures ((acc + Shl64(x, shift)) % TWO_64 + rest * Pow2(shift + 7)) % TWO_64
         == (acc + (x + 128 * rest) * Pow2(shift)) % TWO_64
  {
    var p := Pow2(shift);
    assert Pow2(shift + 7) == p * 128 by {
      Pow2Add(shift, 7);
      Pow2Values();
    }
    assert (x + 128 * rest) * p == x * p + rest * (p * 128);
    AddMod(acc, x * p, rest * (p * 128));
  }

  lemma AddMod(a: nat, b: nat, c: nat)
    ensures ((a + b % TWO_64) % TWO_64 + c) % TWO_64 == (a + (b + c)) % TWO_64
  {
  }

  /** A varint is read exactly when the bytes start with one, and its value is the base 128 value
      of those bytes modulo 2^64. */
  lemma ReadVarintMeaning(s: Str, n: nat)
    ensures (ReadVarint(s).Ok? && ReadVarint(s).value.size == n) <==> (n <= |s| && OneVarint(s[..n]))
    ensures n <= |s| && OneVarint(s[..n]) ==> ReadVarint(s) == Ok(Varint(Base128(s[..n]) % TWO_64, n))
  {
    if ReadVarint(s).Ok? && ReadVarint(s).value.size == n {
      ReadVarintIsOne(s, n);
    }
    if n <= |s| && OneVarint(s[..n]) {
      assert forall k :: 0 <= k < n ==> s[..n][k] == s[k];
      ReadFromAccepts(s, 0, 0, n);
      ReadVarintIsOne(s, n);
    }
  }

  /** Ten continuation bytes are an overflow, whatever follows; and an input that ends before its last
      byte is an error. */
  lemma TooLong(s: Str)
    requires forall k :: 0 <= k < |s| && k < 10 ==> s[k] >= 128
    ensures ReadVarint(s) == Err
  {
    if ReadVarint(s).Ok? {
      var n := ReadVarint(s).value.size;
      ReadVarintMeaning(s, n);
      assert s[..n][n - 1] == s[n - 1];
    }
  }

  lemma ReadVarintIsOne(s: Str, n: nat)
    requires ReadVarint(s).Ok? && ReadVarint(s).value.size == n
    ensures OneVarint(s[..n])
    ensures ReadVarint(s).value.value == Base128(s[..n]) % TWO_64
  {
    ReadFromMeaning(s, 0, 0);
    assert Pow2(0) == 1;
  }

  lemma {:induction false} ReadFromAccepts(s: Str, groups: nat, acc: nat, n: nat)
    requires 0 < n <= |s| && groups + n <= 10
    requires s[n - 1] < 128 && forall k :: 0 <= k < n - 1 ==> s[k] >= 128
    ensures ReadFrom(s, groups, acc).Ok? && ReadFrom(s, groups, acc).value.size == groups + n
  {
    if s[0] >= 128 {
      ReadFromAccepts(s[1..], groups + 1, (acc + Shl64(s[0] % 128, 7 * groups)) % TWO_64, n - 1);
    }
  }

  /** Reading looks at the varint's own bytes only. */
  lemma {:induction false} ReadFromPrefix(a: Str, b: Str, groups: nat, acc: nat)
    requires ReadFrom(a, groups, acc).Ok?
    ensures ReadFrom(a + b, groups, acc) == ReadFrom(a, groups, acc)
  {
    if a[0] >= 128 {
      assert (a + b)[1..] == a[1..] + b;
      ReadFromPrefix(a[1..], b, groups + 1, (acc + Shl64(a[0] % 128, 7 * groups)) % TWO_64);
    }
  }

  // ----- the encoder

  lemma {:induction false} Len64Drop7(x: nat)
    requires x >= 128
    ensures Len64(x) == 7 + Len64(x / 128)
  {
    assert x / 8 / 8 == x / 64 && x / 64 / 2 == x / 128;
    hide Len64;
    Len64Drop3(x);
    Len64Drop3(x / 8);
    Len64Drop1(x / 64);
  }

  lemma Len64Drop1(x: nat)
    requires x >= 1
    ensures Len64(x) == 1 + Len64(x / 2)
  {}

  lemma {:induction false} Len64Drop3(x: nat)
    requires x >= 8
    ensures Len64(x) == 3 + Len64(x / 8)
  {
    assert Len64(x) == 1 + Len64(x / 2);
    assert Len64(x / 2) == 1 + Len64(x / 4);
    assert Len64(x / 4) == 1 + Len64(x / 8);
  }

  lemma {:induction false} Len64Bound(x: nat, n: nat)
    ensures Len64(x) <= n <==> x < Pow2(n)
    decreases n
  {
    if x > 0 && n > 0 {
      Len64Bound(x / 2, n - 1);
    }
  }

  lemma OrOne(x: nat)
    ensures BitOr(x, 1) == if x % 2 == 1 then x else x + 1
  {}

  lemma SovDrop7(v: nat)
    requires v >= 128
    ensures Sov(v) == 1 + Sov(v / 128)
  {
    OrOne(v);
    OrOne(v / 128);
    assert Len64(BitOr(v, 1)) == Len64(v) by {
      LenOrOne(v);
    }
    assert Len64(BitOr(v / 128, 1)) == Len64(v / 128) by {
      LenOrOne(v / 128);
    }
    Len64Drop7(v);
  }

  lemma LenOrOne(v: nat)
    requires v > 0
    ensures Len64(BitOr(v, 1)) == Len64(v)
  {
    OrOne(v);
    assert BitOr(v, 1) / 2 == v / 2;
  }

  /** `sov` counts exactly the bytes that are written: one per started group of seven bits. */
  lemma {:induction false} SovCounts(v: nat)
    ensures |VarintBytes(v)| == Sov(v)
    ensures v < TWO_64 ==> 1 <= Sov(v) <= 10
  {
    OrOne(v);
    if v < 128 {
      Pow2Values();
      Len64Bound(BitOr(v, 1), 7);
    } else {
      SovDrop7(v);
      SovCounts(v / 128);
    }
    if v < TWO_64 {
      Pow2Values();
      Len64Bound(BitOr(v, 1), 64);
    }
  }

  lemma {:induction false} VarintBytesMeaning(v: nat)
    ensures Base128(VarintBytes(v)) == v
    ensures var s := VarintBytes(v); s[|s| - 1] < 128 && forall k :: 0 <= k < |s| - 1 ==> s[k] >= 128
  {
    if v >= 128 {
      VarintBytesMeaning(v / 128);
      assert VarintBytes(v)[1..] == VarintBytes(v / 128);
    } else {
      assert VarintBytes(v)[1..] == [];
    }
  }

  /** Decoding what was encoded gives the value back and stops at its end, whatever follows. */
  lemma VarintRoundTrip(v: nat, rest: Str)
    requires v < TWO_64
    ensures ReadVarint(VarintBytes(v) + rest) == Ok(Varint(v, Sov(v)))
  {
    var s := VarintBytes(v);
    SovCounts(v);
    VarintBytesMeaning(v);
    assert OneVarint(s);
    assert (s + rest)[..|s|] == s;
    ReadVarintMeaning(s + rest, |s|);
    SmallMod(v, TWO_64);
  }

  lemma SmallMod(x: nat, m: nat)
    requires x < m
    ensures x % m == x
  {}

  // ----- the loops themselves

  /** `encodeVarint*`: writes v so that it ends just before `offset`, and returns where it starts.
      Nothing else in the buffer changes. */
  method EncodeVarint(dAtA: array<Byte>, offset: nat, v: nat) returns (base: nat)
    requires Sov(v) <= offset <= dAtA.Length
    modifies dAtA
    ensures base == offset - Sov(v)
    ensures dAtA[..] == old(dAtA[..base]) + VarintBytes(v) + old(dAtA[offset..])
  {
    hide *;
    ghost var was, out := dAtA[..], VarintBytes(v);
    SovCounts(v);
    VarintNonempty(v);
    base := offset - Sov(v);
    var i, w := base, v;
    assert out[0..] == out;
    SpliceNone(was, base, out);
    while w >= 128
      invariant base <= i < offset && out[i - base..] == VarintBytes(w)
      invariant Spliced(dAtA[..], was, base, out[..i - base])
      decreases w
    {
      VarintHead(w, out, i - base);
      SpliceOne(dAtA[..], was, base, out, i - base);
      dAtA[i] := ContinuationByte(w);
      w, i := w / 128, i + 1;
    }
    VarintHead(w, out, i - base);
    SpliceOne(dAtA[..], was, base, out, i - base);
    dAtA[i] := w;
    assert out[..i + 1 - base] == out;
    SplicedAll(dAtA[..], was, base, out);
  }

  lemma VarintNonempty(v: nat)
    ensures |VarintBytes(v)| > 0
  {}

  /** `uint8(v & 0x7f | 0x80)`. */
  function ContinuationByte(v: nat): (b: Byte)
    ensures b == v % 128 + 128
  {
    OrTopBit(v % 128);
    BitOr(v % 128, 128)
  }

  /** `now` is `was` with `bytes` written from position `base` on. */
  ghost predicate Spliced(now: Str, was: Str, base: nat, bytes: Str) {
    && |now| == |was| && base + |bytes| <= |was|
    && forall k :: 0 <= k < |was| ==> now[k] == if base <= k < base + |bytes| then bytes[k - base] else was[k]
  }

  lemma SpliceNone(was: Str, base: nat, out: Str)
    requires base <= |was|
    ensures Spliced(was, was, base, out[..0])
  {}

  lemma SpliceOne(now: Str, was: Str, base: nat, out: Str, n: nat)
    requires n < |out| && base + |out| <= |was| && Spliced(now, was, base, out[..n])
    ensures Spliced(now[base + n := out[n]], was, base, out[..n + 1])
  {}

  lemma SplicedAll(now: Str, was: Str, base: nat, bytes: Str)
    requires Spliced(now, was, base, bytes)
    ensures now == was[..base] + bytes + was[base + |bytes|..]
  {}

  lemma VarintHead(w: nat, out: Str, n: nat)
    requires n < |out| && out[n..] == VarintBytes(w)
    ensures w < 128 ==> out[n] == w && n + 1 == |out|
    ensures w >= 128 ==> out[n] == w % 128 + 128 && out[n + 1..] == VarintBytes(w / 128) && n + 1 < |out|
  {
    assert out[n] == out[n..][0];
    assert out[n + 1..] == out[n..][1..];
    assert |VarintBytes(w / 128)| > 0;
  }

  lemma OrTopBit(x: nat)
    requires x < 128
    ensures BitOr(x, 128) == x + 128
  {
    Pow2Values();
    OrDisjoint(x, 1, 7);
  }

  /** `wire |= uint64(b & 0x7F) << shift`. */
  function OrGroup(wire: nat, group: nat, shift: nat): (r: nat)
    requires shift < 64 && wire < Pow2(shift) && group < 128
    ensures r == wire + Shl64(group, shift)
    ensures r < TWO_64 && r < Pow2(shift + 7)
  {
    assert BitOr(wire, Shl64(group, shift)) == wire + Shl64(group, shift) by {
      GroupStep(wire, group, shift);
    }
    assert wire + Shl64(group, shift) < TWO_64 && wire + Shl64(group, shift) < Pow2(shift + 7) by {
      GroupFits(wire, group, shift);
    }
    BitOr(wire, Shl64(group, shift))
  }

  /** The shift-and-or loop: reads a varint of `dAtA` at `i`. */
  method DecodeVarint(dAtA: Str, i: nat) returns (ok: bool, wire: nat, iNdEx: nat)
    requires i <= |dAtA|
    ensures ok <==> ReadVarint(dAtA[i..]).Ok?
    ensures ok ==> i < iNdEx <= |dAtA| && ReadVarint(dAtA[i..]) == Ok(Varint(wire, iNdEx - i))
  {
    assert Pow2(0) == 1;
    hide Pow2, ReadFrom;
    wire, iNdEx, ok := 0, i, true;
    var shift := 0;
    while true
      invariant i <= iNdEx <= |dAtA| && shift == 7 * (iNdEx - i) && shift < 71
      invariant wire < TWO_64 && (shift < 64 ==> wire < Pow2(shift))
      invariant ReadVarint(dAtA[i..]) == ReadFrom(dAtA[iNdEx..], iNdEx - i, wire)
      decreases |dAtA| - iNdEx
    {
      if shift >= 64 || iNdEx >= |dAtA| {
        ReadFromStops(dAtA[iNdEx..], iNdEx - i, wire);
      }
      if shift >= 64 {
        return false, 0, 0;
      }
      if iNdEx >= |dAtA| {
        return false, 0, 0;
      }
      var b := dAtA[iNdEx];
      ReadFromStep(dAtA, iNdEx, iNdEx - i, wire);
      iNdEx := iNdEx + 1;
      wire := OrGroup(wire, b % 128, shift);
      if b < 128 {
        break;
      }
      shift := shift + 7;
    }
  }

  lemma ReadFromStops(s: Str, groups: nat, acc: nat)
    requires 7 * groups >= 64 || s == []
    ensures ReadFrom(s, groups, acc) == Err
  {}

  /** One round of the loop is one unfolding of ReadFrom. */
  lemma ReadFromStep(s: Str, at: nat, groups: nat, wire: nat)
    requires at < |s| && 7 * groups < 64 && wire < Pow2(7 * groups)
    ensures ReadFrom(s[at..], groups, wire)
         == if s[at] < 128 then Ok(Varint(OrGroup(wire, s[at] % 128, 7 * groups), groups + 1))
            else ReadFrom(s[at + 1..], groups + 1, OrGroup(wire, s[at] % 128, 7 * groups))
  {
    var v := OrGroup(wire, s[at] % 128, 7 * groups);
    SmallMod(v, TWO_64);
    assert s[at..][0] == s[at] && s[at..][1..] == s[at + 1..];
  }

  /** After a group the accumulator still fits in 64 bits, and below the next shift. */
  lemma GroupFits(acc: nat, x: nat, shift: nat)
    requires acc < Pow2(shift) && x < 128 && shift < 64
    ensures acc + Shl64(x, shift) < TWO_64
    ensures acc + Shl64(x, shift) < Pow2(shift + 7)
  {
    var p, hi := Pow2(shift), Pow2(64 - shift);
    var y := x % hi;
    assert hi * p == TWO_64 && 128 * p == Pow2(shift + 7) by {
      Pow2Values();
      Pow2Add(64 - shift, shift);
      Pow2Add(7, shift);
    }
    assert Shl64(x, shift) == y * p by {
      Shl64Value(x, shift);
    }
    ModBounds(x, hi);
    BelowNext(acc, y, p, hi);
    BelowNext(acc, y, p, 128);
  }

  lemma ModBounds(x: nat, m: nat)
    requires m > 0
    ensures 0 <= x % m < m && x % m <= x
  {}

  lemma BelowNext(acc: nat, y: nat, p: nat, hi: nat)
    requires acc < p && y < hi
    ensures acc + y * p < hi * p
  {
    MulMonotone(y + 1, hi, p);
    assert (y + 1) * p == y * p + p;
  }
}
