/** Byte strings, Go's string order, and the result types shared by every module. */
module Bytes {

  type Byte = b: int | 0 <= b < 256

  /** A Go string or []byte: a finite sequence of bytes. */
  type Str = seq<Byte>

  datatype Option<+T> = None | Some(value: T)

  /** Success, or one of the source's error returns (or panics). */
  datatype Result<+T> = Ok(value: T) | Err

  const TWO_63: int := 0x8000_0000_0000_0000
  const TWO_64: int := 0x1_0000_0000_0000_0000

  /** A Go int or int64 result: reduced to two's complement on 64 bits. */
  function Int64(x: int): (r: int)
    ensures -TWO_63 <= r < TWO_63
    ensures (x - r) % TWO_64 == 0
    ensures -TWO_63 <= x < TWO_63 ==> r == x
  {
    var m := x % TWO_64;
    if m < TWO_63 then m else m - TWO_64
  }

  /** Go's `<` on strings: the byte-wise lexicographic order. */
  predicate Less(a: Str, b: Str) {
    b != [] && (a == [] || a[0] < b[0] || (a[0] == b[0] && Less(a[1..], b[1..])))
  }

  /** Two strings agree before k, where the first has the smaller byte. */
  predicate SmallerAt(a: Str, b: Str, k: int) {
    0 <= k < |a| && k < |b| && a[..k] == b[..k] && a[k] < b[k]
  }

  /** One string is less than another when it is a proper prefix of it, or smaller in the first byte in
      which they differ. */
  lemma {:induction false} LessExactly(a: Str, b: Str)
    ensures Less(a, b) <==> a < b || exists k :: SmallerAt(a, b, k)
  {
    if a != [] && b != [] {
      LessExactly(a[1..], b[1..]);
      PrefixTail(a, b);
      if a[0] < b[0] {
        assert SmallerAt(a, b, 0);
      }
      if k :| SmallerAt(a[1..], b[1..], k) {
        SmallerTail(a, b, k + 1);
      }
      if k :| SmallerAt(a, b, k) {
        SmallerTail(a, b, k);
      }
    }
  }

  lemma PrefixTail(a: Str, b: Str)
    requires a != [] && b != []
    ensures a < b <==> a[0] == b[0] && a[1..] < b[1..]
  {
    assert a == [a[0]] + a[1..] && b == [b[0]] + b[1..];
  }

  lemma SmallerTail(a: Str, b: Str, k: int)
    requires a != [] && b != []
    ensures SmallerAt(a, b, k) <==> if k == 0 then a[0] < b[0] else a[0] == b[0] && SmallerAt(a[1..], b[1..], k - 1)
  {
    if 0 < k < |a| && k < |b| {
      assert a[..k] == [a[0]] + a[1..][..k - 1] && b[..k] == [b[0]] + b[1..][..k - 1];
    }
  }

  lemma {:induction false} LessIrreflexive(a: Str)
    ensures !Less(a, a)
  {
    if a != [] {
      LessIrreflexive(a[1..]);
    }
  }

  lemma {:induction false} LessTransitive(a: Str, b: Str, c: Str)
    requires Less(a, b) && Less(b, c)
    ensures Less(a, c)
  {
    if a != [] && a[0] == b[0] && b[0] == c[0] {
      LessTransitive(a[1..], b[1..], c[1..]);
    }
  }

  lemma {:induction false} LessTotal(a: Str, b: Str)
    ensures Less(a, b) || a == b || Less(b, a)
  {
    if a != [] && b != [] && a[0] == b[0] {
      LessTotal(a[1..], b[1..]);
      if a[1..] == b[1..] {
        assert a == [a[0]] + a[1..] && b == [b[0]] + b[1..];
      }
    }
  }

  lemma LessAsymmetric(a: Str, b: Str)
    requires Less(a, b)
    ensures !Less(b, a) && a != b
  {
    LessIrreflexive(a);
    if Less(b, a) {
      LessTransitive(a, b, a);
    }
  }
}
