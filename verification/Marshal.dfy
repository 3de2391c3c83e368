/** The printer: `Size`, `MarshalToSizedBuffer` and `Marshal` as the generator writes them for every
    message. A message is given by the pieces its generated code writes, in field order; an absent
    optional or empty field contributes no piece. */
module Marshal {
  import opened Bytes
  import opened Varint
  import opened Wire

  datatype Piece =
    | Data(num: nat, bytes: Str)              // string, bytes or custom type: bytes copied in
    | Flag(num: nat)                          // a bool that is true
    | Message(num: nat, pieces: seq<Piece>)   // an embedded message

  /** The generated code writes every tag as one constant byte. */
  predicate SmallNumbers(pieces: seq<Piece>) {
    forall p :: p in pieces ==> 0 < p.num < 16 && (p.Message? ==> SmallNumbers(p.pieces))
  }

  function Encode(pieces: seq<Piece>): Str
    decreases pieces, 1
  {
    if pieces == [] then [] else EncodePiece(pieces[0]) + Encode(pieces[1..])
  }

  function EncodePiece(p: Piece): Str
    decreases p, 0
  {
    match p
    case Data(num, bytes) => EncodeField(LenOf(num, bytes))
    case Flag(num) => EncodeField(VarintOf(num, 1))
    case Message(num, inner) => EncodeField(LenOf(num, Encode(inner)))
  }

  lemma {:induction false} EncodeAppend(a: seq<Piece>, b: seq<Piece>)
    ensures Encode(a + b) == Encode(a) + Encode(b)
  {
    if a == [] {
      assert a + b == b;
    } else {
      assert (a + b)[1..] == a[1..] + b;
      EncodeAppend(a[1..], b);
    }
  }

  lemma TagByte(num: nat, wireType: nat)
    requires num < 16 && wireType < 8
    ensures Tag(num, wireType) == [num * 8 + wireType]
  {}

  lemma LenFieldShape(num: nat, bytes: Str)
    requires num < 16
    ensures EncodeField(LenOf(num, bytes)) == [num * 8 + 2] + VarintBytes(|bytes|) + bytes
    ensures |EncodeField(LenOf(num, bytes))| == 1 + |bytes| + Sov(|bytes|)
  {
    TagByte(num, 2);
    SovCounts(|bytes|);
  }

  lemma FlagShape(num: nat)
    requires num < 16
    ensures EncodeField(VarintOf(num, 1)) == [num * 8] + [1]
  {
    TagByte(num, 0);
  }

  /** `Size`. */
  method Size(pieces: seq<Piece>) returns (n: nat)
    requires SmallNumbers(pieces)
    ensures n == |Encode(pieces)|
    decreases pieces
  {
    hide EncodeField, Sov;
    n := 0;
    assert pieces[..0] == [];
    for k := 0 to |pieces|
      invariant n == |Encode(pieces[..k])|
    {
      var p := pieces[k];
      EncodeAppend(pieces[..k], [p]);
      assert pieces[..k + 1] == pieces[..k] + [p];
      EncodeOne(p);
      match p
      case Data(num, bytes) =>
        LenFieldShape(num, bytes);
        n := n + 1 + |bytes| + Sov(|bytes|);
      case Flag(num) =>
        FlagShape(num);
        n := n + 2;
      case Message(num, inner) =>
        var l := Size(inner);
        LenFieldShape(num, Encode(inner));
        n := n + 1 + l + Sov(l);
    }
    assert pieces[..|pieces|] == pieces;
  }

  lemma EncodeOne(p: Piece)
    ensures Encode([p]) == EncodePiece(p)
  {
    assert [p][1..] == [];
    assert EncodePiece(p) + [] == EncodePiece(p);
  }

  // ----- back to front

  /** `now` is `was` with `bytes` written so that they end just before `end`. */
  ghost predicate Written(now: Str, was: Str, bytes: Str, end: nat) {
    && |bytes| <= end <= |was|
    && now == was[..end - |bytes|] + bytes + was[end..]
  }

  /** Writing `x` in front of `tail` writes `x + tail`. */
  lemma WriteBefore(was: Str, mid: Str, now: Str, tail: Str, x: Str, end: nat)
    requires Written(mid, was, tail, end) && |x| <= end - |tail|
    requires Written(now, mid, x, end - |tail|)
    ensures Written(now, was, x + tail, end)
  {
    var i := end - |tail|;
    assert mid[..i - |x|] == was[..i - |x|];
    assert mid[i..] == tail + was[end..];
  }

  lemma WriteNothing(was: Str, end: nat)
    requires end <= |was|
    ensures Written(was, was, [], end)
  {}

  /** `i -= len(s); copy(dAtA[i:], s)`. */
  method PutBytes(dAtA: array<Byte>, end: nat, s: Str) returns (i: nat)
    requires |s| <= end <= dAtA.Length
    modifies dAtA
    ensures i == end - |s| && Written(dAtA[..], old(dAtA[..]), s, end)
  {
    i := end - |s|;
    forall k | 0 <= k < |s| {
      dAtA[i + k] := s[k];
    }
  }

  /** `i = encodeVarint(dAtA, i, uint64(size))`, then `i--; dAtA[i] = tag`. */
  method PutHeader(dAtA: array<Byte>, end: nat, size: nat, num: nat) returns (i: nat)
    requires 0 < num < 16 && 1 + Sov(size) <= end <= dAtA.Length
    modifies dAtA
    ensures i == end - Sov(size) - 1
    ensures Written(dAtA[..], old(dAtA[..]), [num * 8 + 2] + VarintBytes(size), end)
  {
    hide Sov, VarintBytes;
    ghost var was := dAtA[..];
    SovCounts(size);
    i := EncodeVarint(dAtA, end, size);
    ghost var mid := dAtA[..];
    i := i - 1;
    dAtA[i] := num * 8 + 2;
    assert Written(dAtA[..], mid, [num * 8 + 2], i + 1);
    WriteBefore(was, mid, dAtA[..], VarintBytes(size), [num * 8 + 2], end);
  }

  /** `MarshalToSizedBuffer` on `dAtA[:end]`: the last `size` bytes become the encoding; nothing
      before or after them changes. */
  method MarshalToSizedBuffer(pieces: seq<Piece>, dAtA: array<Byte>, end: nat) returns (size: nat)
    requires SmallNumbers(pieces) && |Encode(pieces)| <= end <= dAtA.Length
    modifies dAtA
    ensures size == |Encode(pieces)|
    ensures Written(dAtA[..], old(dAtA[..]), Encode(pieces), end)
    decreases pieces, 1
  {
    hide EncodePiece, Written;
    ghost var was := dAtA[..];
    var i := end;
    var k := |pieces|;
    WriteNothing(was, end);
    assert pieces[..|pieces|] == pieces && pieces[|pieces|..] == [];
    while k > 0
      invariant 0 <= k <= |pieces|
      invariant i == end - |Encode(pieces[k..])| && |Encode(pieces)| == |Encode(pieces[..k])| + |Encode(pieces[k..])|
      invariant Written(dAtA[..], was, Encode(pieces[k..]), end)
    {
      k := k - 1;
      EncodeSplit(pieces, k);
      ghost var mid := dAtA[..];
      i := PutPiece(pieces[k], dAtA, i);
      WriteBefore(was, mid, dAtA[..], Encode(pieces[k + 1..]), EncodePiece(pieces[k]), end);
    }
    assert pieces[0..] == pieces;
    size := end - i;
  }

  lemma EncodeSplit(pieces: seq<Piece>, k: nat)
    requires k < |pieces|
    ensures Encode(pieces[k..]) == EncodePiece(pieces[k]) + Encode(pieces[k + 1..])
    ensures Encode(pieces[..k + 1]) == Encode(pieces[..k]) + EncodePiece(pieces[k])
  {
    assert pieces[k..][1..] == pieces[k + 1..];
    EncodeAppend(pieces[..k], [pieces[k]]);
    assert pieces[..k + 1] == pieces[..k] + [pieces[k]];
    EncodeOne(pieces[k]);
  }

  /** The block of generated code for one field. */
  method PutPiece(p: Piece, dAtA: array<Byte>, end: nat) returns (i: nat)
    requires 0 < p.num < 16 && (p.Message? ==> SmallNumbers(p.pieces))
    requires |EncodePiece(p)| <= end <= dAtA.Length
    modifies dAtA
    ensures i == end - |EncodePiece(p)|
    ensures Written(dAtA[..], old(dAtA[..]), EncodePiece(p), end)
    decreases p, 0
  {
    hide EncodeField, Written, Sov, VarintBytes;
    ghost var was := dAtA[..];
    match p
    case Data(num, bytes) =>
      LenFieldShape(num, bytes);
      i := PutBytes(dAtA, end, bytes);
      ghost var mid := dAtA[..];
      i := PutHeader(dAtA, i, |bytes|, num);
      WriteBefore(was, mid, dAtA[..], bytes, [num * 8 + 2] + VarintBytes(|bytes|), end);
    case Flag(num) =>
      FlagShape(num);
      i := PutBytes(dAtA, end, [num * 8] + [1]);
    case Message(num, inner) =>
      LenFieldShape(num, Encode(inner));
      var size := MarshalToSizedBuffer(inner, dAtA, end);
      ghost var mid := dAtA[..];
      i := PutHeader(dAtA, end - size, size, num);
      WriteBefore(was, mid, dAtA[..], Encode(inner), [num * 8 + 2] + VarintBytes(size), end);
  }

  /** `Marshal`: the buffer allocated from Size is filled to its first byte, so the `dAtA[:n]` that
      is returned is the whole buffer. */
  method Marshal(pieces: seq<Piece>) returns (bytes: Str)
    requires SmallNumbers(pieces)
    ensures bytes == Encode(pieces)
  {
    var size := Size(pieces);
    var dAtA := new Byte[size];
    var n := MarshalToSizedBuffer(pieces, dAtA, size);
    assert n == size;
    bytes := dAtA[..n];
  }
}
