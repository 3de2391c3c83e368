/** The generated `Unmarshal`: one loop over the fields of the input that updates its receiver in
    place. The generator prints the same loop for every message; the message's own cases are its
    switch. */
module Unmarshal {
  import opened Bytes
  import opened Varint
  import opened Wire
  import opened Marshal
  import opened Messages

  class Receiver<M> {
    var m: M

    constructor (m: M)
      ensures this.m == m
    {
      this.m := m;
    }

    /** Terminates on every input without indexing outside it, and computes Decode. An error may
        leave the receiver with the fields decoded so far. */
    method Unmarshal(sw: Switch<M>, dAtA: Str) returns (ok: bool)
      requires |dAtA| < TWO_63
      modifies this
      ensures ok <==> Decode(sw, old(m), dAtA).Ok?
      ensures ok ==> Decode(sw, old(m), dAtA) == Ok(m)
    {
      hide DecodeOne;
      ghost var was := m;
      var iNdEx: nat := 0;
      assert dAtA[0..] == dAtA;
      while iNdEx < |dAtA|
        invariant iNdEx <= |dAtA|
        invariant Decode(sw, was, dAtA) == Decode(sw, m, dAtA[iNdEx..])
        decreases |dAtA| - iNdEx
      {
        var read, next := Field(sw, dAtA, iNdEx);
        if !read {
          return false;
        }
        assert dAtA[iNdEx..][next - iNdEx..] == dAtA[next..];
        iNdEx := next;
      }
      return true;
    }

    /** The body of the loop: the tag, the checks on it, and the switch. */
    method Field(sw: Switch<M>, dAtA: Str, preIndex: nat) returns (ok: bool, iNdEx: nat)
      requires preIndex < |dAtA| < TWO_63
      modifies this
      ensures ok <==> DecodeOne(sw, old(m), dAtA[preIndex..]).Ok?
      ensures ok ==> preIndex < iNdEx <= |dAtA|
      ensures ok ==> DecodeOne(sw, old(m), dAtA[preIndex..]) == Ok(Taken(m, iNdEx - preIndex))
    {
      hide ReadVarint, Skip, DecodeLen, DecodeScalar;
      var read, wire, at := DecodeVarint(dAtA, preIndex);
      if !read {
        return false, 0;
      }
      assert dAtA[preIndex..][at - preIndex..] == dAtA[at..];
      var fieldNum, wireType := FieldNum(wire), wire % 8;
      if wireType == 4 {
        return false, 0;
      }
      if fieldNum <= 0 {
        return false, 0;
      }
      match sw.kind(fieldNum)
      case LenKind =>
        if wireType != 2 {
          return false, 0;
        }
        ok, iNdEx := LenCase(sw, dAtA, at, fieldNum, at - preIndex);
      case VarintKind =>
        if wireType != 0 {
          return false, 0;
        }
        ok, iNdEx := VarintCase(sw, dAtA, at, fieldNum, at - preIndex);
      case Unknown =>
        var skipped, skippy := SkipLoop(dAtA[preIndex..]);
        if !skipped || skippy < 0 || Int64(preIndex + skippy) < 0 {
          return false, 0;
        }
        if Int64(preIndex + skippy) > |dAtA| {
          return false, 0;
        }
        return true, preIndex + skippy;
    }

    /** A length-delimited case: the length, its bounds checks, and the payload. */
    method LenCase(sw: Switch<M>, dAtA: Str, at: nat, fieldNum: int, ghost tagSize: nat) returns (ok: bool, postIndex: nat)
      requires at <= |dAtA| < TWO_63
      modifies this
      ensures ok <==> DecodeLen(sw, old(m), fieldNum, dAtA[at..], tagSize).Ok?
      ensures ok ==> at < postIndex <= |dAtA|
      ensures ok ==> DecodeLen(sw, old(m), fieldNum, dAtA[at..], tagSize) == Ok(Taken(m, tagSize + (postIndex - at)))
    {
      hide ReadVarint;
      var read, length, iNdEx := DecodeVarint(dAtA, at);
      if !read {
        return false, 0;
      }
      if IntOf(length) < 0 {
        return false, 0;
      }
      var post := Int64(iNdEx + IntOf(length));
      if post < 0 {
        return false, 0;
      }
      if post > |dAtA| {
        return false, 0;
      }
      assert dAtA[at..][iNdEx - at..iNdEx - at + length] == dAtA[iNdEx..post];
      match sw.onLen(m, fieldNum, dAtA[iNdEx..post])
      case Err => return false, 0;
      case Ok(m') =>
        m := m';
        return true, post;
    }

    /** A varint case. */
    method VarintCase(sw: Switch<M>, dAtA: Str, at: nat, fieldNum: int, ghost tagSize: nat) returns (ok: bool, iNdEx: nat)
      requires at <= |dAtA|
      modifies this
      ensures ok <==> DecodeScalar(sw, old(m), fieldNum, dAtA[at..], tagSize).Ok?
      ensures ok ==> at < iNdEx <= |dAtA|
      ensures ok ==> DecodeScalar(sw, old(m), fieldNum, dAtA[at..], tagSize) == Ok(Taken(m, tagSize + (iNdEx - at)))
    {
      hide ReadVarint;
      var v;
      ok, v, iNdEx := DecodeVarint(dAtA, at);
      if !ok {
        return;
      }
      m := sw.onVarint(m, fieldNum, v);
    }
  }

  lemma {:induction false} RepeatedNumbers<E>(num: nat, pieces: E -> seq<Piece>, list: seq<E>)
    requires 0 < num < 16 && forall e :: e in list ==> SmallNumbers(pieces(e))
    ensures SmallNumbers(Repeated(num, pieces, list))
  {
    if list != [] {
      RepeatedNumbers(num, pieces, list[1..]);
    }
  }

  lemma NumbersAppend(a: seq<Piece>, b: seq<Piece>)
    requires SmallNumbers(a) && SmallNumbers(b)
    ensures SmallNumbers(a + b)
  {}

  lemma NamedNumbers(num: nat, m: Option<Named>)
    requires 0 < num < 16
    ensures SmallNumbers(NamedPointer(num, m))
  {}

  lemma FirstNumbers(c: Codec<Coin>, m: GenesisState)
    ensures SmallNumbers(FirstFields(c, m))
  {
    var p1, p2 := [Message(1, [])], Repeated(2, NamedPieces, m.blacklistedList);
    var p3, p4 := PausedPointer(3, m.paused), NamedPointer(4, m.masterMinter);
    var p5 := Repeated(5, (e: Minters) => MintersPieces(c, e), m.mintersList);
    assert SmallNumbers(p1) && SmallNumbers(p3);
    RepeatedNumbers(2, NamedPieces, m.blacklistedList);
    RepeatedNumbers(5, (e: Minters) => MintersPieces(c, e), m.mintersList);
    hide SmallNumbers, Repeated, PausedPointer, NamedPointer;
    NamedNumbers(4, m.masterMinter);
    NumbersAppend(p1, p2);
    NumbersAppend(p1 + p2, p3);
    NumbersAppend(p1 + p2 + p3, p4);
    NumbersAppend(p1 + p2 + p3 + p4, p5);
  }

  lemma LastNumbers(m: GenesisState)
    ensures SmallNumbers(LastFields(m))
  {
    var p6, p7, p8 := NamedPointer(6, m.pauser), NamedPointer(7, m.blacklister), NamedPointer(8, m.owner);
    var p9, p10 := Repeated(9, ControllerPieces, m.minterControllerList), NamedPointer(10, m.mintingDenom);
    RepeatedNumbers(9, ControllerPieces, m.minterControllerList);
    hide SmallNumbers, Repeated, NamedPointer;
    NamedNumbers(6, m.pauser);
    NamedNumbers(7, m.blacklister);
    NamedNumbers(8, m.owner);
    NamedNumbers(10, m.mintingDenom);
    NumbersAppend(p6, p7);
    NumbersAppend(p6 + p7, p8);
    NumbersAppend(p6 + p7 + p8, p9);
    NumbersAppend(p6 + p7 + p8 + p9, p10);
  }

  lemma GenesisNumbers(c: Codec<Coin>, m: GenesisState)
    ensures SmallNumbers(GenesisPieces(c, m))
  {
    hide SmallNumbers, FirstFields, LastFields;
    FirstNumbers(c, m);
    LastNumbers(m);
    NumbersAppend(FirstFields(c, m), LastFields(m));
  }

  lemma TariffNumbers(d: Codec<int>, i: Codec<int>, m: Params)
    ensures SmallNumbers(TariffPieces(d, i, m))
  {
    RepeatedNumbers(2, (e: DistributionEntity) => EntityPieces(d, e), m.entities);
  }

  /** The loops end to end: what Marshal's buffer writes produce, Unmarshal's loop reads back. */
  method ThroughTheWire(c: Codec<Coin>, m: GenesisState) returns (ok: bool, r: GenesisState)
    requires Lawful(c) && |Encode(GenesisPieces(c, m))| < TWO_63
    ensures ok && r == m
  {
    hide Decode, Encode, GenesisPieces;
    GenesisNumbers(c, m);
    var bytes := Marshal.Marshal(GenesisPieces(c, m));
    GenesisRoundTrip(c, m);
    var receiver := new Receiver(EMPTY_GENESIS);
    ok := receiver.Unmarshal(GenesisSwitch(c), bytes);
    r := receiver.m;
  }

  method TariffThroughTheWire(d: Codec<int>, i: Codec<int>, m: Params) returns (ok: bool, r: Params)
    requires Lawful(d) && Lawful(i) && |Encode(TariffPieces(d, i, m))| < TWO_63
    ensures ok && r == m
  {
    hide Decode, Encode, TariffPieces;
    TariffNumbers(d, i, m);
    var bytes := Marshal.Marshal(TariffPieces(d, i, m));
    TariffRoundTrip(d, i, m);
    var receiver := new Receiver(EmptyTariff(d, i));
    ok := receiver.Unmarshal(TariffSwitch(d, i), bytes);
    r := receiver.m;
  }
}
