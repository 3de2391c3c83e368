/** The messages and the store in literal bytes: what every tag byte carries, in both directions, and
    what lies under every key. Nothing here goes through the tables of the messages, so a field number,
    a field or a key that were exchanged on both sides at once would show. */
module Layout {
  import opened Bytes
  import opened Varint
  import opened Wire
  import opened Marshal
  import opened Messages
  import opened Store

  // ----- blocks of bytes

  /** A tag byte, the length of the payload as a varint, and the payload. */
  function Block(tag: Byte, payload: Str): Str {
    [tag] + VarintBytes(|payload|) + payload
  }

  function NonEmpty(tag: Byte, payload: Str): Str {
    if payload == [] then [] else Block(tag, payload)
  }

  function Optional(tag: Byte, payload: Option<Str>): Str {
    if payload.None? then [] else Block(tag, payload.value)
  }

  function Blocks<E>(tag: Byte, bytes: E -> Str, list: seq<E>): Str {
    if list == [] then [] else Block(tag, bytes(list[0])) + Blocks(tag, bytes, list[1..])
  }

  lemma DataBytes(num: nat, s: Str)
    requires num < 16
    ensures Encode([Data(num, s)]) == Block(num * 8 + 2, s)
  {
    hide EncodeField;
    EncodeOne(Data(num, s));
    LenFieldShape(num, s);
  }

  lemma MessageBytes(num: nat, inner: seq<Piece>)
    requires num < 16
    ensures Encode([Message(num, inner)]) == Block(num * 8 + 2, Encode(inner))
  {
    hide EncodeField;
    EncodeOne(Message(num, inner));
    LenFieldShape(num, Encode(inner));
  }

  lemma TextPieceBytes(num: nat, s: Str)
    requires num < 16
    ensures Encode(Text(num, s)) == NonEmpty(num * 8 + 2, s)
  {
    hide Encode, Block;
    if s == [] {
      NothingEncoded();
    } else {
      DataBytes(num, s);
    }
  }

  lemma NothingEncoded()
    ensures Encode([]) == []
  {}

  lemma PointerBytes(num: nat, inner: Option<seq<Piece>>)
    requires num < 16
    ensures Encode(Pointer(num, inner)) == Optional(num * 8 + 2, if inner.Some? then Some(Encode(inner.value)) else None)
  {
    hide Encode, Block;
    match inner
    case None => NothingEncoded();
    case Some(pieces) => MessageBytes(num, pieces);
  }

  lemma {:induction false} RepeatedBytes<E>(num: nat, pieces: E -> seq<Piece>, bytes: E -> Str, list: seq<E>)
    requires num < 16 && forall e :: e in list ==> bytes(e) == Encode(pieces(e))
    ensures Encode(Repeated(num, pieces, list)) == Blocks(num * 8 + 2, bytes, list)
    decreases |list|
  {
    hide Encode, Block;
    if list == [] {
      NothingEncoded();
    } else {
      MessageBytes(num, pieces(list[0]));
      EncodeAppend([Message(num, pieces(list[0]))], Repeated(num, pieces, list[1..]));
      RepeatedBytes(num, pieces, bytes, list[1..]);
    }
  }

  // ----- what Marshal writes

  /** MasterMinter, Pauser, Blacklister, Owner, MintingDenom and Blacklisted. */
  function NamedBytes(m: Named): Str {
    NonEmpty(0x0a, m.text)
  }

  function PausedBytes(m: Paused): Str {
    if m.paused then [0x08, 0x01] else []
  }

  function MintersBytes(c: Codec<Coin>, m: Minters): Str {
    NonEmpty(0x0a, m.address) + Block(0x12, c.enc(m.allowance))
  }

  function ControllerBytes(m: MinterController): Str {
    NonEmpty(0x0a, m.minter) + NonEmpty(0x12, m.controller)
  }

  function EntityBytes(d: Codec<int>, m: DistributionEntity): Str {
    NonEmpty(0x0a, m.address) + Block(0x12, d.enc(m.share))
  }

  lemma NamedLayout(m: Named)
    ensures Encode(NamedPieces(m)) == NamedBytes(m)
  {
    hide Encode, NonEmpty;
    TextPieceBytes(1, m.text);
  }

  lemma PausedLayout(m: Paused)
    ensures Encode(PausedPieces(m)) == PausedBytes(m)
  {
    hide EncodeField;
    if m.paused {
      EncodeOne(Flag(1));
      FlagShape(1);
    }
  }

  lemma MintersLayout(c: Codec<Coin>, m: Minters)
    ensures Encode(MintersPieces(c, m)) == MintersBytes(c, m)
  {
    hide Encode, Block, NonEmpty, Text;
    EncodeAppend(Text(1, m.address), [Data(2, c.enc(m.allowance))]);
    TextPieceBytes(1, m.address);
    DataBytes(2, c.enc(m.allowance));
  }

  lemma ControllerLayout(m: MinterController)
    ensures Encode(ControllerPieces(m)) == ControllerBytes(m)
  {
    hide Encode, Block, NonEmpty, Text;
    EncodeAppend(Text(1, m.minter), Text(2, m.controller));
    TextPieceBytes(1, m.minter);
    TextPieceBytes(2, m.controller);
  }

  lemma EntityLayout(d: Codec<int>, m: DistributionEntity)
    ensures Encode(EntityPieces(d, m)) == EntityBytes(d, m)
  {
    hide Encode, Block, NonEmpty, Text;
    EncodeAppend(Text(1, m.address), [Data(2, d.enc(m.share))]);
    TextPieceBytes(1, m.address);
    DataBytes(2, d.enc(m.share));
  }

  lemma EntitiesLayout(d: Codec<int>, list: seq<DistributionEntity>)
    ensures Encode(Repeated(2, (e: DistributionEntity) => EntityPieces(d, e), list))
         == Blocks(0x12, (e: DistributionEntity) => EntityBytes(d, e), list)
  {
    hide Encode, Blocks, Repeated, EntityPieces, EntityBytes;
    forall e | e in list
      ensures EntityBytes(d, e) == Encode(EntityPieces(d, e))
    {
      EntityLayout(d, e);
    }
    RepeatedBytes(2, (e: DistributionEntity) => EntityPieces(d, e), (e: DistributionEntity) => EntityBytes(d, e), list);
  }

  lemma EncodeFive(p1: seq<Piece>, p2: seq<Piece>, p3: seq<Piece>, p4: seq<Piece>, p5: seq<Piece>)
    ensures Encode(p1 + p2 + p3 + p4 + p5) == Encode(p1) + Encode(p2) + Encode(p3) + Encode(p4) + Encode(p5)
  {
    hide Encode;
    EncodeAppend(p1 + p2 + p3 + p4, p5);
    EncodeAppend(p1 + p2 + p3, p4);
    EncodeAppend(p1 + p2, p3);
    EncodeAppend(p1, p2);
  }

  /** The tariff parameters, byte for byte. */
  lemma TariffLayout(d: Codec<int>, i: Codec<int>, m: Params)
    ensures Encode(TariffPieces(d, i, m))
         == Block(0x0a, d.enc(m.share))
            + Blocks(0x12, (e: DistributionEntity) => EntityBytes(d, e), m.entities)
            + Block(0x1a, i.enc(m.feeBps))
            + Block(0x22, i.enc(m.feeMax))
            + NonEmpty(0x2a, m.feeDenom)
  {
    var p1, p2 := [Data(1, d.enc(m.share))], Repeated(2, (e: DistributionEntity) => EntityPieces(d, e), m.entities);
    var p3, p4, p5 := [Data(3, i.enc(m.feeBps))], [Data(4, i.enc(m.feeMax))], Text(5, m.feeDenom);
    hide Encode, Block, Blocks, NonEmpty, Text, Repeated, EntityPieces, EntityBytes;
    EncodeFive(p1, p2, p3, p4, p5);
    DataBytes(1, d.enc(m.share));
    EntitiesLayout(d, m.entities);
    DataBytes(3, i.enc(m.feeBps));
    DataBytes(4, i.enc(m.feeMax));
    TextPieceBytes(5, m.feeDenom);
  }

  function OptionalNamed(tag: Byte, m: Option<Named>): Str {
    Optional(tag, if m.Some? then Some(NamedBytes(m.value)) else None)
  }

  lemma NamedPointerBytes(num: nat, m: Option<Named>)
    requires num < 16
    ensures Encode(NamedPointer(num, m)) == OptionalNamed(num * 8 + 2, m)
  {
    hide Encode, Optional, NamedPieces, NamedBytes, Pointer;
    PointerBytes(num, if m.Some? then Some(NamedPieces(m.value)) else None);
    if m.Some? {
      NamedLayout(m.value);
    }
  }

  lemma PausedPointerBytes(m: Option<Paused>)
    ensures Encode(PausedPointer(3, m)) == Optional(0x1a, if m.Some? then Some(PausedBytes(m.value)) else None)
  {
    hide Encode, Optional, PausedPieces, PausedBytes, Pointer;
    PointerBytes(3, if m.Some? then Some(PausedPieces(m.value)) else None);
    if m.Some? {
      PausedLayout(m.value);
    }
  }

  /** Fields 1 to 5 of the genesis state, byte for byte: the empty module parameters are always there. */
  lemma FirstFieldsLayout(c: Codec<Coin>, m: GenesisState)
    ensures Encode(FirstFields(c, m))
         == Block(0x0a, [])
            + Blocks(0x12, NamedBytes, m.blacklistedList)
            + Optional(0x1a, if m.paused.Some? then Some(PausedBytes(m.paused.value)) else None)
            + OptionalNamed(0x22, m.masterMinter)
            + Blocks(0x2a, (e: Minters) => MintersBytes(c, e), m.mintersList)
  {
    var p1, p2 := [Message(1, [])], Repeated(2, NamedPieces, m.blacklistedList);
    var p3, p4 := PausedPointer(3, m.paused), NamedPointer(4, m.masterMinter);
    var p5 := Repeated(5, (e: Minters) => MintersPieces(c, e), m.mintersList);
    forall e | e in m.blacklistedList
      ensures NamedBytes(e) == Encode(NamedPieces(e))
    {
      NamedLayout(e);
    }
    forall e | e in m.mintersList
      ensures MintersBytes(c, e) == Encode(MintersPieces(c, e))
    {
      MintersLayout(c, e);
    }
    hide Encode, Block, Blocks, Optional, OptionalNamed, Repeated, PausedPointer, NamedPointer, NamedPieces, NamedBytes,
         MintersPieces, MintersBytes, PausedBytes;
    EncodeFive(p1, p2, p3, p4, p5);
    MessageBytes(1, []);
    NothingEncoded();
    RepeatedBytes(2, NamedPieces, NamedBytes, m.blacklistedList);
    PausedPointerBytes(m.paused);
    NamedPointerBytes(4, m.masterMinter);
    RepeatedBytes(5, (e: Minters) => MintersPieces(c, e), (e: Minters) => MintersBytes(c, e), m.mintersList);
  }

  /** Fields 6 to 10. */
  lemma LastFieldsLayout(m: GenesisState)
    ensures Encode(LastFields(m))
         == OptionalNamed(0x32, m.pauser)
            + OptionalNamed(0x3a, m.blacklister)
            + OptionalNamed(0x42, m.owner)
            + Blocks(0x4a, ControllerBytes, m.minterControllerList)
            + OptionalNamed(0x52, m.mintingDenom)
  {
    var p6, p7, p8 := NamedPointer(6, m.pauser), NamedPointer(7, m.blacklister), NamedPointer(8, m.owner);
    var p9, p10 := Repeated(9, ControllerPieces, m.minterControllerList), NamedPointer(10, m.mintingDenom);
    forall e | e in m.minterControllerList
      ensures ControllerBytes(e) == Encode(ControllerPieces(e))
    {
      ControllerLayout(e);
    }
    hide Encode, Blocks, OptionalNamed, Repeated, NamedPointer, ControllerPieces, ControllerBytes;
    EncodeFive(p6, p7, p8, p9, p10);
    NamedPointerBytes(6, m.pauser);
    NamedPointerBytes(7, m.blacklister);
    NamedPointerBytes(8, m.owner);
    RepeatedBytes(9, ControllerPieces, ControllerBytes, m.minterControllerList);
    NamedPointerBytes(10, m.mintingDenom);
  }

  /** The whole genesis state, byte for byte. */
  lemma GenesisLayout(c: Codec<Coin>, m: GenesisState)
    ensures Encode(GenesisPieces(c, m))
         == (Block(0x0a, [])
             + Blocks(0x12, NamedBytes, m.blacklistedList)
             + Optional(0x1a, if m.paused.Some? then Some(PausedBytes(m.paused.value)) else None)
             + OptionalNamed(0x22, m.masterMinter)
             + Blocks(0x2a, (e: Minters) => MintersBytes(c, e), m.mintersList))
            + (OptionalNamed(0x32, m.pauser)
               + OptionalNamed(0x3a, m.blacklister)
               + OptionalNamed(0x42, m.owner)
               + Blocks(0x4a, ControllerBytes, m.minterControllerList)
               + OptionalNamed(0x52, m.mintingDenom))
  {
    FirstFieldsLayout(c, m);
    LastFieldsLayout(m);
    EncodeAppend(FirstFields(c, m), LastFields(m));
    hide Encode, FirstFields, LastFields, Block, Blocks, Optional, OptionalNamed;
  }

  // ----- what Unmarshal reads

  /** A block goes to the case of its field number. */
  lemma BlockDecodes<M>(sw: Switch<M>, m: M, num: nat, p: Str)
    requires 0 < num < 16 && sw.kind(num) == LenKind && |p| < TWO_63
    ensures Decode(sw, m, Block(num * 8 + 2, p)) == sw.onLen(m, num, p)
  {
    hide Decode, EncodeField;
    LenFieldShape(num, p);
    WrittenFields(num, p, 0);
    DecodeKnownLen(sw, m, LenOf(num, p));
  }

  lemma NamedReads(m: Named, p: Str)
    requires |p| < TWO_63
    ensures Decode(NamedSwitch(), m, Block(0x0a, p)) == Ok(Named(p))
  {
    hide Decode, Block;
    BlockDecodes(NamedSwitch(), m, 1, p);
  }

  lemma PausedReads(m: Paused, v: nat)
    requires v < TWO_64
    ensures Decode(PausedSwitch(), m, [0x08] + VarintBytes(v)) == Ok(Paused(v != 0))
  {
    WrittenFields(1, [], v);
    assert Tag(1, 0) == [0x08];
    hide Decode, VarintBytes, Tag;
    DecodeKnownVarint(PausedSwitch(), m, VarintOf(1, v));
  }

  lemma ControllerReads(m: MinterController, p: Str)
    requires |p| < TWO_63
    ensures Decode(ControllerSwitch(), m, Block(0x0a, p)) == Ok(MinterController(p, m.controller))
    ensures Decode(ControllerSwitch(), m, Block(0x12, p)) == Ok(MinterController(m.minter, p))
  {
    hide Decode, Block;
    BlockDecodes(ControllerSwitch(), m, 1, p);
    BlockDecodes(ControllerSwitch(), m, 2, p);
  }

  lemma MintersReads(c: Codec<Coin>, m: Minters, p: Str)
    requires |p| < TWO_63
    ensures Decode(MintersSwitch(c), m, Block(0x0a, p)) == Ok(Minters(p, m.allowance))
    ensures Decode(MintersSwitch(c), m, Block(0x12, p))
         == match c.dec(m.allowance, p) case Err => Err case Ok(coin) => Ok(Minters(m.address, coin))
  {
    hide Decode, Block;
    BlockDecodes(MintersSwitch(c), m, 1, p);
    BlockDecodes(MintersSwitch(c), m, 2, p);
  }

  lemma EntityReads(d: Codec<int>, m: DistributionEntity, p: Str)
    requires |p| < TWO_63
    ensures Decode(EntitySwitch(d), m, Block(0x0a, p)) == Ok(DistributionEntity(p, m.share))
    ensures Decode(EntitySwitch(d), m, Block(0x12, p))
         == match d.dec(m.share, p) case Err => Err case Ok(share) => Ok(DistributionEntity(m.address, share))
  {
    hide Decode, Block;
    BlockDecodes(EntitySwitch(d), m, 1, p);
    BlockDecodes(EntitySwitch(d), m, 2, p);
  }

  /** The five fields of the tariff parameters, by tag byte; every other field of the receiver stays. */
  lemma TariffReads(d: Codec<int>, i: Codec<int>, m: Params, p: Str)
    requires |p| < TWO_63
    ensures Decode(TariffSwitch(d, i), m, Block(0x0a, p))
         == match d.dec(m.share, p) case Err => Err case Ok(v) => Ok(Params(v, m.entities, m.feeBps, m.feeMax, m.feeDenom))
    ensures Decode(TariffSwitch(d, i), m, Block(0x12, p))
         == match Decode(EntitySwitch(d), DistributionEntity([], d.zero), p)
            case Err => Err
            case Ok(e) => Ok(Params(m.share, m.entities + [e], m.feeBps, m.feeMax, m.feeDenom))
    ensures Decode(TariffSwitch(d, i), m, Block(0x1a, p))
         == match i.dec(m.feeBps, p) case Err => Err case Ok(v) => Ok(Params(m.share, m.entities, v, m.feeMax, m.feeDenom))
    ensures Decode(TariffSwitch(d, i), m, Block(0x22, p))
         == match i.dec(m.feeMax, p) case Err => Err case Ok(v) => Ok(Params(m.share, m.entities, m.feeBps, v, m.feeDenom))
    ensures Decode(TariffSwitch(d, i), m, Block(0x2a, p)) == Ok(Params(m.share, m.entities, m.feeBps, m.feeMax, p))
  {
    hide Decode, Block;
    var sw := TariffSwitch(d, i);
    BlockDecodes(sw, m, 1, p);
    BlockDecodes(sw, m, 2, p);
    BlockDecodes(sw, m, 3, p);
    BlockDecodes(sw, m, 4, p);
    BlockDecodes(sw, m, 5, p);
  }

  /** The value that a pointer field is decoded into: what it points to, or a fresh one. */
  function Pointee(m: Option<Named>): Named {
    match m
    case None => Named([])
    case Some(v) => v
  }

  /** The five pointer fields of one string each, by tag byte. */
  lemma GenesisNamedReads(c: Codec<Coin>, m: GenesisState, p: Str)
    requires |p| < TWO_63
    ensures Decode(GenesisSwitch(c), m, Block(0x22, p))
         == match Decode(NamedSwitch(), Pointee(m.masterMinter), p) case Err => Err case Ok(v) => Ok(m.(masterMinter := Some(v)))
    ensures Decode(GenesisSwitch(c), m, Block(0x32, p))
         == match Decode(NamedSwitch(), Pointee(m.pauser), p) case Err => Err case Ok(v) => Ok(m.(pauser := Some(v)))
    ensures Decode(GenesisSwitch(c), m, Block(0x3a, p))
         == match Decode(NamedSwitch(), Pointee(m.blacklister), p) case Err => Err case Ok(v) => Ok(m.(blacklister := Some(v)))
    ensures Decode(GenesisSwitch(c), m, Block(0x42, p))
         == match Decode(NamedSwitch(), Pointee(m.owner), p) case Err => Err case Ok(v) => Ok(m.(owner := Some(v)))
    ensures Decode(GenesisSwitch(c), m, Block(0x52, p))
         == match Decode(NamedSwitch(), Pointee(m.mintingDenom), p) case Err => Err case Ok(v) => Ok(m.(mintingDenom := Some(v)))
  {
    hide Decode, Block, NamedSwitch;
    var sw := GenesisSwitch(c);
    BlockDecodes(sw, m, 4, p);
    BlockDecodes(sw, m, 6, p);
    BlockDecodes(sw, m, 7, p);
    BlockDecodes(sw, m, 8, p);
    BlockDecodes(sw, m, 10, p);
  }

  /** The other five: module parameters, blacklist, pause flag, minters and controllers. */
  lemma GenesisOtherReads(c: Codec<Coin>, m: GenesisState, p: Str)
    requires |p| < TWO_63
    ensures Decode(GenesisSwitch(c), m, Block(0x0a, p)) == if Decode(ParamsSwitch(), (), p).Ok? then Ok(m) else Err
    ensures Decode(GenesisSwitch(c), m, Block(0x12, p))
         == match Decode(NamedSwitch(), Named([]), p)
            case Err => Err
            case Ok(e) => Ok(m.(blacklistedList := m.blacklistedList + [e]))
    ensures Decode(GenesisSwitch(c), m, Block(0x1a, p))
         == match Decode(PausedSwitch(), if m.paused.Some? then m.paused.value else Paused(false), p)
            case Err => Err
            case Ok(v) => Ok(m.(paused := Some(v)))
    ensures Decode(GenesisSwitch(c), m, Block(0x2a, p))
         == match Decode(MintersSwitch(c), Minters([], c.zero), p)
            case Err => Err
            case Ok(e) => Ok(m.(mintersList := m.mintersList + [e]))
    ensures Decode(GenesisSwitch(c), m, Block(0x4a, p))
         == match Decode(ControllerSwitch(), MinterController([], []), p)
            case Err => Err
            case Ok(e) => Ok(m.(minterControllerList := m.minterControllerList + [e]))
  {
    hide Decode, Block, NamedSwitch, PausedSwitch, MintersSwitch, ControllerSwitch, ParamsSwitch;
    var sw := GenesisSwitch(c);
    BlockDecodes(sw, m, 1, p);
    BlockDecodes(sw, m, 2, p);
    BlockDecodes(sw, m, 3, p);
    BlockDecodes(sw, m, 5, p);
    BlockDecodes(sw, m, 9, p);
  }

  // ----- the store

  lemma SlotBytes(c: Codec<Coin>, store: map<Str, Str>, st: State, s: Slot)
    requires Represents(c, store, st)
    ensures KeyOf(s) in store <==> Lookup(st, s).Some?
    ensures KeyOf(s) in store ==> store[KeyOf(s)] == ValueBytes(c, Lookup(st, s).value)
  {
    hide KeyOf, Lookup, ValueBytes;
  }

  lemma CellKeys()
    ensures KeyOf(OwnerS) == Ascii("Owner/value/") && KeyOf(PendingOwnerS) == Ascii("PendingOwner/value/")
    ensures KeyOf(MasterMinterS) == Ascii("MasterMinter/value/") && KeyOf(PauserS) == Ascii("Pauser/value/")
    ensures KeyOf(BlacklisterS) == Ascii("Blacklister/value/") && KeyOf(PausedS) == Ascii("Paused/value/")
    ensures KeyOf(MintingDenomS) == Ascii("MintingDenom/value/") + Ascii("MintingDenom/value/")
  {
    hide Ascii;
    forall k: Str
      ensures k + [] == k
    {}
  }

  /** The seven cells of the store under their keys. The minting denom sits in a prefix store, under
      its own prefix again. */
  lemma CellLayout(c: Codec<Coin>, store: map<Str, Str>, st: State)
    requires Represents(c, store, st)
    ensures Ascii("Owner/value/") in store <==> st.owner.Some?
    ensures st.owner.Some? ==> store[Ascii("Owner/value/")] == NamedBytes(st.owner.value)
    ensures Ascii("PendingOwner/value/") in store <==> st.pendingOwner.Some?
    ensures st.pendingOwner.Some? ==> store[Ascii("PendingOwner/value/")] == NamedBytes(st.pendingOwner.value)
    ensures Ascii("MasterMinter/value/") in store <==> st.masterMinter.Some?
    ensures st.masterMinter.Some? ==> store[Ascii("MasterMinter/value/")] == NamedBytes(st.masterMinter.value)
    ensures Ascii("Pauser/value/") in store <==> st.pauser.Some?
    ensures st.pauser.Some? ==> store[Ascii("Pauser/value/")] == NamedBytes(st.pauser.value)
    ensures Ascii("Blacklister/value/") in store <==> st.blacklister.Some?
    ensures st.blacklister.Some? ==> store[Ascii("Blacklister/value/")] == NamedBytes(st.blacklister.value)
    ensures Ascii("MintingDenom/value/") + Ascii("MintingDenom/value/") in store <==> st.mintingDenom.Some?
    ensures st.mintingDenom.Some? ==> store[Ascii("MintingDenom/value/") + Ascii("MintingDenom/value/")] == NamedBytes(st.mintingDenom.value)
    ensures Ascii("Paused/value/") in store <==> st.paused.Some?
    ensures st.paused.Some? ==> store[Ascii("Paused/value/")] == PausedBytes(st.paused.value)
  {
    CellKeys();
    hide Represents, NamedBytes, PausedBytes, NamedPieces, PausedPieces, Encode, Ascii, KeyOf;
    NamedCellLayout(c, store, st, OwnerS, st.owner);
    NamedCellLayout(c, store, st, PendingOwnerS, st.pendingOwner);
    NamedCellLayout(c, store, st, MasterMinterS, st.masterMinter);
    NamedCellLayout(c, store, st, PauserS, st.pauser);
    NamedCellLayout(c, store, st, BlacklisterS, st.blacklister);
    NamedCellLayout(c, store, st, MintingDenomS, st.mintingDenom);
    SlotBytes(c, store, st, PausedS);
    if st.paused.Some? {
      PausedLayout(st.paused.value);
    }
  }

  lemma NamedCellLayout(c: Codec<Coin>, store: map<Str, Str>, st: State, s: Slot, cell: Option<Named>)
    requires Represents(c, store, st) && Lookup(st, s) == if cell.Some? then Some(NamedV(cell.value)) else None
    ensures KeyOf(s) in store <==> cell.Some?
    ensures cell.Some? ==> store[KeyOf(s)] == NamedBytes(cell.value)
  {
    hide Represents, NamedBytes, NamedPieces, Encode, KeyOf, Lookup;
    SlotBytes(c, store, st, s);
    if cell.Some? {
      NamedLayout(cell.value);
    }
  }

  /** The three collections: an entry lies under its prefix, its address and a slash. */
  lemma EntryLayout(c: Codec<Coin>, store: map<Str, Str>, st: State, a: Str)
    requires Represents(c, store, st)
    ensures Ascii("Blacklisted/value/") + (a + [0x2f]) in store <==> a in st.blacklisted
    ensures a in st.blacklisted ==> store[Ascii("Blacklisted/value/") + (a + [0x2f])] == NamedBytes(st.blacklisted[a])
    ensures Ascii("Minters/value/") + (a + [0x2f]) in store <==> a in st.minters
    ensures a in st.minters ==> store[Ascii("Minters/value/") + (a + [0x2f])] == MintersBytes(c, st.minters[a])
    ensures Ascii("MinterController/value/") + (a + [0x2f]) in store <==> a in st.controllers
    ensures a in st.controllers ==>
              store[Ascii("MinterController/value/") + (a + [0x2f])] == ControllerBytes(st.controllers[a])
  {
    hide Represents, NamedBytes, MintersBytes, ControllerBytes, NamedPieces, MintersPieces, ControllerPieces, Encode, Ascii;
    SlotBytes(c, store, st, BlacklistedS(a));
    SlotBytes(c, store, st, MintersS(a));
    SlotBytes(c, store, st, ControllerS(a));
    if a in st.blacklisted {
      NamedLayout(st.blacklisted[a]);
    }
    if a in st.minters {
      MintersLayout(c, st.minters[a]);
    }
    if a in st.controllers {
      ControllerLayout(st.controllers[a]);
    }
  }
}
