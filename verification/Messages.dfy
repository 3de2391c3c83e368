/** The messages of the tokenfactory genesis state and of the tariff parameters: what their generated
    code writes (pieces), what their `switch fieldNum` does (switches), and what decoding one message
    on top of another means (merges). */
module Messages {
  import opened Bytes
  import opened Varint
  import opened Wire
  import opened Marshal

  // ----- types of the Cosmos SDK whose code is not part of this model

  datatype Coin = Coin(denom: Str, amount: int)

  /** The codec of a type defined elsewhere: its bytes, decoding into a receiver, and what that does
      to the receiver. */
  datatype Codec<!T> = Codec(enc: T -> Str, dec: (T, Str) -> Result<T>, merge: (T, T) -> T, zero: T)

  /** The one assumption on such a codec: bytes that fit in a Go slice decode, and on a fresh value
      they give the value. */
  ghost predicate Lawful<T(!new)>(c: Codec<T>) {
    && (forall old', x :: |c.enc(x)| < TWO_63 ==> c.dec(old', c.enc(x)) == Ok(c.merge(old', x)))
    && (forall x :: c.merge(c.zero, x) == x)
  }

  // ----- small building blocks

  /** A proto3 string or bytes field: written only when it is not empty. */
  function Text(num: nat, s: Str): seq<Piece> {
    if s == [] then [] else [Data(num, s)]
  }

  function MergeText(was: Str, now: Str): Str {
    if now == [] then was else now
  }

  /** Field by field: decoding x and then y in front of and behind each other. */
  lemma Then<M>(sw: Switch<M>, m: M, a: seq<Piece>, m1: M, b: seq<Piece>, m2: M)
    requires Decode(sw, m, Encode(a)) == Ok(m1) && Decode(sw, m1, Encode(b)) == Ok(m2)
    ensures Decode(sw, m, Encode(a + b)) == Ok(m2)
  {
    hide *;
    EncodeAppend(a, b);
    DecodeConcat(sw, m, Encode(a), Encode(b));
  }

  lemma NoPieces<M>(sw: Switch<M>, m: M)
    ensures Decode(sw, m, Encode([])) == Ok(m)
  {}

  lemma PartsFit(a: seq<Piece>, b: seq<Piece>)
    ensures |Encode(a)| <= |Encode(a + b)| && |Encode(b)| <= |Encode(a + b)|
  {
    EncodeAppend(a, b);
  }

  lemma OneData<M>(sw: Switch<M>, m: M, num: nat, bytes: Str)
    requires 0 < num < 16 && sw.kind(num) == LenKind && |Encode([Data(num, bytes)])| < TWO_63
    ensures |bytes| < TWO_63
    ensures Decode(sw, m, Encode([Data(num, bytes)])) == sw.onLen(m, num, bytes)
  {
    hide Decode, EncodeField;
    EncodeOne(Data(num, bytes));
    LenFieldShape(num, bytes);
    WrittenFields(num, bytes, 0);
    DecodeKnownLen(sw, m, LenOf(num, bytes));
  }

  lemma OneMessage<M>(sw: Switch<M>, m: M, num: nat, inner: seq<Piece>)
    requires 0 < num < 16 && sw.kind(num) == LenKind && |Encode([Message(num, inner)])| < TWO_63
    ensures |Encode(inner)| < TWO_63
    ensures Decode(sw, m, Encode([Message(num, inner)])) == sw.onLen(m, num, Encode(inner))
  {
    hide Decode, EncodeField;
    EncodeOne(Message(num, inner));
    LenFieldShape(num, Encode(inner));
    WrittenFields(num, Encode(inner), 0);
    DecodeKnownLen(sw, m, LenOf(num, Encode(inner)));
  }

  lemma OneFlag<M>(sw: Switch<M>, m: M, num: nat)
    requires 0 < num < 16 && sw.kind(num) == VarintKind
    ensures Decode(sw, m, Encode([Flag(num)])) == Ok(sw.onVarint(m, num, 1))
  {
    hide Decode, EncodeField;
    EncodeOne(Flag(num));
    WrittenFields(num, [], 1);
    DecodeKnownVarint(sw, m, VarintOf(num, 1));
  }

  lemma OneText<M>(sw: Switch<M>, m: M, num: nat, s: Str, m': M)
    requires 0 < num < 16 && sw.kind(num) == LenKind && |Encode(Text(num, s))| < TWO_63
    requires if s == [] then m' == m else sw.onLen(m, num, s) == Ok(m')
    ensures Decode(sw, m, Encode(Text(num, s))) == Ok(m')
  {
    hide Decode, Encode;
    if s == [] {
      NoPieces(sw, m);
    } else {
      OneData(sw, m, num, s);
    }
  }

  // ----- the messages with one string or bytes field: MasterMinter, Pauser, Blacklister, Owner,
  //       MintingDenom and Blacklisted

  datatype Named = Named(text: Str)

  function NamedPieces(m: Named): seq<Piece> {
    Text(1, m.text)
  }

  function NamedSwitch(): Switch<Named> {
    Switch(num => if num == 1 then LenKind else Unknown, (m, num, p) => Ok(Named(p)), (m, num, v) => m)
  }

  function MergeNamed(was: Named, now: Named): Named {
    Named(MergeText(was.text, now.text))
  }

  lemma DecodeNamed(was: Named, m: Named)
    requires |Encode(NamedPieces(m))| < TWO_63
    ensures Decode(NamedSwitch(), was, Encode(NamedPieces(m))) == Ok(MergeNamed(was, m))
  {
    hide Decode, Encode;
    OneText(NamedSwitch(), was, 1, m.text, MergeNamed(was, m));
  }

  // ----- Paused

  datatype Paused = Paused(paused: bool)

  function PausedPieces(m: Paused): seq<Piece> {
    if m.paused then [Flag(1)] else []
  }

  function PausedSwitch(): Switch<Paused> {
    Switch(num => if num == 1 then VarintKind else Unknown, (m, num, p) => Err, (m, num, v) => Paused(v != 0))
  }

  function MergePaused(was: Paused, now: Paused): Paused {
    if now.paused then now else was
  }

  lemma DecodePaused(was: Paused, m: Paused)
    ensures Decode(PausedSwitch(), was, Encode(PausedPieces(m))) == Ok(MergePaused(was, m))
  {
    hide Decode, Encode;
    if m.paused {
      OneFlag(PausedSwitch(), was, 1);
    } else {
      NoPieces(PausedSwitch(), was);
    }
  }

  // ----- MinterController

  datatype MinterController = MinterController(minter: Str, controller: Str)

  function ControllerPieces(m: MinterController): seq<Piece> {
    Text(1, m.minter) + Text(2, m.controller)
  }

  function ControllerSwitch(): Switch<MinterController> {
    Switch(
      num => if num == 1 || num == 2 then LenKind else Unknown,
      (m: MinterController, num, p) => if num == 1 then Ok(m.(minter := p)) else Ok(m.(controller := p)),
      (m, num, v) => m)
  }

  function MergeController(was: MinterController, now: MinterController): MinterController {
    MinterController(MergeText(was.minter, now.minter), MergeText(was.controller, now.controller))
  }

  lemma DecodeController(was: MinterController, m: MinterController)
    requires |Encode(ControllerPieces(m))| < TWO_63
    ensures Decode(ControllerSwitch(), was, Encode(ControllerPieces(m))) == Ok(MergeController(was, m))
  {
    hide Decode, Encode, Text;
    var sw := ControllerSwitch();
    var m1 := was.(minter := MergeText(was.minter, m.minter));
    PartsFit(Text(1, m.minter), Text(2, m.controller));
    OneText(sw, was, 1, m.minter, m1);
    OneText(sw, m1, 2, m.controller, MergeController(was, m));
    Then(sw, was, Text(1, m.minter), m1, Text(2, m.controller), MergeController(was, m));
  }

  // ----- Minters

  datatype Minters = Minters(address: Str, allowance: Coin)

  function MintersPieces(c: Codec<Coin>, m: Minters): seq<Piece> {
    Text(1, m.address) + [Data(2, c.enc(m.allowance))]
  }

  function MintersOnLen(c: Codec<Coin>, m: Minters, num: int, p: Str): Result<Minters> {
    if num == 1 then Ok(m.(address := p))
    else
      match c.dec(m.allowance, p)
      case Err => Err
      case Ok(coin) => Ok(m.(allowance := coin))
  }

  function MintersSwitch(c: Codec<Coin>): Switch<Minters> {
    Switch(
      num => if num == 1 || num == 2 then LenKind else Unknown,
      (m, num, p) => MintersOnLen(c, m, num, p),
      (m, num, v) => m)
  }

  function MergeMinters(c: Codec<Coin>, was: Minters, now: Minters): Minters {
    Minters(MergeText(was.address, now.address), c.merge(was.allowance, now.allowance))
  }

  lemma DecodeMinters(c: Codec<Coin>, was: Minters, m: Minters)
    requires Lawful(c) && |Encode(MintersPieces(c, m))| < TWO_63
    ensures Decode(MintersSwitch(c), was, Encode(MintersPieces(c, m))) == Ok(MergeMinters(c, was, m))
  {
    hide Decode, Encode, Text;
    var sw := MintersSwitch(c);
    var m1 := was.(address := MergeText(was.address, m.address));
    var coin := [Data(2, c.enc(m.allowance))];
    PartsFit(Text(1, m.address), coin);
    OneText(sw, was, 1, m.address, m1);
    OneData(sw, m1, 2, c.enc(m.allowance));
    Then(sw, was, Text(1, m.address), m1, coin, MergeMinters(c, was, m));
  }

  // ----- GenesisState

  /** The module's Params message has no fields; a slice is a sequence, a pointer an option. */
  datatype GenesisState = GenesisState(
    blacklistedList: seq<Named>,
    paused: Option<Paused>,
    masterMinter: Option<Named>,
    mintersList: seq<Minters>,
    pauser: Option<Named>,
    blacklister: Option<Named>,
    owner: Option<Named>,
    minterControllerList: seq<MinterController>,
    mintingDenom: Option<Named>)

  const EMPTY_GENESIS: GenesisState := GenesisState([], None, None, [], None, None, None, [], None)

  /** A pointer field: an embedded message when it is not nil, even one with no bytes. */
  function Pointer(num: nat, inner: Option<seq<Piece>>): seq<Piece> {
    match inner
    case None => []
    case Some(pieces) => [Message(num, pieces)]
  }

  function NamedPointer(num: nat, m: Option<Named>): seq<Piece> {
    Pointer(num, if m.Some? then Some(NamedPieces(m.value)) else None)
  }

  function PausedPointer(num: nat, m: Option<Paused>): seq<Piece> {
    Pointer(num, if m.Some? then Some(PausedPieces(m.value)) else None)
  }

  /** A repeated field: one embedded message per element, in order. */
  function Repeated<E>(num: nat, pieces: E -> seq<Piece>, list: seq<E>): seq<Piece> {
    if list == [] then [] else [Message(num, pieces(list[0]))] + Repeated(num, pieces, list[1..])
  }

  /** Fields 1 to 5 and 6 to 10, in field order. */
  function FirstFields(c: Codec<Coin>, m: GenesisState): seq<Piece> {
    [Message(1, [])]
    + Repeated(2, NamedPieces, m.blacklistedList)
    + PausedPointer(3, m.paused)
    + NamedPointer(4, m.masterMinter)
    + Repeated(5, (e: Minters) => MintersPieces(c, e), m.mintersList)
  }

  function LastFields(m: GenesisState): seq<Piece> {
    NamedPointer(6, m.pauser)
    + NamedPointer(7, m.blacklister)
    + NamedPointer(8, m.owner)
    + Repeated(9, ControllerPieces, m.minterControllerList)
    + NamedPointer(10, m.mintingDenom)
  }

  function GenesisPieces(c: Codec<Coin>, m: GenesisState): seq<Piece> {
    FirstFields(c, m) + LastFields(m)
  }

  /** `if m.F == nil { m.F = &T{} }`, then decoding into it. */
  function IntoNamed(was: Option<Named>, p: Str): Result<Named> {
    Decode(NamedSwitch(), if was.Some? then was.value else Named([]), p)
  }

  function IntoPaused(was: Option<Paused>, p: Str): Result<Paused> {
    Decode(PausedSwitch(), if was.Some? then was.value else Paused(false), p)
  }

  function ParamsSwitch(): Switch<()> {
    Switch(num => Unknown, (m, num, p) => Err, (m, num, v) => m)
  }

  function OnParams(m: GenesisState, p: Str): Result<GenesisState> {
    if Decode(ParamsSwitch(), (), p).Ok? then Ok(m) else Err
  }

  function OnBlacklisted(m: GenesisState, p: Str): Result<GenesisState> {
    match Decode(NamedSwitch(), Named([]), p)
    case Err => Err
    case Ok(e) => Ok(m.(blacklistedList := m.blacklistedList + [e]))
  }

  function OnMinters(c: Codec<Coin>, m: GenesisState, p: Str): Result<GenesisState> {
    match Decode(MintersSwitch(c), Minters([], c.zero), p)
    case Err => Err
    case Ok(e) => Ok(m.(mintersList := m.mintersList + [e]))
  }

  function OnController(m: GenesisState, p: Str): Result<GenesisState> {
    match Decode(ControllerSwitch(), MinterController([], []), p)
    case Err => Err
    case Ok(e) => Ok(m.(minterControllerList := m.minterControllerList + [e]))
  }

  function OnPaused(m: GenesisState, p: Str): Result<GenesisState> {
    match IntoPaused(m.paused, p)
    case Err => Err
    case Ok(v) => Ok(m.(paused := Some(v)))
  }

  /** The pointer fields of one string each, by field number. */
  function NamedField(m: GenesisState, num: int): Option<Named> {
    match num
    case 4 => m.masterMinter
    case 6 => m.pauser
    case 7 => m.blacklister
    case 8 => m.owner
    case _ => m.mintingDenom
  }

  function WithNamedField(m: GenesisState, num: int, v: Option<Named>): GenesisState {
    match num
    case 4 => m.(masterMinter := v)
    case 6 => m.(pauser := v)
    case 7 => m.(blacklister := v)
    case 8 => m.(owner := v)
    case _ => m.(mintingDenom := v)
  }

  function OnNamed(m: GenesisState, num: int, p: Str): Result<GenesisState> {
    match IntoNamed(NamedField(m, num), p)
    case Err => Err
    case Ok(v) => Ok(WithNamedField(m, num, Some(v)))
  }

  function GenesisOnLen(c: Codec<Coin>, m: GenesisState, num: int, p: Str): Result<GenesisState> {
    match num
    case 1 => OnParams(m, p)
    case 2 => OnBlacklisted(m, p)
    case 3 => OnPaused(m, p)
    case 5 => OnMinters(c, m, p)
    case 9 => OnController(m, p)
    case _ => OnNamed(m, num, p)
  }

  function GenesisSwitch(c: Codec<Coin>): Switch<GenesisState> {
    Switch(
      num => if 1 <= num <= 10 then LenKind else Unknown,
      (m, num, p) => GenesisOnLen(c, m, num, p),
      (m, num, v) => m)
  }

  // ----- what decoding one genesis state on top of another means

  function MergeNamedPointer(was: Option<Named>, now: Option<Named>): Option<Named> {
    match now
    case None => was
    case Some(v) => Some(MergeNamed(if was.Some? then was.value else Named([]), v))
  }

  function MergePausedPointer(was: Option<Paused>, now: Option<Paused>): Option<Paused> {
    match now
    case None => was
    case Some(v) => Some(MergePaused(if was.Some? then was.value else Paused(false), v))
  }

  /** Repeated fields are appended, embedded messages merged, and strings overwritten by non-empty
      strings: section "Last One Wins" of the Protocol Buffers Encoding specification. */
  function MergeGenesis(was: GenesisState, now: GenesisState): GenesisState {
    GenesisState(
      was.blacklistedList + now.blacklistedList,
      MergePausedPointer(was.paused, now.paused),
      MergeNamedPointer(was.masterMinter, now.masterMinter),
      was.mintersList + now.mintersList,
      MergeNamedPointer(was.pauser, now.pauser),
      MergeNamedPointer(was.blacklister, now.blacklister),
      MergeNamedPointer(was.owner, now.owner),
      was.minterControllerList + now.minterControllerList,
      MergeNamedPointer(was.mintingDenom, now.mintingDenom))
  }

  lemma OneNamedPointer(c: Codec<Coin>, m: GenesisState, num: nat, now: Option<Named>)
    requires num in {4, 6, 7, 8, 10} && |Encode(NamedPointer(num, now))| < TWO_63
    ensures Decode(GenesisSwitch(c), m, Encode(NamedPointer(num, now)))
         == Ok(WithNamedField(m, num, MergeNamedPointer(NamedField(m, num), now)))
  {
    hide Decode, Encode, NamedPieces;
    match now
    case None => NoPieces(GenesisSwitch(c), m);
    case Some(v) =>
      var was := NamedField(m, num);
      OneMessage(GenesisSwitch(c), m, num, NamedPieces(v));
      DecodeNamed(if was.Some? then was.value else Named([]), v);
  }

  lemma OnePausedPointer(c: Codec<Coin>, m: GenesisState, now: Option<Paused>)
    requires |Encode(PausedPointer(3, now))| < TWO_63
    ensures Decode(GenesisSwitch(c), m, Encode(PausedPointer(3, now)))
         == Ok(m.(paused := MergePausedPointer(m.paused, now)))
  {
    hide Decode, Encode, PausedPieces;
    match now
    case None => NoPieces(GenesisSwitch(c), m);
    case Some(v) =>
      OneMessage(GenesisSwitch(c), m, 3, PausedPieces(v));
      DecodePaused(if m.paused.Some? then m.paused.value else Paused(false), v);
  }

  lemma {:induction false} AllBlacklisted(c: Codec<Coin>, m: GenesisState, list: seq<Named>)
    requires |Encode(Repeated(2, NamedPieces, list))| < TWO_63
    ensures Decode(GenesisSwitch(c), m, Encode(Repeated(2, NamedPieces, list)))
         == Ok(m.(blacklistedList := m.blacklistedList + list))
    decreases |list|
  {
    hide Decode, Encode, NamedPieces;
    var sw := GenesisSwitch(c);
    if list == [] {
      NoPieces(sw, m);
      assert m.blacklistedList + list == m.blacklistedList;
    } else {
      var e, m1 := list[0], m.(blacklistedList := m.blacklistedList + [list[0]]);
      var first, others := [Message(2, NamedPieces(e))], Repeated(2, NamedPieces, list[1..]);
      PartsFit(first, others);
      OneMessage(sw, m, 2, NamedPieces(e));
      DecodeNamed(Named([]), e);
      AllBlacklisted(c, m1, list[1..]);
      Then(sw, m, first, m1, others, m1.(blacklistedList := m1.blacklistedList + list[1..]));
      assert m1.blacklistedList + list[1..] == m.blacklistedList + list;
    }
  }

  lemma {:induction false} AllMinters(c: Codec<Coin>, m: GenesisState, list: seq<Minters>)
    requires Lawful(c) && |Encode(Repeated(5, (e: Minters) => MintersPieces(c, e), list))| < TWO_63
    ensures Decode(GenesisSwitch(c), m, Encode(Repeated(5, (e: Minters) => MintersPieces(c, e), list)))
         == Ok(m.(mintersList := m.mintersList + list))
    decreases |list|
  {
    hide Decode, Encode, MintersPieces;
    var sw := GenesisSwitch(c);
    if list == [] {
      NoPieces(sw, m);
      assert m.mintersList + list == m.mintersList;
    } else {
      var e, m1 := list[0], m.(mintersList := m.mintersList + [list[0]]);
      var first := [Message(5, MintersPieces(c, e))];
      var others := Repeated(5, (e: Minters) => MintersPieces(c, e), list[1..]);
      PartsFit(first, others);
      OneMessage(sw, m, 5, MintersPieces(c, e));
      DecodeMinters(c, Minters([], c.zero), e);
      AllMinters(c, m1, list[1..]);
      Then(sw, m, first, m1, others, m1.(mintersList := m1.mintersList + list[1..]));
      assert m1.mintersList + list[1..] == m.mintersList + list;
    }
  }

  lemma {:induction false} AllControllers(c: Codec<Coin>, m: GenesisState, list: seq<MinterController>)
    requires |Encode(Repeated(9, ControllerPieces, list))| < TWO_63
    ensures Decode(GenesisSwitch(c), m, Encode(Repeated(9, ControllerPieces, list)))
         == Ok(m.(minterControllerList := m.minterControllerList + list))
    decreases |list|
  {
    hide Decode, Encode, ControllerPieces;
    var sw := GenesisSwitch(c);
    if list == [] {
      NoPieces(sw, m);
      assert m.minterControllerList + list == m.minterControllerList;
    } else {
      var e, m1 := list[0], m.(minterControllerList := m.minterControllerList + [list[0]]);
      var first, others := [Message(9, ControllerPieces(e))], Repeated(9, ControllerPieces, list[1..]);
      PartsFit(first, others);
      OneMessage(sw, m, 9, ControllerPieces(e));
      DecodeController(MinterController([], []), e);
      AllControllers(c, m1, list[1..]);
      Then(sw, m, first, m1, others, m1.(minterControllerList := m1.minterControllerList + list[1..]));
      assert m1.minterControllerList + list[1..] == m.minterControllerList + list;
    }
  }

  /** The receiver after the first k of the ten fields of `now`. */
  function Upto(was: GenesisState, now: GenesisState, k: nat): GenesisState {
    var all := MergeGenesis(was, now);
    GenesisState(
      if k < 2 then was.blacklistedList else all.blacklistedList,
      if k < 3 then was.paused else all.paused,
      if k < 4 then was.masterMinter else all.masterMinter,
      if k < 5 then was.mintersList else all.mintersList,
      if k < 6 then was.pauser else all.pauser,
      if k < 7 then was.blacklister else all.blacklister,
      if k < 8 then was.owner else all.owner,
      if k < 9 then was.minterControllerList else all.minterControllerList,
      if k < 10 then was.mintingDenom else all.mintingDenom)
  }

  lemma ParamsField(c: Codec<Coin>, m: GenesisState)
    ensures Decode(GenesisSwitch(c), m, Encode([Message(1, [])])) == Ok(m)
  {
    hide Decode, Encode;
    ParamsSize();
    OneMessage(GenesisSwitch(c), m, 1, []);
    NoPieces(ParamsSwitch(), ());
  }

  lemma ParamsSize()
    ensures |Encode([Message(1, [])])| == 2
  {
    hide EncodeField;
    EncodeOne(Message(1, []));
    LenFieldShape(1, []);
    OrOne(0);
  }

  lemma DecodeFirstFields(c: Codec<Coin>, was: GenesisState, m: GenesisState)
    requires Lawful(c) && |Encode(FirstFields(c, m))| < TWO_63
    ensures Decode(GenesisSwitch(c), was, Encode(FirstFields(c, m))) == Ok(Upto(was, m, 5))
  {
    var sw := GenesisSwitch(c);
    var p1, p2 := [Message(1, [])], Repeated(2, NamedPieces, m.blacklistedList);
    var p3, p4 := PausedPointer(3, m.paused), NamedPointer(4, m.masterMinter);
    var p5 := Repeated(5, (e: Minters) => MintersPieces(c, e), m.mintersList);
    hide Decode, Encode, GenesisSwitch, Repeated, Pointer, NamedPointer, PausedPointer, MintersPieces;
    PartsFit(p1 + p2 + p3 + p4, p5);
    PartsFit(p1 + p2 + p3, p4);
    PartsFit(p1 + p2, p3);
    PartsFit(p1, p2);
    var m2, m3, m4, m5 := Upto(was, m, 2), Upto(was, m, 3), Upto(was, m, 4), Upto(was, m, 5);
    ParamsField(c, was);
    AllBlacklisted(c, was, m.blacklistedList);
    OnePausedPointer(c, m2, m.paused);
    OneNamedPointer(c, m3, 4, m.masterMinter);
    AllMinters(c, m4, m.mintersList);
    Then(sw, was, p1, was, p2, m2);
    Then(sw, was, p1 + p2, m2, p3, m3);
    Then(sw, was, p1 + p2 + p3, m3, p4, m4);
    Then(sw, was, p1 + p2 + p3 + p4, m4, p5, m5);
  }

  lemma DecodeLastFields(c: Codec<Coin>, was: GenesisState, m: GenesisState)
    requires |Encode(LastFields(m))| < TWO_63
    ensures Decode(GenesisSwitch(c), Upto(was, m, 5), Encode(LastFields(m))) == Ok(MergeGenesis(was, m))
  {
    var sw := GenesisSwitch(c);
    var p6, p7, p8 := NamedPointer(6, m.pauser), NamedPointer(7, m.blacklister), NamedPointer(8, m.owner);
    var p9, p10 := Repeated(9, ControllerPieces, m.minterControllerList), NamedPointer(10, m.mintingDenom);
    hide Decode, Encode, GenesisSwitch, Repeated, Pointer, NamedPointer;
    PartsFit(p6 + p7 + p8 + p9, p10);
    PartsFit(p6 + p7 + p8, p9);
    PartsFit(p6 + p7, p8);
    PartsFit(p6, p7);
    var m5, m6, m7, m8, m9 := Upto(was, m, 5), Upto(was, m, 6), Upto(was, m, 7), Upto(was, m, 8), Upto(was, m, 9);
    var m10 := MergeGenesis(was, m);
    OneNamedPointer(c, m5, 6, m.pauser);
    OneNamedPointer(c, m6, 7, m.blacklister);
    OneNamedPointer(c, m7, 8, m.owner);
    AllControllers(c, m8, m.minterControllerList);
    OneNamedPointer(c, m9, 10, m.mintingDenom);
    Then(sw, m5, p6, m6, p7, m7);
    Then(sw, m5, p6 + p7, m7, p8, m8);
    Then(sw, m5, p6 + p7 + p8, m8, p9, m9);
    Then(sw, m5, p6 + p7 + p8 + p9, m9, p10, m10);
  }

  /** Unmarshalling a marshalled genesis state into any receiver merges it in. */
  lemma GenesisUnmarshalMarshal(c: Codec<Coin>, was: GenesisState, m: GenesisState)
    requires Lawful(c) && |Encode(GenesisPieces(c, m))| < TWO_63
    ensures Decode(GenesisSwitch(c), was, Encode(GenesisPieces(c, m))) == Ok(MergeGenesis(was, m))
  {
    hide Decode, Encode, FirstFields, LastFields;
    PartsFit(FirstFields(c, m), LastFields(m));
    DecodeFirstFields(c, was, m);
    DecodeLastFields(c, was, m);
    Then(GenesisSwitch(c), was, FirstFields(c, m), Upto(was, m, 5), LastFields(m), MergeGenesis(was, m));
  }

  /** Unmarshal(Marshal(m)) into a fresh value is m: nil and present pointers, empty strings and the
      order of repeated fields included. */
  lemma GenesisRoundTrip(c: Codec<Coin>, m: GenesisState)
    requires Lawful(c) && |Encode(GenesisPieces(c, m))| < TWO_63
    ensures Decode(GenesisSwitch(c), EMPTY_GENESIS, Encode(GenesisPieces(c, m))) == Ok(m)
  {
    MergeIntoEmpty(m);
    hide *;
    GenesisUnmarshalMarshal(c, EMPTY_GENESIS, m);
  }

  lemma MergeIntoEmpty(m: GenesisState)
    ensures MergeGenesis(EMPTY_GENESIS, m) == m
  {}

  /** The bytes of two genesis states, one after the other, decode to the two merged; unknown
      fields in between are ignored. */
  lemma GenesisConcatenated(c: Codec<Coin>, m1: GenesisState, unknown: Field, m2: GenesisState)
    requires Lawful(c) && |Encode(GenesisPieces(c, m1))| < TWO_63 && |Encode(GenesisPieces(c, m2))| < TWO_63
    requires WellFormed(unknown) && Number(unknown) > 10
    ensures Decode(GenesisSwitch(c), EMPTY_GENESIS,
              Encode(GenesisPieces(c, m1)) + EncodeField(unknown) + Encode(GenesisPieces(c, m2)))
         == Ok(MergeGenesis(m1, m2))
  {
    hide Decode, Encode, GenesisPieces, EncodeField;
    var a, b := Encode(GenesisPieces(c, m1)), Encode(GenesisPieces(c, m2));
    GenesisRoundTrip(c, m1);
    UnknownFieldIgnored(GenesisSwitch(c), EMPTY_GENESIS, a, unknown, b);
    DecodeConcat(GenesisSwitch(c), EMPTY_GENESIS, a, b);
    GenesisUnmarshalMarshal(c, m1, m2);
  }

  // ----- the tariff parameters

  datatype DistributionEntity = DistributionEntity(address: Str, share: int)

  function EntityPieces(d: Codec<int>, m: DistributionEntity): seq<Piece> {
    Text(1, m.address) + [Data(2, d.enc(m.share))]
  }

  function EntityOnLen(d: Codec<int>, m: DistributionEntity, num: int, p: Str): Result<DistributionEntity> {
    if num == 1 then Ok(m.(address := p))
    else
      match d.dec(m.share, p)
      case Err => Err
      case Ok(share) => Ok(m.(share := share))
  }

  function EntitySwitch(d: Codec<int>): Switch<DistributionEntity> {
    Switch(
      num => if num == 1 || num == 2 then LenKind else Unknown,
      (m, num, p) => EntityOnLen(d, m, num, p),
      (m, num, v) => m)
  }

  function MergeEntity(d: Codec<int>, was: DistributionEntity, now: DistributionEntity): DistributionEntity {
    DistributionEntity(MergeText(was.address, now.address), d.merge(was.share, now.share))
  }

  lemma DecodeEntity(d: Codec<int>, was: DistributionEntity, m: DistributionEntity)
    requires Lawful(d) && |Encode(EntityPieces(d, m))| < TWO_63
    ensures Decode(EntitySwitch(d), was, Encode(EntityPieces(d, m))) == Ok(MergeEntity(d, was, m))
  {
    hide Decode, Encode, Text;
    var sw := EntitySwitch(d);
    var m1 := was.(address := MergeText(was.address, m.address));
    var share := [Data(2, d.enc(m.share))];
    PartsFit(Text(1, m.address), share);
    OneText(sw, was, 1, m.address, m1);
    OneData(sw, m1, 2, d.enc(m.share));
    Then(sw, was, Text(1, m.address), m1, share, MergeEntity(d, was, m));
  }

  /** Shares are sdk.Dec values scaled by 10^18, the two fee bounds are sdk.Int values. */
  datatype Params = Params(
    share: int,
    entities: seq<DistributionEntity>,
    feeBps: int,
    feeMax: int,
    feeDenom: Str)

  function TariffPieces(d: Codec<int>, i: Codec<int>, m: Params): seq<Piece> {
    [Data(1, d.enc(m.share))]
    + Repeated(2, (e: DistributionEntity) => EntityPieces(d, e), m.entities)
    + [Data(3, i.enc(m.feeBps))]
    + [Data(4, i.enc(m.feeMax))]
    + Text(5, m.feeDenom)
  }

  function OnEntity(d: Codec<int>, m: Params, p: Str): Result<Params> {
    match Decode(EntitySwitch(d), DistributionEntity([], d.zero), p)
    case Err => Err
    case Ok(e) => Ok(m.(entities := m.entities + [e]))
  }

  function TariffOnLen(d: Codec<int>, i: Codec<int>, m: Params, num: int, p: Str): Result<Params> {
    match num
    case 1 => (match d.dec(m.share, p) case Err => Err case Ok(v) => Ok(m.(share := v)))
    case 2 => OnEntity(d, m, p)
    case 3 => (match i.dec(m.feeBps, p) case Err => Err case Ok(v) => Ok(m.(feeBps := v)))
    case 4 => (match i.dec(m.feeMax, p) case Err => Err case Ok(v) => Ok(m.(feeMax := v)))
    case 5 => Ok(m.(feeDenom := p))
    case _ => Err
  }

  function TariffSwitch(d: Codec<int>, i: Codec<int>): Switch<Params> {
    Switch(
      num => if 1 <= num <= 5 then LenKind else Unknown,
      (m, num, p) => TariffOnLen(d, i, m, num, p),
      (m, num, v) => m)
  }

  function MergeTariff(d: Codec<int>, i: Codec<int>, was: Params, now: Params): Params {
    Params(
      d.merge(was.share, now.share),
      was.entities + now.entities,
      i.merge(was.feeBps, now.feeBps),
      i.merge(was.feeMax, now.feeMax),
      MergeText(was.feeDenom, now.feeDenom))
  }

  lemma {:induction false} AllEntities(d: Codec<int>, i: Codec<int>, m: Params, list: seq<DistributionEntity>)
    requires Lawful(d) && |Encode(Repeated(2, (e: DistributionEntity) => EntityPieces(d, e), list))| < TWO_63
    ensures Decode(TariffSwitch(d, i), m, Encode(Repeated(2, (e: DistributionEntity) => EntityPieces(d, e), list)))
         == Ok(m.(entities := m.entities + list))
    decreases |list|
  {
    hide Decode, Encode, EntityPieces;
    var sw := TariffSwitch(d, i);
    if list == [] {
      NoPieces(sw, m);
      assert m.entities + list == m.entities;
    } else {
      var e, m1 := list[0], m.(entities := m.entities + [list[0]]);
      var first := [Message(2, EntityPieces(d, e))];
      var others := Repeated(2, (e: DistributionEntity) => EntityPieces(d, e), list[1..]);
      PartsFit(first, others);
      OneMessage(sw, m, 2, EntityPieces(d, e));
      DecodeEntity(d, DistributionEntity([], d.zero), e);
      AllEntities(d, i, m1, list[1..]);
      Then(sw, m, first, m1, others, m1.(entities := m1.entities + list[1..]));
      assert m1.entities + list[1..] == m.entities + list;
    }
  }

  /** The first two fields, then the other three. */
  lemma TariffHead(d: Codec<int>, i: Codec<int>, was: Params, m: Params)
    requires Lawful(d)
    requires var head := [Data(1, d.enc(m.share))] + Repeated(2, (e: DistributionEntity) => EntityPieces(d, e), m.entities);
      |Encode(head)| < TWO_63
    ensures var head := [Data(1, d.enc(m.share))] + Repeated(2, (e: DistributionEntity) => EntityPieces(d, e), m.entities);
      Decode(TariffSwitch(d, i), was, Encode(head))
      == Ok(was.(share := d.merge(was.share, m.share), entities := was.entities + m.entities))
  {
    var sw := TariffSwitch(d, i);
    var p1, p2 := [Data(1, d.enc(m.share))], Repeated(2, (e: DistributionEntity) => EntityPieces(d, e), m.entities);
    hide Decode, Encode, Repeated, EntityPieces;
    PartsFit(p1, p2);
    var m1 := was.(share := d.merge(was.share, m.share));
    OneData(sw, was, 1, d.enc(m.share));
    AllEntities(d, i, m1, m.entities);
    Then(sw, was, p1, m1, p2, m1.(entities := was.entities + m.entities));
  }

  lemma TariffTail(d: Codec<int>, i: Codec<int>, was: Params, m: Params)
    requires Lawful(i)
    requires |Encode([Data(3, i.enc(m.feeBps))] + [Data(4, i.enc(m.feeMax))] + Text(5, m.feeDenom))| < TWO_63
    ensures Decode(TariffSwitch(d, i), was, Encode([Data(3, i.enc(m.feeBps))] + [Data(4, i.enc(m.feeMax))] + Text(5, m.feeDenom)))
         == Ok(was.(feeBps := i.merge(was.feeBps, m.feeBps), feeMax := i.merge(was.feeMax, m.feeMax),
                    feeDenom := MergeText(was.feeDenom, m.feeDenom)))
  {
    var sw := TariffSwitch(d, i);
    var p3, p4, p5 := [Data(3, i.enc(m.feeBps))], [Data(4, i.enc(m.feeMax))], Text(5, m.feeDenom);
    hide Decode, Encode, Text;
    PartsFit(p3 + p4, p5);
    PartsFit(p3, p4);
    var m3 := was.(feeBps := i.merge(was.feeBps, m.feeBps));
    var m4 := m3.(feeMax := i.merge(was.feeMax, m.feeMax));
    var m5 := m4.(feeDenom := MergeText(was.feeDenom, m.feeDenom));
    assert Decode(sw, was, Encode(p3)) == Ok(m3) by {
      OneData(sw, was, 3, i.enc(m.feeBps));
    }
    assert Decode(sw, m3, Encode(p4)) == Ok(m4) by {
      OneData(sw, m3, 4, i.enc(m.feeMax));
    }
    assert Decode(sw, m4, Encode(p5)) == Ok(m5) by {
      OneText(sw, m4, 5, m.feeDenom, m5);
    }
    Then(sw, was, p3, m3, p4, m4);
    Then(sw, was, p3 + p4, m4, p5, m5);
  }

  /** Unmarshalling marshalled tariff parameters into any receiver merges them in. */
  lemma TariffUnmarshalMarshal(d: Codec<int>, i: Codec<int>, was: Params, m: Params)
    requires Lawful(d) && Lawful(i) && |Encode(TariffPieces(d, i, m))| < TWO_63
    ensures Decode(TariffSwitch(d, i), was, Encode(TariffPieces(d, i, m))) == Ok(MergeTariff(d, i, was, m))
  {
    var p1, p2 := [Data(1, d.enc(m.share))], Repeated(2, (e: DistributionEntity) => EntityPieces(d, e), m.entities);
    var p3, p4, p5 := [Data(3, i.enc(m.feeBps))], [Data(4, i.enc(m.feeMax))], Text(5, m.feeDenom);
    assert TariffPieces(d, i, m) == (p1 + p2) + (p3 + p4 + p5);
    hide Decode, Encode, Repeated, Text, EntityPieces, TariffSwitch, TariffPieces, Lawful;
    PartsFit(p1 + p2, p3 + p4 + p5);
    var m2 := was.(share := d.merge(was.share, m.share), entities := was.entities + m.entities);
    TariffHead(d, i, was, m);
    TariffTail(d, i, m2, m);
    Then(TariffSwitch(d, i), was, p1 + p2, m2, p3 + p4 + p5, MergeTariff(d, i, was, m));
  }

  lemma TariffRoundTrip(d: Codec<int>, i: Codec<int>, m: Params)
    requires Lawful(d) && Lawful(i) && |Encode(TariffPieces(d, i, m))| < TWO_63
    ensures Decode(TariffSwitch(d, i), EmptyTariff(d, i), Encode(TariffPieces(d, i, m))) == Ok(m)
  {
    MergeIntoEmptyTariff(d, i, m);
    hide *;
    TariffUnmarshalMarshal(d, i, EmptyTariff(d, i), m);
  }

  /** `Params{}`. */
  function EmptyTariff(d: Codec<int>, i: Codec<int>): Params {
    Params(d.zero, [], i.zero, i.zero, [])
  }

  lemma MergeIntoEmptyTariff(d: Codec<int>, i: Codec<int>, m: Params)
    requires Lawful(d) && Lawful(i)
    ensures MergeTariff(d, i, EmptyTariff(d, i), m) == m
  {}

  /** Parameters one after the other, with unknown fields in between, decode to the two merged. */
  lemma TariffConcatenated(d: Codec<int>, i: Codec<int>, m1: Params, unknown: Field, m2: Params)
    requires Lawful(d) && Lawful(i)
    requires |Encode(TariffPieces(d, i, m1))| < TWO_63 && |Encode(TariffPieces(d, i, m2))| < TWO_63
    requires WellFormed(unknown) && Number(unknown) > 5
    ensures Decode(TariffSwitch(d, i), EmptyTariff(d, i),
              Encode(TariffPieces(d, i, m1)) + EncodeField(unknown) + Encode(TariffPieces(d, i, m2)))
         == Ok(MergeTariff(d, i, m1, m2))
  {
    hide Decode, Encode, TariffPieces, EncodeField, Lawful, EmptyTariff;
    var a, b := Encode(TariffPieces(d, i, m1)), Encode(TariffPieces(d, i, m2));
    TariffRoundTrip(d, i, m1);
    UnknownFieldIgnored(TariffSwitch(d, i), EmptyTariff(d, i), a, unknown, b);
    DecodeConcat(TariffSwitch(d, i), EmptyTariff(d, i), a, b);
    TariffUnmarshalMarshal(d, i, m1, m2);
  }

  // ----- codecs that meet the assumption

  /** A coin message as the SDK lays it out: the denom is field 1, the amount field 2, always written. */
  function CoinPieces(i: Codec<int>, m: Coin): seq<Piece> {
    Text(1, m.denom) + [Data(2, i.enc(m.amount))]
  }

  function CoinOnLen(i: Codec<int>, m: Coin, num: int, p: Str): Result<Coin> {
    if num == 1 then Ok(m.(denom := p))
    else
      match i.dec(m.amount, p)
      case Err => Err
      case Ok(amount) => Ok(m.(amount := amount))
  }

  function CoinSwitch(i: Codec<int>): Switch<Coin> {
    Switch(
      num => if num == 1 || num == 2 then LenKind else Unknown,
      (m, num, p) => CoinOnLen(i, m, num, p),
      (m, num, v) => m)
  }

  function CoinCodec(i: Codec<int>): Codec<Coin> {
    Codec(
      (m: Coin) => Encode(CoinPieces(i, m)),
      (m: Coin, p: Str) => Decode(CoinSwitch(i), m, p),
      (was: Coin, now: Coin) => Coin(MergeText(was.denom, now.denom), i.merge(was.amount, now.amount)),
      Coin([], i.zero))
  }

  /** Such a coin codec is lawful whenever the codec of its amount is. */
  lemma CoinCodecLawful(i: Codec<int>)
    requires Lawful(i)
    ensures Lawful(CoinCodec(i))
  {
    hide Decode, Encode, Text;
    var c, sw := CoinCodec(i), CoinSwitch(i);
    forall was: Coin, m: Coin | |c.enc(m)| < TWO_63
      ensures c.dec(was, c.enc(m)) == Ok(c.merge(was, m))
    {
      var m1 := was.(denom := MergeText(was.denom, m.denom));
      var amount := [Data(2, i.enc(m.amount))];
      PartsFit(Text(1, m.denom), amount);
      OneText(sw, was, 1, m.denom, m1);
      OneData(sw, m1, 2, i.enc(m.amount));
      Then(sw, was, Text(1, m.denom), m1, amount, c.merge(was, m));
    }
  }

  /** The assumption can be met: a zigzag base 128 codec of integers. */
  function ZigZagCodec(): Codec<int> {
    Codec(
      (x: int) => VarintBytes(if x >= 0 then 2 * x else -2 * x - 1),
      (was: int, p: Str) => Ok(if Base128(p) % 2 == 0 then Base128(p) / 2 else -(Base128(p) + 1) / 2),
      (was: int, now: int) => now,
      0)
  }

  lemma ZigZagLawful()
    ensures Lawful(ZigZagCodec())
  {
    hide VarintBytes, Base128;
    var c := ZigZagCodec();
    forall was: int, x: int
      ensures c.dec(was, c.enc(x)) == Ok(c.merge(was, x))
    {
      VarintBytesMeaning(if x >= 0 then 2 * x else -2 * x - 1);
    }
  }
}
