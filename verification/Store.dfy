/** The module's key-value store: ten cells and collections laid out over one map from byte strings
    to byte strings, and the typed record they stand for. */
module Store {
  import opened Bytes
  import opened Marshal
  import opened Messages

  // ----- keys

  /** The bytes of an ASCII literal. */
  function Ascii(s: string): (b: Str)
    ensures |b| == |s| && forall i :: 0 <= i < |s| ==> b[i] == s[i] as int % 256
  {
    seq(|s|, i requires 0 <= i < |s| => s[i] as int % 256)
  }

  datatype Prefix = PausedP | MasterMinterP | PauserP | BlacklisterP | OwnerP | PendingOwnerP
    | BlacklistedP | MintersP | MinterControllerP | MintingDenomP

  function KeyPrefix(p: Prefix): Str {
    match p
    case PausedP => Ascii("Paused/value/")
    case MasterMinterP => Ascii("MasterMinter/value/")
    case PauserP => Ascii("Pauser/value/")
    case BlacklisterP => Ascii("Blacklister/value/")
    case OwnerP => Ascii("Owner/value/")
    case PendingOwnerP => Ascii("PendingOwner/value/")
    case BlacklistedP => Ascii("Blacklisted/value/")
    case MintersP => Ascii("Minters/value/")
    case MinterControllerP => Ascii("MinterController/value/")
    case MintingDenomP => Ascii("MintingDenom/value/")
  }

  /** What the store holds: one cell per role or setting, and one entry per collection member. */
  datatype Slot = PausedS | MasterMinterS | PauserS | BlacklisterS | OwnerS | PendingOwnerS | MintingDenomS
    | BlacklistedS(bz: Str) | MintersS(address: Str) | ControllerS(controller: Str)

  function PrefixOf(s: Slot): Prefix {
    match s
    case PausedS => PausedP
    case MasterMinterS => MasterMinterP
    case PauserS => PauserP
    case BlacklisterS => BlacklisterP
    case OwnerS => OwnerP
    case PendingOwnerS => PendingOwnerP
    case MintingDenomS => MintingDenomP
    case BlacklistedS(_) => BlacklistedP
    case MintersS(_) => MintersP
    case ControllerS(_) => MinterControllerP
  }

  const SLASH: Byte := 47

  /** The part of the key behind the prefix. `BlacklistedKey`, `MintersKey` and `MinterControllerKey`
      append a slash; the minting denom sits in a prefix store under its own prefix again. */
  function KeyRest(s: Slot): Str {
    match s
    case BlacklistedS(bz) => bz + [SLASH]
    case MintersS(address) => address + [SLASH]
    case ControllerS(controller) => controller + [SLASH]
    case MintingDenomS => KeyPrefix(MintingDenomP)
    case _ => []
  }

  function KeyOf(s: Slot): Str {
    KeyPrefix(PrefixOf(s)) + KeyRest(s)
  }

  /** Two prefixes differ within their common length. */
  ghost predicate Differ(p: Prefix, q: Prefix) {
    exists k :: 0 <= k < |KeyPrefix(p)| && k < |KeyPrefix(q)| && KeyPrefix(p)[k] != KeyPrefix(q)[k]
  }

  /** The first byte of a prefix. */
  function Initial(p: Prefix): char {
    match p
    case PausedP => 'P'
    case PauserP => 'P'
    case PendingOwnerP => 'P'
    case BlacklisterP => 'B'
    case BlacklistedP => 'B'
    case OwnerP => 'O'
    case _ => 'M'
  }

  lemma StartsWithInitial(p: Prefix)
    ensures |KeyPrefix(p)| > 10 && KeyPrefix(p)[0] == Initial(p) as int
  {}

  lemma PrefixesWithP(p: Prefix, q: Prefix)
    requires p != q && Initial(p) == Initial(q) == 'P'
    ensures KeyPrefix(p)[1] != KeyPrefix(q)[1] || KeyPrefix(p)[5] != KeyPrefix(q)[5]
  {}

  lemma PrefixesWithB(p: Prefix, q: Prefix)
    requires p != q && Initial(p) == Initial(q) == 'B'
    ensures KeyPrefix(p)[10] != KeyPrefix(q)[10]
  {}

  lemma PrefixesWithM(p: Prefix, q: Prefix)
    requires p != q && Initial(p) == Initial(q) == 'M'
    ensures KeyPrefix(p)[1] != KeyPrefix(q)[1] || KeyPrefix(p)[4] != KeyPrefix(q)[4] || KeyPrefix(p)[6] != KeyPrefix(q)[6]
  {}

  /** No prefix is a prefix of another: their first bytes differ, or a byte that tells the prefixes with
      that first byte apart. */
  lemma PrefixFree(p: Prefix, q: Prefix)
    requires p != q
    ensures Differ(p, q)
  {
    hide KeyPrefix;
    StartsWithInitial(p);
    StartsWithInitial(q);
    if Initial(p) == Initial(q) {
      match Initial(p)
      case 'P' => PrefixesWithP(p, q);
      case 'B' => PrefixesWithB(p, q);
      case 'M' => PrefixesWithM(p, q);
      case _ =>
    }
  }

  /** A key that starts with a collection's prefix belongs to that collection. */
  lemma PrefixDecides(s: Slot, p: Prefix)
    ensures KeyPrefix(p) <= KeyOf(s) <==> PrefixOf(s) == p
  {
    hide KeyPrefix, KeyRest;
    if PrefixOf(s) != p {
      PrefixFree(PrefixOf(s), p);
    }
  }

  /** Different slots live under different keys. */
  lemma KeyInjective(s: Slot, t: Slot)
    requires KeyOf(s) == KeyOf(t)
    ensures s == t
  {
    hide KeyPrefix;
    var p, q := PrefixOf(s), PrefixOf(t);
    if p != q {
      PrefixDecides(s, q);
      PrefixDecides(t, q);
    }
    assert KeyRest(s) == KeyOf(s)[|KeyPrefix(p)|..];
    assert KeyRest(t) == KeyOf(t)[|KeyPrefix(p)|..];
    if KeyRest(s) == KeyRest(t) && (s.BlacklistedS? || s.MintersS? || s.ControllerS?) {
      var r := KeyRest(s);
      assert r[..|r| - 1] == KeyRest(t)[..|r| - 1];
    }
  }

  // ----- values

  datatype Value = NamedV(named: Named) | PausedV(paused: Paused)
    | MintersV(minters: Minters) | ControllerV(controller: MinterController)

  /** `MustMarshal`. */
  function ValueBytes(c: Codec<Coin>, v: Value): Str {
    match v
    case NamedV(m) => Encode(NamedPieces(m))
    case PausedV(m) => Encode(PausedPieces(m))
    case MintersV(m) => Encode(MintersPieces(c, m))
    case ControllerV(m) => Encode(ControllerPieces(m))
  }

  // ----- the typed record

  datatype State = State(
    paused: Option<Paused>,
    masterMinter: Option<Named>,
    pauser: Option<Named>,
    blacklister: Option<Named>,
    owner: Option<Named>,
    pendingOwner: Option<Named>,
    mintingDenom: Option<Named>,
    blacklisted: map<Str, Named>,
    minters: map<Str, Minters>,
    controllers: map<Str, MinterController>)

  const EMPTY_STATE: State := State(None, None, None, None, None, None, None, map[], map[], map[])

  function OfNamed(m: Option<Named>): Option<Value> {
    if m.Some? then Some(NamedV(m.value)) else None
  }

  function Lookup(st: State, s: Slot): Option<Value> {
    match s
    case PausedS => if st.paused.Some? then Some(PausedV(st.paused.value)) else None
    case MasterMinterS => OfNamed(st.masterMinter)
    case PauserS => OfNamed(st.pauser)
    case BlacklisterS => OfNamed(st.blacklister)
    case OwnerS => OfNamed(st.owner)
    case PendingOwnerS => OfNamed(st.pendingOwner)
    case MintingDenomS => OfNamed(st.mintingDenom)
    case BlacklistedS(bz) => if bz in st.blacklisted then Some(NamedV(st.blacklisted[bz])) else None
    case MintersS(a) => if a in st.minters then Some(MintersV(st.minters[a])) else None
    case ControllerS(a) => if a in st.controllers then Some(ControllerV(st.controllers[a])) else None
  }

  /** Every record sits under the key derived from its own address. */
  ghost predicate Keyed(st: State) {
    && (forall a :: a in st.blacklisted ==> st.blacklisted[a].text == a)
    && (forall a :: a in st.minters ==> st.minters[a].address == a)
    && (forall a :: a in st.controllers ==> st.controllers[a].controller == a)
  }

  /** A Go slice holds fewer than 2^63 bytes; marshalling more panics. */
  predicate Storable(c: Codec<Coin>, v: Value) {
    |ValueBytes(c, v)| < TWO_63
  }

  ghost predicate AllStorable(c: Codec<Coin>, st: State) {
    forall s: Slot :: Lookup(st, s).Some? ==> Storable(c, Lookup(st, s).value)
  }

  /** The flat store holds exactly the slots of the record, each under its key. */
  ghost predicate Represents(c: Codec<Coin>, store: map<Str, Str>, st: State) {
    && (forall s: Slot :: KeyOf(s) in store <==> Lookup(st, s).Some?)
    && (forall s: Slot :: KeyOf(s) in store ==> store[KeyOf(s)] == ValueBytes(c, Lookup(st, s).value))
    && (forall k :: k in store ==> exists s: Slot :: k == KeyOf(s))
  }

  lemma EmptyRepresents(c: Codec<Coin>)
    ensures Represents(c, map[], EMPTY_STATE)
  {}

  /** `store.Set` on one slot's key changes that slot of the record and nothing else. */
  lemma SetSlot(c: Codec<Coin>, store: map<Str, Str>, st: State, st': State, s: Slot, v: Value)
    requires Represents(c, store, st)
    requires forall t: Slot :: Lookup(st', t) == if t == s then Some(v) else Lookup(st, t)
    ensures Represents(c, store[KeyOf(s) := ValueBytes(c, v)], st')
  {
    hide KeyOf, Lookup, ValueBytes;
    forall t: Slot | KeyOf(t) == KeyOf(s)
      ensures t == s
    {
      KeyInjective(t, s);
    }
  }

  /** `store.Delete` on one slot's key removes that slot from the record and nothing else. */
  lemma DeleteSlot(c: Codec<Coin>, store: map<Str, Str>, st: State, st': State, s: Slot)
    requires Represents(c, store, st)
    requires forall t: Slot :: Lookup(st', t) == if t == s then None else Lookup(st, t)
    ensures Represents(c, store - {KeyOf(s)}, st')
  {
    hide KeyOf, Lookup, ValueBytes;
    forall t: Slot | KeyOf(t) == KeyOf(s)
      ensures t == s
    {
      KeyInjective(t, s);
    }
  }

  /** One flat store stands for one record only, and one record for one flat store. */
  lemma RepresentsUnique(c: Codec<Coin>, store: map<Str, Str>, store': map<Str, Str>, st: State)
    requires Represents(c, store, st) && Represents(c, store', st)
    ensures store == store'
  {
    hide KeyOf, Lookup, ValueBytes;
    forall k | k in store
      ensures k in store' && store[k] == store'[k]
    {
      var s: Slot :| k == KeyOf(s);
    }
    forall k | k in store'
      ensures k in store
    {
      var s: Slot :| k == KeyOf(s);
    }
  }

  // ----- prefix iteration

  /** The iterator's contract: the keys of the store under a prefix, each once, in ascending order. */
  ghost predicate Iteration(keys: seq<Str>, store: map<Str, Str>, p: Prefix) {
    && (forall k :: k in keys <==> k in store && KeyPrefix(p) <= k)
    && Ascending(keys)
  }

  ghost predicate Ascending(keys: seq<Str>) {
    forall i, j :: 0 <= i < j < |keys| ==> Less(keys[i], keys[j])
  }

  /** The address that an element of each collection is filed under, and its key. */
  function TextOf(m: Named): Str {
    m.text
  }

  function AddressOf(m: Minters): Str {
    m.address
  }

  function ControllerOf(m: MinterController): Str {
    m.controller
  }

  function BlacklistedKeyOf(m: Named): Str {
    KeyOf(BlacklistedS(m.text))
  }

  function MintersKeyOf(m: Minters): Str {
    KeyOf(MintersS(m.address))
  }

  function ControllerKeyOf(m: MinterController): Str {
    KeyOf(ControllerS(m.controller))
  }

  /** A list of exactly the entries of a collection, each once, in key order. */
  ghost predicate Lists<E(!new)>(list: seq<E>, entries: map<Str, E>, address: E -> Str, key: E -> Str) {
    && (forall i :: 0 <= i < |list| ==> address(list[i]) in entries && entries[address(list[i])] == list[i])
    && (forall a :: a in entries ==> entries[a] in list)
    && (forall i, j :: 0 <= i < j < |list| ==> Less(key(list[i]), key(list[j])))
  }

  /** Every key under a prefix is the key of a present slot of that collection. */
  lemma KeyUnderPrefix(c: Codec<Coin>, store: map<Str, Str>, st: State, p: Prefix, k: Str) returns (s: Slot)
    requires Represents(c, store, st) && k in store && KeyPrefix(p) <= k
    ensures k == KeyOf(s) && PrefixOf(s) == p && Lookup(st, s).Some?
    ensures store[k] == ValueBytes(c, Lookup(st, s).value)
  {
    hide KeyOf, KeyPrefix, Lookup, ValueBytes;
    s :| k == KeyOf(s);
    PrefixDecides(s, p);
  }
}
