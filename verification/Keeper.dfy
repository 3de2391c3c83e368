/** The keeper and the message server over the flat byte store. Every method is proved against the
    typed record that the store represents: the ghost field st is the record, store its bytes. */
module Keeper {
  import opened Bytes
  import opened Wire
  import opened Marshal
  import opened Messages
  import opened Store
  import opened Bank
  import opened TokenFactory

  lemma NamedReadsBack(m: Named)
    requires |Encode(NamedPieces(m))| < TWO_63
    ensures Decode(NamedSwitch(), Named([]), Encode(NamedPieces(m))) == Ok(m)
  {
    DecodeNamed(Named([]), m);
  }

  lemma PausedReadsBack(m: Paused)
    ensures Decode(PausedSwitch(), Paused(false), Encode(PausedPieces(m))) == Ok(m)
  {
    DecodePaused(Paused(false), m);
  }

  lemma MintersReadsBack(c: Codec<Coin>, m: Minters)
    requires Lawful(c) && |Encode(MintersPieces(c, m))| < TWO_63
    ensures Decode(MintersSwitch(c), Minters([], c.zero), Encode(MintersPieces(c, m))) == Ok(m)
  {
    DecodeMinters(c, Minters([], c.zero), m);
  }

  lemma ControllerReadsBack(m: MinterController)
    requires |Encode(ControllerPieces(m))| < TWO_63
    ensures Decode(ControllerSwitch(), MinterController([], []), Encode(ControllerPieces(m))) == Ok(m)
  {
    DecodeController(MinterController([], []), m);
  }

  /** The cells that hold one string each. */
  predicate NamedCell(s: Slot) {
    s in {MasterMinterS, PauserS, BlacklisterS, OwnerS, PendingOwnerS, MintingDenomS}
  }

  function GetCell(st: State, s: Slot): Option<Named>
    requires NamedCell(s)
  {
    match s
    case MasterMinterS => st.masterMinter
    case PauserS => st.pauser
    case BlacklisterS => st.blacklister
    case OwnerS => st.owner
    case PendingOwnerS => st.pendingOwner
    case MintingDenomS => st.mintingDenom
  }

  function WithCell(st: State, s: Slot, v: Option<Named>): State
    requires NamedCell(s)
  {
    match s
    case MasterMinterS => st.(masterMinter := v)
    case PauserS => st.(pauser := v)
    case BlacklisterS => st.(blacklister := v)
    case OwnerS => st.(owner := v)
    case PendingOwnerS => st.(pendingOwner := v)
    case MintingDenomS => st.(mintingDenom := v)
  }

  class Keeper {
    const env: Env
    var store: map<Str, Str>
    var bank: Bank
    ghost var st: State

    ghost predicate Valid()
      reads this
    {
      && Lawful(env.coin)
      && Represents(env.coin, store, st)
      && Keyed(st)
      && AllStorable(env.coin, st)
    }

    ghost function World(): World
      reads this
    {
      TokenFactory.World.World(st, bank)
    }

    /** A keeper over an empty store. */
    constructor (env: Env, bank: Bank)
      requires Lawful(env.coin)
      ensures Valid() && st == EMPTY_STATE && this.env == env && this.bank == bank && store == map[]
    {
      this.env := env;
      this.store := map[];
      this.bank := bank;
      this.st := EMPTY_STATE;
      EmptyRepresents(env.coin);
    }

    // ----- the store

    /** `store.Set(key, cdc.MustMarshal(&v))`; fails when the value cannot be marshalled. */
    method Put(s: Slot, v: Value, ghost st': State) returns (ok: bool)
      requires Valid() && Keyed(st')
      requires forall t: Slot :: Lookup(st', t) == if t == s then Some(v) else Lookup(st, t)
      modifies `store, `st
      ensures Valid()
      ensures ok == Storable(env.coin, v)
      ensures st == if ok then st' else old(st)
    {
      hide KeyOf, Lookup, Represents, ValueBytes, Lawful;
      ok := Storable(env.coin, v);
      if ok {
        SetSlot(env.coin, store, st, st', s, v);
        store := store[KeyOf(s) := ValueBytes(env.coin, v)];
        st := st';
      }
    }

    /** `store.Delete(key)`. */
    method Delete(s: Slot, ghost st': State)
      requires Valid() && Keyed(st')
      requires forall t: Slot :: Lookup(st', t) == if t == s then None else Lookup(st, t)
      modifies `store, `st
      ensures Valid() && st == st'
    {
      hide KeyOf, Lookup, Represents, ValueBytes, Lawful;
      DeleteSlot(env.coin, store, st, st', s);
      store := store - {KeyOf(s)};
      st := st';
    }

    /** `store.Get(key)`: nil exactly when the key is absent. */
    method Fetch(s: Slot) returns (b: Option<Str>)
      requires Valid()
      ensures b.Some? <==> Lookup(st, s).Some?
      ensures b.Some? ==> b.value == ValueBytes(env.coin, Lookup(st, s).value) && Storable(env.coin, Lookup(st, s).value)
    {
      hide KeyOf, Lookup, ValueBytes, Lawful;
      b := if KeyOf(s) in store then Some(store[KeyOf(s)]) else None;
    }

    // ----- the cells

    method SetNamed(s: Slot, m: Named) returns (ok: bool)
      requires Valid() && NamedCell(s)
      modifies `store, `st
      ensures Valid()
      ensures ok == Storable(env.coin, NamedV(m))
      ensures st == if ok then WithCell(old(st), s, Some(m)) else old(st)
    {
      hide Represents, ValueBytes, Lawful, Storable;
      ok := Put(s, NamedV(m), WithCell(st, s, Some(m)));
    }

    method DeletePendingOwner()
      requires Valid()
      modifies `store, `st
      ensures Valid() && st == old(st).(pendingOwner := None)
    {
      hide Represents, ValueBytes, Lawful, Storable;
      Delete(PendingOwnerS, st.(pendingOwner := None));
    }

    method GetNamed(s: Slot) returns (val: Named, found: bool)
      requires Valid() && NamedCell(s)
      ensures found <==> GetCell(st, s).Some?
      ensures found ==> GetCell(st, s) == Some(val)
    {
      hide Represents, Lawful, Decode, Encode;
      var b := Fetch(s);
      if b.None? {
        return Named([]), false;
      }
      NamedReadsBack(GetCell(st, s).value);
      return Decode(NamedSwitch(), Named([]), b.value).value, true;
    }

    method SetPaused(m: Paused) returns (ok: bool)
      requires Valid()
      modifies `store, `st
      ensures Valid()
      ensures ok == Storable(env.coin, PausedV(m))
      ensures st == if ok then old(st).(paused := Some(m)) else old(st)
    {
      hide Represents, ValueBytes, Lawful, Storable;
      ok := Put(PausedS, PausedV(m), st.(paused := Some(m)));
    }

    /** Panics when the flag was never set. */
    method GetPaused() returns (val: Paused, ok: bool)
      requires Valid()
      ensures ok <==> st.paused.Some?
      ensures ok ==> st.paused == Some(val)
    {
      hide Represents, Lawful, Decode, Encode;
      var b := Fetch(PausedS);
      if b.None? {
        return Paused(false), false;
      }
      PausedReadsBack(st.paused.value);
      return Decode(PausedSwitch(), Paused(false), b.value).value, true;
    }

    // ----- the collections

    method SetMinters(m: Minters) returns (ok: bool)
      requires Valid()
      modifies `store, `st
      ensures Valid()
      ensures ok == Storable(env.coin, MintersV(m))
      ensures st == if ok then old(st).(minters := old(st).minters[m.address := m]) else old(st)
    {
      hide Represents, ValueBytes, Lawful, Storable;
      ok := Put(MintersS(m.address), MintersV(m), st.(minters := st.minters[m.address := m]));
    }

    method GetMinters(address: Str) returns (val: Minters, found: bool)
      requires Valid()
      ensures found <==> address in st.minters
      ensures found ==> val == st.minters[address]
    {
      hide Represents, Lawful, Decode, Encode;
      var b := Fetch(MintersS(address));
      if b.None? {
        return Minters([], env.coin.zero), false;
      }
      MintersReadsBack(env.coin, st.minters[address]);
      return Decode(MintersSwitch(env.coin), Minters([], env.coin.zero), b.value).value, true;
    }

    method RemoveMinters(address: Str)
      requires Valid()
      modifies `store, `st
      ensures Valid() && st == old(st).(minters := old(st).minters - {address})
    {
      hide Represents, ValueBytes, Lawful, Storable;
      Delete(MintersS(address), st.(minters := st.minters - {address}));
    }

    method SetMinterController(m: MinterController) returns (ok: bool)
      requires Valid()
      modifies `store, `st
      ensures Valid()
      ensures ok == Storable(env.coin, ControllerV(m))
      ensures st == if ok then old(st).(controllers := old(st).controllers[m.controller := m]) else old(st)
    {
      hide Represents, ValueBytes, Lawful, Storable;
      ok := Put(ControllerS(m.controller), ControllerV(m), st.(controllers := st.controllers[m.controller := m]));
    }

    method GetMinterController(controller: Str) returns (val: MinterController, found: bool)
      requires Valid()
      ensures found <==> controller in st.controllers
      ensures found ==> val == st.controllers[controller]
    {
      hide Represents, Lawful, Decode, Encode;
      var b := Fetch(ControllerS(controller));
      if b.None? {
        return MinterController([], []), false;
      }
      ControllerReadsBack(st.controllers[controller]);
      return Decode(ControllerSwitch(), MinterController([], []), b.value).value, true;
    }

    method DeleteMinterController(controller: Str)
      requires Valid()
      modifies `store, `st
      ensures Valid() && st == old(st).(controllers := old(st).controllers - {controller})
    {
      hide Represents, ValueBytes, Lawful, Storable;
      Delete(ControllerS(controller), st.(controllers := st.controllers - {controller}));
    }

    method SetBlacklisted(m: Named) returns (ok: bool)
      requires Valid()
      modifies `store, `st
      ensures Valid()
      ensures ok == Storable(env.coin, NamedV(m))
      ensures st == if ok then old(st).(blacklisted := old(st).blacklisted[m.text := m]) else old(st)
    {
      hide Represents, ValueBytes, Lawful, Storable;
      ok := Put(BlacklistedS(m.text), NamedV(m), st.(blacklisted := st.blacklisted[m.text := m]));
    }

    method GetBlacklisted(bz: Str) returns (val: Named, found: bool)
      requires Valid()
      ensures found <==> bz in st.blacklisted
      ensures found ==> val == st.blacklisted[bz]
    {
      hide Represents, Lawful, Decode, Encode;
      var b := Fetch(BlacklistedS(bz));
      if b.None? {
        return Named([]), false;
      }
      NamedReadsBack(st.blacklisted[bz]);
      return Decode(NamedSwitch(), Named([]), b.value).value, true;
    }

    method RemoveBlacklisted(bz: Str)
      requires Valid()
      modifies `store, `st
      ensures Valid() && st == old(st).(blacklisted := old(st).blacklisted - {bz})
    {
      hide Represents, ValueBytes, Lawful, Storable;
      Delete(BlacklistedS(bz), st.(blacklisted := st.blacklisted - {bz}));
    }
  
    // ----- prefix iteration

    /** `sdk.KVStorePrefixIterator`, run to its end. */
    method PrefixKeys(p: Prefix) returns (keys: seq<Str>)
      ensures Iteration(keys, store, p)
    {
      hide KeyPrefix;
      var rest := set k | k in store && KeyPrefix(p) <= k;
      keys := [];
      while rest != {}
        invariant forall k :: k in store && KeyPrefix(p) <= k <==> k in rest || k in keys
        invariant forall k, k' :: k in keys && k' in rest ==> Less(k, k')
        invariant Ascending(keys)
        decreases |rest|
      {
        var least := Least(rest);
        rest := rest - {least};
        keys := keys + [least];
      }
    }

    method GetAllBlacklisted() returns (list: seq<Named>)
      requires Valid()
      ensures Lists(list, st.blacklisted, TextOf, BlacklistedKeyOf)
    {
      hide KeyOf, KeyPrefix, Represents, Lawful, Decode, Encode;
      var keys := PrefixKeys(BlacklistedP);
      list := [];
      for i := 0 to |keys|
        invariant |list| == i
        invariant forall j :: 0 <= j < i ==> BlacklistedKeyOf(list[j]) == keys[j]
        invariant forall j :: 0 <= j < i ==> list[j].text in st.blacklisted && st.blacklisted[list[j].text] == list[j]
      {
        assert keys[i] in keys;
        ghost var s := KeyUnderPrefix(env.coin, store, st, BlacklistedP, keys[i]);
        NamedReadsBack(st.blacklisted[s.bz]);
        list := list + [Decode(NamedSwitch(), Named([]), store[keys[i]]).value];
      }
      forall a | a in st.blacklisted
        ensures st.blacklisted[a] in list
      {
        KeyPresent(env.coin, store, st, BlacklistedS(a), BlacklistedP);
        var j :| 0 <= j < |keys| && keys[j] == KeyOf(BlacklistedS(a));
        KeyInjective(BlacklistedS(a), BlacklistedS(list[j].text));
      }
    }

    method GetAllMinters() returns (list: seq<Minters>)
      requires Valid()
      ensures Lists(list, st.minters, AddressOf, MintersKeyOf)
    {
      hide KeyOf, KeyPrefix, Represents, Lawful, Decode, Encode;
      var keys := PrefixKeys(MintersP);
      list := [];
      for i := 0 to |keys|
        invariant |list| == i
        invariant forall j :: 0 <= j < i ==> MintersKeyOf(list[j]) == keys[j]
        invariant forall j :: 0 <= j < i ==> list[j].address in st.minters && st.minters[list[j].address] == list[j]
      {
        assert keys[i] in keys;
        ghost var s := KeyUnderPrefix(env.coin, store, st, MintersP, keys[i]);
        MintersReadsBack(env.coin, st.minters[s.address]);
        list := list + [Decode(MintersSwitch(env.coin), Minters([], env.coin.zero), store[keys[i]]).value];
      }
      forall a | a in st.minters
        ensures st.minters[a] in list
      {
        KeyPresent(env.coin, store, st, MintersS(a), MintersP);
        var j :| 0 <= j < |keys| && keys[j] == KeyOf(MintersS(a));
        KeyInjective(MintersS(a), MintersS(list[j].address));
      }
    }

    method GetAllMinterControllers() returns (list: seq<MinterController>)
      requires Valid()
      ensures Lists(list, st.controllers, ControllerOf, ControllerKeyOf)
    {
      hide KeyOf, KeyPrefix, Represents, Lawful, Decode, Encode;
      var keys := PrefixKeys(MinterControllerP);
      list := [];
      for i := 0 to |keys|
        invariant |list| == i
        invariant forall j :: 0 <= j < i ==> ControllerKeyOf(list[j]) == keys[j]
        invariant forall j :: 0 <= j < i ==> list[j].controller in st.controllers && st.controllers[list[j].controller] == list[j]
      {
        assert keys[i] in keys;
        ghost var s := KeyUnderPrefix(env.coin, store, st, MinterControllerP, keys[i]);
        ControllerReadsBack(st.controllers[s.controller]);
        list := list + [Decode(ControllerSwitch(), MinterController([], []), store[keys[i]]).value];
      }
      forall a | a in st.controllers
        ensures st.controllers[a] in list
      {
        KeyPresent(env.coin, store, st, ControllerS(a), MinterControllerP);
        var j :| 0 <= j < |keys| && keys[j] == KeyOf(ControllerS(a));
        KeyInjective(ControllerS(a), ControllerS(list[j].controller));
      }
    }
  }

  /** The least key of a non-empty set. */
  method Least(ks: set<Str>) returns (least: Str)
    requires ks != {}
    ensures least in ks && forall k :: k in ks && k != least ==> Less(least, k)
  {
    least :| least in ks;
    var rest := ks - {least};
    while rest != {}
      invariant least in ks && rest <= ks && least !in rest
      invariant forall k :: k in ks && k !in rest && k != least ==> Less(least, k)
      decreases |rest|
    {
      var k :| k in rest;
      rest := rest - {k};
      LessTotal(k, least);
      if Less(k, least) {
        forall k' | k' in ks && k' !in rest && k' != k
          ensures Less(k, k')
        {
          if k' != least {
            LessTransitive(k, least, k');
          }
        }
        least := k;
      }
    }
  }

  lemma KeyPresent(c: Codec<Coin>, store: map<Str, Str>, st: State, s: Slot, p: Prefix)
    requires Represents(c, store, st) && Lookup(st, s).Some? && PrefixOf(s) == p
    ensures KeyOf(s) in store && KeyPrefix(p) <= KeyOf(s)
  {
    hide KeyPrefix, KeyRest, Lookup, ValueBytes;
  }
}
