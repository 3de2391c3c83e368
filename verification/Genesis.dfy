/** Genesis: validation, initialisation of an empty store, and export. */
module Genesis {
  import opened Bytes
  import opened Messages
  import opened Store
  import opened TokenFactory
  import opened Keeper

  // ----- GenesisState.Validate

  predicate Distinct(list: seq<Str>) {
    forall i, j :: 0 <= i < j < |list| ==> list[i] != list[j]
  }

  function BlacklistedTexts(list: seq<Named>): (r: seq<Str>) {
    seq(|list|, i requires 0 <= i < |list| => list[i].text)
  }

  function MinterAddresses(list: seq<Minters>): (r: seq<Str>) {
    seq(|list|, i requires 0 <= i < |list| => list[i].address)
  }

  function ControllerAddresses(list: seq<MinterController>): (r: seq<Str>) {
    seq(|list|, i requires 0 <= i < |list| => list[i].controller)
  }

  predicate Parses(addr: Addresses, role: Option<Named>) {
    role.Some? ==> addr.acc(role.value.text).Some?
  }

  /** The canonical text of a role that is set, in a list of at most one. */
  function CanonicalText(addr: Addresses, role: Option<Named>): seq<Str> {
    if role.Some? && addr.acc(role.value.text).Some? then [addr.text(addr.acc(role.value.text).value)] else []
  }

  function RoleTexts(addr: Addresses, gs: GenesisState): seq<Str> {
    CanonicalText(addr, gs.owner) + CanonicalText(addr, gs.masterMinter)
    + CanonicalText(addr, gs.pauser) + CanonicalText(addr, gs.blacklister)
  }

  /** What a valid genesis state is, without reference to the loops that check it. */
  predicate ValidGenesis(addr: Addresses, gs: GenesisState) {
    && Distinct(BlacklistedTexts(gs.blacklistedList))
    && Distinct(MinterAddresses(gs.mintersList))
    && (forall i :: 0 <= i < |gs.mintersList| ==>
          addr.acc(gs.mintersList[i].address).Some? && gs.mintersList[i].allowance.amount >= 0)
    && Distinct(ControllerAddresses(gs.minterControllerList))
    && (forall i :: 0 <= i < |gs.minterControllerList| ==>
          && addr.acc(gs.minterControllerList[i].minter).Some?
          && addr.acc(gs.minterControllerList[i].controller).Some?)
    && Parses(addr, gs.owner) && Parses(addr, gs.masterMinter) && Parses(addr, gs.pauser) && Parses(addr, gs.blacklister)
    && Distinct(RoleTexts(addr, gs))
    && !Holds(gs.mintingDenom, [])
  }

  /** The index-map loop: no two store keys of the list are equal. */
  method NoDuplicates(addresses: seq<Str>) returns (ok: bool)
    ensures ok == Distinct(addresses)
  {
    var indexMap: set<Str> := {};
    for i := 0 to |addresses|
      invariant forall j :: 0 <= j < i ==> addresses[j] + [SLASH] in indexMap
      invariant forall k :: k in indexMap ==> exists j :: 0 <= j < i && k == addresses[j] + [SLASH]
      invariant Distinct(addresses[..i])
    {
      var index := addresses[i] + [SLASH];
      if index in indexMap {
        ghost var j :| 0 <= j < i && index == addresses[j] + [SLASH];
        assert addresses[j] == index[..|index| - 1] == addresses[i];
        return false;
      }
      indexMap := indexMap + {index};
    }
    assert addresses[..|addresses|] == addresses;
    return true;
  }

  method MintersValid(addr: Addresses, list: seq<Minters>) returns (ok: bool)
    ensures ok <==> forall i :: 0 <= i < |list| ==> addr.acc(list[i].address).Some? && list[i].allowance.amount >= 0
  {
    for i := 0 to |list|
      invariant forall j :: 0 <= j < i ==> addr.acc(list[j].address).Some? && list[j].allowance.amount >= 0
    {
      if addr.acc(list[i].address).None? || list[i].allowance.amount < 0 {
        return false;
      }
    }
    return true;
  }

  method ControllersValid(addr: Addresses, list: seq<MinterController>) returns (ok: bool)
    ensures ok <==> forall i :: 0 <= i < |list| ==> addr.acc(list[i].minter).Some? && addr.acc(list[i].controller).Some?
  {
    for i := 0 to |list|
      invariant forall j :: 0 <= j < i ==> addr.acc(list[j].minter).Some? && addr.acc(list[j].controller).Some?
    {
      if addr.acc(list[i].minter).None? || addr.acc(list[i].controller).None? {
        return false;
      }
    }
    return true;
  }

  /** `validatePrivileges`: the double loop over the texts of the role addresses. */
  method ValidatePrivilegeTexts(addresses: seq<Str>) returns (ok: bool)
    ensures ok == Distinct(addresses)
  {
    for i := 0 to |addresses|
      invariant forall i', j :: 0 <= i' < i && 0 <= j < |addresses| && i' != j ==> addresses[i'] != addresses[j]
    {
      for j := 0 to |addresses|
        invariant forall j' :: 0 <= j' < j && i != j' ==> addresses[i] != addresses[j']
      {
        if i == j {
          continue;
        }
        if addresses[i] == addresses[j] {
          return false;
        }
      }
    }
    return true;
  }

  method Validate(addr: Addresses, gs: GenesisState) returns (ok: bool)
    ensures ok == ValidGenesis(addr, gs)
  {
    hide Distinct;
    ok := NoDuplicates(BlacklistedTexts(gs.blacklistedList));
    if !ok {
      return;
    }
    ok := NoDuplicates(MinterAddresses(gs.mintersList));
    if !ok {
      return;
    }
    ok := MintersValid(addr, gs.mintersList);
    if !ok {
      return;
    }
    ok := NoDuplicates(ControllerAddresses(gs.minterControllerList));
    if !ok {
      return;
    }
    ok := ControllersValid(addr, gs.minterControllerList);
    if !ok {
      return;
    }
    var addresses: seq<Str> := [];
    if gs.owner.Some? {
      if addr.acc(gs.owner.value.text).None? {
        return false;
      }
      addresses := addresses + [addr.text(addr.acc(gs.owner.value.text).value)];
    }
    if gs.masterMinter.Some? {
      if addr.acc(gs.masterMinter.value.text).None? {
        return false;
      }
      addresses := addresses + [addr.text(addr.acc(gs.masterMinter.value.text).value)];
    }
    if gs.pauser.Some? {
      if addr.acc(gs.pauser.value.text).None? {
        return false;
      }
      addresses := addresses + [addr.text(addr.acc(gs.pauser.value.text).value)];
    }
    if gs.blacklister.Some? {
      if addr.acc(gs.blacklister.value.text).None? {
        return false;
      }
      addresses := addresses + [addr.text(addr.acc(gs.blacklister.value.text).value)];
    }
    assert addresses == RoleTexts(addr, gs);
    ok := ValidatePrivilegeTexts(addresses);
    if !ok {
      return;
    }
    ok := !(gs.mintingDenom.Some? && gs.mintingDenom.value.text == []);
  }

  // ----- InitGenesis

  /** Setting the elements of a list one after the other. */
  function AddAll<E>(m: map<Str, E>, list: seq<E>, address: E -> Str): map<Str, E>
    decreases |list|
  {
    if list == [] then m else AddAll(m[address(list[0]) := list[0]], list[1..], address)
  }

  function Or<T>(a: Option<T>, b: Option<T>): Option<T> {
    if a.Some? then a else b
  }

  /** The record after initialising it from a genesis state. */
  function Initialised(st: State, gs: GenesisState): State {
    State(
      Or(gs.paused, st.paused),
      Or(gs.masterMinter, st.masterMinter),
      Or(gs.pauser, st.pauser),
      Or(gs.blacklister, st.blacklister),
      Or(gs.owner, st.owner),
      st.pendingOwner,
      Or(gs.mintingDenom, st.mintingDenom),
      AddAll(st.blacklisted, gs.blacklistedList, TextOf),
      AddAll(st.minters, gs.mintersList, AddressOf),
      AddAll(st.controllers, gs.minterControllerList, ControllerOf))
  }

  /** Every record of the genesis state can be marshalled. */
  predicate GenesisStorable(c: Codec<Coin>, gs: GenesisState) {
    && (forall i :: 0 <= i < |gs.blacklistedList| ==> Storable(c, NamedV(gs.blacklistedList[i])))
    && (forall i :: 0 <= i < |gs.mintersList| ==> Storable(c, MintersV(gs.mintersList[i])))
    && (forall i :: 0 <= i < |gs.minterControllerList| ==> Storable(c, ControllerV(gs.minterControllerList[i])))
    && (gs.paused.Some? ==> Storable(c, PausedV(gs.paused.value)))
    && RoleStorable(c, gs.masterMinter) && RoleStorable(c, gs.pauser) && RoleStorable(c, gs.blacklister)
    && RoleStorable(c, gs.owner) && RoleStorable(c, gs.mintingDenom)
  }

  predicate RoleStorable(c: Codec<Coin>, role: Option<Named>) {
    role.Some? ==> Storable(c, NamedV(role.value))
  }

  /** Initialisation does not panic: the minting denom, if given, has metadata and was not set. */
  predicate MayInit(env: Env, st: State, gs: GenesisState) {
    && GenesisStorable(env.coin, gs)
    && (gs.mintingDenom.Some? ==> env.registered(gs.mintingDenom.value.text) && st.mintingDenom.None?)
  }

  method SetAllBlacklisted(k: Keeper, list: seq<Named>) returns (ok: bool)
    requires k.Valid()
    modifies k`store, k`st
    ensures k.Valid()
    ensures ok <==> forall i :: 0 <= i < |list| ==> Storable(k.env.coin, NamedV(list[i]))
    ensures ok ==> k.st == old(k.st).(blacklisted := AddAll(old(k.st).blacklisted, list, TextOf))
  {
    hide Storable;
    ghost var was := k.st;
    assert list[0..] == list;
    for i := 0 to |list|
      invariant k.Valid() && k.st == was.(blacklisted := k.st.blacklisted)
      invariant AddAll(was.blacklisted, list, TextOf) == AddAll(k.st.blacklisted, list[i..], TextOf)
      invariant forall j :: 0 <= j < i ==> Storable(k.env.coin, NamedV(list[j]))
    {
      assert list[i..][1..] == list[i + 1..];
      ok := k.SetBlacklisted(list[i]);
      if !ok {
        return;
      }
    }
    return true;
  }

  method SetAllMinters(k: Keeper, list: seq<Minters>) returns (ok: bool)
    requires k.Valid()
    modifies k`store, k`st
    ensures k.Valid()
    ensures ok <==> forall i :: 0 <= i < |list| ==> Storable(k.env.coin, MintersV(list[i]))
    ensures ok ==> k.st == old(k.st).(minters := AddAll(old(k.st).minters, list, AddressOf))
  {
    hide Storable;
    ghost var was := k.st;
    assert list[0..] == list;
    for i := 0 to |list|
      invariant k.Valid() && k.st == was.(minters := k.st.minters)
      invariant AddAll(was.minters, list, AddressOf) == AddAll(k.st.minters, list[i..], AddressOf)
      invariant forall j :: 0 <= j < i ==> Storable(k.env.coin, MintersV(list[j]))
    {
      assert list[i..][1..] == list[i + 1..];
      ok := k.SetMinters(list[i]);
      if !ok {
        return;
      }
    }
    return true;
  }

  method SetAllControllers(k: Keeper, list: seq<MinterController>) returns (ok: bool)
    requires k.Valid()
    modifies k`store, k`st
    ensures k.Valid()
    ensures ok <==> forall i :: 0 <= i < |list| ==> Storable(k.env.coin, ControllerV(list[i]))
    ensures ok ==> k.st == old(k.st).(controllers := AddAll(old(k.st).controllers, list, ControllerOf))
  {
    hide Storable;
    ghost var was := k.st;
    assert list[0..] == list;
    for i := 0 to |list|
      invariant k.Valid() && k.st == was.(controllers := k.st.controllers)
      invariant AddAll(was.controllers, list, ControllerOf) == AddAll(k.st.controllers, list[i..], ControllerOf)
      invariant forall j :: 0 <= j < i ==> Storable(k.env.coin, ControllerV(list[j]))
    {
      assert list[i..][1..] == list[i + 1..];
      ok := k.SetMinterController(list[i]);
      if !ok {
        return;
      }
    }
    return true;
  }

  /** `if genState.F != nil { k.SetF(ctx, *genState.F) }`. */
  method SetRole(k: Keeper, s: Slot, role: Option<Named>) returns (ok: bool)
    requires k.Valid() && NamedCell(s)
    modifies k`store, k`st
    ensures k.Valid()
    ensures ok == RoleStorable(k.env.coin, role)
    ensures ok ==> k.st == WithCell(old(k.st), s, Or(role, GetCell(old(k.st), s)))
  {
    hide Storable;
    if role.None? {
      return true;
    }
    ok := k.SetNamed(s, role.value);
  }

  /** `SetMintingDenom`: write-once. */
  method SetMintingDenom(k: Keeper, denom: Named) returns (ok: bool)
    requires k.Valid()
    modifies k`store, k`st
    ensures k.Valid()
    ensures ok <==> k.env.registered(denom.text) && old(k.st).mintingDenom.None? && Storable(k.env.coin, NamedV(denom))
    ensures ok ==> k.st == old(k.st).(mintingDenom := Some(denom))
  {
    hide Storable;
    var _, set' := k.GetNamed(MintingDenomS);
    if set' {
      return false;
    }
    if !k.env.registered(denom.text) {
      return false;
    }
    ok := k.SetNamed(MintingDenomS, denom);
  }

  method InitGenesis(k: Keeper, gs: GenesisState) returns (ok: bool)
    requires k.Valid()
    modifies k`store, k`st
    ensures k.Valid()
    ensures ok == MayInit(k.env, old(k.st), gs)
    ensures ok && gs.mintingDenom.Some? ==> k.env.registered(gs.mintingDenom.value.text) && old(k.st).mintingDenom.None?
    ensures ok ==> k.st == Initialised(old(k.st), gs)
    ensures ok ==>
      && k.st.paused == (if gs.paused.Some? then gs.paused else old(k.st).paused)
      && k.st.owner == (if gs.owner.Some? then gs.owner else old(k.st).owner)
      && k.st.masterMinter == (if gs.masterMinter.Some? then gs.masterMinter else old(k.st).masterMinter)
      && k.st.pauser == (if gs.pauser.Some? then gs.pauser else old(k.st).pauser)
      && k.st.blacklister == (if gs.blacklister.Some? then gs.blacklister else old(k.st).blacklister)
      && k.st.mintingDenom == (if gs.mintingDenom.Some? then gs.mintingDenom else old(k.st).mintingDenom)
      && k.st.pendingOwner == old(k.st).pendingOwner
  {
    hide Storable, AddAll, Represents, Lawful, Keyed, AllStorable;
    ok := SetAllBlacklisted(k, gs.blacklistedList);
    if !ok {
      return;
    }
    if gs.paused.Some? {
      ok := k.SetPaused(gs.paused.value);
      if !ok {
        return;
      }
    }
    ok := SetRole(k, MasterMinterS, gs.masterMinter);
    if !ok {
      return;
    }
    ok := SetAllMinters(k, gs.mintersList);
    if !ok {
      return;
    }
    ok := SetRole(k, PauserS, gs.pauser);
    if !ok {
      return;
    }
    ok := SetRole(k, BlacklisterS, gs.blacklister);
    if !ok {
      return;
    }
    ok := SetRole(k, OwnerS, gs.owner);
    if !ok {
      return;
    }
    ok := SetAllControllers(k, gs.minterControllerList);
    if !ok {
      return;
    }
    if gs.mintingDenom.Some? {
      if !k.env.registered(gs.mintingDenom.value.text) {
        return false;
      }
      ok := SetMintingDenom(k, gs.mintingDenom.value);
      if !ok {
        return;
      }
    }
    return true;
  }

  // ----- ExportGenesis

  /** A genesis state that lists exactly what the record holds. The pending owner has no field. */
  ghost predicate Exports(st: State, gs: GenesisState) {
    && gs.paused == st.paused && gs.masterMinter == st.masterMinter && gs.pauser == st.pauser
    && gs.blacklister == st.blacklister && gs.owner == st.owner && gs.mintingDenom == st.mintingDenom
    && Lists(gs.blacklistedList, st.blacklisted, TextOf, BlacklistedKeyOf)
    && Lists(gs.mintersList, st.minters, AddressOf, MintersKeyOf)
    && Lists(gs.minterControllerList, st.controllers, ControllerOf, ControllerKeyOf)
  }

  /** Panics exactly when the pause flag or the minting denom was never set. */
  method ExportGenesis(k: Keeper) returns (gs: GenesisState, ok: bool)
    requires k.Valid()
    ensures ok <==> k.st.paused.Some? && k.st.mintingDenom.Some?
    ensures ok ==> Exports(k.st, gs)
    ensures ok ==>
      && gs.paused == k.st.paused && gs.owner == k.st.owner && gs.masterMinter == k.st.masterMinter
      && gs.pauser == k.st.pauser && gs.blacklister == k.st.blacklister && gs.mintingDenom == k.st.mintingDenom
    ensures ok ==>
      && (forall m :: m in gs.mintersList <==> m.address in k.st.minters && k.st.minters[m.address] == m)
      && (forall m :: m in gs.minterControllerList <==> m.controller in k.st.controllers && k.st.controllers[m.controller] == m)
      && (forall m :: m in gs.blacklistedList <==> m.text in k.st.blacklisted && k.st.blacklisted[m.text] == m)
  {
    hide Represents, Lawful, Storable, Lists, KeyOf, Keyed, AllStorable;
    gs := EMPTY_GENESIS;
    var blacklistedList := k.GetAllBlacklisted();
    gs := gs.(blacklistedList := blacklistedList);
    var paused, pausedSet := k.GetPaused();
    if !pausedSet {
      return gs, false;
    }
    gs := gs.(paused := Some(paused));
    var masterMinter, found := k.GetNamed(MasterMinterS);
    if found {
      gs := gs.(masterMinter := Some(masterMinter));
    }
    var mintersList := k.GetAllMinters();
    gs := gs.(mintersList := mintersList);
    var pauser, pauserFound := k.GetNamed(PauserS);
    if pauserFound {
      gs := gs.(pauser := Some(pauser));
    }
    var blacklister, blacklisterFound := k.GetNamed(BlacklisterS);
    if blacklisterFound {
      gs := gs.(blacklister := Some(blacklister));
    }
    var owner, ownerFound := k.GetNamed(OwnerS);
    if ownerFound {
      gs := gs.(owner := Some(owner));
    }
    var controllers := k.GetAllMinterControllers();
    gs := gs.(minterControllerList := controllers);
    var mintingDenom, denomSet := k.GetNamed(MintingDenomS);
    if !denomSet {
      return gs, false;
    }
    ListedExactly(gs.blacklistedList, k.st.blacklisted, TextOf, BlacklistedKeyOf);
    ListedExactly(gs.mintersList, k.st.minters, AddressOf, MintersKeyOf);
    ListedExactly(gs.minterControllerList, k.st.controllers, ControllerOf, ControllerKeyOf);
    return gs.(mintingDenom := Some(mintingDenom)), true;
  }

  /** A listing holds exactly the entries filed under their own address. */
  lemma ListedExactly<E(!new)>(list: seq<E>, entries: map<Str, E>, address: E -> Str, key: E -> Str)
    requires Lists(list, entries, address, key)
    ensures forall m :: m in list <==> address(m) in entries && entries[address(m)] == m
  {}

  // ----- export, then initialise

  lemma {:induction false} AddAllContent<E(!new)>(m: map<Str, E>, list: seq<E>, address: E -> Str, a: Str)
    requires forall i, j :: 0 <= i < j < |list| ==> address(list[i]) != address(list[j])
    ensures a in AddAll(m, list, address) <==> a in m || exists i :: 0 <= i < |list| && address(list[i]) == a
    ensures forall i :: 0 <= i < |list| && address(list[i]) == a ==>
              a in AddAll(m, list, address) && AddAll(m, list, address)[a] == list[i]
    ensures a in m && (forall i :: 0 <= i < |list| ==> address(list[i]) != a) ==>
              a in AddAll(m, list, address) && AddAll(m, list, address)[a] == m[a]
    decreases |list|
  {
    if list != [] {
      AddAllContent(m[address(list[0]) := list[0]], list[1..], address, a);
      assert forall i :: 1 <= i < |list| ==> list[1..][i - 1] == list[i];
    }
  }

  /** Setting every element of a listing into an empty collection gives the collection back. */
  lemma ListingRebuilds<E(!new)>(list: seq<E>, entries: map<Str, E>, address: E -> Str, key: E -> Str)
    requires Lists(list, entries, address, key)
    requires forall a :: a in entries ==> address(entries[a]) == a
    ensures AddAll(map[], list, address) == entries
  {
    forall i, j | 0 <= i < j < |list|
      ensures address(list[i]) != address(list[j])
    {
      LessIrreflexive(key(list[i]));
    }
    forall a
      ensures a in AddAll(map[], list, address) <==> a in entries
      ensures a in entries ==> a in AddAll(map[], list, address) && AddAll(map[], list, address)[a] == entries[a]
    {
      AddAllContent(map[], list, address, a);
      if a in entries {
        var i :| 0 <= i < |list| && list[i] == entries[a];
      }
    }
  }

  /** Initialising an empty record from an export restores the record, except the pending owner. */
  lemma ExportRestores(st: State, gs: GenesisState)
    requires Keyed(st) && Exports(st, gs)
    ensures Initialised(EMPTY_STATE, gs) == st.(pendingOwner := None)
  {
    ListingRebuilds(gs.blacklistedList, st.blacklisted, TextOf, BlacklistedKeyOf);
    ListingRebuilds(gs.mintersList, st.minters, AddressOf, MintersKeyOf);
    ListingRebuilds(gs.minterControllerList, st.controllers, ControllerOf, ControllerKeyOf);
  }

  lemma SlotStorable(c: Codec<Coin>, st: State, s: Slot, v: Value)
    requires AllStorable(c, st) && Lookup(st, s) == Some(v)
    ensures Storable(c, v)
  {
    hide Storable;
  }

  lemma ListingStorable<E(!new)>(c: Codec<Coin>, st: State, list: seq<E>, entries: map<Str, E>,
      address: E -> Str, key: E -> Str, slot: Str -> Slot, value: E -> Value)
    requires AllStorable(c, st) && Lists(list, entries, address, key)
    requires forall a :: a in entries ==> Lookup(st, slot(a)) == Some(value(entries[a]))
    ensures forall i :: 0 <= i < |list| ==> Storable(c, value(list[i]))
  {
    hide Storable, AllStorable, Lookup;
    forall i | 0 <= i < |list|
      ensures Storable(c, value(list[i]))
    {
      SlotStorable(c, st, slot(address(list[i])), value(list[i]));
    }
  }

  lemma CellStorable(c: Codec<Coin>, st: State, s: Slot)
    requires AllStorable(c, st) && NamedCell(s)
    ensures RoleStorable(c, GetCell(st, s))
  {
    hide Storable, AllStorable;
    if GetCell(st, s).Some? {
      SlotStorable(c, st, s, NamedV(GetCell(st, s).value));
    }
  }

  lemma ExportStorable(c: Codec<Coin>, st: State, gs: GenesisState)
    requires AllStorable(c, st) && Exports(st, gs)
    ensures GenesisStorable(c, gs)
  {
    hide Storable, AllStorable, RoleStorable, Lists;
    ListingStorable(c, st, gs.blacklistedList, st.blacklisted, TextOf, BlacklistedKeyOf,
                    a => BlacklistedS(a), (m: Named) => NamedV(m));
    ListingStorable(c, st, gs.mintersList, st.minters, AddressOf, MintersKeyOf,
                    a => MintersS(a), (m: Minters) => MintersV(m));
    ListingStorable(c, st, gs.minterControllerList, st.controllers, ControllerOf, ControllerKeyOf,
                    a => ControllerS(a), (m: MinterController) => ControllerV(m));
    CellStorable(c, st, MasterMinterS);
    CellStorable(c, st, PauserS);
    CellStorable(c, st, BlacklisterS);
    CellStorable(c, st, OwnerS);
    CellStorable(c, st, MintingDenomS);
    if st.paused.Some? {
      SlotStorable(c, st, PausedS, PausedV(st.paused.value));
    }
  }

  /** Export and re-import through the flat stores: with the pause flag and a registered minting
      denom set, both succeed, and the new store is the old one, byte for byte, without the pending
      owner's key. */
  method ExportThenInit(k: Keeper) returns (fresh': Keeper, ok: bool)
    requires k.Valid()
    requires k.st.paused.Some? && k.st.mintingDenom.Some? && k.env.registered(k.st.mintingDenom.value.text)
    ensures ok && fresh(fresh') && fresh'.env == k.env && fresh'.Valid()
    ensures fresh'.st == k.st.(pendingOwner := None)
    ensures fresh'.store == k.store - {KeyOf(PendingOwnerS)}
  {
    hide Represents, Lawful, Storable, KeyOf, Initialised, Lists;
    var gs, exported := ExportGenesis(k);
    ExportStorable(k.env.coin, k.st, gs);
    ExportRestores(k.st, gs);
    fresh' := new Keeper(k.env, k.bank);
    ok := InitGenesis(fresh', gs);
    DeleteSlot(k.env.coin, k.store, k.st, k.st.(pendingOwner := None), PendingOwnerS);
    RepresentsUnique(k.env.coin, fresh'.store, k.store - {KeyOf(PendingOwnerS)}, fresh'.st);
  }
}
