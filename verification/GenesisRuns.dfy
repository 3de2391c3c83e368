/** From one genesis to the next: a validated genesis state starts every invariant, and what a run
    exports validates again. */
module GenesisRuns {
  import opened Bytes
  import opened Messages
  import opened Store
  import opened Bank
  import opened TokenFactory
  import opened Keeper
  import opened MsgServer
  import opened Genesis
  import opened Runs

  /** Every address in the record parses, and the minting denom is not empty. */
  ghost predicate ValidRecord(env: Env, st: State) {
    && Parses(env.addr, st.owner) && Parses(env.addr, st.pendingOwner) && Parses(env.addr, st.masterMinter)
    && Parses(env.addr, st.pauser) && Parses(env.addr, st.blacklister)
    && (forall a :: a in st.minters ==> env.addr.acc(a).Some?)
    && (forall a :: a in st.controllers ==> env.addr.acc(a).Some? && env.addr.acc(st.controllers[a].minter).Some?)
    && !Holds(st.mintingDenom, [])
  }

  lemma StepKeepsValidRecord(env: Env, w: World, msg: Msg)
    requires Keyed(w.st) && ValidRecord(env, w.st)
    ensures ValidRecord(env, Step(env, w, msg).st)
  {
    hide ValidatePrivileges, Storable, MintTo, BurnFrom;
  }

  lemma {:induction false} RunKeepsValidRecord(env: Env, w: World, msgs: seq<Msg>)
    requires Inv(w.st) && ValidRecord(env, w.st)
    ensures ValidRecord(env, Run(env, w, msgs).st)
    decreases |msgs|
  {
    hide Step, ValidRecord, AllowancesOk, Keyed;
    if msgs != [] {
      StepKeepsValidRecord(env, w, msgs[0]);
      StepKeepsInv(env, w, msgs[0]);
      RunKeepsValidRecord(env, Step(env, w, msgs[0]), msgs[1..]);
    }
  }

  /** Exactly which genesis states are valid: no address is listed twice in any of the three lists, all
      addresses parse, no allowance is negative, the four roles belong to different accounts, and the
      minting denom is not empty. */
  lemma ValidGenesisExactly(env: Env, gs: GenesisState)
    ensures ValidGenesis(env.addr, gs) <==>
      && (forall i, j :: 0 <= i < j < |gs.blacklistedList| ==> gs.blacklistedList[i].text != gs.blacklistedList[j].text)
      && (forall i, j :: 0 <= i < j < |gs.mintersList| ==> gs.mintersList[i].address != gs.mintersList[j].address)
      && (forall i, j :: 0 <= i < j < |gs.minterControllerList| ==>
            gs.minterControllerList[i].controller != gs.minterControllerList[j].controller)
      && (forall m :: m in gs.mintersList ==> env.addr.acc(m.address).Some? && m.allowance.amount >= 0)
      && (forall m :: m in gs.minterControllerList ==> env.addr.acc(m.minter).Some? && env.addr.acc(m.controller).Some?)
      && (gs.owner.Some? ==> env.addr.acc(gs.owner.value.text).Some?)
      && (gs.masterMinter.Some? ==> env.addr.acc(gs.masterMinter.value.text).Some?)
      && (gs.pauser.Some? ==> env.addr.acc(gs.pauser.value.text).Some?)
      && (gs.blacklister.Some? ==> env.addr.acc(gs.blacklister.value.text).Some?)
      && Apart(env, gs.owner, gs.masterMinter) && Apart(env, gs.owner, gs.pauser) && Apart(env, gs.owner, gs.blacklister)
      && Apart(env, gs.blacklister, gs.masterMinter) && Apart(env, gs.blacklister, gs.pauser)
      && Apart(env, gs.masterMinter, gs.pauser)
      && gs.mintingDenom != Some(Named([]))
  {
    if Parses(env.addr, gs.owner) && Parses(env.addr, gs.masterMinter) && Parses(env.addr, gs.pauser)
       && Parses(env.addr, gs.blacklister) {
      RolesDistinct(env, gs, StartState(gs));
    }
    ListsWritten(gs);
    hide RoleTexts, Apart, AddAll, Distinct, BlacklistedTexts, MinterAddresses, ControllerAddresses;
  }

  lemma ListsWritten(gs: GenesisState)
    ensures Distinct(BlacklistedTexts(gs.blacklistedList)) <==>
      forall i, j :: 0 <= i < j < |gs.blacklistedList| ==> gs.blacklistedList[i].text != gs.blacklistedList[j].text
    ensures Distinct(MinterAddresses(gs.mintersList)) <==>
      forall i, j :: 0 <= i < j < |gs.mintersList| ==> gs.mintersList[i].address != gs.mintersList[j].address
    ensures Distinct(ControllerAddresses(gs.minterControllerList)) <==>
      forall i, j :: 0 <= i < j < |gs.minterControllerList| ==>
        gs.minterControllerList[i].controller != gs.minterControllerList[j].controller
  {
    var b, m, c := BlacklistedTexts(gs.blacklistedList), MinterAddresses(gs.mintersList), ControllerAddresses(gs.minterControllerList);
    assert forall i :: 0 <= i < |gs.blacklistedList| ==> b[i] == gs.blacklistedList[i].text;
    assert forall i :: 0 <= i < |gs.mintersList| ==> m[i] == gs.mintersList[i].address;
    assert forall i :: 0 <= i < |gs.minterControllerList| ==> c[i] == gs.minterControllerList[i].controller;
  }

  /** A validated genesis state whose allowances are in the minting denom. */
  ghost predicate GoodGenesis(env: Env, gs: GenesisState) {
    && ValidGenesis(env.addr, gs)
    && (forall i :: 0 <= i < |gs.mintersList| ==> Holds(gs.mintingDenom, gs.mintersList[i].allowance.denom))
  }

  /** What InitGenesis makes of it. */
  function StartState(gs: GenesisState): State {
    Initialised(EMPTY_STATE, gs)
  }

  /** After setting a list of distinct addresses, an entry is an element filed under its address. */
  lemma {:induction false} AddedEntry<E(!new)>(list: seq<E>, address: E -> Str, a: Str) returns (i: nat)
    requires forall i, j :: 0 <= i < j < |list| ==> address(list[i]) != address(list[j])
    requires a in AddAll(map[], list, address)
    ensures i < |list| && address(list[i]) == a && AddAll(map[], list, address)[a] == list[i]
  {
    AddAllContent(map[], list, address, a);
    i :| 0 <= i < |list| && address(list[i]) == a;
  }

  lemma MintersStart(env: Env, gs: GenesisState, a: Str)
    requires GoodGenesis(env, gs) && a in StartState(gs).minters
    ensures env.addr.acc(a).Some?
    ensures var m := StartState(gs).minters[a];
      m.address == a && m.allowance.amount >= 0 && Holds(gs.mintingDenom, m.allowance.denom)
  {
    hide AddAll, RoleTexts, BlacklistedTexts, ControllerAddresses;
    forall i, j | 0 <= i < j < |gs.mintersList|
      ensures AddressOf(gs.mintersList[i]) != AddressOf(gs.mintersList[j])
    {
      assert MinterAddresses(gs.mintersList)[i] != MinterAddresses(gs.mintersList)[j];
    }
    var i := AddedEntry(gs.mintersList, AddressOf, a);
  }

  lemma ControllersStart(env: Env, gs: GenesisState, a: Str)
    requires GoodGenesis(env, gs) && a in StartState(gs).controllers
    ensures env.addr.acc(a).Some?
    ensures var m := StartState(gs).controllers[a]; m.controller == a && env.addr.acc(m.minter).Some?
  {
    hide AddAll, RoleTexts, BlacklistedTexts, MinterAddresses;
    forall i, j | 0 <= i < j < |gs.minterControllerList|
      ensures ControllerOf(gs.minterControllerList[i]) != ControllerOf(gs.minterControllerList[j])
    {
      assert ControllerAddresses(gs.minterControllerList)[i] != ControllerAddresses(gs.minterControllerList)[j];
    }
    var i := AddedEntry(gs.minterControllerList, ControllerOf, a);
  }

  lemma BlacklistedStart(env: Env, gs: GenesisState, a: Str)
    requires GoodGenesis(env, gs) && a in StartState(gs).blacklisted
    ensures StartState(gs).blacklisted[a].text == a
  {
    hide AddAll, RoleTexts, ControllerAddresses, MinterAddresses;
    forall i, j | 0 <= i < j < |gs.blacklistedList|
      ensures TextOf(gs.blacklistedList[i]) != TextOf(gs.blacklistedList[j])
    {
      assert BlacklistedTexts(gs.blacklistedList)[i] != BlacklistedTexts(gs.blacklistedList)[j];
    }
    var i := AddedEntry(gs.blacklistedList, TextOf, a);
  }

  /** The four roles of the genesis state are those of the record. */
  predicate SameRoles(gs: GenesisState, st: State) {
    gs.owner == st.owner && gs.masterMinter == st.masterMinter && gs.pauser == st.pauser && gs.blacklister == st.blacklister
  }

  /** What genesis validation compares is whether the four roles belong to different accounts. */
  lemma RolesDistinct(env: Env, gs: GenesisState, st: State)
    requires SameRoles(gs, st)
    requires Parses(env.addr, gs.owner) && Parses(env.addr, gs.masterMinter)
    requires Parses(env.addr, gs.pauser) && Parses(env.addr, gs.blacklister)
    ensures Distinct(RoleTexts(env.addr, gs)) <==> FourApart(env, st)
  {
    var o, m := CanonicalText(env.addr, gs.owner), CanonicalText(env.addr, gs.masterMinter);
    var p, b := CanonicalText(env.addr, gs.pauser), CanonicalText(env.addr, gs.blacklister);
    RolePair(env, st.owner, st.masterMinter);
    RolePair(env, st.owner, st.pauser);
    RolePair(env, st.owner, st.blacklister);
    RolePair(env, st.pauser, st.masterMinter);
    RolePair(env, st.blacklister, st.masterMinter);
    RolePair(env, st.blacklister, st.pauser);
    hide CanonicalText, Apart, Distinct, Disjoint;
    DistinctParts(o + m + p, b);
    DistinctParts(o + m, p);
    DistinctParts(o, m);
    DisjointParts(o + m, p, b);
    DisjointParts(o, m, b);
    DisjointParts(o, m, p);
  }

  /** Two roles belong to different accounts when their canonical texts differ. */
  lemma RolePair(env: Env, r: Option<Named>, s: Option<Named>)
    requires Parses(env.addr, r) && Parses(env.addr, s)
    ensures var a, b := CanonicalText(env.addr, r), CanonicalText(env.addr, s);
      && Distinct(a) && Distinct(b)
      && (Disjoint(a, b) <==> Apart(env, r, s)) && (Disjoint(b, a) <==> Apart(env, r, s))
  {
    var a, b := CanonicalText(env.addr, r), CanonicalText(env.addr, s);
    if a != [] && b != [] {
      assert a[0] in a && b[0] in b;
    }
  }

  lemma DisjointParts(a: seq<Str>, b: seq<Str>, c: seq<Str>)
    ensures Disjoint(a + b, c) <==> Disjoint(a, c) && Disjoint(b, c)
  {
    assert forall x :: x in a + b <==> x in a || x in b;
  }

  predicate Disjoint(a: seq<Str>, b: seq<Str>) {
    forall x :: x in a ==> x !in b
  }

  lemma DistinctParts(a: seq<Str>, b: seq<Str>)
    ensures Distinct(a + b) <==> Distinct(a) && Distinct(b) && Disjoint(a, b)
  {
    if Distinct(a) && Distinct(b) && Disjoint(a, b) {
      forall i, j | 0 <= i < j < |a + b|
        ensures (a + b)[i] != (a + b)[j]
      {
        if i < |a| <= j {
          assert (a + b)[i] in a && (a + b)[j] in b;
        }
      }
    }
    if Distinct(a + b) {
      forall i, j | 0 <= i < |a| && 0 <= j < |b|
        ensures a[i] != b[j]
      {
        assert (a + b)[i] == a[i] && (a + b)[|a| + j] == b[j];
      }
      forall i, j | 0 <= i < j < |a|
        ensures a[i] != a[j]
      {
        assert (a + b)[i] == a[i] && (a + b)[j] == a[j];
      }
      forall i, j | 0 <= i < j < |b|
        ensures b[i] != b[j]
      {
        assert (a + b)[|a| + i] == b[i] && (a + b)[|a| + j] == b[j];
      }
    }
  }

  /** A good genesis state starts every invariant. */
  lemma GenesisStarts(env: Env, gs: GenesisState)
    requires GoodGenesis(env, gs)
    ensures Inv(StartState(gs)) && ValidRecord(env, StartState(gs))
    ensures FiveApart(env, StartState(gs))
  {
    var st := StartState(gs);
    RolesDistinct(env, gs, st);
    forall a | a in st.minters
      ensures env.addr.acc(a).Some? && st.minters[a].address == a && st.minters[a].allowance.amount >= 0
      ensures Holds(st.mintingDenom, st.minters[a].allowance.denom)
    {
      MintersStart(env, gs, a);
    }
    forall a | a in st.controllers
      ensures env.addr.acc(a).Some? && st.controllers[a].controller == a && env.addr.acc(st.controllers[a].minter).Some?
    {
      ControllersStart(env, gs, a);
    }
    forall a | a in st.blacklisted
      ensures st.blacklisted[a].text == a
    {
      BlacklistedStart(env, gs, a);
    }
  }

  // ----- export

  lemma ListedDistinct<E(!new)>(list: seq<E>, entries: map<Str, E>, address: E -> Str, key: E -> Str)
    requires Lists(list, entries, address, key)
    ensures forall i, j :: 0 <= i < j < |list| ==> address(list[i]) != address(list[j])
  {
    forall i, j | 0 <= i < j < |list|
      ensures address(list[i]) != address(list[j])
    {
      LessIrreflexive(key(list[i]));
    }
  }

  lemma DistinctLists(st: State, gs: GenesisState)
    requires Exports(st, gs)
    ensures Distinct(BlacklistedTexts(gs.blacklistedList)) && Distinct(MinterAddresses(gs.mintersList))
    ensures Distinct(ControllerAddresses(gs.minterControllerList))
  {
    hide KeyOf;
    ListedDistinct(gs.blacklistedList, st.blacklisted, TextOf, BlacklistedKeyOf);
    ListedDistinct(gs.mintersList, st.minters, AddressOf, MintersKeyOf);
    ListedDistinct(gs.minterControllerList, st.controllers, ControllerOf, ControllerKeyOf);
    hide Lists;
    assert forall i, j :: 0 <= i < j < |gs.blacklistedList| ==> TextOf(gs.blacklistedList[i]) != TextOf(gs.blacklistedList[j]);
    assert forall i, j :: 0 <= i < j < |gs.mintersList| ==> AddressOf(gs.mintersList[i]) != AddressOf(gs.mintersList[j]);
    assert forall i, j :: 0 <= i < j < |gs.minterControllerList| ==>
      ControllerOf(gs.minterControllerList[i]) != ControllerOf(gs.minterControllerList[j]);
  }

  /** What such a state exports is a valid genesis state again exactly when its four assigned roles
      belong to different accounts. */
  lemma ExportValidates(env: Env, st: State, gs: GenesisState)
    requires Inv(st) && ValidRecord(env, st) && Exports(st, gs)
    ensures GoodGenesis(env, gs) <==> FourApart(env, st)
  {
    DistinctLists(st, gs);
    RolesDistinct(env, gs, st);
    hide KeyOf, RoleTexts, Distinct, FourApart;
    forall i | 0 <= i < |gs.mintersList|
      ensures env.addr.acc(gs.mintersList[i].address).Some? && gs.mintersList[i].allowance.amount >= 0
      ensures Holds(gs.mintingDenom, gs.mintersList[i].allowance.denom)
    {
      assert AddressOf(gs.mintersList[i]) in st.minters;
    }
    forall i | 0 <= i < |gs.minterControllerList|
      ensures env.addr.acc(gs.minterControllerList[i].minter).Some?
      ensures env.addr.acc(gs.minterControllerList[i].controller).Some?
    {
      assert ControllerOf(gs.minterControllerList[i]) in st.controllers;
    }
  }

  lemma {:induction false} LastFiveApart(env: Env, w: World, msgs: seq<Msg>)
    requires AlwaysFiveApart(env, w, msgs)
    ensures FiveApart(env, Run(env, w, msgs).st)
    decreases |msgs|
  {
    hide Step, FiveApart;
    if msgs != [] {
      LastFiveApart(env, Step(env, w, msgs[0]), msgs[1..]);
    }
  }

  /** Genesis to genesis: after every run from a good genesis state, whatever is exported is a good
      genesis state exactly when the four assigned roles belong to different accounts by then; and so
      it is when no role update of the run gave an account a second role. */
  lemma ExportOfRunValidates(env: Env, gs: GenesisState, bank: Bank, msgs: seq<Msg>, gs': GenesisState)
    requires GoodGenesis(env, gs)
    requires Exports(Run(env, World(StartState(gs), bank), msgs).st, gs')
    ensures GoodGenesis(env, gs') <==> FourApart(env, Run(env, World(StartState(gs), bank), msgs).st)
    ensures NeverDoublesOfFive(env, World(StartState(gs), bank), msgs) ==> GoodGenesis(env, gs')
  {
    hide GoodGenesis, StartState, Run, Inv, ValidRecord, FourApart, FiveApart, Exports, NeverDoublesOfFive, AlwaysFiveApart;
    var w := World(StartState(gs), bank);
    GenesisStarts(env, gs);
    RunKeepsInv(env, w, msgs);
    RunKeepsValidRecord(env, w, msgs);
    FiveApartExactly(env, w, msgs);
    ExportValidates(env, Run(env, w, msgs).st, gs');
    if NeverDoublesOfFive(env, w, msgs) {
      LastFiveApart(env, w, msgs);
      FiveApartIncludesFour(env, Run(env, w, msgs).st);
    }
  }

  lemma FiveApartIncludesFour(env: Env, st: State)
    requires FiveApart(env, st)
    ensures FourApart(env, st)
  {}

  /** The chain's life over the flat stores: initialise, run, export. */
  method InitRunExport(env: Env, bank: Bank, gs: GenesisState, msgs: seq<Msg>) returns (k: Keeper, gs': GenesisState, ok: bool)
    requires Lawful(env.coin) && MayInit(env, EMPTY_STATE, gs)
    requires GoodGenesis(env, gs) && gs.paused.Some? && gs.mintingDenom.Some?
    ensures fresh(k) && k.Valid() && k.World() == Run(env, World(StartState(gs), bank), msgs)
    ensures ok && Exports(k.st, gs')
    ensures GoodGenesis(env, gs') <==> FourApart(env, k.st)
    ensures NeverDoublesOfFive(env, World(StartState(gs), bank), msgs) ==> GoodGenesis(env, gs')
  {
    hide GoodGenesis, MayInit, Represents, Lawful, Initialised, Exports, NeverDoublesOfFive, FourApart, Storable;
    k := new Keeper(env, bank);
    var initialised := InitGenesis(k, gs);
    var server := new MsgServer(k);
    assert k.World() == World(StartState(gs), bank);
    server.DeliverAll(msgs);
    StaysExportable(env, World(StartState(gs), bank), gs, msgs);
    gs', ok := ExportGenesis(k);
    ExportOfRunValidates(env, gs, bank, msgs, gs');
  }

  lemma StaysExportable(env: Env, w: World, gs: GenesisState, msgs: seq<Msg>)
    requires GoodGenesis(env, gs) && gs.paused.Some? && gs.mintingDenom.Some? && w.st == StartState(gs)
    ensures Run(env, w, msgs).st.paused.Some? && Run(env, w, msgs).st.mintingDenom.Some?
  {
    GenesisStarts(env, gs);
    RunKeepsInv(env, w, msgs);
    PausedStaysSet(env, w, msgs);
  }

  lemma {:induction false} PausedStaysSet(env: Env, w: World, msgs: seq<Msg>)
    requires w.st.paused.Some?
    ensures Run(env, w, msgs).st.paused.Some?
    decreases |msgs|
  {
    if msgs != [] {
      PausedStaysSetStep(env, w, msgs[0]);
      hide Step;
      PausedStaysSet(env, Step(env, w, msgs[0]), msgs[1..]);
    }
  }

  lemma PausedStaysSetStep(env: Env, w: World, msg: Msg)
    requires w.st.paused.Some?
    ensures Step(env, w, msg).st.paused.Some?
  {
    hide ValidatePrivileges, Storable, MintTo, BurnFrom;
  }
}
