/** What holds over every run of tokenfactory messages: the supply and account ledgers, allowance
    accounting, and the separation of roles. */
module Runs {
  import opened Bytes
  import opened Messages
  import opened Store
  import opened Bank
  import opened TokenFactory

  predicate Accepted(env: Env, w: World, msg: Msg) {
    Deliver(env, w, msg).Ok?
  }

  // ----- ledgers of the bank

  /** What an accepted Mint adds to a denom, and an accepted Burn takes from it. */
  function MintedBy(env: Env, w: World, msg: Msg, denom: Str): int {
    if msg.Mint? && Accepted(env, w, msg) && msg.amount.denom == denom then msg.amount.amount else 0
  }

  function BurnedBy(env: Env, w: World, msg: Msg, denom: Str): int {
    if msg.Burn? && Accepted(env, w, msg) && msg.amount.denom == denom then msg.amount.amount else 0
  }

  function TotalMinted(env: Env, w: World, msgs: seq<Msg>, denom: Str): int
    decreases |msgs|
  {
    if msgs == [] then 0
    else MintedBy(env, w, msgs[0], denom) + TotalMinted(env, Step(env, w, msgs[0]), msgs[1..], denom)
  }

  function TotalBurned(env: Env, w: World, msgs: seq<Msg>, denom: Str): int
    decreases |msgs|
  {
    if msgs == [] then 0
    else BurnedBy(env, w, msgs[0], denom) + TotalBurned(env, Step(env, w, msgs[0]), msgs[1..], denom)
  }

  /** The account that an accepted Mint credits, or an accepted Burn debits. */
  function Credited(env: Env, w: World, msg: Msg, who: Str, denom: Str): int {
    if msg.Mint? && env.addr.acc(msg.address) == Some(who) then MintedBy(env, w, msg, denom) else 0
  }

  function Debited(env: Env, w: World, msg: Msg, who: Str, denom: Str): int {
    if msg.Burn? && env.addr.acc(msg.from) == Some(who) then BurnedBy(env, w, msg, denom) else 0
  }

  /** The module account is blocked as a recipient, and has no key to sign with. */
  predicate ModuleIsolated(env: Env, msg: Msg) {
    env.blocked(env.module') && env.addr.acc(msg.from) != Some(env.module')
  }

  lemma MintToEffect(env: Env, bank: Bank, receiver: Str, amount: Coin, who: Str, denom: Str)
    requires env.blocked(env.module') && MintTo(env, bank, receiver, amount).Ok?
    ensures var b' := MintTo(env, bank, receiver, amount).value;
      && Supply(b', denom) == Supply(bank, denom) + (if amount.denom == denom then amount.amount else 0)
      && Balance(b', who, denom) == Balance(bank, who, denom) + (if amount.denom == denom && who == receiver then amount.amount else 0)
  {
    hide Send, MintCoins, Balance, Supply;
    var coins := NewCoins(env.validDenom, amount).value;
    MintThenSend(bank, env.module', receiver, coins, who, denom);
  }

  lemma BurnFromEffect(env: Env, bank: Bank, burner: Str, amount: Coin, who: Str, denom: Str)
    requires burner != env.module' && BurnFrom(env, bank, burner, amount).Ok?
    ensures var b' := BurnFrom(env, bank, burner, amount).value;
      && Supply(b', denom) == Supply(bank, denom) - (if amount.denom == denom then amount.amount else 0)
      && Balance(b', who, denom) == Balance(bank, who, denom) - (if amount.denom == denom && who == burner then amount.amount else 0)
  {
    hide Send, BurnCoins, Balance, Supply;
    var coins := NewCoins(env.validDenom, amount).value;
    SendThenBurn(bank, burner, env.module', coins, who, denom);
  }

  /** One message moves supply and balances by what it mints and burns, and by nothing else. */
  lemma StepLedger(env: Env, w: World, msg: Msg, who: Str, denom: Str)
    requires ModuleIsolated(env, msg)
    ensures var w' := Step(env, w, msg);
      && Supply(w'.bank, denom) == Supply(w.bank, denom) + MintedBy(env, w, msg, denom) - BurnedBy(env, w, msg, denom)
      && Balance(w'.bank, who, denom)
         == Balance(w.bank, who, denom) + Credited(env, w, msg, who, denom) - Debited(env, w, msg, who, denom)
  {
    hide MintTo, BurnFrom, Balance, Supply, ValidatePrivileges, Storable;
    if Accepted(env, w, msg) {
      match msg
      case Mint(from, address, amount) => MintToEffect(env, w.bank, Receiver(env, address), amount, who, denom);
      case Burn(from, amount) => BurnFromEffect(env, w.bank, env.addr.acc(from).value, amount, who, denom);
      case _ =>
    }
  }

  /** Supply changes by mints minus burns, over every run. */
  lemma {:induction false} SupplyLedger(env: Env, w: World, msgs: seq<Msg>, denom: Str)
    requires forall i :: 0 <= i < |msgs| ==> ModuleIsolated(env, msgs[i])
    ensures Supply(Run(env, w, msgs).bank, denom)
         == Supply(w.bank, denom) + TotalMinted(env, w, msgs, denom) - TotalBurned(env, w, msgs, denom)
    decreases |msgs|
  {
    hide Step, MintedBy, BurnedBy, Supply;
    if msgs != [] {
      StepLedger(env, w, msgs[0], [], denom);
      SupplyLedger(env, Step(env, w, msgs[0]), msgs[1..], denom);
    }
  }

  /** The module account never keeps anything: its balance is the same after every message. */
  lemma {:induction false} ModuleAccountUnchanged(env: Env, w: World, msgs: seq<Msg>, denom: Str)
    requires forall i :: 0 <= i < |msgs| ==> ModuleIsolated(env, msgs[i])
    ensures Balance(Run(env, w, msgs).bank, env.module', denom) == Balance(w.bank, env.module', denom)
    decreases |msgs|
  {
    if msgs != [] {
      ModuleBalanceStep(env, w, msgs[0], denom);
      hide Step, Balance;
      ModuleAccountUnchanged(env, Step(env, w, msgs[0]), msgs[1..], denom);
    }
  }

  lemma ModuleBalanceStep(env: Env, w: World, msg: Msg, denom: Str)
    requires ModuleIsolated(env, msg)
    ensures Balance(Step(env, w, msg).bank, env.module', denom) == Balance(w.bank, env.module', denom)
  {
    StepLedger(env, w, msg, env.module', denom);
    hide Balance, Supply, ValidatePrivileges, Storable, Send, MintCoins, BurnFrom;
    assert Credited(env, w, msg, env.module', denom) == 0;
    assert Debited(env, w, msg, env.module', denom) == 0;
  }

  /** While the pause flag stays set, nothing is minted or burned. */
  lemma {:induction false} PausedFreezesSupply(env: Env, w: World, msgs: seq<Msg>)
    requires w.st.paused == Some(Paused(true))
    requires forall i :: 0 <= i < |msgs| ==> !msgs[i].Unpause?
    ensures Run(env, w, msgs).bank == w.bank && Run(env, w, msgs).st.paused == Some(Paused(true))
    decreases |msgs|
  {
    if msgs != [] {
      PausedStep(env, w, msgs[0]);
      hide Step;
      PausedFreezesSupply(env, Step(env, w, msgs[0]), msgs[1..]);
    }
  }

  lemma PausedStep(env: Env, w: World, msg: Msg)
    requires w.st.paused == Some(Paused(true)) && !msg.Unpause?
    ensures Step(env, w, msg).bank == w.bank && Step(env, w, msg).st.paused == Some(Paused(true))
  {
    hide ValidatePrivileges, Storable;
  }

  // ----- the blacklist

  /** The message mints from or to the account with these address bytes, or burns from it. */
  predicate Moves(env: Env, msg: Msg, bz: Str) {
    || (msg.Mint? && (env.addr.decode(msg.from) == Some(bz) || env.addr.decode(msg.address) == Some(bz)))
    || (msg.Burn? && env.addr.decode(msg.from) == Some(bz))
  }

  predicate Lifts(env: Env, msg: Msg, bz: Str) {
    msg.Unblacklist? && env.addr.decode(msg.address) == Some(bz)
  }

  lemma BlacklistedIsStopped(env: Env, w: World, msg: Msg, bz: Str)
    requires bz in w.st.blacklisted && Moves(env, msg, bz)
    ensures !Accepted(env, w, msg)
  {
    hide MintTo, BurnFrom, Storable;
  }

  lemma StepKeepsKeyed(env: Env, w: World, msg: Msg)
    requires Keyed(w.st)
    ensures Keyed(Step(env, w, msg).st)
  {
    hide ValidatePrivileges, MintTo, BurnFrom, Storable;
  }

  lemma BlacklistedStep(env: Env, w: World, msg: Msg, bz: Str)
    requires Keyed(w.st) && bz in w.st.blacklisted && !Lifts(env, msg, bz)
    ensures Moves(env, msg, bz) ==> !Accepted(env, w, msg)
    ensures Keyed(Step(env, w, msg).st) && bz in Step(env, w, msg).st.blacklisted
  {
    hide Step, Keyed, Moves;
    StepKeepsKeyed(env, w, msg);
    OneEntryAtATime(env, w, msg, bz);
    if Moves(env, msg, bz) {
      BlacklistedIsStopped(env, w, msg, bz);
    }
  }

  predicate NeverMoved(env: Env, w: World, msgs: seq<Msg>, bz: Str)
    decreases |msgs|
  {
    msgs == [] || (!(Moves(env, msgs[0], bz) && Accepted(env, w, msgs[0]))
                   && NeverMoved(env, Step(env, w, msgs[0]), msgs[1..], bz))
  }

  /** Over every run without an Unblacklist of it, a blacklisted account stays blacklisted, and nothing
      is minted from it, to it, or burned from it. */
  lemma {:induction false} BlacklistHolds(env: Env, w: World, msgs: seq<Msg>, bz: Str)
    requires Keyed(w.st) && bz in w.st.blacklisted
    requires forall i :: 0 <= i < |msgs| ==> !Lifts(env, msgs[i], bz)
    ensures bz in Run(env, w, msgs).st.blacklisted && NeverMoved(env, w, msgs, bz)
    decreases |msgs|
  {
    hide Step, Keyed, Lifts, Moves;
    if msgs != [] {
      BlacklistedStep(env, w, msgs[0], bz);
      BlacklistHolds(env, Step(env, w, msgs[0]), msgs[1..], bz);
    }
  }

  /** The two decoders agree on the chain's own addresses. */
  ghost predicate DecodersAgree(env: Env) {
    forall a :: env.addr.acc(a).Some? ==> env.addr.decode(a) == env.addr.acc(a)
  }

  /** So its balance stands still, as far as this module's messages go. */
  lemma {:induction false} BlacklistedBalanceFrozen(env: Env, w: World, msgs: seq<Msg>, bz: Str, denom: Str)
    requires DecodersAgree(env) && Keyed(w.st) && bz in w.st.blacklisted
    requires forall i :: 0 <= i < |msgs| ==> !Lifts(env, msgs[i], bz) && ModuleIsolated(env, msgs[i])
    ensures Balance(Run(env, w, msgs).bank, bz, denom) == Balance(w.bank, bz, denom)
    decreases |msgs|
  {
    hide Step, Keyed, Lifts, Balance, ModuleIsolated;
    if msgs != [] {
      BlacklistedStep(env, w, msgs[0], bz);
      BlacklistedBalanceStep(env, w, msgs[0], bz, denom);
      BlacklistedBalanceFrozen(env, Step(env, w, msgs[0]), msgs[1..], bz, denom);
    }
  }

  lemma BlacklistedBalanceStep(env: Env, w: World, msg: Msg, bz: Str, denom: Str)
    requires DecodersAgree(env) && ModuleIsolated(env, msg)
    requires Moves(env, msg, bz) ==> !Accepted(env, w, msg)
    ensures Balance(Step(env, w, msg).bank, bz, denom) == Balance(w.bank, bz, denom)
  {
    StepLedger(env, w, msg, bz, denom);
    hide Handle, Step, Balance, Supply;
    assert env.addr.acc(msg.from).Some? ==> env.addr.decode(msg.from) == env.addr.acc(msg.from);
  }

  // ----- authority

  /** What one message makes of every cell: each changes only by an accepted message of its kind, to
      the value that message names, and only at the hand of the right account. */
  lemma OnlyTheRightHand(env: Env, w: World, msg: Msg)
    ensures var st, st', ok := w.st, Step(env, w, msg).st, Accepted(env, w, msg);
      && st'.owner == (if ok && msg.AcceptOwner? then Some(Named(msg.from)) else st.owner)
      && st'.pendingOwner == (if ok && msg.UpdateOwner? then Some(Named(msg.address))
                              else if ok && msg.AcceptOwner? then None else st.pendingOwner)
      && st'.masterMinter == (if ok && msg.UpdateMasterMinter? then Some(Named(msg.address)) else st.masterMinter)
      && st'.pauser == (if ok && msg.UpdatePauser? then Some(Named(msg.address)) else st.pauser)
      && st'.blacklister == (if ok && msg.UpdateBlacklister? then Some(Named(msg.address)) else st.blacklister)
      && st'.paused == (if ok && msg.Pause? then Some(Paused(true))
                        else if ok && msg.Unpause? then Some(Paused(false)) else st.paused)
      && st'.mintingDenom == st.mintingDenom
    ensures Accepted(env, w, msg) ==>
      match msg
      case AcceptOwner(from) => w.st.pendingOwner == Some(Named(from))
      case UpdateOwner(from, _) => w.st.owner == Some(Named(from))
      case UpdateMasterMinter(from, _) => w.st.owner == Some(Named(from))
      case UpdatePauser(from, _) => w.st.owner == Some(Named(from))
      case UpdateBlacklister(from, _) => w.st.owner == Some(Named(from))
      case Pause(from) => w.st.pauser == Some(Named(from))
      case Unpause(from) => w.st.pauser == Some(Named(from))
      case _ => true
  {
    hide ValidatePrivileges, Storable, MintTo, BurnFrom;
  }

  function WithPause(w: World, paused: bool): World {
    w.(st := w.st.(paused := Some(Paused(paused))))
  }

  /** The access table's pause column: pausing stops Mint and Burn, and nothing else. */
  lemma PauseStopsMintAndBurnOnly(env: Env, w: World, msg: Msg)
    ensures Accepted(env, WithPause(w, true), msg) <==> Accepted(env, WithPause(w, false), msg) && !msg.Mint? && !msg.Burn?
  {
    hide Storable, MintTo, BurnFrom;
  }

  /** What one message makes of every entry of the three collections, and who may send it: the
      blacklister, the master minter, or the minter's controller; a minter itself can only lower its
      allowance, by what it mints. */
  lemma OneEntryAtATime(env: Env, w: World, msg: Msg, a: Str)
    requires Keyed(w.st)
    ensures var st, st', ok := w.st, Step(env, w, msg).st, Accepted(env, w, msg);
      && (a in st'.blacklisted <==>
            if ok && msg.Blacklist? && env.addr.decode(msg.address) == Some(a) then true
            else if ok && msg.Unblacklist? && env.addr.decode(msg.address) == Some(a) then false
            else a in st.blacklisted)
      && Map(st'.controllers, a) == (
            if ok && msg.ConfigureMinterController? && msg.controller == a then Some(MinterController(msg.minter, a))
            else if ok && msg.RemoveMinterController? && msg.controller == a then None
            else Map(st.controllers, a))
      && Map(st'.minters, a) == (
            if ok && msg.ConfigureMinter? && msg.address == a then Some(Minters(a, msg.allowance))
            else if ok && msg.RemoveMinter? && msg.address == a then None
            else if ok && msg.Mint? && msg.from == a && a in st.minters then
              Some(Minters(a, Coin(st.minters[a].allowance.denom, st.minters[a].allowance.amount - msg.amount.amount)))
            else Map(st.minters, a))
    ensures Accepted(env, w, msg) ==>
      match msg
      case Blacklist(from, _) => w.st.blacklister == Some(Named(from))
      case Unblacklist(from, _) => w.st.blacklister == Some(Named(from))
      case ConfigureMinterController(from, _, _) => w.st.masterMinter == Some(Named(from))
      case RemoveMinterController(from, _) => w.st.masterMinter == Some(Named(from))
      case ConfigureMinter(from, x, _) => Map(w.st.controllers, from) == Some(MinterController(x, from))
      case RemoveMinter(from, x) => Map(w.st.controllers, from) == Some(MinterController(x, from)) && x in w.st.minters
      case Mint(from, _, amount) => from in w.st.minters && 0 < amount.amount <= w.st.minters[from].allowance.amount
      case Burn(from, _) => from in w.st.minters
      case _ => true
  {
    hide ValidatePrivileges, MintTo, BurnFrom, Storable;
  }

  function Map<E>(m: map<Str, E>, a: Str): Option<E> {
    if a in m then Some(m[a]) else None
  }

  // ----- allowances

  /** Allowances are never negative and are counted in the minting denom. */
  ghost predicate AllowancesOk(st: State) {
    forall a :: a in st.minters ==>
      st.minters[a].allowance.amount >= 0 && Holds(st.mintingDenom, st.minters[a].allowance.denom)
  }

  ghost predicate Inv(st: State) {
    Keyed(st) && AllowancesOk(st)
  }

  lemma StepKeepsInv(env: Env, w: World, msg: Msg)
    requires Inv(w.st)
    ensures Inv(Step(env, w, msg).st)
    ensures Step(env, w, msg).st.mintingDenom == w.st.mintingDenom
  {
    hide ValidatePrivileges, Storable, MintTo, BurnFrom;
  }

  /** In every reachable state allowances are non-negative and in the minting denom, which never
      changes, and every record sits under its own key. */
  lemma {:induction false} RunKeepsInv(env: Env, w: World, msgs: seq<Msg>)
    requires Inv(w.st)
    ensures Inv(Run(env, w, msgs).st)
    ensures Run(env, w, msgs).st.mintingDenom == w.st.mintingDenom
    decreases |msgs|
  {
    hide Step, Inv;
    if msgs != [] {
      StepKeepsInv(env, w, msgs[0]);
      RunKeepsInv(env, Step(env, w, msgs[0]), msgs[1..]);
    }
  }

  /** What a minter was last granted, and what it has minted since. */
  datatype Grant = Grant(granted: int, minted: int)

  function Track(env: Env, w: World, msg: Msg, a: Str, t: Grant): Grant {
    if !Accepted(env, w, msg) then t
    else if msg.ConfigureMinter? && msg.address == a then Grant(msg.allowance.amount, 0)
    else if msg.Mint? && msg.from == a then t.(minted := t.minted + msg.amount.amount)
    else t
  }

  function TrackAll(env: Env, w: World, msgs: seq<Msg>, a: Str, t: Grant): Grant
    decreases |msgs|
  {
    if msgs == [] then t
    else TrackAll(env, Step(env, w, msgs[0]), msgs[1..], a, Track(env, w, msgs[0], a, t))
  }

  /** The account balances: what is left plus what was minted is what was granted. */
  ghost predicate Balanced(st: State, a: Str, t: Grant) {
    a in st.minters ==> 0 <= t.minted && st.minters[a].allowance.amount + t.minted == t.granted
  }

  lemma StepBalances(env: Env, w: World, msg: Msg, a: Str, t: Grant)
    requires Inv(w.st) && Balanced(w.st, a, t)
    ensures Balanced(Step(env, w, msg).st, a, Track(env, w, msg, a, t))
  {
    hide ValidatePrivileges, Storable, MintTo, BurnFrom;
  }

  /** Over every run, a minter's allowance plus what it minted since its last ConfigureMinter is
      what was configured; so it never mints more than that. */
  lemma {:induction false} AllowanceAccounting(env: Env, w: World, msgs: seq<Msg>, a: Str, t: Grant)
    requires Inv(w.st) && Balanced(w.st, a, t)
    ensures Balanced(Run(env, w, msgs).st, a, TrackAll(env, w, msgs, a, t))
    ensures a in Run(env, w, msgs).st.minters ==>
              TrackAll(env, w, msgs, a, t).minted <= TrackAll(env, w, msgs, a, t).granted
    decreases |msgs|
  {
    hide Step, Track;
    if msgs != [] {
      StepBalances(env, w, msgs[0], a, t);
      StepKeepsInv(env, w, msgs[0]);
      AllowanceAccounting(env, Step(env, w, msgs[0]), msgs[1..], a, Track(env, w, msgs[0], a, t));
    }
  }

  // ----- all minters together

  ghost function SumAllowances(m: map<Str, Minters>): int
    decreases |m|
  {
    if m == map[] then 0
    else
      var a :| a in m;
      m[a].allowance.amount + SumAllowances(m - {a})
  }

  lemma {:induction false} SumWithout(m: map<Str, Minters>, a: Str)
    requires a in m
    ensures SumAllowances(m) == m[a].allowance.amount + SumAllowances(m - {a})
    decreases |m|
  {
    var b :| b in m && SumAllowances(m) == m[b].allowance.amount + SumAllowances(m - {b});
    if b != a {
      SumWithout(m - {b}, a);
      SumWithout(m - {a}, b);
      assert m - {b} - {a} == m - {a} - {b};
    }
  }

  lemma SumUpdate(m: map<Str, Minters>, a: Str, r: Minters)
    ensures SumAllowances(m[a := r])
         == SumAllowances(m) + r.allowance.amount - (if a in m then m[a].allowance.amount else 0)
  {
    SumWithout(m[a := r], a);
    if a in m {
      SumWithout(m, a);
      assert m[a := r] - {a} == m - {a};
    } else {
      assert m[a := r] - {a} == m;
    }
  }

  function GrantedBy(env: Env, w: World, msg: Msg): int {
    if msg.ConfigureMinter? && Accepted(env, w, msg) then msg.allowance.amount else 0
  }

  function TotalGranted(env: Env, w: World, msgs: seq<Msg>): int
    decreases |msgs|
  {
    if msgs == [] then 0
    else GrantedBy(env, w, msgs[0]) + TotalGranted(env, Step(env, w, msgs[0]), msgs[1..])
  }

  lemma StepBudget(env: Env, w: World, msg: Msg, denom: Str)
    requires Inv(w.st)
    ensures SumAllowances(Step(env, w, msg).st.minters) + MintedBy(env, w, msg, denom)
         <= SumAllowances(w.st.minters) + GrantedBy(env, w, msg)
  {
    hide ValidatePrivileges, Storable, MintTo, BurnFrom, SumAllowances;
    if Accepted(env, w, msg) {
      match msg
      case Mint(from, address, amount) => SumUpdate(w.st.minters, from, Lowered(w.st.minters[from], amount));
      case ConfigureMinter(from, address, allowance) => SumUpdate(w.st.minters, address, Minters(address, allowance));
      case RemoveMinter(from, address) => SumWithout(w.st.minters, address);
      case _ =>
    }
  }

  lemma {:induction false} SumNonNegative(st: State, m: map<Str, Minters>)
    requires AllowancesOk(st) && forall a :: a in m ==> a in st.minters && m[a] == st.minters[a]
    ensures SumAllowances(m) >= 0
    decreases |m|
  {
    if m != map[] {
      var a :| a in m && SumAllowances(m) == m[a].allowance.amount + SumAllowances(m - {a});
      SumNonNegative(st, m - {a});
    }
  }

  /** Everything ever minted stays within the initial allowances plus everything granted since. */
  lemma {:induction false} MintedWithinGranted(env: Env, w: World, msgs: seq<Msg>, denom: Str)
    requires Inv(w.st)
    ensures SumAllowances(Run(env, w, msgs).st.minters) + TotalMinted(env, w, msgs, denom)
         <= SumAllowances(w.st.minters) + TotalGranted(env, w, msgs)
    ensures TotalMinted(env, w, msgs, denom) <= SumAllowances(w.st.minters) + TotalGranted(env, w, msgs)
    decreases |msgs|
  {
    hide Step, MintedBy, GrantedBy, SumAllowances;
    if msgs != [] {
      var w' := Step(env, w, msgs[0]);
      StepBudget(env, w, msgs[0], denom);
      StepKeepsInv(env, w, msgs[0]);
      MintedWithinGranted(env, w', msgs[1..], denom);
    } else {
      SumNonNegative(w.st, w.st.minters);
    }
  }

  // ----- separation of roles

  /** The address as the chain prints it: the form in which genesis validation compares addresses.
      Different printed forms are different accounts. */
  function Printed(env: Env, address: Str): Option<Str> {
    match env.addr.acc(address)
    case None => None
    case Some(acc) => Some(env.addr.text(acc))
  }

  /** The role belongs to the account that this address, in whatever spelling, names. */
  predicate HeldBy(env: Env, role: Option<Named>, address: Str) {
    role.Some? && Printed(env, role.value.text).Some? && Printed(env, role.value.text) == Printed(env, address)
  }

  predicate Apart(env: Env, a: Option<Named>, b: Option<Named>) {
    b.Some? ==> !HeldBy(env, a, b.value.text)
  }

  /** Blacklister, master minter and pauser are different accounts. */
  predicate ThreeApart(env: Env, st: State) {
    && Apart(env, st.blacklister, st.masterMinter) && Apart(env, st.blacklister, st.pauser)
    && Apart(env, st.masterMinter, st.pauser)
  }

  /** And none of them is the owner. */
  predicate FourApart(env: Env, st: State) {
    && ThreeApart(env, st)
    && Apart(env, st.owner, st.blacklister) && Apart(env, st.owner, st.masterMinter) && Apart(env, st.owner, st.pauser)
  }

  /** And the pending owner is someone else again. */
  predicate FiveApart(env: Env, st: State) {
    && FourApart(env, st)
    && Apart(env, st.pendingOwner, st.blacklister) && Apart(env, st.pendingOwner, st.masterMinter)
    && Apart(env, st.pendingOwner, st.pauser) && Apart(env, st.pendingOwner, st.owner)
  }

  predicate IsRoleUpdate(msg: Msg) {
    msg.UpdateOwner? || msg.UpdateMasterMinter? || msg.UpdatePauser? || msg.UpdateBlacklister?
  }

  /** What the four role updates check before they write. */
  predicate PassesGuards(env: Env, st: State, msg: Msg)
    requires IsRoleUpdate(msg)
  {
    && env.addr.acc(msg.from).Some? && Holds(st.owner, msg.from)
    && ValidatePrivileges(env, st, msg.address) && Storable(env.coin, NamedV(Named(msg.address)))
  }

  /** The address names the account of an assigned role that is stored in another spelling than the
      printed one: the privilege check compares the printed form with the stored text and misses it. */
  predicate Missed(env: Env, role: Option<Named>, address: Str) {
    HeldBy(env, role, address) && Printed(env, address) != Some(role.value.text)
  }

  /** A role update that passes its guards and gives one of three roles to the holder of another. */
  predicate DoublesOfThree(env: Env, st: State, msg: Msg) {
    && IsRoleUpdate(msg) && PassesGuards(env, st, msg)
    && match msg
       case UpdateMasterMinter(_, a) => Missed(env, st.blacklister, a) || Missed(env, st.pauser, a)
       case UpdatePauser(_, a) => Missed(env, st.blacklister, a) || Missed(env, st.masterMinter, a)
       case UpdateBlacklister(_, a) => Missed(env, st.masterMinter, a) || Missed(env, st.pauser, a)
       case _ => false
  }

  /** The same for all five roles; with the pending owner the guards do not compare at all. */
  predicate DoublesOfFive(env: Env, st: State, msg: Msg) {
    || DoublesOfThree(env, st, msg)
    || (IsRoleUpdate(msg) && PassesGuards(env, st, msg)
        && if msg.UpdateOwner? then
             || Missed(env, st.owner, msg.address) || Missed(env, st.blacklister, msg.address)
             || Missed(env, st.masterMinter, msg.address) || Missed(env, st.pauser, msg.address)
           else
             Missed(env, st.owner, msg.address) || HeldBy(env, st.pendingOwner, msg.address))
  }

  /** One message keeps blacklister, master minter and pauser apart exactly when it is not such an update. */
  lemma StepKeepsThreeApart(env: Env, w: World, msg: Msg)
    requires ThreeApart(env, w.st)
    ensures ThreeApart(env, Step(env, w, msg).st) <==> !DoublesOfThree(env, w.st, msg)
  {
    hide Storable, MintTo, BurnFrom;
  }

  /** And likewise all five roles. */
  lemma StepKeepsFiveApart(env: Env, w: World, msg: Msg)
    requires FiveApart(env, w.st)
    ensures FiveApart(env, Step(env, w, msg).st) <==> !DoublesOfFive(env, w.st, msg)
  {
    hide Storable, MintTo, BurnFrom;
  }

  /** The roles are apart in every state of the run. */
  predicate AlwaysThreeApart(env: Env, w: World, msgs: seq<Msg>)
    decreases |msgs|
  {
    ThreeApart(env, w.st) && (msgs == [] || AlwaysThreeApart(env, Step(env, w, msgs[0]), msgs[1..]))
  }

  predicate AlwaysFiveApart(env: Env, w: World, msgs: seq<Msg>)
    decreases |msgs|
  {
    FiveApart(env, w.st) && (msgs == [] || AlwaysFiveApart(env, Step(env, w, msgs[0]), msgs[1..]))
  }

  predicate NeverDoublesOfThree(env: Env, w: World, msgs: seq<Msg>)
    decreases |msgs|
  {
    msgs == [] || (!DoublesOfThree(env, w.st, msgs[0]) && NeverDoublesOfThree(env, Step(env, w, msgs[0]), msgs[1..]))
  }

  predicate NeverDoublesOfFive(env: Env, w: World, msgs: seq<Msg>)
    decreases |msgs|
  {
    msgs == [] || (!DoublesOfFive(env, w.st, msgs[0]) && NeverDoublesOfFive(env, Step(env, w, msgs[0]), msgs[1..]))
  }

  /** Over every run, blacklister, master minter and pauser stay different accounts exactly when no
      role update that passes its guards names the holder of another of them, stored unprinted. */
  lemma {:induction false} ThreeApartExactly(env: Env, w: World, msgs: seq<Msg>)
    requires ThreeApart(env, w.st)
    ensures AlwaysThreeApart(env, w, msgs) <==> NeverDoublesOfThree(env, w, msgs)
    decreases |msgs|
  {
    hide Step, ThreeApart, DoublesOfThree;
    if msgs != [] {
      var w' := Step(env, w, msgs[0]);
      StepKeepsThreeApart(env, w, msgs[0]);
      if ThreeApart(env, w'.st) {
        ThreeApartExactly(env, w', msgs[1..]);
      } else {
        assert !AlwaysThreeApart(env, w', msgs[1..]);
      }
    }
  }

  /** Over every run, all five roles stay with different accounts exactly when no role update that
      passes its guards names the holder of another role, stored unprinted, or the pending owner. */
  lemma {:induction false} FiveApartExactly(env: Env, w: World, msgs: seq<Msg>)
    requires FiveApart(env, w.st)
    ensures AlwaysFiveApart(env, w, msgs) <==> NeverDoublesOfFive(env, w, msgs)
    decreases |msgs|
  {
    hide Step, FiveApart, DoublesOfFive;
    if msgs != [] {
      var w' := Step(env, w, msgs[0]);
      StepKeepsFiveApart(env, w, msgs[0]);
      if FiveApart(env, w'.st) {
        FiveApartExactly(env, w', msgs[1..]);
      } else {
        assert !AlwaysFiveApart(env, w', msgs[1..]);
      }
    }
  }

  // ----- where every role is stored as the chain prints it

  predicate Canonical(env: Env, address: Str) {
    Printed(env, address) == Some(address)
  }

  predicate CanonicalRole(env: Env, role: Option<Named>) {
    role.Some? ==> Canonical(env, role.value.text)
  }

  predicate RolesCanonical(env: Env, st: State) {
    && CanonicalRole(env, st.owner) && CanonicalRole(env, st.pendingOwner) && CanonicalRole(env, st.blacklister)
    && CanonicalRole(env, st.masterMinter) && CanonicalRole(env, st.pauser)
  }

  /** The role updates of the run that pass their guards name addresses as the chain prints them. */
  predicate AssignsCanonical(env: Env, w: World, msgs: seq<Msg>)
    decreases |msgs|
  {
    msgs == []
    || ((IsRoleUpdate(msgs[0]) && PassesGuards(env, w.st, msgs[0]) ==> Canonical(env, msgs[0].address))
        && AssignsCanonical(env, Step(env, w, msgs[0]), msgs[1..]))
  }

  /** A role update other than UpdateOwner that passes its guards and names the pending owner. */
  predicate NamesPending(env: Env, st: State, msg: Msg) {
    IsRoleUpdate(msg) && !msg.UpdateOwner? && PassesGuards(env, st, msg) && Holds(st.pendingOwner, msg.address)
  }

  predicate NeverNamesPending(env: Env, w: World, msgs: seq<Msg>)
    decreases |msgs|
  {
    msgs == [] || (!NamesPending(env, w.st, msgs[0]) && NeverNamesPending(env, Step(env, w, msgs[0]), msgs[1..]))
  }

  lemma CanonicalStep(env: Env, w: World, msg: Msg)
    requires RolesCanonical(env, w.st)
    requires IsRoleUpdate(msg) && PassesGuards(env, w.st, msg) ==> Canonical(env, msg.address)
    ensures RolesCanonical(env, Step(env, w, msg).st)
    ensures !DoublesOfThree(env, w.st, msg)
    ensures DoublesOfFive(env, w.st, msg) <==> NamesPending(env, w.st, msg)
  {
    hide Storable, MintTo, BurnFrom;
  }

  /** There the three roles never meet, and of the condition for five only the pending owner remains. */
  lemma {:induction false} CanonicalRuns(env: Env, w: World, msgs: seq<Msg>)
    requires RolesCanonical(env, w.st) && AssignsCanonical(env, w, msgs)
    ensures ThreeApart(env, w.st) ==> AlwaysThreeApart(env, w, msgs)
    ensures FiveApart(env, w.st) ==> (AlwaysFiveApart(env, w, msgs) <==> NeverNamesPending(env, w, msgs))
    decreases |msgs|
  {
    hide Step, RolesCanonical, ThreeApart, FiveApart, DoublesOfThree, DoublesOfFive, NamesPending, PassesGuards, Canonical;
    if msgs != [] {
      var w' := Step(env, w, msgs[0]);
      CanonicalStep(env, w, msgs[0]);
      CanonicalRuns(env, w', msgs[1..]);
      if ThreeApart(env, w.st) {
        StepKeepsThreeApart(env, w, msgs[0]);
      }
      if FiveApart(env, w.st) {
        StepKeepsFiveApart(env, w, msgs[0]);
        assert !FiveApart(env, w'.st) ==> !AlwaysFiveApart(env, w', msgs[1..]);
      }
    }
  }

  // ----- the two ways to a second role

  /** The owner offers ownership to p, makes p the pauser, and p accepts. */
  lemma OwnerMayBecomePauser(env: Env, w: World, o: Str, p: Str)
    requires Canonical(env, o) && Canonical(env, p) && o != p
    requires w.st == EMPTY_STATE.(owner := Some(Named(o)))
    requires Storable(env.coin, NamedV(Named(p)))
    ensures var st := Run(env, w, [UpdateOwner(o, p), UpdatePauser(o, p), AcceptOwner(p)]).st;
            st.owner == st.pauser == Some(Named(p)) && !FourApart(env, st)
  {
    hide Storable;
    var msgs := [UpdateOwner(o, p), UpdatePauser(o, p), AcceptOwner(p)];
    var w1 := Step(env, w, msgs[0]);
    assert w1.st == w.st.(pendingOwner := Some(Named(p)));
    var w2 := Step(env, w1, msgs[1]);
    assert w2.st == w1.st.(pauser := Some(Named(p)));
    var w3 := Step(env, w2, msgs[2]);
    assert w3.st == w2.st.(owner := Some(Named(p)), pendingOwner := None);
    assert msgs[1..] == [UpdatePauser(o, p), AcceptOwner(p)] && msgs[2..] == [AcceptOwner(p)] && msgs[3..] == [];
    RunThree(env, w, msgs);
  }

  /** The owner makes x the pauser and then the blacklister, x being an address that parses and is not
      what the chain prints for its account: its upper-case form, say. */
  lemma PauserMayBecomeBlacklister(env: Env, w: World, o: Str, x: Str)
    requires env.addr.acc(o).Some? && Printed(env, x).Some? && !Canonical(env, x) && Printed(env, x) != Some(o)
    requires w.st == EMPTY_STATE.(owner := Some(Named(o)))
    requires Storable(env.coin, NamedV(Named(x)))
    ensures var st := Run(env, w, [UpdatePauser(o, x), UpdateBlacklister(o, x)]).st;
            st.pauser == st.blacklister == Some(Named(x)) && st.pendingOwner.None? && !ThreeApart(env, st)
  {
    hide Storable;
    var msgs := [UpdatePauser(o, x), UpdateBlacklister(o, x)];
    var w1 := Step(env, w, msgs[0]);
    assert w1.st == w.st.(pauser := Some(Named(x)));
    var w2 := Step(env, w1, msgs[1]);
    assert w2.st == w1.st.(blacklister := Some(Named(x)));
    RunTwo(env, w, msgs[0], msgs[1]);
  }

  lemma RunTwo(env: Env, w: World, first: Msg, second: Msg)
    ensures Run(env, w, [first, second]) == Step(env, Step(env, w, first), second)
  {
    hide Step;
    var w1 := Step(env, w, first);
    assert [first, second][1..] == [second] && [second][1..] == [];
    assert Run(env, w1, [second]) == Run(env, Step(env, w1, second), []);
  }

  lemma RunThree(env: Env, w: World, msgs: seq<Msg>)
    requires |msgs| == 3
    ensures Run(env, w, msgs) == Step(env, Step(env, Step(env, w, msgs[0]), msgs[1]), msgs[2])
  {
    hide Step;
    var w1 := Step(env, w, msgs[0]);
    var w2 := Step(env, w1, msgs[1]);
    assert Run(env, w1, msgs[1..]) == Run(env, w2, msgs[1..][1..]);
    assert Run(env, w2, msgs[2..]) == Run(env, Step(env, w2, msgs[2]), msgs[2..][1..]);
    assert msgs[1..][1..] == msgs[2..];
  }
}
