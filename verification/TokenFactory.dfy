/** What each tokenfactory message does to the typed record and the bank: the handlers of
    x/tokenfactory/keeper/msg_server_*.go, one function each. A handler that returns an error or
    panics yields Err; the transaction is then rolled back. */
module TokenFactory {
  import opened Bytes
  import opened Messages
  import opened Store
  import opened Bank

  /** bech32: `decode` accepts any human-readable part, `acc` the chain's own, and `text` prints. */
  datatype Addresses = Addresses(decode: Str -> Option<Str>, acc: Str -> Option<Str>, text: Str -> Str)

  /** What the module gets from the SDK: addresses, valid denoms, denoms with bank metadata, blocked
      recipients, the address of its own module account, and the codec of coins. */
  datatype Env = Env(
    addr: Addresses,
    validDenom: Str -> bool,
    registered: Str -> bool,
    blocked: Str -> bool,
    module': Str,
    coin: Codec<Coin>)

  datatype World = World(st: State, bank: Bank)

  datatype Msg =
    | UpdateOwner(from: Str, address: Str)
    | AcceptOwner(from: Str)
    | UpdateMasterMinter(from: Str, address: Str)
    | UpdatePauser(from: Str, address: Str)
    | UpdateBlacklister(from: Str, address: Str)
    | ConfigureMinterController(from: Str, controller: Str, minter: Str)
    | RemoveMinterController(from: Str, controller: Str)
    | ConfigureMinter(from: Str, address: Str, allowance: Coin)
    | RemoveMinter(from: Str, address: Str)
    | Mint(from: Str, address: Str, amount: Coin)
    | Burn(from: Str, amount: Coin)
    | Blacklist(from: Str, address: Str)
    | Unblacklist(from: Str, address: Str)
    | Pause(from: Str)
    | Unpause(from: Str)

  /** `ValidateBasic`. */
  predicate ValidateBasic(env: Env, msg: Msg) {
    && env.addr.acc(msg.from).Some?
    && match msg
       case UpdateOwner(_, a) => env.addr.acc(a).Some?
       case UpdateMasterMinter(_, a) => env.addr.acc(a).Some?
       case UpdatePauser(_, a) => env.addr.acc(a).Some?
       case UpdateBlacklister(_, a) => env.addr.acc(a).Some?
       case ConfigureMinterController(_, c, m) => env.addr.acc(c).Some? && env.addr.acc(m).Some?
       case RemoveMinterController(_, c) => env.addr.acc(c).Some?
       case ConfigureMinter(_, a, allowance) => env.addr.acc(a).Some? && allowance.amount >= 0
       case RemoveMinter(_, a) => env.addr.acc(a).Some?
       case Mint(_, a, amount) => env.addr.acc(a).Some? && amount.amount > 0
       case Burn(_, amount) => amount.amount > 0
       case Blacklist(_, a) => |a| > 0
       case Unblacklist(_, a) => |a| > 0
       case _ => true
  }

  predicate Holds(role: Option<Named>, address: Str) {
    role.Some? && role.value.text == address
  }

  /** `ValidatePrivileges`: the address parses, and its canonical text is in none of four roles. */
  predicate ValidatePrivileges(env: Env, st: State, address: Str) {
    match env.addr.acc(address)
    case None => false
    case Some(acc) =>
      var text := env.addr.text(acc);
      && !Holds(st.owner, text)
      && !Holds(st.blacklister, text)
      && !Holds(st.masterMinter, text)
      && !Holds(st.pauser, text)
  }

  /** Writing a record too large for a Go slice panics. */
  function Stored(env: Env, v: Value, w: World): Result<World> {
    if Storable(env.coin, v) then Ok(w) else Err
  }

  function DoUpdateOwner(env: Env, w: World, from: Str, address: Str): Result<World> {
    if !Holds(w.st.owner, from) || !ValidatePrivileges(env, w.st, address) then Err
    else Stored(env, NamedV(Named(address)), w.(st := w.st.(pendingOwner := Some(Named(address)))))
  }

  function DoAcceptOwner(env: Env, w: World, from: Str): Result<World> {
    if !Holds(w.st.pendingOwner, from) then Err
    else Stored(env, NamedV(w.st.pendingOwner.value), w.(st := w.st.(owner := w.st.pendingOwner, pendingOwner := None)))
  }

  function DoUpdateMasterMinter(env: Env, w: World, from: Str, address: Str): Result<World> {
    if !Holds(w.st.owner, from) || !ValidatePrivileges(env, w.st, address) then Err
    else Stored(env, NamedV(Named(address)), w.(st := w.st.(masterMinter := Some(Named(address)))))
  }

  function DoUpdatePauser(env: Env, w: World, from: Str, address: Str): Result<World> {
    if !Holds(w.st.owner, from) || !ValidatePrivileges(env, w.st, address) then Err
    else Stored(env, NamedV(Named(address)), w.(st := w.st.(pauser := Some(Named(address)))))
  }

  function DoUpdateBlacklister(env: Env, w: World, from: Str, address: Str): Result<World> {
    if !Holds(w.st.owner, from) || !ValidatePrivileges(env, w.st, address) then Err
    else Stored(env, NamedV(Named(address)), w.(st := w.st.(blacklister := Some(Named(address)))))
  }

  function DoConfigureMinterController(env: Env, w: World, from: Str, controller: Str, minter: Str): Result<World> {
    if !Holds(w.st.masterMinter, from) then Err
    else
      var record := MinterController(minter, controller);
      Stored(env, ControllerV(record), w.(st := w.st.(controllers := w.st.controllers[controller := record])))
  }

  function DoRemoveMinterController(w: World, from: Str, controller: Str): Result<World> {
    if !Holds(w.st.masterMinter, from) || controller !in w.st.controllers then Err
    else Ok(w.(st := w.st.(controllers := w.st.controllers - {controller})))
  }

  /** The sender controls this minter. */
  predicate Controls(st: State, from: Str, minter: Str) {
    && from in st.controllers
    && st.controllers[from].controller == from
    && st.controllers[from].minter == minter
  }

  function DoConfigureMinter(env: Env, w: World, from: Str, address: Str, allowance: Coin): Result<World> {
    if !Holds(w.st.mintingDenom, allowance.denom) || !Controls(w.st, from, address) then Err
    else
      var record := Minters(address, allowance);
      Stored(env, MintersV(record), w.(st := w.st.(minters := w.st.minters[address := record])))
  }

  function DoRemoveMinter(w: World, from: Str, address: Str): Result<World> {
    if !Controls(w.st, from, address) || address !in w.st.minters then Err
    else Ok(w.(st := w.st.(minters := w.st.minters - {w.st.minters[address].address})))
  }

  predicate IsBlacklisted(st: State, bz: Option<Str>) {
    bz.Some? && bz.value in st.blacklisted
  }

  /** Every check of `Mint` before it writes; a coin of another denom in the allowance panics. */
  predicate MayMint(env: Env, st: State, from: Str, address: Str, amount: Coin) {
    && from in st.minters
    && env.addr.decode(from).Some? && !IsBlacklisted(st, env.addr.decode(from))
    && env.addr.decode(address).Some? && !IsBlacklisted(st, env.addr.decode(address))
    && Holds(st.mintingDenom, amount.denom)
    && st.minters[from].allowance.denom == amount.denom
    && st.minters[from].allowance.amount >= amount.amount
    && st.paused.Some? && !st.paused.value.paused
  }

  /** `receiver, _ := AccAddressFromBech32(address)`: the nil address when it does not parse. */
  function Receiver(env: Env, address: Str): Str {
    match env.addr.acc(address)
    case None => []
    case Some(acc) => acc
  }

  function Lowered(m: Minters, amount: Coin): Minters {
    m.(allowance := Coin(m.allowance.denom, m.allowance.amount - amount.amount))
  }

  function DoMint(env: Env, w: World, from: Str, address: Str, amount: Coin): Result<World> {
    if !MayMint(env, w.st, from, address, amount) then Err
    else
      var record := Lowered(w.st.minters[from], amount);
      match MintTo(env, w.bank, Receiver(env, address), amount)
      case Err => Err
      case Ok(bank) =>
        Stored(env, MintersV(record), World(w.st.(minters := w.st.minters[record.address := record]), bank))
  }

  /** Minting into the module account and sending on to the receiver, unless it is blocked. */
  function MintTo(env: Env, bank: Bank, receiver: Str, amount: Coin): Result<Bank> {
    match NewCoins(env.validDenom, amount)
    case Err => Err
    case Ok(coins) =>
      match MintCoins(bank, env.module', coins)
      case Err => Err
      case Ok(minted) => if env.blocked(receiver) then Err else Send(minted, env.module', receiver, coins)
  }

  predicate MayBurn(env: Env, st: State, from: Str, amount: Coin) {
    && from in st.minters
    && env.addr.decode(from).Some? && !IsBlacklisted(st, env.addr.decode(from))
    && Holds(st.mintingDenom, amount.denom)
    && st.paused.Some? && !st.paused.value.paused
    && env.addr.acc(from).Some?
  }

  function DoBurn(env: Env, w: World, from: Str, amount: Coin): Result<World> {
    if !MayBurn(env, w.st, from, amount) then Err
    else
      match BurnFrom(env, w.bank, env.addr.acc(from).value, amount)
      case Err => Err
      case Ok(bank) => Ok(w.(bank := bank))
  }

  function BurnFrom(env: Env, bank: Bank, burner: Str, amount: Coin): Result<Bank> {
    match NewCoins(env.validDenom, amount)
    case Err => Err
    case Ok(coins) =>
      match Send(bank, burner, env.module', coins)
      case Err => Err
      case Ok(sent) => BurnCoins(sent, env.module', coins)
  }

  function DoBlacklist(env: Env, w: World, from: Str, address: Str): Result<World> {
    var bz := env.addr.decode(address);
    if !Holds(w.st.blacklister, from) || bz.None? || IsBlacklisted(w.st, bz) then Err
    else Stored(env, NamedV(Named(bz.value)),
                w.(st := w.st.(blacklisted := w.st.blacklisted[bz.value := Named(bz.value)])))
  }

  function DoUnblacklist(env: Env, w: World, from: Str, address: Str): Result<World> {
    var bz := env.addr.decode(address);
    if !Holds(w.st.blacklister, from) || !IsBlacklisted(w.st, bz) then Err
    else Ok(w.(st := w.st.(blacklisted := w.st.blacklisted - {w.st.blacklisted[bz.value].text})))
  }

  function DoPause(env: Env, w: World, from: Str, paused: bool): Result<World> {
    if !Holds(w.st.pauser, from) then Err
    else Stored(env, PausedV(Paused(paused)), w.(st := w.st.(paused := Some(Paused(paused)))))
  }

  function Handle(env: Env, w: World, msg: Msg): Result<World> {
    match msg
    case UpdateOwner(from, address) => DoUpdateOwner(env, w, from, address)
    case AcceptOwner(from) => DoAcceptOwner(env, w, from)
    case UpdateMasterMinter(from, address) => DoUpdateMasterMinter(env, w, from, address)
    case UpdatePauser(from, address) => DoUpdatePauser(env, w, from, address)
    case UpdateBlacklister(from, address) => DoUpdateBlacklister(env, w, from, address)
    case ConfigureMinterController(from, controller, minter) => DoConfigureMinterController(env, w, from, controller, minter)
    case RemoveMinterController(from, controller) => DoRemoveMinterController(w, from, controller)
    case ConfigureMinter(from, address, allowance) => DoConfigureMinter(env, w, from, address, allowance)
    case RemoveMinter(from, address) => DoRemoveMinter(w, from, address)
    case Mint(from, address, amount) => DoMint(env, w, from, address, amount)
    case Burn(from, amount) => DoBurn(env, w, from, amount)
    case Blacklist(from, address) => DoBlacklist(env, w, from, address)
    case Unblacklist(from, address) => DoUnblacklist(env, w, from, address)
    case Pause(from) => DoPause(env, w, from, true)
    case Unpause(from) => DoPause(env, w, from, false)
  }

  /** The effect of one message in a transaction: nothing at all unless every check passes. */
  function Deliver(env: Env, w: World, msg: Msg): Result<World> {
    if ValidateBasic(env, msg) then Handle(env, w, msg) else Err
  }

  function Step(env: Env, w: World, msg: Msg): World {
    match Deliver(env, w, msg)
    case Err => w
    case Ok(w') => w'
  }

  function Run(env: Env, w: World, msgs: seq<Msg>): World
    decreases |msgs|
  {
    if msgs == [] then w else Run(env, Step(env, w, msgs[0]), msgs[1..])
  }
}
