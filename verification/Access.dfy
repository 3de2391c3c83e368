/** Exactly when each of the fifteen messages is accepted, as conditions on the message, the record and
    the bank, written out in full: nothing here goes through the checks of the handlers. */
module Access {
  import opened Bytes
  import opened Messages
  import opened Store
  import opened Bank
  import opened Layout
  import opened TokenFactory

  /** The four role updates: the sender is the owner, and the printed form of the new address is not
      the stored text of any assigned role. */
  lemma RoleUpdateAccepted(env: Env, w: World, msg: Msg)
    requires msg.UpdateOwner? || msg.UpdateMasterMinter? || msg.UpdatePauser? || msg.UpdateBlacklister?
    ensures Deliver(env, w, msg).Ok? <==>
      && env.addr.acc(msg.from).Some? && w.st.owner == Some(Named(msg.from))
      && env.addr.acc(msg.address).Some?
      && (var text := Named(env.addr.text(env.addr.acc(msg.address).value));
          && w.st.owner != Some(text) && w.st.blacklister != Some(text)
          && w.st.masterMinter != Some(text) && w.st.pauser != Some(text))
      && Storable(env.coin, NamedV(Named(msg.address)))
  {
    hide Storable;
  }

  /** AcceptOwner by the pending owner, Pause and Unpause by the pauser. */
  lemma OwnMessagesAccepted(env: Env, w: World, from: Str)
    ensures Deliver(env, w, AcceptOwner(from)).Ok? <==>
      env.addr.acc(from).Some? && w.st.pendingOwner == Some(Named(from)) && Storable(env.coin, NamedV(Named(from)))
    ensures Deliver(env, w, Pause(from)).Ok? <==> env.addr.acc(from).Some? && w.st.pauser == Some(Named(from))
    ensures Deliver(env, w, Unpause(from)).Ok? <==> env.addr.acc(from).Some? && w.st.pauser == Some(Named(from))
  {
    PausedStorable(env.coin, true);
    PausedStorable(env.coin, false);
    hide Storable;
  }

  lemma PausedStorable(c: Codec<Coin>, paused: bool)
    ensures Storable(c, PausedV(Paused(paused)))
  {
    PausedLayout(Paused(paused));
    hide PausedPieces;
  }

  /** The master minter files controllers, and removes those that exist. */
  lemma ControllerMessagesAccepted(env: Env, w: World, from: Str, controller: Str, minter: Str)
    ensures Deliver(env, w, ConfigureMinterController(from, controller, minter)).Ok? <==>
      && env.addr.acc(from).Some? && env.addr.acc(controller).Some? && env.addr.acc(minter).Some?
      && w.st.masterMinter == Some(Named(from))
      && Storable(env.coin, ControllerV(MinterController(minter, controller)))
    ensures Deliver(env, w, RemoveMinterController(from, controller)).Ok? <==>
      && env.addr.acc(from).Some? && env.addr.acc(controller).Some?
      && w.st.masterMinter == Some(Named(from)) && controller in w.st.controllers
  {
    hide Storable;
  }

  /** A controller configures and removes the one minter that its own record names, and no other. */
  lemma MinterMessagesAccepted(env: Env, w: World, from: Str, minter: Str, allowance: Coin)
    ensures Deliver(env, w, ConfigureMinter(from, minter, allowance)).Ok? <==>
      && env.addr.acc(from).Some? && env.addr.acc(minter).Some? && allowance.amount >= 0
      && w.st.mintingDenom == Some(Named(allowance.denom))
      && from in w.st.controllers && w.st.controllers[from] == MinterController(minter, from)
      && Storable(env.coin, MintersV(Minters(minter, allowance)))
    ensures Deliver(env, w, RemoveMinter(from, minter)).Ok? <==>
      && env.addr.acc(from).Some? && env.addr.acc(minter).Some?
      && from in w.st.controllers && w.st.controllers[from] == MinterController(minter, from)
      && minter in w.st.minters
  {
    hide Storable;
  }

  /** The blacklister lists addresses of any prefix that are not listed, and unlists those that are. */
  lemma BlacklistMessagesAccepted(env: Env, w: World, from: Str, address: Str)
    ensures Deliver(env, w, Blacklist(from, address)).Ok? <==>
      && env.addr.acc(from).Some? && address != [] && w.st.blacklister == Some(Named(from))
      && env.addr.decode(address).Some? && env.addr.decode(address).value !in w.st.blacklisted
      && Storable(env.coin, NamedV(Named(env.addr.decode(address).value)))
    ensures Deliver(env, w, Unblacklist(from, address)).Ok? <==>
      && env.addr.acc(from).Some? && address != [] && w.st.blacklister == Some(Named(from))
      && env.addr.decode(address).Some? && env.addr.decode(address).value in w.st.blacklisted
  {
    hide Storable;
  }

  /** A minter mints, up to the whole of its allowance, to a receiver that is not blocked; neither of
      the two is blacklisted, and the module is not paused. */
  lemma MintAccepted(env: Env, w: World, from: Str, address: Str, amount: Coin)
    ensures Deliver(env, w, Mint(from, address, amount)).Ok? <==>
      && env.addr.acc(from).Some? && env.addr.acc(address).Some? && amount.amount > 0
      && from in w.st.minters
      && env.addr.decode(from).Some? && env.addr.decode(from).value !in w.st.blacklisted
      && env.addr.decode(address).Some? && env.addr.decode(address).value !in w.st.blacklisted
      && w.st.mintingDenom == Some(Named(amount.denom)) && env.validDenom(amount.denom)
      && w.st.paused == Some(Paused(false))
      && w.st.minters[from].allowance.denom == amount.denom
      && amount.amount <= w.st.minters[from].allowance.amount
      && !env.blocked(env.addr.acc(address).value)
      && Storable(env.coin, MintersV(Minters(w.st.minters[from].address,
                    Coin(amount.denom, w.st.minters[from].allowance.amount - amount.amount))))
  {
    hide Storable;
    if env.addr.acc(address).Some? && amount.amount > 0 && env.validDenom(amount.denom) {
      MintSucceeds(env, w.bank, env.addr.acc(address).value, amount);
    }
    hide MintCoins, Send;
  }

  lemma MintSucceeds(env: Env, b: Bank, receiver: Str, amount: Coin)
    requires amount.amount > 0
    ensures MintCoins(b, env.module', [amount]).Ok?
    ensures Send(MintCoins(b, env.module', [amount]).value, env.module', receiver, [amount]).Ok?
  {
    assert [amount][1..] == [];
  }

  /** A minter burns what its own account holds, within the supply; it is not blacklisted, and the
      module is not paused. */
  lemma BurnAccepted(env: Env, w: World, from: Str, amount: Coin)
    ensures Deliver(env, w, Burn(from, amount)).Ok? <==>
      && env.addr.acc(from).Some? && amount.amount > 0
      && from in w.st.minters
      && env.addr.decode(from).Some? && env.addr.decode(from).value !in w.st.blacklisted
      && w.st.mintingDenom == Some(Named(amount.denom)) && env.validDenom(amount.denom)
      && w.st.paused == Some(Paused(false))
      && amount.amount <= Balance(w.bank, env.addr.acc(from).value, amount.denom)
      && amount.amount <= Supply(w.bank, amount.denom)
  {
    if env.addr.acc(from).Some? && amount.amount > 0 && env.validDenom(amount.denom) {
      BurnSucceeds(env, w.bank, env.addr.acc(from).value, amount);
    }
    hide BurnCoins, Send, Balance, Supply;
  }

  lemma BurnSucceeds(env: Env, b: Bank, burner: Str, amount: Coin)
    requires amount.amount > 0
    ensures Send(b, burner, env.module', [amount]).Ok? <==> amount.amount <= Balance(b, burner, amount.denom)
    ensures Send(b, burner, env.module', [amount]).Ok? ==>
      (BurnCoins(Send(b, burner, env.module', [amount]).value, env.module', [amount]).Ok?
       <==> amount.amount <= Supply(b, amount.denom))
  {
    assert [amount][1..] == [];
  }
}
