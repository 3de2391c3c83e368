/** The fifteen message handlers over the flat store, each proved to do to the record and the bank
    what its TokenFactory function says, and the transaction around them that rolls back a failure. */
module MsgServer {
  import opened Bytes
  import opened Messages
  import opened Store
  import opened Bank
  import opened TokenFactory
  import opened Keeper

  class MsgServer {
    const k: Keeper

    constructor (k: Keeper)
      ensures this.k == k
    {
      this.k := k;
    }

    /** The handler `ok`s exactly when its function does, and then yields the same world. */
    ghost predicate Did(ok: bool, r: Result<World>)
      reads k
    {
      && (ok <==> r.Ok?)
      && (ok ==> k.Valid() && k.World() == r.value)
    }

    /** Reads the four role cells. */
    method ValidatePrivileges(address: Str) returns (ok: bool)
      requires k.Valid()
      ensures ok == TokenFactory.ValidatePrivileges(k.env, k.st, address)
    {
      var acc := k.env.addr.acc(address);
      if acc.None? {
        return false;
      }
      var text := k.env.addr.text(acc.value);
      var owner, ownerFound := k.GetNamed(OwnerS);
      if ownerFound && owner.text == text {
        return false;
      }
      var blacklister, blacklisterFound := k.GetNamed(BlacklisterS);
      if blacklisterFound && blacklister.text == text {
        return false;
      }
      var masterMinter, masterMinterFound := k.GetNamed(MasterMinterS);
      if masterMinterFound && masterMinter.text == text {
        return false;
      }
      var pauser, pauserFound := k.GetNamed(PauserS);
      if pauserFound && pauser.text == text {
        return false;
      }
      return true;
    }

    /** The start of UpdateOwner, UpdateMasterMinter, UpdatePauser and UpdateBlacklister. */
    method OwnerMayAssign(from: Str, address: Str) returns (ok: bool)
      requires k.Valid()
      ensures ok <==> Holds(k.st.owner, from) && TokenFactory.ValidatePrivileges(k.env, k.st, address)
    {
      var owner, found := k.GetNamed(OwnerS);
      if !found {
        return false;
      }
      if owner.text != from {
        return false;
      }
      ok := ValidatePrivileges(address);
    }

    method UpdateOwner(from: Str, address: Str) returns (ok: bool)
      requires k.Valid()
      modifies k
      ensures Did(ok, DoUpdateOwner(k.env, old(k.World()), from, address))
    {
      ok := OwnerMayAssign(from, address);
      if ok {
        ok := k.SetNamed(PendingOwnerS, Named(address));
      }
    }

    method AcceptOwner(from: Str) returns (ok: bool)
      requires k.Valid()
      modifies k
      ensures Did(ok, DoAcceptOwner(k.env, old(k.World()), from))
    {
      var owner, found := k.GetNamed(PendingOwnerS);
      if !found {
        return false;
      }
      if owner.text != from {
        return false;
      }
      ok := k.SetNamed(OwnerS, owner);
      if ok {
        k.DeletePendingOwner();
      }
    }

    method UpdateMasterMinter(from: Str, address: Str) returns (ok: bool)
      requires k.Valid()
      modifies k
      ensures Did(ok, DoUpdateMasterMinter(k.env, old(k.World()), from, address))
    {
      ok := OwnerMayAssign(from, address);
      if ok {
        ok := k.SetNamed(MasterMinterS, Named(address));
      }
    }

    method UpdatePauser(from: Str, address: Str) returns (ok: bool)
      requires k.Valid()
      modifies k
      ensures Did(ok, DoUpdatePauser(k.env, old(k.World()), from, address))
    {
      ok := OwnerMayAssign(from, address);
      if ok {
        ok := k.SetNamed(PauserS, Named(address));
      }
    }

    method UpdateBlacklister(from: Str, address: Str) returns (ok: bool)
      requires k.Valid()
      modifies k
      ensures Did(ok, DoUpdateBlacklister(k.env, old(k.World()), from, address))
    {
      ok := OwnerMayAssign(from, address);
      if ok {
        ok := k.SetNamed(BlacklisterS, Named(address));
      }
    }

    method ConfigureMinterController(from: Str, controller: Str, minter: Str) returns (ok: bool)
      requires k.Valid()
      modifies k
      ensures Did(ok, DoConfigureMinterController(k.env, old(k.World()), from, controller, minter))
    {
      var masterMinter, found := k.GetNamed(MasterMinterS);
      if !found {
        return false;
      }
      if masterMinter.text != from {
        return false;
      }
      ok := k.SetMinterController(MinterController(minter, controller));
    }

    method RemoveMinterController(from: Str, controller: Str) returns (ok: bool)
      requires k.Valid()
      modifies k
      ensures Did(ok, DoRemoveMinterController(old(k.World()), from, controller))
    {
      var masterMinter, found := k.GetNamed(MasterMinterS);
      if !found {
        return false;
      }
      if from != masterMinter.text {
        return false;
      }
      var _, controllerFound := k.GetMinterController(controller);
      if !controllerFound {
        return false;
      }
      k.DeleteMinterController(controller);
      return true;
    }

    /** The check shared by ConfigureMinter and RemoveMinter. */
    method MayConfigure(from: Str, address: Str) returns (ok: bool)
      requires k.Valid()
      ensures ok == Controls(k.st, from, address)
    {
      var minterController, found := k.GetMinterController(from);
      if !found {
        return false;
      }
      if from != minterController.controller {
        return false;
      }
      return address == minterController.minter;
    }

    method ConfigureMinter(from: Str, address: Str, allowance: Coin) returns (ok: bool)
      requires k.Valid()
      modifies k
      ensures Did(ok, DoConfigureMinter(k.env, old(k.World()), from, address, allowance))
    {
      var mintingDenom, set' := k.GetNamed(MintingDenomS);
      if !set' {
        return false;
      }
      if allowance.denom != mintingDenom.text {
        return false;
      }
      ok := MayConfigure(from, address);
      if ok {
        ok := k.SetMinters(Minters(address, allowance));
      }
    }

    method RemoveMinter(from: Str, address: Str) returns (ok: bool)
      requires k.Valid()
      modifies k
      ensures Did(ok, DoRemoveMinter(old(k.World()), from, address))
    {
      ok := MayConfigure(from, address);
      if !ok {
        return;
      }
      var minter, found := k.GetMinters(address);
      if !found {
        return false;
      }
      k.RemoveMinters(minter.address);
      return true;
    }

    /** `bech32.DecodeAndConvert`, then the lookup in the blacklist. */
    method DecodedAndFree(address: Str) returns (ok: bool)
      requires k.Valid()
      ensures ok <==> k.env.addr.decode(address).Some? && !IsBlacklisted(k.st, k.env.addr.decode(address))
    {
      var bz := k.env.addr.decode(address);
      if bz.None? {
        return false;
      }
      var _, found := k.GetBlacklisted(bz.value);
      return !found;
    }

    /** The minting denom and the pause flag; either being unset panics. */
    method DenomAndUnpaused(denom: Str) returns (ok: bool)
      requires k.Valid()
      ensures ok <==> Holds(k.st.mintingDenom, denom) && k.st.paused.Some? && !k.st.paused.value.paused
    {
      var mintingDenom, set' := k.GetNamed(MintingDenomS);
      if !set' {
        return false;
      }
      if denom != mintingDenom.text {
        return false;
      }
      var paused, ok' := k.GetPaused();
      if !ok' {
        return false;
      }
      return !paused.paused;
    }

    method Mint(from: Str, address: Str, amount: Coin) returns (ok: bool)
      requires k.Valid()
      modifies k
      ensures Did(ok, DoMint(k.env, old(k.World()), from, address, amount))
    {
      var minter, found := k.GetMinters(from);
      if !found {
        return false;
      }
      ok := DecodedAndFree(from);
      if !ok {
        return;
      }
      ok := DecodedAndFree(address);
      if !ok {
        return;
      }
      ok := DenomAndUnpaused(amount.denom);
      if !ok {
        return;
      }
      if minter.allowance.denom != amount.denom || minter.allowance.amount < amount.amount {
        return false;
      }
      ok := k.SetMinters(Lowered(minter, amount));
      if !ok {
        return;
      }
      var coins := NewCoins(k.env.validDenom, amount);
      if coins.Err? {
        return false;
      }
      var minted := MintCoins(k.bank, k.env.module', coins.value);
      if minted.Err? {
        return false;
      }
      var receiver := Receiver(k.env, address);
      if k.env.blocked(receiver) {
        return false;
      }
      var sent := Send(minted.value, k.env.module', receiver, coins.value);
      if sent.Err? {
        return false;
      }
      k.bank := sent.value;
    }

    method Burn(from: Str, amount: Coin) returns (ok: bool)
      requires k.Valid()
      modifies k
      ensures Did(ok, DoBurn(k.env, old(k.World()), from, amount))
    {
      var _, found := k.GetMinters(from);
      if !found {
        return false;
      }
      ok := DecodedAndFree(from);
      if !ok {
        return;
      }
      ok := DenomAndUnpaused(amount.denom);
      if !ok {
        return;
      }
      var minterAddress := k.env.addr.acc(from);
      if minterAddress.None? {
        return false;
      }
      var coins := NewCoins(k.env.validDenom, amount);
      if coins.Err? {
        return false;
      }
      var sent := Send(k.bank, minterAddress.value, k.env.module', coins.value);
      if sent.Err? {
        return false;
      }
      var burned := BurnCoins(sent.value, k.env.module', coins.value);
      if burned.Err? {
        return false;
      }
      k.bank := burned.value;
    }

    /** The start of Blacklist and Unblacklist. */
    method BlacklisterDecodes(from: Str, address: Str) returns (bz: Option<Str>)
      requires k.Valid()
      ensures bz == if Holds(k.st.blacklister, from) then k.env.addr.decode(address) else None
    {
      var blacklister, found := k.GetNamed(BlacklisterS);
      if !found {
        return None;
      }
      if blacklister.text != from {
        return None;
      }
      return k.env.addr.decode(address);
    }

    method Blacklist(from: Str, address: Str) returns (ok: bool)
      requires k.Valid()
      modifies k
      ensures Did(ok, DoBlacklist(k.env, old(k.World()), from, address))
    {
      var bz := BlacklisterDecodes(from, address);
      if bz.None? {
        return false;
      }
      var _, found := k.GetBlacklisted(bz.value);
      if found {
        return false;
      }
      ok := k.SetBlacklisted(Named(bz.value));
    }

    method Unblacklist(from: Str, address: Str) returns (ok: bool)
      requires k.Valid()
      modifies k
      ensures Did(ok, DoUnblacklist(k.env, old(k.World()), from, address))
    {
      var bz := BlacklisterDecodes(from, address);
      if bz.None? {
        return false;
      }
      var blacklisted, found := k.GetBlacklisted(bz.value);
      if !found {
        return false;
      }
      k.RemoveBlacklisted(blacklisted.text);
      return true;
    }

    /** Pause and Unpause. */
    method SetPause(from: Str, paused: bool) returns (ok: bool)
      requires k.Valid()
      modifies k
      ensures Did(ok, DoPause(k.env, old(k.World()), from, paused))
    {
      var pauser, found := k.GetNamed(PauserS);
      if !found {
        return false;
      }
      if pauser.text != from {
        return false;
      }
      ok := k.SetPaused(Paused(paused));
    }

    method Dispatch(msg: Msg) returns (ok: bool)
      requires k.Valid()
      modifies k
      ensures Did(ok, Handle(k.env, old(k.World()), msg))
    {
      match msg
      case UpdateOwner(from, address) => ok := UpdateOwner(from, address);
      case AcceptOwner(from) => ok := AcceptOwner(from);
      case UpdateMasterMinter(from, address) => ok := UpdateMasterMinter(from, address);
      case UpdatePauser(from, address) => ok := UpdatePauser(from, address);
      case UpdateBlacklister(from, address) => ok := UpdateBlacklister(from, address);
      case ConfigureMinterController(from, controller, minter) => ok := ConfigureMinterController(from, controller, minter);
      case RemoveMinterController(from, controller) => ok := RemoveMinterController(from, controller);
      case ConfigureMinter(from, address, allowance) => ok := ConfigureMinter(from, address, allowance);
      case RemoveMinter(from, address) => ok := RemoveMinter(from, address);
      case Mint(from, address, amount) => ok := Mint(from, address, amount);
      case Burn(from, amount) => ok := Burn(from, amount);
      case Blacklist(from, address) => ok := Blacklist(from, address);
      case Unblacklist(from, address) => ok := Unblacklist(from, address);
      case Pause(from) => ok := SetPause(from, true);
      case Unpause(from) => ok := SetPause(from, false);
    }

    /** One message of a transaction: the flat store and the bank take exactly the typed step, and a
        failing message leaves both as they were. */
    method DeliverTx(msg: Msg) returns (ok: bool)
      requires k.Valid()
      modifies k
      ensures k.Valid()
      ensures ok <==> Deliver(k.env, old(k.World()), msg).Ok?
      ensures k.World() == Step(k.env, old(k.World()), msg)
      ensures !ok ==> k.store == old(k.store) && k.bank == old(k.bank)
    {
      if !ValidateBasic(k.env, msg) {
        return false;
      }
      var store, bank := k.store, k.bank;
      ghost var st := k.st;
      ok := Dispatch(msg);
      if !ok {
        k.store, k.bank, k.st := store, bank, st;
      }
    }

    /** A whole run of messages. */
    method DeliverAll(msgs: seq<Msg>)
      requires k.Valid()
      modifies k
      ensures k.Valid()
      ensures k.World() == Run(k.env, old(k.World()), msgs)
    {
      ghost var w := k.World();
      var i := 0;
      assert msgs[0..] == msgs;
      while i < |msgs|
        invariant 0 <= i <= |msgs| && k.Valid()
        invariant Run(k.env, w, msgs) == Run(k.env, k.World(), msgs[i..])
      {
        assert msgs[i..][1..] == msgs[i + 1..];
        var _ := DeliverTx(msgs[i]);
        i := i + 1;
      }
    }
  }
}
