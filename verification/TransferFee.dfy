/** The basis-point fee that the tariff middleware takes from an IBC transfer on its way out
    (section "Data Structures" of ICS-020 gives the packet data). */
module TransferFee {
  import opened Bytes
  import opened Messages
  import opened Bank
  import opened Decimal
  import opened Allocation

  // ----- the fee

  /** `sdk.NewDecWithPrec(1, 4)`: one basis point. */
  const BASIS_POINT: int := 100_000_000_000_000

  /** `fullAmount.ToDec().Mul(bp).MulInt(bps).TruncateInt()`. */
  function RawFee(amount: int, bps: int): int {
    TruncateInt(MulInt(Mul(NewDec(amount), BASIS_POINT), bps))
  }

  function Min(a: int, b: int): int {
    if a < b then a else b
  }

  /** The multiplication by one basis point is exact: its half-even rounding never fires. */
  lemma BasisPointExact(amount: int)
    ensures Mul(NewDec(amount), BASIS_POINT) == amount * BASIS_POINT
  {
    assert NewDec(amount) * BASIS_POINT == amount * BASIS_POINT * ONE;
    RoundExact(amount * BASIS_POINT);
  }

  /** The fee before the cap is the floor of amount * bps / 10000. */
  lemma RawFeeExact(amount: int, bps: int)
    requires amount >= 0 && bps >= 0
    ensures RawFee(amount, bps) == amount * bps / 10000
  {
    var x := amount * bps;
    BasisPointExact(amount);
    NonNegative(amount, bps);
    assert amount * BASIS_POINT * bps == x * BASIS_POINT;
    assert ONE == 10000 * BASIS_POINT;
    hide RawFee;
    FloorScaled(x);
    hide *;
    RawFeeUnfolds(amount, bps, x);
  }

  lemma RawFeeUnfolds(amount: int, bps: int, x: int)
    requires x == amount * bps && x >= 0
    requires Mul(NewDec(amount), BASIS_POINT) == amount * BASIS_POINT
    requires amount * BASIS_POINT * bps == x * BASIS_POINT
    ensures RawFee(amount, bps) == x * BASIS_POINT / ONE
  {}

  lemma FloorScaled(x: int)
    requires x >= 0
    ensures x * BASIS_POINT / ONE == x / 10000
  {
    var q := x / 10000;
    assert q * 10000 <= x < q * 10000 + 10000;
    DivUnique(x * BASIS_POINT, ONE, q);
  }

  /** The fee that is taken: never negative, never more than the amount or the cap. */
  function Fee(amount: int, bps: int, max: int): (fee: int)
    requires amount >= 0 && 0 <= bps <= 10000 && max >= 0
    ensures 0 <= fee <= amount && fee <= max
    ensures fee == max || (fee * 10000 <= amount * bps < (fee + 1) * 10000)
  {
    var x := amount * bps;
    NonNegative(amount, bps);
    MulLe(bps, 10000, amount);
    assert x / 10000 <= amount;
    Min(x / 10000, max)
  }

  /** The fee the code takes, capped at the maximum, is the smaller of the floor and the cap. */
  lemma FeeTaken(amount: int, bps: int, max: int)
    requires amount >= 0 && 0 <= bps <= 10000 && max >= 0
    ensures (if RawFee(amount, bps) > max then max else RawFee(amount, bps)) == Min(amount * bps / 10000, max)
    ensures Min(amount * bps / 10000, max) == Fee(amount, bps, max)
  {
    RawFeeExact(amount, bps);
    hide RawFee;
  }

  /** Sending more never delivers less. */
  lemma ForwardedMonotone(a: int, b: int, bps: int, max: int)
    requires 0 <= a <= b && 0 <= bps <= 10000 && max >= 0
    ensures a - Fee(a, bps, max) <= b - Fee(b, bps, max)
  {
    var k := b - a;
    MulLe(bps, 10000, k);
    assert b * bps == a * bps + k * bps;
    assert b * bps / 10000 <= a * bps / 10000 + k by {
      DivMonotone(b * bps, a * bps + k * 10000, 10000);
      assert (a * bps + k * 10000) / 10000 == a * bps / 10000 + k;
    }
  }

  // ----- SendPacket

  /** The fields of FungibleTokenPacketData; those the middleware does not look at are kept in rest. */
  datatype PacketData = PacketData(denom: Str, amount: Str, rest: Str)

  /** A packet that is not a channel packet, or whose data is not that of a token transfer, is opaque. */
  datatype Packet = Opaque(bytes: Str) | Transfer(port: Str, channel: Str, data: PacketData)

  /** What the middleware gets from outside: escrow addresses, the reading and printing of amounts,
      and the verdict of the next layer. */
  datatype Outside = Outside(
    tariff: TariffEnv,
    escrow: (Str, Str) -> Str,
    parse: Str -> Option<int>,
    text: int -> Str,
    lower: Packet -> bool)

  /** Printing an amount and reading it back. */
  ghost predicate TextLaw(o: Outside) {
    forall n :: o.parse(o.text(n)) == Some(n)
  }

  datatype Outcome = Outcome(bank: Bank, packet: Packet)

  function Forward(o: Outside, b: Bank, packet: Packet): Result<Outcome> {
    if o.lower(packet) then Ok(Outcome(b, packet)) else Err
  }

  /** Collecting a fee: `sdk.NewCoin` panics on a negative amount or an invalid denom. */
  function Collect(o: Outside, b: Bank, p: Packet, fee: int): Result<Bank>
    requires p.Transfer?
  {
    if fee < 0 || !o.tariff.validDenom(p.data.denom) then Err
    else
      match NewCoins(o.tariff.validDenom, Coin(p.data.denom, fee))
      case Err => Err
      case Ok(coins) => Send(b, o.escrow(p.port, p.channel), o.tariff.collector, coins)
  }

  /** What the middleware does with a packet. */
  function Relay(o: Outside, b: Bank, params: Params, p: Packet): Result<Outcome> {
    if p.Opaque? || p.data.denom != params.feeDenom then Forward(o, b, p)
    else
      match o.parse(p.data.amount)
      case None => Err
      case Some(full) =>
        var raw := RawFee(full, params.feeBps);
        if raw == 0 then Forward(o, b, p)
        else
          var fee := if raw > params.feeMax then params.feeMax else raw;
          match Collect(o, b, p, fee)
          case Err => Err
          case Ok(b') => Forward(o, b', p.(data := p.data.(amount := o.text(full - fee))))
  }

  /** Who pays, and how much: a packet that is not a transfer in the fee denom goes on untouched. */
  lemma RelayPassesOn(o: Outside, b: Bank, params: Params, p: Packet)
    requires p.Opaque? || p.data.denom != params.feeDenom
    ensures Relay(o, b, params, p) == if o.lower(p) then Ok(Outcome(b, p)) else Err
  {}

  /** A transfer in the fee denom is accepted exactly when the escrow account covers the smaller of
      floor(amount * bps / 10000) and the cap, and the next layer takes the packet with the rest; when
      the floor is zero, exactly when the next layer takes the packet as it is. */
  lemma RelayExactly(o: Outside, b: Bank, params: Params, p: Packet, full: int)
    requires p.Transfer? && p.data.denom == params.feeDenom && o.parse(p.data.amount) == Some(full)
    requires full >= 0 && 0 <= params.feeBps <= 10000 && params.feeMax >= 0
    ensures var raw := full * params.feeBps / 10000;
      var fee := if raw < params.feeMax then raw else params.feeMax;
      var rest := Transfer(p.port, p.channel, PacketData(p.data.denom, o.text(full - fee), p.data.rest));
      && (Relay(o, b, params, p).Ok? <==>
            if raw == 0 then o.lower(p)
            else o.tariff.validDenom(p.data.denom) && fee <= Balance(b, o.escrow(p.port, p.channel), p.data.denom) && o.lower(rest))
      && (Relay(o, b, params, p).Ok? ==> Relay(o, b, params, p).value.packet == if raw == 0 then p else rest)
  {
    RawFeeExact(full, params.feeBps);
    NonNegative(full, params.feeBps);
    var raw := full * params.feeBps / 10000;
    assert raw >= 0;
    if o.tariff.validDenom(p.data.denom) {
      Covers(o, b, p, if raw < params.feeMax then raw else params.feeMax);
    }
    hide RawFee, Balance, Send, NewCoins;
  }

  /** And the fee, nothing else, moves from the escrow account to the collector. */
  lemma RelayMovesTheFee(o: Outside, b: Bank, params: Params, p: Packet, full: int, who: Str, denom: Str)
    requires p.Transfer? && p.data.denom == params.feeDenom && o.parse(p.data.amount) == Some(full)
    requires full >= 0 && 0 <= params.feeBps <= 10000 && params.feeMax >= 0
    requires Relay(o, b, params, p).Ok?
    ensures var raw := full * params.feeBps / 10000;
      var fee := if raw < params.feeMax then raw else params.feeMax;
      Balance(Relay(o, b, params, p).value.bank, who, denom) == Balance(b, who, denom)
        + (if who == o.tariff.collector && denom == p.data.denom then fee else 0)
        - (if who == o.escrow(p.port, p.channel) && denom == p.data.denom then fee else 0)
  {
    RawFeeExact(full, params.feeBps);
    NonNegative(full, params.feeBps);
    var raw := full * params.feeBps / 10000;
    assert raw >= 0;
    var fee := if raw < params.feeMax then raw else params.feeMax;
    hide RawFee, Balance, Send;
    if raw != 0 {
      var escrow := o.escrow(p.port, p.channel);
      var coins := NewCoins(o.tariff.validDenom, Coin(p.data.denom, fee)).value;
      SendEffect(b, escrow, o.tariff.collector, coins, who, denom);
      OneCoin(coins, p.data.denom, fee, denom);
    }
  }

  /** An amount that does not parse is an error, and so is a negative one that a fee would be due of. */
  lemma RelayRefuses(o: Outside, b: Bank, params: Params, p: Packet)
    requires p.Transfer? && p.data.denom == params.feeDenom && 0 <= params.feeBps && params.feeMax >= 0
    requires o.parse(p.data.amount).None?
          || (o.parse(p.data.amount).value < 0 && -o.parse(p.data.amount).value * params.feeBps >= 10000)
    ensures Relay(o, b, params, p).Err?
  {
    if o.parse(p.data.amount).Some? {
      NegativeFee(-o.parse(p.data.amount).value, params.feeBps);
    }
    hide RawFee;
  }

  lemma NegativeFee(amount: int, bps: int)
    requires amount >= 0 && bps >= 0 && amount * bps >= 10000
    ensures RawFee(-amount, bps) < 0
  {
    BasisPointExact(-amount);
    var x := amount * bps;
    assert -amount * BASIS_POINT * bps == -(x * BASIS_POINT);
    FloorScaled(x);
    assert x * BASIS_POINT / ONE >= 1;
    hide Mul;
  }

  class PacketKeeper {
    const o: Outside
    var bank: Bank

    constructor (o: Outside, bank: Bank)
      ensures this.o == o && this.bank == bank
    {
      this.o := o;
      this.bank := bank;
    }

    /** `SendPacket`. An error may come after the fee was collected; the transaction undoes it. */
    method SendPacket(params: Params, packet: Packet) returns (ok: bool, forwarded: Packet)
      modifies this
      ensures ok <==> Relay(o, old(bank), params, packet).Ok?
      ensures ok ==> Relay(o, old(bank), params, packet) == Ok(Outcome(bank, forwarded))
      ensures packet.Opaque? || packet.data.denom != params.feeDenom ==>
                ok == o.lower(packet) && forwarded == packet && bank == old(bank)
    {
      hide RawFee;
      forwarded := packet;
      if packet.Opaque? {
        return o.lower(packet), packet;
      }
      var data := packet.data;
      if data.denom != params.feeDenom {
        return o.lower(packet), packet;
      }
      var fullAmount := o.parse(data.amount);
      if fullAmount.None? {
        return false, packet;
      }
      var feeInt := RawFee(fullAmount.value, params.feeBps);
      if feeInt == 0 {
        return o.lower(packet), packet;
      }
      if feeInt > params.feeMax {
        feeInt := params.feeMax;
      }
      var collected := Collect(o, bank, packet, feeInt);
      if collected.Err? {
        return false, packet;
      }
      bank := collected.value;
      var remaining := fullAmount.value - feeInt;
      data := data.(amount := o.text(remaining));
      forwarded := packet.(data := data);
      ok := o.lower(forwarded);
    }
  }

  // ----- conservation

  predicate FeeParams(params: Params) {
    0 <= params.feeBps <= 10000 && params.feeMax >= 0
  }

  /** What is forwarded and what is collected add up to what was sent, on every path; the fee comes
      out of the channel's escrow and goes to the collector, and no other balance moves. */
  lemma RelayConserves(o: Outside, b: Bank, params: Params, p: Packet, full: int, who: Str, denom: Str)
    requires TextLaw(o) && Relay(o, b, params, p).Ok? && p.Transfer? && o.parse(p.data.amount) == Some(full)
    requires o.escrow(p.port, p.channel) != o.tariff.collector
    ensures var r := Relay(o, b, params, p).value;
      && r.packet.Transfer? && r.packet.port == p.port && r.packet.channel == p.channel
      && r.packet.data.denom == p.data.denom && r.packet.data.rest == p.data.rest
      && o.parse(r.packet.data.amount).Some?
      && var taken := full - o.parse(r.packet.data.amount).value;
         && 0 <= taken
         && Balance(r.bank, who, denom) == Balance(b, who, denom)
            + (if who == o.tariff.collector && denom == p.data.denom then taken else 0)
            - (if who == o.escrow(p.port, p.channel) && denom == p.data.denom then taken else 0)
  {
    hide RawFee, Send, Balance;
    var escrow := o.escrow(p.port, p.channel);
    if p.data.denom == params.feeDenom && RawFee(full, params.feeBps) != 0 {
      var raw := RawFee(full, params.feeBps);
      var fee := if raw > params.feeMax then params.feeMax else raw;
      var coins := NewCoins(o.tariff.validDenom, Coin(p.data.denom, fee)).value;
      SendEffect(b, escrow, o.tariff.collector, coins, who, denom);
      OneCoin(coins, p.data.denom, fee, denom);
    }
  }

  lemma OneCoin(coins: seq<Coin>, d: Str, fee: int, denom: Str)
    requires coins == if fee == 0 then [] else [Coin(d, fee)]
    ensures AmountOf(coins, denom) == if denom == d then fee else 0
  {}

  /** For a non-negative amount with valid parameters exactly the fee is taken, and with the amount in
      escrow the collection cannot fail: only the next layer decides. */
  lemma RelayTakesTheFee(o: Outside, b: Bank, params: Params, p: Packet, full: int)
    requires TextLaw(o) && FeeParams(params) && p.Transfer? && o.parse(p.data.amount) == Some(full) && full >= 0
    requires p.data.denom == params.feeDenom && o.tariff.validDenom(params.feeDenom)
    requires full <= Balance(b, o.escrow(p.port, p.channel), p.data.denom)
    ensures var sent := if full * params.feeBps < 10000 then p
                        else p.(data := p.data.(amount := o.text(full - Fee(full, params.feeBps, params.feeMax))));
      && (Relay(o, b, params, p).Ok? <==> o.lower(sent))
      && (Relay(o, b, params, p).Ok? ==> Relay(o, b, params, p).value.packet == sent)
  {
    RawFeeExact(full, params.feeBps);
    NonNegative(full, params.feeBps);
    var fee := Fee(full, params.feeBps, params.feeMax);
    var x := full * params.feeBps;
    assert x < 10000 <==> x / 10000 == 0;
    assert !(x < 10000) ==> fee == (if x / 10000 > params.feeMax then params.feeMax else x / 10000);
    hide RawFee, Fee, Balance;
    Covers(o, b, p, fee);
  }

  lemma Covers(o: Outside, b: Bank, p: Packet, fee: int)
    requires p.Transfer? && 0 <= fee && o.tariff.validDenom(p.data.denom)
    ensures Collect(o, b, p, fee).Ok? <==> fee <= Balance(b, o.escrow(p.port, p.channel), p.data.denom)
  {
    var coins := NewCoins(o.tariff.validDenom, Coin(p.data.denom, fee)).value;
    SendCovered(b, o.escrow(p.port, p.channel), o.tariff.collector, coins);
  }

  // ----- runs

  /** The amount in flight on a channel, per denom. */
  datatype Lane = Lane(port: Str, channel: Str, denom: Str)

  datatype Sent = Sent(bank: Bank, forwarded: map<Lane, int>)

  function Forwarded(w: Sent, lane: Lane): int {
    if lane in w.forwarded then w.forwarded[lane] else 0
  }

  /** A transfer: the sender, the parameters in force, and the packet. */
  datatype Tx = Tx(sender: Str, params: Params, packet: Packet)

  /** The transfer module escrows the full amount, then hands the packet to the middleware; a failure
      anywhere undoes both. */
  function TransferTx(o: Outside, w: Sent, tx: Tx): Sent {
    if tx.packet.Opaque? then w
    else
      var p := tx.packet;
      match o.parse(p.data.amount)
      case None => w
      case Some(full) =>
        if full <= 0 then w
        else
          match Send(w.bank, tx.sender, o.escrow(p.port, p.channel), [Coin(p.data.denom, full)])
          case Err => w
          case Ok(escrowed) =>
            match Relay(o, escrowed, tx.params, p)
            case Err => w
            case Ok(r) => Sent.Sent(r.bank, Counted(o, w.forwarded, w, r.packet))
  }

  function Counted(o: Outside, forwarded: map<Lane, int>, w: Sent, p: Packet): map<Lane, int> {
    if p.Transfer? && o.parse(p.data.amount).Some? then
      var lane := Lane(p.port, p.channel, p.data.denom);
      forwarded[lane := Forwarded(w, lane) + o.parse(p.data.amount).value]
    else forwarded
  }

  function RunTransfers(o: Outside, w: Sent, txs: seq<Tx>): Sent
    decreases |txs|
  {
    if txs == [] then w else RunTransfers(o, TransferTx(o, w, txs[0]), txs[1..])
  }

  /** The transfer is not sent from the lane's escrow account, and goes through another escrow account
      unless it is on the same channel; no escrow account at hand is the collector. */
  predicate EscrowApart(o: Outside, tx: Tx, lane: Lane) {
    var escrow := o.escrow(lane.port, lane.channel);
    && escrow != o.tariff.collector && tx.sender != escrow
    && (tx.packet.Transfer? ==>
          && o.escrow(tx.packet.port, tx.packet.channel) != o.tariff.collector
          && (o.escrow(tx.packet.port, tx.packet.channel) == escrow ==>
                tx.packet.port == lane.port && tx.packet.channel == lane.channel))
  }

  function Backing(o: Outside, w: Sent, lane: Lane): int {
    Balance(w.bank, o.escrow(lane.port, lane.channel), lane.denom) - Forwarded(w, lane)
  }

  lemma TransferKeepsBacking(o: Outside, w: Sent, tx: Tx, lane: Lane)
    requires TextLaw(o) && EscrowApart(o, tx, lane)
    ensures Backing(o, TransferTx(o, w, tx), lane) == Backing(o, w, lane)
  {
    hide Send, Balance, Relay;
    if tx.packet.Transfer? && o.parse(tx.packet.data.amount).Some? {
      var p := tx.packet;
      var full := o.parse(p.data.amount).value;
      var coins := [Coin(p.data.denom, full)];
      var escrow := o.escrow(p.port, p.channel);
      var escrowed := Send(w.bank, tx.sender, escrow, coins);
      if full > 0 && escrowed.Ok? && Relay(o, escrowed.value, tx.params, p).Ok? {
        var who := o.escrow(lane.port, lane.channel);
        SendEffect(w.bank, tx.sender, escrow, coins, who, lane.denom);
        OneCoin(coins, p.data.denom, full, lane.denom);
        RelayConserves(o, escrowed.value, tx.params, p, full, who, lane.denom);
      }
    }
  }

  /** Over every run of transfers, what a channel's escrow holds of a denom minus what was forwarded
      on that channel never changes: every forwarded token stays backed. */
  lemma {:induction false} EscrowBacksForwarded(o: Outside, w: Sent, txs: seq<Tx>, lane: Lane)
    requires TextLaw(o) && forall i :: 0 <= i < |txs| ==> EscrowApart(o, txs[i], lane)
    ensures Backing(o, RunTransfers(o, w, txs), lane) == Backing(o, w, lane)
    decreases |txs|
  {
    hide TransferTx, Backing, TextLaw, EscrowApart;
    if txs != [] {
      TransferKeepsBacking(o, w, txs[0], lane);
      EscrowBacksForwarded(o, TransferTx(o, w, txs[0]), txs[1..], lane);
    }
  }
}
