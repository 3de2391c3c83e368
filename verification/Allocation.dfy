/** The block-by-block split of collected fees among the tariff's distribution entities. */
module Allocation {
  import opened Bytes
  import opened Messages
  import opened Bank
  import opened TokenFactory
  import opened Decimal

  // ----- parameters

  /** How often a text occurs as an entity's address. */
  function CountAddress(entities: seq<DistributionEntity>, text: Str): nat {
    if entities == [] then 0
    else (if entities[0].address == text then 1 else 0) + CountAddress(entities[1..], text)
  }

  function ShareSum(entities: seq<DistributionEntity>): int {
    if entities == [] then 0 else entities[0].share + ShareSum(entities[1..])
  }

  /** Entities that the parameter store accepts. */
  predicate ValidEntities(addr: Addresses, entities: seq<DistributionEntity>) {
    && (forall i :: 0 <= i < |entities| ==>
          && addr.acc(entities[i].address).Some?
          && CountAddress(entities, addr.text(addr.acc(entities[i].address).value)) <= 1
          && 0 < entities[i].share <= ONE)
    && (entities != [] ==> ShareSum(entities) == ONE)
  }

  lemma {:induction false} CountAppend(a: seq<DistributionEntity>, e: DistributionEntity, text: Str)
    ensures CountAddress(a + [e], text) == CountAddress(a, text) + if e.address == text then 1 else 0
  {
    if a == [] {
      assert a + [e] == [e];
    } else {
      assert (a + [e])[1..] == a[1..] + [e];
      CountAppend(a[1..], e, text);
    }
  }

  lemma {:induction false} ShareSumAppend(a: seq<DistributionEntity>, e: DistributionEntity)
    ensures ShareSum(a + [e]) == ShareSum(a) + e.share
  {
    if a == [] {
      assert a + [e] == [e];
    } else {
      assert (a + [e])[1..] == a[1..] + [e];
      ShareSumAppend(a[1..], e);
    }
  }

  method Count(entities: seq<DistributionEntity>, text: Str) returns (count: nat)
    ensures count == CountAddress(entities, text)
  {
    count := 0;
    for j := 0 to |entities|
      invariant count == CountAddress(entities[..j], text)
    {
      CountAppend(entities[..j], entities[j], text);
      assert entities[..j + 1] == entities[..j] + [entities[j]];
      if entities[j].address == text {
        count := count + 1;
      }
    }
    assert entities[..|entities|] == entities;
  }

  /** `validateDistributionEntityParams`. */
  method ValidateDistributionEntities(addr: Addresses, entities: seq<DistributionEntity>) returns (ok: bool)
    ensures ok == ValidEntities(addr, entities)
  {
    var sum := 0;
    for i := 0 to |entities|
      invariant forall j :: 0 <= j < i ==>
        && addr.acc(entities[j].address).Some?
        && CountAddress(entities, addr.text(addr.acc(entities[j].address).value)) <= 1
        && 0 < entities[j].share <= ONE
      invariant sum == ShareSum(entities[..i])
    {
      var d := entities[i];
      var adr := addr.acc(d.address);
      if adr.None? {
        return false;
      }
      var count := Count(entities, addr.text(adr.value));
      if count > 1 {
        return false;
      }
      if d.share <= 0 || d.share > ONE {
        return false;
      }
      ShareSumAppend(entities[..i], d);
      assert entities[..i + 1] == entities[..i] + [d];
      sum := sum + d.share;
    }
    assert entities[..|entities|] == entities;
    return |entities| == 0 || sum == ONE;
  }

  lemma {:induction false} CountNone(entities: seq<DistributionEntity>, text: Str)
    ensures CountAddress(entities, text) == 0 <==> forall j :: 0 <= j < |entities| ==> entities[j].address != text
  {
    if entities != [] {
      CountNone(entities[1..], text);
      var rest := entities[1..];
      assert forall j :: 1 <= j < |entities| ==> rest[j - 1] == entities[j];
      if j :| 0 <= j < |rest| && rest[j].address == text {
        assert entities[j + 1].address == text;
      }
    }
  }

  lemma {:induction false} CountAtMostOne(entities: seq<DistributionEntity>, text: Str)
    ensures CountAddress(entities, text) <= 1 <==>
      forall j, k :: 0 <= j < k < |entities| ==> !(entities[j].address == text && entities[k].address == text)
  {
    if entities != [] {
      var rest := entities[1..];
      CountAtMostOne(rest, text);
      CountNone(rest, text);
      assert forall j :: 1 <= j < |entities| ==> rest[j - 1] == entities[j];
      if CountAddress(entities, text) <= 1 {
        forall j, k | 0 <= j < k < |entities|
          ensures !(entities[j].address == text && entities[k].address == text)
        {
          assert rest[k - 1] == entities[k];
          if j > 0 {
            assert rest[j - 1] == entities[j];
          }
        }
      } else if CountAddress(rest, text) <= 1 {
        var k :| 0 <= k < |rest| && rest[k].address == text;
        assert entities[0].address == text && entities[k + 1].address == text;
      } else {
        var j, k :| 0 <= j < k < |rest| && rest[j].address == text && rest[k].address == text;
        assert entities[j + 1].address == text && entities[k + 1].address == text;
      }
    }
  }

  /** Exactly which lists are accepted: every address parses, no two entries are spelled as the chain
      prints one and the same address, shares lie in (0, 1], and they add up to one. */
  lemma ValidEntitiesExactly(addr: Addresses, entities: seq<DistributionEntity>)
    ensures ValidEntities(addr, entities) <==>
      && (forall i :: 0 <= i < |entities| ==>
            addr.acc(entities[i].address).Some? && 0 < entities[i].share <= 1_000_000_000_000_000_000)
      && (forall i, j, k :: 0 <= i < |entities| && 0 <= j < k < |entities| ==>
            var text := addr.text(addr.acc(entities[i].address).value);
            !(entities[j].address == text && entities[k].address == text))
      && (entities == [] || ShareSum(entities) == 1_000_000_000_000_000_000)
  {
    forall i | 0 <= i < |entities| && addr.acc(entities[i].address).Some?
      ensures var text := addr.text(addr.acc(entities[i].address).value);
        CountAddress(entities, text) <= 1 <==>
          forall j, k :: 0 <= j < k < |entities| ==> !(entities[j].address == text && entities[k].address == text)
    {
      CountAtMostOne(entities, addr.text(addr.acc(entities[i].address).value));
    }
    hide CountAddress, ShareSum;
  }

  /** An address that the chain prints itself cannot be listed twice. */
  lemma PrintedTwiceRefused(addr: Addresses, entities: seq<DistributionEntity>, j: nat, k: nat)
    requires j < k < |entities| && entities[j].address == entities[k].address
    requires addr.acc(entities[j].address).Some? && addr.text(addr.acc(entities[j].address).value) == entities[j].address
    ensures !ValidEntities(addr, entities)
  {
    CountAtMostOne(entities, entities[j].address);
  }

  /** In a spelling that the chain does not print it can: the comparison misses it. */
  lemma SpelledTwiceAccepted(addr: Addresses, x: Str)
    requires addr.acc(x).Some? && addr.text(addr.acc(x).value) != x
    ensures ValidEntities(addr, [DistributionEntity(x, 500_000_000_000_000_000), DistributionEntity(x, 500_000_000_000_000_000)])
  {
    var e := DistributionEntity(x, 500_000_000_000_000_000);
    CountNone([e, e], addr.text(addr.acc(x).value));
    assert [e, e][1..] == [e] && [e][1..] == [];
    assert ShareSum([e]) == e.share + ShareSum([]) && ShareSum([e, e]) == e.share + ShareSum([e]);
  }

  /** What the module gets from the SDK: addresses, valid denoms, blocked recipients, and the address
      of the fee collector. */
  datatype TariffEnv = TariffEnv(
    addr: Addresses,
    validDenom: Str -> bool,
    blocked: Str -> bool,
    collector: Str)

  /** `Params.Validate`. */
  predicate ValidParams(env: TariffEnv, p: Params) {
    && 0 <= p.share <= ONE
    && ValidEntities(env.addr, p.entities)
    && 0 <= p.feeBps <= 10000
    && 0 <= p.feeMax
    && (p.feeDenom != [] ==> env.validDenom(p.feeDenom))
  }

  /** The validators of the five parameters. */
  method ValidateParams(env: TariffEnv, p: Params) returns (ok: bool)
    ensures ok == ValidParams(env, p)
    ensures ok <==>
      && 0 <= p.share <= 1_000_000_000_000_000_000
      && ValidEntities(env.addr, p.entities)
      && 0 <= p.feeBps <= 10000 && 0 <= p.feeMax
      && (p.feeDenom == [] || env.validDenom(p.feeDenom))
  {
    hide ValidEntities;
    if p.share < 0 || p.share > ONE {
      return false;
    }
    ok := ValidateDistributionEntities(env.addr, p.entities);
    if !ok {
      return;
    }
    if p.feeBps < 0 || p.feeBps > 10000 {
      return false;
    }
    if p.feeMax < 0 {
      return false;
    }
    if p.feeDenom == [] {
      return true;
    }
    return env.validDenom(p.feeDenom);
  }

  // ----- the arithmetic of one denom

  /** What an entity is due of one denom: the collected amount times both shares, rounded down once. */
  function Quota(amount: int, share: int, entityShare: int): int {
    amount * share * entityShare / (ONE * ONE)
  }

  /** The three truncations of the allocation collapse to one. */
  lemma TruncationsCollapse(amount: int, share: int, entityShare: int)
    requires amount >= 0 && share >= 0 && entityShare >= 0
    ensures MulTruncate(NewDec(amount), share) == amount * share
    ensures TruncateInt(MulTruncate(MulTruncate(NewDec(amount), share), entityShare)) == Quota(amount, share, entityShare)
  {
    var x := amount * share;
    NonNegative(amount, share);
    NonNegative(x, entityShare);
    assert NewDec(amount) * share == x * ONE;
    assert x * ONE / ONE == x;
    DivDiv(x * entityShare, ONE, ONE);
  }

  lemma NonNegative(a: int, b: int)
    requires a >= 0 && b >= 0
    ensures a * b >= 0
  {}

  /** The sum of what all entities are due of one denom. */
  function QuotaSum(amount: int, share: int, entities: seq<DistributionEntity>): int {
    if entities == [] then 0 else Quota(amount, share, entities[0].share) + QuotaSum(amount, share, entities[1..])
  }

  predicate SharesNonNegative(entities: seq<DistributionEntity>) {
    forall i :: 0 <= i < |entities| ==> entities[i].share >= 0
  }

  /** Rounding down each part loses less than one unit per part. */
  lemma {:induction false} QuotaSumBounds(amount: int, share: int, entities: seq<DistributionEntity>)
    requires amount >= 0 && share >= 0 && SharesNonNegative(entities)
    ensures 0 <= QuotaSum(amount, share, entities)
    ensures QuotaSum(amount, share, entities) * (ONE * ONE) <= amount * share * ShareSum(entities)
    ensures amount * share * ShareSum(entities) <= QuotaSum(amount, share, entities) * (ONE * ONE) + |entities| * (ONE * ONE - 1)
  {
    if entities != [] {
      var x, s, rest := amount * share, entities[0].share, ShareSum(entities[1..]);
      NonNegative(amount, share);
      NonNegative(x, s);
      QuotaSumBounds(amount, share, entities[1..]);
      assert x * (s + rest) == x * s + x * rest;
    }
  }

  /** With shares that add up to one, the entities together are due at most the module's share of the
      collected amount, and fall short of it by less than one unit per entity. */
  lemma QuotaSumIsTheShare(amount: int, share: int, entities: seq<DistributionEntity>)
    requires amount >= 0 && 0 <= share <= ONE && SharesNonNegative(entities)
    requires entities != [] && ShareSum(entities) == ONE
    ensures 0 <= QuotaSum(amount, share, entities) <= amount * share / ONE <= amount
    ensures amount * share < (QuotaSum(amount, share, entities) + |entities|) * ONE
  {
    var q, n, x := QuotaSum(amount, share, entities), |entities|, amount * share;
    QuotaSumBounds(amount, share, entities);
    assert q * ONE <= x by {
      assert q * (ONE * ONE) <= x * ONE;
    }
    assert x < (q + n) * ONE by {
      assert x * ONE <= q * (ONE * ONE) + n * (ONE * ONE - 1);
    }
    MulLe(share, ONE, amount);
    assert x <= amount * ONE;
  }

  // ----- lists of coins

  /** `NewDecCoinsFromCoins`. */
  function ToDecCoins(coins: seq<Coin>): seq<Coin> {
    if coins == [] then [] else [Coin(coins[0].denom, NewDec(coins[0].amount))] + ToDecCoins(coins[1..])
  }

  /** `DecCoins.MulDecTruncate`: zero products are dropped. */
  function MulDecTruncate(coins: seq<Coin>, d: int): seq<Coin> {
    if coins == [] then []
    else
      var product := MulTruncate(coins[0].amount, d);
      (if product == 0 then [] else [Coin(coins[0].denom, product)]) + MulDecTruncate(coins[1..], d)
  }

  /** The coins that remain positive after `TruncateDecimal`. */
  function TruncatePositive(coins: seq<Coin>): seq<Coin> {
    if coins == [] then []
    else
      var truncated := TruncateInt(coins[0].amount);
      (if truncated > 0 then [Coin(coins[0].denom, truncated)] else []) + TruncatePositive(coins[1..])
  }

  /** What an entity is offered: its quota of every denom, where that is positive. */
  function Offer(fees: seq<Coin>, share: int, entityShare: int): seq<Coin> {
    if fees == [] then []
    else
      var q := Quota(fees[0].amount, share, entityShare);
      (if q > 0 then [Coin(fees[0].denom, q)] else []) + Offer(fees[1..], share, entityShare)
  }

  predicate Positive(coins: seq<Coin>) {
    forall i :: 0 <= i < |coins| ==> coins[i].amount > 0
  }

  /** The nested truncations of the loop give exactly the offer. */
  lemma {:induction false} LoopComputesOffer(fees: seq<Coin>, share: int, entityShare: int)
    requires Positive(fees) && share >= 0 && entityShare >= 0
    ensures TruncatePositive(MulDecTruncate(MulDecTruncate(ToDecCoins(fees), share), entityShare))
         == Offer(fees, share, entityShare)
  {
    if fees != [] {
      LoopComputesOffer(fees[1..], share, entityShare);
      OneDenom(fees[0], share, entityShare);
      hide NewDec, MulTruncate, TruncateInt, Quota;
      var c := Coin(fees[0].denom, NewDec(fees[0].amount));
      MulDecAppend([c], ToDecCoins(fees[1..]), share);
      MulDecAppend(MulDecTruncate([c], share), MulDecTruncate(ToDecCoins(fees[1..]), share), entityShare);
      TruncateAppend(MulDecTruncate(MulDecTruncate([c], share), entityShare),
                     MulDecTruncate(MulDecTruncate(ToDecCoins(fees[1..]), share), entityShare));
    }
  }

  lemma OneDenom(coin: Coin, share: int, entityShare: int)
    requires coin.amount > 0 && share >= 0 && entityShare >= 0
    ensures TruncatePositive(MulDecTruncate(MulDecTruncate([Coin(coin.denom, NewDec(coin.amount))], share), entityShare))
         == if Quota(coin.amount, share, entityShare) > 0 then [Coin(coin.denom, Quota(coin.amount, share, entityShare))] else []
  {
    TruncationsCollapse(coin.amount, share, entityShare);
    var first := MulTruncate(NewDec(coin.amount), share);
    var second := MulTruncate(first, entityShare);
    assert first == 0 ==> second == 0;
    assert second == 0 ==> TruncateInt(second) == 0;
    hide NewDec, MulTruncate, TruncateInt, Quota;
    MulDecOne(Coin(coin.denom, NewDec(coin.amount)), share);
    if first != 0 {
      MulDecOne(Coin(coin.denom, first), entityShare);
      if second != 0 {
        assert [Coin(coin.denom, second)][1..] == [];
      }
    }
  }

  lemma MulDecOne(c: Coin, d: int)
    ensures MulDecTruncate([c], d) == if MulTruncate(c.amount, d) == 0 then [] else [Coin(c.denom, MulTruncate(c.amount, d))]
  {
    assert [c][1..] == [];
  }

  lemma {:induction false} MulDecAppend(a: seq<Coin>, b: seq<Coin>, d: int)
    ensures MulDecTruncate(a + b, d) == MulDecTruncate(a, d) + MulDecTruncate(b, d)
  {
    hide MulTruncate;
    if a == [] {
      assert a + b == b;
    } else {
      assert (a + b)[1..] == a[1..] + b;
      MulDecAppend(a[1..], b, d);
    }
  }

  lemma {:induction false} TruncateAppend(a: seq<Coin>, b: seq<Coin>)
    ensures TruncatePositive(a + b) == TruncatePositive(a) + TruncatePositive(b)
  {
    hide TruncateInt;
    if a == [] {
      assert a + b == b;
    } else {
      assert (a + b)[1..] == a[1..] + b;
      TruncateAppend(a[1..], b);
    }
  }

  // ----- paying the entities

  /** One entity's payment: nothing when nothing is due, or when the recipient is blocked. */
  function Pay(env: TariffEnv, b: Bank, fees: seq<Coin>, share: int, e: DistributionEntity): Bank {
    var coins := Offer(fees, share, e.share);
    if coins == [] || !Deliverable(env, e) then b
    else
      match Send(b, env.collector, env.addr.acc(e.address).value, coins)
      case Err => b
      case Ok(b') => b'
  }

  predicate Deliverable(env: TariffEnv, e: DistributionEntity) {
    env.addr.acc(e.address).Some? && !env.blocked(env.addr.acc(e.address).value)
  }

  /** The plain loop over the entities, without early returns. */
  function PayAll(env: TariffEnv, b: Bank, fees: seq<Coin>, share: int, entities: seq<DistributionEntity>): Bank
    decreases |entities|
  {
    if entities == [] then b else PayAll(env, Pay(env, b, fees, share, entities[0]), fees, share, entities[1..])
  }

  /** `GetAllBalances`: the positive balances, sorted by denom. */
  ghost predicate AllBalances(b: Bank, who: Str, coins: seq<Coin>) {
    && (forall i, j :: 0 <= i < j < |coins| ==> Less(coins[i].denom, coins[j].denom))
    && (forall i :: 0 <= i < |coins| ==> coins[i].amount > 0 && coins[i].amount == Balance(b, who, coins[i].denom))
  }

  class TariffKeeper {
    const env: TariffEnv
    var bank: Bank

    constructor (env: TariffEnv, bank: Bank)
      ensures this.env == env && this.bank == bank
    {
      this.env := env;
      this.bank := bank;
    }

    /** `AllocateTokens`, early returns included, pays what the plain loop pays. */
    method AllocateTokens(feesCollectedInt: seq<Coin>, params: Params)
      requires ValidParams(env, params) && AllBalances(bank, env.collector, feesCollectedInt)
      modifies this
      ensures bank == PayAll(env, old(bank), feesCollectedInt, params.share, params.entities)
    {
      assert forall i :: 0 <= i < |params.entities| ==> 0 < params.entities[i].share <= ONE;
      hide Pay, Offer, ValidEntities, ToDecCoins, MulDecTruncate, TruncatePositive, AllBalances;
      ghost var was := bank;
      PositiveFees(bank, env.collector, feesCollectedInt);
      var found := AnyPositive(feesCollectedInt);
      if !found {
        NoOffers(env, bank, feesCollectedInt, params.share, params.entities);
        return;
      }
      var feesCollected := ToDecCoins(feesCollectedInt);
      var feesToDistribute := MulDecTruncate(feesCollected, params.share);
      found := AnyTruncatedPositive(feesToDistribute);
      if !found {
        NothingToDistribute(feesCollectedInt, params.share);
        NoOffers(env, bank, feesCollectedInt, params.share, params.entities);
        return;
      }
      assert params.entities[0..] == params.entities;
      for i := 0 to |params.entities|
        invariant PayAll(env, was, feesCollectedInt, params.share, params.entities)
               == PayAll(env, bank, feesCollectedInt, params.share, params.entities[i..])
      {
        var d := params.entities[i];
        assert params.entities[i..][1..] == params.entities[i + 1..];
        ValidEntity(env.addr, params.entities, i);
        var entityShare := MulDecTruncate(feesToDistribute, d.share);
        var coins := KeepPositive(entityShare);
        LoopComputesOffer(feesCollectedInt, params.share, d.share);
        PayBy(env, bank, feesCollectedInt, params.share, d, coins);
        if |coins| == 0 {
          continue;
        }
        var acc := env.addr.acc(d.address).value;
        if !env.blocked(acc) {
          var sent := Send(bank, env.collector, acc, coins);
          if sent.Ok? {
            bank := sent.value;
          }
        }
      }
    }

    /** The flag loop: is any amount positive? */
    method AnyPositive(coins: seq<Coin>) returns (found: bool)
      ensures found <==> exists i :: 0 <= i < |coins| && coins[i].amount > 0
    {
      found := false;
      for i := 0 to |coins|
        invariant !found ==> forall j :: 0 <= j < i ==> coins[j].amount <= 0
        invariant !found
      {
        if coins[i].amount > 0 {
          return true;
        }
      }
    }

    /** The second flag loop: is any amount still positive once truncated? */
    method AnyTruncatedPositive(coins: seq<Coin>) returns (found: bool)
      ensures found <==> TruncatePositive(coins) != []
    {
      hide TruncateInt;
      assert coins[..0] == [];
      for i := 0 to |coins|
        invariant TruncatePositive(coins[..i]) == []
      {
        var s := coins[i];
        assert coins[..i + 1] == coins[..i] + [s];
        TruncateAppend(coins[..i], [s]);
        assert [s][1..] == [];
        if TruncateInt(s.amount) > 0 {
          TruncateAppend(coins[..i + 1], coins[i + 1..]);
          assert coins == coins[..i + 1] + coins[i + 1..];
          return true;
        }
      }
      assert coins[..|coins|] == coins;
      return false;
    }

    /** The inner loop: truncate each coin and append the positive ones. */
    method KeepPositive(entityShare: seq<Coin>) returns (coins: seq<Coin>)
      ensures coins == TruncatePositive(entityShare)
    {
      hide TruncateInt;
      coins := [];
      assert entityShare[..0] == [];
      for i := 0 to |entityShare|
        invariant coins == TruncatePositive(entityShare[..i])
      {
        var s := entityShare[i];
        assert entityShare[..i + 1] == entityShare[..i] + [s];
        TruncateAppend(entityShare[..i], [s]);
        assert [s][1..] == [];
        var truncated := TruncateInt(s.amount);
        if truncated > 0 {
          coins := coins + [Coin(s.denom, truncated)];
        }
      }
      assert entityShare[..|entityShare|] == entityShare;
    }
  }

  lemma PositiveFees(b: Bank, who: Str, fees: seq<Coin>)
    requires AllBalances(b, who, fees)
    ensures Positive(fees)
  {}

  lemma ValidEntity(addr: Addresses, entities: seq<DistributionEntity>, i: nat)
    requires ValidEntities(addr, entities) && i < |entities|
    ensures addr.acc(entities[i].address).Some? && 0 < entities[i].share <= ONE
  {}

  lemma PayBy(env: TariffEnv, b: Bank, fees: seq<Coin>, share: int, e: DistributionEntity, coins: seq<Coin>)
    requires coins == Offer(fees, share, e.share) && env.addr.acc(e.address).Some?
    ensures Pay(env, b, fees, share, e)
         == if coins == [] || env.blocked(env.addr.acc(e.address).value) then b
            else if Send(b, env.collector, env.addr.acc(e.address).value, coins).Ok?
            then Send(b, env.collector, env.addr.acc(e.address).value, coins).value else b
  {
    hide Offer, Send;
  }

  /** Every denom's share, rounded down, is zero. */
  ghost predicate Nothing(fees: seq<Coin>, share: int) {
    forall i :: 0 <= i < |fees| ==> fees[i].amount * share < ONE
  }

  lemma {:induction false} NothingToDistribute(fees: seq<Coin>, share: int)
    requires Positive(fees) && share >= 0
    requires TruncatePositive(MulDecTruncate(ToDecCoins(fees), share)) == []
    ensures Nothing(fees, share)
  {
    if fees != [] {
      TruncationsCollapse(fees[0].amount, share, 0);
      NonNegative(fees[0].amount, share);
      hide MulTruncate, NewDec;
      var c := Coin(fees[0].denom, NewDec(fees[0].amount));
      var first := MulTruncate(c.amount, share);
      MulDecAppend([c], ToDecCoins(fees[1..]), share);
      TruncateAppend(MulDecTruncate([c], share), MulDecTruncate(ToDecCoins(fees[1..]), share));
      assert [c] + ToDecCoins(fees[1..]) == ToDecCoins(fees);
      MulDecOne(c, share);
      NothingToDistribute(fees[1..], share);
      if first != 0 {
        assert [Coin(c.denom, first)][1..] == [];
      }
      assert TruncateInt(first) <= 0;
      forall i | 0 <= i < |fees|
        ensures fees[i].amount * share < ONE
      {
        if i > 0 {
          assert fees[1..][i - 1] == fees[i];
        }
      }
    }
  }

  lemma {:induction false} NothingOffered(fees: seq<Coin>, share: int, entityShare: int)
    requires Positive(fees) && Nothing(fees, share) && share >= 0 && 0 <= entityShare <= ONE
    ensures Offer(fees, share, entityShare) == []
  {
    if fees != [] {
      var x := fees[0].amount * share;
      NonNegative(fees[0].amount, share);
      MulLe(x, ONE - 1, entityShare);
      MulLe(entityShare, ONE, ONE - 1);
      assert Quota(fees[0].amount, share, entityShare) <= 0;
      assert forall i :: 0 <= i < |fees[1..]| ==> fees[1..][i] == fees[i + 1];
      NothingOffered(fees[1..], share, entityShare);
    }
  }

  lemma {:induction false} NoOffers(env: TariffEnv, b: Bank, fees: seq<Coin>, share: int, entities: seq<DistributionEntity>)
    requires Positive(fees) && Nothing(fees, share) && share >= 0
    requires forall i :: 0 <= i < |entities| ==> 0 < entities[i].share <= ONE
    ensures PayAll(env, b, fees, share, entities) == b
    decreases |entities|
  {
    if entities != [] {
      NothingOffered(fees, share, entities[0].share);
      NoOffers(env, b, fees, share, entities[1..]);
    }
  }

  // ----- conservation

  /** What one entity is sent of a denom. */
  function Sent(env: TariffEnv, fees: seq<Coin>, share: int, e: DistributionEntity, denom: Str): int {
    if Deliverable(env, e) then AmountOf(Offer(fees, share, e.share), denom) else 0
  }

  /** What the collector pays out in all, and what one account receives in all. */
  function Paid(env: TariffEnv, fees: seq<Coin>, share: int, entities: seq<DistributionEntity>, denom: Str): int {
    if entities == [] then 0
    else Sent(env, fees, share, entities[0], denom) + Paid(env, fees, share, entities[1..], denom)
  }

  function Received(env: TariffEnv, fees: seq<Coin>, share: int, entities: seq<DistributionEntity>, who: Str, denom: Str): int {
    if entities == [] then 0
    else
      (if env.addr.acc(entities[0].address) == Some(who) then Sent(env, fees, share, entities[0], denom) else 0)
      + Received(env, fees, share, entities[1..], who, denom)
  }

  ghost predicate SortedFees(fees: seq<Coin>) {
    Positive(fees) && forall i, j :: 0 <= i < j < |fees| ==> Less(fees[i].denom, fees[j].denom)
  }

  /** An offer holds, of every listed denom, exactly the quota. */
  lemma {:induction false} OfferAmount(fees: seq<Coin>, share: int, entityShare: int, k: nat)
    requires SortedFees(fees) && k < |fees| && share >= 0 && entityShare >= 0
    ensures AmountOf(Offer(fees, share, entityShare), fees[k].denom) == Quota(fees[k].amount, share, entityShare)
  {
    var q := Quota(fees[0].amount, share, entityShare);
    QuotaNonNegative(fees[0].amount, share, entityShare);
    var head := if q > 0 then [Coin(fees[0].denom, q)] else [];
    hide Quota;
    AmountOfAppend(head, Offer(fees[1..], share, entityShare), fees[k].denom);
    assert forall i :: 0 <= i < |fees[1..]| ==> fees[1..][i] == fees[i + 1];
    if q > 0 {
      assert head[1..] == [];
    }
    if k == 0 {
      OfferOnlyListed(fees[1..], share, entityShare, fees[0].denom);
    } else {
      LessIrreflexive(fees[0].denom);
      OfferAmount(fees[1..], share, entityShare, k - 1);
    }
  }

  lemma QuotaNonNegative(amount: int, share: int, entityShare: int)
    requires amount >= 0 && share >= 0 && entityShare >= 0
    ensures Quota(amount, share, entityShare) >= 0
  {
    NonNegative(amount, share);
    NonNegative(amount * share, entityShare);
  }

  lemma {:induction false} AmountOfAppend(a: seq<Coin>, b: seq<Coin>, denom: Str)
    ensures AmountOf(a + b, denom) == AmountOf(a, denom) + AmountOf(b, denom)
  {
    if a == [] {
      assert a + b == b;
    } else {
      assert (a + b)[1..] == a[1..] + b;
      AmountOfAppend(a[1..], b, denom);
    }
  }

  lemma {:induction false} OfferOnlyListed(fees: seq<Coin>, share: int, entityShare: int, denom: Str)
    requires SortedFees(fees) && forall i :: 0 <= i < |fees| ==> Less(denom, fees[i].denom)
    ensures AmountOf(Offer(fees, share, entityShare), denom) == 0
  {
    if fees != [] {
      var q := Quota(fees[0].amount, share, entityShare);
      var head := if q > 0 then [Coin(fees[0].denom, q)] else [];
      hide Quota;
      LessIrreflexive(denom);
      AmountOfAppend(head, Offer(fees[1..], share, entityShare), denom);
      OfferOnlyListed(fees[1..], share, entityShare, denom);
      if q > 0 {
        assert head[1..] == [];
      }
    }
  }

  /** An offer is a valid list of coins: positive and of distinct listed denoms. */
  lemma {:induction false} OfferShape(fees: seq<Coin>, share: int, entityShare: int)
    requires SortedFees(fees)
    ensures forall i :: 0 <= i < |Offer(fees, share, entityShare)| ==>
      var c := Offer(fees, share, entityShare)[i];
      c.amount > 0 && exists k :: 0 <= k < |fees| && fees[k].denom == c.denom && c.amount == Quota(fees[k].amount, share, entityShare)
    ensures forall i, j :: 0 <= i < j < |Offer(fees, share, entityShare)| ==>
      Less(Offer(fees, share, entityShare)[i].denom, Offer(fees, share, entityShare)[j].denom)
  {
    if fees != [] {
      var q := Quota(fees[0].amount, share, entityShare);
      hide Quota;
      OfferShape(fees[1..], share, entityShare);
      var tail := Offer(fees[1..], share, entityShare);
      var all := Offer(fees, share, entityShare);
      assert all == (if q > 0 then [Coin(fees[0].denom, q)] else []) + tail;
      forall i | 0 <= i < |tail|
        ensures exists k :: 1 <= k < |fees| && fees[k].denom == tail[i].denom && tail[i].amount == Quota(fees[k].amount, share, entityShare)
      {
        var k :| 0 <= k < |fees[1..]| && fees[1..][k].denom == tail[i].denom
              && tail[i].amount == Quota(fees[1..][k].amount, share, entityShare);
        assert fees[1..][k] == fees[k + 1];
      }
    }
  }

  /** The collector can pay everything that is still due. */
  ghost predicate Covered(env: TariffEnv, b: Bank, fees: seq<Coin>, share: int, entities: seq<DistributionEntity>) {
    forall k :: 0 <= k < |fees| ==> QuotaSum(fees[k].amount, share, entities) <= Balance(b, env.collector, fees[k].denom)
  }

  /** A covered payment to an entity that is not blocked goes through, and moves what was sent. */
  lemma PayEffect(env: TariffEnv, b: Bank, fees: seq<Coin>, share: int, e: DistributionEntity, who: Str, denom: Str)
    requires SortedFees(fees) && share >= 0 && e.share >= 0 && env.addr.acc(e.address).Some?
    requires forall k :: 0 <= k < |fees| ==> Quota(fees[k].amount, share, e.share) <= Balance(b, env.collector, fees[k].denom)
    ensures Deliverable(env, e) ==> Send(b, env.collector, env.addr.acc(e.address).value, Offer(fees, share, e.share)).Ok?
    ensures Balance(Pay(env, b, fees, share, e), who, denom)
         == Balance(b, who, denom)
            + (if env.addr.acc(e.address) == Some(who) then Sent(env, fees, share, e, denom) else 0)
            - (if who == env.collector then Sent(env, fees, share, e, denom) else 0)
  {
    var coins := Offer(fees, share, e.share);
    OfferShape(fees, share, e.share);
    hide Offer, Quota, Send, Balance;
    var acc := env.addr.acc(e.address).value;
    forall i, j | 0 <= i < j < |coins|
      ensures coins[i].denom != coins[j].denom
    {
      LessIrreflexive(coins[i].denom);
    }
    SendCovered(b, env.collector, acc, coins);
    if Deliverable(env, e) && coins != [] {
      SendEffect(b, env.collector, acc, coins, who, denom);
    }
  }

  lemma PayKeepsCovered(env: TariffEnv, b: Bank, fees: seq<Coin>, share: int, entities: seq<DistributionEntity>)
    requires SortedFees(fees) && share >= 0 && SharesNonNegative(entities) && entities != []
    requires env.addr.acc(entities[0].address).Some?
    requires Covered(env, b, fees, share, entities)
    ensures forall k :: 0 <= k < |fees| ==> Quota(fees[k].amount, share, entities[0].share) <= Balance(b, env.collector, fees[k].denom)
    ensures Covered(env, Pay(env, b, fees, share, entities[0]), fees, share, entities[1..])
  {
    hide Pay, Offer, Quota, Balance;
    assert SharesNonNegative(entities[1..]);
    forall k | 0 <= k < |fees|
      ensures Quota(fees[k].amount, share, entities[0].share) <= Balance(b, env.collector, fees[k].denom)
    {
      QuotaSumBounds(fees[k].amount, share, entities[1..]);
    }
    forall k | 0 <= k < |fees|
      ensures QuotaSum(fees[k].amount, share, entities[1..])
           <= Balance(Pay(env, b, fees, share, entities[0]), env.collector, fees[k].denom)
    {
      PayEffect(env, b, fees, share, entities[0], env.collector, fees[k].denom);
      OfferAmount(fees, share, entities[0].share, k);
      QuotaNonNegative(fees[k].amount, share, entities[0].share);
    }
  }

  /** Through the whole loop every account changes by what it receives, less, for the collector, what
      is paid out; every payment that is not blocked is covered when its turn comes. */
  lemma {:induction false} AllocationConserves(env: TariffEnv, b: Bank, fees: seq<Coin>, share: int,
      entities: seq<DistributionEntity>, who: Str, denom: Str)
    requires SortedFees(fees) && share >= 0 && SharesNonNegative(entities)
    requires forall i :: 0 <= i < |entities| ==> env.addr.acc(entities[i].address).Some?
    requires Covered(env, b, fees, share, entities)
    ensures Balance(PayAll(env, b, fees, share, entities), who, denom)
         == Balance(b, who, denom) + Received(env, fees, share, entities, who, denom)
            - (if who == env.collector then Paid(env, fees, share, entities, denom) else 0)
    decreases |entities|
  {
    hide Pay, Sent, Balance, Covered;
    if entities != [] {
      var b' := Pay(env, b, fees, share, entities[0]);
      PayKeepsCovered(env, b, fees, share, entities);
      PayEffect(env, b, fees, share, entities[0], who, denom);
      AllocationConserves(env, b', fees, share, entities[1..], who, denom);
    }
  }

  /** Validated parameters and the collector's own balances cover every payment. */
  lemma ValidParamsCover(env: TariffEnv, b: Bank, fees: seq<Coin>, params: Params)
    requires ValidParams(env, params) && AllBalances(b, env.collector, fees)
    ensures SortedFees(fees) && SharesNonNegative(params.entities)
    ensures Covered(env, b, fees, params.share, params.entities)
  {
    hide Balance, QuotaSum;
    forall k | 0 <= k < |fees|
      ensures QuotaSum(fees[k].amount, params.share, params.entities) <= Balance(b, env.collector, fees[k].denom)
    {
      if params.entities == [] {
        NoQuota(fees[k].amount, params.share);
      } else {
        QuotaSumIsTheShare(fees[k].amount, params.share, params.entities);
      }
    }
  }

  lemma NoQuota(amount: int, share: int)
    ensures QuotaSum(amount, share, []) == 0
  {}

  /** The allocation of one block: an entity gains exactly its quota of every collected denom, the
      collector loses what it pays, and all others keep what they have. */
  lemma AllocationEffect(env: TariffEnv, b: Bank, fees: seq<Coin>, params: Params, who: Str, denom: Str)
    requires ValidParams(env, params) && AllBalances(b, env.collector, fees)
    ensures Balance(PayAll(env, b, fees, params.share, params.entities), who, denom)
         == Balance(b, who, denom) + Received(env, fees, params.share, params.entities, who, denom)
            - (if who == env.collector then Paid(env, fees, params.share, params.entities, denom) else 0)
  {
    ValidParamsCover(env, b, fees, params);
    hide Balance, PayAll, Received, Paid, Covered, SortedFees, AllBalances;
    AllocationConserves(env, b, fees, params.share, params.entities, who, denom);
  }

  /** What is paid of a denom is at most what is due, and exactly that when nobody is blocked. */
  lemma {:induction false} PaidWithinQuota(env: TariffEnv, fees: seq<Coin>, share: int, entities: seq<DistributionEntity>, k: nat)
    requires SortedFees(fees) && k < |fees| && share >= 0 && SharesNonNegative(entities)
    ensures 0 <= Paid(env, fees, share, entities, fees[k].denom) <= QuotaSum(fees[k].amount, share, entities)
    ensures (forall i :: 0 <= i < |entities| ==> Deliverable(env, entities[i])) ==>
              Paid(env, fees, share, entities, fees[k].denom) == QuotaSum(fees[k].amount, share, entities)
  {
    hide Quota, Offer, SortedFees;
    if entities != [] {
      var rest := entities[1..];
      assert forall i :: 0 <= i < |rest| ==> rest[i] == entities[i + 1];
      assert fees[k].amount > 0 by {
        FeesPositive(fees);
      }
      OfferAmount(fees, share, entities[0].share, k);
      QuotaNonNegative(fees[k].amount, share, entities[0].share);
      PaidWithinQuota(env, fees, share, rest, k);
    }
  }

  lemma FeesPositive(fees: seq<Coin>)
    requires SortedFees(fees)
    ensures Positive(fees)
  {}

  /** So, with validated parameters, a block pays out at most the module's share of each denom, and
      when nobody is blocked all of it but less than one unit per entity. */
  lemma PaidIsTheShare(env: TariffEnv, b: Bank, fees: seq<Coin>, params: Params, k: nat)
    requires ValidParams(env, params) && AllBalances(b, env.collector, fees) && k < |fees| && params.entities != []
    ensures var paid := Paid(env, fees, params.share, params.entities, fees[k].denom);
      && 0 <= paid <= fees[k].amount * params.share / ONE <= fees[k].amount
      && ((forall i :: 0 <= i < |params.entities| ==> Deliverable(env, params.entities[i])) ==>
            fees[k].amount * params.share < (paid + |params.entities|) * ONE)
  {
    ValidParamsCover(env, b, fees, params);
    FeesPositive(fees);
    hide Paid, QuotaSum, Covered, SortedFees, AllBalances, Deliverable;
    PaidWithinQuota(env, fees, params.share, params.entities, k);
    QuotaSumIsTheShare(fees[k].amount, params.share, params.entities);
  }

  // ----- what an account gains

  /** What the entities with this account are due of one denom. */
  function Due(addr: Addresses, amount: int, share: int, entities: seq<DistributionEntity>, who: Str): int {
    if entities == [] then 0
    else
      (if addr.acc(entities[0].address) == Some(who) then amount * share * entities[0].share / (ONE * ONE) else 0)
      + Due(addr, amount, share, entities[1..], who)
  }

  lemma {:induction false} ReceivedIsDue(env: TariffEnv, fees: seq<Coin>, share: int, entities: seq<DistributionEntity>, who: Str, k: nat)
    requires SortedFees(fees) && k < |fees| && share >= 0 && SharesNonNegative(entities)
    ensures Received(env, fees, share, entities, who, fees[k].denom)
         == if env.blocked(who) then 0 else Due(env.addr, fees[k].amount, share, entities, who)
    decreases |entities|
  {
    hide Offer, SortedFees;
    if entities != [] {
      var rest := entities[1..];
      assert forall i :: 0 <= i < |rest| ==> rest[i] == entities[i + 1];
      OfferAmount(fees, share, entities[0].share, k);
      ReceivedIsDue(env, fees, share, rest, who, k);
    }
  }

  /** Any account but the collector's gains of each collected denom what the entities with that account
      are due, or nothing when it is blocked. */
  lemma AccountGains(env: TariffEnv, b: Bank, fees: seq<Coin>, params: Params, who: Str, k: nat)
    requires ValidParams(env, params) && AllBalances(b, env.collector, fees) && k < |fees| && who != env.collector
    ensures Balance(PayAll(env, b, fees, params.share, params.entities), who, fees[k].denom)
         == Balance(b, who, fees[k].denom)
            + (if env.blocked(who) then 0 else Due(env.addr, fees[k].amount, params.share, params.entities, who))
  {
    ValidParamsCover(env, b, fees, params);
    hide Balance, PayAll, Received, Due, Covered, SortedFees, AllBalances;
    AllocationEffect(env, b, fees, params, who, fees[k].denom);
    ReceivedIsDue(env, fees, params.share, params.entities, who, k);
  }

  lemma {:induction false} DueOfNobody(addr: Addresses, amount: int, share: int, entities: seq<DistributionEntity>, who: Str)
    requires forall j :: 0 <= j < |entities| ==> addr.acc(entities[j].address) != Some(who)
    ensures Due(addr, amount, share, entities, who) == 0
  {
    if entities != [] {
      DueOfNobody(addr, amount, share, entities[1..], who);
    }
  }

  lemma {:induction false} DueOfOne(addr: Addresses, amount: int, share: int, entities: seq<DistributionEntity>, i: nat, who: Str)
    requires i < |entities| && addr.acc(entities[i].address) == Some(who)
    requires forall j :: 0 <= j < |entities| && j != i ==> addr.acc(entities[j].address) != Some(who)
    ensures Due(addr, amount, share, entities, who) == amount * share * entities[i].share / (ONE * ONE)
  {
    var rest := entities[1..];
    assert forall j :: 0 <= j < |rest| ==> rest[j] == entities[j + 1];
    if i == 0 {
      DueOfNobody(addr, amount, share, rest, who);
    } else {
      DueOfOne(addr, amount, share, rest, i - 1, who);
    }
  }

  /** An entity alone on its account gains floor(F * S * s) of each collected denom, the shares being
      scaled by 10^18 each, unless its account is blocked. */
  lemma EntityGains(env: TariffEnv, b: Bank, fees: seq<Coin>, params: Params, i: nat, who: Str, k: nat)
    requires ValidParams(env, params) && AllBalances(b, env.collector, fees) && k < |fees| && who != env.collector
    requires i < |params.entities| && env.addr.acc(params.entities[i].address) == Some(who)
    requires forall j :: 0 <= j < |params.entities| && j != i ==> env.addr.acc(params.entities[j].address) != Some(who)
    ensures Balance(PayAll(env, b, fees, params.share, params.entities), who, fees[k].denom)
         == Balance(b, who, fees[k].denom)
            + (if env.blocked(who) then 0
               else fees[k].amount * params.share * params.entities[i].share / 1_000_000_000_000_000_000_000_000_000_000_000_000)
  {
    hide Balance, PayAll, Due, AllBalances, ValidParams;
    AccountGains(env, b, fees, params, who, k);
    DueOfOne(env.addr, fees[k].amount, params.share, params.entities, i, who);
  }

  lemma {:induction false} OfferUnlisted(fees: seq<Coin>, share: int, entityShare: int, denom: Str)
    requires forall k :: 0 <= k < |fees| ==> fees[k].denom != denom
    ensures AmountOf(Offer(fees, share, entityShare), denom) == 0
  {
    hide Quota;
    if fees != [] {
      var q := Quota(fees[0].amount, share, entityShare);
      var head := if q > 0 then [Coin(fees[0].denom, q)] else [];
      AmountOfAppend(head, Offer(fees[1..], share, entityShare), denom);
      OfferUnlisted(fees[1..], share, entityShare, denom);
      if q > 0 {
        assert head[1..] == [];
      }
    }
  }

  lemma {:induction false} NothingReceived(env: TariffEnv, fees: seq<Coin>, share: int, entities: seq<DistributionEntity>, who: Str, denom: Str)
    requires forall k :: 0 <= k < |fees| ==> fees[k].denom != denom
    ensures Received(env, fees, share, entities, who, denom) == 0 && Paid(env, fees, share, entities, denom) == 0
    decreases |entities|
  {
    hide Offer;
    if entities != [] {
      OfferUnlisted(fees, share, entities[0].share, denom);
      NothingReceived(env, fees, share, entities[1..], who, denom);
    }
  }

  /** No balance of a denom that was not collected moves. */
  lemma OtherDenomsStay(env: TariffEnv, b: Bank, fees: seq<Coin>, params: Params, who: Str, denom: Str)
    requires ValidParams(env, params) && AllBalances(b, env.collector, fees)
    requires forall k :: 0 <= k < |fees| ==> fees[k].denom != denom
    ensures Balance(PayAll(env, b, fees, params.share, params.entities), who, denom) == Balance(b, who, denom)
  {
    hide Balance, PayAll, Received, Paid, AllBalances, ValidParams;
    AllocationEffect(env, b, fees, params, who, denom);
    NothingReceived(env, fees, params.share, params.entities, who, denom);
  }

  // ----- what is paid is what is received

  function ReceivedByAll(env: TariffEnv, fees: seq<Coin>, share: int, entities: seq<DistributionEntity>, accounts: seq<Str>, denom: Str): int {
    if accounts == [] then 0
    else Received(env, fees, share, entities, accounts[0], denom)
         + ReceivedByAll(env, fees, share, entities, accounts[1..], denom)
  }

  lemma {:induction false} ReceivedByAllStep(env: TariffEnv, fees: seq<Coin>, share: int, entities: seq<DistributionEntity>, accounts: seq<Str>, denom: Str)
    requires entities != [] && forall i, j :: 0 <= i < j < |accounts| ==> accounts[i] != accounts[j]
    ensures ReceivedByAll(env, fees, share, entities, accounts, denom)
         == ReceivedByAll(env, fees, share, entities[1..], accounts, denom)
            + (if exists i :: 0 <= i < |accounts| && env.addr.acc(entities[0].address) == Some(accounts[i])
               then Sent(env, fees, share, entities[0], denom) else 0)
  {
    hide Sent;
    if accounts != [] {
      ReceivedByAllStep(env, fees, share, entities, accounts[1..], denom);
      assert forall i :: 0 <= i < |accounts[1..]| ==> accounts[1..][i] == accounts[i + 1];
      if exists i :: 0 <= i < |accounts[1..]| && env.addr.acc(entities[0].address) == Some(accounts[1..][i]) {
        assert env.addr.acc(entities[0].address) != Some(accounts[0]);
      }
    }
  }

  lemma {:induction false} NobodyReceives(env: TariffEnv, fees: seq<Coin>, share: int, accounts: seq<Str>, denom: Str)
    ensures ReceivedByAll(env, fees, share, [], accounts, denom) == 0
  {
    if accounts != [] {
      NobodyReceives(env, fees, share, accounts[1..], denom);
    }
  }

  /** What the collector pays out of a denom is what the entities' accounts receive, each account
      counted once. */
  lemma {:induction false} PaidIsReceived(env: TariffEnv, fees: seq<Coin>, share: int, entities: seq<DistributionEntity>, accounts: seq<Str>, denom: Str)
    requires forall i, j :: 0 <= i < j < |accounts| ==> accounts[i] != accounts[j]
    requires forall i :: 0 <= i < |entities| ==>
      env.addr.acc(entities[i].address).Some? && env.addr.acc(entities[i].address).value in accounts
    ensures ReceivedByAll(env, fees, share, entities, accounts, denom) == Paid(env, fees, share, entities, denom)
    decreases |entities|
  {
    if entities == [] {
      NobodyReceives(env, fees, share, accounts, denom);
    } else {
      hide Sent;
      ReceivedByAllStep(env, fees, share, entities, accounts, denom);
      PaidIsReceived(env, fees, share, entities[1..], accounts, denom);
    }
  }
}
