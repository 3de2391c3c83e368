/** `FeeDecorator.AnteHandle`: its loops, and the short predicate that they decide. */
module AnteHandler {
  import opened Bytes
  import opened Messages
  import opened Decimal
  import opened GlobalFee

  /** What the decorator reads: the global price table and the bypass types of the parameter store,
      the staking bond denom, the validator's own prices, the gas cap, and the execution mode. Prices
      are decimals scaled by 10^18. */
  datatype Config = Config(
    globalPrices: seq<Coin>,
    bypassTypes: seq<Str>,
    bondDenom: Str,
    localPrices: seq<Coin>,
    maxBypassGas: nat,
    checkTx: bool,
    simulate: bool,
    validDenom: Str -> bool)

  datatype Tx = Tx(fee: seq<Coin>, gas: nat, msgs: seq<Str>)

  datatype Decision = Accepted | Rejected | Panics

  /** Validated tables, and no valid denom is empty. */
  predicate ValidConfig(cfg: Config) {
    && ValidPrices(cfg.validDenom, cfg.globalPrices)
    && ValidPrices(cfg.validDenom, cfg.localPrices)
    && !cfg.validDenom([])
  }

  // ----- what is required

  /** `fee = ceil(price * gas)` of every entry. */
  function Scaled(prices: seq<Coin>, gas: nat): (r: seq<Coin>)
    ensures |r| == |prices|
    ensures forall i :: 0 <= i < |r| ==> r[i].denom == prices[i].denom && (r[i].amount - 1) * ONE < prices[i].amount * gas <= r[i].amount * ONE
  {
    seq(|prices|, i requires 0 <= i < |prices| => Coin(prices[i].denom, CeilInt(prices[i].amount * gas)))
  }

  /** The code's way to it: multiply, round half to even, round up, round. */
  lemma ScaleOne(price: int, gas: nat)
    requires price >= 0
    ensures RoundInt(Ceil(Mul(price, NewDec(gas)))) == CeilInt(price * gas) >= 0
  {
    MulWhole(price, gas);
    assert price * gas >= 0;
    CeilRound(price * gas);
  }

  lemma ScaledTable(prices: seq<Coin>, gas: nat)
    requires Sorted(prices)
    ensures Sorted(Scaled(prices, gas)) && Sort(Scaled(prices, gas)) == Scaled(prices, gas)
  {
    hide Sort;
    SortTable(Scaled(prices, gas));
  }

  /** The table in force: the parameters, or one zero price in the bond denom when they are empty. */
  function EffectivePrices(cfg: Config): Option<seq<Coin>> {
    if cfg.globalPrices != [] then Some(cfg.globalPrices)
    else if cfg.bondDenom == [] || !cfg.validDenom(cfg.bondDenom) then None
    else Some([Coin(cfg.bondDenom, 0)])
  }

  /** `getGlobalFee`; fails when there is no table and no bond denom. */
  method GetGlobalFee(cfg: Config, gas: nat) returns (required: Option<seq<Coin>>)
    requires ValidConfig(cfg)
    ensures required.Some? <==> EffectivePrices(cfg).Some?
    ensures required.Some? ==> required.value == Scaled(EffectivePrices(cfg).value, gas) && Sorted(required.value)
  {
    var prices := cfg.globalPrices;
    if |prices| == 0 {
      if cfg.bondDenom == [] || !cfg.validDenom(cfg.bondDenom) {
        return None;
      }
      prices := [Coin(cfg.bondDenom, NewDec(0))];
    }
    var fees := ScaleAll(prices, gas);
    ScaledTable(prices, gas);
    return Some(Sort(fees));
  }

  /** The loop that fills the required fees. */
  method ScaleAll(prices: seq<Coin>, gas: nat) returns (fees: seq<Coin>)
    requires forall i :: 0 <= i < |prices| ==> prices[i].amount >= 0
    ensures fees == Scaled(prices, gas)
  {
    hide Mul, Ceil, RoundInt, NewDec, CeilInt;
    fees := [];
    for i := 0 to |prices|
      invariant |fees| == i
      invariant forall j :: 0 <= j < i ==> fees[j] == Coin(prices[j].denom, CeilInt(prices[j].amount * gas))
    {
      var gp := prices[i];
      var fee := Mul(gp.amount, NewDec(gas));
      ScaleOne(gp.amount, gas);
      fees := fees + [Coin(gp.denom, RoundInt(Ceil(fee)))];
    }
  }

  /** A list of blank coins, as `make(sdk.Coins, n)` leaves it. */
  predicate Blank(coins: seq<Coin>) {
    forall i :: 0 <= i < |coins| ==> coins[i] == Coin([], 0)
  }

  predicate AllZero(prices: seq<Coin>) {
    forall i :: 0 <= i < |prices| ==> prices[i].amount == 0
  }

  /** `getMinGasPrice`: all-zero prices leave blank coins. */
  method GetMinGasPrice(cfg: Config, gas: nat) returns (required: seq<Coin>)
    requires ValidConfig(cfg)
    ensures AllZero(cfg.localPrices) ==> Blank(required)
    ensures !AllZero(cfg.localPrices) ==> required == Scaled(cfg.localPrices, gas) && Sorted(required)
  {
    var prices := cfg.localPrices;
    required := seq(|prices|, i => Coin([], 0));
    var zero := true;
    for i := 0 to |prices|
      invariant zero <==> forall j :: 0 <= j < i ==> prices[j].amount == 0
    {
      if prices[i].amount != 0 {
        zero := false;
      }
    }
    if !zero {
      required := ScaleAll(prices, gas);
      ScaledTable(prices, gas);
    } else {
      assert forall i, j :: 0 <= i < j < |required| ==> !Less(required[j].denom, required[i].denom);
      SortOfSorted(required);
    }
    required := Sort(required);
  }

  lemma {:induction false} FindInBlank(coins: seq<Coin>, denom: Str)
    requires Blank(coins) && denom != []
    ensures Find(coins, denom) == None
    decreases |coins|
  {
    if |coins| > 1 {
      FindUnfold(coins, denom);
      hide Find;
      var mid := |coins| / 2;
      FindInBlank(coins[..mid], denom);
      FindInBlank(coins[mid + 1..], denom);
    }
  }

  function AmountIn(coins: seq<Coin>, denom: Str): int {
    var c := Lookup(coins, denom);
    if c.Some? then c.value.amount else 0
  }

  function Max(a: int, b: int): int {
    if a >= b then a else b
  }

  /** `CombinedFeeRequirement`: the global denoms, in their order, each with the larger amount; blank
      local prices leave the global table as it is. */
  method CombinedFeeRequirement(globalFees: seq<Coin>, minGasPrices: seq<Coin>) returns (all: seq<Coin>)
    requires Sorted(globalFees) && forall i :: 0 <= i < |globalFees| ==> globalFees[i].denom != [] && globalFees[i].amount >= 0
    requires Blank(minGasPrices) || Sorted(minGasPrices)
    ensures |all| == |globalFees| && Sorted(all)
    ensures forall i :: 0 <= i < |all| ==> all[i].denom == globalFees[i].denom
    ensures Blank(minGasPrices) ==> all == globalFees
    ensures !Blank(minGasPrices) ==> forall i :: 0 <= i < |all| ==>
              all[i].amount == Max(globalFees[i].amount, AmountIn(minGasPrices, globalFees[i].denom))
  {
    hide Find, Lookup, Sort;
    if |minGasPrices| == 0 {
      return globalFees;
    }
    if |globalFees| == 0 && |minGasPrices| != 0 {
      return globalFees;
    }
    all := [];
    for i := 0 to |globalFees|
      invariant |all| == i
      invariant forall j :: 0 <= j < i ==> all[j].denom == globalFees[j].denom
      invariant Blank(minGasPrices) ==> forall j :: 0 <= j < i ==> all[j] == globalFees[j]
      invariant !Blank(minGasPrices) ==> forall j :: 0 <= j < i ==>
                  all[j].amount == Max(globalFees[j].amount, AmountIn(minGasPrices, globalFees[j].denom))
    {
      var fee := globalFees[i];
      var c := Find(minGasPrices, fee.denom);
      if Blank(minGasPrices) {
        FindInBlank(minGasPrices, fee.denom);
      } else {
        FindIsLookup(minGasPrices, fee.denom);
        LookupFinds(minGasPrices, fee.denom);
      }
      if c.Some? && c.value.amount > fee.amount {
        all := all + [c.value];
      } else {
        all := all + [fee];
      }
    }
    SortTable(all);
    all := Sort(all);
  }

  // ----- the three tests

  /** Some coin is zero, or there is none at all. */
  method ContainZeroCoins(coinsB: seq<Coin>) returns (ok: bool)
    ensures ok <==> coinsB == [] || exists i :: 0 <= i < |coinsB| && coinsB[i].amount == 0
  {
    if |coinsB| == 0 {
      return true;
    }
    for i := 0 to |coinsB|
      invariant forall j :: 0 <= j < i ==> coinsB[j].amount != 0
    {
      if coinsB[i].amount == 0 {
        return true;
      }
    }
    return false;
  }

  ghost predicate Listed(coins: seq<Coin>, denom: Str) {
    exists k :: 0 <= k < |coins| && coins[k].denom == denom
  }

  /** Every fee denom is listed. */
  ghost predicate Subset(coins: seq<Coin>, coinsB: seq<Coin>) {
    forall i :: 0 <= i < |coins| ==> Listed(coinsB, coins[i].denom)
  }

  /** Distinct denoms that are all listed cannot outnumber the list. */
  lemma {:induction false} SubsetFits(coins: seq<Coin>, coinsB: seq<Coin>)
    requires Distinct(coins) && Subset(coins, coinsB)
    ensures |coins| <= |coinsB|
    decreases |coins|
  {
    if coins != [] {
      var last := |coins| - 1;
      assert Listed(coinsB, coins[last].denom);
      var k :| 0 <= k < |coinsB| && coinsB[k].denom == coins[last].denom;
      var rest := coinsB[..k] + coinsB[k + 1..];
      forall i | 0 <= i < last
        ensures Listed(rest, coins[i].denom)
      {
        assert Listed(coinsB, coins[i].denom);
        var j :| 0 <= j < |coinsB| && coinsB[j].denom == coins[i].denom;
        assert j != k;
        assert rest[if j < k then j else j - 1] == coinsB[j];
      }
      SubsetFits(coins[..last], rest);
    }
  }

  /** `DenomsSubsetOfIncludingZero`, on valid denoms. */
  method DenomsSubset(coins: seq<Coin>, coinsB: seq<Coin>) returns (ok: bool)
    requires Sorted(coinsB)
    ensures ok <==> Subset(coins, coinsB) && |coins| <= |coinsB|
    ensures Distinct(coins) ==> (ok <==> Subset(coins, coinsB))
  {
    hide Find, Lookup;
    if |coins| > |coinsB| {
      if Distinct(coins) && Subset(coins, coinsB) {
        SubsetFits(coins, coinsB);
      }
      return false;
    }
    if |coins| == 0 {
      var zero := ContainZeroCoins(coinsB);
      if zero {
        return true;
      }
    }
    for i := 0 to |coins|
      invariant forall j :: 0 <= j < i ==> Listed(coinsB, coins[j].denom)
    {
      FindIsLookup(coinsB, coins[i].denom);
      LookupFinds(coinsB, coins[i].denom);
      if Find(coinsB, coins[i].denom).None? {
        return false;
      }
    }
    return true;
  }

  /** Some coin is at least its entry. */
  ghost predicate Covers(coins: seq<Coin>, coinsB: seq<Coin>) {
    exists i, k :: 0 <= i < |coins| && 0 <= k < |coinsB| && coins[i].denom == coinsB[k].denom && coins[i].amount >= coinsB[k].amount
  }

  /** `IsAnyGTEIncludingZero`: some coin covers its entry; with no coins, some entry is zero. */
  method IsAnyGTE(coins: seq<Coin>, coinsB: seq<Coin>) returns (ok: bool)
    requires Sorted(coinsB)
    ensures coins == [] ==> (ok <==> coinsB == [] || exists i :: 0 <= i < |coinsB| && coinsB[i].amount == 0)
    ensures coins != [] ==> (ok <==> Covers(coins, coinsB))
  {
    hide Find, Lookup;
    if |coinsB| == 0 && |coins| == 0 {
      return true;
    }
    if |coinsB| == 0 && |coins| != 0 {
      return false;
    }
    if |coins| == 0 {
      ok := ContainZeroCoins(coinsB);
      return;
    }
    for i := 0 to |coins|
      invariant forall i', k :: 0 <= i' < i && 0 <= k < |coinsB| && coins[i'].denom == coinsB[k].denom
                  ==> coins[i'].amount < coinsB[k].amount
    {
      var coin := coins[i];
      FindIsLookup(coinsB, coin.denom);
      LookupFinds(coinsB, coin.denom);
      TableEntry(coinsB, coin.denom);
      var entry := Find(coinsB, coin.denom);
      if entry.Some? {
        if coin.amount >= entry.value.amount {
          ghost var k :| 0 <= k < |coinsB| && coinsB[k] == entry.value;
          return true;
        }
      }
    }
    return false;
  }

  /** In a table a denom has one entry, the one Lookup finds. */
  lemma TableEntry(coins: seq<Coin>, denom: Str)
    requires Sorted(coins)
    ensures forall k :: 0 <= k < |coins| && coins[k].denom == denom ==> Lookup(coins, denom) == Some(coins[k])
  {
    forall k | 0 <= k < |coins| && coins[k].denom == denom
      ensures Lookup(coins, denom) == Some(coins[k])
    {
      LessIrreflexive(denom);
      LookupAt(coins, denom, k);
    }
  }

  /** `containsOnlyBypassMinFeeMsgs`. */
  method ContainsOnlyBypassMsgs(cfg: Config, msgs: seq<Str>) returns (ok: bool)
    ensures ok <==> forall i :: 0 <= i < |msgs| ==> msgs[i] in cfg.bypassTypes
  {
    for i := 0 to |msgs|
      invariant forall j :: 0 <= j < i ==> msgs[j] in cfg.bypassTypes
    {
      if msgs[i] in cfg.bypassTypes {
        continue;
      }
      return false;
    }
    return true;
  }

  // ----- the decision

  /** Only bypass messages, and not too much gas. */
  predicate Bypass(cfg: Config, tx: Tx) {
    (forall i :: 0 <= i < |tx.msgs| ==> tx.msgs[i] in cfg.bypassTypes) && tx.gas <= cfg.maxBypassGas
  }

  /** What is required of a denom with this global price: the larger of ceil(global price * gas) and
      ceil(local price * gas). */
  function Required(cfg: Config, price: Coin, gas: nat): int {
    Max(CeilInt(price.amount * gas), CeilInt(AmountIn(cfg.localPrices, price.denom) * gas))
  }

  /** The declarative rule: a bypass transaction may carry no fee, or a fee in global denoms; any
      other needs a fee in global denoms of which one coin covers its requirement, or no fee if some
      requirement is zero. The fee never lists more coins than there are global prices, which only a
      fee that repeats a denom can do (SubsetFits). */
  ghost predicate Passes(cfg: Config, prices: seq<Coin>, tx: Tx) {
    && Subset(tx.fee, prices) && |tx.fee| <= |prices|
    && (Bypass(cfg, tx)
        || (tx.fee == [] && exists k :: 0 <= k < |prices| && Required(cfg, prices[k], tx.gas) == 0)
        || (exists i, k :: CoinCovers(cfg, prices, tx, i, k)))
  }

  /** The fee coin i is in the denom of the price k, and at least what is required there. */
  ghost predicate CoinCovers(cfg: Config, prices: seq<Coin>, tx: Tx, i: int, k: int) {
    && 0 <= i < |tx.fee| && 0 <= k < |prices| && tx.fee[i].denom == prices[k].denom
    && tx.fee[i].amount >= Required(cfg, prices[k], tx.gas)
  }

  ghost function Decide(cfg: Config, tx: Tx): Decision {
    match EffectivePrices(cfg)
    case None => Panics
    case Some(prices) => if !cfg.checkTx || cfg.simulate || Passes(cfg, prices, tx) then Accepted else Rejected
  }

  /** The combined requirement, entry by entry. */
  ghost predicate Combined(cfg: Config, prices: seq<Coin>, gas: nat, all: seq<Coin>) {
    && |all| == |prices|
    && forall i :: 0 <= i < |all| ==> all[i].denom == prices[i].denom && all[i].amount == Required(cfg, prices[i], gas)
  }

  lemma {:induction false} ScaledLookup(prices: seq<Coin>, gas: nat, denom: Str)
    ensures AmountIn(Scaled(prices, gas), denom) == CeilInt(AmountIn(prices, denom) * gas)
  {
    hide CeilInt;
    ZeroCeil();
    if prices != [] {
      ScaledLookup(prices[1..], gas, denom);
      assert Scaled(prices, gas)[1..] == Scaled(prices[1..], gas);
    }
  }

  lemma ZeroCeil()
    ensures CeilInt(0) == 0
  {}

  lemma {:induction false} ZeroLookup(prices: seq<Coin>, denom: Str)
    requires AllZero(prices)
    ensures AmountIn(prices, denom) == 0
  {
    if prices != [] {
      ZeroLookup(prices[1..], denom);
    }
  }

  lemma ScaledNonNegative(price: int, gas: nat)
    requires price >= 0
    ensures CeilInt(price * gas) >= 0
  {
    ScaleOne(price, gas);
  }

  /** The local and global tables combine to the requirement. */
  lemma CombinedIsRequired(cfg: Config, prices: seq<Coin>, gas: nat, minGas: seq<Coin>, all: seq<Coin>)
    requires forall i :: 0 <= i < |prices| ==> prices[i].amount >= 0
    requires AllZero(cfg.localPrices) ==> Blank(minGas)
    requires !AllZero(cfg.localPrices) ==> minGas == Scaled(cfg.localPrices, gas)
    requires |all| == |prices| && forall i :: 0 <= i < |all| ==> all[i].denom == prices[i].denom
    requires Blank(minGas) ==> all == Scaled(prices, gas)
    requires !Blank(minGas) ==> forall i :: 0 <= i < |all| ==>
               all[i].amount == Max(Scaled(prices, gas)[i].amount, AmountIn(minGas, prices[i].denom))
    ensures Combined(cfg, prices, gas, all)
  {
    hide CeilInt, Lookup;
    ZeroCeil();
    forall i | 0 <= i < |all|
      ensures all[i].amount == Required(cfg, prices[i], gas)
    {
      ScaledNonNegative(prices[i].amount, gas);
      ScaledLookup(cfg.localPrices, gas, prices[i].denom);
      if AllZero(cfg.localPrices) {
        ZeroLookup(cfg.localPrices, prices[i].denom);
      }
      if Blank(minGas) {
        BlankLookup(minGas, prices[i].denom);
      }
    }
  }

  lemma {:induction false} BlankLookup(coins: seq<Coin>, denom: Str)
    requires Blank(coins)
    ensures AmountIn(coins, denom) == 0
  {
    if coins != [] {
      BlankLookup(coins[1..], denom);
    }
  }

  lemma EffectiveTable(cfg: Config)
    requires ValidConfig(cfg) && EffectivePrices(cfg).Some?
    ensures var prices := EffectivePrices(cfg).value;
      Sorted(prices) && prices != [] && forall i :: 0 <= i < |prices| ==> prices[i].denom != [] && prices[i].amount >= 0
  {}

  /** Fee coins of valid denoms, repeated or not, in any order, and gas that fits an int64. */
  predicate ValidTx(cfg: Config, tx: Tx) {
    (forall i :: 0 <= i < |tx.fee| ==> cfg.validDenom(tx.fee[i].denom)) && tx.gas < TWO_63
  }

  /** `AnteHandle` decides the declarative rule. */
  method AnteHandle(cfg: Config, tx: Tx) returns (decision: Decision)
    requires ValidConfig(cfg) && ValidTx(cfg, tx)
    ensures decision == Decide(cfg, tx)
  {
    hide Sort, Scaled, Required, ValidConfig, EffectivePrices, AllZero, Blank;
    var feeCoins := Sort(tx.fee);
    SortMembers(tx.fee);
    var doesNotExceedMaxGasUsage := tx.gas <= cfg.maxBypassGas;
    var onlyBypass := ContainsOnlyBypassMsgs(cfg, tx.msgs);
    var allowedToBypassMinFee := onlyBypass && doesNotExceedMaxGasUsage;
    var requiredGlobalFees := GetGlobalFee(cfg, tx.gas);
    if requiredGlobalFees.None? {
      return Panics;
    }
    ghost var prices := EffectivePrices(cfg).value;
    EffectiveTable(cfg);
    ScaledShape(prices, tx.gas);
    var requiredFees := GetMinGasPrice(cfg, tx.gas);
    if !cfg.checkTx || cfg.simulate {
      return Accepted;
    }
    if !allowedToBypassMinFee {
      var allFees := CombinedFeeRequirement(requiredGlobalFees.value, requiredFees);
      CombinedIsRequired(cfg, prices, tx.gas, requiredFees, allFees);
      var subset := DenomsSubset(feeCoins, allFees);
      SubsetSame(tx.fee, feeCoins, prices, allFees);
      if !subset {
        return Rejected;
      }
      var covered := IsAnyGTE(feeCoins, allFees);
      CoveredSame(cfg, tx, feeCoins, prices, allFees);
      if !covered {
        return Rejected;
      }
    } else {
      SubsetSame(tx.fee, feeCoins, prices, requiredGlobalFees.value);
      if |feeCoins| == 0 {
        return Accepted;
      }
      var subset := DenomsSubset(feeCoins, requiredGlobalFees.value);
      if !subset {
        return Rejected;
      }
    }
    return Accepted;
  }

  lemma ScaledShape(prices: seq<Coin>, gas: nat)
    requires forall i :: 0 <= i < |prices| ==> prices[i].amount >= 0
    ensures |Scaled(prices, gas)| == |prices|
    ensures forall i :: 0 <= i < |prices| ==> Scaled(prices, gas)[i].denom == prices[i].denom && Scaled(prices, gas)[i].amount >= 0
  {
    forall i | 0 <= i < |prices|
      ensures Scaled(prices, gas)[i].amount >= 0
    {
      ScaledNonNegative(prices[i].amount, gas);
    }
  }

  lemma SubsetSame(fee: seq<Coin>, feeCoins: seq<Coin>, prices: seq<Coin>, table: seq<Coin>)
    requires (forall x :: x in feeCoins <==> x in fee) && |feeCoins| == |fee|
    requires |table| == |prices| && forall k :: 0 <= k < |table| ==> table[k].denom == prices[k].denom
    ensures Subset(fee, prices) <==> Subset(feeCoins, table)
  {
    if Subset(fee, prices) {
      forall i | 0 <= i < |feeCoins|
        ensures Listed(table, feeCoins[i].denom)
      {
        assert feeCoins[i] in fee;
        var j :| 0 <= j < |fee| && fee[j] == feeCoins[i];
        assert Listed(prices, fee[j].denom);
        var k :| 0 <= k < |prices| && prices[k].denom == fee[j].denom;
        assert table[k].denom == feeCoins[i].denom;
      }
    }
    if Subset(feeCoins, table) {
      forall i | 0 <= i < |fee|
        ensures Listed(prices, fee[i].denom)
      {
        assert fee[i] in feeCoins;
        var j :| 0 <= j < |feeCoins| && feeCoins[j] == fee[i];
        assert Listed(table, feeCoins[j].denom);
        var k :| 0 <= k < |table| && table[k].denom == feeCoins[j].denom;
        assert prices[k].denom == fee[i].denom;
      }
    }
  }

  /** Covering an entry of the combined table is covering a requirement. */
  lemma CoveredSame(cfg: Config, tx: Tx, feeCoins: seq<Coin>, prices: seq<Coin>, all: seq<Coin>)
    requires forall x :: x in feeCoins <==> x in tx.fee
    requires Combined(cfg, prices, tx.gas, all)
    ensures (exists k :: 0 <= k < |all| && all[k].amount == 0)
       <==> (exists k :: 0 <= k < |prices| && Required(cfg, prices[k], tx.gas) == 0)
    ensures Covers(feeCoins, all) <==> (exists i, k :: CoinCovers(cfg, prices, tx, i, k))
  {
    hide Required;
    if i, k :| 0 <= i < |feeCoins| && 0 <= k < |all| && feeCoins[i].denom == all[k].denom && feeCoins[i].amount >= all[k].amount {
      assert feeCoins[i] in tx.fee;
      var j :| 0 <= j < |tx.fee| && tx.fee[j] == feeCoins[i];
      assert CoinCovers(cfg, prices, tx, j, k);
    }
    if i, k :| CoinCovers(cfg, prices, tx, i, k) {
      assert tx.fee[i] in feeCoins;
      var j :| 0 <= j < |feeCoins| && feeCoins[j] == tx.fee[i];
      assert feeCoins[j].denom == all[k].denom && feeCoins[j].amount >= all[k].amount;
    }
    if k :| 0 <= k < |prices| && Required(cfg, prices[k], tx.gas) == 0 {
      assert all[k].amount == 0;
    }
  }

  // ----- the rule, written out

  /** The denom is in the table. */
  ghost predicate HasPrice(prices: seq<Coin>, denom: Str) {
    exists p :: p in prices && p.denom == denom
  }

  /** The local prices ask nothing for this denom. */
  predicate FreeLocally(cfg: Config, denom: Str) {
    forall l :: 0 <= l < |cfg.localPrices| && cfg.localPrices[l].denom == denom ==> cfg.localPrices[l].amount == 0
  }

  /** The amount pays for all the gas at the local price of the denom, if there is one. */
  predicate PaysLocally(cfg: Config, denom: Str, amount: int, gas: nat) {
    forall l :: 0 <= l < |cfg.localPrices| && cfg.localPrices[l].denom == denom ==>
      amount * 1_000_000_000_000_000_000 >= cfg.localPrices[l].amount * gas
  }

  /** An amount reaches ceil(x / 10^18) exactly when, scaled, it reaches x. */
  lemma CeilMet(amount: int, x: int)
    ensures amount >= CeilInt(x) <==> amount * 1_000_000_000_000_000_000 >= x
  {}

  /** An amount reaches what is required of a denom when it pays both its prices for all the gas. */
  lemma RequiredMet(cfg: Config, price: Coin, gas: nat, amount: int)
    requires ValidPrices(cfg.validDenom, cfg.localPrices) && price.amount >= 0
    ensures amount >= Required(cfg, price, gas) <==>
      amount * 1_000_000_000_000_000_000 >= price.amount * gas && PaysLocally(cfg, price.denom, amount, gas)
  {
    TableEntry(cfg.localPrices, price.denom);
    LookupFinds(cfg.localPrices, price.denom);
    var local := AmountIn(cfg.localPrices, price.denom);
    CeilMet(amount, price.amount * gas);
    CeilMet(amount, local * gas);
    ScaledNonNegative(price.amount, gas);
    ZeroCeil();
    hide CeilInt, Lookup;
  }

  /** A requirement is zero when there is no gas, or the denom is free in both tables. */
  lemma RequiredZero(cfg: Config, price: Coin, gas: nat)
    requires ValidPrices(cfg.validDenom, cfg.localPrices) && price.amount >= 0
    ensures Required(cfg, price, gas) == 0 <==> gas == 0 || (price.amount == 0 && FreeLocally(cfg, price.denom))
  {
    ZeroRequirement(cfg, price, gas);
    TableEntry(cfg.localPrices, price.denom);
    LookupFinds(cfg.localPrices, price.denom);
    hide Lookup, Required;
  }

  lemma SubsetWritten(coins: seq<Coin>, prices: seq<Coin>)
    ensures Subset(coins, prices) <==> forall i :: 0 <= i < |coins| ==> HasPrice(prices, coins[i].denom)
  {
    forall denom: Str
      ensures Listed(prices, denom) <==> HasPrice(prices, denom)
    {
      if HasPrice(prices, denom) {
        var p :| p in prices && p.denom == denom;
        var k :| 0 <= k < |prices| && prices[k] == p;
      }
    }
  }

  lemma CoversWritten(cfg: Config, prices: seq<Coin>, tx: Tx)
    requires ValidPrices(cfg.validDenom, cfg.localPrices) && forall k :: 0 <= k < |prices| ==> prices[k].amount >= 0
    ensures (exists i, k :: CoinCovers(cfg, prices, tx, i, k)) <==>
      exists i, k :: 0 <= i < |tx.fee| && 0 <= k < |prices| && tx.fee[i].denom == prices[k].denom
                     && tx.fee[i].amount * 1_000_000_000_000_000_000 >= prices[k].amount * tx.gas
                     && PaysLocally(cfg, prices[k].denom, tx.fee[i].amount, tx.gas)
  {
    forall i, k | 0 <= i < |tx.fee| && 0 <= k < |prices|
      ensures tx.fee[i].amount >= Required(cfg, prices[k], tx.gas) <==>
        && tx.fee[i].amount * 1_000_000_000_000_000_000 >= prices[k].amount * tx.gas
        && PaysLocally(cfg, prices[k].denom, tx.fee[i].amount, tx.gas)
    {
      RequiredMet(cfg, prices[k], tx.gas, tx.fee[i].amount);
    }
    hide Required, PaysLocally, ValidPrices;
    if i, k :| 0 <= i < |tx.fee| && 0 <= k < |prices| && tx.fee[i].denom == prices[k].denom
                 && tx.fee[i].amount * 1_000_000_000_000_000_000 >= prices[k].amount * tx.gas
                 && PaysLocally(cfg, prices[k].denom, tx.fee[i].amount, tx.gas) {
      assert CoinCovers(cfg, prices, tx, i, k);
    }
  }

  lemma PassesExactly(cfg: Config, prices: seq<Coin>, tx: Tx)
    requires ValidPrices(cfg.validDenom, cfg.localPrices) && prices != []
    requires forall k :: 0 <= k < |prices| ==> prices[k].amount >= 0
    ensures Passes(cfg, prices, tx) <==>
      && (forall i :: 0 <= i < |tx.fee| ==> HasPrice(prices, tx.fee[i].denom))
      && |tx.fee| <= |prices|
      && (|| ((forall i :: 0 <= i < |tx.msgs| ==> tx.msgs[i] in cfg.bypassTypes) && tx.gas <= cfg.maxBypassGas)
          || (tx.fee == [] && (tx.gas == 0
                || exists k :: 0 <= k < |prices| && prices[k].amount == 0 && FreeLocally(cfg, prices[k].denom)))
          || (exists i, k :: 0 <= i < |tx.fee| && 0 <= k < |prices| && tx.fee[i].denom == prices[k].denom
                && tx.fee[i].amount * 1_000_000_000_000_000_000 >= prices[k].amount * tx.gas
                && PaysLocally(cfg, prices[k].denom, tx.fee[i].amount, tx.gas)))
  {
    forall k | 0 <= k < |prices|
      ensures Required(cfg, prices[k], tx.gas) == 0 <==>
        tx.gas == 0 || (prices[k].amount == 0 && FreeLocally(cfg, prices[k].denom))
    {
      RequiredZero(cfg, prices[k], tx.gas);
    }
    assert tx.gas == 0 ==> Required(cfg, prices[0], tx.gas) == 0;
    SubsetWritten(tx.fee, prices);
    CoversWritten(cfg, prices, tx);
    hide Required, Subset, CoinCovers, FreeLocally, PaysLocally, ValidPrices, HasPrice;
  }

  /** Exactly when the mempool takes a transaction, with a global price table: every fee denom has a
      global price and there are no more fee coins than prices; and either all messages are of bypass
      types within the gas cap, or there is no fee and the gas is zero or some denom is free in both
      tables, or one fee coin pays both prices of its denom for all the gas. */
  lemma AcceptedExactly(cfg: Config, tx: Tx)
    requires ValidConfig(cfg) && cfg.checkTx && !cfg.simulate && cfg.globalPrices != []
    ensures Decide(cfg, tx) != Panics
    ensures Decide(cfg, tx) == Accepted <==>
      && (forall i :: 0 <= i < |tx.fee| ==> HasPrice(cfg.globalPrices, tx.fee[i].denom))
      && |tx.fee| <= |cfg.globalPrices|
      && (|| ((forall i :: 0 <= i < |tx.msgs| ==> tx.msgs[i] in cfg.bypassTypes) && tx.gas <= cfg.maxBypassGas)
          || (tx.fee == [] && (tx.gas == 0
                || exists k :: 0 <= k < |cfg.globalPrices| && cfg.globalPrices[k].amount == 0 && FreeLocally(cfg, cfg.globalPrices[k].denom)))
          || (exists i, k :: 0 <= i < |tx.fee| && 0 <= k < |cfg.globalPrices| && tx.fee[i].denom == cfg.globalPrices[k].denom
                && tx.fee[i].amount * 1_000_000_000_000_000_000 >= cfg.globalPrices[k].amount * tx.gas
                && PaysLocally(cfg, cfg.globalPrices[k].denom, tx.fee[i].amount, tx.gas)))
  {
    PassesExactly(cfg, cfg.globalPrices, tx);
    hide Passes, ValidPrices, FreeLocally, PaysLocally;
  }

  /** Without a table the bond denom is free, and the only one; without a valid bond denom either,
      checking panics, whatever the mode. */
  lemma AcceptedWithoutTable(cfg: Config, tx: Tx)
    requires ValidConfig(cfg) && cfg.globalPrices == []
    ensures cfg.bondDenom == [] || !cfg.validDenom(cfg.bondDenom) ==> Decide(cfg, tx) == Panics
    ensures cfg.bondDenom != [] && cfg.validDenom(cfg.bondDenom) && cfg.checkTx && !cfg.simulate ==>
      (Decide(cfg, tx) == Accepted <==>
        && (tx.fee == [] || (|tx.fee| == 1 && tx.fee[0].denom == cfg.bondDenom))
        && (|| ((forall i :: 0 <= i < |tx.msgs| ==> tx.msgs[i] in cfg.bypassTypes) && tx.gas <= cfg.maxBypassGas)
            || (tx.fee == [] && (tx.gas == 0 || FreeLocally(cfg, cfg.bondDenom)))
            || (|tx.fee| == 1 && tx.fee[0].amount >= 0 && PaysLocally(cfg, cfg.bondDenom, tx.fee[0].amount, tx.gas))))
  {
    var prices := [Coin(cfg.bondDenom, 0)];
    PassesExactly(cfg, prices, tx);
    hide Passes, ValidPrices, FreeLocally, PaysLocally;
    assert prices[0] == Coin(cfg.bondDenom, 0) && prices[0] in prices;
    assert tx.fee != [] && |tx.fee| <= 1 ==> |tx.fee| == 1;
  }

  /** Outside CheckTx, and in simulations, nothing is checked once the table is there. */
  lemma OtherModes(cfg: Config, tx: Tx)
    requires (!cfg.checkTx || cfg.simulate) && cfg.globalPrices != []
    ensures Decide(cfg, tx) == Accepted
  {}

  /** The bypass needs both: with a message type that is not listed, or above the gas cap, a transaction
      without fee is rejected while every denom has a price; with listed types and within the cap it is
      accepted. */
  lemma BypassNeedsBoth(cfg: Config, tx: Tx)
    requires ValidConfig(cfg) && cfg.checkTx && !cfg.simulate && cfg.globalPrices != []
    requires tx.fee == [] && tx.gas > 0 && forall k :: 0 <= k < |cfg.globalPrices| ==> cfg.globalPrices[k].amount > 0
    ensures (exists i :: 0 <= i < |tx.msgs| && tx.msgs[i] !in cfg.bypassTypes) ==> Decide(cfg, tx) == Rejected
    ensures tx.gas > cfg.maxBypassGas ==> Decide(cfg, tx) == Rejected
    ensures (forall i :: 0 <= i < |tx.msgs| ==> tx.msgs[i] in cfg.bypassTypes) && tx.gas <= cfg.maxBypassGas ==>
              Decide(cfg, tx) == Accepted
  {
    AcceptedExactly(cfg, tx);
    hide Decide, ValidConfig;
  }

  // ----- monotonicity

  /** The same messages and fee denoms, with no more gas and no smaller amounts. */
  predicate Improves(tx: Tx, tx': Tx) {
    && tx'.msgs == tx.msgs && tx'.gas <= tx.gas && |tx'.fee| == |tx.fee|
    && forall i :: 0 <= i < |tx.fee| ==> tx'.fee[i].denom == tx.fee[i].denom && tx'.fee[i].amount >= tx.fee[i].amount
  }

  lemma RequiredMonotone(cfg: Config, price: Coin, gas: nat, gas': nat)
    requires ValidPrices(cfg.validDenom, cfg.localPrices) && price.amount >= 0 && gas' <= gas
    ensures 0 <= Required(cfg, price, gas') <= Required(cfg, price, gas)
  {
    LookupFinds(cfg.localPrices, price.denom);
    hide Lookup, CeilInt;
    var local := AmountIn(cfg.localPrices, price.denom);
    assert local >= 0;
    MulLe(gas', gas, price.amount);
    MulLe(gas', gas, local);
    CeilIntMonotone(price.amount * gas', price.amount * gas);
    CeilIntMonotone(local * gas', local * gas);
    ScaledNonNegative(price.amount, gas');
  }

  /** Less gas or a larger fee of the same denoms never turns an accepted transaction into a rejected
      one, even when the gas change switches it into the bypass branch. */
  lemma DecisionMonotone(cfg: Config, tx: Tx, tx': Tx)
    requires ValidConfig(cfg) && Improves(tx, tx') && Decide(cfg, tx) == Accepted
    ensures Decide(cfg, tx') == Accepted
  {
    if EffectivePrices(cfg).Some? && cfg.checkTx && !cfg.simulate {
      var prices := EffectivePrices(cfg).value;
      EffectiveTable(cfg);
      hide Required;
      assert Subset(tx'.fee, prices) by {
        forall i | 0 <= i < |tx'.fee|
          ensures Listed(prices, tx'.fee[i].denom)
        {
          assert Listed(prices, tx.fee[i].denom);
        }
      }
      if Bypass(cfg, tx) {
        assert Bypass(cfg, tx');
      } else if tx.fee == [] {
        var k :| 0 <= k < |prices| && Required(cfg, prices[k], tx.gas) == 0;
        RequiredMonotone(cfg, prices[k], tx.gas, tx'.gas);
        assert Required(cfg, prices[k], tx'.gas) == 0;
      } else {
        var i, k :| CoinCovers(cfg, prices, tx, i, k);
        RequiredMonotone(cfg, prices[k], tx.gas, tx'.gas);
        assert CoinCovers(cfg, prices, tx', i, k);
      }
    }
  }

  /** A requirement is zero exactly when the gas is, or when neither table asks for anything: so a
      transaction without fee and bypass passes exactly then for some listed denom. */
  lemma ZeroRequirement(cfg: Config, price: Coin, gas: nat)
    requires ValidPrices(cfg.validDenom, cfg.localPrices) && price.amount >= 0
    ensures Required(cfg, price, gas) == 0 <==> gas == 0 || (price.amount == 0 && AmountIn(cfg.localPrices, price.denom) == 0)
  {
    LookupFinds(cfg.localPrices, price.denom);
    var local := AmountIn(cfg.localPrices, price.denom);
    assert local >= 0;
    hide Lookup, CeilInt;
    ZeroProduct(price.amount, gas);
    ZeroProduct(local, gas);
  }

  /** When the mempool takes a transaction without fee and without bypass: exactly when the gas is zero
      or some global price is zero and the local price of that denom is zero or missing. */
  lemma ZeroFeeAccepted(cfg: Config, tx: Tx)
    requires ValidConfig(cfg) && EffectivePrices(cfg).Some? && cfg.checkTx && !cfg.simulate
    requires tx.fee == [] && !Bypass(cfg, tx)
    ensures Decide(cfg, tx) == Accepted <==>
      tx.gas == 0 || exists k :: 0 <= k < |EffectivePrices(cfg).value| && ZeroPrice(cfg, EffectivePrices(cfg).value[k])
  {
    hide Required;
    var prices := EffectivePrices(cfg).value;
    EffectiveTable(cfg);
    forall k | 0 <= k < |prices|
      ensures Required(cfg, prices[k], tx.gas) == 0 <==> tx.gas == 0 || ZeroPrice(cfg, prices[k])
    {
      ZeroRequirement(cfg, prices[k], tx.gas);
    }
    assert prices[0].amount >= 0;
  }

  predicate ZeroPrice(cfg: Config, price: Coin) {
    price.amount == 0 && AmountIn(cfg.localPrices, price.denom) == 0
  }

  /** A denom at price zero in both tables: no fee is needed, although the denom has a local price. */
  lemma ListedLocallyAtZero(cfg: Config, tx: Tx, denom: Str)
    requires cfg.validDenom(denom) && !cfg.validDenom([]) && cfg.checkTx && !cfg.simulate
    requires cfg.globalPrices == cfg.localPrices == [Coin(denom, 0)]
    requires tx.fee == []
    ensures Listed(cfg.localPrices, denom) && Decide(cfg, tx) == Accepted
  {
    assert cfg.localPrices[0].denom == denom;
    assert ZeroPrice(cfg, cfg.globalPrices[0]);
    if !Bypass(cfg, tx) {
      ZeroFeeAccepted(cfg, tx);
    }
  }

  lemma ZeroProduct(price: int, gas: nat)
    requires price >= 0
    ensures 0 <= CeilInt(price * gas)
    ensures CeilInt(price * gas) == 0 <==> price == 0 || gas == 0
  {
    if price > 0 && gas > 0 {
      MulLe(1, gas, price);
    }
  }
}
