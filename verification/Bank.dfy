/** The part of the SDK's bank keeper that the modules call, as functions on balances and supply. Its
    code is not in this repository; this is the behaviour the modules rely on. */
module Bank {
  import opened Bytes
  import opened Messages

  datatype Account = Account(who: Str, denom: Str)

  datatype Bank = Bank(balances: map<Account, nat>, supply: map<Str, nat>)

  function Balance(b: Bank, who: Str, denom: Str): nat {
    var a := Account(who, denom);
    if a in b.balances then b.balances[a] else 0
  }

  function Supply(b: Bank, denom: Str): nat {
    if denom in b.supply then b.supply[denom] else 0
  }

  /** The total of one denom in a list of coins. */
  function AmountOf(coins: seq<Coin>, denom: Str): int {
    if coins == [] then 0
    else (if coins[0].denom == denom then coins[0].amount else 0) + AmountOf(coins[1..], denom)
  }

  /** `sdk.NewCoins` of one coin: a zero coin is dropped, an invalid one panics. */
  function NewCoins(validDenom: Str -> bool, coin: Coin): Result<seq<Coin>> {
    if coin.amount == 0 then Ok([])
    else if coin.amount < 0 || !validDenom(coin.denom) then Err
    else Ok([coin])
  }

  function Credit(b: Bank, who: Str, denom: Str, amount: nat): Bank {
    b.(balances := b.balances[Account(who, denom) := Balance(b, who, denom) + amount])
  }

  function Debit(b: Bank, who: Str, denom: Str, amount: nat): Bank
    requires amount <= Balance(b, who, denom)
  {
    b.(balances := b.balances[Account(who, denom) := Balance(b, who, denom) - amount])
  }

  /** `SendCoins`: every coin must be positive and covered, otherwise nothing moves. */
  function Send(b: Bank, from: Str, to: Str, coins: seq<Coin>): Result<Bank>
    decreases |coins|
  {
    if coins == [] then Ok(b)
    else
      var c := coins[0];
      if c.amount <= 0 || Balance(b, from, c.denom) < c.amount then Err
      else Send(Credit(Debit(b, from, c.denom, c.amount), to, c.denom, c.amount), from, to, coins[1..])
  }

  /** `MintCoins` into a module account. */
  function MintCoins(b: Bank, module': Str, coins: seq<Coin>): Result<Bank>
    decreases |coins|
  {
    if coins == [] then Ok(b)
    else
      var c := coins[0];
      if c.amount <= 0 then Err
      else
        var b' := Credit(b, module', c.denom, c.amount);
        MintCoins(b'.(supply := b'.supply[c.denom := Supply(b, c.denom) + c.amount]), module', coins[1..])
  }

  /** `BurnCoins` out of a module account. */
  function BurnCoins(b: Bank, module': Str, coins: seq<Coin>): Result<Bank>
    decreases |coins|
  {
    if coins == [] then Ok(b)
    else
      var c := coins[0];
      if c.amount <= 0 || Balance(b, module', c.denom) < c.amount || Supply(b, c.denom) < c.amount then Err
      else
        var b' := Debit(b, module', c.denom, c.amount);
        BurnCoins(b'.(supply := b'.supply[c.denom := Supply(b, c.denom) - c.amount]), module', coins[1..])
  }

  function Gain(coins: seq<Coin>, denom: Str, who: Str, account: Str): int {
    if who == account then AmountOf(coins, denom) else 0
  }

  /** Sending moves exactly the coins, and leaves every supply alone. */
  lemma {:induction false} SendEffect(b: Bank, from: Str, to: Str, coins: seq<Coin>, who: Str, denom: Str)
    requires Send(b, from, to, coins).Ok?
    ensures Balance(Send(b, from, to, coins).value, who, denom)
         == Balance(b, who, denom) + Gain(coins, denom, who, to) - Gain(coins, denom, who, from)
    ensures Supply(Send(b, from, to, coins).value, denom) == Supply(b, denom)
    decreases |coins|
  {
    if coins != [] {
      var c := coins[0];
      SendEffect(Credit(Debit(b, from, c.denom, c.amount), to, c.denom, c.amount), from, to, coins[1..], who, denom);
    }
  }

  predicate DistinctDenoms(coins: seq<Coin>) {
    forall i, j :: 0 <= i < j < |coins| ==> coins[i].denom != coins[j].denom
  }

  /** A send of distinct denoms succeeds exactly when every coin is positive and covered. */
  lemma {:induction false} SendCovered(b: Bank, from: Str, to: Str, coins: seq<Coin>)
    requires DistinctDenoms(coins)
    ensures Send(b, from, to, coins).Ok? <==> forall k :: 0 <= k < |coins| ==> 0 < coins[k].amount <= Balance(b, from, coins[k].denom)
    decreases |coins|
  {
    if coins != [] {
      var c := coins[0];
      if 0 < c.amount <= Balance(b, from, c.denom) {
        var b' := Credit(Debit(b, from, c.denom, c.amount), to, c.denom, c.amount);
        SendCovered(b', from, to, coins[1..]);
        forall k | 1 <= k < |coins|
          ensures Balance(b', from, coins[k].denom) == Balance(b, from, coins[k].denom)
          ensures coins[1..][k - 1] == coins[k]
        {}
        if forall k :: 0 <= k < |coins| ==> 0 < coins[k].amount <= Balance(b, from, coins[k].denom) {
          assert forall k :: 0 <= k < |coins[1..]| ==> coins[1..][k] == coins[k + 1];
        } else {
          var k :| 0 <= k < |coins| && !(0 < coins[k].amount <= Balance(b, from, coins[k].denom));
          assert coins[1..][k - 1] == coins[k];
        }
      }
    }
  }

  /** Minting one coin list and handing it on leaves the module's balance as it was. */
  lemma MintThenSend(b: Bank, module': Str, to: Str, coins: seq<Coin>, who: Str, denom: Str)
    requires |coins| <= 1 && module' != to
    requires MintCoins(b, module', coins).Ok?
    requires Send(MintCoins(b, module', coins).value, module', to, coins).Ok?
    ensures var b' := Send(MintCoins(b, module', coins).value, module', to, coins).value;
      && Balance(b', who, denom) == Balance(b, who, denom) + Gain(coins, denom, who, to)
      && Supply(b', denom) == Supply(b, denom) + AmountOf(coins, denom)
  {}

  /** Collecting one coin list and burning it leaves the module's balance as it was. */
  lemma SendThenBurn(b: Bank, from: Str, module': Str, coins: seq<Coin>, who: Str, denom: Str)
    requires |coins| <= 1 && module' != from
    requires Send(b, from, module', coins).Ok?
    requires BurnCoins(Send(b, from, module', coins).value, module', coins).Ok?
    ensures var b' := BurnCoins(Send(b, from, module', coins).value, module', coins).value;
      && Balance(b', who, denom) == Balance(b, who, denom) - Gain(coins, denom, who, from)
      && Supply(b', denom) == Supply(b, denom) - AmountOf(coins, denom)
  {}
}
