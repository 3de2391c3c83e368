/** The global-fee ante decorator: the fee tables, the binary search in them, and the decision whether
    a transaction's fee is enough to enter the mempool. */
module GlobalFee {
  import opened Bytes
  import opened Messages

  // ----- tables: lists of coins, strictly sorted by denom

  predicate Sorted(coins: seq<Coin>) {
    forall i, j :: 0 <= i < j < |coins| ==> Less(coins[i].denom, coins[j].denom)
  }

  /** `Find`: recursive binary search. */
  function Find(coins: seq<Coin>, denom: Str): Option<Coin>
    decreases |coins|
  {
    if |coins| == 0 then None
    else if |coins| == 1 then (if coins[0].denom == denom then Some(coins[0]) else None)
    else
      var midIdx := |coins| / 2;
      var coin := coins[midIdx];
      if Less(denom, coin.denom) then Find(coins[..midIdx], denom)
      else if denom == coin.denom then Some(coin)
      else Find(coins[midIdx + 1..], denom)
  }

  /** Linear search. */
  function Lookup(coins: seq<Coin>, denom: Str): Option<Coin> {
    if coins == [] then None
    else if coins[0].denom == denom then Some(coins[0])
    else Lookup(coins[1..], denom)
  }

  lemma {:induction false} LookupAt(coins: seq<Coin>, denom: Str, k: nat)
    requires k < |coins| && coins[k].denom == denom
    requires forall i :: 0 <= i < k ==> coins[i].denom != denom
    ensures Lookup(coins, denom) == Some(coins[k])
  {
    if k > 0 {
      LookupAt(coins[1..], denom, k - 1);
    }
  }

  lemma {:induction false} LookupFinds(coins: seq<Coin>, denom: Str)
    ensures Lookup(coins, denom).Some? <==> exists k :: 0 <= k < |coins| && coins[k].denom == denom
    ensures Lookup(coins, denom).Some? ==> Lookup(coins, denom).value in coins && Lookup(coins, denom).value.denom == denom
  {
    if coins != [] {
      LookupFinds(coins[1..], denom);
      assert forall i :: 0 <= i < |coins[1..]| ==> coins[1..][i] == coins[i + 1];
    }
  }

  lemma {:induction false} LookupSplit(a: seq<Coin>, b: seq<Coin>, denom: Str)
    ensures Lookup(a + b, denom) == if Lookup(a, denom).Some? then Lookup(a, denom) else Lookup(b, denom)
  {
    if a == [] {
      assert a + b == b;
    } else {
      assert (a + b)[1..] == a[1..] + b;
      LookupSplit(a[1..], b, denom);
    }
  }

  /** On every strictly sorted table the binary search is the linear one. */
  lemma {:induction false} FindIsLookup(coins: seq<Coin>, denom: Str)
    requires Sorted(coins)
    ensures Find(coins, denom) == Lookup(coins, denom)
    decreases |coins|
  {
    if |coins| == 1 {
      assert coins[1..] == [];
    } else if |coins| > 1 {
      var mid := |coins| / 2;
      var a, c, b := coins[..mid], coins[mid], coins[mid + 1..];
      hide Find, Lookup;
      FindUnfold(coins, denom);
      assert coins == a + [c] + b;
      LookupSplit(a + [c], b, denom);
      LookupSplit(a, [c], denom);
      LookupOne(c, denom);
      LookupFinds(a, denom);
      LookupFinds(b, denom);
      FindIsLookup(a, denom);
      FindIsLookup(b, denom);
      if Less(denom, c.denom) {
        forall k | 0 <= k < |b|
          ensures b[k].denom != denom
        {
          LessAsymmetric(denom, c.denom);
          assert Less(c.denom, coins[mid + 1 + k].denom);
        }
        LessIrreflexive(denom);
      } else {
        forall k | 0 <= k < |a|
          ensures a[k].denom != denom
        {
          assert Less(coins[k].denom, c.denom);
        }
      }
    }
  }

  lemma FindUnfold(coins: seq<Coin>, denom: Str)
    requires |coins| > 1
    ensures var mid := |coins| / 2;
      Find(coins, denom) == if Less(denom, coins[mid].denom) then Find(coins[..mid], denom)
                            else if denom == coins[mid].denom then Some(coins[mid])
                            else Find(coins[mid + 1..], denom)
  {}

  lemma LookupOne(c: Coin, denom: Str)
    ensures Lookup([c], denom) == if c.denom == denom then Some(c) else None
  {
    assert [c][1..] == [];
  }

  // ----- Coins.Sort

  function Insert(c: Coin, coins: seq<Coin>): (r: seq<Coin>) {
    if coins == [] || !Less(coins[0].denom, c.denom) then [c] + coins
    else [coins[0]] + Insert(c, coins[1..])
  }

  /** `Coins.Sort`: by denom. */
  function Sort(coins: seq<Coin>): seq<Coin> {
    if coins == [] then [] else Insert(coins[0], Sort(coins[1..]))
  }

  lemma {:induction false} InsertMembers(c: Coin, coins: seq<Coin>)
    ensures forall x :: x in Insert(c, coins) <==> x == c || x in coins
    ensures |Insert(c, coins)| == |coins| + 1
  {
    if coins != [] && Less(coins[0].denom, c.denom) {
      InsertMembers(c, coins[1..]);
    }
  }

  lemma {:induction false} SortMembers(coins: seq<Coin>)
    ensures forall x :: x in Sort(coins) <==> x in coins
    ensures |Sort(coins)| == |coins|
  {
    if coins != [] {
      SortMembers(coins[1..]);
      InsertMembers(coins[0], Sort(coins[1..]));
    }
  }

  lemma {:induction false} InsertSorted(c: Coin, coins: seq<Coin>)
    requires Sorted(coins) && forall x :: x in coins ==> x.denom != c.denom
    ensures Sorted(Insert(c, coins))
  {
    if coins != [] {
      LessTotal(coins[0].denom, c.denom);
      assert coins[0] in coins;
      if Less(coins[0].denom, c.denom) {
        InsertSorted(c, coins[1..]);
        InsertMembers(c, coins[1..]);
        SortedCons(coins[0], Insert(c, coins[1..]));
      } else {
        forall x | x in coins
          ensures Less(c.denom, x.denom)
        {
          if x != coins[0] {
            var k :| 0 < k < |coins| && coins[k] == x;
            LessTransitive(c.denom, coins[0].denom, x.denom);
          }
        }
        SortedCons(c, coins);
      }
    }
  }

  lemma SortedCons(c: Coin, coins: seq<Coin>)
    requires Sorted(coins) && forall x :: x in coins ==> Less(c.denom, x.denom)
    ensures Sorted([c] + coins)
  {}

  predicate Distinct(coins: seq<Coin>) {
    forall i, j :: 0 <= i < j < |coins| ==> coins[i].denom != coins[j].denom
  }

  /** Sorting coins of distinct denoms gives a table of the same coins. */
  lemma {:induction false} SortSorts(coins: seq<Coin>)
    requires Distinct(coins)
    ensures Sorted(Sort(coins))
  {
    if coins != [] {
      SortSorts(coins[1..]);
      SortMembers(coins[1..]);
      InsertSorted(coins[0], Sort(coins[1..]));
    }
  }

  /** Sorting a table changes nothing. */
  lemma {:induction false} SortOfSorted(coins: seq<Coin>)
    requires forall i, j :: 0 <= i < j < |coins| ==> !Less(coins[j].denom, coins[i].denom)
    ensures Sort(coins) == coins
  {
    if coins != [] {
      SortOfSorted(coins[1..]);
      if |coins| > 1 {
        assert !Less(coins[1].denom, coins[0].denom);
      }
    }
  }

  lemma SortTable(coins: seq<Coin>)
    requires Sorted(coins)
    ensures Sort(coins) == coins
  {
    forall i, j | 0 <= i < j < |coins|
      ensures !Less(coins[j].denom, coins[i].denom)
    {
      LessAsymmetric(coins[i].denom, coins[j].denom);
    }
    SortOfSorted(coins);
  }

  // ----- DecCoins.Validate

  /** A price table: valid, strictly increasing denoms and no negative price. */
  predicate ValidPrices(validDenom: Str -> bool, prices: seq<Coin>) {
    && Sorted(prices)
    && forall i :: 0 <= i < |prices| ==> validDenom(prices[i].denom) && prices[i].amount >= 0
  }

  method ValidatePrices(validDenom: Str -> bool, coins: seq<Coin>) returns (ok: bool)
    ensures ok == ValidPrices(validDenom, coins)
    ensures ok <==>
      && (forall i :: 0 <= i < |coins| ==> validDenom(coins[i].denom) && coins[i].amount >= 0)
      && (forall i, j :: 0 <= i < j < |coins| ==> Less(coins[i].denom, coins[j].denom))
    decreases |coins|
  {
    if |coins| == 0 {
      return true;
    }
    if |coins| == 1 {
      return validDenom(coins[0].denom) && coins[0].amount >= 0;
    }
    var first := ValidatePrices(validDenom, [coins[0]]);
    assert [coins[0]][0] == coins[0];
    if !first {
      return false;
    }
    var lowDenom := coins[0].denom;
    var seenDenoms := {lowDenom};
    for i := 1 to |coins|
      invariant lowDenom == coins[i - 1].denom
      invariant seenDenoms == set j | 0 <= j < i :: coins[j].denom
      invariant ValidPrices(validDenom, coins[..i])
    {
      var coin := coins[i];
      if coin.denom in seenDenoms {
        ghost var j :| 0 <= j < i && coins[j].denom == coin.denom;
        LessIrreflexive(coin.denom);
        assert !Less(coins[j].denom, coins[i].denom);
        return false;
      }
      if !validDenom(coin.denom) {
        return false;
      }
      if coin.denom == lowDenom || Less(coin.denom, lowDenom) {
        LessIrreflexive(coin.denom);
        if Less(coin.denom, lowDenom) {
          LessAsymmetric(coin.denom, lowDenom);
        }
        assert !Less(coins[i - 1].denom, coins[i].denom);
        return false;
      }
      if coin.amount < 0 {
        return false;
      }
      Extend(validDenom, coins, i);
      lowDenom := coin.denom;
      seenDenoms := seenDenoms + {coin.denom};
    }
    assert coins[..|coins|] == coins;
    return true;
  }

  lemma Extend(validDenom: Str -> bool, coins: seq<Coin>, i: nat)
    requires 0 < i < |coins| && ValidPrices(validDenom, coins[..i])
    requires validDenom(coins[i].denom) && coins[i].amount >= 0
    requires coins[i].denom != coins[i - 1].denom && !Less(coins[i].denom, coins[i - 1].denom)
    ensures ValidPrices(validDenom, coins[..i + 1])
  {
    LessTotal(coins[i - 1].denom, coins[i].denom);
    var low, all := coins[..i], coins[..i + 1];
    forall j | 0 <= j < i
      ensures Less(all[j].denom, all[i].denom)
    {
      if j < i - 1 {
        assert Less(low[j].denom, low[i - 1].denom);
        LessTransitive(coins[j].denom, coins[i - 1].denom, coins[i].denom);
      }
    }
    forall j, k | 0 <= j < k < i
      ensures Less(all[j].denom, all[k].denom)
    {
      assert Less(low[j].denom, low[k].denom);
    }
    forall j | 0 <= j < i
      ensures validDenom(all[j].denom) && all[j].amount >= 0
    {
      assert low[j] == all[j];
    }
  }
}
