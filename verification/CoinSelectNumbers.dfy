/** The outcome of coin selection in numbers: sizes, fees and amounts from the request itself
    (internal/coinselect/select.go, vsize.go). */
module CoinSelectNumbers {
  import opened CoinSelect
  import opened Orders
  import opened CoinSelectLaws
  import Bnb

  /** The fee rate asked for, at least one satoshi per vByte. */
  function AskedRate(p: Params): int { if p.feeRate < 1 then 1 else p.feeRate }

  /** The size of a transaction with this many P2WPKH inputs to the recipient, and perhaps change. */
  function SizeOf(p: Params, inputs: nat, change: bool): int {
    11 + 68 * inputs + (if p.recipientVBytes <= 0 then 31 else p.recipientVBytes) + (if change then 31 else 0)
  }

  /** The value of the coins above a floor. */
  function ValueAbove(coins: seq<Coin>, floor: int): int {
    if coins == [] then 0
    else ValueAbove(coins[..|coins| - 1], floor) + if coins[|coins| - 1].value > floor then coins[|coins| - 1].value else 0
  }

  lemma FeesInNumbers(p: Params, n: nat)
    ensures InputFee(p) == 68 * AskedRate(p) && CostOfChange(p) == 31 * AskedRate(p)
    ensures TxVSize(p, n, 0) == SizeOf(p, n, false) && TxVSize(p, n, 1) == SizeOf(p, n, true)
    ensures TxFee(p, n, 0) == SizeOf(p, n, false) * AskedRate(p) && TxFee(p, n, 1) == SizeOf(p, n, true) * AskedRate(p)
    ensures WindowLow(p) == p.target + SizeOf(p, 0, false) * AskedRate(p) && WindowHigh(p) == WindowLow(p) + 31 * AskedRate(p) + 293
  {
    FeeIsAffine(p, n);
  }

  lemma {:induction false} KeptValue(coins: seq<Coin>, inputFee: int)
    requires inputFee > 0
    ensures SumValue(CoinsOf(Kept(coins, inputFee))) == ValueAbove(coins, inputFee)
  {
    if coins != [] {
      var front, last := coins[..|coins| - 1], coins[|coins| - 1];
      var k := Kept(front, inputFee);
      KeptValue(front, inputFee);
      if Economical(last, inputFee) {
        var c := Candidate(last, last.value - inputFee);
        assert CoinsOf(k + [c])[..|k|] == CoinsOf(k);
      }
    }
  }

  lemma {:induction false} AllAbove(cs: seq<Coin>, floor: int)
    requires forall i :: 0 <= i < |cs| ==> cs[i].value > floor
    ensures SumValue(cs) == ValueAbove(cs, floor)
  {
    if cs != [] {
      AllAbove(cs[..|cs| - 1], floor);
    }
  }

  lemma InputsAreAbove(coins: seq<Coin>, p: Params, inputs: seq<Coin>)
    requires multiset(inputs) <= multiset(CoinsOf(Ordered(coins, p)))
    ensures forall i :: 0 <= i < |inputs| ==> inputs[i].value > InputFee(p)
  {
    var k := Ordered(coins, p);
    OrderedFacts(coins, p);
    forall i | 0 <= i < |inputs| ensures inputs[i].value > InputFee(p) {
      assert inputs[i] in multiset(inputs);
      assert inputs[i] in CoinsOf(k);
      var j :| 0 <= j < |k| && k[j].coin == inputs[i];
    }
  }

  /** A choice of coins worth its own changeless fee on top of the target. */
  ghost predicate Pays(coins: seq<Coin>, p: Params, t: seq<nat>) {
    Bnb.Selection(t, 0, |coins|) && SumValue(Pick(coins, t)) >= p.target + SizeOf(p, |t|, false) * AskedRate(p)
  }

  lemma PaysIsPaysWith(coins: seq<Coin>, p: Params, t: seq<nat>)
    ensures Pays(coins, p, t) <==> PaysWith(coins, p, t)
  {
    FeesInNumbers(p, |t|);
  }

  /** Inputs above the fee of their own inclusion make up target, fee and change; the fee is exactly the
      rate with change, and less than a change output and its dust above it without. Inputs are in the
      order of their outpoints. */
  predicate Accounts(p: Params, s: Selected) {
    var r := AskedRate(p);
    && ValueAbove(s.inputs, 68 * r) == p.target + s.fee + s.change
    && s.vsize == SizeOf(p, |s.inputs|, s.hasChange) && s.vsize * r <= s.fee
    && (if s.hasChange then s.fee == s.vsize * r && s.change >= 294 else s.change == 0 && s.fee < s.vsize * r + 31 * r + 294)
    && forall i, j :: 0 <= i < j < |s.inputs| ==> !LexLess(s.inputs[j].outpoint, s.inputs[i].outpoint)
  }

  /** A refusal names the value of the coins worth more than the fee of their own inclusion, and the
      target with the fee of one input and no change. */
  predicate RefusalAccounts(coins: seq<Coin>, p: Params, available: int, needed: int) {
    available == ValueAbove(coins, 68 * AskedRate(p)) && needed == p.target + SizeOf(p, 1, false) * AskedRate(p)
  }

  /** What every outcome says, in numbers: an account that balances, a refused amount, or what the coins
      are worth and what one input would need; and it is funded exactly when some choice pays. */
  lemma SelectInNumbers(coins: seq<Coin>, p: Params)
    ensures Selection(coins, p).BadAmount? <==> p.target <= 0
    ensures Selection(coins, p).DustOutput? <==> 0 < p.target < 294
    ensures Selection(coins, p).Funded? <==> p.target >= 294 && exists t :: Pays(coins, p, t)
    ensures var outcome := Selection(coins, p);
            outcome.Funded? ==> multiset(outcome.tx.inputs) <= multiset(coins) && Accounts(p, outcome.tx)
    ensures var outcome := Selection(coins, p);
            outcome.Insufficient? ==> RefusalAccounts(coins, p, outcome.available, outcome.needed)
  {
    SelectConserves(coins, p);
    FeesInNumbers(p, 1);
    forall t ensures Pays(coins, p, t) <==> PaysWith(coins, p, t) { PaysIsPaysWith(coins, p, t); }
    if ValidTarget(p) {
      SelectComplete(coins, p);
    }
    var outcome := Selection(coins, p);
    if outcome.Funded? {
      FundedInNumbers(coins, p, outcome.tx);
    } else if outcome.Insufficient? {
      KeptValue(coins, InputFee(p));
    }
  }

  lemma FundedInNumbers(coins: seq<Coin>, p: Params, s: Selected)
    requires Conserving(p, s) && multiset(s.inputs) <= multiset(CoinsOf(Ordered(coins, p)))
    ensures Accounts(p, s)
  {
    FeesInNumbers(p, |s.inputs|);
    InputsAreAbove(coins, p, s.inputs);
    AllAbove(s.inputs, InputFee(p));
  }
}
