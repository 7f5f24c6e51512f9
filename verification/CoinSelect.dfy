/** Coin selection (internal/coinselect/select.go): effective-value filter, branch-and-bound
    over the changeless window, then largest-first with change. */
module CoinSelect {
  import opened Orders
  import opened VSize
  import Bnb

  datatype Coin = Coin(outpoint: string, branch: nat, index: nat, value: int)

  datatype Params = Params(target: int, feeRate: int, recipientVBytes: int)

  datatype Selected = Selected(inputs: seq<Coin>, change: int, fee: int, vsize: int, hasChange: bool)

  datatype Outcome =
    | Funded(tx: Selected)
    | BadAmount
    | DustOutput
    | Insufficient(available: int, needed: int)

  /** A coin worth spending, with its value less the fee of including it. */
  datatype Candidate = Candidate(coin: Coin, eff: int)

  // ── derived parameters ───────────────────────────────────────────────────────

  function Rate(p: Params): int { if p.feeRate < 1 then 1 else p.feeRate }
  function RecipientVBytes(p: Params): int { if p.recipientVBytes <= 0 then OUTPUT_VBYTES else p.recipientVBytes }
  function InputFee(p: Params): int { FeeFor(INPUT_VBYTES, Rate(p)) }
  function CostOfChange(p: Params): int { FeeFor(OUTPUT_VBYTES, Rate(p)) }
  function TxVSize(p: Params, inputs: nat, changeOuts: nat): int { EstimateVSizeOut(inputs, RecipientVBytes(p), changeOuts) }
  function TxFee(p: Params, inputs: nat, changeOuts: nat): int { FeeFor(TxVSize(p, inputs, changeOuts), Rate(p)) }
  function WindowLow(p: Params): int { p.target + TxFee(p, 0, 0) }
  function WindowHigh(p: Params): int { WindowLow(p) + CostOfChange(p) + DUST - 1 }
  predicate ValidTarget(p: Params) { p.target >= DUST }

  // ── the selection as a function ──────────────────────────────────────────────

  predicate Economical(c: Coin, inputFee: int) { c.value > 0 && c.value - inputFee > 0 }

  function Kept(coins: seq<Coin>, inputFee: int): seq<Candidate> {
    if coins == [] then []
    else
      var rest := Kept(coins[..|coins| - 1], inputFee);
      var c := coins[|coins| - 1];
      if Economical(c, inputFee) then rest + [Candidate(c, c.value - inputFee)] else rest
  }

  function Total<T>(s: seq<T>, f: T -> int): int { if s == [] then 0 else Total(s[..|s| - 1], f) + f(s[|s| - 1]) }
  function Eff(c: Candidate): int { c.eff }
  function Value(c: Coin): int { c.value }
  function SumEff(k: seq<Candidate>): int { Total(k, Eff) }
  function SumValue(cs: seq<Coin>): int { Total(cs, Value) }

  predicate LargestFirst(a: Candidate, b: Candidate) {
    if a.eff != b.eff then a.eff > b.eff else LexLess(a.coin.outpoint, b.coin.outpoint)
  }
  predicate ByOutpoint(a: Coin, b: Coin) { LexLess(a.outpoint, b.outpoint) }

  function CoinsOf(k: seq<Candidate>): seq<Coin> { seq(|k|, i requires 0 <= i < |k| => k[i].coin) }
  function EffsOf(k: seq<Candidate>): seq<int> { seq(|k|, i requires 0 <= i < |k| => k[i].eff) }
  function Pick(cs: seq<Coin>, t: seq<nat>): seq<Coin>
    requires forall i :: 0 <= i < |t| ==> t[i] < |cs|
  {
    seq(|t|, i requires 0 <= i < |t| => cs[t[i]])
  }

  function Changeless(p: Params, picked: seq<Coin>): Selected {
    Selected(SortBy(picked, ByOutpoint), 0, SumValue(picked) - p.target, TxVSize(p, |picked|, 0), false)
  }
  function WithChange(p: Params, picked: seq<Coin>): Selected {
    var fee := TxFee(p, |picked|, 1);
    Selected(SortBy(picked, ByOutpoint), SumValue(picked) - p.target - fee, fee, TxVSize(p, |picked|, 1), true)
  }

  /** The first `n` coins pay the target, the with-change fee and a change output above dust. */
  predicate RoomForChange(p: Params, cs: seq<Coin>, n: nat)
    requires n <= |cs|
  {
    SumValue(cs[..n]) >= p.target + TxFee(p, n, 1) + DUST
  }

  /** The shortest prefix longer than `n` with room for change, or more than there are coins. */
  function FirstWithRoom(p: Params, cs: seq<Coin>, n: nat): (k: nat)
    requires n <= |cs|
    decreases |cs| - n
  {
    if n == |cs| then |cs| + 1 else if RoomForChange(p, cs, n + 1) then n + 1 else FirstWithRoom(p, cs, n + 1)
  }

  function Fallback(p: Params, cs: seq<Coin>): Outcome {
    var n := FirstWithRoom(p, cs, 0);
    if n <= |cs| then Funded(WithChange(p, cs[..n]))
    else if SumValue(cs) >= p.target + TxFee(p, |cs|, 0) then Funded(Changeless(p, cs))
    else Insufficient(SumValue(cs), p.target + TxFee(p, |cs|, 0))
  }

  function SelectSorted(p: Params, k: seq<Candidate>): Outcome
    requires Bnb.Sound(EffsOf(k), WindowLow(p), WindowHigh(p), Bnb.Search(EffsOf(k), WindowLow(p), WindowHigh(p)))
  {
    var cs := CoinsOf(k);
    var found := Bnb.Search(EffsOf(k), WindowLow(p), WindowHigh(p));
    if found.haveBest then Funded(Changeless(p, Pick(cs, found.bestSel)))
    else Fallback(p, cs)
  }

  function Selection(coins: seq<Coin>, p: Params): Outcome {
    if p.target <= 0 then BadAmount
    else if p.target < DUST then DustOutput
    else
      var kept := Kept(coins, InputFee(p));
      if SumEff(kept) < WindowLow(p) then Insufficient(SumValue(CoinsOf(kept)), p.target + TxFee(p, 1, 0))
      else
        var k := SortBy(kept, LargestFirst);
        Bnb.SearchSound(EffsOf(k), WindowLow(p), WindowHigh(p));
        SelectSorted(p, k)
  }

  // ── the selection as it runs ─────────────────────────────────────────────────

  method Filter(coins: seq<Coin>, inputFee: int) returns (kept: seq<Candidate>, totalAvail: int, totalEff: int)
    ensures kept == Kept(coins, inputFee) && totalAvail == SumValue(CoinsOf(kept)) && totalEff == SumEff(kept)
  {
    kept, totalAvail, totalEff := [], 0, 0;
    for i := 0 to |coins|
      invariant kept == Kept(coins[..i], inputFee)
      invariant totalAvail == SumValue(CoinsOf(kept)) && totalEff == SumEff(kept)
    {
      var c := coins[i];
      assert coins[..i + 1][..i] == coins[..i];
      if c.value <= 0 {
        continue;
      }
      var ev := c.value - inputFee;
      if ev <= 0 {
        continue;
      }
      ghost var was := kept;
      kept := kept + [Candidate(c, ev)];
      assert kept[..|kept| - 1] == was;
      assert CoinsOf(kept)[..|kept| - 1] == CoinsOf(was);
      totalAvail := totalAvail + c.value;
      totalEff := totalEff + ev;
    }
    assert coins[..|coins|] == coins;
  }

  method PickCoins(cs: seq<Coin>, sel: seq<nat>) returns (picked: seq<Coin>, sumVal: int)
    requires forall i :: 0 <= i < |sel| ==> sel[i] < |cs|
    ensures picked == Pick(cs, sel) && sumVal == SumValue(picked)
  {
    picked, sumVal := [], 0;
    for i := 0 to |sel|
      invariant picked == Pick(cs, sel[..i]) && sumVal == SumValue(picked)
    {
      ghost var was := picked;
      picked := picked + [cs[sel[i]]];
      assert picked[..|picked| - 1] == was;
      sumVal := sumVal + cs[sel[i]].value;
    }
    assert sel[..|sel|] == sel;
  }

  /** Largest-first accumulation, and the changeless remainder when no change output fits. */
  method Knapsack(cs: seq<Coin>, p: Params, feeRate: int, recipVB: int) returns (r: Outcome)
    requires feeRate == Rate(p) && recipVB == RecipientVBytes(p)
    ensures r == Fallback(p, cs)
  {
    var picked: seq<Coin>, sumVal := [], 0;
    for i := 0 to |cs|
      invariant picked == cs[..i] && sumVal == SumValue(picked)
      invariant FirstWithRoom(p, cs, 0) == FirstWithRoom(p, cs, i)
    {
      ghost var was := picked;
      picked := picked + [cs[i]];
      sumVal := sumVal + cs[i].value;
      assert picked[..|picked| - 1] == was;
      assert picked == cs[..i + 1];
      var vsizeWithChange := EstimateVSizeOut(|picked|, recipVB, 1);
      var feeWithChange := FeeFor(vsizeWithChange, feeRate);
      var needed := p.target + feeWithChange + DUST;
      if sumVal >= needed {
        return Funded(Selected(SortBy(picked, ByOutpoint), sumVal - p.target - feeWithChange,
                               feeWithChange, vsizeWithChange, true));
      }
    }
    assert picked == cs;
    var vsizeNoChange := EstimateVSizeOut(|picked|, recipVB, 0);
    var feeNoChange := FeeFor(vsizeNoChange, feeRate);
    if sumVal >= p.target + feeNoChange {
      return Funded(Selected(SortBy(picked, ByOutpoint), 0, sumVal - p.target, vsizeNoChange, false));
    }
    return Insufficient(sumVal, p.target + feeNoChange);
  }

  method SelectFrom(k: seq<Candidate>, p: Params) returns (r: Outcome)
    requires Bnb.Sound(EffsOf(k), WindowLow(p), WindowHigh(p), Bnb.Search(EffsOf(k), WindowLow(p), WindowHigh(p)))
    ensures r == SelectSorted(p, k)
  {
    var cs := CoinsOf(k);
    var sel, ok := Bnb.Run(EffsOf(k), WindowLow(p), WindowHigh(p));
    if ok {
      var picked, sum := PickCoins(cs, sel);
      return Funded(Selected(SortBy(picked, ByOutpoint), 0, sum - p.target, TxVSize(p, |picked|, 0), false));
    }
    r := Knapsack(cs, p, Rate(p), RecipientVBytes(p));
  }

  method Select(coins: seq<Coin>, p: Params) returns (r: Outcome)
    ensures r == Selection(coins, p)
  {
    if p.target <= 0 {
      return BadAmount;
    }
    if p.target < DUST {
      return DustOutput;
    }
    var kept, totalAvail, totalEff := Filter(coins, InputFee(p));
    if totalEff < WindowLow(p) {
      return Insufficient(totalAvail, p.target + TxFee(p, 1, 0));
    }
    kept := SortBy(kept, LargestFirst);
    Bnb.SearchSound(EffsOf(kept), WindowLow(p), WindowHigh(p));
    r := SelectFrom(kept, p);
  }
}
