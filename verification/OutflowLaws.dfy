/** What the charge means on chain, for one signing of a transaction and for several. */
module OutflowLaws {
  import opened Base
  import opened Outflow

  // ── what the charge means on chain ───────────────────────────────────────────

  datatype Utxo = Utxo(outpoint: string, coin: Coin)

  function Balance(chain: seq<Utxo>, ours: set<string>): int {
    if chain == [] then 0
    else (if chain[0].coin.script in ours then chain[0].coin.sat else 0) + Balance(chain[1..], ours)
  }

  /** The part of the balance at these outpoints. */
  function BalanceAt(chain: seq<Utxo>, at: set<string>, ours: set<string>): int {
    if chain == [] then 0
    else (if chain[0].outpoint in at && chain[0].coin.script in ours then chain[0].coin.sat else 0)
         + BalanceAt(chain[1..], at, ours)
  }

  function Without(chain: seq<Utxo>, spent: set<string>): seq<Utxo> {
    if chain == [] then []
    else (if chain[0].outpoint in spent then [] else [chain[0]]) + Without(chain[1..], spent)
  }

  function Outpoints(inputs: seq<Input>): set<string> { set i | i in inputs :: i.outpoint }

  /** The unspent outputs once the transaction confirms, its outputs named by `name`. */
  function Confirmed(chain: seq<Utxo>, psbt: Psbt, name: nat -> string): seq<Utxo> {
    Without(chain, Outpoints(psbt.inputs))
    + seq(|psbt.outputs|, k requires 0 <= k < |psbt.outputs| => Utxo(name(k), psbt.outputs[k]))
  }

  predicate DistinctCoins(chain: seq<Utxo>) {
    forall i, j :: 0 <= i < j < |chain| ==> chain[i].outpoint != chain[j].outpoint
  }

  predicate DistinctInputs(inputs: seq<Input>) {
    forall i, j :: 0 <= i < j < |inputs| ==> inputs[i].outpoint != inputs[j].outpoint
  }

  /** The backend reports exactly the wallet's coins. */
  predicate Honest(live: map<string, int>, chain: seq<Utxo>, ours: set<string>) {
    && (forall k :: 0 <= k < |chain| && chain[k].coin.script in ours ==>
          chain[k].outpoint in live && live[chain[k].outpoint] == chain[k].coin.sat)
    && (forall o :: o in live ==> exists k :: 0 <= k < |chain| && chain[k].outpoint == o && chain[k].coin.script in ours)
  }

  /** What an input adds to the charge. */
  function ValueFor(i: Input, ours: set<string>, view: Option<map<string, int>>): int {
    if !Owns(ours, i) then 0
    else if view.Some? && i.outpoint in view.value then view.value[i.outpoint]
    else i.claim.value.sat
  }

  /** What the chain holds for the wallet at the inputs, less what they add to the charge: coins
      spent by inputs that do not claim the wallet's script, and values misreported where the
      backend does not know better. */
  function Gap(inputs: seq<Input>, ours: set<string>, view: Option<map<string, int>>, chain: seq<Utxo>): int {
    if inputs == [] then 0
    else
      var n := |inputs| - 1;
      Gap(inputs[..n], ours, view, chain) + BalanceAt(chain, {inputs[n].outpoint}, ours) - ValueFor(inputs[n], ours, view)
  }

  lemma {:induction false} BalanceJoins(a: seq<Utxo>, b: seq<Utxo>, ours: set<string>)
    ensures Balance(a + b, ours) == Balance(a, ours) + Balance(b, ours)
  {
    if a == [] {
      assert a + b == b;
    } else {
      BalanceJoins(a[1..], b, ours);
      assert (a + b)[1..] == a[1..] + b;
    }
  }

  lemma {:induction false} BalanceParts(chain: seq<Utxo>, at: set<string>, ours: set<string>)
    ensures Balance(chain, ours) == BalanceAt(chain, at, ours) + Balance(Without(chain, at), ours)
  {
    if chain != [] {
      BalanceParts(chain[1..], at, ours);
      BalanceJoins(if chain[0].outpoint in at then [] else [chain[0]], Without(chain[1..], at), ours);
    }
  }

  lemma {:induction false} BalanceAtOneMore(chain: seq<Utxo>, at: set<string>, o: string, ours: set<string>)
    requires o !in at
    ensures BalanceAt(chain, at + {o}, ours) == BalanceAt(chain, at, ours) + BalanceAt(chain, {o}, ours)
  {
    if chain != [] {
      BalanceAtOneMore(chain[1..], at, o, ours);
    }
  }

  lemma {:induction false} NothingAt(chain: seq<Utxo>, at: set<string>, ours: set<string>)
    requires forall k :: 0 <= k < |chain| && chain[k].outpoint in at ==> chain[k].coin.script !in ours
    ensures BalanceAt(chain, at, ours) == 0
  {
    if chain != [] {
      NothingAt(chain[1..], at, ours);
    }
  }

  lemma {:induction false} CoinAt(chain: seq<Utxo>, k: nat, ours: set<string>)
    requires DistinctCoins(chain) && k < |chain| && chain[k].coin.script in ours
    ensures BalanceAt(chain, {chain[k].outpoint}, ours) == chain[k].coin.sat
  {
    if k == 0 {
      NothingAt(chain[1..], {chain[0].outpoint}, ours);
    } else {
      CoinAt(chain[1..], k - 1, ours);
    }
  }

  lemma {:induction false} MintedBalance(outputs: seq<Coin>, minted: seq<Utxo>, ours: set<string>)
    requires |minted| == |outputs| && forall k :: 0 <= k < |outputs| ==> minted[k].coin == outputs[k]
    ensures Balance(minted, ours) == Total(Mine(outputs, ours))
  {
    if outputs != [] {
      var n := |outputs| - 1;
      MintedBalance(outputs[..n], minted[..n], ours);
      BalanceJoins(minted[..n], [minted[n]], ours);
      assert minted == minted[..n] + [minted[n]];
      AddedCoin(Mine(outputs[..n], ours), outputs[n], s => s);
      assert Balance([minted[n]], ours) == if outputs[n].script in ours then outputs[n].sat else 0;
    }
  }

  lemma HeldAt(chain: seq<Utxo>, o: string, ours: set<string>, live: map<string, int>)
    requires DistinctCoins(chain) && Honest(live, chain, ours)
    ensures BalanceAt(chain, {o}, ours) == if o in live then live[o] else 0
  {
    if o in live {
      var k :| 0 <= k < |chain| && chain[k].outpoint == o && chain[k].coin.script in ours;
      CoinAt(chain, k, ours);
    } else {
      NothingAt(chain, {o}, ours);
    }
  }

  lemma AddedOwned(owned: seq<Owned>, last: Owned, values: map<string, int>)
    requires last.outpoint in values && forall k :: 0 <= k < |owned| ==> owned[k].outpoint in values
    ensures forall k :: 0 <= k < |owned + [last]| ==> (owned + [last])[k].outpoint in values
    ensures InputSum(owned + [last], values) == InputSum(owned, values) + values[last.outpoint]
  {
    assert (owned + [last])[..|owned|] == owned;
  }

  /** No outpoint is spent twice, so each is reported once. */
  lemma {:induction false} ReportedOnce(inputs: seq<Input>, ours: set<string>)
    requires DistinctInputs(inputs)
    ensures forall o :: o in Reported(OwnedInputs(inputs, ours)) ==> exists k :: 0 <= k < |inputs| && inputs[k].outpoint == o
    ensures forall k :: 0 <= k < |inputs| && Owns(ours, inputs[k]) ==>
              var m := Reported(OwnedInputs(inputs, ours));
              inputs[k].outpoint in m && m[inputs[k].outpoint] == inputs[k].claim.value.sat
  {
    if inputs != [] {
      var n := |inputs| - 1;
      ReportedOnce(inputs[..n], ours);
      var before := OwnedInputs(inputs[..n], ours);
      if Owns(ours, inputs[n]) {
        var last := Owned(n, inputs[n].outpoint, inputs[n].claim.value.sat);
        assert (before + [last])[..|before|] == before;
        assert Reported(OwnedInputs(inputs, ours)) == Reported(before)[last.outpoint := last.sat];
      }
    }
  }

  /** With the inputs' values in `values`, the owned sum and the gap make up what the chain holds. */
  lemma {:induction false} SumAndGap(inputs: seq<Input>, ours: set<string>, view: Option<map<string, int>>,
                                     values: map<string, int>, chain: seq<Utxo>)
    requires DistinctInputs(inputs)
    requires forall k :: 0 <= k < |inputs| && Owns(ours, inputs[k]) ==>
               inputs[k].outpoint in values && values[inputs[k].outpoint] == ValueFor(inputs[k], ours, view)
    ensures var owned := OwnedInputs(inputs, ours);
            && (forall k :: 0 <= k < |owned| ==> owned[k].outpoint in values)
            && InputSum(owned, values) + Gap(inputs, ours, view, chain) == BalanceAt(chain, Outpoints(inputs), ours)
  {
    if inputs == [] {
      NothingAt(chain, Outpoints(inputs), ours);
    } else {
      var n := |inputs| - 1;
      var o := inputs[n].outpoint;
      SumAndGap(inputs[..n], ours, view, values, chain);
      assert Outpoints(inputs) == Outpoints(inputs[..n]) + {o} by {
        assert inputs == inputs[..n] + [inputs[n]];
      }
      BalanceAtOneMore(chain, Outpoints(inputs[..n]), o, ours);
      if Owns(ours, inputs[n]) {
        AddedOwned(OwnedInputs(inputs[..n], ours), Owned(n, o, inputs[n].claim.value.sat), values);
      }
    }
  }

  function Loss(psbt: Psbt, ours: set<string>, chain: seq<Utxo>, name: nat -> string): int {
    Balance(chain, ours) - Balance(Confirmed(chain, psbt, name), ours)
  }

  lemma LossIs(psbt: Psbt, ours: set<string>, view: Option<map<string, int>>, chain: seq<Utxo>, name: nat -> string)
    requires DistinctInputs(psbt.inputs)
    ensures Loss(psbt, ours, chain, name)
            == OwnedSat(psbt, ours, view) - Total(Mine(psbt.outputs, ours)) + Gap(psbt.inputs, ours, view, chain)
    ensures Loss(psbt, ours, chain, name) == BalanceAt(chain, Outpoints(psbt.inputs), ours) - Total(Mine(psbt.outputs, ours))
  {
    var spent := Outpoints(psbt.inputs);
    var minted := seq(|psbt.outputs|, k requires 0 <= k < |psbt.outputs| => Utxo(name(k), psbt.outputs[k]));
    ReportedOnce(psbt.inputs, ours);
    SumAndGap(psbt.inputs, ours, view, Verified(OwnedInputs(psbt.inputs, ours), view), chain);
    BalanceParts(chain, spent, ours);
    BalanceJoins(Without(chain, spent), minted, ours);
    MintedBalance(psbt.outputs, minted, ours);
  }

  /** What is charged against a loss, given the gap and the external sum. */
  predicate ChargedAgainst(r: Option<Charge>, loss: int, gap: int, change: int) {
    match r
    case None => loss - gap == -change
    case Some(c) =>
      && c.amount + c.fee == Clamp(loss - gap)
      && (c.amount + c.fee == Clamp(loss) <==> gap == 0 || (loss <= 0 && loss <= gap))
      && c.fee >= 0 && (c.amount >= 0 <==> Total(c.external) >= 0)
  }

  lemma NetAgainstGap(r: Option<Charge>, ownedSat: int, change: int, loss: int, gap: int)
    requires loss == ownedSat - change + gap
    requires r.None? ==> ownedSat == 0
    requires r.Some? ==>
               && r.value.amount + r.value.fee == Clamp(ownedSat - change)
               && r.value.amount == if Total(r.value.external) <= r.value.amount + r.value.fee
                                    then Total(r.value.external) else r.value.amount + r.value.fee
    ensures ChargedAgainst(r, loss, gap, change)
  {
  }

  /** The charge is what the wallet loses when the transaction confirms, less the gap; so it is the
      loss exactly when there is no gap, or when there is nothing to charge either way. */
  lemma ChargeIsTheLoss(psbt: Psbt, ours: set<string>, view: Option<map<string, int>>, address: string -> string,
                        feeRate: int, chain: seq<Utxo>, name: nat -> string)
    requires DistinctInputs(psbt.inputs)
    ensures ChargedAgainst(Charged(psbt, ours, view, address, feeRate), Loss(psbt, ours, chain, name),
                           Gap(psbt.inputs, ours, view, chain), Total(Mine(psbt.outputs, ours)))
  {
    LossIs(psbt, ours, view, chain, name);
    ChargedIs(psbt, ours, view, address, feeRate);
    NetAgainstGap(Charged(psbt, ours, view, address, feeRate), OwnedSat(psbt, ours, view), Total(Mine(psbt.outputs, ours)),
                  Loss(psbt, ours, chain, name), Gap(psbt.inputs, ours, view, chain));
  }

  /** A wallet that owns every input is charged what goes to others and the exact fee, at its rate. */
  lemma SoleOwnerPaysExactly(psbt: Psbt, ours: set<string>, view: Option<map<string, int>>, address: string -> string,
                             feeRate: int, leafFee: Option<int>)
    requires |OwnedInputs(psbt.inputs, ours)| == |psbt.inputs| > 0
    requires 0 <= Total(External(psbt.outputs, ours)) <= OwnedSat(psbt, ours, view) - Total(Mine(psbt.outputs, ours))
    ensures var c := Charged(psbt, ours, view, address, feeRate).value;
            && c.amount == Total(External(psbt.outputs, ours)) && c.fee == OwnedSat(psbt, ours, view) - Total(psbt.outputs)
            && RateOf(psbt, ours, view, leafFee) == c.fee / SizeOf(psbt)
  {
    ChargedIs(psbt, ours, view, address, feeRate);
    OutputsSplit(psbt.outputs, ours);
  }

  lemma {:induction false} OutputsSplit(coins: seq<Coin>, ours: set<string>)
    ensures Total(coins) == Total(Mine(coins, ours)) + Total(External(coins, ours))
  {
    if coins != [] {
      var n := |coins| - 1;
      OutputsSplit(coins[..n], ours);
      AddedCoin(if coins[n].script in ours then Mine(coins[..n], ours) else External(coins[..n], ours), coins[n], s => s);
    }
  }

  /** With a backend that knows every coin to sign for, the gap is what the wallet's unclaimed coins
      hold, so there is none exactly when every coin of the wallet that is spent is claimed. */
  lemma {:induction false} GapIsTheUnclaimed(inputs: seq<Input>, ours: set<string>, live: map<string, int>, chain: seq<Utxo>)
    requires DistinctCoins(chain) && Honest(live, chain, ours)
    requires forall o :: o in live ==> live[o] > 0
    requires forall i :: i in inputs && Owns(ours, i) ==> i.outpoint in live
    ensures Gap(inputs, ours, Some(live), chain) >= 0
    ensures Gap(inputs, ours, Some(live), chain) == 0 <==> forall i :: i in inputs && i.outpoint in live ==> Owns(ours, i)
  {
    if inputs != [] {
      var n := |inputs| - 1;
      assert inputs == inputs[..n] + [inputs[n]];
      GapIsTheUnclaimed(inputs[..n], ours, live, chain);
      HeldAt(chain, inputs[n].outpoint, ours, live);
    }
  }

  // ── several signings of one transaction ──────────────────────────────────────

  /** The same outpoints and outputs; only what the inputs claim may differ. */
  predicate SameTransaction(a: Psbt, b: Psbt) {
    && |a.inputs| == |b.inputs| && a.outputs == b.outputs
    && forall k :: 0 <= k < |a.inputs| ==> a.inputs[k].outpoint == b.inputs[k].outpoint
  }

  predicate AllSame(tx: Psbt, signings: seq<Psbt>) { forall k :: 0 <= k < |signings| ==> SameTransaction(tx, signings[k]) }

  /** What one signing charges; nothing when it is refused. */
  function ChargeOf(psbt: Psbt, ours: set<string>, view: Option<map<string, int>>): int {
    match Charged(psbt, ours, view, s => s, 0) case None => 0 case Some(c) => c.amount + c.fee
  }

  function TotalCharge(signings: seq<Psbt>, ours: set<string>, view: Option<map<string, int>>): (r: int)
    ensures r >= 0
  {
    if signings == [] then 0
    else ChargeOf(signings[0], ours, view) + TotalCharge(signings[1..], ours, view)
  }

  /** The signings that charge anything. */
  function Charging(signings: seq<Psbt>, ours: set<string>, view: Option<map<string, int>>): seq<Psbt> {
    if signings == [] then []
    else (if ChargeOf(signings[0], ours, view) > 0 then [signings[0]] else []) + Charging(signings[1..], ours, view)
  }

  function TotalGap(signings: seq<Psbt>, ours: set<string>, view: Option<map<string, int>>, chain: seq<Utxo>): int {
    if signings == [] then 0
    else Gap(signings[0].inputs, ours, view, chain) + TotalGap(signings[1..], ours, view, chain)
  }

  lemma SameLoss(a: Psbt, b: Psbt, ours: set<string>, chain: seq<Utxo>, name: nat -> string)
    requires SameTransaction(a, b)
    ensures Loss(a, ours, chain, name) == Loss(b, ours, chain, name)
    ensures DistinctInputs(a.inputs) ==> DistinctInputs(b.inputs)
  {
    assert Outpoints(a.inputs) == Outpoints(b.inputs) by {
      forall i | i in a.inputs ensures exists j :: j in b.inputs && j.outpoint == i.outpoint {
        var k :| 0 <= k < |a.inputs| && a.inputs[k] == i;
        assert b.inputs[k] in b.inputs;
      }
      forall i | i in b.inputs ensures exists j :: j in a.inputs && j.outpoint == i.outpoint {
        var k :| 0 <= k < |b.inputs| && b.inputs[k] == i;
        assert a.inputs[k] in a.inputs;
      }
    }
    assert Confirmed(chain, a, name) == Confirmed(chain, b, name);
  }

  lemma ChargeOfIs(tx: Psbt, p: Psbt, ours: set<string>, view: Option<map<string, int>>, chain: seq<Utxo>, name: nat -> string)
    requires DistinctInputs(tx.inputs) && SameTransaction(tx, p)
    ensures var net := Loss(tx, ours, chain, name) - Gap(p.inputs, ours, view, chain);
            && ChargeOf(p, ours, view) >= 0
            && (ChargeOf(p, ours, view) > 0 ==> ChargeOf(p, ours, view) == net)
            && (Total(Mine(tx.outputs, ours)) >= 0 ==> ChargeOf(p, ours, view) >= net)
  {
    SameLoss(tx, p, ours, chain, name);
    ChargeIsTheLoss(p, ours, view, s => s, 0, chain, name);
  }

  lemma {:induction false} TotalChargeIs(tx: Psbt, signings: seq<Psbt>, ours: set<string>, view: Option<map<string, int>>,
                                         chain: seq<Utxo>, name: nat -> string)
    requires DistinctInputs(tx.inputs) && AllSame(tx, signings)
    ensures var charging := Charging(signings, ours, view);
            TotalCharge(signings, ours, view) == Times(|charging|, Loss(tx, ours, chain, name)) - TotalGap(charging, ours, view, chain)
  {
    if signings != [] {
      var p, loss := signings[0], Loss(tx, ours, chain, name);
      TotalChargeIs(tx, signings[1..], ours, view, chain, name);
      assert SameTransaction(tx, p);
      ChargeOfIs(tx, p, ours, view, chain, name);
      ChargingStep(signings, ours, view, chain);
    }
  }

  lemma ChargingStep(signings: seq<Psbt>, ours: set<string>, view: Option<map<string, int>>, chain: seq<Utxo>)
    requires signings != []
    ensures var p, rest := signings[0], Charging(signings[1..], ours, view);
            if ChargeOf(p, ours, view) > 0 then
              && |Charging(signings, ours, view)| == |rest| + 1
              && TotalGap(Charging(signings, ours, view), ours, view, chain) == Gap(p.inputs, ours, view, chain) + TotalGap(rest, ours, view, chain)
            else Charging(signings, ours, view) == rest
  {
    var p, rest := signings[0], Charging(signings[1..], ours, view);
    assert ([p] + rest)[1..] == rest && [] + rest == rest;
  }

  /** A product as repeated addition. */
  function Times(n: nat, x: int): int { if n == 0 then 0 else x + Times(n - 1, x) }

  lemma {:induction false} TimesIs(n: nat, x: int)
    ensures Times(n, x) == n * x
  {
    if n > 0 {
      TimesIs(n - 1, x);
      assert n * x == (n - 1) * x + x;
    }
  }

  lemma {:induction false} TimesAdds(n: nat, x: int, y: int)
    ensures Times(n, x + y) == Times(n, x) + Times(n, y)
  {
    if n > 0 {
      TimesAdds(n - 1, x, y);
    }
  }

  /** However often one transaction is signed, and whatever each signing is told, the charges
      together cover its loss exactly when the gaps of the signings that charged add up to at most
      one loss less than there are such signings. */
  lemma SigningsCoverExactly(tx: Psbt, signings: seq<Psbt>, ours: set<string>, view: Option<map<string, int>>,
                             chain: seq<Utxo>, name: nat -> string)
    requires DistinctInputs(tx.inputs) && AllSame(tx, signings)
    ensures var charging, loss := Charging(signings, ours, view), Loss(tx, ours, chain, name);
            TotalCharge(signings, ours, view) >= loss <==>
              if charging == [] then loss <= 0 else TotalGap(charging, ours, view, chain) <= (|charging| - 1) * loss
  {
    var charging := Charging(signings, ours, view);
    TotalChargeIs(tx, signings, ours, view, chain, name);
    if charging != [] {
      TimesIs(|charging| - 1, Loss(tx, ours, chain, name));
    }
  }

  /** One signing without a gap is enough. */
  lemma {:induction false} OneFullSigningCovers(tx: Psbt, signings: seq<Psbt>, p: Psbt, ours: set<string>,
                                                view: Option<map<string, int>>, chain: seq<Utxo>, name: nat -> string)
    requires DistinctInputs(tx.inputs) && AllSame(tx, signings) && p in signings
    requires Gap(p.inputs, ours, view, chain) <= 0 <= Total(Mine(tx.outputs, ours))
    ensures TotalCharge(signings, ours, view) >= Loss(tx, ours, chain, name)
  {
    if signings[0] == p {
      ChargeOfIs(tx, p, ours, view, chain, name);
    } else {
      OneFullSigningCovers(tx, signings[1..], p, ours, view, chain, name);
    }
  }

  /** What all the signings add to the charges for input k. */
  function ClaimedAt(tx: Psbt, signings: seq<Psbt>, k: nat, ours: set<string>, view: Option<map<string, int>>): int
    requires AllSame(tx, signings) && k < |tx.inputs|
  {
    if signings == [] then 0
    else
      assert SameTransaction(tx, signings[0]);
      ValueFor(signings[0].inputs[k], ours, view) + ClaimedAt(tx, signings[1..], k, ours, view)
  }

  /** No signing is charged less than nothing for an input. */
  predicate NoneNegative(tx: Psbt, signings: seq<Psbt>, ours: set<string>, view: Option<map<string, int>>)
    requires AllSame(tx, signings)
  {
    forall j, k :: 0 <= j < |signings| && 0 <= k < |signings[j].inputs| ==> ValueFor(signings[j].inputs[k], ours, view) >= 0
  }

  lemma {:induction false} ClaimedOnce(tx: Psbt, signings: seq<Psbt>, j: nat, k: nat, ours: set<string>, view: Option<map<string, int>>)
    requires AllSame(tx, signings) && NoneNegative(tx, signings, ours, view) && k < |tx.inputs|
    ensures ClaimedAt(tx, signings, k, ours, view) >= 0
    ensures j < |signings| ==> ClaimedAt(tx, signings, k, ours, view) >= ValueFor(signings[j].inputs[k], ours, view)
  {
    if signings != [] {
      assert SameTransaction(tx, signings[0]);
      ClaimedOnce(tx, signings[1..], if j == 0 then 0 else j - 1, k, ours, view);
      assert j > 0 && j < |signings| ==> signings[1..][j - 1] == signings[j];
    }
  }

  /** The gaps of the signings over their first n inputs. */
  function GapTo(tx: Psbt, signings: seq<Psbt>, n: nat, ours: set<string>, view: Option<map<string, int>>, chain: seq<Utxo>): int
    requires AllSame(tx, signings) && n <= |tx.inputs|
  {
    if signings == [] then 0
    else
      assert SameTransaction(tx, signings[0]);
      Gap(signings[0].inputs[..n], ours, view, chain) + GapTo(tx, signings[1..], n, ours, view, chain)
  }

  lemma {:induction false} GapToNext(tx: Psbt, signings: seq<Psbt>, n: nat, ours: set<string>, view: Option<map<string, int>>, chain: seq<Utxo>)
    requires n < |tx.inputs| && AllSame(tx, signings)
    ensures GapTo(tx, signings, n + 1, ours, view, chain)
            == GapTo(tx, signings, n, ours, view, chain) + Times(|signings|, BalanceAt(chain, {tx.inputs[n].outpoint}, ours))
               - ClaimedAt(tx, signings, n, ours, view)
  {
    if signings != [] {
      var p := signings[0];
      assert SameTransaction(tx, p);
      assert p.inputs[..n + 1][..n] == p.inputs[..n];
      GapToNext(tx, signings[1..], n, ours, view, chain);
    }
  }

  lemma ClaimedEnough(tx: Psbt, signings: seq<Psbt>, k: nat, ours: set<string>, view: Option<map<string, int>>, chain: seq<Utxo>)
    requires AllSame(tx, signings) && NoneNegative(tx, signings, ours, view) && k < |tx.inputs|
    requires ClaimedSomewhere(tx, signings, k, ours, view, chain)
    ensures ClaimedAt(tx, signings, k, ours, view) >= BalanceAt(chain, {tx.inputs[k].outpoint}, ours)
  {
    var j :| 0 <= j < |signings| && ValueFor(signings[j].inputs[k], ours, view) >= BalanceAt(chain, {tx.inputs[k].outpoint}, ours);
    ClaimedOnce(tx, signings, j, k, ours, view);
  }

  lemma GapStep(n: nat, held: int, here: int, gap: int, claimed: int)
    requires gap <= Times(n, held) && claimed >= here
    ensures gap + Times(n + 1, here) - claimed <= Times(n, held + here)
  {
    TimesAdds(n, held, here);
  }

  lemma Shortfall(n: nat, loss: int, change: int, gap: int, total: int)
    requires gap <= Times(n, loss + change) && total >= Times(n + 1, loss) - gap
    ensures total >= loss - n * change
  {
    TimesAdds(n, loss, change);
    TimesIs(n, change);
  }

  lemma {:induction false} GapsBound(tx: Psbt, signings: seq<Psbt>, n: nat, ours: set<string>, view: Option<map<string, int>>, chain: seq<Utxo>)
    requires DistinctInputs(tx.inputs) && signings != [] && AllSame(tx, signings)
    requires NoneNegative(tx, signings, ours, view)
    requires forall k :: 0 <= k < |tx.inputs| ==> ClaimedSomewhere(tx, signings, k, ours, view, chain)
    requires n <= |tx.inputs|
    ensures GapTo(tx, signings, n, ours, view, chain) <= Times(|signings| - 1, BalanceAt(chain, Outpoints(tx.inputs[..n]), ours))
    decreases n
  {
    if n == 0 {
      NothingAt(chain, Outpoints(tx.inputs[..0]), ours);
      NoGapYet(tx, signings, ours, view, chain);
      TimesIs(|signings| - 1, 0);
    } else {
      GapsBound(tx, signings, n - 1, ours, view, chain);
      ClaimedEnough(tx, signings, n - 1, ours, view, chain);
      GapsBoundNext(tx, signings, n - 1, ours, view, chain);
    }
  }

  lemma GapsBoundNext(tx: Psbt, signings: seq<Psbt>, k: nat, ours: set<string>, view: Option<map<string, int>>, chain: seq<Utxo>)
    requires DistinctInputs(tx.inputs) && signings != [] && AllSame(tx, signings) && k < |tx.inputs|
    requires ClaimedAt(tx, signings, k, ours, view) >= BalanceAt(chain, {tx.inputs[k].outpoint}, ours)
    requires GapTo(tx, signings, k, ours, view, chain) <= Times(|signings| - 1, BalanceAt(chain, Outpoints(tx.inputs[..k]), ours))
    ensures GapTo(tx, signings, k + 1, ours, view, chain) <= Times(|signings| - 1, BalanceAt(chain, Outpoints(tx.inputs[..k + 1]), ours))
  {
    GapToNext(tx, signings, k, ours, view, chain);
    HeldNext(tx.inputs, k, ours, chain);
    GapStep(|signings| - 1, BalanceAt(chain, Outpoints(tx.inputs[..k]), ours), BalanceAt(chain, {tx.inputs[k].outpoint}, ours),
            GapTo(tx, signings, k, ours, view, chain), ClaimedAt(tx, signings, k, ours, view));
  }

  lemma HeldNext(inputs: seq<Input>, k: nat, ours: set<string>, chain: seq<Utxo>)
    requires DistinctInputs(inputs) && k < |inputs|
    ensures BalanceAt(chain, Outpoints(inputs[..k + 1]), ours)
            == BalanceAt(chain, Outpoints(inputs[..k]), ours) + BalanceAt(chain, {inputs[k].outpoint}, ours)
  {
    assert inputs[..k + 1] == inputs[..k] + [inputs[k]];
    assert Outpoints(inputs[..k + 1]) == Outpoints(inputs[..k]) + {inputs[k].outpoint};
    BalanceAtOneMore(chain, Outpoints(inputs[..k]), inputs[k].outpoint, ours);
  }

  lemma {:induction false} NoGapYet(tx: Psbt, signings: seq<Psbt>, ours: set<string>, view: Option<map<string, int>>, chain: seq<Utxo>)
    requires AllSame(tx, signings)
    ensures GapTo(tx, signings, 0, ours, view, chain) == 0
  {
    if signings != [] {
      NoGapYet(tx, signings[1..], ours, view, chain);
    }
  }

  lemma {:induction false} ChargesAgainstGaps(tx: Psbt, signings: seq<Psbt>, ours: set<string>, view: Option<map<string, int>>,
                                              chain: seq<Utxo>, name: nat -> string)
    requires DistinctInputs(tx.inputs) && Total(Mine(tx.outputs, ours)) >= 0
    requires AllSame(tx, signings)
    ensures TotalCharge(signings, ours, view)
            >= Times(|signings|, Loss(tx, ours, chain, name)) - GapTo(tx, signings, |tx.inputs|, ours, view, chain)
  {
    if signings != [] {
      var p := signings[0];
      assert SameTransaction(tx, p) && p.inputs[..|tx.inputs|] == p.inputs;
      ChargesAgainstGaps(tx, signings[1..], ours, view, chain, name);
      ChargeOfIs(tx, p, ours, view, chain, name);
    }
  }

  /** Some signing is charged for input k at least what the chain holds there. */
  ghost predicate ClaimedSomewhere(tx: Psbt, signings: seq<Psbt>, k: nat, ours: set<string>,
                                   view: Option<map<string, int>>, chain: seq<Utxo>)
    requires AllSame(tx, signings) && k < |tx.inputs|
  {
    exists j :: 0 <= j < |signings| && ValueFor(signings[j].inputs[k], ours, view) >= BalanceAt(chain, {tx.inputs[k].outpoint}, ours)
  }

  /** When every coin of the wallet is charged for in some signing, the charges fall short of the
      loss by at most the change, once per further signing; so without change they cover it. */
  lemma ShortfallIsTheChange(tx: Psbt, signings: seq<Psbt>, ours: set<string>, view: Option<map<string, int>>,
                             chain: seq<Utxo>, name: nat -> string)
    requires DistinctInputs(tx.inputs) && signings != [] && Total(Mine(tx.outputs, ours)) >= 0
    requires AllSame(tx, signings)
    requires NoneNegative(tx, signings, ours, view)
    requires forall k :: 0 <= k < |tx.inputs| ==> ClaimedSomewhere(tx, signings, k, ours, view, chain)
    ensures TotalCharge(signings, ours, view)
            >= Loss(tx, ours, chain, name) - (|signings| - 1) * Total(Mine(tx.outputs, ours))
  {
    var n, loss, change := |signings| - 1, Loss(tx, ours, chain, name), Total(Mine(tx.outputs, ours));
    assert tx.inputs[..|tx.inputs|] == tx.inputs;
    GapsBound(tx, signings, |tx.inputs|, ours, view, chain);
    ChargesAgainstGaps(tx, signings, ours, view, chain, name);
    LossIs(tx, ours, view, chain, name);
    Shortfall(n, loss, change, GapTo(tx, signings, |tx.inputs|, ours, view, chain), TotalCharge(signings, ours, view));
  }

  // ── the gap is real ──────────────────────────────────────────────────────────

  lemma OneInputMore(inputs: seq<Input>, last: Input, ours: set<string>, view: Option<map<string, int>>, chain: seq<Utxo>)
    ensures Gap(inputs + [last], ours, view, chain)
            == Gap(inputs, ours, view, chain) + BalanceAt(chain, {last.outpoint}, ours) - ValueFor(last, ours, view)
    ensures |OwnedInputs(inputs + [last], ours)| == |OwnedInputs(inputs, ours)| + if Owns(ours, last) then 1 else 0
  {
    assert (inputs + [last])[..|inputs|] == inputs;
  }

  lemma MineSnoc(coins: seq<Coin>, last: Coin, ours: set<string>)
    ensures Total(Mine(coins + [last], ours)) == Total(Mine(coins, ours)) + if last.script in ours then last.sat else 0
  {
    assert (coins + [last])[..|coins|] == coins;
    AddedCoin(Mine(coins, ours), last, s => s);
  }

  /** Offline, a PSBT that reports nothing for its input is charged nothing for a loss of 1000. */
  lemma UnknownCoinsTrustTheReport(o: string, w: string, x: string, name: nat -> string)
    requires w != x
    ensures var psbt := Psbt([Input(o, Some(Coin(w, 0)))], [Coin(x, 900)]);
            && OwnedInputs(psbt.inputs, {w}) != [] && ChargeOf(psbt, {w}, None) == 0
            && Loss(psbt, {w}, [Utxo(o, Coin(w, 1000))], name) == 1000
  {
    var input, chain := Input(o, Some(Coin(w, 0))), [Utxo(o, Coin(w, 1000))];
    var psbt := Psbt([input], [Coin(x, 900)]);
    OneInputMore([], input, {w}, None, chain);
    MineSnoc([], Coin(x, 900), {w});
    assert [] + [input] == psbt.inputs && [] + [Coin(x, 900)] == psbt.outputs;
    assert Outpoints(psbt.inputs) == {o};
    CoinAt(chain, 0, {w});
    LossIs(psbt, {w}, None, chain, name);
    ChargeIsTheLoss(psbt, {w}, None, s => s, 0, chain, name);
  }

  lemma TwoCoins(o: string, o': string, w: string)
    requires o != o'
    ensures var chain := [Utxo(o, Coin(w, 1000)), Utxo(o', Coin(w, 1000))];
            && BalanceAt(chain, {o}, {w}) == 1000 && BalanceAt(chain, {o'}, {w}) == 1000
            && BalanceAt(chain, {o} + {o'}, {w}) == 2000
  {
    var chain := [Utxo(o, Coin(w, 1000)), Utxo(o', Coin(w, 1000))];
    CoinAt(chain, 0, {w});
    CoinAt(chain, 1, {w});
    BalanceAtOneMore(chain, {o}, o', {w});
  }

  lemma MineOfTwo(a: Coin, b: Coin, ours: set<string>)
    requires a.script !in ours && b.script in ours
    ensures Total(Mine([a, b], ours)) == b.sat
  {
    MineSnoc([], a, ours);
    MineSnoc([a], b, ours);
    assert [] + [a] == [a] && [a] + [b] == [a, b];
  }

  lemma GapOfTwo(a: Input, b: Input, ours: set<string>, view: Option<map<string, int>>, chain: seq<Utxo>)
    ensures Gap([a, b], ours, view, chain)
            == BalanceAt(chain, {a.outpoint}, ours) - ValueFor(a, ours, view)
               + BalanceAt(chain, {b.outpoint}, ours) - ValueFor(b, ours, view)
    ensures Owns(ours, a) || Owns(ours, b) ==> OwnedInputs([a, b], ours) != []
  {
    OneInputMore([], a, ours, view, chain);
    OneInputMore([a], b, ours, view, chain);
    assert [] + [a] == [a] && [a] + [b] == [a, b];
  }

  /** Two coins of 1000, one of them claimed: charged 100 for a loss of 1100. */
  lemma HalfClaimed(a: Input, b: Input, w: string, x: string, name: nat -> string)
    requires a.outpoint != b.outpoint && w != x
    requires var claim := Some(Coin(w, 1000)); (a.claim == claim && b.claim == None) || (a.claim == None && b.claim == claim)
    ensures var psbt := Psbt([a, b], [Coin(x, 1100), Coin(w, 900)]);
            && Loss(psbt, {w}, [Utxo(a.outpoint, Coin(w, 1000)), Utxo(b.outpoint, Coin(w, 1000))], name) == 1100
            && ChargeOf(psbt, {w}, Some(map[a.outpoint := 1000, b.outpoint := 1000])) == 100
  {
    var psbt := Psbt([a, b], [Coin(x, 1100), Coin(w, 900)]);
    var view := Some(map[a.outpoint := 1000, b.outpoint := 1000]);
    var chain := [Utxo(a.outpoint, Coin(w, 1000)), Utxo(b.outpoint, Coin(w, 1000))];
    TwoCoins(a.outpoint, b.outpoint, w);
    MineOfTwo(Coin(x, 1100), Coin(w, 900), {w});
    GapOfTwo(a, b, {w}, view, chain);
    assert Outpoints(psbt.inputs) == {a.outpoint} + {b.outpoint} by {
      assert psbt.inputs[0] in psbt.inputs && psbt.inputs[1] in psbt.inputs;
    }
    LossIs(psbt, {w}, view, chain, name);
    ChargedIs(psbt, {w}, view, s => s, 0);
  }

  lemma TwoCharges(a: Psbt, b: Psbt, ours: set<string>, view: Option<map<string, int>>)
    ensures TotalCharge([a, b], ours, view) == ChargeOf(a, ours, view) + ChargeOf(b, ours, view)
  {
    assert [a, b][1..] == [b] && [b][1..] == [];
    assert TotalCharge([b], ours, view) == ChargeOf(b, ours, view);
  }

  lemma TwoCoinsAreHonest(o: string, o': string, w: string)
    requires o != o'
    ensures var chain := [Utxo(o, Coin(w, 1000)), Utxo(o', Coin(w, 1000))];
            DistinctCoins(chain) && Honest(map[o := 1000, o' := 1000], chain, {w})
  {
    var chain := [Utxo(o, Coin(w, 1000)), Utxo(o', Coin(w, 1000))];
    assert chain[0].outpoint == o && chain[1].outpoint == o';
  }

  /** An honest backend does not close the gap of an unclaimed coin: a signing that leaves one of two
      coins unsigned is charged 100 for a loss of 1100. Two such signings, each leaving the other
      coin, together sign the transaction for 200, short of the loss by the change of 900. */
  lemma UnclaimedCoinsAreNotCharged(o: string, o': string, w: string, x: string, name: nat -> string)
    requires o != o' && w != x
    ensures var outputs, view := [Coin(x, 1100), Coin(w, 900)], Some(map[o := 1000, o' := 1000]);
            var chain := [Utxo(o, Coin(w, 1000)), Utxo(o', Coin(w, 1000))];
            var claim := Some(Coin(w, 1000));
            var a, b := Psbt([Input(o, claim), Input(o', None)], outputs), Psbt([Input(o, None), Input(o', claim)], outputs);
            && DistinctCoins(chain) && Honest(view.value, chain, {w}) && DistinctInputs(a.inputs) && SameTransaction(a, b)
            && Loss(a, {w}, chain, name) == 1100
            && ChargeOf(a, {w}, view) == ChargeOf(b, {w}, view) == 100 && TotalCharge([a, b], {w}, view) == 200
  {
    var outputs, view := [Coin(x, 1100), Coin(w, 900)], Some(map[o := 1000, o' := 1000]);
    var chain := [Utxo(o, Coin(w, 1000)), Utxo(o', Coin(w, 1000))];
    var claim := Some(Coin(w, 1000));
    var a, b := Psbt([Input(o, claim), Input(o', None)], outputs), Psbt([Input(o, None), Input(o', claim)], outputs);
    HalfClaimed(a.inputs[0], a.inputs[1], w, x, name);
    HalfClaimed(b.inputs[0], b.inputs[1], w, x, name);
    TwoCharges(a, b, {w}, view);
    TwoCoinsAreHonest(o, o', w);
  }
}
