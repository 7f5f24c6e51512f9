/** What signing a PSBT charges the wallet (internal/service/psbt.go, psbt_helpers.go). */
module Outflow {
  import opened Base
  import VSize

  /** A script stands for its bytes. */
  datatype Coin = Coin(script: string, sat: int)

  /** `claim` is the spent output as the PSBT reports it, if it does. */
  datatype Input = Input(outpoint: string, claim: Option<Coin>)

  datatype Psbt = Psbt(inputs: seq<Input>, outputs: seq<Coin>)

  /** An input to sign. */
  datatype Owned = Owned(index: nat, outpoint: string, sat: int)

  /** What the policy is asked to allow. */
  datatype Charge = Charge(amount: int, fee: int, feeRate: int, changeAddr: string, external: seq<Coin>)

  // ── inputs ───────────────────────────────────────────────────────────────────

  predicate Owns(ours: set<string>, i: Input) { i.claim.Some? && i.claim.value.script in ours }

  function OwnedInputs(inputs: seq<Input>, ours: set<string>): seq<Owned> {
    if inputs == [] then []
    else
      var n := |inputs| - 1;
      var before := OwnedInputs(inputs[..n], ours);
      if Owns(ours, inputs[n]) then before + [Owned(n, inputs[n].outpoint, inputs[n].claim.value.sat)] else before
  }

  method FindOwned(inputs: seq<Input>, ours: set<string>) returns (owned: seq<Owned>)
    ensures owned == OwnedInputs(inputs, ours)
  {
    owned := [];
    for i := 0 to |inputs|
      invariant owned == OwnedInputs(inputs[..i], ours)
    {
      assert inputs[..i + 1][..i] == inputs[..i];
      if inputs[i].claim.None? {
        continue;
      }
      if inputs[i].claim.value.script !in ours {
        continue;
      }
      owned := owned + [Owned(i, inputs[i].outpoint, inputs[i].claim.value.sat)];
    }
    assert inputs[..|inputs|] == inputs;
  }

  /** The values the PSBT reports; of two inputs spending one outpoint the later counts. */
  function Reported(owned: seq<Owned>): map<string, int> {
    if owned == [] then map[]
    else
      var n := |owned| - 1;
      Reported(owned[..n])[owned[n].outpoint := owned[n].sat]
  }

  /** The backend's values where it knows the coin, the reported ones elsewhere. */
  function Verified(owned: seq<Owned>, view: Option<map<string, int>>): map<string, int> {
    map o | o in Reported(owned) :: if view.Some? && o in view.value then view.value[o] else Reported(owned)[o]
  }

  lemma {:induction false} ReportedKeys(owned: seq<Owned>)
    ensures forall o :: o in Reported(owned) <==> exists k :: 0 <= k < |owned| && owned[k].outpoint == o
  {
    if owned != [] {
      ReportedKeys(owned[..|owned| - 1]);
    }
  }

  method VerifyOwnedValues(owned: seq<Owned>, view: Option<map<string, int>>) returns (out: map<string, int>)
    ensures out == Verified(owned, view)
  {
    out := map[];
    for i := 0 to |owned|
      invariant out == Reported(owned[..i])
    {
      assert owned[..i + 1][..i] == owned[..i];
      out := out[owned[i].outpoint := owned[i].sat];
    }
    assert owned[..|owned|] == owned;
    if view.None? {
      return;
    }
    ReportedKeys(owned);
    out := Overlay(owned, out, view.value);
  }

  /** Replaces the reported values by the backend's, where it has one. */
  method Overlay(owned: seq<Owned>, reported: map<string, int>, live: map<string, int>) returns (out: map<string, int>)
    requires forall o :: o in reported <==> exists k :: 0 <= k < |owned| && owned[k].outpoint == o
    ensures out == map o | o in reported :: if o in live then live[o] else reported[o]
  {
    out := reported;
    for i := 0 to |owned|
      invariant out.Keys == reported.Keys
      invariant forall o :: o in out ==> out[o] == reported[o] || (o in live && out[o] == live[o])
      invariant forall k :: 0 <= k < i && owned[k].outpoint in live ==> out[owned[k].outpoint] == live[owned[k].outpoint]
    {
      var o := owned[i].outpoint;
      if o in live {
        out := out[o := live[o]];
      }
    }
  }

  function InputSum(owned: seq<Owned>, values: map<string, int>): int
    requires forall k :: 0 <= k < |owned| ==> owned[k].outpoint in values
  {
    if owned == [] then 0
    else
      var n := |owned| - 1;
      InputSum(owned[..n], values) + values[owned[n].outpoint]
  }

  function OwnedSat(psbt: Psbt, ours: set<string>, view: Option<map<string, int>>): int {
    var owned := OwnedInputs(psbt.inputs, ours);
    ReportedKeys(owned);
    InputSum(owned, Verified(owned, view))
  }

  // ── outputs ──────────────────────────────────────────────────────────────────

  function Total(coins: seq<Coin>): int {
    if coins == [] then 0 else Total(coins[..|coins| - 1]) + coins[|coins| - 1].sat
  }

  function Mine(coins: seq<Coin>, ours: set<string>): seq<Coin> {
    if coins == [] then []
    else
      var n := |coins| - 1;
      if coins[n].script in ours then Mine(coins[..n], ours) + [coins[n]] else Mine(coins[..n], ours)
  }

  function External(coins: seq<Coin>, ours: set<string>): seq<Coin> {
    if coins == [] then []
    else
      var n := |coins| - 1;
      if coins[n].script in ours then External(coins[..n], ours) else External(coins[..n], ours) + [coins[n]]
  }

  lemma {:induction false} ExternalIs(coins: seq<Coin>, ours: set<string>, c: Coin)
    ensures c in External(coins, ours) <==> c in coins && c.script !in ours
  {
    if coins != [] {
      var n := |coins| - 1;
      ExternalIs(coins[..n], ours, c);
      assert coins == coins[..n] + [coins[n]];
    }
  }

  /** The first address that renders. */
  function FirstName(coins: seq<Coin>, address: string -> string): string {
    if coins == [] then ""
    else
      var before := FirstName(coins[..|coins| - 1], address);
      if before != "" then before else address(coins[|coins| - 1].script)
  }

  lemma AddedCoin(coins: seq<Coin>, c: Coin, address: string -> string)
    ensures Total(coins + [c]) == Total(coins) + c.sat
    ensures FirstName(coins + [c], address) == if FirstName(coins, address) != "" then FirstName(coins, address) else address(c.script)
  {
    assert (coins + [c])[..|coins|] == coins;
  }

  method Classify(outputs: seq<Coin>, ours: set<string>, address: string -> string)
    returns (changeBack: int, externalOut: int, changeAddr: string, external: seq<Coin>)
    ensures changeBack == Total(Mine(outputs, ours))
    ensures external == External(outputs, ours) && externalOut == Total(external)
    ensures changeAddr == FirstName(Mine(outputs, ours), address)
  {
    changeBack, externalOut, changeAddr, external := 0, 0, "", [];
    for i := 0 to |outputs|
      invariant changeBack == Total(Mine(outputs[..i], ours))
      invariant external == External(outputs[..i], ours) && externalOut == Total(external)
      invariant changeAddr == FirstName(Mine(outputs[..i], ours), address)
    {
      var out := outputs[i];
      assert outputs[..i + 1][..i] == outputs[..i] && outputs[..i + 1][i] == out;
      if out.script in ours {
        AddedCoin(Mine(outputs[..i], ours), out, address);
        assert Mine(outputs[..i + 1], ours) == Mine(outputs[..i], ours) + [out];
        changeBack := changeBack + out.sat;
        if changeAddr == "" {
          changeAddr := address(out.script);
        }
        continue;
      }
      AddedCoin(external, out, address);
      externalOut := externalOut + out.sat;
      external := external + [out];
    }
    assert outputs[..|outputs|] == outputs;
  }

  // ── the charge ───────────────────────────────────────────────────────────────

  function Clamp(x: int): int { if x < 0 then 0 else x }

  function SizeOf(psbt: Psbt): int {
    var first := if psbt.outputs == [] then 0 else VSize.OutputVBytes(|psbt.outputs[0].script|);
    VSize.EstimateVSizeOut(|psbt.inputs|, first, Clamp(|psbt.outputs| - 1))
  }

  /** `leafFee` is the fee the PSBT library computes from the reported values, if it can. */
  function FeeRate(psbt: Psbt, ownedSat: int, changeBack: int, externalOut: int, allOwned: bool, leafFee: Option<int>): int {
    var fee :=
      if allOwned then Clamp(ownedSat - changeBack - externalOut)
      else if leafFee.Some? && leafFee.value >= 0 then leafFee.value
      else Clamp(ownedSat - changeBack);
    if SizeOf(psbt) <= 0 then 0 else fee / SizeOf(psbt)
  }

  /** The wallet's net outflow, split into what goes to others, as far as it reaches, and the rest. */
  function Split(ownedSat: int, changeBack: int, externalOut: int): (int, int) {
    var net := Clamp(ownedSat - changeBack);
    var amount := if externalOut > net then net else externalOut;
    (amount, net - amount)
  }

  /** None when the wallet owns no input. */
  function Charged(psbt: Psbt, ours: set<string>, view: Option<map<string, int>>, address: string -> string,
                   feeRate: int): Option<Charge> {
    var owned, ownedSat := OwnedInputs(psbt.inputs, ours), OwnedSat(psbt, ours, view);
    var mine, external := Mine(psbt.outputs, ours), External(psbt.outputs, ours);
    var (amount, fee) := Split(ownedSat, Total(mine), Total(external));
    if owned == [] then None
    else Some(Charge(amount, fee, feeRate, FirstName(mine, address), external))
  }

  /** The fee rate the PSBT is charged at. */
  function RateOf(psbt: Psbt, ours: set<string>, view: Option<map<string, int>>, leafFee: Option<int>): int {
    FeeRate(psbt, OwnedSat(psbt, ours, view), Total(Mine(psbt.outputs, ours)), Total(External(psbt.outputs, ours)),
            |OwnedInputs(psbt.inputs, ours)| == |psbt.inputs|, leafFee)
  }

  method EstimateSize(psbt: Psbt) returns (vsize: int)
    ensures vsize == SizeOf(psbt)
  {
    var recipient, extra := 0, 0;
    for i := 0 to |psbt.outputs|
      invariant extra == Clamp(i - 1)
      invariant recipient == if i == 0 then 0 else VSize.OutputVBytes(|psbt.outputs[0].script|)
    {
      if i == 0 {
        recipient := VSize.OutputVBytes(|psbt.outputs[i].script|);
      } else {
        extra := extra + 1;
      }
    }
    vsize := VSize.EstimateVSizeOut(|psbt.inputs|, recipient, extra);
  }

  method EstimateFeeRate(psbt: Psbt, ownedSat: int, changeBack: int, externalOut: int, allOwned: bool,
                         leafFee: Option<int>) returns (rate: int)
    ensures rate == FeeRate(psbt, ownedSat, changeBack, externalOut, allOwned, leafFee)
  {
    var vsize := EstimateSize(psbt);
    if vsize <= 0 {
      return 0;
    }
    if allOwned {
      return Clamp(ownedSat - changeBack - externalOut) / vsize;
    }
    if leafFee.Some? && leafFee.value >= 0 {
      return leafFee.value / vsize;
    }
    return Clamp(ownedSat - changeBack) / vsize;
  }

  method SumOwned(owned: seq<Owned>, verified: map<string, int>) returns (total: int)
    requires forall k :: 0 <= k < |owned| ==> owned[k].outpoint in verified
    ensures total == InputSum(owned, verified)
  {
    total := 0;
    for i := 0 to |owned|
      invariant total == InputSum(owned[..i], verified)
    {
      assert owned[..i + 1][..i] == owned[..i];
      total := total + verified[owned[i].outpoint];
    }
    assert owned[..|owned|] == owned;
  }

  method SplitOutflow(ownedSat: int, changeBack: int, externalOut: int) returns (amount: int, fee: int)
    ensures (amount, fee) == Split(ownedSat, changeBack, externalOut)
  {
    var netOut := ownedSat - changeBack;
    if netOut < 0 {
      netOut := 0;
    }
    amount := externalOut;
    if amount > netOut {
      amount := netOut;
    }
    fee := netOut - amount;
  }

  /** Finds what the wallet owns, values it, sorts the outputs and splits the net outflow. */
  method DeriveCharge(psbt: Psbt, ours: set<string>, view: Option<map<string, int>>, address: string -> string,
                      leafFee: Option<int>) returns (r: Option<Charge>)
    ensures r == Charged(psbt, ours, view, address, RateOf(psbt, ours, view, leafFee))
  {
    var owned := FindOwned(psbt.inputs, ours);
    if owned == [] {
      return None;
    }
    var verified := VerifyOwnedValues(owned, view);
    ReportedKeys(owned);
    var ownedSat := SumOwned(owned, verified);
    var changeBack, externalOut, changeAddr, external := Classify(psbt.outputs, ours, address);
    var amount, fee := SplitOutflow(ownedSat, changeBack, externalOut);
    var feeRate := EstimateFeeRate(psbt, ownedSat, changeBack, externalOut, |owned| == |psbt.inputs|, leafFee);
    return Some(Charge(amount, fee, feeRate, changeAddr, external));
  }

  lemma SplitIs(ownedSat: int, changeBack: int, externalOut: int)
    ensures var (amount, fee) := Split(ownedSat, changeBack, externalOut);
            amount + fee == Clamp(ownedSat - changeBack) && amount == if externalOut <= amount + fee then externalOut else amount + fee
  {
  }

  lemma NothingOwned(psbt: Psbt, ours: set<string>, view: Option<map<string, int>>)
    ensures OwnedInputs(psbt.inputs, ours) == [] ==> OwnedSat(psbt, ours, view) == 0
  {
  }

  lemma ChargedIs(psbt: Psbt, ours: set<string>, view: Option<map<string, int>>, address: string -> string, feeRate: int)
    ensures match Charged(psbt, ours, view, address, feeRate)
            case None => OwnedSat(psbt, ours, view) == 0
            case Some(c) =>
              && c.amount + c.fee == Clamp(OwnedSat(psbt, ours, view) - Total(Mine(psbt.outputs, ours)))
              && c.external == External(psbt.outputs, ours)
              && c.amount == if Total(c.external) <= c.amount + c.fee then Total(c.external) else c.amount + c.fee
  {
    SplitIs(OwnedSat(psbt, ours, view), Total(Mine(psbt.outputs, ours)), Total(External(psbt.outputs, ours)));
    NothingOwned(psbt, ours, view);
  }

  /** The first address that renders among the wallet's own outputs, "" when none does. */
  ghost predicate NamesChange(outputs: seq<Coin>, ours: set<string>, address: string -> string, change: string) {
    if change == "" then forall out :: out in outputs && out.script in ours ==> address(out.script) == ""
    else exists k :: 0 <= k < |outputs| && IsChangeAt(outputs, ours, address, change, k)
  }

  predicate IsChangeAt(outputs: seq<Coin>, ours: set<string>, address: string -> string, change: string, k: nat)
    requires k < |outputs|
  {
    && outputs[k].script in ours && address(outputs[k].script) == change
    && forall j :: 0 <= j < k && outputs[j].script in ours ==> address(outputs[j].script) == ""
  }

  lemma {:induction false} FirstNameIsChange(outputs: seq<Coin>, ours: set<string>, address: string -> string)
    ensures NamesChange(outputs, ours, address, FirstName(Mine(outputs, ours), address))
  {
    if outputs != [] {
      var n := |outputs| - 1;
      var front, before := outputs[..n], FirstName(Mine(outputs[..n], ours), address);
      FirstNameIsChange(front, ours, address);
      AddedCoin(Mine(front, ours), outputs[n], address);
      if before != "" {
        var k :| 0 <= k < |front| && IsChangeAt(front, ours, address, before, k);
        assert IsChangeAt(outputs, ours, address, before, k);
      } else {
        forall j | 0 <= j < n && outputs[j].script in ours ensures address(outputs[j].script) == "" {
          assert front[j] in front;
        }
        if outputs[n].script in ours {
          assert IsChangeAt(outputs, ours, address, address(outputs[n].script), n);
        }
      }
    }
  }

  /** There is a charge exactly when some input claims a script of the wallet's, and its change address is
      the wallet's own. */
  lemma ChargeNamesOwn(psbt: Psbt, ours: set<string>, view: Option<map<string, int>>, address: string -> string, feeRate: int)
    ensures var r := Charged(psbt, ours, view, address, feeRate);
            && (r.Some? <==> exists i :: i in psbt.inputs && i.claim.Some? && i.claim.value.script in ours)
            && (r.Some? ==> NamesChange(psbt.outputs, ours, address, r.value.changeAddr) && r.value.feeRate == feeRate)
  {
    OwnedIfClaimed(psbt.inputs, ours);
    FirstNameIsChange(psbt.outputs, ours, address);
  }

  lemma {:induction false} OwnedIfClaimed(inputs: seq<Input>, ours: set<string>)
    ensures OwnedInputs(inputs, ours) != [] <==> exists i :: i in inputs && i.claim.Some? && i.claim.value.script in ours
    ensures |OwnedInputs(inputs, ours)| <= |inputs|
    ensures |OwnedInputs(inputs, ours)| == |inputs| <==> forall i :: i in inputs ==> i.claim.Some? && i.claim.value.script in ours
  {
    if inputs != [] {
      var n := |inputs| - 1;
      OwnedIfClaimed(inputs[..n], ours);
      assert inputs == inputs[..n] + [inputs[n]];
    }
  }

  /** The size in numbers: so many P2WPKH inputs, the first output as it is and the others as P2WPKH outputs. */
  lemma SizeInNumbers(psbt: Psbt)
    ensures SizeOf(psbt) == 11 + 68 * |psbt.inputs|
                            + if psbt.outputs == [] then 31
                              else
                                var script := |psbt.outputs[0].script|;
                                var counter := if script < 253 then 1 else if script < 0x1_0000 then 3 else if script < 0x1_0000_0000 then 5 else 9;
                                8 + counter + script + 31 * (|psbt.outputs| - 1)
  {
  }

  /** The fee rate in numbers: what the inputs are worth over what the outputs take when the wallet owns every
      input, else the library's fee where it has one, else the wallet's own loss; never below nothing. */
  lemma RateInNumbers(psbt: Psbt, ours: set<string>, view: Option<map<string, int>>, leafFee: Option<int>)
    ensures var own, others := OwnedSat(psbt, ours, view) - Total(Mine(psbt.outputs, ours)), Total(External(psbt.outputs, ours));
            var allOwned := forall i :: i in psbt.inputs ==> i.claim.Some? && i.claim.value.script in ours;
            var fee := if allOwned then own - others else if leafFee.Some? && leafFee.value >= 0 then leafFee.value else own;
            SizeOf(psbt) > 0 && RateOf(psbt, ours, view, leafFee) == (if fee < 0 then 0 else fee) / SizeOf(psbt)
  {
    hide SizeOf, OwnedSat, Total, Mine, External;
    SizeInNumbers(psbt);
    OwnedIfClaimed(psbt.inputs, ours);
  }
}
