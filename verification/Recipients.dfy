/** Whom a signed PSBT may pay (internal/service/psbt.go). */
module Recipients {
  import opened Base
  import opened Outflow
  import L = Ledger
  import P = Policies
  import V = Verdicts

  // ── the recipients ───────────────────────────────────────────────────────────

  /** One recipient's check: its destination, with no amount. */
  function Leg(c: Charge, network: string, recipient: string): P.Check {
    P.Check(network, recipient, 0, 0, c.feeRate, c.changeAddr, 0)
  }

  /** The spend that is reserved: the whole charge, under the first external recipient's name. */
  function Aggregate(c: Charge, network: string, address: string -> string): P.Check {
    P.Check(network, if c.external == [] then "" else address(c.external[0].script),
            c.amount, c.fee, c.feeRate, c.changeAddr, 0)
  }

  /** The scripts in order of first appearance. */
  function Scripts(coins: seq<Coin>): seq<string> {
    if coins == [] then []
    else
      var n := |coins| - 1;
      var before := Scripts(coins[..n]);
      if coins[n].script in before then before else before + [coins[n].script]
  }

  /** The verdict on check number k, which reads the clock at readings 2k and 2k + 1. */
  function LegVerdict(p: P.Policy, c: Charge, network: string, address: string -> string, rows: seq<L.Entry>,
                      clock: nat -> int, k: nat, script: string): P.Decision {
    P.Evaluate(p, Leg(c, network, address(script)), L.SumWindow(rows, clock(2 * k), ""), clock(2 * k + 1))
  }

  function Verdicts(p: P.Policy, c: Charge, network: string, address: string -> string, scripts: seq<string>,
                    rows: seq<L.Entry>, clock: nat -> int): seq<P.Decision> {
    seq(|scripts|, k requires 0 <= k < |scripts| => LegVerdict(p, c, network, address, rows, clock, k, scripts[k]))
  }

  /** The first denial, or allowed. */
  function FirstDenial(ds: seq<P.Decision>): P.Decision {
    if ds == [] then P.Allowed else if ds[0] != P.Allowed then ds[0] else FirstDenial(ds[1..])
  }

  /** The verdict on the scripts in turn, the first denial standing. */
  function Screened(p: P.Policy, c: Charge, network: string, address: string -> string, scripts: seq<string>,
                    rows: seq<L.Entry>, clock: nat -> int): P.Decision {
    FirstDenial(Verdicts(p, c, network, address, scripts, rows, clock))
  }

  lemma {:induction false} AllAllowed(ds: seq<P.Decision>)
    ensures FirstDenial(ds) == P.Allowed <==> forall k :: 0 <= k < |ds| ==> ds[k] == P.Allowed
  {
    if ds != [] {
      AllAllowed(ds[1..]);
      assert forall k :: 0 < k < |ds| ==> ds[k] == ds[1..][k - 1];
    }
  }

  lemma {:induction false} DenialStands(ds: seq<P.Decision>, k: nat)
    requires k < |ds| && ds[k] != P.Allowed && forall j :: 0 <= j < k ==> ds[j] == P.Allowed
    ensures FirstDenial(ds) == ds[k]
  {
    if k > 0 {
      assert forall j :: 0 <= j < k ==> ds[1..][j] == ds[j + 1];
      DenialStands(ds[1..], k - 1);
    }
  }

  lemma {:induction false} ScriptsGrow(coins: seq<Coin>, i: nat)
    requires i <= |coins|
    ensures Scripts(coins[..i]) <= Scripts(coins)
    decreases |coins|
  {
    if i < |coins| {
      var n := |coins| - 1;
      assert coins[..n][..i] == coins[..i];
      ScriptsGrow(coins[..n], i);
    } else {
      assert coins[..i] == coins;
    }
  }

  lemma ScriptsNext(coins: seq<Coin>, i: nat)
    requires i < |coins|
    ensures var before, script := Scripts(coins[..i]), coins[i].script;
            && (script in before ==> Scripts(coins[..i + 1]) == before)
            && (script !in before ==>
                  Scripts(coins[..i + 1]) == before + [script] && |before| < |Scripts(coins)| && Scripts(coins)[|before|] == script)
  {
    assert coins[..i + 1][..i] == coins[..i];
    ScriptsGrow(coins, i + 1);
  }

  method CheckNext(p: P.Policy, c: Charge, network: string, address: string -> string, k: nat, script: string,
                   counter: L.Counter, clock: nat -> int) returns (d: P.Decision)
    ensures d == LegVerdict(p, c, network, address, counter.entries, clock, k, script)
  {
    var spent := counter.Sum(clock(2 * k), "");
    d := P.Judge(p, Leg(c, network, address(script)), spent, clock(2 * k + 1));
  }

  /** Checks each distinct external script once. */
  method Screen(p: P.Policy, c: Charge, network: string, address: string -> string, counter: L.Counter, clock: nat -> int)
    returns (d: P.Decision)
    ensures d == Screened(p, c, network, address, Scripts(c.external), counter.entries, clock)
  {
    hide P.Evaluate;
    var seen := [];
    ghost var all := Verdicts(p, c, network, address, Scripts(c.external), counter.entries, clock);
    for i := 0 to |c.external|
      invariant seen == Scripts(c.external[..i]) && |seen| <= |all|
      invariant forall k :: 0 <= k < |seen| ==> all[k] == P.Allowed
    {
      var script := c.external[i].script;
      ScriptsNext(c.external, i);
      if script in seen {
        continue;
      }
      d := CheckNext(p, c, network, address, |seen|, script, counter, clock);
      if d != P.Allowed {
        DenialStands(all, |seen|);
        return;
      }
      seen := seen + [script];
    }
    assert c.external[..|c.external|] == c.external;
    AllAllowed(all);
    d := P.Allowed;
  }

  lemma VerdictSplits(p: P.Policy, req: P.Check, spent: int, now: int)
    requires req.priorSpent == 0 && req.amount + req.fee >= 0
    ensures P.Evaluate(p, req, spent, now) == P.Allowed <==>
              V.MayPay(p, req.network, req.recipient, req.changeAddr)
              && V.FitsCaps(p, req.network, req.amount + req.fee, req.feeRate, spent)
  {
    V.VerdictFromText(p, req, spent, now);
  }

  lemma {:induction false} ScriptsCover(coins: seq<Coin>, s: string)
    ensures s in Scripts(coins) <==> exists c :: c in coins && c.script == s
  {
    if coins != [] {
      var n := |coins| - 1;
      ScriptsCover(coins[..n], s);
      assert coins == coins[..n] + [coins[n]];
    }
  }

  lemma ScreenedExactly(p: P.Policy, c: Charge, network: string, address: string -> string, scripts: seq<string>,
                        rows: seq<L.Entry>, clock: nat -> int)
    ensures Screened(p, c, network, address, scripts, rows, clock) == P.Allowed <==>
              forall k :: 0 <= k < |scripts| ==>
                && V.MayPay(p, network, address(scripts[k]), c.changeAddr)
                && V.FitsCaps(p, network, 0, c.feeRate, L.SumWindow(rows, clock(2 * k), ""))
  {
    var all := Verdicts(p, c, network, address, scripts, rows, clock);
    AllAllowed(all);
    forall k | 0 <= k < |scripts|
      ensures all[k] == P.Allowed <==>
                && V.MayPay(p, network, address(scripts[k]), c.changeAddr)
                && V.FitsCaps(p, network, 0, c.feeRate, L.SumWindow(rows, clock(2 * k), ""))
    {
      VerdictSplits(p, Leg(c, network, address(scripts[k])), L.SumWindow(rows, clock(2 * k), ""), clock(2 * k + 1));
    }
  }

  /** Past the screen, every external output pays a destination the lists let pass. */
  lemma ScreenedPaysOnlyAllowed(p: P.Policy, c: Charge, network: string, address: string -> string,
                                rows: seq<L.Entry>, clock: nat -> int, out: Coin)
    requires Screened(p, c, network, address, Scripts(c.external), rows, clock) == P.Allowed && out in c.external
    ensures V.MayPay(p, network, address(out.script), c.changeAddr)
  {
    var scripts := Scripts(c.external);
    ScriptsCover(c.external, out.script);
    ScreenedExactly(p, c, network, address, scripts, rows, clock);
    var k :| 0 <= k < |scripts| && scripts[k] == out.script;
  }

  /** While no row ages out, screen and reservation together allow exactly the spends whose every
      external destination the lists let pass and whose whole charge fits the caps. */
  lemma AllowedExactly(p: P.Policy, c: Charge, network: string, address: string -> string,
                       rows: seq<L.Entry>, clock: nat -> int, spent: int, now: int)
    requires c.amount + c.fee >= 0
    requires forall k :: L.SumWindow(rows, clock(k), "") == spent
    ensures (&& Screened(p, c, network, address, Scripts(c.external), rows, clock) == P.Allowed
             && P.Evaluate(p, Aggregate(c, network, address), spent, now) == P.Allowed)
            <==>
            (&& (forall out :: out in c.external ==> V.MayPay(p, network, address(out.script), c.changeAddr))
             && (c.external == [] ==> V.MayPay(p, network, "", c.changeAddr))
             && V.FitsCaps(p, network, c.amount + c.fee, c.feeRate, spent))
  {
    hide P.Evaluate, V.MayPay;
    var scripts := Scripts(c.external);
    ScreenedExactly(p, c, network, address, scripts, rows, clock);
    VerdictSplits(p, Aggregate(c, network, address), spent, now);
    forall out | out in c.external ensures out.script in scripts {
      ScriptsCover(c.external, out.script);
    }
    forall k | 0 <= k < |scripts| ensures exists out :: out in c.external && out.script == scripts[k] {
      ScriptsCover(c.external, scripts[k]);
    }
  }

  /** Under an allowlist, a PSBT with no external output, or with one whose script has no address, is
      refused, whatever the change address: only an empty entry in the lists could let it pass. */
  lemma NamelessIsRefused(p: P.Policy, c: Charge, network: string, address: string -> string,
                          rows: seq<L.Entry>, clock: nat -> int, spent: int, now: int)
    requires V.Governing(p, network).allowlist == Some(true) && c.amount + c.fee >= 0
    requires forall pin :: pin in p.allowlist ==> pin.address != ""
    requires "" !in p.selfAddresses
    requires c.external == [] || exists out :: out in c.external && address(out.script) == ""
    ensures Screened(p, c, network, address, Scripts(c.external), rows, clock) != P.Allowed
            || P.Evaluate(p, Aggregate(c, network, address), spent, now) != P.Allowed
  {
    assert !V.MayPay(p, network, "", c.changeAddr);
    if c.external == [] {
      VerdictSplits(p, Aggregate(c, network, address), spent, now);
    } else if Screened(p, c, network, address, Scripts(c.external), rows, clock) == P.Allowed {
      var out :| out in c.external && address(out.script) == "";
      ScreenedPaysOnlyAllowed(p, c, network, address, rows, clock, out);
    }
  }

  // ── the PSBT as it stands ────────────────────────────────────────────────────

  /** The lists let every output pass that is not the wallet's, given the change address. */
  predicate PaysOnlyPermitted(p: P.Policy, network: string, psbt: Psbt, ours: set<string>, address: string -> string, change: string) {
    forall out :: out in psbt.outputs && out.script !in ours ==> V.MayPay(p, network, address(out.script), change)
  }

  predicate PaysNobodyElse(psbt: Psbt, ours: set<string>) { forall out :: out in psbt.outputs ==> out.script in ours }

  lemma PermittedIs(p: P.Policy, network: string, psbt: Psbt, ours: set<string>, address: string -> string, c: Charge)
    requires c.external == External(psbt.outputs, ours)
    ensures PaysOnlyPermitted(p, network, psbt, ours, address, c.changeAddr) <==>
              forall out :: out in c.external ==> V.MayPay(p, network, address(out.script), c.changeAddr)
    ensures PaysNobodyElse(psbt, ours) <==> c.external == []
  {
    forall out ensures out in c.external <==> out in psbt.outputs && out.script !in ours {
      ExternalIs(psbt.outputs, ours, out);
    }
    if c.external != [] {
      assert c.external[0] in c.external;
    }
  }
}
