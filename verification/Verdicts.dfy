/** The verdict on a spend, read off the text of the policy (internal/policy/evaluate.go). */
module Verdicts {
  import opened Base
  import P = Policies

  // ── what the text says ───────────────────────────────────────────────────────

  /** The first rule for a network, letters of either case alike. */
  function RuleFor(networks: seq<P.NetworkRule>, network: string): Option<P.Limits> {
    if networks == [] then None
    else if SameButCase(networks[0].network, network) then Some(networks[0].limits)
    else RuleFor(networks[1..], network)
  }

  /** The rule's text if it has one, else the default's. */
  function InForce<T>(rule: Option<T>, otherwise: Option<T>): Option<T> { if rule.Some? then rule else otherwise }

  datatype Texts = Texts(maxTx: Option<string>, maxDay: Option<string>, maxFeeRate: Option<string>,
                         allowlist: Option<bool>, includeSelf: Option<bool>)

  /** The texts that govern a network. */
  function Governing(p: P.Policy, network: string): Texts {
    var d := p.defaults;
    match RuleFor(p.networks, network)
    case None => Texts(d.maxTx, d.maxDay, d.maxFeeRate, d.allowlistOn, d.includeSelf)
    case Some(r) => Texts(InForce(r.maxTx, d.maxTx), InForce(r.maxDay, d.maxDay), InForce(r.maxFeeRate, d.maxFeeRate),
                          InForce(r.allowlistOn, d.allowlistOn), InForce(r.includeSelf, d.includeSelf))
  }

  /** A number is within a cap's text: an absent or null one lets everything pass, and a text that is
      no number nothing above zero. */
  predicate Within(cap: Option<string>, x: int) {
    if cap.None? || cap.value == P.NULL_SENTINEL then true
    else
      var s := cap.value;
      if s != "" && AllDigits(s) then x <= Decimal(s)
      else if |s| > 1 && s[0] == '+' && AllDigits(s[1..]) then x <= Decimal(s[1..])
      else if |s| > 1 && s[0] == '-' && AllDigits(s[1..]) then x + Decimal(s[1..]) <= 0
      else x <= 0
  }

  predicate Listed(pins: seq<P.Pin>, dest: string) {
    exists i :: 0 <= i < |pins| && pins[i].source == "address" && SameButCase(pins[i].address, dest)
  }

  predicate Owned(p: P.Policy, dest: string) { exists i :: 0 <= i < |p.selfAddresses| && SameButCase(p.selfAddresses[i], dest) }

  /** The lists let the destination pass, given the spend's own change address. */
  predicate MayPay(p: P.Policy, network: string, dest: string, changeAddr: string) {
    var t := Governing(p, network);
    && !Listed(p.denylist, dest)
    && (t.allowlist == Some(true) ==>
          || Listed(p.allowlist, dest)
          || (changeAddr != "" && SameButCase(changeAddr, dest))
          || (t.includeSelf == Some(true) && Owned(p, dest)))
  }

  /** The caps let this much pass on top of what the window holds. */
  predicate FitsCaps(p: P.Policy, network: string, sat: int, feeRate: int, spent: int) {
    var t := Governing(p, network);
    Within(t.maxTx, sat) && Within(t.maxDay, spent + sat) && Within(t.maxFeeRate, feeRate)
  }

  function Charge(req: P.Check): int {
    var v := req.amount + req.fee - req.priorSpent;
    if v < 0 then 0 else v
  }

  // ── the verdict says the same ────────────────────────────────────────────────

  lemma {:induction false} ResolvedIs(r: P.Resolved, networks: seq<P.NetworkRule>, network: string)
    ensures P.ResolveFrom(r, networks, network)
            == match RuleFor(networks, network) case None => r case Some(l) => P.ApplyRule(r, l)
  {
    if networks != [] {
      FoldingIsCaseOnly(networks[0].network, network);
      ResolvedIs(r, networks[1..], network);
    }
  }

  lemma CapIsWithin(cap: Option<string>, x: int)
    ensures Within(cap, x) <==> (P.ParseSat(cap).Some? ==> x <= P.ParseSat(cap).value)
  {
    if cap.Some? && cap.value != "" && cap.value[0] in {'+', '-'} {
      assert !IsDigit(cap.value[0]);
    }
  }

  lemma ListedIsPinned(pins: seq<P.Pin>, dest: string)
    ensures Listed(pins, dest) <==> P.Pinned(pins, dest)
  {
    forall i | 0 <= i < |pins| ensures EqualFold(pins[i].address, dest) <==> SameButCase(pins[i].address, dest) {
      FoldingIsCaseOnly(pins[i].address, dest);
    }
  }

  lemma OwnedIsSelf(p: P.Policy, req: P.Check)
    ensures P.OwnChange(req) <==> req.changeAddr != "" && SameButCase(req.changeAddr, req.recipient)
    ensures P.IsSelf(p, req) <==> P.OwnChange(req) || Owned(p, req.recipient)
  {
    FoldingIsCaseOnly(req.changeAddr, req.recipient);
    forall i | 0 <= i < |p.selfAddresses|
      ensures EqualFold(p.selfAddresses[i], req.recipient) <==> SameButCase(p.selfAddresses[i], req.recipient)
    {
      FoldingIsCaseOnly(p.selfAddresses[i], req.recipient);
    }
  }

  lemma LimitsFromText(p: P.Policy, network: string)
    ensures var t, lim := Governing(p, network), P.ResolveLimits(p, network);
            && lim.maxTx == P.ParseSat(t.maxTx) && lim.maxDay == P.ParseSat(t.maxDay) && lim.maxFeeRate == P.ParseSat(t.maxFeeRate)
            && lim.allowlistOn == (t.allowlist == Some(true)) && lim.includeSelf == (t.includeSelf == Some(true))
  {
    ResolvedIs(P.DefaultLimits(p.defaults), p.networks, network);
  }

  /** The verdict, gate by gate, in the words of the policy: denied destinations, destinations not on
      an allowlist that is on, and amounts over the caps' texts, in this order. */
  lemma VerdictFromText(p: P.Policy, req: P.Check, spent: int, now: int)
    ensures var t, v := Governing(p, req.network), P.Evaluate(p, req, spent, now);
            var paysOk := MayPay(p, req.network, req.recipient, req.changeAddr);
            var sat, day := req.amount + req.fee, spent + Charge(req);
            && (v.Denylisted? <==> Listed(p.denylist, req.recipient))
            && (v.NotAllowlisted? <==> !paysOk && !Listed(p.denylist, req.recipient))
            && (v.OverTxLimit? <==> paysOk && !Within(t.maxTx, sat))
            && (v.OverDayLimit? <==> paysOk && Within(t.maxTx, sat) && !Within(t.maxDay, day))
            && (v.OverFeeRate? <==> paysOk && Within(t.maxTx, sat) && Within(t.maxDay, day) && !Within(t.maxFeeRate, req.feeRate))
            && (v == P.Allowed <==> paysOk && Within(t.maxTx, sat) && Within(t.maxDay, day) && Within(t.maxFeeRate, req.feeRate))
  {
    LimitsFromText(p, req.network);
    ListedIsPinned(p.denylist, req.recipient);
    ListedIsPinned(p.allowlist, req.recipient);
    OwnedIsSelf(p, req);
    var t := Governing(p, req.network);
    CapIsWithin(t.maxTx, req.amount + req.fee);
    CapIsWithin(t.maxDay, spent + Charge(req));
    CapIsWithin(t.maxFeeRate, req.feeRate);
  }

  /** What a denial reports. */
  lemma DenialFromText(p: P.Policy, req: P.Check, spent: int, now: int, s: string)
    requires s != "" && AllDigits(s) && s != P.NULL_SENTINEL
    ensures var t := Governing(p, req.network);
            match P.Evaluate(p, req, spent, now)
            case Allowed => true
            case Denylisted(a) => a == req.recipient
            case NotAllowlisted(a, own) => a == req.recipient && own == (t.includeSelf == Some(true))
            case OverTxLimit(limit, attempted) =>
              attempted == req.amount + req.fee > limit && (t.maxTx == Some(s) ==> limit == Decimal(s))
            case OverDayLimit(limit, used, attempted, retry) =>
              && used == spent && attempted == Charge(req) && used + attempted > limit && (t.maxDay == Some(s) ==> limit == Decimal(s))
              && retry == (now + 24 * 60 * 60 * 1_000_000_000) / 1_000_000_000
            case OverFeeRate(limit, attempted) => attempted == req.feeRate > limit && (t.maxFeeRate == Some(s) ==> limit == Decimal(s))
  {
    LimitsFromText(p, req.network);
  }
}
