/** Exactly which policies keep every verdict through sealing (internal/policy/body.go, evaluate.go). */
module SealingVerdicts {
  import opened Base
  import opened Policies
  import opened Sealing
  import O = Orders

  /** Resolved limits that decide every spend alike: with the allowlist off, including oneself says
      nothing. */
  predicate SameEffect(a: Resolved, b: Resolved) {
    && a.maxTx == b.maxTx && a.maxDay == b.maxDay && a.maxFeeRate == b.maxFeeRate && a.allowlistOn == b.allowlistOn
    && (a.allowlistOn ==> a.includeSelf == b.includeSelf)
  }

  /** For every rule, the first rule that folds to its name has the same effect before and after the
      rules are sorted. */
  ghost predicate SortKeepsFirstRules(p: Policy) {
    forall n :: n in p.networks ==> SameEffect(ResolveLimits(Canonical(p), n.network), ResolveLimits(p, n.network))
  }

  // ── enough ───────────────────────────────────────────────────────────────────

  lemma {:induction false} ResolveFolds(r: Resolved, networks: seq<NetworkRule>, a: string, b: string)
    requires EqualFold(a, b)
    ensures ResolveFrom(r, networks, a) == ResolveFrom(r, networks, b)
  {
    if networks != [] {
      ResolveFolds(r, networks[1..], a, b);
    }
  }

  lemma EveryNetworkAlike(p: Policy, network: string)
    requires SortKeepsFirstRules(p)
    ensures SameEffect(ResolveLimits(Canonical(p), network), ResolveLimits(p, network))
  {
    CanonicalLists(p);
    assert DefaultLimits(FullBlock(p.defaults)) == DefaultLimits(p.defaults);
    if n :| n in p.networks && EqualFold(n.network, network) {
      ResolveFolds(DefaultLimits(p.defaults), p.networks, n.network, network);
      ResolveFolds(DefaultLimits(p.defaults), Canonical(p).networks, n.network, network);
    } else {
      ResolveMisses(DefaultLimits(p.defaults), p.networks, network);
      ResolveMisses(DefaultLimits(p.defaults), Canonical(p).networks, network);
    }
  }

  lemma SameEffectSameVerdict(p: Policy, req: Check, spent: int, now: int)
    requires SameEffect(ResolveLimits(Canonical(p), req.network), ResolveLimits(p, req.network))
    ensures Evaluate(Canonical(p), req, spent, now) == Evaluate(p, req, spent, now)
  {
    CanonicalLists(p);
    SelfIsKept(p, req);
  }

  // ── and needed ───────────────────────────────────────────────────────────────

  /** A name longer than all of these together. */
  function Longer(names: seq<string>): (s: string)
    ensures |s| > 0 && forall n :: n in names ==> |s| > |n|
  {
    if names == [] then "x"
    else
      assert names == [names[0]] + names[1..];
      Longer(names[1..]) + names[0]
  }

  function Addresses(pins: seq<Pin>): seq<string> { seq(|pins|, i requires 0 <= i < |pins| => pins[i].address) }

  /** A recipient no list of the policy names. */
  function Stranger(p: Policy): string { Longer(Addresses(p.denylist) + Addresses(p.allowlist) + p.selfAddresses) }

  lemma StrangerIsUnknown(p: Policy, req: Check)
    requires req.recipient == Stranger(p)
    ensures Stranger(p) != "" && !Pinned(p.denylist, Stranger(p)) && !Pinned(p.allowlist, Stranger(p))
    ensures IsSelf(p, req) == OwnChange(req)
  {
    var names, x := Addresses(p.denylist) + Addresses(p.allowlist) + p.selfAddresses, Stranger(p);
    forall pin | pin in p.denylist || pin in p.allowlist ensures !EqualFold(pin.address, x) {
      if pin in p.denylist {
        var i :| 0 <= i < |p.denylist| && p.denylist[i] == pin;
        assert Addresses(p.denylist)[i] in names;
      } else {
        var i :| 0 <= i < |p.allowlist| && p.allowlist[i] == pin;
        assert Addresses(p.allowlist)[i] in names;
      }
      DifferentLengths(pin.address, x);
    }
    forall a | a in p.selfAddresses ensures !EqualFold(a, x) {
      assert a in names;
      DifferentLengths(a, x);
    }
  }

  lemma DifferentLengths(a: string, b: string)
    requires |a| != |b|
    ensures !EqualFold(a, b)
  {
    assert |Lower(a)| == |a| && |Lower(b)| == |b|;
  }

  /** To a stranger that is the change address, only the caps matter. */
  function ToOwnChange(p: Policy, network: string, amount: int, rate: int): Check {
    Check(network, Stranger(p), amount, 0, rate, Stranger(p), 0)
  }

  function ToStranger(p: Policy, network: string): Check { Check(network, Stranger(p), 0, 0, 0, "", 0) }

  function CapsVerdict(lim: Resolved, req: Check, spent: int, now: int): Decision {
    if lim.maxTx.Some? && Spend(req) > lim.maxTx.value then OverTxLimit(lim.maxTx.value, Spend(req))
    else if lim.maxDay.Some? && spent + WindowCharge(req) > lim.maxDay.value then
      OverDayLimit(lim.maxDay.value, spent, WindowCharge(req), (now + DAY) / 1_000_000_000)
    else if lim.maxFeeRate.Some? && req.feeRate > lim.maxFeeRate.value then OverFeeRate(lim.maxFeeRate.value, req.feeRate)
    else Allowed
  }

  lemma OwnChangeVerdict(p: Policy, network: string, amount: int, rate: int, spent: int, now: int)
    ensures var req := ToOwnChange(p, network, amount, rate);
            && Evaluate(p, req, spent, now) == CapsVerdict(ResolveLimits(p, network), req, spent, now)
            && Evaluate(Canonical(p), req, spent, now) == CapsVerdict(ResolveLimits(Canonical(p), network), req, spent, now)
  {
    var req := ToOwnChange(p, network, amount, rate);
    StrangerIsUnknown(p, req);
    CanonicalLists(p);
    SelfIsKept(p, req);
  }

  lemma StrangerVerdict(p: Policy, network: string)
    ensures var req, lim, lim' := ToStranger(p, network), ResolveLimits(p, network), ResolveLimits(Canonical(p), network);
            && Evaluate(p, req, 0, 0) == (if lim.allowlistOn then NotAllowlisted(req.recipient, lim.includeSelf) else CapsVerdict(lim, req, 0, 0))
            && Evaluate(Canonical(p), req, 0, 0)
               == (if lim'.allowlistOn then NotAllowlisted(req.recipient, lim'.includeSelf) else CapsVerdict(lim', req, 0, 0))
  {
    var req := ToStranger(p, network);
    StrangerIsUnknown(p, req);
    hide Stranger, ResolveLimits;
    CanonicalLists(p);
    SelfIsKept(p, req);
  }

  /** One more than the smaller of two different caps: over that one, within the other. */
  function Between(a: Option<int>, b: Option<int>): int
    requires a != b
  {
    if a.None? then b.value + 1 else if b.None? then a.value + 1
    else if a.value < b.value then b.value else a.value
  }

  /** At or under a cap, if there is one. */
  function Under(a: Option<int>, b: Option<int>): int {
    var x := if a.Some? && a.value < 0 then a.value else 0;
    if b.Some? && b.value < x then b.value else x
  }

  /** Different caps are told apart by a spend that only the differing cap can stop. */
  lemma CapsDiffer(a: Resolved, b: Resolved, req: Check, spent: int)
    requires req.amount + req.fee == Spend(req) && req.priorSpent == 0
    requires
      || (a.maxTx != b.maxTx && Spend(req) == Between(a.maxTx, b.maxTx))
      || (a.maxTx == b.maxTx && a.maxDay != b.maxDay && Spend(req) == Under(a.maxTx, b.maxTx) && spent == Between(a.maxDay, b.maxDay))
      || (a.maxTx == b.maxTx && a.maxDay == b.maxDay && a.maxFeeRate != b.maxFeeRate && Spend(req) == Under(a.maxTx, b.maxTx)
          && spent == Under(a.maxDay, b.maxDay) && req.feeRate == Between(a.maxFeeRate, b.maxFeeRate))
    ensures CapsVerdict(a, req, spent, 0) != CapsVerdict(b, req, spent, 0)
  {
  }

  /** Limits of different effect are told apart by some spend. */
  lemma DifferentEffectDifferentVerdict(p: Policy, network: string) returns (req: Check, spent: int)
    requires !SameEffect(ResolveLimits(Canonical(p), network), ResolveLimits(p, network))
    ensures Evaluate(Canonical(p), req, spent, 0) != Evaluate(p, req, spent, 0)
  {
    var a, b := ResolveLimits(Canonical(p), network), ResolveLimits(p, network);
    if a.maxTx == b.maxTx && a.maxDay == b.maxDay && a.maxFeeRate == b.maxFeeRate {
      req, spent := ToStranger(p, network), 0;
      StrangerVerdict(p, network);
    } else {
      var amount := if a.maxTx != b.maxTx then Between(a.maxTx, b.maxTx) else Under(a.maxTx, b.maxTx);
      var rate := if a.maxFeeRate != b.maxFeeRate then Between(a.maxFeeRate, b.maxFeeRate) else 0;
      spent := if a.maxDay != b.maxDay then Between(a.maxDay, b.maxDay) else Under(a.maxDay, b.maxDay);
      req := ToOwnChange(p, network, amount, rate);
      OwnChangeVerdict(p, network, amount, rate, spent, 0);
      CapsDiffer(a, b, req, spent);
    }
  }

  /** Sealing and reopening keeps every verdict exactly when the sort moves no rule of another effect
      in front of the first one that folds to a name. */
  lemma SealKeepsVerdictsExactly(p: Policy)
    requires p.version <= BODY_VERSION
    ensures ReadBody(WriteBody(p)).Some?
    ensures (forall req, spent, now :: Evaluate(ReadBody(WriteBody(p)).value, req, spent, now) == Evaluate(p, req, spent, now))
       <==> SortKeepsFirstRules(p)
  {
    ReadAfterWrite(p);
    if SortKeepsFirstRules(p) {
      forall req, spent, now ensures Evaluate(Canonical(p), req, spent, now) == Evaluate(p, req, spent, now) {
        EveryNetworkAlike(p, req.network);
        SameEffectSameVerdict(p, req, spent, now);
      }
    } else {
      var n :| n in p.networks && !SameEffect(ResolveLimits(Canonical(p), n.network), ResolveLimits(p, n.network));
      var req, spent := DifferentEffectDifferentVerdict(p, n.network);
    }
  }

  lemma CaseVariants() returns (p: Policy, req: Check)
    ensures p.version == 1 && |p.networks| == 2 && p.networks[0].network != p.networks[1].network
    ensures EqualFold(p.networks[0].network, p.networks[1].network)
    ensures Evaluate(p, req, 0, 0) == OverTxLimit(0, 1) && Evaluate(Canonical(p), req, 0, 0) == Allowed
  {
    var strict := Limits(Some("0"), None, None, None, None);
    var open := Limits(None, None, None, None, None);
    var a, b := NetworkRule("b", strict), NetworkRule("B", open);
    p := Policy(1, 1, "", "", open, [a, b], [], [], []);
    req := Check("b", "x", 1, 0, 1, "", 0);
    assert ByNetwork(b, a);
    assert [a, b][1..] == [b];
    assert O.SortBy([b], ByNetwork) == [b];
    assert O.Insert(a, [b], ByNetwork) == [b, a] by { assert O.Insert(a, [], ByNetwork) == [a]; assert [b][1..] == []; }
    assert O.SortBy([a, b], ByNetwork) == [b, a];
    assert EqualFold("B", "b") && EqualFold("b", "b");
    assert ParseInteger("0") == Some(0) by { assert "0"[..0] == ""; assert Decimal("0") == 0; }
    assert ResolveLimits(p, "b").maxTx == Some(0);
    assert ResolveLimits(Canonical(p), "b").maxTx == None;
  }

  /** Two rules whose names differ only in case: sealing swaps which one is found first, and a spend
      over the first one's cap is allowed afterwards. */
  lemma SealMayReorderCaseVariants() returns (p: Policy, req: Check)
    ensures p.version == 1 && |p.networks| == 2 && p.networks[0].network != p.networks[1].network
    ensures EqualFold(p.networks[0].network, p.networks[1].network)
    ensures Evaluate(p, req, 0, 0) == OverTxLimit(0, 1)
    ensures ReadBody(WriteBody(p)).Some? && Evaluate(ReadBody(WriteBody(p)).value, req, 0, 0) == Allowed
  {
    p, req := CaseVariants();
    ReadAfterWrite(p);
  }
}
