/** The policy body and its evaluation (internal/policy/body.go, evaluate.go). */
module Policies {
  import opened Base

  // ── the body ─────────────────────────────────────────────────────────────────

  /** In-memory mark of an explicit null limit, distinct from an absent one. */
  const NULL_SENTINEL := "\0null\0"

  datatype Limits = Limits(
    maxTx: Option<string>, maxDay: Option<string>, maxFeeRate: Option<string>,
    allowlistOn: Option<bool>, includeSelf: Option<bool>)

  datatype NetworkRule = NetworkRule(network: string, limits: Limits)

  datatype Pin = Pin(source: string, address: string, labelText: string, addedAt: string)

  datatype Policy = Policy(
    version: int, nonce: nat, updatedAt: string, writtenBy: string,
    defaults: Limits, networks: seq<NetworkRule>,
    allowlist: seq<Pin>, denylist: seq<Pin>, selfAddresses: seq<string>)

  // ── one spend ────────────────────────────────────────────────────────────────

  datatype Check = Check(
    network: string, recipient: string, amount: int, fee: int, feeRate: int,
    changeAddr: string, priorSpent: int)

  function Spend(c: Check): int { c.amount + c.fee }

  /** What the spend adds to the rolling window: never negative. */
  function WindowCharge(c: Check): int {
    var v := c.amount + c.fee - c.priorSpent;
    if v < 0 then 0 else v
  }

  const DAY := 86_400_000_000_000 // 24 hours in nanoseconds

  datatype Decision =
    | Allowed
    | Denylisted(address: string)
    | NotAllowlisted(address: string, includeSelf: bool)
    | OverTxLimit(limit: int, attempted: int)
    | OverDayLimit(limit: int, used: int, attempted: int, retryAfter: int)
    | OverFeeRate(limit: int, attempted: int)

  // ── limits ───────────────────────────────────────────────────────────────────

  datatype Resolved = Resolved(
    maxTx: Option<int>, maxDay: Option<int>, maxFeeRate: Option<int>,
    allowlistOn: bool, includeSelf: bool)

  /** A signed base-10 integer, as the arbitrary-precision parser reads it. */
  function ParseInteger(s: string): Option<int> {
    var digits := if s != "" && (s[0] == '-' || s[0] == '+') then s[1..] else s;
    if digits == "" || !AllDigits(digits) then None
    else
      var v: int := Decimal(digits);
      Some(if s[0] == '-' then -v else v)
  }

  /** A present limit that does not parse denies every positive spend. */
  function LimitValue(s: string): int {
    match ParseInteger(s) case Some(v) => v case None => 0
  }

  function ParseSat(p: Option<string>): Option<int> {
    if p.None? || p.value == NULL_SENTINEL then None else Some(LimitValue(p.value))
  }

  function OverrideSat(current: Option<int>, p: Option<string>): Option<int> {
    if p.None? then current
    else if p.value == NULL_SENTINEL then None
    else Some(LimitValue(p.value))
  }

  function BoolOr(p: Option<bool>, otherwise: bool): bool { if p.Some? then p.value else otherwise }

  function DefaultLimits(d: Limits): Resolved {
    Resolved(ParseSat(d.maxTx), ParseSat(d.maxDay), ParseSat(d.maxFeeRate),
             BoolOr(d.allowlistOn, false), BoolOr(d.includeSelf, false))
  }

  function ApplyRule(r: Resolved, n: Limits): Resolved {
    Resolved(OverrideSat(r.maxTx, n.maxTx), OverrideSat(r.maxDay, n.maxDay), OverrideSat(r.maxFeeRate, n.maxFeeRate),
             BoolOr(n.allowlistOn, r.allowlistOn), BoolOr(n.includeSelf, r.includeSelf))
  }

  function ResolveFrom(r: Resolved, networks: seq<NetworkRule>, network: string): Resolved {
    if networks == [] then r
    else if EqualFold(networks[0].network, network) then ApplyRule(r, networks[0].limits)
    else ResolveFrom(r, networks[1..], network)
  }

  function ResolveLimits(p: Policy, network: string): Resolved {
    ResolveFrom(DefaultLimits(p.defaults), p.networks, network)
  }

  method ComputeLimits(p: Policy, network: string) returns (r: Resolved)
    ensures r == ResolveLimits(p, network)
  {
    r := DefaultLimits(p.defaults);
    for i := 0 to |p.networks|
      invariant r == DefaultLimits(p.defaults)
      invariant ResolveFrom(r, p.networks[i..], network) == ResolveLimits(p, network)
    {
      var n := p.networks[i];
      if !EqualFold(n.network, network) {
        continue;
      }
      r := r.(maxTx := OverrideSat(r.maxTx, n.limits.maxTx));
      r := r.(maxDay := OverrideSat(r.maxDay, n.limits.maxDay));
      r := r.(maxFeeRate := OverrideSat(r.maxFeeRate, n.limits.maxFeeRate));
      if n.limits.allowlistOn.Some? {
        r := r.(allowlistOn := n.limits.allowlistOn.value);
      }
      if n.limits.includeSelf.Some? {
        r := r.(includeSelf := n.limits.includeSelf.value);
      }
      return;
    }
  }

  // ── destinations ─────────────────────────────────────────────────────────────

  predicate Pinned(pins: seq<Pin>, dest: string) {
    exists p :: p in pins && p.source == "address" && EqualFold(p.address, dest)
  }

  predicate OwnChange(req: Check) { req.changeAddr != "" && EqualFold(req.changeAddr, req.recipient) }

  predicate IsSelf(p: Policy, req: Check) {
    OwnChange(req) || exists a :: a in p.selfAddresses && EqualFold(a, req.recipient)
  }

  method MatchPin(pins: seq<Pin>, dest: string) returns (found: bool)
    ensures found == Pinned(pins, dest)
  {
    for i := 0 to |pins|
      invariant !Pinned(pins[..i], dest)
    {
      if pins[i].source == "address" && EqualFold(pins[i].address, dest) {
        return true;
      }
    }
    assert pins[..|pins|] == pins;
    return false;
  }

  method MatchSelf(p: Policy, req: Check) returns (found: bool)
    ensures found == IsSelf(p, req)
  {
    if req.changeAddr != "" && EqualFold(req.changeAddr, req.recipient) {
      return true;
    }
    for i := 0 to |p.selfAddresses|
      invariant forall k :: 0 <= k < i ==> !EqualFold(p.selfAddresses[k], req.recipient)
    {
      if EqualFold(p.selfAddresses[i], req.recipient) {
        return true;
      }
    }
    return false;
  }

  // ── the verdict ──────────────────────────────────────────────────────────────

  function Evaluate(p: Policy, req: Check, spent: int, now: int): Decision {
    var lim := ResolveLimits(p, req.network);
    if Pinned(p.denylist, req.recipient) then Denylisted(req.recipient)
    else if lim.allowlistOn && !Pinned(p.allowlist, req.recipient) && !OwnChange(req)
            && !(lim.includeSelf && IsSelf(p, req)) then
      NotAllowlisted(req.recipient, lim.includeSelf)
    else if lim.maxTx.Some? && Spend(req) > lim.maxTx.value then OverTxLimit(lim.maxTx.value, Spend(req))
    else if lim.maxDay.Some? && spent + WindowCharge(req) > lim.maxDay.value then
      OverDayLimit(lim.maxDay.value, spent, WindowCharge(req), (now + DAY) / 1_000_000_000)
    else if lim.maxFeeRate.Some? && req.feeRate > lim.maxFeeRate.value then
      OverFeeRate(lim.maxFeeRate.value, req.feeRate)
    else Allowed
  }

  method Judge(p: Policy, req: Check, spent: int, now: int) returns (d: Decision)
    ensures d == Evaluate(p, req, spent, now)
  {
    var lim := ComputeLimits(p, req.network);
    var denied := MatchPin(p.denylist, req.recipient);
    if denied {
      return Denylisted(req.recipient);
    }
    if lim.allowlistOn {
      var ok := MatchPin(p.allowlist, req.recipient);
      if !ok && req.changeAddr != "" && EqualFold(req.changeAddr, req.recipient) {
        ok := true;
      }
      if !ok && lim.includeSelf {
        ok := MatchSelf(p, req);
      }
      if !ok {
        return NotAllowlisted(req.recipient, lim.includeSelf);
      }
    }
    if lim.maxTx.Some? {
      var spend := Spend(req);
      if spend > lim.maxTx.value {
        return OverTxLimit(lim.maxTx.value, spend);
      }
    }
    if lim.maxDay.Some? {
      var used := spent + WindowCharge(req);
      if used > lim.maxDay.value {
        return OverDayLimit(lim.maxDay.value, spent, WindowCharge(req), (now + DAY) / 1_000_000_000);
      }
    }
    if lim.maxFeeRate.Some? {
      if req.feeRate > lim.maxFeeRate.value {
        return OverFeeRate(lim.maxFeeRate.value, req.feeRate);
      }
    }
    return Allowed;
  }
}
