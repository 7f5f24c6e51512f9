/** What an administrator's change does to the policy body (internal/policy/admin.go). */
module Administration {
  import opened Base
  import opened Orders
  import opened Policies
  import opened Sealing
  import V = Verdicts

  // ── changes ──────────────────────────────────────────────────────────────────

  function OrElse<T>(a: Option<T>, b: Option<T>): Option<T> { if a.Some? then a else b }

  /** The given fields of `src` replace those of `dst`. */
  function MergeLimits(dst: Limits, src: Limits): Limits {
    Limits(OrElse(src.maxTx, dst.maxTx), OrElse(src.maxDay, dst.maxDay), OrElse(src.maxFeeRate, dst.maxFeeRate),
           OrElse(src.allowlistOn, dst.allowlistOn), OrElse(src.includeSelf, dst.includeSelf))
  }

  /** The first rule whose name folds to the network's, from position `i`. */
  function FindNetwork(networks: seq<NetworkRule>, network: string): (i: nat)
    ensures i <= |networks| && (i < |networks| ==> EqualFold(networks[i].network, network))
    ensures forall k :: 0 <= k < i ==> !EqualFold(networks[k].network, network)
  {
    if networks == [] || EqualFold(networks[0].network, network) then 0
    else 1 + FindNetwork(networks[1..], network)
  }

  function UpsertNetwork(networks: seq<NetworkRule>, n: NetworkRule): seq<NetworkRule> {
    var i := FindNetwork(networks, n.network);
    if i < |networks| then networks[i := networks[i].(limits := MergeLimits(networks[i].limits, n.limits))]
    else SortBy(networks + [n], ByNetwork)
  }

  predicate PinsAddress(p: Pin, address: string) { p.source == "address" && EqualFold(p.address, address) }

  function UpsertPin(pins: seq<Pin>, address: string, text: string, now: string): seq<Pin> {
    if pins == [] then [Pin("address", address, text, now)]
    else if PinsAddress(pins[0], address) then
      [if text != "" then pins[0].(labelText := text) else pins[0]] + pins[1..]
    else [pins[0]] + UpsertPin(pins[1..], address, text, now)
  }

  function RemovePin(pins: seq<Pin>, address: string): seq<Pin> {
    if pins == [] then []
    else if PinsAddress(pins[0], address) then RemovePin(pins[1..], address)
    else [pins[0]] + RemovePin(pins[1..], address)
  }

  // ── the same, as the loops that edit the lists ───────────────────────────────

  method EditNetwork(networks: array<NetworkRule>, n: NetworkRule) returns (out: seq<NetworkRule>)
    modifies networks
    ensures out == UpsertNetwork(old(networks[..]), n)
  {
    for i := 0 to networks.Length
      invariant networks[..] == old(networks[..])
      invariant forall k :: 0 <= k < i ==> !EqualFold(networks[k].network, n.network)
    {
      if EqualFold(networks[i].network, n.network) {
        assert FindNetwork(networks[..], n.network) == i;
        networks[i] := networks[i].(limits := MergeLimits(networks[i].limits, n.limits));
        return networks[..];
      }
    }
    out := SortBy(networks[..] + [n], ByNetwork);
  }

  lemma {:induction false} UpsertPinAt(pins: seq<Pin>, i: nat, address: string, text: string, now: string)
    requires i <= |pins| && forall k :: 0 <= k < i ==> !PinsAddress(pins[k], address)
    requires i < |pins| ==> PinsAddress(pins[i], address)
    ensures UpsertPin(pins, address, text, now)
         == if i == |pins| then pins + [Pin("address", address, text, now)]
            else if text != "" then pins[i := pins[i].(labelText := text)]
            else pins
  {
    if i > 0 {
      UpsertPinAt(pins[1..], i - 1, address, text, now);
    }
  }

  method EditPin(pins: array<Pin>, address: string, text: string, now: string) returns (out: seq<Pin>)
    modifies pins
    ensures out == UpsertPin(old(pins[..]), address, text, now)
  {
    for i := 0 to pins.Length
      invariant pins[..] == old(pins[..])
      invariant forall k :: 0 <= k < i ==> !PinsAddress(pins[k], address)
    {
      if PinsAddress(pins[i], address) {
        UpsertPinAt(pins[..], i, address, text, now);
        if text != "" {
          pins[i] := pins[i].(labelText := text);
        }
        return pins[..];
      }
    }
    UpsertPinAt(pins[..], pins.Length, address, text, now);
    out := pins[..] + [Pin("address", address, text, now)];
  }

  /** Removes in place: the kept pins move down over the removed ones. */
  method CompactPins(pins: array<Pin>, address: string) returns (kept: nat)
    modifies pins
    ensures kept <= pins.Length && pins[..kept] == RemovePin(old(pins[..]), address)
  {
    ghost var was := pins[..];
    kept := 0;
    for i := 0 to pins.Length
      invariant kept <= i && pins[i..] == was[i..]
      invariant pins[..kept] + RemovePin(was[i..], address) == RemovePin(was, address)
    {
      var p := pins[i];
      assert p == was[i] && was[i..] == [was[i]] + was[i + 1..];
      if !PinsAddress(p, address) {
        ghost var front := pins[..kept];
        pins[kept] := p;
        kept := kept + 1;
        assert pins[..kept] == front + [p];
      }
    }
    assert was[pins.Length..] == [];
  }

  // ── what the edits mean ──────────────────────────────────────────────────────

  /** No two network rules have names that fold to the same name. */
  ghost predicate NamesDistinct(networks: seq<NetworkRule>) {
    forall i, j :: 0 <= i < j < |networks| ==> !EqualFold(networks[i].network, networks[j].network)
  }

  lemma DistinctNamesAgree(networks: seq<NetworkRule>)
    requires NamesDistinct(networks)
    ensures NamesAgree(networks)
  {
    forall a, b | a in networks && b in networks && EqualFold(a.network, b.network) ensures a.limits == b.limits {
      var i :| 0 <= i < |networks| && networks[i] == a;
      var j :| 0 <= j < |networks| && networks[j] == b;
      assert !(i < j) && !(j < i);
    }
  }

  lemma {:induction false} InsertKeepsDistinct(n: NetworkRule, s: seq<NetworkRule>)
    requires NamesDistinct(s) && forall m :: m in s ==> !EqualFold(m.network, n.network)
    ensures NamesDistinct(Insert(n, s, ByNetwork))
    ensures forall m :: m in Insert(n, s, ByNetwork) <==> m == n || m in s
  {
    if s != [] && ByNetwork(s[0], n) {
      InsertKeepsDistinct(n, s[1..]);
      var r := Insert(n, s[1..], ByNetwork);
      assert s == [s[0]] + s[1..];
      forall k | 0 <= k < |r| ensures !EqualFold(s[0].network, r[k].network) {
        assert r[k] in r;
        if r[k] != n {
          var i :| 0 <= i < |s[1..]| && s[1..][i] == r[k];
          assert s[i + 1] == r[k];
        }
      }
    }
  }

  lemma {:induction false} SortKeepsDistinct(s: seq<NetworkRule>)
    requires NamesDistinct(s)
    ensures NamesDistinct(SortBy(s, ByNetwork))
    ensures forall m :: m in SortBy(s, ByNetwork) <==> m in s
  {
    if s != [] {
      SortKeepsDistinct(s[1..]);
      forall m | m in SortBy(s[1..], ByNetwork) ensures !EqualFold(m.network, s[0].network) {
        var i :| 0 <= i < |s[1..]| && s[1..][i] == m;
        assert s[i + 1] == m;
      }
      InsertKeepsDistinct(s[0], SortBy(s[1..], ByNetwork));
      assert s == [s[0]] + s[1..];
    }
  }

  lemma UpsertKeepsDistinct(networks: seq<NetworkRule>, n: NetworkRule)
    requires NamesDistinct(networks)
    ensures NamesDistinct(UpsertNetwork(networks, n))
  {
    if FindNetwork(networks, n.network) == |networks| {
      SortKeepsDistinct(networks + [n]);
    }
  }

  lemma MergeIsOverride(r: Resolved, was: Limits, given: Limits)
    ensures ApplyRule(r, MergeLimits(was, given)) == ApplyRule(ApplyRule(r, was), given)
  {
  }

  /** Setting limits for one network changes that network's resolved limits, in the given fields
      only, and no other network's. */
  lemma UpsertChangesOneNetwork(r: Resolved, networks: seq<NetworkRule>, n: NetworkRule, network: string)
    requires NamesDistinct(networks)
    ensures ResolveFrom(r, UpsertNetwork(networks, n), network)
         == if EqualFold(n.network, network) then ApplyRule(ResolveFrom(r, networks, network), n.limits)
            else ResolveFrom(r, networks, network)
  {
    var out := UpsertNetwork(networks, n);
    UpsertKeepsDistinct(networks, n);
    DistinctNamesAgree(networks);
    DistinctNamesAgree(out);
    var i := FindNetwork(networks, n.network);
    if i < |networks| {
      assert out[i] in out && networks[i] in networks;
      MergeIsOverride(r, networks[i].limits, n.limits);
      if EqualFold(n.network, network) {
        ResolveFinds(r, networks, networks[i], network);
        ResolveFinds(r, out, out[i], network);
      } else {
        ResolveSkips(r, networks, out, i, network);
      }
    } else {
      assert NamesDistinct(networks + [n]);
      SortKeepsDistinct(networks + [n]);
      if EqualFold(n.network, network) {
        ResolveFinds(r, out, n, network);
        ResolveMisses(r, networks, network);
      } else {
        ResolveWithout(r, networks, n, network);
        DistinctNamesAgree(networks + [n]);
        ResolveForgetsOrder(r, networks + [n], out, network);
      }
    }
  }

  lemma {:induction false} ResolveSkips(r: Resolved, a: seq<NetworkRule>, b: seq<NetworkRule>, i: nat, network: string)
    requires i < |a| == |b| && a[i].network == b[i].network && !EqualFold(a[i].network, network)
    requires forall k :: 0 <= k < |a| && k != i ==> a[k] == b[k]
    ensures ResolveFrom(r, a, network) == ResolveFrom(r, b, network)
  {
    if i == 0 {
      assert a[1..] == b[1..];
    } else {
      ResolveSkips(r, a[1..], b[1..], i - 1, network);
    }
  }

  lemma {:induction false} ResolveWithout(r: Resolved, a: seq<NetworkRule>, n: NetworkRule, network: string)
    requires !EqualFold(n.network, network)
    ensures ResolveFrom(r, a + [n], network) == ResolveFrom(r, a, network)
  {
    if a != [] {
      assert (a + [n])[1..] == a[1..] + [n];
      ResolveWithout(r, a[1..], n, network);
    } else {
      assert ([n])[1..] == [];
    }
  }

  /** Pinning an address adds that address, up to case, and nothing else. */
  lemma {:induction false} UpsertPinPins(pins: seq<Pin>, address: string, text: string, now: string, dest: string)
    ensures Pinned(UpsertPin(pins, address, text, now), dest) <==> Pinned(pins, dest) || EqualFold(address, dest)
  {
    var out := UpsertPin(pins, address, text, now);
    if pins == [] {
      assert out[0] in out;
    } else {
      assert pins == [pins[0]] + pins[1..];
      assert forall p :: p in pins <==> p == pins[0] || p in pins[1..];
      if PinsAddress(pins[0], address) {
        assert out[0] in out && out[0].source == "address" && out[0].address == pins[0].address;
        assert forall p :: p in out <==> p == out[0] || p in pins[1..];
      } else {
        UpsertPinPins(pins[1..], address, text, now, dest);
        assert forall p :: p in out <==> p == pins[0] || p in UpsertPin(pins[1..], address, text, now);
      }
    }
  }

  /** Unpinning an address removes every pin of it and nothing else. */
  lemma {:induction false} RemovePinUnpins(pins: seq<Pin>, address: string, dest: string)
    ensures Pinned(RemovePin(pins, address), dest) <==> Pinned(pins, dest) && !EqualFold(address, dest)
  {
    if pins != [] {
      RemovePinUnpins(pins[1..], address, dest);
      assert forall p :: p in pins <==> p == pins[0] || p in pins[1..];
      if !PinsAddress(pins[0], address) {
        assert forall p :: p in RemovePin(pins, address) <==> p == pins[0] || p in RemovePin(pins[1..], address);
      }
    }
  }

  // ── whole changes ────────────────────────────────────────────────────────────

  datatype Change =
    | SetLimits(defaults: Option<Limits>, networks: seq<NetworkRule>)
    | Allow(address: string, text: string, remove: bool)
    | Deny(address: string, text: string, remove: bool)

  function UpsertAll(networks: seq<NetworkRule>, changes: seq<NetworkRule>): seq<NetworkRule>
    decreases |changes|
  {
    if changes == [] then networks else UpsertAll(UpsertNetwork(networks, changes[0]), changes[1..])
  }

  function ChangePins(pins: seq<Pin>, address: string, text: string, remove: bool, now: string): seq<Pin> {
    if remove then RemovePin(pins, address) else UpsertPin(pins, address, text, now)
  }

  function ApplyChange(p: Policy, c: Change, now: string): Policy {
    match c
    case SetLimits(d, networks) =>
      p.(defaults := if d.Some? then MergeLimits(p.defaults, d.value) else p.defaults,
         networks := UpsertAll(p.networks, networks))
    case Allow(address, text, remove) => p.(allowlist := ChangePins(p.allowlist, address, text, remove, now))
    case Deny(address, text, remove) => p.(denylist := ChangePins(p.denylist, address, text, remove, now))
  }

  /** What each change means: a pin makes the list hold the address, letters of either case alike, an unpin
      makes it not, limits given replace the default ones, and whatever is not named stays. */
  lemma ChangeMeans(p: Policy, c: Change, now: string, dest: string)
    ensures var q := ApplyChange(p, c, now);
            match c
            case Allow(a, _, remove) =>
              && q == p.(allowlist := q.allowlist)
              && (V.Listed(q.allowlist, dest) <==> if remove then V.Listed(p.allowlist, dest) && !SameButCase(a, dest)
                                                   else V.Listed(p.allowlist, dest) || SameButCase(a, dest))
            case Deny(a, _, remove) =>
              && q == p.(denylist := q.denylist)
              && (V.Listed(q.denylist, dest) <==> if remove then V.Listed(p.denylist, dest) && !SameButCase(a, dest)
                                                  else V.Listed(p.denylist, dest) || SameButCase(a, dest))
            case SetLimits(given, _) =>
              && q == p.(defaults := q.defaults, networks := q.networks)
              && q.defaults == match given
                               case None => p.defaults
                               case Some(g) => Limits(V.InForce(g.maxTx, p.defaults.maxTx), V.InForce(g.maxDay, p.defaults.maxDay),
                                                      V.InForce(g.maxFeeRate, p.defaults.maxFeeRate),
                                                      V.InForce(g.allowlistOn, p.defaults.allowlistOn),
                                                      V.InForce(g.includeSelf, p.defaults.includeSelf))
  {
    if !c.SetLimits? {
      var q, pins := ApplyChange(p, c, now), if c.Allow? then p.allowlist else p.denylist;
      UpsertPinPins(pins, c.address, c.text, now, dest);
      RemovePinUnpins(pins, c.address, dest);
      FoldingIsCaseOnly(c.address, dest);
      V.ListedIsPinned(pins, dest);
      V.ListedIsPinned(if c.Allow? then q.allowlist else q.denylist, dest);
    }
  }

  /** A network's limits overridden by each change made for it, in turn. */
  function Overriding(r: Resolved, changes: seq<NetworkRule>, network: string): Resolved
    decreases |changes|
  {
    if changes == [] then r
    else Overriding(if SameButCase(changes[0].network, network) then ApplyRule(r, changes[0].limits) else r, changes[1..], network)
  }

  /** Changes to networks override the limits of the networks they name, one after the other. */
  lemma {:induction false} UpsertAllOverrides(r: Resolved, networks: seq<NetworkRule>, changes: seq<NetworkRule>, network: string)
    requires NamesDistinct(networks)
    ensures ResolveFrom(r, UpsertAll(networks, changes), network) == Overriding(ResolveFrom(r, networks, network), changes, network)
    decreases |changes|
  {
    if changes != [] {
      UpsertChangesOneNetwork(r, networks, changes[0], network);
      UpsertKeepsDistinct(networks, changes[0]);
      FoldingIsCaseOnly(changes[0].network, network);
      UpsertAllOverrides(r, UpsertNetwork(networks, changes[0]), changes[1..], network);
    }
  }

  method EditPins(pins: seq<Pin>, address: string, text: string, remove: bool, now: string) returns (out: seq<Pin>)
    ensures out == ChangePins(pins, address, text, remove, now)
  {
    var a := new Pin[|pins|](i requires 0 <= i < |pins| => pins[i]);
    assert a[..] == pins;
    if remove {
      var kept := CompactPins(a, address);
      return a[..kept];
    }
    out := EditPin(a, address, text, now);
  }

  method Edit(p: Policy, c: Change, now: string) returns (q: Policy)
    ensures q == ApplyChange(p, c, now)
  {
    q := p;
    match c {
      case SetLimits(d, changes) =>
        if d.Some? {
          q := q.(defaults := MergeLimits(q.defaults, d.value));
        }
        var networks := p.networks;
        for i := 0 to |changes|
          invariant UpsertAll(networks, changes[i..]) == UpsertAll(p.networks, changes)
        {
          var a := new NetworkRule[|networks|](k requires 0 <= k < |networks| => networks[k]);
          assert a[..] == networks;
          assert changes[i..][1..] == changes[i + 1..];
          networks := EditNetwork(a, changes[i]);
        }
        q := q.(networks := networks);
      case Allow(address, text, remove) =>
        var pins := EditPins(p.allowlist, address, text, remove, now);
        q := q.(allowlist := pins);
      case Deny(address, text, remove) =>
        var pins := EditPins(p.denylist, address, text, remove, now);
        q := q.(denylist := pins);
    }
  }

  /** No change makes two network rules share a name. */
  lemma {:induction false} UpsertAllKeepsDistinct(networks: seq<NetworkRule>, changes: seq<NetworkRule>)
    requires NamesDistinct(networks)
    ensures NamesDistinct(UpsertAll(networks, changes))
    decreases |changes|
  {
    if changes != [] {
      UpsertKeepsDistinct(networks, changes[0]);
      UpsertAllKeepsDistinct(UpsertNetwork(networks, changes[0]), changes[1..]);
    }
  }

  lemma ChangeKeepsDistinct(p: Policy, c: Change, now: string)
    requires NamesDistinct(p.networks)
    ensures NamesDistinct(ApplyChange(p, c, now).networks)
  {
    if c.SetLimits? {
      UpsertAllKeepsDistinct(p.networks, c.networks);
    }
  }
}
