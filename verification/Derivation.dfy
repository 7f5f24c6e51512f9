/** Derivation watermarks of the keystore's meta.json (internal/keys/account.go, meta.go, wallet.go). */
module Derivation {
  import opened Base
  import opened AddressKeys

  // ── meta.json ────────────────────────────────────────────────────────────────

  /** One derivation chain: its public key, the next unused index per branch, the addresses made. */
  datatype Chain = Chain(xpub: string, nextReceive: uint32, nextChange: uint32, addresses: map<string, string>)

  datatype Scope = Agnostic | Bound(network: string)

  datatype Wallet = Wallet(name: string, scope: Scope, chains: map<string, Chain>)

  datatype WalletV1 = WalletV1(name: string, network: string, chain: Chain)

  datatype Meta = Meta(defaultWallet: string, wallets: map<string, Wallet>)

  /** meta.json: absent, the old format, the current one, or something else. */
  datatype MetaFile = Absent | Old(oldDefault: string, oldWallets: map<string, WalletV1>) | Current(meta: Meta) | Unreadable

  function CoinOf(network: string): string { if network == "mainnet" then "0" else "1" }

  predicate KnownNetwork(network: string) { network in {"", "mainnet", "testnet", "testnet4", "signet", "regtest"} }

  /** An old wallet becomes a bound wallet with one chain. */
  function Migrated(w: WalletV1): Wallet {
    Wallet(w.name, Bound(w.network), map[CoinOf(w.network) := w.chain])
  }

  function Load(f: MetaFile): Option<Meta> {
    match f
    case Absent => Some(Meta("", map[]))
    case Current(m) => Some(m)
    case Old(d, ws) =>
      if exists id :: id in ws && !KnownNetwork(ws[id].network) then None
      else Some(Meta(d, map id | id in ws :: Migrated(ws[id])))
    case Unreadable => None
  }

  /** The migration loop over the old wallets. */
  method MigrateV1(defaultWallet: string, v1: map<string, WalletV1>) returns (m: Option<Meta>)
    ensures m == Load(Old(defaultWallet, v1))
    ensures m.None? <==> exists id :: id in v1 && v1[id].network !in {"", "mainnet", "testnet", "testnet4", "signet", "regtest"}
    ensures m.Some? ==>
              && m.value.defaultWallet == defaultWallet && m.value.wallets.Keys == v1.Keys
              && forall id :: id in v1 ==>
                   m.value.wallets[id] == Wallet(v1[id].name, Bound(v1[id].network),
                                                 map[(if v1[id].network == "mainnet" then "0" else "1") := v1[id].chain])
  {
    var wallets: map<string, Wallet> := map[];
    var rest := v1.Keys;
    while rest != {}
      invariant rest <= v1.Keys
      invariant forall id :: id in v1 && id !in rest ==> KnownNetwork(v1[id].network)
      invariant wallets == map id | id in v1 && id !in rest :: Migrated(v1[id])
    {
      var id :| id in rest;
      var w := v1[id];
      if !KnownNetwork(w.network) {
        return None;
      }
      wallets := wallets[id := Wallet(w.name, Bound(w.network), map[CoinOf(w.network) := w.chain])];
      rest := rest - {id};
    }
    assert wallets == map id | id in v1 :: Migrated(v1[id]);
    assert !exists id :: id in v1 && !KnownNetwork(v1[id].network);
    m := Some(Meta(defaultWallet, wallets));
  }

  method LoadMeta(f: MetaFile) returns (m: Option<Meta>)
    ensures m == Load(f)
  {
    match f {
      case Absent => m := Some(Meta("", map[]));
      case Current(current) => m := Some(current);
      case Old(d, ws) => m := MigrateV1(d, ws);
      case Unreadable => m := None;
    }
  }

  function Next(c: Chain, b: Branch): uint32 { if b.Change? then c.nextChange else c.nextReceive }

  /** The chain after index `Next(c, b)` was given the address `a`. */
  function Advanced(c: Chain, b: Branch, a: string): Chain
    requires Next(c, b) < 0xFFFF_FFFF
  {
    var d := c.(addresses := c.addresses[AddressKey(b, Next(c, b)) := a]);
    if b.Change? then d.(nextChange := c.nextChange + 1) else d.(nextReceive := c.nextReceive + 1)
  }

  function WithChain(m: Meta, id: string, coin: string, c: Chain): Meta
    requires id in m.wallets
  {
    m.(wallets := m.wallets[id := m.wallets[id].(chains := m.wallets[id].chains[coin := c])])
  }

  // ── the tripwire ─────────────────────────────────────────────────────────────

  /** Every recorded address has a canonical key below the watermark of its branch. */
  ghost predicate BelowWatermark(c: Chain, key: string) {
    exists b: Branch, i: uint32 :: key == AddressKey(b, i) && i < Next(c, b)
  }

  ghost predicate ChainSound(c: Chain) { forall key :: key in c.addresses ==> BelowWatermark(c, key) }

  ghost predicate WalletSound(w: Wallet) { forall coin :: coin in w.chains ==> ChainSound(w.chains[coin]) }

  ghost predicate Sound(m: Meta) { forall id :: id in m.wallets ==> WalletSound(m.wallets[id]) }

  method CheckChain(c: Chain) returns (ok: bool)
    ensures ok <==> ChainSound(c)
  {
    var rest := c.addresses.Keys;
    while rest != {}
      invariant rest <= c.addresses.Keys
      invariant forall key :: key in c.addresses && key !in rest ==> BelowWatermark(c, key)
    {
      var key :| key in rest;
      var parsed := ParseAddressKey(key);
      if parsed.None? {
        assert !BelowWatermark(c, key);
        return false;
      }
      var (b, i) := parsed.value;
      var next := c.nextReceive;
      if b.Change? {
        next := c.nextChange;
      }
      if i >= next {
        forall d: Branch, j: uint32 | key == AddressKey(d, j) ensures d == b && j == i { KeyInjective(d, j, b, i); }
        assert !BelowWatermark(c, key);
        return false;
      }
      rest := rest - {key};
    }
    return true;
  }

  /** The check every opening makes: it passes exactly on sound metadata. */
  method CheckWatermark(m: Meta) returns (ok: bool)
    ensures ok <==> Sound(m)
  {
    var ids := m.wallets.Keys;
    while ids != {}
      invariant ids <= m.wallets.Keys
      invariant forall id :: id in m.wallets && id !in ids ==> WalletSound(m.wallets[id])
    {
      var id :| id in ids;
      var w := m.wallets[id];
      var coins := w.chains.Keys;
      while coins != {}
        invariant coins <= w.chains.Keys
        invariant forall coin :: coin in w.chains && coin !in coins ==> ChainSound(w.chains[coin])
      {
        var coin :| coin in coins;
        ok := CheckChain(w.chains[coin]);
        if !ok {
          return;
        }
        coins := coins - {coin};
      }
      ids := ids - {id};
    }
    return true;
  }

  lemma AdvanceKeepsSound(c: Chain, b: Branch, a: string)
    requires ChainSound(c) && Next(c, b) < 0xFFFF_FFFF
    ensures ChainSound(Advanced(c, b, a))
    ensures AddressKey(b, Next(c, b)) !in c.addresses
  {
    var d := Advanced(c, b, a);
    forall key | key in d.addresses ensures BelowWatermark(d, key) {
      if key in c.addresses {
        var e, i: uint32 :| key == AddressKey(e, i) && i < Next(c, e);
        assert i < Next(d, e);
      } else {
        assert key == AddressKey(b, Next(c, b)) && Next(c, b) < Next(d, b);
      }
    }
    if AddressKey(b, Next(c, b)) in c.addresses {
      var e, i: uint32 :| AddressKey(b, Next(c, b)) == AddressKey(e, i) && i < Next(c, e);
      KeyInjective(b, Next(c, b), e, i);
      assert false;
    }
  }

  // ── what has been handed out ─────────────────────────────────────────────────

  /** One derivation index of one chain of one wallet. */
  datatype Slot = Slot(wallet: string, coin: string, branch: Branch, index: nat)

  /** The slot is below its chain's watermark, so it will not be allocated again. */
  ghost predicate Spent(m: Meta, s: Slot) {
    && s.wallet in m.wallets && s.coin in m.wallets[s.wallet].chains
    && s.index < Next(m.wallets[s.wallet].chains[s.coin], s.branch)
  }

  ghost predicate Distinct(handed: seq<Slot>) { forall i, j :: 0 <= i < j < |handed| ==> handed[i] != handed[j] }

  /** What holds at every moment: the file loads and passes the check, and nothing was handed out
      twice or can be handed out again. */
  ghost predicate Inv(f: MetaFile, handed: seq<Slot>) {
    && Load(f).Some? && Sound(Load(f).value)
    && Distinct(handed) && forall s :: s in handed ==> Spent(Load(f).value, s)
  }

  /** No watermark goes down and no chain disappears. */
  ghost predicate Grows(was: Meta, now: Meta) {
    forall id :: id in was.wallets ==>
      && id in now.wallets
      && forall coin :: coin in was.wallets[id].chains ==>
           && coin in now.wallets[id].chains
           && forall b :: Next(was.wallets[id].chains[coin], b) <= Next(now.wallets[id].chains[coin], b)
  }

  /** The slot is the first unused index, publicly derivable, of a wallet of that name, on the chain of
      coin 0 for mainnet and 1 for any other network, and no address is recorded under its key. */
  ghost predicate IsNext(m: Meta, name: string, network: string, b: Branch, s: Slot) {
    && s.wallet in m.wallets && m.wallets[s.wallet].name == name && s.branch == b
    && s.coin == (if network == "mainnet" then "0" else "1") && s.coin in m.wallets[s.wallet].chains
    && var c := m.wallets[s.wallet].chains[s.coin];
       s.index == (if b == Change then c.nextChange else c.nextReceive) < 0x8000_0000 && AddressKey(b, s.index) !in c.addresses
  }

  lemma GrowthKeepsSpent(was: Meta, now: Meta, handed: seq<Slot>)
    requires Grows(was, now) && forall s :: s in handed ==> Spent(was, s)
    ensures forall s :: s in handed ==> Spent(now, s)
  {
  }

  lemma FreshSlot(m: Meta, handed: seq<Slot>, s: Slot)
    requires (forall x :: x in handed ==> Spent(m, x)) && Distinct(handed) && !Spent(m, s)
    ensures Distinct(handed + [s])
  {
    forall k | 0 <= k < |handed| ensures handed[k] != s { assert handed[k] in handed; }
  }

  lemma AdvanceGrows(m: Meta, id: string, coin: string, b: Branch, a: string)
    requires Sound(m) && id in m.wallets && coin in m.wallets[id].chains && Next(m.wallets[id].chains[coin], b) < 0xFFFF_FFFF
    ensures var c := m.wallets[id].chains[coin];
            var n := WithChain(m, id, coin, Advanced(c, b, a));
            && Sound(n) && Grows(m, n)
            && !Spent(m, Slot(id, coin, b, Next(c, b))) && Spent(n, Slot(id, coin, b, Next(c, b)))
  {
    var c := m.wallets[id].chains[coin];
    AdvanceKeepsSound(c, b, a);
  }

  // ── new chains ───────────────────────────────────────────────────────────────

  const AGNOSTIC_NETWORKS := ["mainnet", "testnet"]

  /** The networks whose chains a new wallet gets: its own, or one per coin. */
  function Networks(bound: Option<string>): seq<string> { if bound.Some? then [bound.value] else AGNOSTIC_NETWORKS }

  /** A chain as it is created: its first receive address made. */
  predicate FirstChain(c: Chain) {
    c.nextReceive == 1 && c.nextChange == 0 && c.addresses.Keys == {AddressKey(Receive, 0)}
  }

  lemma FirstChainSound(c: Chain)
    requires FirstChain(c)
    ensures ChainSound(c)
  {
    var zero: uint32 := 0;
    assert BelowWatermark(c, AddressKey(Receive, zero));
  }

  /** `now` has the chains of `was` and first chains for the coins `added`. */
  ghost predicate Extends(was: map<string, Chain>, now: map<string, Chain>, added: seq<string>) {
    && (forall i, j :: 0 <= i < j < |added| ==> added[i] != added[j])
    && (forall coin :: coin in added ==> coin !in was && coin in now && FirstChain(now[coin]))
    && (forall coin :: coin in was ==> coin in now && now[coin] == was[coin])
    && (forall coin :: coin in now ==> coin in was || coin in added)
  }

  /** The slots of the first receive addresses. */
  function FirstSlots(id: string, added: seq<string>): seq<Slot> {
    seq(|added|, i requires 0 <= i < |added| => Slot(id, added[i], Receive, 0))
  }

  lemma FirstSlotsAreFresh(m: Meta, handed: seq<Slot>, id: string, added: seq<string>)
    requires (forall s :: s in handed ==> Spent(m, s)) && Distinct(handed)
    requires forall i, j :: 0 <= i < j < |added| ==> added[i] != added[j]
    requires forall coin :: coin in added ==> !Spent(m, Slot(id, coin, Receive, 0))
    ensures Distinct(handed + FirstSlots(id, added))
  {
    var slots := FirstSlots(id, added);
    forall i, k | 0 <= i < |handed| && 0 <= k < |slots| ensures handed[i] != slots[k] {
      assert handed[i] in handed && added[k] in added;
    }
    forall i, j | 0 <= i < j < |slots| ensures slots[i] != slots[j] {
      assert added[i] != added[j];
    }
  }

  /** A wallet gaining first chains: nothing handed out can be handed out again. */
  lemma NewChainsKeepInv(m: Meta, n: Meta, handed: seq<Slot>, id: string, was: map<string, Chain>, added: seq<string>)
    requires Sound(m) && Distinct(handed) && forall s :: s in handed ==> Spent(m, s)
    requires was == if id in m.wallets then m.wallets[id].chains else map[]
    requires id in n.wallets && Extends(was, n.wallets[id].chains, added)
    requires n.wallets.Keys == m.wallets.Keys + {id}
    requires forall k :: k in m.wallets && k != id ==> n.wallets[k] == m.wallets[k]
    ensures Sound(n) && Distinct(handed + FirstSlots(id, added))
    ensures forall s :: s in handed + FirstSlots(id, added) ==> Spent(n, s)
  {
    var now := n.wallets[id].chains;
    forall coin | coin in now ensures ChainSound(now[coin]) {
      if coin in added {
        FirstChainSound(now[coin]);
      } else {
        assert WalletSound(m.wallets[id]);
      }
    }
    assert Grows(m, n);
    GrowthKeepsSpent(m, n, handed);
    FirstSlotsAreFresh(m, handed, id, added);
  }

  // ── the addresses recorded ───────────────────────────────────────────────────

  /** Address derivation from a chain's public key; the public derivation of BIP-32 fails at 2^31. */
  type Derive = (string, string, Branch, nat) -> Option<string>

  ghost predicate PublicOnly(d: Derive) {
    forall xpub, network, b, i :: i >= 0x8000_0000 ==> d(xpub, network, b, i).None?
  }

  /** The network whose form of an address a chain records. */
  function Canonical(coin: string): string { if coin == "0" then "mainnet" else "testnet" }

  /** The metadata with the slot allocated: its chain records the address the slot has on the canonical
      network of its coin and moves the branch's watermark past it, and nothing else changes. */
  ghost predicate Allocates(d: Derive, m: Meta, n: Meta, network: string, s: Slot) {
    && s.wallet in m.wallets && s.coin in m.wallets[s.wallet].chains && s.index < 0x8000_0000
    && var w := m.wallets[s.wallet];
       var c := w.chains[s.coin];
       var a := d(c.xpub, if network == "mainnet" then "mainnet" else "testnet", s.branch, s.index);
       && s.index == (if s.branch == Change then c.nextChange else c.nextReceive) && a.Some?
       && var addresses := c.addresses[AddressKey(s.branch, s.index) := a.value];
          var grown := if s.branch == Change then Chain(c.xpub, c.nextReceive, c.nextChange + 1, addresses)
                       else Chain(c.xpub, c.nextReceive + 1, c.nextChange, addresses);
          n == m.(wallets := m.wallets[s.wallet := w.(chains := w.chains[s.coin := grown])])
  }

  /** The recorded address is the one its key derives: on the canonical network of the coin, or, for the
      first receive address, on whichever network of the coin the chain was made for. */
  ghost predicate Derives(d: Derive, coin: string, xpub: string, b: Branch, i: nat, a: string) {
    || d(xpub, if coin == "0" then "mainnet" else "testnet", b, i) == Some(a)
    || (b == Receive && i == 0 && exists net :: coin == (if net == "mainnet" then "0" else "1") && d(xpub, net, b, i) == Some(a))
  }

  ghost predicate ChainDerived(d: Derive, coin: string, c: Chain) {
    forall b: Branch, i: nat :: AddressKey(b, i) in c.addresses ==> Derives(d, coin, c.xpub, b, i, c.addresses[AddressKey(b, i)])
  }

  /** Every recorded address is the one its key derives. */
  ghost predicate Derived(d: Derive, m: Meta) {
    forall id, coin :: id in m.wallets && coin in m.wallets[id].chains ==> ChainDerived(d, coin, m.wallets[id].chains[coin])
  }

  lemma AdvanceKeepsDerived(d: Derive, coin: string, c: Chain, b: Branch, a: string)
    requires Next(c, b) < 0xFFFF_FFFF && d(c.xpub, Canonical(coin), b, Next(c, b)) == Some(a)
    ensures ChainDerived(d, coin, c) ==> ChainDerived(d, coin, Advanced(c, b, a))
  {
    if ChainDerived(d, coin, c) {
      var n := Advanced(c, b, a);
      forall e: Branch, i: nat | AddressKey(e, i) in n.addresses ensures Derives(d, coin, n.xpub, e, i, n.addresses[AddressKey(e, i)]) {
        if AddressKey(e, i) == AddressKey(b, Next(c, b)) {
          KeyInjective(e, i, b, Next(c, b));
        }
      }
    }
  }

  /** A chain as it is made for a network, from the seed's account key of that network. */
  ghost predicate MadeFor(d: Derive, account: (string, string) -> string, seed: string, net: string, c: Chain) {
    var xpub := account(seed, net);
    && c.xpub == xpub && c.nextReceive == 1 && c.nextChange == 0
    && d(xpub, net, Receive, 0).Some? && c.addresses == map["0/0" := d(xpub, net, Receive, 0).value]
  }

  lemma MadeIsDerived(d: Derive, account: (string, string) -> string, seed: string, net: string, coin: string, c: Chain)
    requires MadeFor(d, account, seed, net, c) && coin == CoinOf(net)
    ensures FirstChain(c) && ChainDerived(d, coin, c)
  {
    KeyForms(0);
    forall b: Branch, i: nat | AddressKey(b, i) in c.addresses ensures Derives(d, coin, c.xpub, b, i, c.addresses[AddressKey(b, i)]) {
      KeyInjective(b, i, Receive, 0);
    }
  }

  /** A wallet's chains, some made for it now: those it had, and one for each coin of these networks. */
  ghost predicate ChainsFor(d: Derive, account: (string, string) -> string, seed: string, nets: set<string>,
                            was: map<string, Chain>, now: map<string, Chain>) {
    && (forall coin :: coin in was ==> coin in now && now[coin] == was[coin])
    && (forall net :: net in nets ==> (if net == "mainnet" then "0" else "1") in now)
    && forall coin :: coin in now && coin !in was ==>
         exists net :: net in nets && coin == (if net == "mainnet" then "0" else "1") && MadeFor(d, account, seed, net, now[coin])
  }

  /** Every first address that is wanted can be derived. */
  ghost predicate CanMake(d: Derive, account: (string, string) -> string, seed: string, nets: set<string>, was: map<string, Chain>) {
    forall net :: net in nets && (if net == "mainnet" then "0" else "1") !in was ==> d(account(seed, net), net, Receive, 0).Some?
  }

  function SetOf(networks: seq<string>): set<string> { set net | net in networks }

  lemma AllMade(d: Derive, account: (string, string) -> string, seed: string, nets: set<string>, now: map<string, Chain>)
    requires ChainsFor(d, account, seed, nets, map[], now) && forall a, b :: a in nets && b in nets && CoinOf(a) == CoinOf(b) ==> a == b
    ensures CanMake(d, account, seed, nets, map[])
  {
    forall net | net in nets ensures d(account(seed, net), net, Receive, 0).Some? {
      var x :| x in nets && CoinOf(net) == CoinOf(x) && MadeFor(d, account, seed, x, now[CoinOf(net)]);
    }
  }

  lemma NewChainsKeepDerived(d: Derive, account: (string, string) -> string, seed: string, nets: set<string>,
                             m: Meta, n: Meta, id: string, was: map<string, Chain>)
    requires was == if id in m.wallets then m.wallets[id].chains else map[]
    requires n.wallets.Keys == m.wallets.Keys + {id} && ChainsFor(d, account, seed, nets, was, n.wallets[id].chains)
    requires forall k :: k in m.wallets && k != id ==> n.wallets[k] == m.wallets[k]
    ensures Derived(d, m) ==> Derived(d, n)
  {
    if Derived(d, m) {
      forall k, coin | k in n.wallets && coin in n.wallets[k].chains ensures ChainDerived(d, coin, n.wallets[k].chains[coin]) {
        if k == id && coin !in was {
          var net :| net in nets && coin == CoinOf(net) && MadeFor(d, account, seed, net, n.wallets[id].chains[coin]);
          MadeIsDerived(d, account, seed, net, coin, n.wallets[id].chains[coin]);
        }
      }
    }
  }

  // ── the keystore ─────────────────────────────────────────────────────────────

  /** What a write meets: it works, it fails without effect, or it lands but the caller never hears. */
  datatype Fault = Fine | Fails | Late

  /** An allocated slot, and its address on the caller's network. */
  datatype Allocation = Allocation(slot: Slot, address: string)

  class Keystore {
    const derive: Derive
    const account: (string, string) -> string // a seed's account key for a network
    var file: MetaFile
    var faults: seq<Fault>      // what the coming writes will meet
    ghost var handed: seq<Slot> // every slot reported to a caller

    constructor (derive: Derive, account: (string, string) -> string, file: MetaFile)
      ensures this.derive == derive && this.account == account && this.file == file && faults == [] && handed == []
    {
      this.derive, this.account, this.file, faults, handed := derive, account, file, [], [];
    }

    /** Saves the metadata in the current format. */
    method SaveMeta(m: Meta) returns (ok: bool)
      modifies this`file, this`faults
      ensures var f := if old(faults) == [] then Fine else old(faults)[0];
              && file == (if f == Fails then old(file) else Current(m)) && ok == (f == Fine)
              && faults == if old(faults) == [] then [] else old(faults)[1..]
    {
      var f := if faults == [] then Fine else faults[0];
      faults := if faults == [] then [] else faults[1..];
      if f != Fails {
        file := Current(m);
      }
      ok := f == Fine;
    }

    /** Some wallet with the name: there is at most one if names are unique. */
    method FindWalletByName(m: Meta, name: string) returns (id: Option<string>)
      ensures id.Some? ==> id.value in m.wallets && m.wallets[id.value].name == name
      ensures id.None? ==> forall k :: k in m.wallets ==> m.wallets[k].name != name
    {
      var rest := m.wallets.Keys;
      while rest != {}
        invariant rest <= m.wallets.Keys
        invariant forall k :: k in m.wallets && k !in rest ==> m.wallets[k].name != name
      {
        var k :| k in rest;
        if m.wallets[k].name == name {
          return Some(k);
        }
        rest := rest - {k};
      }
      return None;
    }

    /** Opening checks the watermarks. */
    method Open() returns (ok: bool)
      ensures ok <==> Load(file).Some? && Sound(Load(file).value)
    {
      var m := LoadMeta(file);
      if m.None? {
        return false;
      }
      ok := CheckWatermark(m.value);
    }

    /** Allocates the next unused index of a branch and reports it, with its address on the caller's
        network, once it is on disk. The file is as it was or has the slot allocated, and nothing else. */
    method DeriveNext(name: string, network: string, b: Branch) returns (out: Option<Allocation>)
      requires Inv(file, handed) && PublicOnly(derive)
      modifies this`file, this`faults, this`handed
      ensures Inv(file, handed)
      ensures Load(file).value.wallets.Keys == Load(old(file)).value.wallets.Keys
      ensures file == old(file)
              || exists s :: IsNext(Load(old(file)).value, name, network, b, s)
                          && Allocates(derive, Load(old(file)).value, Load(file).value, network, s)
      ensures out.None? ==> handed == old(handed)
      ensures out.Some? ==>
                var m, s := Load(old(file)).value, out.value.slot;
                && handed == old(handed) + [s] && s !in old(handed) && IsNext(m, name, network, b, s)
                && Allocates(derive, m, Load(file).value, network, s)
                && derive(m.wallets[s.wallet].chains[s.coin].xpub, network, b, s.index) == Some(out.value.address)
      ensures old(faults) == [] && out.None? ==> !CanDerive(Load(old(file)).value, name, network, b)
      ensures Derived(derive, Load(old(file)).value) ==> Derived(derive, Load(file).value)
    {
      hide Grows, Spent, Advanced, Distinct, ChainDerived;
      var loaded := LoadMeta(file);
      var m := loaded.value;
      var id := FindWalletByName(m, name);
      if id.None? {
        return None;
      }
      var w, coin := m.wallets[id.value], CoinOf(network);
      if coin !in w.chains {
        return None;
      }
      var c := w.chains[coin];
      var index := c.nextReceive;
      if b.Change? {
        index := c.nextChange;
      }
      var address := derive(c.xpub, network, b, index);
      if address.None? {
        return None;
      }
      var cached := derive(c.xpub, Canonical(coin), b, index);
      if cached.None? {
        return None;
      }
      var n := WithChain(m, id.value, coin, Advanced(c, b, cached.value));
      var slot := Slot(id.value, coin, b, index);
      AllocatesNext(m, n, name, network, slot, cached.value);
      AllocatesFresh(m, n, handed, network, slot, cached.value);
      var ok := SaveMeta(n);
      if !ok {
        return None;
      }
      handed := handed + [slot];
      out := Some(Allocation(slot, address.value));
    }

    /** Every wallet of that name, and there is one, has a chain whose next index derives on the caller's
        network and on the chain's own. */
    ghost predicate CanDerive(m: Meta, name: string, network: string, b: Branch) {
      && (exists id :: id in m.wallets && m.wallets[id].name == name)
      && forall id :: id in m.wallets && m.wallets[id].name == name ==>
           var coin := if network == "mainnet" then "0" else "1";
           && coin in m.wallets[id].chains
           && var c := m.wallets[id].chains[coin];
              var i := if b == Change then c.nextChange else c.nextReceive;
              derive(c.xpub, network, b, i).Some? && derive(c.xpub, if coin == "0" then "mainnet" else "testnet", b, i).Some?
    }

    /** The slot is where the watermark points. */
    predicate AtWatermark(m: Meta, network: string, s: Slot, a: string) {
      && s.wallet in m.wallets && s.coin == CoinOf(network) && s.coin in m.wallets[s.wallet].chains
      && var c := m.wallets[s.wallet].chains[s.coin];
         s.index == Next(c, s.branch) < 0x8000_0000 && derive(c.xpub, Canonical(s.coin), s.branch, s.index) == Some(a)
    }

    lemma AllocatesNext(m: Meta, n: Meta, name: string, network: string, s: Slot, a: string)
      requires Sound(m) && AtWatermark(m, network, s, a) && m.wallets[s.wallet].name == name
      requires n == WithChain(m, s.wallet, s.coin, Advanced(m.wallets[s.wallet].chains[s.coin], s.branch, a))
      ensures IsNext(m, name, network, s.branch, s) && Allocates(derive, m, n, network, s)
      ensures Derived(derive, m) ==> Derived(derive, n)
    {
      hide BelowWatermark, ChainDerived;
      var c := m.wallets[s.wallet].chains[s.coin];
      AdvanceKeepsSound(c, s.branch, a);
      AdvanceKeepsDerived(derive, s.coin, c, s.branch, a);
    }

    lemma AllocatesFresh(m: Meta, n: Meta, handed: seq<Slot>, network: string, s: Slot, a: string)
      requires Sound(m) && Distinct(handed) && (forall x :: x in handed ==> Spent(m, x)) && AtWatermark(m, network, s, a)
      requires n == WithChain(m, s.wallet, s.coin, Advanced(m.wallets[s.wallet].chains[s.coin], s.branch, a))
      ensures Sound(n) && Distinct(handed + [s]) && s !in handed && forall x :: x in handed + [s] ==> Spent(n, x)
    {
      hide Spent, Grows, Advanced;
      AdvanceGrows(m, s.wallet, s.coin, s.branch, a);
      GrowthKeepsSpent(m, n, handed);
      FreshSlot(m, handed, s);
    }

    /** First chains for the networks whose coin has none yet. */
    method AddChains(was: map<string, Chain>, networks: seq<string>, seed: string) returns (now: Option<map<string, Chain>>, ghost added: seq<string>)
      ensures now.Some? ==> Extends(was, now.value, added) && ChainsFor(derive, account, seed, SetOf(networks), was, now.value)
      ensures now.None? ==> !CanMake(derive, account, seed, SetOf(networks), was)
    {
      hide Extends, ChainsFor, MadeFor;
      var chains := was;
      added := [];
      StartsAlike(was, seed);
      for i := 0 to |networks|
        invariant Extends(was, chains, added) && ChainsFor(derive, account, seed, SetOf(networks[..i]), was, chains)
      {
        var coin := CoinOf(networks[i]);
        if coin in chains {
          HasChain(was, chains, networks, i, seed);
          continue;
        }
        var xpub := account(seed, networks[i]);
        var first := derive(xpub, networks[i], Receive, 0);
        if first.None? {
          ChainsStay(was, chains, networks, i, seed);
          return None, added;
        }
        var made := Chain(xpub, 1, 0, map[AddressKey(Receive, 0) := first.value]);
        AddsChain(was, chains, added, networks, i, seed, made);
        chains := chains[coin := made];
        added := added + [coin];
      }
      assert networks[..|networks|] == networks;
      now := Some(chains);
    }

    lemma StartsAlike(was: map<string, Chain>, seed: string)
      ensures Extends(was, was, []) && ChainsFor(derive, account, seed, SetOf([]), was, was)
    {
    }

    lemma ChainsStay(was: map<string, Chain>, chains: map<string, Chain>, networks: seq<string>, i: nat, seed: string)
      requires i < |networks| && ChainsFor(derive, account, seed, SetOf(networks[..i]), was, chains)
      requires CoinOf(networks[i]) !in chains
      ensures CoinOf(networks[i]) !in was && networks[i] in SetOf(networks)
    {
    }

    lemma HasChain(was: map<string, Chain>, chains: map<string, Chain>, networks: seq<string>, i: nat, seed: string)
      requires i < |networks| && CoinOf(networks[i]) in chains
      requires ChainsFor(derive, account, seed, SetOf(networks[..i]), was, chains)
      ensures ChainsFor(derive, account, seed, SetOf(networks[..i + 1]), was, chains)
    {
      hide MadeFor;
      assert networks[..i + 1] == networks[..i] + [networks[i]];
      assert SetOf(networks[..i + 1]) == SetOf(networks[..i]) + {networks[i]};
    }

    lemma AddsChain(was: map<string, Chain>, chains: map<string, Chain>, added: seq<string>, networks: seq<string>, i: nat, seed: string, c: Chain)
      requires i < |networks| && Extends(was, chains, added) && CoinOf(networks[i]) !in chains
      requires ChainsFor(derive, account, seed, SetOf(networks[..i]), was, chains)
      requires var xpub := account(seed, networks[i]);
               var first := derive(xpub, networks[i], Receive, 0);
               first.Some? && c == Chain(xpub, 1, 0, map[AddressKey(Receive, 0) := first.value])
      ensures var coin := CoinOf(networks[i]);
              && Extends(was, chains[coin := c], added + [coin])
              && ChainsFor(derive, account, seed, SetOf(networks[..i + 1]), was, chains[coin := c])
    {
      KeyForms(0);
      assert MadeFor(derive, account, seed, networks[i], c);
      assert FirstChain(c);
      hide Extends, ChainsFor, MadeFor, FirstChain;
      OneMoreChain(was, chains, added, CoinOf(networks[i]), c);
      OneMoreFor(was, chains, networks, i, seed, c);
    }

    lemma OneMoreChain(was: map<string, Chain>, chains: map<string, Chain>, added: seq<string>, coin: string, c: Chain)
      requires Extends(was, chains, added) && coin !in chains && FirstChain(c)
      ensures Extends(was, chains[coin := c], added + [coin])
    {
      hide FirstChain;
    }

    lemma OneMoreFor(was: map<string, Chain>, chains: map<string, Chain>, networks: seq<string>, i: nat, seed: string, c: Chain)
      requires i < |networks| && CoinOf(networks[i]) !in chains && MadeFor(derive, account, seed, networks[i], c)
      requires ChainsFor(derive, account, seed, SetOf(networks[..i]), was, chains)
      ensures ChainsFor(derive, account, seed, SetOf(networks[..i + 1]), was, chains[CoinOf(networks[i]) := c])
    {
      hide MadeFor;
      assert networks[..i + 1] == networks[..i] + [networks[i]];
      assert SetOf(networks[..i + 1]) == SetOf(networks[..i]) + {networks[i]};
    }

    /** Creates a wallet, bound to one network or agnostic, with its first addresses. Undisturbed, it is
        refused exactly when the name is taken or a first address does not derive. */
    method CreateWallet(name: string, bound: Option<string>, seed: string, id: string) returns (ok: bool)
      requires Inv(file, handed) && id !in Load(file).value.wallets
      modifies this`file, this`faults, this`handed
      ensures Inv(file, handed)
      ensures Load(file).value.wallets.Keys <= Load(old(file)).value.wallets.Keys + {id}
      ensures old(handed) <= handed && (!ok ==> handed == old(handed))
      ensures ok ==>
                && Created(Load(old(file)).value, Load(file).value, name, bound, seed, id)
                && forall coin :: coin in Load(file).value.wallets[id].chains ==> Slot(id, coin, Receive, 0) in handed
      ensures file == old(file) || Created(Load(old(file)).value, Load(file).value, name, bound, seed, id)
      ensures old(faults) == [] ==>
                (ok <==>
                   && (forall k :: k in Load(old(file)).value.wallets ==> Load(old(file)).value.wallets[k].name != name)
                   && CanMake(derive, account, seed, if bound.Some? then {bound.value} else {"mainnet", "testnet"}, map[]))
      ensures Derived(derive, Load(old(file)).value) ==> Derived(derive, Load(file).value)
    {
      hide Derived, Created, CanMake, ChainsFor, Extends, Sound, Spent, Distinct;
      var loaded := LoadMeta(file);
      var m := loaded.value;
      var existing := FindWalletByName(m, name);
      if existing.Some? {
        return false;
      }
      var chains;
      ghost var added;
      chains, added := AddChains(map[], Networks(bound), seed);
      NetworkSet(bound);
      if chains.None? {
        return false;
      }
      var w := Wallet(name, if bound.Some? then Bound(bound.value) else Agnostic, chains.value);
      var n := m.(wallets := m.wallets[id := w], defaultWallet := if m.defaultWallet == "" then name else m.defaultWallet);
      NewChainsKeepInv(m, n, handed, id, map[], added);
      Creates(m, n, name, bound, seed, id, chains.value);
      ok := SaveMeta(n);
      if ok {
        HandsOut(handed, id, added, map[], chains.value);
        handed := handed + FirstSlots(id, added);
      }
    }

    lemma HandsOut(handed: seq<Slot>, id: string, added: seq<string>, was: map<string, Chain>, now: map<string, Chain>)
      requires Extends(was, now, added)
      ensures forall coin :: coin in now && coin !in was ==> Slot(id, coin, Receive, 0) in handed + FirstSlots(id, added)
    {
      forall coin | coin in now && coin !in was ensures Slot(id, coin, Receive, 0) in handed + FirstSlots(id, added) {
        var k :| 0 <= k < |added| && added[k] == coin;
        assert FirstSlots(id, added)[k] == Slot(id, coin, Receive, 0);
      }
    }

    lemma Creates(m: Meta, n: Meta, name: string, bound: Option<string>, seed: string, id: string, chains: map<string, Chain>)
      requires id !in m.wallets && forall k :: k in m.wallets ==> m.wallets[k].name != name
      requires ChainsFor(derive, account, seed, SetOf(Networks(bound)), map[], chains)
      requires n == m.(wallets := m.wallets[id := Wallet(name, if bound.Some? then Bound(bound.value) else Agnostic, chains)],
                       defaultWallet := if m.defaultWallet == "" then name else m.defaultWallet)
      ensures Created(m, n, name, bound, seed, id) && CanMake(derive, account, seed, SetOf(Networks(bound)), map[])
      ensures Derived(derive, m) ==> Derived(derive, n)
    {
      hide Derived;
      NetworkSet(bound);
      NewChainsKeepDerived(derive, account, seed, SetOf(Networks(bound)), m, n, id, map[]);
      AllMade(derive, account, seed, SetOf(Networks(bound)), chains);
    }

    lemma NetworkSet(bound: Option<string>)
      ensures SetOf(Networks(bound)) == if bound.Some? then {bound.value} else {"mainnet", "testnet"}
    {
    }

    /** The metadata with this wallet created and nothing else changed. */
    ghost predicate Created(m: Meta, n: Meta, name: string, bound: Option<string>, seed: string, id: string) {
      && (forall k :: k in m.wallets ==> m.wallets[k].name != name)
      && id in n.wallets && n.wallets == m.wallets[id := n.wallets[id]]
      && n.defaultWallet == (if m.defaultWallet == "" then name else m.defaultWallet)
      && n.wallets[id].name == name && n.wallets[id].scope == (if bound.Some? then Bound(bound.value) else Agnostic)
      && ChainsFor(derive, account, seed, if bound.Some? then {bound.value} else {"mainnet", "testnet"}, map[], n.wallets[id].chains)
    }

    /** Makes a bound wallet agnostic by adding the missing chains; those it had are untouched. Undisturbed,
        it is refused only when no bound wallet has the name or a first address does not derive. */
    method WalletUpgrade(name: string, seed: string) returns (ok: bool)
      requires Inv(file, handed)
      modifies this`file, this`faults, this`handed
      ensures Inv(file, handed)
      ensures Load(file).value.wallets.Keys == Load(old(file)).value.wallets.Keys
      ensures old(handed) <= handed && (!ok ==> handed == old(handed))
      ensures ok ==> exists id ::
                && Upgraded(Load(old(file)).value, Load(file).value, name, seed, id)
                && forall coin :: coin in Load(file).value.wallets[id].chains && coin !in Load(old(file)).value.wallets[id].chains ==>
                     Slot(id, coin, Receive, 0) in handed
      ensures file == old(file) || exists id :: Upgraded(Load(old(file)).value, Load(file).value, name, seed, id)
      ensures old(faults) == [] && !ok ==>
                var m := Load(old(file)).value;
                || (forall k :: k in m.wallets ==> m.wallets[k].name != name)
                || exists k :: k in m.wallets && m.wallets[k].name == name
                            && (m.wallets[k].scope == Agnostic || !CanMake(derive, account, seed, {"mainnet", "testnet"}, m.wallets[k].chains))
      ensures Derived(derive, Load(old(file)).value) ==> Derived(derive, Load(file).value)
    {
      hide Derived, Upgraded, CanMake, ChainsFor, Extends, Sound, Spent, Distinct;
      var loaded := LoadMeta(file);
      var m := loaded.value;
      var id := FindWalletByName(m, name);
      if id.None? || m.wallets[id.value].scope.Agnostic? {
        return false;
      }
      var w := m.wallets[id.value];
      var chains;
      ghost var added;
      NetworkSet(None);
      chains, added := AddChains(w.chains, AGNOSTIC_NETWORKS, seed);
      if chains.None? {
        return false;
      }
      var n := m.(wallets := m.wallets[id.value := w.(scope := Agnostic, chains := chains.value)]);
      NewChainsKeepInv(m, n, handed, id.value, w.chains, added);
      Upgrades(m, n, name, seed, id.value, chains.value);
      ok := SaveMeta(n);
      if ok {
        HandsOut(handed, id.value, added, w.chains, chains.value);
        handed := handed + FirstSlots(id.value, added);
      }
    }

    lemma Upgrades(m: Meta, n: Meta, name: string, seed: string, id: string, chains: map<string, Chain>)
      requires id in m.wallets && m.wallets[id].name == name && m.wallets[id].scope != Agnostic
      requires ChainsFor(derive, account, seed, {"mainnet", "testnet"}, m.wallets[id].chains, chains)
      requires n == m.(wallets := m.wallets[id := m.wallets[id].(scope := Agnostic, chains := chains)])
      ensures Upgraded(m, n, name, seed, id)
      ensures Derived(derive, m) ==> Derived(derive, n)
    {
      hide Derived, MadeFor;
      assert "mainnet" in {"mainnet", "testnet"} && "testnet" in {"mainnet", "testnet"};
      NewChainsKeepDerived(derive, account, seed, {"mainnet", "testnet"}, m, n, id, m.wallets[id].chains);
    }

    /** The metadata with this wallet made agnostic, with a chain for either coin, and nothing else changed. */
    ghost predicate Upgraded(m: Meta, n: Meta, name: string, seed: string, id: string) {
      && id in m.wallets && id in n.wallets && n == m.(wallets := m.wallets[id := n.wallets[id]])
      && m.wallets[id].name == name && m.wallets[id].scope != Agnostic
      && n.wallets[id].name == name && n.wallets[id].scope == Agnostic
      && "0" in n.wallets[id].chains && "1" in n.wallets[id].chains
      && ChainsFor(derive, account, seed, {"mainnet", "testnet"}, m.wallets[id].chains, n.wallets[id].chains)
    }
  }

  // ── whole runs ───────────────────────────────────────────────────────────────

  datatype Op =
    | Create(name: string, bound: Option<string>, seed: string, id: string)
    | Upgrade(name: string, seed: string)
    | Allocate(name: string, network: string, branch: Branch)

  datatype Call = Call(op: Op, faults: seq<Fault>)

  /** Created wallets get identifiers never used before. */
  ghost predicate FreshIds(calls: seq<Call>, used: set<string>) {
    && (forall i :: 0 <= i < |calls| && calls[i].op.Create? ==> calls[i].op.id !in used)
    && (forall i, j :: 0 <= i < j < |calls| && calls[i].op.Create? && calls[j].op.Create? ==> calls[i].op.id != calls[j].op.id)
  }

  method Execute(k: Keystore, call: Call)
    requires Inv(k.file, k.handed) && PublicOnly(k.derive)
    requires call.op.Create? ==> call.op.id !in Load(k.file).value.wallets
    modifies k
    ensures Inv(k.file, k.handed) && old(k.handed) <= k.handed
    ensures Derived(k.derive, Load(old(k.file)).value) ==> Derived(k.derive, Load(k.file).value)
    ensures Load(k.file).value.wallets.Keys <= Load(old(k.file)).value.wallets.Keys + if call.op.Create? then {call.op.id} else {}
  {
    k.faults := call.faults;
    match call.op {
      case Create(name, bound, seed, id) =>
        var ok := k.CreateWallet(name, bound, seed, id);
      case Upgrade(name, seed) =>
        var ok := k.WalletUpgrade(name, seed);
      case Allocate(name, network, b) =>
        var slot := k.DeriveNext(name, network, b);
    }
  }

  /** Over any run of creations, upgrades and allocations on any networks, from any file that passes
      the check, whatever the writes meet: no slot is ever handed out twice, every opening in between
      passes the check, and if every address on file was the one its key derives, so it stays. */
  method Drive(k: Keystore, calls: seq<Call>)
    requires Inv(k.file, k.handed) && PublicOnly(k.derive)
    requires FreshIds(calls, Load(k.file).value.wallets.Keys)
    modifies k
    ensures Inv(k.file, k.handed) && old(k.handed) <= k.handed
    ensures Derived(k.derive, Load(old(k.file)).value) ==> Derived(k.derive, Load(k.file).value)
  {
    hide Derived;
    ghost var used := Load(k.file).value.wallets.Keys;
    for i := 0 to |calls|
      invariant Inv(k.file, k.handed) && old(k.handed) <= k.handed
      invariant Derived(k.derive, Load(old(k.file)).value) ==> Derived(k.derive, Load(k.file).value)
      invariant forall id :: id in Load(k.file).value.wallets ==>
                  id in used || exists j :: 0 <= j < i && calls[j].op.Create? && calls[j].op.id == id
    {
      Execute(k, calls[i]);
      var passes := k.Open();
      assert passes;
    }
  }
}
