/** The canonical policy writer and the strict, tri-state reader (internal/policy/body.go), on
    JSON values. */
module Sealing {
  import opened Base
  import opened Orders
  import opened Policies

  datatype Json = Null | Bool(b: bool) | Num(n: int) | Str(s: string) | Arr(items: seq<Json>) | Obj(fields: seq<Field>)

  datatype Field = Field(key: string, value: Json)

  const BODY_VERSION := 1

  const MAX_TX := "max_tx_sat"
  const MAX_DAY := "max_day_sat"
  const MAX_RATE := "max_fee_rate_sat_vb"
  const ALLOWLIST_ON := "allowlist_enabled"
  const INCLUDE_SELF := "include_self"

  // ── writing ──────────────────────────────────────────────────────────────────

  /** A limit: an absent one is omitted in a network rule and null in the default block. */
  function WriteLimit(key: string, p: Option<string>, perNetwork: bool): seq<Field> {
    if p.None? then if perNetwork then [] else [Field(key, Null)]
    else if p.value == NULL_SENTINEL then [Field(key, Null)]
    else [Field(key, Str(p.value))]
  }

  function WriteBool(key: string, p: Option<bool>, perNetwork: bool): seq<Field> {
    if p.None? then if perNetwork then [] else [Field(key, Bool(false))]
    else [Field(key, Bool(p.value))]
  }

  function WriteLimits(l: Limits, perNetwork: bool): seq<Field> {
    WriteLimit(MAX_TX, l.maxTx, perNetwork)
    + (WriteLimit(MAX_DAY, l.maxDay, perNetwork)
       + (WriteLimit(MAX_RATE, l.maxFeeRate, perNetwork)
          + (WriteBool(ALLOWLIST_ON, l.allowlistOn, perNetwork)
             + WriteBool(INCLUDE_SELF, l.includeSelf, perNetwork))))
  }

  predicate ByNetwork(a: NetworkRule, b: NetworkRule) { LexLess(a.network, b.network) }

  predicate ByPin(a: Pin, b: Pin) {
    if a.source != b.source then LexLess(a.source, b.source) else LexLess(a.address, b.address)
  }

  function Map<T, U>(s: seq<T>, f: T -> U): seq<U> { seq(|s|, i requires 0 <= i < |s| => f(s[i])) }

  function WriteNetwork(n: NetworkRule): Json { Obj([Field("network", Str(n.network))] + WriteLimits(n.limits, true)) }

  function WritePin(p: Pin): Json {
    Obj([Field("source", Str(p.source)), Field("address", Str(p.address)),
         Field("label", Str(p.labelText)), Field("added_at", Str(p.addedAt))])
  }

  function WriteString(s: string): Json { Str(s) }

  function SortedLower(ss: seq<string>): seq<string> { SortBy(Map(ss, Lower), LexLess) }

  function WriteRules(defaults: Limits, networks: seq<NetworkRule>): Json {
    Obj([Field("default", Obj(WriteLimits(defaults, false))),
         Field("networks", Arr(Map(SortBy(networks, ByNetwork), WriteNetwork)))])
  }

  function WriteBody(p: Policy): Json {
    Obj([Field("version", Num(p.version)), Field("nonce", Num(p.nonce)),
         Field("updated_at", Str(p.updatedAt)), Field("written_by", Str(p.writtenBy)),
         Field("rules", WriteRules(p.defaults, p.networks)),
         Field("allowlist", Arr(Map(SortBy(p.allowlist, ByPin), WritePin))),
         Field("denylist", Arr(Map(SortBy(p.denylist, ByPin), WritePin))),
         Field("self_addresses", Arr(Map(SortedLower(p.selfAddresses), WriteString)))])
  }

  // ── reading ──────────────────────────────────────────────────────────────────

  /** The last value under a key. */
  function Lookup(fields: seq<Field>, key: string): Option<Json> {
    if fields == [] then None
    else if fields[|fields| - 1].key == key then Some(fields[|fields| - 1].value)
    else Lookup(fields[..|fields| - 1], key)
  }

  predicate Known(fields: seq<Field>, keys: set<string>) { forall f :: f in fields ==> f.key in keys }

  /** A string pointer: null and absent both read as absent. */
  function ReadOptString(fields: seq<Field>, key: string): Option<Option<string>> {
    match Lookup(fields, key)
    case None => Some(None)
    case Some(Null) => Some(None)
    case Some(Str(s)) => Some(Some(s))
    case Some(_) => None
  }

  function ReadOptBool(fields: seq<Field>, key: string): Option<Option<bool>> {
    match Lookup(fields, key)
    case None => Some(None)
    case Some(Null) => Some(None)
    case Some(Bool(b)) => Some(Some(b))
    case Some(_) => None
  }

  function ReadString(fields: seq<Field>, key: string): Option<string> {
    var s :- ReadOptString(fields, key);
    Some(if s.Some? then s.value else "")
  }

  function ReadNumber(fields: seq<Field>, key: string): Option<int> {
    match Lookup(fields, key)
    case None => Some(0)
    case Some(Null) => Some(0)
    case Some(Num(n)) => Some(n)
    case Some(_) => None
  }

  /** A list: null and absent read as empty. */
  function ReadItems(fields: seq<Field>, key: string): Option<seq<Json>> {
    match Lookup(fields, key)
    case None => Some([])
    case Some(Null) => Some([])
    case Some(Arr(items)) => Some(items)
    case Some(_) => None
  }

  /** The members of a nested object: null and absent read as none. */
  function ReadFields(fields: seq<Field>, key: string): Option<seq<Field>> {
    match Lookup(fields, key)
    case None => Some([])
    case Some(Null) => Some([])
    case Some(Obj(inner)) => Some(inner)
    case Some(_) => None
  }

  function ReadAll<T>(items: seq<Json>, read: Json -> Option<T>): Option<seq<T>> {
    if items == [] then Some([])
    else
      var front :- ReadAll(items[..|items| - 1], read);
      var last :- read(items[|items| - 1]);
      Some(front + [last])
  }

  function ReadLimits(fields: seq<Field>): Option<Limits> {
    var maxTx :- ReadOptString(fields, MAX_TX);
    var maxDay :- ReadOptString(fields, MAX_DAY);
    var maxRate :- ReadOptString(fields, MAX_RATE);
    var allowlistOn :- ReadOptBool(fields, ALLOWLIST_ON);
    var includeSelf :- ReadOptBool(fields, INCLUDE_SELF);
    Some(Limits(maxTx, maxDay, maxRate, allowlistOn, includeSelf))
  }

  function MarkNull(fields: seq<Field>, key: string, p: Option<string>): Option<string> {
    if Lookup(fields, key) == Some(Null) then Some(NULL_SENTINEL) else p
  }

  /** The second pass: a limit present as null gets the sentinel back. */
  function ApplyTriState(fields: seq<Field>, l: Limits): Limits {
    l.(maxTx := MarkNull(fields, MAX_TX, l.maxTx),
       maxDay := MarkNull(fields, MAX_DAY, l.maxDay),
       maxFeeRate := MarkNull(fields, MAX_RATE, l.maxFeeRate))
  }

  const LIMIT_KEYS := {MAX_TX, MAX_DAY, MAX_RATE, ALLOWLIST_ON, INCLUDE_SELF}

  /** A limit block, strictly: unknown members are refused. */
  function ReadLimitBlock(fields: seq<Field>, extra: set<string>): Option<Limits> {
    if !Known(fields, LIMIT_KEYS + extra) then None
    else
      var l :- ReadLimits(fields);
      Some(ApplyTriState(fields, l))
  }

  /** The members of a value decoded into a structure: null leaves the structure empty. */
  function Members(j: Json): Option<seq<Field>> {
    match j
    case Null => Some([])
    case Obj(fields) => Some(fields)
    case _ => None
  }

  function ReadNetwork(j: Json): Option<NetworkRule> {
    var fields :- Members(j);
    var l :- ReadLimitBlock(fields, {"network"});
    var name :- ReadString(fields, "network");
    Some(NetworkRule(name, l))
  }

  function ReadPin(j: Json): Option<Pin> {
    var fields :- Members(j);
    if !Known(fields, {"source", "address", "label", "added_at"}) then None
    else
      var source :- ReadString(fields, "source");
      var address :- ReadString(fields, "address");
      var text :- ReadString(fields, "label");
      var addedAt :- ReadString(fields, "added_at");
      Some(Pin(source, address, text, addedAt))
  }

  function ReadText(j: Json): Option<string> {
    match j
    case Null => Some("")
    case Str(s) => Some(s)
    case _ => None
  }

  const BODY_KEYS := {"version", "nonce", "updated_at", "written_by", "rules", "allowlist", "denylist", "self_addresses"}

  datatype Head = Head(version: int, nonce: nat, updatedAt: string, writtenBy: string)

  function ReadHead(fields: seq<Field>): Option<Head> {
    var version :- ReadNumber(fields, "version");
    var nonce :- ReadNumber(fields, "nonce");
    var updatedAt :- ReadString(fields, "updated_at");
    var writtenBy :- ReadString(fields, "written_by");
    if version > BODY_VERSION || nonce < 0 then None else Some(Head(version, nonce, updatedAt, writtenBy))
  }

  function ReadPins(fields: seq<Field>, key: string): Option<seq<Pin>> {
    var items :- ReadItems(fields, key);
    ReadAll(items, ReadPin)
  }

  function ReadTexts(fields: seq<Field>, key: string): Option<seq<string>> {
    var items :- ReadItems(fields, key);
    ReadAll(items, ReadText)
  }

  /** None is the version refusal: a newer version, an unknown member, a wrong type. */
  function ReadBody(j: Json): Option<Policy> {
    var fields :- Members(j);
    if !Known(fields, BODY_KEYS) then None
    else
      var h :- ReadHead(fields);
      var rules :- ReadFields(fields, "rules");
      var r :- ReadRules(rules);
      var allowlist :- ReadPins(fields, "allowlist");
      var denylist :- ReadPins(fields, "denylist");
      var selfAddresses :- ReadTexts(fields, "self_addresses");
      Some(Policy(h.version, h.nonce, h.updatedAt, h.writtenBy, r.0, r.1, allowlist, denylist, selfAddresses))
  }

  function ReadRules(rules: seq<Field>): Option<(Limits, seq<NetworkRule>)> {
    if !Known(rules, {"default", "networks"}) then None
    else
      var block :- ReadFields(rules, "default");
      var defaults :- ReadLimitBlock(block, {});
      var items :- ReadItems(rules, "networks");
      var networks :- ReadAll(items, ReadNetwork);
      Some((defaults, networks))
  }

  /** Absent members and null ones read alike: nothing for a pointer or a list, zero for a number, the empty
      text for a text. */
  lemma AbsentReadsAsNothing(fields: seq<Field>, key: string)
    requires Lookup(fields, key) == None || Lookup(fields, key) == Some(Null)
    ensures ReadOptString(fields, key) == Some(None) && ReadOptBool(fields, key) == Some(None)
    ensures ReadString(fields, key) == Some("") && ReadNumber(fields, key) == Some(0)
    ensures ReadItems(fields, key) == Some([]) && ReadFields(fields, key) == Some([])
    ensures ReadText(Null) == Some("") && Members(Null) == Some([])
  {
  }

  /** The two limit blocks in full: a default block has all five members, a rule's only those it has. */
  lemma WritesTheseLimits(cap: string, network: string)
    requires cap != NULL_SENTINEL
    ensures WriteLimits(Limits(None, Some(cap), None, None, Some(true)), false)
            == [Field("max_tx_sat", Null), Field("max_day_sat", Str(cap)), Field("max_fee_rate_sat_vb", Null),
                Field("allowlist_enabled", Bool(false)), Field("include_self", Bool(true))]
    ensures WriteNetwork(NetworkRule(network, Limits(Some(cap), None, Some(NULL_SENTINEL), Some(true), None)))
            == Obj([Field("network", Str(network)), Field("max_tx_sat", Str(cap)), Field("max_fee_rate_sat_vb", Null),
                    Field("allowlist_enabled", Bool(true))])
  {
    assert [Field("network", Str(network))] + WriteLimits(Limits(Some(cap), None, Some(NULL_SENTINEL), Some(true), None), true)
        == [Field("network", Str(network)), Field("max_tx_sat", Str(cap)), Field("max_fee_rate_sat_vb", Null), Field("allowlist_enabled", Bool(true))];
  }

  // ── the writer and the reader, step by step ──────────────────────────────────

  /** Appends members one at a time, in the fixed key order. */
  class FieldWriter {
    var fields: seq<Field>

    constructor (first: seq<Field>)
      ensures fields == first
    {
      fields := first;
    }

    method RawField(key: string, value: Json)
      modifies this
      ensures fields == old(fields) + [Field(key, value)]
    {
      fields := fields + [Field(key, value)];
    }

    method LimitField(key: string, p: Option<string>, perNetwork: bool)
      modifies this
      ensures fields == old(fields) + WriteLimit(key, p, perNetwork)
    {
      if p.None? {
        if perNetwork {
          return;
        }
        RawField(key, Null);
        return;
      }
      if p.value == NULL_SENTINEL {
        RawField(key, Null);
        return;
      }
      RawField(key, Str(p.value));
    }

    method BoolField(key: string, p: Option<bool>, perNetwork: bool)
      modifies this
      ensures fields == old(fields) + WriteBool(key, p, perNetwork)
    {
      if p.None? {
        if !perNetwork {
          RawField(key, Bool(false));
        }
        return;
      }
      RawField(key, Bool(p.value));
    }

    method LimitFields(l: Limits, perNetwork: bool)
      modifies this
      ensures fields == old(fields) + WriteLimits(l, perNetwork)
    {
      LimitField(MAX_TX, l.maxTx, perNetwork);
      LimitField(MAX_DAY, l.maxDay, perNetwork);
      LimitField(MAX_RATE, l.maxFeeRate, perNetwork);
      BoolField(ALLOWLIST_ON, l.allowlistOn, perNetwork);
      BoolField(INCLUDE_SELF, l.includeSelf, perNetwork);
    }
  }

  method EmitRules(defaults: Limits, networks: seq<NetworkRule>) returns (j: Json)
    ensures j == WriteRules(defaults, networks)
  {
    var w := new FieldWriter([]);
    w.LimitFields(defaults, false);
    var block := Obj(w.fields);
    assert w.fields == WriteLimits(defaults, false);
    var nets := SortBy(networks, ByNetwork);
    var items: seq<Json> := [];
    for i := 0 to |nets|
      invariant items == Map(nets[..i], WriteNetwork)
    {
      var inner := new FieldWriter([Field("network", Str(nets[i].network))]);
      inner.LimitFields(nets[i].limits, true);
      items := items + [Obj(inner.fields)];
      assert Map(nets[..i + 1], WriteNetwork) == Map(nets[..i], WriteNetwork) + [WriteNetwork(nets[i])];
    }
    assert nets[..|nets|] == nets;
    j := Obj([Field("default", block), Field("networks", Arr(items))]);
  }

  method EmitPins(pins: seq<Pin>) returns (j: Json)
    ensures j == Arr(Map(SortBy(pins, ByPin), WritePin))
  {
    var sorted := SortBy(pins, ByPin);
    var items: seq<Json> := [];
    for i := 0 to |sorted|
      invariant items == Map(sorted[..i], WritePin)
    {
      var p := sorted[i];
      items := items + [Obj([Field("source", Str(p.source)), Field("address", Str(p.address)),
                             Field("label", Str(p.labelText)), Field("added_at", Str(p.addedAt))])];
      assert Map(sorted[..i + 1], WritePin) == Map(sorted[..i], WritePin) + [WritePin(p)];
    }
    assert sorted[..|sorted|] == sorted;
    j := Arr(items);
  }

  method EmitSelf(ss: seq<string>) returns (j: Json)
    ensures j == Arr(Map(SortedLower(ss), WriteString))
  {
    var out: seq<string> := [];
    for i := 0 to |ss|
      invariant out == Map(ss[..i], Lower)
    {
      out := out + [Lower(ss[i])];
    }
    assert ss[..|ss|] == ss;
    out := SortBy(out, LexLess);
    j := Arr(Map(out, WriteString));
  }

  method EmitHead(p: Policy) returns (w: FieldWriter)
    ensures fresh(w)
    ensures w.fields == [Field("version", Num(p.version)), Field("nonce", Num(p.nonce)),
                         Field("updated_at", Str(p.updatedAt)), Field("written_by", Str(p.writtenBy))]
  {
    w := new FieldWriter([]);
    w.RawField("version", Num(p.version));
    w.RawField("nonce", Num(p.nonce));
    w.RawField("updated_at", Str(p.updatedAt));
    w.RawField("written_by", Str(p.writtenBy));
  }

  method EmitBody(p: Policy) returns (j: Json)
    ensures j == WriteBody(p)
  {
    var rules := EmitRules(p.defaults, p.networks);
    var allow := EmitPins(p.allowlist);
    var deny := EmitPins(p.denylist);
    var self := EmitSelf(p.selfAddresses);
    var w := EmitHead(p);
    w.RawField("rules", rules);
    w.RawField("allowlist", allow);
    w.RawField("denylist", deny);
    w.RawField("self_addresses", self);
    j := Obj(w.fields);
  }

  /** A network rule without the second pass: null limits still read as absent. */
  function StrictNetwork(j: Json): Option<NetworkRule> {
    var fields :- Members(j);
    if !Known(fields, LIMIT_KEYS + {"network"}) then None
    else
      var l :- ReadLimits(fields);
      var name :- ReadString(fields, "network");
      Some(NetworkRule(name, l))
  }

  function MarkNetwork(j: Json, n: NetworkRule): NetworkRule
    requires Members(j).Some?
  {
    n.(limits := ApplyTriState(Members(j).value, n.limits))
  }

  lemma StrictThenMark(j: Json)
    ensures StrictNetwork(j).None? ==> ReadNetwork(j).None?
    ensures StrictNetwork(j).Some? ==> Members(j).Some? && ReadNetwork(j) == Some(MarkNetwork(j, StrictNetwork(j).value))
  {
  }

  lemma ReadAllGrows<T>(items: seq<Json>, read: Json -> Option<T>, i: nat, out: seq<T>, x: T)
    requires i < |items| && ReadAll(items[..i], read) == Some(out) && read(items[i]) == Some(x)
    ensures ReadAll(items[..i + 1], read) == Some(out + [x])
  {
    assert items[..i + 1][..i] == items[..i];
  }

  /** The strict decode of the whole list, then the tri-state pass over it. */
  method DecodeNetworks(items: seq<Json>) returns (r: Option<seq<NetworkRule>>)
    ensures r == ReadAll(items, ReadNetwork)
  {
    var out: seq<NetworkRule> := [];
    for i := 0 to |items|
      invariant |out| == i && forall k :: 0 <= k < i ==> StrictNetwork(items[k]) == Some(out[k])
    {
      var n := StrictNetwork(items[i]);
      StrictThenMark(items[i]);
      if n.None? {
        ReadAllRefuses(items, ReadNetwork, i);
        return None;
      }
      out := out + [n.value];
    }
    for i := 0 to |items|
      invariant |out| == |items| && ReadAll(items[..i], ReadNetwork) == Some(out[..i])
      invariant forall k :: i <= k < |items| ==> StrictNetwork(items[k]) == Some(out[k])
    {
      StrictThenMark(items[i]);
      out := out[i := MarkNetwork(items[i], out[i])];
      ReadAllGrows(items, ReadNetwork, i, out[..i], out[i]);
      assert out[..i + 1] == out[..i] + [out[i]];
    }
    assert items[..|items|] == items && out[..|items|] == out;
    r := Some(out);
  }

  lemma {:induction false} ReadAllRefuses<T>(items: seq<Json>, read: Json -> Option<T>, i: nat)
    requires i < |items| && read(items[i]).None?
    ensures ReadAll(items, read).None?
  {
    if i < |items| - 1 { ReadAllRefuses(items[..|items| - 1], read, i); }
  }

  // ── reading back what was written ────────────────────────────────────────────

  function NullIfAbsent(p: Option<string>): Option<string> { if p.None? then Some(NULL_SENTINEL) else p }
  function FalseIfAbsent(p: Option<bool>): Option<bool> { if p.None? then Some(false) else p }

  /** The default block as it comes back: no field absent. */
  function FullBlock(l: Limits): Limits {
    Limits(NullIfAbsent(l.maxTx), NullIfAbsent(l.maxDay), NullIfAbsent(l.maxFeeRate),
           FalseIfAbsent(l.allowlistOn), FalseIfAbsent(l.includeSelf))
  }

  /** The policy as it comes back: sorted lists, lower-case addresses, a full default block. */
  function Canonical(p: Policy): Policy {
    p.(defaults := FullBlock(p.defaults), networks := SortBy(p.networks, ByNetwork),
       allowlist := SortBy(p.allowlist, ByPin), denylist := SortBy(p.denylist, ByPin),
       selfAddresses := SortedLower(p.selfAddresses))
  }

  lemma {:induction false} LookupConcat(a: seq<Field>, b: seq<Field>, key: string)
    ensures Lookup(a + b, key) == if Lookup(b, key).Some? then Lookup(b, key) else Lookup(a, key)
  {
    if b == [] {
      assert a + b == a;
    } else {
      assert (a + b)[..|a + b| - 1] == a + b[..|b| - 1];
      LookupConcat(a, b[..|b| - 1], key);
    }
  }

  /** One key of a written limit block. */
  lemma LimitLookup(l: Limits, perNetwork: bool, key: string)
    ensures Lookup(WriteLimits(l, perNetwork), key)
         == if key == MAX_TX then Lookup(WriteLimit(MAX_TX, l.maxTx, perNetwork), key)
            else if key == MAX_DAY then Lookup(WriteLimit(MAX_DAY, l.maxDay, perNetwork), key)
            else if key == MAX_RATE then Lookup(WriteLimit(MAX_RATE, l.maxFeeRate, perNetwork), key)
            else if key == ALLOWLIST_ON then Lookup(WriteBool(ALLOWLIST_ON, l.allowlistOn, perNetwork), key)
            else if key == INCLUDE_SELF then Lookup(WriteBool(INCLUDE_SELF, l.includeSelf, perNetwork), key)
            else None
  {
    var a, b, c := WriteLimit(MAX_TX, l.maxTx, perNetwork), WriteLimit(MAX_DAY, l.maxDay, perNetwork), WriteLimit(MAX_RATE, l.maxFeeRate, perNetwork);
    var d, e := WriteBool(ALLOWLIST_ON, l.allowlistOn, perNetwork), WriteBool(INCLUDE_SELF, l.includeSelf, perNetwork);
    LookupConcat(a, b + (c + (d + e)), key);
    LookupConcat(b, c + (d + e), key);
    LookupConcat(c, d + e, key);
    LookupConcat(d, e, key);
    assert |MAX_TX| == 10 && |MAX_DAY| == 11 && |MAX_RATE| == 19 && |ALLOWLIST_ON| == 17 && |INCLUDE_SELF| == 12;
  }

  lemma OneLimit(fields: seq<Field>, key: string, p: Option<string>, perNetwork: bool)
    requires Lookup(fields, key) == Lookup(WriteLimit(key, p, perNetwork), key)
    ensures ReadOptString(fields, key).Some?
    ensures MarkNull(fields, key, ReadOptString(fields, key).value) == if perNetwork then p else NullIfAbsent(p)
  {
    var w := WriteLimit(key, p, perNetwork);
    if w != [] { assert Lookup(w, key) == Some(w[0].value); }
  }

  lemma OneBool(fields: seq<Field>, key: string, p: Option<bool>, perNetwork: bool)
    requires Lookup(fields, key) == Lookup(WriteBool(key, p, perNetwork), key)
    ensures ReadOptBool(fields, key) == Some(if perNetwork then p else FalseIfAbsent(p))
  {
    var w := WriteBool(key, p, perNetwork);
    if w != [] { assert Lookup(w, key) == Some(w[0].value); }
  }

  lemma LimitsAreKnown(l: Limits, perNetwork: bool)
    ensures Known(WriteLimits(l, perNetwork), LIMIT_KEYS)
  {
  }

  lemma LimitBlockRoundTrip(l: Limits, perNetwork: bool, prefix: seq<Field>, extra: set<string>)
    requires Known(prefix, extra)
    requires forall key :: key in LIMIT_KEYS ==> Lookup(prefix, key) == None
    ensures ReadLimitBlock(prefix + WriteLimits(l, perNetwork), extra) == Some(if perNetwork then l else FullBlock(l))
  {
    var written := WriteLimits(l, perNetwork);
    var fields := prefix + written;
    forall key | key in LIMIT_KEYS ensures Lookup(fields, key) == Lookup(written, key) {
      LookupConcat(prefix, written, key);
    }
    LimitsAreKnown(l, perNetwork);
    assert Known(fields, LIMIT_KEYS + extra);
    LimitLookup(l, perNetwork, MAX_TX);
    LimitLookup(l, perNetwork, MAX_DAY);
    LimitLookup(l, perNetwork, MAX_RATE);
    LimitLookup(l, perNetwork, ALLOWLIST_ON);
    LimitLookup(l, perNetwork, INCLUDE_SELF);
    LimitBlockReads(l, perNetwork, fields);
  }

  lemma LimitBlockReads(l: Limits, perNetwork: bool, fields: seq<Field>)
    requires Lookup(fields, MAX_TX) == Lookup(WriteLimit(MAX_TX, l.maxTx, perNetwork), MAX_TX)
    requires Lookup(fields, MAX_DAY) == Lookup(WriteLimit(MAX_DAY, l.maxDay, perNetwork), MAX_DAY)
    requires Lookup(fields, MAX_RATE) == Lookup(WriteLimit(MAX_RATE, l.maxFeeRate, perNetwork), MAX_RATE)
    requires Lookup(fields, ALLOWLIST_ON) == Lookup(WriteBool(ALLOWLIST_ON, l.allowlistOn, perNetwork), ALLOWLIST_ON)
    requires Lookup(fields, INCLUDE_SELF) == Lookup(WriteBool(INCLUDE_SELF, l.includeSelf, perNetwork), INCLUDE_SELF)
    ensures ReadLimits(fields).Some?
    ensures ApplyTriState(fields, ReadLimits(fields).value) == if perNetwork then l else FullBlock(l)
  {
    OneLimit(fields, MAX_TX, l.maxTx, perNetwork);
    OneLimit(fields, MAX_DAY, l.maxDay, perNetwork);
    OneLimit(fields, MAX_RATE, l.maxFeeRate, perNetwork);
    OneBool(fields, ALLOWLIST_ON, l.allowlistOn, perNetwork);
    OneBool(fields, INCLUDE_SELF, l.includeSelf, perNetwork);
  }

  lemma NetworkRoundTrip(n: NetworkRule)
    ensures ReadNetwork(WriteNetwork(n)) == Some(n)
  {
    var prefix := [Field("network", Str(n.network))];
    assert prefix[..0] == [];
    assert |"network"| == 7;
    LimitBlockRoundTrip(n.limits, true, prefix, {"network"});
    LookupConcat(prefix, WriteLimits(n.limits, true), "network");
    LimitLookup(n.limits, true, "network");
  }

  lemma PinRoundTrip(p: Pin)
    ensures ReadPin(WritePin(p)) == Some(p)
  {
    var f := WritePin(p).fields;
    LookupAt(f, 0); LookupAt(f, 1); LookupAt(f, 2); LookupAt(f, 3);
  }

  lemma {:induction false} ReadAllRoundTrip<T>(xs: seq<T>, write: T -> Json, read: Json -> Option<T>)
    requires forall x :: x in xs ==> read(write(x)) == Some(x)
    ensures ReadAll(Map(xs, write), read) == Some(xs)
  {
    if xs != [] {
      var front := xs[..|xs| - 1];
      ReadAllRoundTrip(front, write, read);
      assert Map(xs, write)[..|xs| - 1] == Map(front, write);
      assert front + [xs[|xs| - 1]] == xs;
    }
  }

  lemma RulesFrom(rules: seq<Field>, block: seq<Field>, items: seq<Json>, l: Limits, ns: seq<NetworkRule>)
    requires Known(rules, {"default", "networks"})
    requires Lookup(rules, "default") == Some(Obj(block)) && Lookup(rules, "networks") == Some(Arr(items))
    requires ReadLimitBlock(block, {}) == Some(l) && ReadAll(items, ReadNetwork) == Some(ns)
    ensures ReadRules(rules) == Some((l, ns))
  {
  }

  lemma RulesRoundTrip(d: Limits, networks: seq<NetworkRule>)
    ensures ReadRules(WriteRules(d, networks).fields) == Some((FullBlock(d), SortBy(networks, ByNetwork)))
  {
    var sorted := SortBy(networks, ByNetwork);
    var block, items := WriteLimits(d, false), Map(sorted, WriteNetwork);
    RuleLookups(block, items);
    DefaultBlockRoundTrip(d);
    forall n | n in sorted ensures ReadNetwork(WriteNetwork(n)) == Some(n) { NetworkRoundTrip(n); }
    ReadAllRoundTrip(sorted, WriteNetwork, ReadNetwork);
    RulesFrom(WriteRules(d, networks).fields, block, items, FullBlock(d), sorted);
  }

  lemma RuleLookups(block: seq<Field>, items: seq<Json>)
    ensures var f := [Field("default", Obj(block)), Field("networks", Arr(items))];
            && Known(f, {"default", "networks"})
            && Lookup(f, "default") == Some(Obj(block)) && Lookup(f, "networks") == Some(Arr(items))
  {
    var f := [Field("default", Obj(block)), Field("networks", Arr(items))];
    LookupAt(f, 0); LookupAt(f, 1);
  }

  lemma DefaultBlockRoundTrip(d: Limits)
    ensures ReadLimitBlock(WriteLimits(d, false), {}) == Some(FullBlock(d))
  {
    LimitBlockRoundTrip(d, false, [], {});
    assert [] + WriteLimits(d, false) == WriteLimits(d, false);
  }

  lemma {:induction false} BodyLookups(p: Policy)
    ensures var f := WriteBody(p).fields;
            && Lookup(f, "version") == Some(Num(p.version)) && Lookup(f, "nonce") == Some(Num(p.nonce))
            && Lookup(f, "updated_at") == Some(Str(p.updatedAt)) && Lookup(f, "written_by") == Some(Str(p.writtenBy))
            && Lookup(f, "rules") == Some(WriteRules(p.defaults, p.networks))
            && Lookup(f, "allowlist") == Some(f[5].value) && Lookup(f, "denylist") == Some(f[6].value)
            && Lookup(f, "self_addresses") == Some(f[7].value) && Known(f, BODY_KEYS)
  {
    hide Lookup, WriteRules, WritePin, SortedLower;
    var f := WriteBody(p).fields;
    LookupAt(f, 0); LookupAt(f, 1); LookupAt(f, 2); LookupAt(f, 3);
    LookupAt(f, 4); LookupAt(f, 5); LookupAt(f, 6); LookupAt(f, 7);
  }

  lemma {:induction false} LookupAt(f: seq<Field>, i: nat)
    requires i < |f| && forall j :: i < j < |f| ==> f[j].key != f[i].key
    ensures Lookup(f, f[i].key) == Some(f[i].value)
  {
    if i < |f| - 1 { LookupAt(f[..|f| - 1], i); }
  }

  lemma PinsRoundTrip(pins: seq<Pin>)
    ensures ReadAll(Map(pins, WritePin), ReadPin) == Some(pins)
  {
    forall x | x in pins ensures ReadPin(WritePin(x)) == Some(x) { PinRoundTrip(x); }
    ReadAllRoundTrip(pins, WritePin, ReadPin);
  }

  lemma HeadFrom(f: seq<Field>, h: Head)
    requires h.version <= BODY_VERSION
    requires Lookup(f, "version") == Some(Num(h.version)) && Lookup(f, "nonce") == Some(Num(h.nonce))
    requires Lookup(f, "updated_at") == Some(Str(h.updatedAt)) && Lookup(f, "written_by") == Some(Str(h.writtenBy))
    ensures ReadHead(f) == Some(h)
  {
  }

  lemma BodyFrom(f: seq<Field>, rules: seq<Field>, p: Policy)
    requires Known(f, BODY_KEYS)
    requires ReadHead(f) == Some(Head(p.version, p.nonce, p.updatedAt, p.writtenBy))
    requires Lookup(f, "rules") == Some(Obj(rules)) && ReadRules(rules) == Some((p.defaults, p.networks))
    requires ReadPins(f, "allowlist") == Some(p.allowlist) && ReadPins(f, "denylist") == Some(p.denylist)
    requires ReadTexts(f, "self_addresses") == Some(p.selfAddresses)
    ensures ReadBody(Obj(f)) == Some(p)
  {
  }

  lemma ListsFrom(f: seq<Field>, key: string, pins: seq<Pin>)
    requires Lookup(f, key) == Some(Arr(Map(pins, WritePin)))
    ensures ReadPins(f, key) == Some(pins)
  {
    PinsRoundTrip(pins);
  }

  lemma TextsFrom(f: seq<Field>, key: string, texts: seq<string>)
    requires Lookup(f, key) == Some(Arr(Map(texts, WriteString)))
    ensures ReadTexts(f, key) == Some(texts)
  {
    ReadAllRoundTrip(texts, WriteString, ReadText);
  }

  /** Reading what was written gives the canonical policy. */
  lemma ReadAfterWrite(p: Policy)
    requires p.version <= BODY_VERSION
    ensures ReadBody(WriteBody(p)) == Some(Canonical(p))
  {
    var f, c := WriteBody(p).fields, Canonical(p);
    BodyLookups(p);
    RulesRoundTrip(p.defaults, p.networks);
    HeadFrom(f, Head(p.version, p.nonce, p.updatedAt, p.writtenBy));
    ListsFrom(f, "allowlist", c.allowlist);
    ListsFrom(f, "denylist", c.denylist);
    TextsFrom(f, "self_addresses", c.selfAddresses);
    BodyFrom(f, WriteRules(p.defaults, p.networks).fields, c);
  }

  // ── a second write changes nothing ───────────────────────────────────────────

  lemma NetworkOrder()
    ensures WeakOrder(ByNetwork)
  {
    LexIsWeakOrder();
    forall x: NetworkRule, y: NetworkRule ensures ByNetwork(x, y) ==> !ByNetwork(y, x) { LexTotal(x.network, y.network); }
    forall x: NetworkRule, y: NetworkRule, z: NetworkRule
      ensures !ByNetwork(y, x) && !ByNetwork(z, y) ==> !ByNetwork(z, x)
    {
      assert !LexLess(y.network, x.network) && !LexLess(z.network, y.network) ==> !LexLess(z.network, x.network);
    }
  }

  lemma PinOrder()
    ensures WeakOrder(ByPin)
  {
    forall x: Pin, y: Pin ensures ByPin(x, y) ==> !ByPin(y, x) {
      LexTotal(x.source, y.source);
      LexTotal(x.address, y.address);
    }
    forall x: Pin, y: Pin, z: Pin ensures !ByPin(y, x) && !ByPin(z, y) ==> !ByPin(z, x) {
      LexTotal(x.source, y.source); LexTotal(y.source, z.source); LexTotal(x.source, z.source);
      LexTransitive(z.source, x.source, y.source); LexTransitive(y.source, z.source, x.source);
      LexTotal(x.address, y.address); LexTotal(y.address, z.address); LexTotal(x.address, z.address);
      LexTransitive(z.address, x.address, y.address); LexTransitive(y.address, z.address, x.address);
    }
  }

  lemma SortedLowerTwice(ss: seq<string>)
    ensures SortedLower(SortedLower(ss)) == SortedLower(ss)
    ensures multiset(SortedLower(ss)) == multiset(Map(ss, Lower))
  {
    LexIsWeakOrder();
    SortBySorts(Map(ss, Lower), LexLess);
    var out := SortedLower(ss);
    forall i | 0 <= i < |out| ensures Lower(out[i]) == out[i] {
      assert out[i] in multiset(out);
      var k :| 0 <= k < |ss| && out[i] == Map(ss, Lower)[k];
      LowerIsIdempotent(ss[k]);
    }
    assert Map(out, Lower) == out;
    SortedIsFixed(out, LexLess);
  }

  lemma CanonicalIsIdempotent(p: Policy)
    ensures Canonical(Canonical(p)) == Canonical(p)
  {
    NetworkOrder();
    PinOrder();
    SortBySorts(p.networks, ByNetwork);
    SortedIsFixed(SortBy(p.networks, ByNetwork), ByNetwork);
    SortBySorts(p.allowlist, ByPin);
    SortedIsFixed(SortBy(p.allowlist, ByPin), ByPin);
    SortBySorts(p.denylist, ByPin);
    SortedIsFixed(SortBy(p.denylist, ByPin), ByPin);
    SortedLowerTwice(p.selfAddresses);
  }

  lemma FullBlockIsWrittenAlike(l: Limits)
    ensures WriteLimits(FullBlock(l), false) == WriteLimits(l, false)
  {
  }

  /** Writing what was read back gives the same document, so re-signing an unchanged policy signs the
      same bytes. */
  lemma WriteReadWrite(p: Policy)
    requires p.version <= BODY_VERSION
    ensures ReadBody(WriteBody(p)).Some? && WriteBody(ReadBody(WriteBody(p)).value) == WriteBody(p)
  {
    ReadAfterWrite(p);
    CanonicalIsIdempotent(p);
    FullBlockIsWrittenAlike(p.defaults);
  }

  // ── sealing keeps every verdict ──────────────────────────────────────────────

  /** Network names that fold to the same name carry the same limits. */
  ghost predicate NamesAgree(networks: seq<NetworkRule>) {
    forall a, b :: a in networks && b in networks && EqualFold(a.network, b.network) ==> a.limits == b.limits
  }

  lemma {:induction false} ResolveFinds(r: Resolved, networks: seq<NetworkRule>, n: NetworkRule, network: string)
    requires NamesAgree(networks) && n in networks && EqualFold(n.network, network)
    ensures ResolveFrom(r, networks, network) == ApplyRule(r, n.limits)
  {
    if EqualFold(networks[0].network, network) {
      assert networks[0] in networks;
    } else {
      ResolveFinds(r, networks[1..], n, network);
    }
  }

  lemma {:induction false} ResolveMisses(r: Resolved, networks: seq<NetworkRule>, network: string)
    requires forall n :: n in networks ==> !EqualFold(n.network, network)
    ensures ResolveFrom(r, networks, network) == r
  {
    if networks != [] {
      assert networks[0] in networks;
      ResolveMisses(r, networks[1..], network);
    }
  }

  lemma ResolveForgetsOrder(r: Resolved, a: seq<NetworkRule>, b: seq<NetworkRule>, network: string)
    requires NamesAgree(a) && forall n :: n in a <==> n in b
    ensures ResolveFrom(r, a, network) == ResolveFrom(r, b, network)
  {
    if n :| n in a && EqualFold(n.network, network) {
      ResolveFinds(r, a, n, network);
      ResolveFinds(r, b, n, network);
    } else {
      ResolveMisses(r, a, network);
      ResolveMisses(r, b, network);
    }
  }

  lemma SameElements<T>(a: seq<T>, b: seq<T>)
    requires multiset(a) == multiset(b)
    ensures forall x :: x in a <==> x in b
  {
    assert forall x :: x in a <==> x in multiset(a);
    assert forall x :: x in b <==> x in multiset(b);
  }

  lemma CanonicalLists(p: Policy)
    ensures forall n :: n in p.networks <==> n in Canonical(p).networks
    ensures forall x :: x in p.allowlist <==> x in Canonical(p).allowlist
    ensures forall x :: x in p.denylist <==> x in Canonical(p).denylist
    ensures forall a :: a in Canonical(p).selfAddresses <==> a in Map(p.selfAddresses, Lower)
  {
    NetworkOrder();
    PinOrder();
    SortBySorts(p.networks, ByNetwork);
    SortBySorts(p.allowlist, ByPin);
    SortBySorts(p.denylist, ByPin);
    SortedLowerTwice(p.selfAddresses);
    SameElements(p.networks, Canonical(p).networks);
    SameElements(p.allowlist, Canonical(p).allowlist);
    SameElements(p.denylist, Canonical(p).denylist);
    SameElements(Canonical(p).selfAddresses, Map(p.selfAddresses, Lower));
  }

  lemma SelfIsKept(p: Policy, req: Check)
    ensures IsSelf(Canonical(p), req) == IsSelf(p, req)
  {
    CanonicalLists(p);
    var lowered := Map(p.selfAddresses, Lower);
    if a :| a in p.selfAddresses && EqualFold(a, req.recipient) {
      var i :| 0 <= i < |p.selfAddresses| && p.selfAddresses[i] == a;
      LowerIsIdempotent(a);
      assert lowered[i] in Canonical(p).selfAddresses && EqualFold(lowered[i], req.recipient);
    }
    if b :| b in Canonical(p).selfAddresses && EqualFold(b, req.recipient) {
      var i :| 0 <= i < |lowered| && lowered[i] == b;
      LowerIsIdempotent(p.selfAddresses[i]);
      assert p.selfAddresses[i] in p.selfAddresses;
    }
  }

  /** Sealing and reopening a policy changes no verdict, whatever the spend, the window and the time. */
  lemma SealKeepsVerdict(p: Policy, req: Check, spent: int, now: int)
    requires p.version <= BODY_VERSION && NamesAgree(p.networks)
    ensures ReadBody(WriteBody(p)).Some?
    ensures Evaluate(ReadBody(WriteBody(p)).value, req, spent, now) == Evaluate(p, req, spent, now)
  {
    ReadAfterWrite(p);
    CanonicalKeepsVerdict(p, req, spent, now);
  }

  lemma CanonicalKeepsVerdict(p: Policy, req: Check, spent: int, now: int)
    requires NamesAgree(p.networks)
    ensures Evaluate(Canonical(p), req, spent, now) == Evaluate(p, req, spent, now)
  {
    CanonicalLists(p);
    assert DefaultLimits(FullBlock(p.defaults)) == DefaultLimits(p.defaults);
    ResolveForgetsOrder(DefaultLimits(p.defaults), p.networks, Canonical(p).networks, req.network);
    SelfIsKept(p, req);
  }
}
