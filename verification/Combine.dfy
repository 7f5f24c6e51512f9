/** Combining partially signed transactions, the Combiner of BIP-174 (internal/psbt/combine.go). */
module Combine {
  import opened Base

  /** A partial signature or a derivation hint, keyed by a public key. */
  datatype Entry = Entry(pub: string, data: string)

  datatype Input = Input(
    witnessUtxo: Option<string>, nonWitnessUtxo: Option<string>, sighash: nat,
    sigs: seq<Entry>, derivations: seq<Entry>)

  datatype Output = Output(derivations: seq<Entry>)

  datatype Content = Content(txid: string, inputs: seq<Input>, outputs: seq<Output>)

  // ── merging, on values ───────────────────────────────────────────────────────

  predicate Has(s: seq<Entry>, pub: string) { exists e :: e in s && e.pub == pub }

  function Add(s: seq<Entry>, e: Entry): seq<Entry> { if Has(s, e.pub) then s else s + [e] }

  function Union(a: seq<Entry>, b: seq<Entry>): seq<Entry> {
    if b == [] then a else Add(Union(a, b[..|b| - 1]), b[|b| - 1])
  }

  function Or<T>(a: Option<T>, b: Option<T>): Option<T> { if a.None? then b else a }

  function MergeInput(a: Input, b: Input): Input {
    Input(Or(a.witnessUtxo, b.witnessUtxo), Or(a.nonWitnessUtxo, b.nonWitnessUtxo),
          if a.sighash == 0 then b.sighash else a.sighash, Union(a.sigs, b.sigs), Union(a.derivations, b.derivations))
  }

  function MergeOutput(a: Output, b: Output): Output { Output(Union(a.derivations, b.derivations)) }

  /** The parts belong to the same unsigned transaction and have its shape. */
  predicate Matches(a: Content, b: Content) {
    a.txid == b.txid && |a.inputs| == |b.inputs| && |a.outputs| == |b.outputs|
  }

  function Merge(a: Content, b: Content): Content
    requires Matches(a, b)
  {
    Content(a.txid,
            seq(|a.inputs|, i requires 0 <= i < |a.inputs| => MergeInput(a.inputs[i], b.inputs[i])),
            seq(|a.outputs|, i requires 0 <= i < |a.outputs| => MergeOutput(a.outputs[i], b.outputs[i])))
  }

  predicate AllMatch(parts: seq<Content>) { forall p :: p in parts ==> Matches(parts[0], p) }

  function MergeAll(parts: seq<Content>): (r: Content)
    requires parts != [] && AllMatch(parts)
    ensures Matches(parts[0], r)
  {
    if |parts| == 1 then parts[0]
    else
      var front := parts[..|parts| - 1];
      assert front[0] == parts[0] && parts[|parts| - 1] in parts && (forall p :: p in front ==> p in parts);
      Merge(MergeAll(front), parts[|parts| - 1])
  }

  lemma MergeAllSnoc(parts: seq<Content>, last: Content)
    requires parts != [] && AllMatch(parts) && Matches(parts[0], last)
    ensures AllMatch(parts + [last]) && MergeAll(parts + [last]) == Merge(MergeAll(parts), last)
  {
    assert (parts + [last])[..|parts|] == parts;
  }

  // ── the packets themselves ───────────────────────────────────────────────────

  class Packet {
    const txid: string
    const inputs: array<Input>
    const outputs: array<Output>

    function State(): Content reads inputs, outputs { Content(txid, inputs[..], outputs[..]) }

    constructor (c: Content)
      ensures State() == c && fresh(inputs) && fresh(outputs)
    {
      txid := c.txid;
      inputs := new Input[|c.inputs|](i requires 0 <= i < |c.inputs| => c.inputs[i]);
      outputs := new Output[|c.outputs|](i requires 0 <= i < |c.outputs| => c.outputs[i]);
    }
  }

  method HasPub(s: seq<Entry>, pub: string) returns (found: bool)
    ensures found == Has(s, pub)
  {
    for i := 0 to |s|
      invariant forall k :: 0 <= k < i ==> s[k].pub != pub
    {
      if s[i].pub == pub {
        return true;
      }
    }
    return false;
  }

  method AppendMissing(dst: seq<Entry>, src: seq<Entry>) returns (r: seq<Entry>)
    ensures r == Union(dst, src)
  {
    r := dst;
    for i := 0 to |src|
      invariant r == Union(dst, src[..i])
    {
      assert src[..i + 1][..i] == src[..i];
      var found := HasPub(r, src[i].pub);
      if !found {
        r := r + [src[i]];
      }
    }
    assert src[..|src|] == src;
  }

  method MergeInputInto(inputs: array<Input>, i: nat, src: Input)
    requires i < inputs.Length
    modifies inputs
    ensures inputs[..] == old(inputs[..])[i := MergeInput(old(inputs[i]), src)]
  {
    var dst := inputs[i];
    if dst.witnessUtxo.None? && src.witnessUtxo.Some? {
      dst := dst.(witnessUtxo := src.witnessUtxo);
    }
    if dst.nonWitnessUtxo.None? && src.nonWitnessUtxo.Some? {
      dst := dst.(nonWitnessUtxo := src.nonWitnessUtxo);
    }
    var sigs := AppendMissing(dst.sigs, src.sigs);
    dst := dst.(sigs := sigs);
    var derivations := AppendMissing(dst.derivations, src.derivations);
    dst := dst.(derivations := derivations);
    if dst.sighash == 0 && src.sighash != 0 {
      dst := dst.(sighash := src.sighash);
    }
    inputs[i] := dst;
  }

  method MergeOutputInto(outputs: array<Output>, i: nat, src: Output)
    requires i < outputs.Length
    modifies outputs
    ensures outputs[..] == old(outputs[..])[i := MergeOutput(old(outputs[i]), src)]
  {
    var derivations := AppendMissing(outputs[i].derivations, src.derivations);
    outputs[i] := outputs[i].(derivations := derivations);
  }

  method MergeInto(base: Packet, part: Packet)
    requires base.inputs != part.inputs && base.outputs != part.outputs && Matches(base.State(), part.State())
    modifies base.inputs, base.outputs
    ensures base.State() == Merge(old(base.State()), old(part.State()))
  {
    for i := 0 to base.inputs.Length
      invariant part.inputs[..] == old(part.inputs[..]) && base.outputs[..] == old(base.outputs[..]) && part.outputs[..] == old(part.outputs[..])
      invariant forall k :: 0 <= k < base.inputs.Length ==>
                  base.inputs[k] == if k < i then MergeInput(old(base.inputs[k]), old(part.inputs[k])) else old(base.inputs[k])
    {
      ghost var was := base.inputs[..];
      MergeInputInto(base.inputs, i, part.inputs[i]);
      assert forall k :: 0 <= k < |was| ==> base.inputs[..][k] == base.inputs[k];
    }
    ghost var merged := base.inputs[..];
    for i := 0 to base.outputs.Length
      invariant base.inputs[..] == merged && part.outputs[..] == old(part.outputs[..])
      invariant forall k :: 0 <= k < base.outputs.Length ==>
                  base.outputs[k] == if k < i then MergeOutput(old(base.outputs[k]), old(part.outputs[k])) else old(base.outputs[k])
    {
      ghost var was := base.outputs[..];
      MergeOutputInto(base.outputs, i, part.outputs[i]);
      assert forall k :: 0 <= k < |was| ==> base.outputs[..][k] == base.outputs[k];
    }
  }

  datatype Failure = NoParts | Mismatch

  datatype Combined = Ok(packet: Packet) | Refused(why: Failure)

  function States(parts: seq<Packet>): seq<Content>
    reads set p | p in parts :: p.inputs, set p | p in parts :: p.outputs
  {
    seq(|parts|, i requires 0 <= i < |parts| reads set p | p in parts :: p.inputs, set p | p in parts :: p.outputs => parts[i].State())
  }

  /** Merges the parts into a fresh copy of the first one, changing none of them; refuses exactly the
      empty list and parts of different transactions or shapes. */
  method CombineParts(parts: seq<Packet>) returns (r: Combined)
    ensures r.Ok? <==> parts != [] && AllMatch(States(parts))
    ensures r == Refused(NoParts) <==> parts == []
    ensures r.Ok? ==> r.packet.State() == MergeAll(States(parts)) && fresh(r.packet) && fresh(r.packet.inputs) && fresh(r.packet.outputs)
  {
    if parts == [] {
      return Refused(NoParts);
    }
    ghost var all := States(parts);
    var base := new Packet(parts[0].State());
    assert all[..1] == [all[0]];
    for n := 1 to |parts|
      invariant States(parts) == all && fresh(base) && fresh(base.inputs) && fresh(base.outputs)
      invariant AllMatch(all[..n]) && base.State() == MergeAll(all[..n])
    {
      var p := parts[n];
      assert all[n] == p.State() && all[..n][0] == all[0];
      if p.txid != base.txid {
        assert !Matches(all[0], all[n]);
        return Refused(Mismatch);
      }
      if p.inputs.Length != base.inputs.Length || p.outputs.Length != base.outputs.Length {
        assert !Matches(all[0], all[n]);
        return Refused(Mismatch);
      }
      assert all[..n + 1] == all[..n] + [all[n]];
      MergeAllSnoc(all[..n], all[n]);
      MergeInto(base, p);
    }
    assert all[..|parts|] == all;
    return Ok(base);
  }

  // ── what a merge holds ───────────────────────────────────────────────────────

  /** The first entry under a key. */
  function Lookup(s: seq<Entry>, pub: string): Option<Entry> {
    if s == [] then None else if s[0].pub == pub then Some(s[0]) else Lookup(s[1..], pub)
  }

  lemma {:induction false} LookupHas(s: seq<Entry>, pub: string)
    ensures Lookup(s, pub).Some? <==> Has(s, pub)
  {
    if s != [] {
      LookupHas(s[1..], pub);
      assert s == [s[0]] + s[1..];
      assert forall e :: e in s <==> e == s[0] || e in s[1..];
    }
  }

  lemma {:induction false} LookupAppend(s: seq<Entry>, e: Entry, pub: string)
    ensures Lookup(s + [e], pub) == if Lookup(s, pub).Some? then Lookup(s, pub) else if e.pub == pub then Some(e) else None
  {
    if s == [] {
      assert s + [e] == [e];
    } else {
      assert (s + [e])[1..] == s[1..] + [e];
      LookupAppend(s[1..], e, pub);
    }
  }

  lemma AddKeeps(s: seq<Entry>, e: Entry, pub: string)
    ensures Lookup(Add(s, e), pub) == if Lookup(s, pub).Some? then Lookup(s, pub) else if e.pub == pub then Some(e) else None
  {
    LookupHas(s, e.pub);
    LookupAppend(s, e, pub);
  }

  /** A union has the keys of both sides; a shared key keeps the left side's entry. */
  lemma {:induction false} UnionLookup(a: seq<Entry>, b: seq<Entry>, pub: string)
    ensures Lookup(Union(a, b), pub) == if Lookup(a, pub).Some? then Lookup(a, pub) else Lookup(b, pub)
    ensures Has(Union(a, b), pub) <==> Has(a, pub) || Has(b, pub)
    decreases |b|
  {
    LookupHas(a, pub);
    LookupHas(b, pub);
    LookupHas(Union(a, b), pub);
    if b != [] {
      var front := b[..|b| - 1];
      UnionLookup(a, front, pub);
      AddKeeps(Union(a, front), b[|b| - 1], pub);
      LookupAppend(front, b[|b| - 1], pub);
      assert b == front + [b[|b| - 1]];
    }
  }

  lemma {:induction false} UnionAssociative(a: seq<Entry>, b: seq<Entry>, c: seq<Entry>)
    ensures Union(Union(a, b), c) == Union(a, Union(b, c))
    decreases |c|
  {
    if c != [] {
      var front, x := c[..|c| - 1], c[|c| - 1];
      UnionAssociative(a, b, front);
      var u := Union(b, front);
      UnionLookup(a, u, x.pub);
      if !Has(u, x.pub) {
        assert (u + [x])[..|u|] == u;
      }
    }
  }

  lemma {:induction false} UnionAbsorbs(a: seq<Entry>, i: nat)
    requires i <= |a|
    ensures Union(a, a[..i]) == a
  {
    if i > 0 {
      assert a[..i][..i - 1] == a[..i - 1];
      UnionAbsorbs(a, i - 1);
      assert a[i - 1] in a;
    }
  }

  /** Merging is associative. */
  lemma MergeAssociative(a: Content, b: Content, c: Content)
    requires Matches(a, b) && Matches(b, c)
    ensures Merge(Merge(a, b), c) == Merge(a, Merge(b, c))
  {
    forall i | 0 <= i < |a.inputs|
      ensures MergeInput(MergeInput(a.inputs[i], b.inputs[i]), c.inputs[i]) == MergeInput(a.inputs[i], MergeInput(b.inputs[i], c.inputs[i]))
    {
      UnionAssociative(a.inputs[i].sigs, b.inputs[i].sigs, c.inputs[i].sigs);
      UnionAssociative(a.inputs[i].derivations, b.inputs[i].derivations, c.inputs[i].derivations);
    }
    forall i | 0 <= i < |a.outputs|
      ensures MergeOutput(MergeOutput(a.outputs[i], b.outputs[i]), c.outputs[i]) == MergeOutput(a.outputs[i], MergeOutput(b.outputs[i], c.outputs[i]))
    {
      UnionAssociative(a.outputs[i].derivations, b.outputs[i].derivations, c.outputs[i].derivations);
    }
  }

  /** Merging a packet with itself changes nothing. */
  lemma MergeIdempotent(a: Content)
    ensures Merge(a, a) == a
  {
    forall i | 0 <= i < |a.inputs| ensures MergeInput(a.inputs[i], a.inputs[i]) == a.inputs[i] {
      UnionAbsorbs(a.inputs[i].sigs, |a.inputs[i].sigs|);
      UnionAbsorbs(a.inputs[i].derivations, |a.inputs[i].derivations|);
      assert a.inputs[i].sigs[..|a.inputs[i].sigs|] == a.inputs[i].sigs;
      assert a.inputs[i].derivations[..|a.inputs[i].derivations|] == a.inputs[i].derivations;
    }
    forall i | 0 <= i < |a.outputs| ensures MergeOutput(a.outputs[i], a.outputs[i]) == a.outputs[i] {
      UnionAbsorbs(a.outputs[i].derivations, |a.outputs[i].derivations|);
      assert a.outputs[i].derivations[..|a.outputs[i].derivations|] == a.outputs[i].derivations;
    }
  }

  lemma SubsetMatches(all: seq<Content>, part: seq<Content>)
    requires all != [] && AllMatch(all) && part != [] && forall p :: p in part ==> p in all
    ensures AllMatch(part) && Matches(all[0], part[0])
  {
    assert part[0] in all;
  }

  /** Combining in groups is combining all at once. */
  lemma {:induction false} CombineInGroups(ps: seq<Content>, qs: seq<Content>)
    requires ps != [] && qs != [] && AllMatch(ps) && AllMatch(qs) && Matches(ps[0], qs[0])
    ensures AllMatch(ps + qs) && Matches(MergeAll(ps), MergeAll(qs))
    ensures MergeAll(ps + qs) == Merge(MergeAll(ps), MergeAll(qs))
    decreases |qs|
  {
    var last := qs[|qs| - 1];
    assert last in qs;
    if |qs| == 1 {
      assert qs == [last];
      MergeAllSnoc(ps, last);
    } else {
      var front := qs[..|qs| - 1];
      assert qs == front + [last] && ps + qs == ps + front + [last];
      SubsetMatches(qs, front);
      CombineInGroups(ps, front);
      MergeAllSnoc(ps + front, last);
      MergeAllSnoc(front, last);
      MergeAssociative(MergeAll(ps), MergeAll(front), last);
    }
  }

  /** The three kinds of keyed lists a packet holds. */
  datatype Slot = Signatures(input: nat) | InputHints(input: nat) | OutputHints(output: nat)

  predicate InRange(c: Content, s: Slot) { if s.OutputHints? then s.output < |c.outputs| else s.input < |c.inputs| }

  function Entries(c: Content, s: Slot): seq<Entry>
    requires InRange(c, s)
  {
    match s
    case Signatures(i) => c.inputs[i].sigs
    case InputHints(i) => c.inputs[i].derivations
    case OutputHints(i) => c.outputs[i].derivations
  }

  /** The entry of the first part that has the key. */
  function FirstEntry(parts: seq<Content>, s: Slot, pub: string): Option<Entry>
    requires forall p :: p in parts ==> InRange(p, s)
  {
    if parts == [] then None
    else
      assert parts[0] in parts;
      var e := Lookup(Entries(parts[0], s), pub);
      if e.Some? then e else FirstEntry(parts[1..], s, pub)
  }

  lemma {:induction false} FirstEntrySnoc(parts: seq<Content>, last: Content, s: Slot, pub: string)
    requires (forall p :: p in parts ==> InRange(p, s)) && InRange(last, s)
    ensures forall p :: p in parts + [last] ==> InRange(p, s)
    ensures FirstEntry(parts + [last], s, pub)
         == if FirstEntry(parts, s, pub).Some? then FirstEntry(parts, s, pub) else Lookup(Entries(last, s), pub)
  {
    if parts == [] {
      assert parts + [last] == [last];
    } else {
      assert parts[0] in parts;
      assert (parts + [last])[1..] == parts[1..] + [last];
      FirstEntrySnoc(parts[1..], last, s, pub);
    }
  }

  /** Every keyed list of the result has the union of the keys over all parts, and every key keeps the
      entry of the first part that has it. */
  lemma {:induction false} FirstPartWins(parts: seq<Content>, s: Slot, pub: string)
    requires parts != [] && AllMatch(parts) && InRange(parts[0], s)
    ensures (forall p :: p in parts ==> InRange(p, s)) && InRange(MergeAll(parts), s)
    ensures Lookup(Entries(MergeAll(parts), s), pub) == FirstEntry(parts, s, pub)
    ensures Has(Entries(MergeAll(parts), s), pub) <==> exists p :: p in parts && Has(Entries(p, s), pub)
    decreases |parts|
  {
    if |parts| == 1 {
      assert parts == [parts[0]] && parts[1..] == [];
      LookupHas(Entries(parts[0], s), pub);
      assert parts[0] in parts;
    } else {
      var front, last := parts[..|parts| - 1], parts[|parts| - 1];
      assert parts == front + [last] && front[0] == parts[0] && last in parts;
      assert forall p :: p in parts <==> p in front || p == last;
      FirstPartWins(front, s, pub);
      FirstEntrySnoc(front, last, s, pub);
      UnionLookup(Entries(MergeAll(front), s), Entries(last, s), pub);
    }
  }

  /** What the first part that has it says of an input. */
  function FirstField<T>(parts: seq<Content>, i: nat, field: Input -> Option<T>): Option<T>
    requires forall p :: p in parts ==> i < |p.inputs|
  {
    if parts == [] then None
    else
      assert parts[0] in parts;
      var x := field(parts[0].inputs[i]);
      if x.Some? then x else FirstField(parts[1..], i, field)
  }

  lemma {:induction false} FirstFieldSnoc<T>(parts: seq<Content>, last: Content, i: nat, field: Input -> Option<T>)
    requires (forall p :: p in parts ==> i < |p.inputs|) && i < |last.inputs|
    ensures forall p :: p in parts + [last] ==> i < |p.inputs|
    ensures FirstField(parts + [last], i, field)
         == if FirstField(parts, i, field).Some? then FirstField(parts, i, field) else field(last.inputs[i])
  {
    if parts == [] {
      assert parts + [last] == [last];
    } else {
      assert parts[0] in parts;
      assert (parts + [last])[1..] == parts[1..] + [last];
      FirstFieldSnoc(parts[1..], last, i, field);
    }
  }

  function WitnessUtxo(i: Input): Option<string> { i.witnessUtxo }
  function NonWitnessUtxo(i: Input): Option<string> { i.nonWitnessUtxo }
  function SighashType(i: Input): Option<nat> { if i.sighash != 0 then Some(i.sighash) else None }

  /** The spent output, the spent transaction and the signature hash type of an input are those of the first
      part that has them, and the transaction is that of every part. */
  lemma {:induction false} FirstFieldsWin(parts: seq<Content>, i: nat)
    requires parts != [] && AllMatch(parts) && i < |parts[0].inputs|
    ensures |MergeAll(parts).inputs| == |parts[0].inputs| && |MergeAll(parts).outputs| == |parts[0].outputs|
    ensures forall p :: p in parts ==> i < |p.inputs| && p.txid == MergeAll(parts).txid
    ensures var r := MergeAll(parts).inputs[i];
            && r.witnessUtxo == FirstField(parts, i, WitnessUtxo) && r.nonWitnessUtxo == FirstField(parts, i, NonWitnessUtxo)
            && SighashType(r) == FirstField(parts, i, SighashType)
    decreases |parts|
  {
    if |parts| == 1 {
      assert parts == [parts[0]] && parts[1..] == [];
    } else {
      var front, last := parts[..|parts| - 1], parts[|parts| - 1];
      assert parts == front + [last] && front[0] == parts[0] && last in parts;
      FirstFieldsWin(front, i);
      FirstFieldSnoc(front, last, i, WitnessUtxo);
      FirstFieldSnoc(front, last, i, NonWitnessUtxo);
      FirstFieldSnoc(front, last, i, SighashType);
    }
  }

  /** The order of the parts changes no key set. */
  lemma OrderKeepsKeys(ps: seq<Content>, qs: seq<Content>, s: Slot, pub: string)
    requires ps != [] && AllMatch(ps) && InRange(ps[0], s) && multiset(ps) == multiset(qs)
    ensures qs != [] && AllMatch(qs) && InRange(MergeAll(ps), s) && InRange(MergeAll(qs), s)
    ensures Has(Entries(MergeAll(ps), s), pub) <==> Has(Entries(MergeAll(qs), s), pub)
  {
    assert |qs| == |multiset(qs)| == |multiset(ps)| == |ps|;
    assert forall p :: p in qs <==> p in multiset(qs);
    assert forall p :: p in ps <==> p in multiset(ps);
    assert qs[0] in qs;
    FirstPartWins(ps, s, pub);
    FirstPartWins(qs, s, pub);
  }

  /** Swapping two sides keeps the entry of a key exactly when they do not disagree on it. */
  lemma SwapKeepsEntry(a: seq<Entry>, b: seq<Entry>, pub: string)
    ensures Lookup(Union(a, b), pub) == Lookup(Union(b, a), pub)
       <==> Lookup(a, pub).None? || Lookup(b, pub).None? || Lookup(a, pub) == Lookup(b, pub)
  {
    UnionLookup(a, b, pub);
    UnionLookup(b, a, pub);
  }
}
