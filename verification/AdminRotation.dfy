/** The sealed policy beside its pinned anchor: administration, the staged rotation of the admin
    passphrase and its recovery (internal/policy/admin.go, rotation.go, engine.go;
    internal/service/policy_ops.go, policy.go). */
module AdminRotation {
  import opened Base
  import opened Policies
  import opened Sealing
  import opened Administration

  // ── the trust root and the sealed file ───────────────────────────────────────

  /** The key family a passphrase and a salt derive; distinct pairs derive distinct families. */
  datatype SealKey = SealKey(pass: string, salt: string)

  datatype Anchor = Anchor(verifyKey: SealKey, salt: string, next: Option<SealKey>, stagedSalt: string, watermark: nat)

  /** policy.json: absent, not an envelope, or a body with the key that signed exactly that body. */
  datatype PolicyFile = Missing | Garbage | Envelope(body: Json, signer: SealKey)

  datatype Refusal = AuthRefused | SealViolation | RolledBack | VersionRefused

  datatype Loaded = Permissive | Active(policy: Policy) | Refused(why: Refusal)

  predicate Verifies(f: PolicyFile, a: Anchor)
    requires f.Envelope?
  {
    f.signer == a.verifyKey || a.next == Some(f.signer)
  }

  function Load(a: Option<Anchor>, f: PolicyFile): Loaded {
    if a.None? then if f.Missing? then Permissive else Refused(SealViolation)
    else if !f.Envelope? || !Verifies(f, a.value) then Refused(SealViolation)
    else
      match ReadBody(f.body)
      case None => Refused(VersionRefused)
      case Some(p) => if p.nonce < a.value.watermark then Refused(RolledBack) else Active(p)
  }

  /** The key a passphrase unlocks: the pinned one, or the staged one. */
  function AuthKey(a: Anchor, pass: string): Option<SealKey> {
    var k := SealKey(pass, a.salt);
    if pass != "" && (k == a.verifyKey || a.next == Some(k)) then Some(k) else None
  }

  /** The nonce as a lenient reader sees it: zero when it is not there. */
  function LenientNonce(j: Json): nat {
    match Members(j)
    case None => 0
    case Some(fields) =>
      match ReadNumber(fields, "nonce")
      case None => 0
      case Some(n) => if n < 0 then 0 else n
  }

  function Staged(a: Anchor, pass: string, salt: string): Anchor {
    a.(next := Some(SealKey(pass, salt)), stagedSalt := salt)
  }

  function Promoted(a: Anchor, nonce: nat): Anchor
    requires a.next.Some?
  {
    Anchor(a.next.value, a.stagedSalt, None, "", if nonce > a.watermark then nonce else a.watermark)
  }

  function Unstaged(a: Anchor): Anchor { a.(next := None, stagedSalt := "") }

  /** What recovery makes of an anchor: forward if the policy is already under the staged key,
      back if it is still under the old one, untouched if it is under neither. */
  function Converged(a: Anchor, f: PolicyFile): Option<Anchor> {
    if a.next.None? then Some(a)
    else if !f.Envelope? then None
    else if a.next == Some(f.signer) then Some(Promoted(a, LenientNonce(f.body)))
    else if f.signer == a.verifyKey then Some(Unstaged(a))
    else None
  }

  /** When a policy loads, and why it does not: without an anchor nothing may be on file; with one, the file must
      be an envelope under the pinned or the staged key, readable, and not below the watermark. */
  lemma LoadIs(a: Option<Anchor>, f: PolicyFile)
    ensures a.None? ==> Load(a, f) == if f == Missing then Permissive else Refused(SealViolation)
    ensures a.Some? ==>
              var sealed := f.Envelope? && (f.signer == a.value.verifyKey || a.value.next == Some(f.signer));
              && (Load(a, f) == Refused(SealViolation) <==> !sealed)
              && (Load(a, f) == Refused(VersionRefused) <==> sealed && ReadBody(f.body).None?)
              && (Load(a, f) == Refused(RolledBack) <==> sealed && ReadBody(f.body).Some? && ReadBody(f.body).value.nonce < a.value.watermark)
              && (Load(a, f).Active? <==> sealed && ReadBody(f.body).Some? && ReadBody(f.body).value.nonce >= a.value.watermark)
              && (Load(a, f).Active? ==> Load(a, f).policy == ReadBody(f.body).value)
  {
  }

  /** A passphrase authenticates exactly when it is not empty and the key it derives with the anchor's salt is the
      pinned one, or the staged one. */
  lemma AuthKeyIs(a: Anchor, pass: string)
    ensures AuthKey(a, pass).Some? <==> pass != "" && (a.verifyKey == SealKey(pass, a.salt) || a.next == Some(SealKey(pass, a.salt)))
    ensures AuthKey(a, pass).Some? ==> AuthKey(a, pass).value == SealKey(pass, a.salt)
  {
  }

  /** Recovery leaves a single pinned key: the staged one with its salt, and the higher of nonce and watermark, when
      the policy is under it; the old one with everything it had when the policy is still under that. */
  lemma ConvergedIs(a: Anchor, f: PolicyFile)
    requires a.next.Some?
    ensures match Converged(a, f)
            case None => !f.Envelope? || (a.next != Some(f.signer) && f.signer != a.verifyKey)
            case Some(c) =>
              && f.Envelope? && c.next.None? && c.stagedSalt == ""
              && (if a.next == Some(f.signer) then
                    && c.verifyKey == a.next.value && c.salt == a.stagedSalt
                    && c.watermark == (if LenientNonce(f.body) > a.watermark then LenientNonce(f.body) else a.watermark)
                  else f.signer == a.verifyKey == c.verifyKey && c.salt == a.salt && c.watermark == a.watermark)
  {
  }

  lemma LenientNonceIs(j: Json)
    ensures LenientNonce(j) == if j.Obj? && Lookup(j.fields, "nonce").Some? && Lookup(j.fields, "nonce").value.Num?
                                  && Lookup(j.fields, "nonce").value.n > 0 then Lookup(j.fields, "nonce").value.n else 0
  {
  }

  // ── what must stand at every moment ──────────────────────────────────────────

  predicate WellFormed(a: Anchor) {
    a.verifyKey.salt == a.salt && (a.next.Some? ==> a.next.value.salt == a.stagedSalt)
  }

  /** The same limits, lists and self addresses: everything but the nonce and the time stamp. */
  predicate SameRules(p: Policy, q: Policy) {
    Canonical(p).(nonce := 0, updatedAt := "") == Canonical(q).(nonce := 0, updatedAt := "")
  }

  /** The policy on disk loads under the anchor. */
  ghost predicate Standing(a: Option<Anchor>, f: PolicyFile) {
    a.Some? && WellFormed(a.value) && Load(a, f).Active? && NamesDistinct(Load(a, f).policy.networks)
  }

  /** It loads, and its rules are the given ones. */
  ghost predicate Guarded(a: Option<Anchor>, f: PolicyFile, rules: Policy) {
    Standing(a, f) && SameRules(Load(a, f).policy, rules)
  }

  /** A guarded policy gives the verdicts of the rules it guards. */
  lemma GuardedVerdict(a: Option<Anchor>, f: PolicyFile, rules: Policy, req: Check, spent: int, now: int)
    requires Guarded(a, f, rules)
    ensures Evaluate(Load(a, f).policy, req, spent, now) == Evaluate(rules, req, spent, now)
  {
    var p := Load(a, f).policy;
    DistinctNamesAgree(p.networks);
    CanonicalLists(p);
    CanonicalLists(rules);
    assert Canonical(p).networks == Canonical(rules).networks;
    assert NamesAgree(rules.networks);
    CanonicalKeepsVerdict(p, req, spent, now);
    CanonicalKeepsVerdict(rules, req, spent, now);
    VerdictIgnoresStamps(Canonical(p), 0, "", req, spent, now);
    VerdictIgnoresStamps(Canonical(rules), 0, "", req, spent, now);
  }

  lemma VerdictIgnoresStamps(p: Policy, nonce: nat, updatedAt: string, req: Check, spent: int, now: int)
    ensures Evaluate(p.(nonce := nonce, updatedAt := updatedAt), req, spent, now) == Evaluate(p, req, spent, now)
  {
  }

  lemma ReadNonce(j: Json)
    requires ReadBody(j).Some?
    ensures LenientNonce(j) == ReadBody(j).value.nonce && ReadBody(j).value.version <= BODY_VERSION
  {
  }

  /** A body sealed under either pinned key, with a nonce at the watermark or above, loads. */
  lemma SealedLoads(a: Anchor, p: Policy, k: SealKey)
    requires WellFormed(a) && (k == a.verifyKey || a.next == Some(k))
    requires p.version <= BODY_VERSION && p.nonce >= a.watermark && NamesDistinct(p.networks)
    ensures Load(Some(a), Envelope(WriteBody(p), k)) == Active(Canonical(p))
    ensures Guarded(Some(a), Envelope(WriteBody(p), k), p)
  {
    ReadAfterWrite(p);
    CanonicalIsIdempotent(p);
    SortKeepsDistinct(p.networks);
  }

  lemma ResealKeepsRules(a: Anchor, f: PolicyFile, rules: Policy, nonce: nat, updatedAt: string, k: SealKey)
    requires Guarded(Some(a), f, rules) && nonce >= a.watermark && (k == a.verifyKey || a.next == Some(k))
    ensures Guarded(Some(a), Envelope(WriteBody(Load(Some(a), f).policy.(nonce := nonce, updatedAt := updatedAt)), k), rules)
  {
    var p := Load(Some(a), f).policy;
    ReadNonce(f.body);
    SealedLoads(a, p.(nonce := nonce, updatedAt := updatedAt), k);
    CanonicalIsIdempotent(p);
  }

  /** Recovery of a guarded pair always finds a side to fall to, and leaves one pinned key: the
      one that signed the policy. */
  lemma ConvergedKeepsRules(a: Anchor, f: PolicyFile, rules: Policy)
    requires Guarded(Some(a), f, rules)
    ensures Converged(a, f).Some?
    ensures var c := Converged(a, f).value;
            && Guarded(Some(c), f, rules) && c.next.None? && c.verifyKey == f.signer
            && c.watermark >= a.watermark && Converged(c, f) == Some(c)
  {
    ReadNonce(f.body);
  }

  // ── the two files, an engine, and the writes that can fail ───────────────────

  /** What a write meets: it works, it fails without effect, the mount is read-only, or the process
      dies before it. */
  datatype Fault = Fine | Fails | ReadOnly | Dies

  datatype Outcome = Landed | Emitted(anchor: Anchor) | Denied(why: Refusal) | Interrupted(f: Fault)

  /** What the k-th coming write meets. */
  function FaultAt(faults: seq<Fault>, k: nat): Fault { if k < |faults| then faults[k] else Fine }

  /** What writing an anchor comes to. */
  function AnchorWritten(f: Fault, a: Anchor): Outcome { match f case Fine => Landed case ReadOnly => Emitted(a) case _ => Interrupted(f) }

  class Guardrails {
    var anchorFile: Option<Anchor>  // config class
    var policyFile: PolicyFile      // state class
    var anchor: Option<Anchor>      // the engine's own copy
    var faults: seq<Fault>          // what the coming writes will meet

    constructor (anchorFile: Option<Anchor>, policyFile: PolicyFile)
      ensures this.anchorFile == anchorFile && this.policyFile == policyFile && anchor == anchorFile && faults == []
    {
      this.anchorFile, this.policyFile, anchor, faults := anchorFile, policyFile, anchorFile, [];
    }

    method Meet() returns (f: Fault)
      modifies this`faults
      ensures f == if old(faults) == [] then Fine else old(faults)[0]
      ensures faults == if old(faults) == [] then [] else old(faults)[1..]
    {
      if faults == [] {
        return Fine;
      }
      f := faults[0];
      faults := faults[1..];
    }

    method WriteAnchor(a: Anchor) returns (f: Fault)
      modifies this`anchorFile, this`faults
      ensures anchorFile == if f == Fine then Some(a) else old(anchorFile)
      ensures f == FaultAt(old(faults), 0)
      ensures old(faults) == [] ==> f == Fine && faults == []
    {
      f := Meet();
      if f == Fine {
        anchorFile := Some(a);
      }
    }

    method SealAndWrite(body: Policy, k: SealKey) returns (f: Fault)
      modifies this`policyFile, this`faults
      ensures policyFile == if f == Fine then Envelope(WriteBody(body), k) else old(policyFile)
      ensures f == FaultAt(old(faults), 0) && FaultAt(faults, 0) == FaultAt(old(faults), 1)
      ensures old(faults) == [] ==> f == Fine && faults == []
    {
      f := Meet();
      if f == Fine {
        var bytes := EmitBody(body);
        policyFile := Envelope(bytes, k);
      }
    }

    /** Lands the anchor, or hands it to the operator when the mount is read-only. */
    method LandAnchor(a: Anchor) returns (r: Outcome)
      modifies this`anchorFile, this`faults
      ensures anchorFile == if r == Landed then Some(a) else old(anchorFile)
      ensures r == AnchorWritten(FaultAt(old(faults), 0), a)
      ensures r == Landed <==> FaultAt(old(faults), 0) == Fine
      ensures old(faults) == [] ==> r == Landed && faults == []
    {
      var f := WriteAnchor(a);
      match f
      case Fine => r := Landed;
      case ReadOnly => r := Emitted(a);
      case _ => r := Interrupted(f);
    }

    // ── the three phases ───────────────────────────────────────────────────────

    method Stage(current: string, next: string, salt: string) returns (ok: bool)
      modifies this`anchor
      ensures ok <==> old(anchor).Some? && next != "" && old(anchor).value.next.None? && AuthKey(old(anchor).value, current).Some?
      ensures anchor == if ok then Some(Staged(old(anchor).value, next, salt)) else old(anchor)
    {
      if anchor.None? || next == "" || anchor.value.next.Some? {
        return false;
      }
      var k := AuthKey(anchor.value, current);
      if k.None? {
        return false;
      }
      anchor := Some(Staged(anchor.value, next, salt));
      return true;
    }

    /** Reseals the active body under the staged key. The new nonce is above the old one unless a
        nonce was already above the watermark, from a change whose anchor never landed. */
    method Reseal(next: string, now: string, ghost rules: Policy) returns (r: Outcome)
      requires Guarded(anchor, policyFile, rules)
      modifies this`policyFile, this`faults
      ensures r == Landed || r == Denied(AuthRefused) || r.Interrupted?
      ensures r != Landed ==> policyFile == old(policyFile)
      ensures r == Denied(AuthRefused) <==> anchor.value.next != Some(SealKey(next, anchor.value.stagedSalt)) || next == ""
      ensures r == Landed ==>
                && Guarded(anchor, policyFile, rules) && anchor.value.next == Some(policyFile.signer)
                && Load(anchor, policyFile).policy.nonce == LenientNonce(policyFile.body) == anchor.value.watermark + 1
                && (Load(anchor, policyFile).policy.nonce > Load(anchor, old(policyFile)).policy.nonce
                    <==> Load(anchor, old(policyFile)).policy.nonce == anchor.value.watermark)
      ensures old(faults) == [] && r != Denied(AuthRefused) ==> r == Landed && faults == []
    {
      if anchor.value.next.None? || next == "" || anchor.value.next.value != SealKey(next, anchor.value.stagedSalt) {
        return Denied(AuthRefused);
      }
      var lr := Load(anchor, policyFile);
      var k := anchor.value.next.value;
      var body := lr.policy.(nonce := anchor.value.watermark + 1, updatedAt := now);
      ResealKeepsRules(anchor.value, policyFile, rules, body.nonce, now, k);
      ReadNonce(policyFile.body);
      SealedLoads(anchor.value, body, k);
      var f := SealAndWrite(body, k);
      if f != Fine {
        return Interrupted(f);
      }
      ReadNonce(policyFile.body);
      r := Landed;
    }

    /** Makes the staged key the only one, once the policy verifies under it. */
    method Promote() returns (ok: bool)
      modifies this`anchor
      ensures ok <==> old(anchor).Some? && old(anchor).value.next.Some? && policyFile.Envelope?
                      && old(anchor).value.next == Some(policyFile.signer)
      ensures anchor == if ok then Some(Promoted(old(anchor).value, LenientNonce(policyFile.body))) else old(anchor)
    {
      if anchor.None? || anchor.value.next.None? || !policyFile.Envelope? {
        return false;
      }
      if policyFile.signer != anchor.value.next.value {
        return false;
      }
      var nonce := LenientNonce(policyFile.body);
      var promoted := anchor.value.(verifyKey := anchor.value.next.value, salt := anchor.value.stagedSalt, next := None, stagedSalt := "");
      if nonce > promoted.watermark {
        promoted := promoted.(watermark := nonce);
      }
      anchor := Some(promoted);
      return true;
    }

    // ── recovery ───────────────────────────────────────────────────────────────

    method ConvergeAnchor() returns (changed: bool, ok: bool)
      modifies this`anchor
      ensures ok <==> old(anchor).None? || Converged(old(anchor).value, policyFile).Some?
      ensures anchor == if ok && old(anchor).Some? then Converged(old(anchor).value, policyFile) else old(anchor)
      ensures changed <==> ok && old(anchor).Some? && old(anchor).value.next.Some?
    {
      if anchor.None? || anchor.value.next.None? {
        return false, true;
      }
      if !policyFile.Envelope? {
        return false, false;
      }
      if policyFile.signer == anchor.value.next.value {
        var promoted := anchor.value.(verifyKey := anchor.value.next.value, salt := anchor.value.stagedSalt, next := None, stagedSalt := "");
        if LenientNonce(policyFile.body) > promoted.watermark {
          promoted := promoted.(watermark := LenientNonce(policyFile.body));
        }
        anchor := Some(promoted);
        return true, true;
      }
      if policyFile.signer == anchor.value.verifyKey {
        anchor := Some(anchor.value.(next := None, stagedSalt := ""));
        return true, true;
      }
      return false, false;
    }

    /** Converges a half-finished rotation and lands the result; a read-only mount keeps the dual
        anchor, which still verifies. A policy under neither key changes nothing. */
    method RecoverRotation(ghost rules: Policy) returns (r: Outcome)
      requires anchor == anchorFile
      modifies this`anchorFile, this`anchor, this`faults
      ensures anchorFile == old(anchorFile) || (anchorFile == anchor && old(anchorFile).Some? && anchor == Converged(old(anchorFile).value, policyFile))
      ensures old(Guarded(anchorFile, policyFile, rules)) ==>
                && Guarded(anchorFile, policyFile, rules) && Guarded(anchor, policyFile, rules)
                && r != Denied(SealViolation) && anchor == Converged(old(anchorFile).value, policyFile)
                && anchor.value.next.None? && anchor.value.verifyKey == policyFile.signer
                && anchorFile.value.watermark <= anchor.value.watermark
                && anchorFile.value.watermark >= old(anchorFile).value.watermark
      ensures r == Landed ==> anchorFile == anchor && (anchor.Some? ==> anchor.value.next.None?)
      ensures r == Denied(SealViolation) ==> anchorFile == old(anchorFile)
      ensures old(anchorFile).Some? && old(anchorFile).value.next.Some? && Converged(old(anchorFile).value, policyFile).Some? ==>
                && anchor == Converged(old(anchorFile).value, policyFile)
                && r == AnchorWritten(FaultAt(old(faults), 0), anchor.value)
                && anchorFile == if r == Landed then anchor else old(anchorFile)
      ensures old(anchorFile).Some? && old(anchorFile).value.next.None? ==> r == Landed && anchorFile == old(anchorFile)
      ensures r.Denied? ==> r == Denied(SealViolation)
      ensures old(faults) == [] && old(Guarded(anchorFile, policyFile, rules)) ==> r == Landed && faults == []
    {
      if Guarded(anchor, policyFile, rules) {
        ConvergedKeepsRules(anchor.value, policyFile, rules);
      }
      var changed, ok := ConvergeAnchor();
      if !ok {
        return Denied(SealViolation);
      }
      if !changed {
        return Landed;
      }
      var f := WriteAnchor(anchor.value);
      match f
      case Fine => r := Landed;
      case ReadOnly => r := Emitted(anchor.value);
      case _ => r := Interrupted(f);
    }

    /** Opens the engine and recovers, as every start does. */
    method Reopen(ghost rules: Policy) returns (r: Outcome)
      modifies this`anchorFile, this`anchor, this`faults
      ensures old(Guarded(anchorFile, policyFile, rules)) ==>
                && Guarded(anchorFile, policyFile, rules)
                && anchorFile.value.watermark >= old(anchorFile).value.watermark
                && (r == Landed ==> anchorFile.value.next.None? && anchorFile.value.verifyKey == policyFile.signer)
      ensures old(anchorFile).Some? && old(anchorFile).value.next.None? ==> r == Landed && anchorFile == old(anchorFile)
      ensures old(faults) == [] && old(Guarded(anchorFile, policyFile, rules)) ==> r == Landed && faults == []
    {
      anchor := anchorFile;
      r := RecoverRotation(rules);
    }

    // ── the whole rotation ─────────────────────────────────────────────────────

    /** Reseal and promote, once the dual-key anchor is on disk. */
    method ResealAndPromote(next: string, now: string, ghost rules: Policy) returns (r: Outcome)
      requires Guarded(anchorFile, policyFile, rules) && anchor == anchorFile
      requires anchor.value.next == Some(SealKey(next, anchor.value.stagedSalt)) && next != ""
      modifies this`anchorFile, this`policyFile, this`anchor, this`faults
      ensures Guarded(anchorFile, policyFile, rules)
      ensures anchorFile.value.watermark >= old(anchorFile).value.watermark
      ensures r == Landed ==> anchorFile.value.next.None? && Some(anchorFile.value.verifyKey) == old(anchorFile).value.next == Some(policyFile.signer)
      ensures r == Landed ==> LenientNonce(policyFile.body) == anchorFile.value.watermark == old(anchorFile).value.watermark + 1
      ensures r.Emitted? ==> anchorFile == old(anchorFile) && Some(policyFile.signer) == anchorFile.value.next == Some(r.anchor.verifyKey)
      ensures r.Interrupted? ==> anchorFile == old(anchorFile)
      ensures !r.Denied? && (old(faults) == [] ==> r == Landed && faults == [])
    {
      r := Reseal(next, now, rules);
      if r != Landed {
        return;
      }
      ConvergedKeepsRules(anchor.value, policyFile, rules);
      var ok := Promote();
      if !ok {
        assert false;
        return Denied(SealViolation);
      }
      r := LandAnchor(anchor.value);
    }

    /** Rotates the admin passphrase. Wherever it stops, the policy on disk stays guarded with the
        same rules and the watermark does not go down. When it lands, only the new passphrase
        authenticates and the policy is sealed under it. */
    method ChangeAdminPassphrase(current: string, next: string, salt: string, now: string, ghost rules: Policy) returns (r: Outcome)
      requires Guarded(anchorFile, policyFile, rules)
      modifies this`anchorFile, this`policyFile, this`anchor, this`faults
      ensures Guarded(anchorFile, policyFile, rules)
      ensures anchorFile.value.watermark >= old(anchorFile).value.watermark
      ensures r == Landed ==> anchorFile.value.verifyKey == SealKey(next, salt) == policyFile.signer && anchorFile.value.next.None?
      ensures r == Landed && current != next ==> AuthKey(anchorFile.value, next).Some? && AuthKey(anchorFile.value, current).None?
      ensures r == Landed ==>
                LenientNonce(policyFile.body) == anchorFile.value.watermark
                == Converged(old(anchorFile).value, old(policyFile)).value.watermark + 1
      ensures r.Emitted? ==> anchorFile.value.next == Some(policyFile.signer) && policyFile.signer == r.anchor.verifyKey == SealKey(next, salt)
      ensures r.Denied? ==> r.why == AuthRefused && policyFile == old(policyFile)
      ensures var f := FaultAt(old(faults), 0);
              old(anchorFile).value.next.Some? && (f == Fails || f == Dies) ==>
                r == Interrupted(f) && anchorFile == old(anchorFile) && policyFile == old(policyFile)
      ensures old(faults) == [] ==>
                (r == Landed <==> next != "" && AuthKey(Converged(old(anchorFile).value, old(policyFile)).value, current).Some?)
    {
      anchor := anchorFile;
      ConvergedKeepsRules(anchor.value, policyFile, rules);
      r := RecoverRotation(rules);
      if r.Denied? || r.Interrupted? {
        return;
      }
      r := StageAndReseal(current, next, salt, now, rules);
    }

    /** Lands the dual-key anchor, then reseals and promotes. */
    method StageAndReseal(current: string, next: string, salt: string, now: string, ghost rules: Policy) returns (r: Outcome)
      requires Guarded(anchorFile, policyFile, rules) && Guarded(anchor, policyFile, rules)
      requires anchor.value.next.None? && anchorFile.value.watermark <= anchor.value.watermark
      modifies this`anchorFile, this`policyFile, this`anchor, this`faults
      ensures Guarded(anchorFile, policyFile, rules) && anchorFile.value.watermark >= old(anchorFile).value.watermark
      ensures r == Landed ==>
                && anchorFile.value.verifyKey == SealKey(next, salt) == policyFile.signer && anchorFile.value.next.None?
                && LenientNonce(policyFile.body) == anchorFile.value.watermark == old(anchor).value.watermark + 1
      ensures r.Emitted? ==> anchorFile.value.next == Some(policyFile.signer) && policyFile.signer == r.anchor.verifyKey == SealKey(next, salt)
      ensures r.Denied? ==> r.why == AuthRefused && policyFile == old(policyFile)
      ensures r.Denied? <==> next == "" || AuthKey(old(anchor).value, current).None?
      ensures r == Landed ==> AuthKey(old(anchor).value, current).Some? && next != ""
      ensures old(faults) == [] ==> r.Denied? || r == Landed
    {
      StagedKeepsRules(anchor.value, policyFile, rules, next, salt);
      var ok := Stage(current, next, salt);
      if !ok {
        return Denied(AuthRefused);
      }
      var f := WriteAnchor(anchor.value);
      if f != Fine {
        return Interrupted(f);
      }
      r := ResealAndPromote(next, now, rules);
    }

    // ── administration ─────────────────────────────────────────────────────────

    /** Authenticates, loads, changes, bumps the nonce past the watermark, seals, then lands the
        anchor. When it lands, the policy it replaced is refused from then on. */
    method Mutate(pass: string, c: Change, self: Option<seq<string>>, writer: string, now: string) returns (r: Outcome)
      requires Standing(anchorFile, policyFile)
      modifies this`anchorFile, this`policyFile, this`anchor, this`faults
      ensures Standing(anchorFile, policyFile)
      ensures anchorFile.value.watermark >= old(anchorFile).value.watermark
      ensures r.Denied? <==> AuthKey(old(anchorFile).value, pass).None?
      ensures r.Denied? ==> policyFile == old(policyFile)
      ensures policyFile == if !r.Denied? && FaultAt(old(faults), 0) == Fine
                            then Envelope(WriteBody(Mutated(Load(old(anchorFile), old(policyFile)).policy, old(anchorFile).value.watermark,
                                                             c, self, writer, now)),
                                          AuthKey(old(anchorFile).value, pass).value)
                            else old(policyFile)
      ensures r == Landed <==> !r.Denied? && FaultAt(old(faults), 0) == Fine && FaultAt(old(faults), 1) == Fine
      ensures anchorFile != old(anchorFile) ==> r == Landed
      ensures r == Landed || r.Emitted? ==>
                Load(anchorFile, policyFile)
                == Active(Canonical(Mutated(Load(old(anchorFile), old(policyFile)).policy, old(anchorFile).value.watermark, c, self, writer, now)))
      ensures r == Landed ==> Load(anchorFile, old(policyFile)) == Refused(RolledBack)
    {
      anchor := anchorFile;
      var k := AuthKey(anchor.value, pass);
      if k.None? {
        return Denied(AuthRefused);
      }
      var lr := Load(anchor, policyFile);
      var body := BuildBody(lr.policy, anchor.value.watermark, c, self, writer, now);
      ReadNonce(policyFile.body);
      ChangeKeepsDistinct(lr.policy, c, now);
      OldPolicyIsRolledBack(anchor.value, policyFile, body.nonce);
      r := SealAndLand(body, k.value);
    }

    method BuildBody(p: Policy, watermark: nat, c: Change, self: Option<seq<string>>, writer: string, now: string) returns (body: Policy)
      ensures body == Mutated(p, watermark, c, self, writer, now)
    {
      body := Edit(p, c, now);
      body := body.(nonce := body.nonce + 1);
      if body.nonce <= watermark {
        body := body.(nonce := watermark + 1);
      }
      if self.Some? {
        body := body.(selfAddresses := SortedLower(self.value));
      }
      if writer != "" {
        body := body.(writtenBy := writer);
      }
      body := body.(updatedAt := now);
    }

    /** Writes the policy first and the anchor, with its watermark raised, second. */
    method SealAndLand(body: Policy, k: SealKey) returns (r: Outcome)
      requires anchor == anchorFile && anchor.Some? && WellFormed(anchor.value)
      requires k == anchor.value.verifyKey || anchor.value.next == Some(k)
      requires body.version <= BODY_VERSION && body.nonce > anchor.value.watermark && NamesDistinct(body.networks)
      modifies this`anchorFile, this`policyFile, this`anchor, this`faults
      ensures !r.Denied?
      ensures policyFile == if FaultAt(old(faults), 0) == Fine then Envelope(WriteBody(body), k) else old(policyFile)
      ensures r == Landed <==> FaultAt(old(faults), 0) == Fine && FaultAt(old(faults), 1) == Fine
      ensures anchorFile == if r == Landed then Some(old(anchor).value.(watermark := body.nonce)) else old(anchorFile)
      ensures anchor == if FaultAt(old(faults), 0) == Fine then Some(old(anchor).value.(watermark := body.nonce)) else old(anchor)
      ensures Standing(anchorFile, old(policyFile)) || policyFile != old(policyFile) ==> Standing(anchorFile, policyFile)
      ensures r == Landed || r.Emitted? ==> Load(anchorFile, policyFile) == Active(Canonical(body))
      ensures old(faults) == [] ==> r == Landed && faults == []
    {
      SealedLoads(anchor.value, body, k);
      var f := SealAndWrite(body, k);
      if f != Fine {
        return Interrupted(f);
      }
      var raised := anchor.value;
      if body.nonce > raised.watermark {
        raised := raised.(watermark := body.nonce);
      }
      SealedLoads(raised, body, k);
      anchor := Some(raised);
      r := LandAnchor(raised);
    }

    /** Reseals a default policy under the pinned key; it needs no readable policy.json. */
    method Reset(pass: string, self: seq<string>, writer: string) returns (r: Outcome)
      requires anchorFile.Some? ==> WellFormed(anchorFile.value)
      modifies this`anchorFile, this`policyFile, this`anchor, this`faults
      ensures old(Standing(anchorFile, policyFile)) ==> Standing(anchorFile, policyFile) && anchorFile.value.watermark >= old(anchorFile).value.watermark
      ensures r.Denied? <==> old(anchorFile).None? || AuthKey(old(anchorFile).value, pass).None?
      ensures r.Denied? ==> policyFile == old(policyFile) && anchorFile == old(anchorFile)
      ensures r == Landed <==> !r.Denied? && FaultAt(old(faults), 0) == Fine && FaultAt(old(faults), 1) == Fine
      ensures anchorFile != old(anchorFile) ==> r == Landed
      ensures r == Landed || r.Emitted? ==>
                && Standing(anchorFile, policyFile)
                && Load(anchorFile, policyFile)
                   == Active(Canonical(DefaultPolicy(writer).(nonce := old(anchorFile).value.watermark + 1, selfAddresses := SortedLower(self))))
    {
      anchor := anchorFile;
      if anchor.None? {
        return Denied(AuthRefused);
      }
      var k := AuthKey(anchor.value, pass);
      if k.None? {
        return Denied(AuthRefused);
      }
      var body := DefaultPolicy(writer).(nonce := anchor.value.watermark + 1, selfAddresses := SortedLower(self));
      r := SealAndLand(body, k.value);
    }

    /** Bootstraps the trust root. Until the anchor lands, a policy file without one is refused. */
    method InitSeal(pass: string, salt: string, self: seq<string>, writer: string) returns (r: Outcome)
      modifies this`anchorFile, this`policyFile, this`anchor, this`faults
      ensures r.Denied? <==> old(anchorFile).Some? || pass == ""
      ensures r != Landed ==> anchorFile == old(anchorFile)
      ensures r == Landed <==> !r.Denied? && FaultAt(old(faults), 0) == Fine && FaultAt(old(faults), 1) == Fine
      ensures !r.Denied? && policyFile != old(policyFile) && r != Landed ==> Load(anchorFile, policyFile) == Refused(SealViolation)
      ensures r == Landed ==>
                && Standing(anchorFile, policyFile) && AuthKey(anchorFile.value, pass).Some?
                && anchorFile == anchor == Some(Anchor(SealKey(pass, salt), salt, None, "", 1))
                && Load(anchorFile, policyFile) == Active(Canonical(DefaultPolicy(writer).(nonce := 1, selfAddresses := SortedLower(self))))
    {
      anchor := anchorFile;
      if anchor.Some? || pass == "" {
        return Denied(AuthRefused);
      }
      var k := SealKey(pass, salt);
      var body := DefaultPolicy(writer).(nonce := 1, selfAddresses := SortedLower(self));
      var f := SealAndWrite(body, k);
      if f != Fine {
        return Interrupted(f);
      }
      var a := Anchor(k, salt, None, "", 1);
      SealedLoads(a, body, k);
      anchor := Some(a);
      r := LandAnchor(a);
    }
  }

  lemma OldPolicyIsRolledBack(a: Anchor, f: PolicyFile, nonce: nat)
    requires Standing(Some(a), f) && Load(Some(a), f).policy.nonce < nonce
    ensures Load(Some(a.(watermark := nonce)), f) == Refused(RolledBack)
  {
  }

  function DefaultPolicy(writer: string): Policy {
    Policy(BODY_VERSION, 0, "", writer, Limits(None, None, None, Some(false), Some(true)), [], [], [], [])
  }

  /** The body a change seals. */
  function Mutated(p: Policy, watermark: nat, c: Change, self: Option<seq<string>>, writer: string, now: string): Policy {
    ApplyChange(p, c, now).(
      nonce := if p.nonce + 1 <= watermark then watermark + 1 else p.nonce + 1,
      selfAddresses := if self.Some? then SortedLower(self.value) else p.selfAddresses,
      writtenBy := if writer != "" then writer else p.writtenBy,
      updatedAt := now)
  }

  /** A change is sealed under a nonce above both the policy's and the watermark, with the time, the writer and
      the own addresses of the call, and everything else as the change leaves it. */
  lemma MutatedIs(p: Policy, watermark: nat, c: Change, self: Option<seq<string>>, writer: string, now: string)
    ensures var m, q := Mutated(p, watermark, c, self, writer, now), ApplyChange(p, c, now);
            && m.nonce == (if p.nonce > watermark then p.nonce else watermark) + 1 && m.updatedAt == now
            && m.writtenBy == (if writer == "" then p.writtenBy else writer)
            && m.selfAddresses == (match self case None => p.selfAddresses case Some(own) => SortedLower(own))
            && m.version == p.version && m.defaults == q.defaults && m.networks == q.networks
            && m.allowlist == q.allowlist && m.denylist == q.denylist
  {
  }

  /** The default policy allows every spend, and would let the wallet pay itself under an allowlist. */
  lemma DefaultAllowsAll(writer: string, req: Check, spent: int, now: int)
    ensures var p := DefaultPolicy(writer);
            && Evaluate(p, req, spent, now) == Allowed && p.defaults == Limits(None, None, None, Some(false), Some(true))
            && p.version == 1 && p.nonce == 0 && p.updatedAt == "" && p.writtenBy == writer && p.networks == [] && p.allowlist == p.denylist == []
  {
  }

  lemma StagedKeepsRules(a: Anchor, f: PolicyFile, rules: Policy, next: string, salt: string)
    requires Guarded(Some(a), f, rules) && a.next.None?
    ensures Guarded(Some(Staged(a, next, salt)), f, rules)
  {
  }

  /** The nonce can go down. Two changes whose anchor never lands leave the policy two nonces above the
      watermark; rotating the passphrase then reseals it one above. */
  method RotateAfterUnlandedChanges(g: Guardrails, pass: string, first: Change, second: Change, next: string, salt: string,
                                    writer: string, now: string) returns (before: nat)
    requires Standing(g.anchorFile, g.policyFile) && g.anchorFile.value.next.None?
    requires Load(g.anchorFile, g.policyFile).policy.nonce == g.anchorFile.value.watermark
    requires AuthKey(g.anchorFile.value, pass).Some? && next != ""
    modifies g
    ensures Standing(g.anchorFile, g.policyFile) && before == old(g.anchorFile).value.watermark + 2
    ensures Load(g.anchorFile, g.policyFile).policy.nonce == before - 1
    ensures g.anchorFile.value.watermark == before - 1 && g.anchorFile.value.verifyKey == SealKey(next, salt)
  {
    ghost var watermark := g.anchorFile.value.watermark;
    UnlandedChange(g, pass, first, writer, now);
    UnlandedChange(g, pass, second, writer, now);
    var lr := Load(g.anchorFile, g.policyFile);
    before := lr.policy.nonce;
    g.faults := [];
    var r := g.ChangeAdminPassphrase(pass, next, salt, now, lr.policy);
    ReadNonce(g.policyFile.body);
  }

  /** A change that is written, and whose anchor is not. */
  method UnlandedChange(g: Guardrails, pass: string, c: Change, writer: string, now: string)
    requires Standing(g.anchorFile, g.policyFile) && AuthKey(g.anchorFile.value, pass).Some?
    modifies g
    ensures Standing(g.anchorFile, g.policyFile) && g.anchorFile == old(g.anchorFile)
    ensures Load(g.anchorFile, g.policyFile).policy.nonce == old(Load(g.anchorFile, g.policyFile).policy.nonce) + 1
  {
    g.faults := [Fine, Fails];
    var p := Load(g.anchorFile, g.policyFile).policy;
    ghost var a := g.anchorFile.value;
    var r := g.Mutate(pass, c, None, writer, now);
    ReadNonce(old(g.policyFile).body);
    ChangeKeepsDistinct(p, c, now);
    SealedLoads(a, Mutated(p, a.watermark, c, None, writer, now), AuthKey(a, pass).value);
  }

  // ── whole runs ───────────────────────────────────────────────────────────────

  datatype Command =
    | Reopen
    | Rotate(current: string, next: string, salt: string)
    | Set(pass: string, change: Change, self: Option<seq<string>>)
    | Restore(pass: string, newSelf: seq<string>)

  /** A command, and what its writes meet; a write that dies ends the command, never the run. */
  datatype Order = Order(command: Command, writer: string, now: string, faults: seq<Fault>)

  predicate KeepsRules(c: Command) { c.Reopen? || c.Rotate? }

  method Execute(g: Guardrails, o: Order, ghost rules: Policy)
    requires Standing(g.anchorFile, g.policyFile)
    modifies g
    ensures Standing(g.anchorFile, g.policyFile)
    ensures g.anchorFile.value.watermark >= old(g.anchorFile).value.watermark
    ensures KeepsRules(o.command) && old(Guarded(g.anchorFile, g.policyFile, rules)) ==> Guarded(g.anchorFile, g.policyFile, rules)
    ensures o.command.Reopen? && o.faults == [] ==> g.anchorFile.value.next.None? && g.anchorFile.value.verifyKey == g.policyFile.signer
  {
    g.faults := o.faults;
    ghost var here := if Guarded(g.anchorFile, g.policyFile, rules) then rules else Load(g.anchorFile, g.policyFile).policy;
    match o.command {
      case Reopen =>
        var r := g.Reopen(here);
      case Rotate(current, next, salt) =>
        var r := g.ChangeAdminPassphrase(current, next, salt, o.now, here);
      case Set(pass, change, self) =>
        var r := g.Mutate(pass, change, self, o.writer, o.now);
      case Restore(pass, self) =>
        var r := g.Reset(pass, self, o.writer);
    }
  }

  /** Whatever administrators do, wherever they are cut short, the policy on disk always loads and
      the watermark never goes down; rotations and recoveries alone never change the rules; and an
      undisturbed reopening at the end leaves one pinned key, the one that sealed the policy. */
  method Administer(g: Guardrails, orders: seq<Order>, ghost rules: Policy)
    requires Guarded(g.anchorFile, g.policyFile, rules)
    modifies g
    ensures Standing(g.anchorFile, g.policyFile)
    ensures g.anchorFile.value.watermark >= old(g.anchorFile).value.watermark
    ensures (forall o :: o in orders ==> o.command.Reopen? || o.command.Rotate?) ==> Guarded(g.anchorFile, g.policyFile, rules)
    ensures orders != [] && orders[|orders| - 1].command.Reopen? && orders[|orders| - 1].faults == [] ==>
              g.anchorFile.value.next.None? && g.anchorFile.value.verifyKey == g.policyFile.signer
  {
    ghost var kept, converged := true, false;
    for i := 0 to |orders|
      invariant Standing(g.anchorFile, g.policyFile)
      invariant g.anchorFile.value.watermark >= old(g.anchorFile).value.watermark
      invariant kept ==> Guarded(g.anchorFile, g.policyFile, rules)
      invariant converged ==> g.anchorFile.value.next.None? && g.anchorFile.value.verifyKey == g.policyFile.signer
      invariant (forall k :: 0 <= k < i ==> KeepsRules(orders[k].command)) ==> kept
      invariant i > 0 ==> converged == (orders[i - 1].command.Reopen? && orders[i - 1].faults == [])
    {
      Execute(g, orders[i], rules);
      kept := kept && KeepsRules(orders[i].command);
      converged := orders[i].command.Reopen? && orders[i].faults == [];
    }
  }
}
