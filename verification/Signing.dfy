/** Signing, broadcasting and reconciling as code, each a run of the settlement protocol
    (internal/service/psbt.go, policy.go). */
module Signing {
  import opened Base
  import opened Settlement
  import L = Ledger
  import LL = LedgerLaws
  import O = Outflow
  import R = Recipients
  import P = Policies
  import Q = Outcomes
  import V = Verdicts

  /** What the next operation meets: how far the clock moves on, whether it works, whether a failed
      append has left its line behind, whether the process dies before it. */
  datatype Luck = Luck(tick: nat, ok: bool, late: bool, dies: bool)

  const GOOD_LUCK := Luck(0, true, false, false)

  /** What is met after `n` more operations. */
  function Later(luck: seq<Luck>, n: nat): seq<Luck> { if n < |luck| then luck[n..] else [] }

  lemma LaterAdds(luck: seq<Luck>, m: nat, n: nat)
    ensures Later(Later(luck, m), n) == Later(luck, m + n)
    ensures Later(luck, m) == [] || Later(luck, m)[0] == luck[m]
  {
  }

  /** The process dies before operation `k` from now. */
  predicate DiesAt(luck: seq<Luck>, k: nat) { k < |luck| && luck[k].dies }

  /** Operation `k` from now is reached and works. */
  predicate Works(luck: seq<Luck>, k: nat) { k < |luck| ==> luck[k].ok && !luck[k].dies }

  /** A step the protocol allows, under its hypothesis on answers. */
  ghost predicate Sensible(w: World, s: Step) { Possible(w, s) && FinalAnswers(w, s) }

  lemma {:induction false} RunSnoc(w: World, steps: seq<Step>, s: Step)
    ensures Run(w, steps + [s]) == Next(Run(w, steps), s)
    ensures Always(w, steps + [s], Sensible) <==> Always(w, steps, Sensible) && Sensible(Run(w, steps), s)
    decreases |steps|
  {
    if steps == [] {
      assert steps + [s] == [s];
      assert [s][1..] == [];
    } else {
      assert (steps + [s])[1..] == steps[1..] + [s];
      RunSnoc(Next(w, steps[0]), steps[1..], s);
    }
  }

  /** `steps` is a sensible run of the protocol from `w` to `v`. */
  ghost predicate Trace(w: World, steps: seq<Step>, v: World) { Always(w, steps, Sensible) && Run(w, steps) == v }

  /** A sensible run keeps the protocol's invariant. */
  lemma {:induction false} TraceKeepsInv(w: World, steps: seq<Step>, v: World)
    requires Inv(w) && Trace(w, steps, v)
    ensures Inv(v)
    decreases |steps|
  {
    if steps != [] {
      StepKeepsInv(w, steps[0]);
      TraceKeepsInv(Next(w, steps[0]), steps[1..], v);
    }
  }

  lemma NoStepYet(w: World)
    ensures Trace(w, [], w)
  {
  }

  /** One more step. */
  lemma Took(w: World, steps: seq<Step>, v: World, s: Step) returns (more: seq<Step>)
    requires Trace(w, steps, v) && Sensible(v, s)
    ensures Trace(w, more, Next(v, s))
  {
    RunSnoc(w, steps, s);
    more := steps + [s];
  }

  /** A lookup that finds the latest record, or none. */
  lemma TookLookup(w: World, txid: string, found: Option<string>) returns (steps: seq<Step>)
    requires w.pc.Idle? && txid in w.handedOut && (found.Some? ==> LatestFor(w.journal, txid, found.value))
    ensures Trace(w, steps, w.(pc := PsbtFound(txid, found)))
  {
    NoStepYet(w);
    steps := Took(w, [], w, PsbtLookup(txid, found));
  }

  ghost predicate AllDiffer(ids: seq<string>) { forall i, j :: 0 <= i < j < |ids| ==> ids[i] != ids[j] }

  lemma {:induction false} OrphansDiffer(es: seq<L.Entry>)
    requires LL.UniqueIds(es)
    ensures AllDiffer(L.ReservedIds(es))
    ensures forall id :: id in L.ReservedIds(es) ==> exists e :: e in es && e.id == id
  {
    if es != [] {
      OrphansDiffer(es[1..]);
      assert es == [es[0]] + es[1..];
      var rest := L.ReservedIds(es[1..]);
      forall id | id in rest ensures id != es[0].id {
        var e :| e in es[1..] && e.id == id;
        var k :| 0 <= k < |es[1..]| && es[1..][k] == e;
        assert es[0].id != es[k + 1].id;
      }
      assert L.ReservedIds(es) == (if es[0].state == L.Reserved then [es[0].id] else []) + rest;
      assert forall id :: id in L.ReservedIds(es) ==> id in rest || id == es[0].id;
      if es[0].state == L.Reserved {
        HeadDiffers(es[0].id, rest);
      } else {
        assert L.ReservedIds(es) == rest;
      }
      forall id | id in L.ReservedIds(es) ensures exists e :: e in es && e.id == id {
        if id == es[0].id {
          assert es[0] in es;
        } else {
          var e :| e in es[1..] && e.id == id;
          assert e in es;
        }
      }
    }
  }

  lemma HeadDiffers(id: string, rest: seq<string>)
    requires AllDiffer(rest) && id !in rest
    ensures AllDiffer([id] + rest)
  {
    var all := [id] + rest;
    forall i, j | 0 <= i < j < |all| ensures all[i] != all[j] {
      assert all[j] == rest[j - 1] && rest[j - 1] in rest;
      assert i > 0 ==> all[i] == rest[i - 1];
    }
  }

  /** The ids from position `i` on. */
  function Rest(ids: seq<string>, i: nat): set<string> { set k | i <= k < |ids| :: ids[k] }

  lemma RestNext(ids: seq<string>, i: nat)
    requires i < |ids| && AllDiffer(ids)
    ensures ids[i] in Rest(ids, i) && Rest(ids, i) - {ids[i]} == Rest(ids, i + 1)
  {
  }

  lemma OrphansOf(w: World)
    requires Inv(w)
    ensures var ids := L.ReservedIds(w.ledger.file);
            && AllDiffer(ids)
            && Next(w, Open) == w.(pc := Opening(Rest(ids, 0)))
  {
    TracksKeepsUnique(w.ledger.file, w.ledger.history, w.ledger.clock);
    OrphansDiffer(w.ledger.file);
    var ids := L.ReservedIds(w.ledger.file);
    assert (set id | id in ids) == Rest(ids, 0);
  }

  lemma NextFate(w: World, rows: seq<L.Entry>, ids: seq<string>, i: nat, t: int)
    requires Inv(w) && w.ledger.clock <= t && i < |ids| && AllDiffer(ids) && w.pc == Opening(Rest(ids, i))
    requires Q.MetFate(w.journal, rows, w.ledger.history, Rest(ids, i))
    ensures var w' := Reconciled(w.(pc := Opening(Rest(ids, i) - {ids[i]})), ids[i], false, t, true);
            w'.journal == w.journal && Q.MetFate(w.journal, rows, w'.ledger.history, Rest(ids, i + 1))
  {
    RestNext(ids, i);
    Q.OneMore(w, rows, ids[i], Rest(ids, i), t);
  }

  /** `h` and one reserved row more, for this spend. */
  ghost predicate HasReserved(h: seq<L.Entry>, more: seq<L.Entry>, id: string, sat: int) {
    |more| == |h| + 1 && more[..|h|] == h && exists t :: more[|h|] == L.NewRow(id, t, sat)
  }

  /** The policy allows the spend on top of what the window held at some instant from `lo` to `hi`. */
  ghost predicate AllowedWithin(policy: P.Policy, req: P.Check, rows: seq<L.Entry>, lo: int, hi: int) {
    exists t, now :: lo <= t <= now <= hi && P.Evaluate(policy, req, L.SumWindow(rows, t, ""), now) == P.Allowed
  }

  /** The caps let the whole charge pass on top of what the window held at some instant from `lo` to `hi`. */
  ghost predicate FitsWithin(policy: P.Policy, network: string, c: O.Charge, rows: seq<L.Entry>, lo: int, hi: int) {
    exists t :: lo <= t <= hi && V.FitsCaps(policy, network, c.amount + c.fee, c.feeRate, L.SumWindow(rows, t, ""))
  }

  /** The policy lets the PSBT pass, the window holding `spent`: every destination but the wallet's own is one
      the lists let pass, an empty one if there is none, and the charge fits the caps. */
  ghost predicate Permitted(policy: P.Policy, network: string, psbt: O.Psbt, ours: set<string>, address: string -> string,
                            c: O.Charge, spent: int) {
    && R.PaysOnlyPermitted(policy, network, psbt, ours, address, c.changeAddr)
    && (R.PaysNobodyElse(psbt, ours) ==> V.MayPay(policy, network, "", c.changeAddr))
    && V.FitsCaps(policy, network, c.amount + c.fee, c.feeRate, spent)
  }

  lemma AllowedFits(policy: P.Policy, network: string, c: O.Charge, address: string -> string, rows: seq<L.Entry>, lo: int, hi: int)
    requires c.amount + c.fee >= 0 && AllowedWithin(policy, R.Aggregate(c, network, address), rows, lo, hi)
    ensures FitsWithin(policy, network, c, rows, lo, hi)
  {
    var req := R.Aggregate(c, network, address);
    var t, now :| lo <= t <= now <= hi && P.Evaluate(policy, req, L.SumWindow(rows, t, ""), now) == P.Allowed;
    R.VerdictSplits(policy, req, L.SumWindow(rows, t, ""), now);
  }

  /** While no row ages out, the screen and the reservation allow exactly what the policy permits. */
  lemma PassesIfPermitted(policy: P.Policy, network: string, psbt: O.Psbt, ours: set<string>, address: string -> string,
                          c: O.Charge, rows: seq<L.Entry>, clock: nat -> int, now: int)
    requires c.external == O.External(psbt.outputs, ours) && c.amount + c.fee >= 0
    requires forall k :: L.SumWindow(rows, clock(k), "") == L.SumWindow(rows, now, "")
    ensures Passes(policy, network, address, c, rows, clock, now)
            <==> Permitted(policy, network, psbt, ours, address, c, L.SumWindow(rows, now, ""))
  {
    R.AllowedExactly(policy, c, network, address, rows, clock, L.SumWindow(rows, now, ""), now);
    R.PermittedIs(policy, network, psbt, ours, address, c);
  }

  /** The screen and an undisturbed reservation let the charge pass. */
  ghost predicate Passes(policy: P.Policy, network: string, address: string -> string, c: O.Charge,
                         rows: seq<L.Entry>, clock: nat -> int, now: int) {
    && R.Screened(policy, c, network, address, R.Scripts(c.external), rows, clock) == P.Allowed
    && P.Evaluate(policy, R.Aggregate(c, network, address), L.SumWindow(rows, now, ""), now) == P.Allowed
  }

  /** What a charge that passes the screen says of the PSBT. */
  lemma PacketMeaning(policy: P.Policy, psbt: O.Psbt, ours: set<string>, view: Option<map<string, int>>, address: string -> string,
                      feeRate: int, network: string, rows: seq<L.Entry>, clock: nat -> int, now: int)
    requires O.Charged(psbt, ours, view, address, feeRate).Some?
    ensures var c := O.Charged(psbt, ours, view, address, feeRate).value;
            && O.NamesChange(psbt.outputs, ours, address, c.changeAddr) && ClaimsOwn(psbt, ours)
            && (R.Screened(policy, c, network, address, R.Scripts(c.external), rows, clock) == P.Allowed ==>
                  R.PaysOnlyPermitted(policy, network, psbt, ours, address, c.changeAddr))
            && ((forall k :: L.SumWindow(rows, clock(k), "") == L.SumWindow(rows, now, "")) ==>
                  (Passes(policy, network, address, c, rows, clock, now)
                   <==> Permitted(policy, network, psbt, ours, address, c, L.SumWindow(rows, now, ""))))
  {
    hide O.Charged, R.Screened, Passes, Permitted, V.MayPay, P.Evaluate, O.NamesChange, R.PaysOnlyPermitted;
    var c := O.Charged(psbt, ours, view, address, feeRate).value;
    O.ChargeNamesOwn(psbt, ours, view, address, feeRate);
    O.ChargedIs(psbt, ours, view, address, feeRate);
    if R.Screened(policy, c, network, address, R.Scripts(c.external), rows, clock) == P.Allowed {
      forall out | out in c.external ensures V.MayPay(policy, network, address(out.script), c.changeAddr) {
        R.ScreenedPaysOnlyAllowed(policy, c, network, address, rows, clock, out);
      }
      R.PermittedIs(policy, network, psbt, ours, address, c);
    }
    if forall k :: L.SumWindow(rows, clock(k), "") == L.SumWindow(rows, now, "") {
      PassesIfPermitted(policy, network, psbt, ours, address, c, rows, clock, now);
    }
  }

  /** Some input claims a script of the wallet's. */
  predicate ClaimsOwn(psbt: O.Psbt, ours: set<string>) { exists i :: i in psbt.inputs && i.claim.Some? && i.claim.value.script in ours }

  // ── the running service ──────────────────────────────────────────────────────

  class Service {
    const counter: L.Counter
    var journal: map<string, Record> // the latest record per reservation
    var nextOrder: nat
    var time: int                    // the wall clock
    var luck: seq<Luck>              // what the coming operations will meet
    ghost var seen: int              // the latest reading the ledger made
    ghost var live: set<string>
    ghost var dead: set<string>
    ghost var handedOut: set<string>
    ghost var vouched: set<string>
    ghost var pc: Pc

    ghost function State(): World
      reads this, counter
    {
      World(LL.World(counter.entries, counter.history, seen), journal, nextOrder, live, dead, handedOut, vouched, pc)
    }

    /** The state was reached by the run, and the ledger has seen no later time. */
    ghost predicate Reached(start: World, steps: seq<Step>)
      reads this, counter
    {
      seen <= time && Trace(start, steps, State())
    }

    constructor (time: int)
      ensures State() == Start(time) && this.time == time && luck == [] && fresh(counter)
    {
      counter := new L.Counter();
      journal, nextOrder, this.time, luck, seen := map[], 0, time, [], time;
      live, dead, handedOut, vouched, pc := {}, {}, {}, {}, Down;
    }

    method Draw() returns (l: Luck)
      modifies this`luck, this`time
      ensures time == old(time) + l.tick
      ensures l == (if old(luck) == [] then GOOD_LUCK else old(luck)[0]) && luck == Later(old(luck), 1)
    {
      l := GOOD_LUCK;
      if luck != [] {
        l := luck[0];
        luck := luck[1..];
      }
      time := time + l.tick;
    }

    // ── single steps ───────────────────────────────────────────────────────────

    method Die(ghost start: World, ghost steps: seq<Step>) returns (ghost more: seq<Step>)
      requires Reached(start, steps)
      modifies this`pc
      ensures Reached(start, more) && pc == Down
    {
      more := Took(start, steps, State(), Crash);
      pc := Down;
    }

    /** Moves the row of a reservation, if there is one. */
    method MoveRow(res: Option<string>, to: L.State, txid: string, ok: bool, ghost next: Pc)
      requires seen <= time
      modifies this`seen, this`pc, counter
      ensures seen <= time && pc == next
      ensures State() == Settle(old(State()).(pc := next), res, to, txid, time, ok)
    {
      pc := next;
      if res.Some? {
        ghost var before := LL.World(counter.entries, counter.history, seen);
        counter.Transit(res.value, to, txid, time, ok);
        seen := LL.Apply(before, LL.TransitStep(res.value, to, txid, time, ok)).clock;
      }
    }

    /** Records a status, if there is a record to update. */
    method RecordStatus(res: Option<string>, status: Status, ok: bool, ghost next: Pc)
      modifies this`journal, this`nextOrder, this`pc
      ensures pc == next && State() == SetStatus(old(State()).(pc := next), res, status, ok)
    {
      pc := next;
      if res.Some? && res.value in journal && ok {
        journal, nextOrder := journal[res.value := journal[res.value].(status := status, order := nextOrder)], nextOrder + 1;
      }
    }

    /** The step that moves a row. */
    method StepRow(s: Step, res: Option<string>, to: L.State, txid: string, ok: bool, ghost next: Pc, ghost start: World, ghost steps: seq<Step>)
      returns (ghost more: seq<Step>)
      requires Reached(start, steps) && Sensible(State(), s)
      requires Next(State(), s) == Settle(State().(pc := next), res, to, txid, time, ok)
      modifies this`seen, this`pc, counter
      ensures Reached(start, more) && pc == next
      ensures State() == Settle(old(State()).(pc := next), res, to, txid, time, ok)
    {
      more := Took(start, steps, State(), s);
      MoveRow(res, to, txid, ok, next);
    }

    /** The step that records a status. */
    method StepStatus(s: Step, res: Option<string>, status: Status, ok: bool, ghost next: Pc, ghost start: World, ghost steps: seq<Step>)
      returns (ghost more: seq<Step>)
      requires Reached(start, steps) && Sensible(State(), s)
      requires Next(State(), s) == SetStatus(State().(pc := next), res, status, ok)
      modifies this`journal, this`nextOrder, this`pc
      ensures Reached(start, more) && pc == next
      ensures State() == SetStatus(old(State()).(pc := next), res, status, ok)
    {
      more := Took(start, steps, State(), s);
      RecordStatus(res, status, ok, next);
    }

    // ── reconciliation at open ─────────────────────────────────────────────────

    /** One orphan: freed when no record or a failed one names it, committed when a broadcast one
        does, left alone when it is merely signed or the journal cannot be read. */
    method Resolve(id: string, readOk: bool, writeOk: bool, ghost next: Pc)
      requires seen <= time
      modifies this`seen, this`pc, counter
      ensures seen <= time && pc == next
      ensures State() == Reconciled(old(State()).(pc := next), id, !readOk, time, writeOk)
    {
      if !readOk {
        pc := next;
      } else if id !in journal {
        MoveRow(Some(id), L.Released, "", writeOk, next);
      } else if journal[id].status == Broadcast || journal[id].status == Confirmed {
        MoveRow(Some(id), L.Committed, journal[id].txid, writeOk, next);
      } else if journal[id].status == Failed {
        MoveRow(Some(id), L.Released, "", writeOk, next);
      } else {
        pc := next;
      }
    }

    method ReconcileOne(id: string, ghost todo: set<string>, ghost start: World, ghost steps: seq<Step>) returns (alive: bool, ghost more: seq<Step>)
      requires Reached(start, steps) && pc == Opening(todo) && id in todo
      modifies this`seen, this`pc, this`luck, this`time, counter
      ensures Reached(start, more) && pc == if alive then Opening(todo - {id}) else Down
      ensures alive <==> !DiesAt(old(luck), 0)
      ensures old(luck) == [] ==>
                && luck == [] && time == old(time)
                && State() == Reconciled(old(State()).(pc := Opening(todo - {id})), id, false, time, true)
    {
      var read := Draw();
      if read.dies {
        more := Die(start, steps);
        return false, more;
      }
      var write := Draw();
      more := Took(start, steps, State(), Reconcile(id, !read.ok, time, write.ok));
      Resolve(id, read.ok, write.ok, Opening(todo - {id}));
      alive := true;
    }

    /** Resolves every orphaned reservation against the journal. Undisturbed, each reserved row meets
        its fate and nothing else changes. */
    method ReconcileOrphans() returns (ghost steps: seq<Step>)
      requires seen <= time && Inv(State()) && pc == Down
      modifies this`seen, this`pc, this`luck, this`time, counter
      ensures seen <= time && Inv(State()) && Trace(old(State()), steps, State())
      ensures pc == Idle || pc == Down
      ensures old(luck) == [] ==> pc == Idle && Q.MetFate(journal, old(counter.history), counter.history, {})
    {
      hide Inv, Trace, Q.MetFate;
      ghost var start := State();
      var orphans := counter.Orphans();
      OrphansOf(start);
      NoStepYet(start);
      steps := Took(start, [], start, Open);
      pc := Opening(Rest(orphans, 0));
      Q.NoneYet(start, Rest(orphans, 0));
      for i := 0 to |orphans|
        invariant Reached(start, steps) && pc == Opening(Rest(orphans, i))
        invariant old(luck) == [] ==> luck == [] && Q.MetFate(journal, old(counter.history), counter.history, Rest(orphans, i))
      {
        RestNext(orphans, i);
        TraceKeepsInv(start, steps, State());
        ghost var was := State();
        var alive;
        alive, steps := ReconcileOne(orphans[i], Rest(orphans, i), start, steps);
        if !alive {
          TraceKeepsInv(start, steps, State());
          return;
        }
        if old(luck) == [] {
          NextFate(was, old(counter.history), orphans, i, time);
        }
      }
      assert Rest(orphans, |orphans|) == {};
      steps := Took(start, steps, State(), OpenDone);
      pc := Idle;
      TraceKeepsInv(start, steps, State());
    }

    // ── signing ────────────────────────────────────────────────────────────────

    /** Reserves the spend; only a granted reservation leads on to signing. */
    method TakeReservation(policy: P.Policy, req: P.Check, id: string, txid: string, ghost start: World)
      returns (granted: bool, ghost steps: seq<Step>)
      requires seen <= time && State() == start && pc == Idle && LL.FreshId(counter.history, id) && id !in journal
      modifies this`seen, this`pc, this`luck, this`time, counter
      ensures Reached(start, steps)
      ensures pc == if granted then SignReserved(id, txid, false) else Idle
      ensures granted ==>
                && AllowedWithin(policy, req, old(counter.entries), old(seen), seen)
                && HasReserved(old(counter.history), counter.history, id, P.WindowCharge(req))
      ensures !granted ==> counter.entries == old(counter.entries) && counter.history == old(counter.history)
      ensures luck == Later(old(luck), 3) && (granted && 2 < |old(luck)| ==> old(luck)[2].ok)
      ensures old(luck) == [] ==>
                && time == old(time)
                && (granted <==> P.Evaluate(policy, req, L.SumWindow(old(counter.entries), time, ""), time) == P.Allowed)
    {
      hide Trace, LL.Apply, HasReserved, AllowedWithin, P.Evaluate;
      NoStepYet(start);
      var l1 := Draw();
      var t1 := time;
      var l2 := Draw();
      var t2 := time;
      var l3 := Draw();
      LaterAdds(old(luck), 1, 1);
      LaterAdds(old(luck), 2, 1);
      steps := Took(start, [], start, Sign(LL.ReserveStep(policy, req, id, t1, t2, time, l3.ok), txid, false));
      granted := ReserveRow(policy, req, id, t1, t2, l3.ok, SignReserved(id, txid, false));
    }

    /** The ledger's reservation, with its last reading now. */
    method ReserveRow(policy: P.Policy, req: P.Check, id: string, t1: int, t2: int, ok: bool, ghost signing: Pc) returns (granted: bool)
      requires seen <= t1 <= t2 <= time
      modifies this`seen, this`pc, counter
      ensures var was := LL.World(old(counter.entries), old(counter.history), old(seen));
              var now := LL.Apply(was, LL.ReserveStep(policy, req, id, t1, t2, time, ok));
              && LL.World(counter.entries, counter.history, seen) == now && seen <= time
              && granted == (now.history != was.history)
              && pc == if granted then signing else old(pc)
      ensures granted <==> ok && P.Evaluate(policy, req, L.SumWindow(old(counter.entries), t1, ""), t2) == P.Allowed
      ensures !granted ==> counter.entries == old(counter.entries) && counter.history == old(counter.history)
      ensures granted ==>
                && AllowedWithin(policy, req, old(counter.entries), old(seen), seen)
                && HasReserved(old(counter.history), counter.history, id, P.WindowCharge(req))
    {
      ghost var was := LL.World(counter.entries, counter.history, seen);
      var r := counter.Reserve(policy, req, id, t1, t2, time, ok);
      seen := LL.Apply(was, LL.ReserveStep(policy, req, id, t1, t2, time, ok)).clock;
      granted := r == L.Granted;
      assert granted ==> |counter.history| == |was.history| + 1;
      pc := if granted then signing else pc;
    }

    /** Gives up a reservation whose signing or journaling failed. */
    method GiveUp(res: string, ghost start: World, ghost steps: seq<Step>) returns (ghost more: seq<Step>)
      requires Reached(start, steps) && pc == SignFailed(res)
      modifies this`seen, this`pc, this`luck, this`time, counter
      ensures Reached(start, more) && pc == if DiesAt(old(luck), 0) then Down else Idle
    {
      var l := Draw();
      if l.dies {
        more := Die(start, steps);
        return;
      }
      more := StepRow(Abort(time, l.ok), Some(res), L.Released, "", l.ok, Idle, start, steps);
    }

    /** Appends the signed record; the PSBT is handed out only if that succeeds. */
    method AppendSigned(res: string, txid: string, ok: bool, late: bool)
      requires pc == SignReserved(res, txid, false)
      modifies this`journal, this`nextOrder, this`vouched, this`handedOut, this`pc
      ensures State() == Next(old(State()), Journal(if ok then Written else if late then WrittenButFailed else NotWritten))
      ensures if ok then pc == Idle && handedOut == old(handedOut) + {txid} else pc == SignFailed(res) && handedOut == old(handedOut)
      ensures ok ==> journal == old(journal)[res := Settlement.Record(txid, Signed, false, old(nextOrder))]
    {
      if ok || late {
        journal, nextOrder := journal[res := Settlement.Record(txid, Signed, false, nextOrder)], nextOrder + 1;
      }
      if ok {
        vouched, handedOut, pc := vouched + {res}, handedOut + {txid}, Idle;
      } else {
        pc := SignFailed(res);
      }
    }

    method JournalSigned(res: string, txid: string, ghost start: World, ghost steps: seq<Step>) returns (ok: bool, ghost more: seq<Step>)
      requires Reached(start, steps) && pc == SignReserved(res, txid, false)
      modifies this, counter
      ensures Reached(start, more) && (pc == Idle || pc == Down)
      ensures handedOut == if ok then old(handedOut) + {txid} else old(handedOut)
      ensures ok ==>
                && counter.history == old(counter.history) && seen == old(seen)
                && journal == old(journal)[res := Settlement.Record(txid, Signed, false, old(nextOrder))]
      ensures ok <==> Works(old(luck), 0)
      ensures DiesAt(old(luck), 0) ==> pc == Down
    {
      var l := Draw();
      if l.dies {
        more := Die(start, steps);
        return false, more;
      }
      more := Took(start, steps, State(), Journal(if l.ok then Written else if l.late then WrittenButFailed else NotWritten));
      AppendSigned(res, txid, l.ok, l.late);
      ok := l.ok;
      if !ok {
        more := GiveUp(res, start, more);
      }
    }

    /** Reserves, signs, journals: no signature exists before the reservation is on disk, and the PSBT
        is handed out only once its record is. Undisturbed, it is handed out exactly when the policy allows
        the spend, and else nothing changes. */
    method PSBTSign(policy: P.Policy, req: P.Check, id: string, txid: string) returns (ok: bool, ghost steps: seq<Step>)
      requires seen <= time && Inv(State()) && pc == Idle && LL.FreshId(counter.history, id) && id !in journal
      modifies this, counter
      ensures seen <= time && Inv(State()) && Trace(old(State()), steps, State())
      ensures pc == Idle || pc == Down
      ensures handedOut == if ok then old(handedOut) + {txid} else old(handedOut)
      ensures ok ==>
                && AllowedWithin(policy, req, old(counter.entries), old(seen), seen)
                && HasReserved(old(counter.history), counter.history, id, P.WindowCharge(req))
                && journal == old(journal)[id := Settlement.Record(txid, Signed, false, old(nextOrder))]
                && Works(old(luck), 3) && Works(old(luck), 4)
      ensures old(luck) == [] ==>
                && (ok <==> P.Evaluate(policy, req, L.SumWindow(old(counter.entries), old(time), ""), old(time)) == P.Allowed)
                && (!ok ==> journal == old(journal) && counter.entries == old(counter.entries) && counter.history == old(counter.history))
    {
      ghost var start := State();
      ok, steps := ReserveSignJournal(policy, req, id, txid, start);
      TraceKeepsInv(start, steps, State());
    }

    method ReserveSignJournal(policy: P.Policy, req: P.Check, id: string, txid: string, ghost start: World) returns (ok: bool, ghost steps: seq<Step>)
      requires seen <= time && State() == start && pc == Idle && LL.FreshId(counter.history, id) && id !in journal
      modifies this, counter
      ensures Reached(start, steps) && (pc == Idle || pc == Down)
      ensures handedOut == if ok then old(handedOut) + {txid} else old(handedOut)
      ensures ok ==>
                && AllowedWithin(policy, req, old(counter.entries), old(seen), seen)
                && HasReserved(old(counter.history), counter.history, id, P.WindowCharge(req))
                && journal == old(journal)[id := Settlement.Record(txid, Signed, false, old(nextOrder))]
                && Works(old(luck), 3) && Works(old(luck), 4)
      ensures old(luck) == [] ==>
                && (ok <==> P.Evaluate(policy, req, L.SumWindow(old(counter.entries), old(time), ""), old(time)) == P.Allowed)
                && (!ok ==> journal == old(journal) && counter.entries == old(counter.entries) && counter.history == old(counter.history))
    {
      hide Trace, HasReserved, AllowedWithin, P.Evaluate;
      var granted;
      granted, steps := TakeReservation(policy, req, id, txid, start);
      if !granted {
        return false, steps;
      }
      var signing := Draw();
      if signing.dies {
        steps := Die(start, steps);
        return false, steps;
      }
      if !signing.ok {
        steps := Took(start, steps, State(), SignError);
        pc := SignFailed(id);
        steps := GiveUp(id, start, steps);
        return false, steps;
      }
      LaterAdds(old(luck), 3, 1);
      ok, steps := JournalSigned(id, txid, start, steps);
    }

    /** Derives the charge and screens every recipient. */
    method DeriveAndScreen(policy: P.Policy, psbt: O.Psbt, ours: set<string>, view: Option<map<string, int>>,
                           address: string -> string, leafFee: Option<int>, network: string, clock: nat -> int)
      returns (c: Option<O.Charge>)
      ensures var r := O.Charged(psbt, ours, view, address, O.RateOf(psbt, ours, view, leafFee));
              && (c.Some? ==> c == r && c.value.amount + c.value.fee >= 0 && c.value.external == O.External(psbt.outputs, ours))
              && (c.Some? <==>
                    && r.Some?
                    && R.Screened(policy, r.value, network, address, R.Scripts(r.value.external), counter.entries, clock) == P.Allowed)
    {
      hide R.Screened, O.RateOf;
      c := O.DeriveCharge(psbt, ours, view, address, leafFee);
      if c.None? {
        return;
      }
      O.ChargedIs(psbt, ours, view, address, O.RateOf(psbt, ours, view, leafFee));
      var d := R.Screen(policy, c.value, network, address, counter, clock);
      if d != P.Allowed {
        return None;
      }
    }

    /** Derives the charge, screens every recipient, then reserves, signs and journals. A PSBT handed
        out has its row: it is charged the wallet's net outflow, which fitted the caps on top of what
        the window held then, and every output that is not the wallet's pays whom the lists let pass, given
        the first address of the wallet's own among the outputs. Undisturbed, and while no row ages out, it is
        handed out exactly when the wallet owns an input and the policy permits all that. */
    method SignPacket(policy: P.Policy, psbt: O.Psbt, ours: set<string>, view: Option<map<string, int>>,
                      address: string -> string, leafFee: Option<int>, network: string, clock: nat -> int,
                      id: string, txid: string) returns (ok: bool, ghost steps: seq<Step>)
      requires seen <= time && Inv(State()) && pc == Idle && LL.FreshId(counter.history, id) && id !in journal
      modifies this, counter
      ensures seen <= time && Inv(State()) && Trace(old(State()), steps, State())
      ensures handedOut == if ok then old(handedOut) + {txid} else old(handedOut)
      ensures var r := O.Charged(psbt, ours, view, address, O.RateOf(psbt, ours, view, leafFee));
              && (ok ==>
                    && r.Some? && O.NamesChange(psbt.outputs, ours, address, r.value.changeAddr)
                    && HasReserved(old(counter.history), counter.history, id, r.value.amount + r.value.fee)
                    && FitsWithin(policy, network, r.value, old(counter.entries), old(seen), seen)
                    && R.PaysOnlyPermitted(policy, network, psbt, ours, address, r.value.changeAddr)
                    && journal == old(journal)[id := Settlement.Record(txid, Signed, false, old(nextOrder))])
              && (old(luck) == [] && (forall k :: L.SumWindow(old(counter.entries), clock(k), "") == L.SumWindow(old(counter.entries), old(time), "")) ==>
                    (ok <==> ClaimsOwn(psbt, ours) && r.Some?
                             && Permitted(policy, network, psbt, ours, address, r.value, L.SumWindow(old(counter.entries), old(time), ""))))
    {
      hide Inv, Trace, HasReserved, FitsWithin, O.Charged, R.PaysOnlyPermitted, Permitted, Passes, R.Screened, O.NamesChange, ClaimsOwn, LL.FreshId;
      ghost var now, rows := time, counter.entries;
      ok, steps := SignScreened(policy, psbt, ours, view, address, leafFee, network, clock, id, txid);
      if O.Charged(psbt, ours, view, address, O.RateOf(psbt, ours, view, leafFee)).Some? {
        PacketMeaning(policy, psbt, ours, view, address, O.RateOf(psbt, ours, view, leafFee), network, rows, clock, now);
      }
    }

    /** Derives, screens and signs. */
    method SignScreened(policy: P.Policy, psbt: O.Psbt, ours: set<string>, view: Option<map<string, int>>,
                        address: string -> string, leafFee: Option<int>, network: string, clock: nat -> int,
                        id: string, txid: string) returns (ok: bool, ghost steps: seq<Step>)
      requires seen <= time && Inv(State()) && pc == Idle && LL.FreshId(counter.history, id) && id !in journal
      modifies this, counter
      ensures seen <= time && Inv(State()) && Trace(old(State()), steps, State())
      ensures handedOut == if ok then old(handedOut) + {txid} else old(handedOut)
      ensures var r := O.Charged(psbt, ours, view, address, O.RateOf(psbt, ours, view, leafFee));
              && (ok ==>
                    && r.Some?
                    && R.Screened(policy, r.value, network, address, R.Scripts(r.value.external), old(counter.entries), clock) == P.Allowed
                    && HasReserved(old(counter.history), counter.history, id, r.value.amount + r.value.fee)
                    && FitsWithin(policy, network, r.value, old(counter.entries), old(seen), seen)
                    && journal == old(journal)[id := Settlement.Record(txid, Signed, false, old(nextOrder))])
              && (old(luck) == [] ==>
                    (ok <==> r.Some? && Passes(policy, network, address, r.value, old(counter.entries), clock, old(time))))
    {
      hide Inv, HasReserved, FitsWithin, O.Charged, R.Screened, P.Evaluate, LL.FreshId;
      steps := [];
      var c := DeriveAndScreen(policy, psbt, ours, view, address, leafFee, network, clock);
      if c.None? {
        return false, steps;
      }
      ok, steps := SignCharged(policy, c.value, network, address, id, txid);
    }

    /** Signs what was derived and screened. */
    method SignCharged(policy: P.Policy, c: O.Charge, network: string, address: string -> string, id: string, txid: string)
      returns (ok: bool, ghost steps: seq<Step>)
      requires seen <= time && Inv(State()) && pc == Idle && LL.FreshId(counter.history, id) && id !in journal
      requires c.amount + c.fee >= 0
      modifies this, counter
      ensures seen <= time && Inv(State()) && Trace(old(State()), steps, State())
      ensures handedOut == if ok then old(handedOut) + {txid} else old(handedOut)
      ensures ok ==>
                && HasReserved(old(counter.history), counter.history, id, c.amount + c.fee)
                && FitsWithin(policy, network, c, old(counter.entries), old(seen), seen)
                && journal == old(journal)[id := Settlement.Record(txid, Signed, false, old(nextOrder))]
      ensures old(luck) == [] ==>
                (ok <==> P.Evaluate(policy, R.Aggregate(c, network, address), L.SumWindow(old(counter.entries), old(time), ""), old(time)) == P.Allowed)
    {
      hide Inv, P.Evaluate;
      ok, steps := PSBTSign(policy, R.Aggregate(c, network, address), id, txid);
      if ok {
        AllowedFits(policy, network, c, address, old(counter.entries), old(seen), seen);
      }
    }

    // ── broadcasting ───────────────────────────────────────────────────────────

    /** The latest record carrying a transaction id, if any. */
    method FindLatest(txid: string) returns (found: Option<string>)
      ensures found.Some? ==> LatestFor(journal, txid, found.value)
      ensures found.None? ==> forall r :: r in journal ==> journal[r].txid != txid
    {
      found := None;
      var rest := journal.Keys;
      while rest != {}
        invariant rest <= journal.Keys
        invariant found.None? ==> forall r :: r in journal && r !in rest ==> journal[r].txid != txid
        invariant found.Some? ==>
                    && found.value in journal && journal[found.value].txid == txid
                    && forall r :: r in journal && r !in rest && journal[r].txid == txid ==> journal[r].order <= journal[found.value].order
      {
        var r :| r in rest;
        if journal[r].txid == txid && (found.None? || journal[r].order > journal[found.value].order) {
          found := Some(r);
        }
        rest := rest - {r};
      }
    }

    /** After an acceptance: the status is recorded first, then the row committed. */
    method SettleAccepted(rec: Option<string>, txid: string, ghost start: World, ghost steps: seq<Step>) returns (ghost more: seq<Step>)
      requires Reached(start, steps) && pc == Accepted(rec, txid, false)
      modifies this`journal, this`nextOrder, this`seen, this`pc, this`luck, this`time, counter
      ensures Reached(start, more) && pc == if DiesAt(old(luck), 0) || DiesAt(old(luck), 1) then Down else Idle
      ensures old(luck) == [] ==>
                time == old(time) && State() == Q.Settled(old(State()), rec, txid, Accept, time).(pc := Idle)
    {
      var mark := Draw();
      if mark.dies {
        more := Die(start, steps);
        return;
      }
      more := StepStatus(MarkBroadcast(mark.ok), rec, Broadcast, mark.ok, Finishing(rec, txid, false), start, steps);
      more := CommitAccepted(rec, txid, start, more);
    }

    method CommitAccepted(rec: Option<string>, txid: string, ghost start: World, ghost steps: seq<Step>) returns (ghost more: seq<Step>)
      requires Reached(start, steps) && pc == Finishing(rec, txid, false)
      modifies this`seen, this`pc, this`luck, this`time, counter
      ensures Reached(start, more) && pc == if DiesAt(old(luck), 0) then Down else Idle
      ensures old(luck) == [] ==>
                time == old(time) && State() == Settle(old(State()).(pc := Idle), rec, L.Committed, txid, time, true)
    {
      var commit := Draw();
      if commit.dies {
        more := Die(start, steps);
        return;
      }
      more := StepRow(CommitRow(time, commit.ok), rec, L.Committed, txid, commit.ok, Idle, start, steps);
    }

    /** After a rejection: the record is failed first, then the row freed. */
    method SettleRejected(rec: Option<string>, ghost txid: string, ghost start: World, ghost steps: seq<Step>) returns (ghost more: seq<Step>)
      requires Reached(start, steps) && pc == Rejected(rec)
      modifies this`journal, this`nextOrder, this`seen, this`pc, this`luck, this`time, counter
      ensures Reached(start, more) && pc == if DiesAt(old(luck), 0) || DiesAt(old(luck), 1) then Down else Idle
      ensures old(luck) == [] ==>
                time == old(time) && State() == Q.Settled(old(State()), rec, txid, Reject, time).(pc := Idle)
    {
      var mark := Draw();
      if mark.dies {
        more := Die(start, steps);
        return;
      }
      more := StepStatus(MarkFailed(mark.ok), rec, Failed, mark.ok, Refunding(rec), start, steps);
      more := RefundRejected(rec, start, more);
    }

    method RefundRejected(rec: Option<string>, ghost start: World, ghost steps: seq<Step>) returns (ghost more: seq<Step>)
      requires Reached(start, steps) && pc == Refunding(rec)
      modifies this`seen, this`pc, this`luck, this`time, counter
      ensures Reached(start, more) && pc == if DiesAt(old(luck), 0) then Down else Idle
      ensures old(luck) == [] ==>
                time == old(time) && State() == Settle(old(State()).(pc := Idle), rec, L.Released, "", time, true)
    {
      var refund := Draw();
      if refund.dies {
        more := Die(start, steps);
        return;
      }
      more := StepRow(Refund(time, refund.ok), rec, L.Released, "", refund.ok, Idle, start, steps);
    }

    /** What the backends make of the submission. */
    method SubmitAndSettle(txid: string, rec: Option<string>, answer: Answer, ghost start: World, ghost steps: seq<Step>) returns (ghost more: seq<Step>)
      requires Reached(start, steps) && pc == PsbtFound(txid, rec) && FinalAnswers(State(), Submit(answer))
      modifies this, counter
      ensures Reached(start, more) && (pc == Idle || pc == Down)
      ensures live == if answer == Accept || answer == Exhausted(true) then old(live) + {txid} else old(live)
      ensures dead == if answer == Reject then old(dead) + {txid} else old(dead)
      ensures old(luck) == [] ==>
                && time == old(time)
                && State() == Q.Settled(old(State()), rec, txid, answer, time).(live := live, dead := dead, pc := Idle)
    {
      hide Trace, Q.Settled;
      ghost var was := State();
      more := Took(start, steps, State(), Submit(answer));
      match answer {
        case Exhausted(reached) =>
          if reached {
            live := live + {txid};
          }
          pc := Idle;
          Q.SettledElsewhere(was, State(), rec, txid, answer, time);
          Q.NothingSettled(State(), rec, txid, answer, time);
        case Accept =>
          live, pc := live + {txid}, Accepted(rec, txid, false);
          Q.SettledElsewhere(was, State(), rec, txid, answer, time);
          more := SettleAccepted(rec, txid, start, more);
        case Reject =>
          dead, pc := dead + {txid}, Rejected(rec);
          Q.SettledElsewhere(was, State(), rec, txid, answer, time);
          more := SettleRejected(rec, txid, start, more);
      }
    }

    /** Submits a signed PSBT somebody holds and settles its reservation by the answer. A rejection is
        taken as final. Undisturbed, the latest record of the transaction and its row are settled: broadcast
        and committed when accepted, failed and released when rejected, as they were with no answer. */
    method PSBTBroadcast(txid: string, answer: Answer) returns (sent: bool, ghost steps: seq<Step>)
      requires seen <= time && Inv(State()) && pc == Idle && txid in handedOut
      requires answer.Reject? ==> txid !in live
      requires answer == Accept || answer == Exhausted(true) ==> txid !in dead
      modifies this, counter
      ensures seen <= time && Inv(State()) && Trace(old(State()), steps, State())
      ensures pc == Idle || pc == Down
      ensures live == if sent && (answer == Accept || answer == Exhausted(true)) then old(live) + {txid} else old(live)
      ensures dead == if sent && answer == Reject then old(dead) + {txid} else old(dead)
      ensures sent <==> !DiesAt(old(luck), 1)
      ensures old(luck) == [] ==>
                && pc == Idle
                && exists rec :: Q.Found(old(journal), txid, rec)
                              && Q.BroadcastDone(old(journal), old(counter.history), journal, counter.history, rec, answer)
    {
      ghost var start, rec := State(), None;
      sent, rec, steps := LookUpAndSubmit(txid, answer, start);
      TraceKeepsInv(start, steps, State());
      if old(luck) == [] {
        Q.SettledIs(start, rec, txid, answer, time);
      }
    }

    method LookUpAndSubmit(txid: string, answer: Answer, ghost start: World)
      returns (sent: bool, ghost found: Option<string>, ghost steps: seq<Step>)
      requires seen <= time && State() == start && pc == Idle && txid in handedOut
      requires answer.Reject? ==> txid !in live
      requires answer == Accept || answer == Exhausted(true) ==> txid !in dead
      modifies this, counter
      ensures Reached(start, steps) && (pc == Idle || pc == Down)
      ensures live == if sent && (answer == Accept || answer == Exhausted(true)) then old(live) + {txid} else old(live)
      ensures dead == if sent && answer == Reject then old(dead) + {txid} else old(dead)
      ensures sent <==> !DiesAt(old(luck), 1)
      ensures old(luck) == [] ==>
                && time == old(time) && Q.Found(old(journal), txid, found)
                && State() == Q.Settled(start, found, txid, answer, time).(live := live, dead := dead, pc := Idle)
    {
      hide Trace, Q.Settled, Next, Possible;
      var read := Draw();
      var rec: Option<string> := None;
      if read.ok {
        rec := FindLatest(txid);
      }
      found := rec;
      steps := TookLookup(start, txid, rec);
      pc := PsbtFound(txid, rec);
      Q.SettledElsewhere(start, State(), rec, txid, answer, time);
      var sending := Draw();
      if sending.dies {
        steps := Die(start, steps);
        return false, found, steps;
      }
      sent := true;
      steps := SubmitAndSettle(txid, rec, answer, start, steps);
    }
  }
}
