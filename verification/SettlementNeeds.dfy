/** The hypotheses of the settlement theorems are needed: runs of the protocol that break a
    conclusion when one of them is dropped. */
module SettlementNeeds {
  import opened Base
  import opened Settlement
  import L = Ledger
  import LL = LedgerLaws
  import P = Policies

  // ── steps and runs ───────────────────────────────────────────────────────────

  lemma Unroll(w: World, s: Step, rest: seq<Step>)
    ensures Run(w, [s] + rest) == Run(Next(w, s), rest)
    ensures Always(w, [s] + rest, Possible) <==> Possible(w, s) && Always(Next(w, s), rest, Possible)
    ensures Always(w, [s] + rest, FinalAnswers) <==> FinalAnswers(w, s) && Always(Next(w, s), rest, FinalAnswers)
    ensures Always(w, [s] + rest, CleanSends) <==> CleanSends(w, s) && Always(Next(w, s), rest, CleanSends)
  {
    assert ([s] + rest)[1..] == rest;
  }

  lemma NoMore(w: World)
    ensures Run(w, []) == w
    ensures Always(w, [], Possible) && Always(w, [], FinalAnswers) && Always(w, [], CleanSends)
  {
  }

  lemma UnrollRepeats(w: World, s: Step, rest: seq<Step>)
    ensures Always(w, [s] + rest, CleanRepeats) <==> CleanRepeats(w, s) && Always(Next(w, s), rest, CleanRepeats)
  {
    assert ([s] + rest)[1..] == rest;
  }

  /** How a counterexample to counting ends: the transaction is live, its only reservation released. */
  ghost predicate Lost(w: World) {
    && "t" in w.live && RowState(w.ledger.history, "a") == Some(L.Released)
    && (forall r :: r in w.journal ==> r == "a")
  }

  function AfterReserve(row: L.Entry, raw: bool): World {
    World(LL.World([row], [row], 0), map[], 0, {}, {}, {}, {}, SignReserved("a", "t", raw))
  }

  /** The append failed after writing its line, and the row was released. */
  function AfterRelease(row: L.Entry): World {
    var freed := row.(state := L.Released);
    World(LL.World([freed], [freed], 0), map["a" := Record("t", Signed, true, 0)], 1, {}, {}, {}, {}, Idle)
  }

  lemma AcceptAfterRelease(row: L.Entry) returns (steps: seq<Step>)
    requires row.id == "a"
    ensures var w := AfterRelease(row);
            && Always(w, steps, Possible) && Always(w, steps, FinalAnswers) && Always(w, steps, CleanSends)
            && Lost(Run(w, steps))
  {
    hide Run, Always;
    var w2 := AfterRelease(row);
    var w3 := w2.(pc := Rebroadcasting("a"));
    assert Next(w2, Resubmit("a")) == w3;
    var w4 := w3.(live := {"t"}, pc := RebroadcastAnswered("a", Broadcast));
    assert Next(w3, Submit(Accept)) == w4;
    assert Lost(w4);
    var r3 := [Submit(Accept)] + [];
    NoMore(w4);
    Unroll(w3, Submit(Accept), []);
    Unroll(w2, Resubmit("a"), r3);
    steps := [Resubmit("a")] + r3;
  }

  lemma DirtyAppendTail(row: L.Entry) returns (steps: seq<Step>)
    requires row.id == "a" && row.state == L.Reserved && row.ts == L.At(0)
    ensures var w := AfterReserve(row, true);
            && Always(w, steps, Possible) && Always(w, steps, FinalAnswers) && !Always(w, steps, CleanSends)
            && Lost(Run(w, steps))
  {
    hide Run, Always;
    var rest := AcceptAfterRelease(row);
    ReleaseFirst(row, 0);
    var w0 := AfterReserve(row, true);
    var w1 := Next(w0, Journal(WrittenButFailed));
    assert Next(w1, Abort(0, true)) == AfterRelease(row);
    Unroll(w1, Abort(0, true), rest);
    Unroll(w0, Journal(WrittenButFailed), [Abort(0, true)] + rest);
    steps := [Journal(WrittenButFailed)] + ([Abort(0, true)] + rest);
  }

  /** The PSBT was signed, handed out, accepted, and the process died before recording it. */
  function AfterCrash(row: L.Entry): World {
    World(LL.World([row], [row], 0), map["a" := Record("t", Signed, false, 0)], 1, {"t"}, {}, {"t"}, {"a"}, Down)
  }

  lemma FickleAnswerTail(row: L.Entry) returns (steps: seq<Step>)
    requires row.id == "a" && row.state == L.Reserved && row.ts == L.At(0)
    ensures var w := AfterCrash(row);
            && Always(w, steps, Possible) && Always(w, steps, CleanSends) && !Always(w, steps, FinalAnswers)
            && Lost(Run(w, steps))
  {
    hide Run, Always;
    var look := PsbtLookup("t", Some("a"));
    var w0 := AfterCrash(row);
    var w1 := Next(w0, Open);
    var w2 := w0.(pc := Idle);
    assert Next(w1, OpenDone) == w2;
    var w3 := w0.(pc := PsbtFound("t", Some("a")));
    var rest := RejectAfterAll(row);
    Unroll(w2, look, rest);
    Unroll(w1, OpenDone, [look] + rest);
    Unroll(w0, Open, [OpenDone] + ([look] + rest));
    steps := [Open] + ([OpenDone] + ([look] + rest));
  }

  /** The PSBT whose acceptance was not recorded is looked up again, rejected, failed and refunded. */
  function LookedUp(row: L.Entry): World { AfterCrash(row).(pc := PsbtFound("t", Some("a"))) }

  function Refused(row: L.Entry): World { LookedUp(row).(dead := {"t"}, pc := Rejected(Some("a"))) }

  function MarkedFailed(row: L.Entry): World {
    Refused(row).(journal := map["a" := Record("t", Failed, false, 1)], nextOrder := 2, pc := Refunding(Some("a")))
  }

  function Refunded(row: L.Entry): World {
    var freed := row.(state := L.Released);
    MarkedFailed(row).(ledger := LL.World([freed], [freed], 0), pc := Idle)
  }

  lemma RefuseStep(row: L.Entry)
    ensures var w, s := LookedUp(row), Submit(Reject);
            Next(w, s) == Refused(row) && Possible(w, s) && CleanSends(w, s) && !FinalAnswers(w, s)
  {
    assert {} + {"t"} == {"t"};
  }

  lemma MarkFailedStep(row: L.Entry)
    ensures var w, s := Refused(row), MarkFailed(true);
            Next(w, s) == MarkedFailed(row) && Possible(w, s) && CleanSends(w, s)
  {
    assert map["a" := Record("t", Signed, false, 0)]["a" := Record("t", Failed, false, 1)] == map["a" := Record("t", Failed, false, 1)];
  }

  lemma RefundStep(row: L.Entry)
    requires row.id == "a" && row.state == L.Reserved && row.ts == L.At(0)
    ensures var w, s := MarkedFailed(row), Refund(0, true);
            Next(w, s) == Refunded(row) && Possible(w, s) && CleanSends(w, s)
  {
    ReleaseFirst(row, 0);
  }

  lemma RejectAfterAll(row: L.Entry) returns (steps: seq<Step>)
    requires row.id == "a" && row.state == L.Reserved && row.ts == L.At(0)
    ensures var w := AfterCrash(row).(pc := PsbtFound("t", Some("a")));
            && Always(w, steps, Possible) && Always(w, steps, CleanSends) && !Always(w, steps, FinalAnswers)
            && Lost(Run(w, steps))
  {
    hide Run, Always, Next, Possible, CleanSends, FinalAnswers;
    var r5 := [Refund(0, true)] + [];
    var r4 := [MarkFailed(true)] + r5;
    RefuseStep(row);
    MarkFailedStep(row);
    RefundStep(row);
    NoMore(Refunded(row));
    Unroll(MarkedFailed(row), Refund(0, true), []);
    Unroll(Refused(row), MarkFailed(true), r5);
    Unroll(LookedUp(row), Submit(Reject), r4);
    assert Lost(Refunded(row));
    steps := [Submit(Reject)] + r4;
  }

  lemma AcceptThenCrash(row: L.Entry, rest: seq<Step>) returns (steps: seq<Step>)
    requires row.id == "a" && row.state == L.Reserved
    requires var v := AfterCrash(row);
             Always(v, rest, Possible) && Always(v, rest, CleanSends) && !Always(v, rest, FinalAnswers) && Lost(Run(v, rest))
    ensures var w := Next(Next(AfterReserve(row, false), Journal(Written)), PsbtLookup("t", Some("a")));
            && Always(w, steps, Possible) && Always(w, steps, CleanSends) && !Always(w, steps, FinalAnswers)
            && Lost(Run(w, steps))
  {
    hide Run, Always;
    var w2 := Next(Next(AfterReserve(row, false), Journal(Written)), PsbtLookup("t", Some("a")));
    var w3 := Next(w2, Submit(Accept));
    assert Next(w3, Crash) == AfterCrash(row);
    Unroll(w3, Crash, rest);
    Unroll(w2, Submit(Accept), [Crash] + rest);
    steps := [Submit(Accept)] + ([Crash] + rest);
  }

  lemma FickleAnswerHead(row: L.Entry, rest: seq<Step>) returns (steps: seq<Step>)
    requires row.id == "a" && row.state == L.Reserved
    requires var v := AfterCrash(row);
             Always(v, rest, Possible) && Always(v, rest, CleanSends) && !Always(v, rest, FinalAnswers) && Lost(Run(v, rest))
    ensures var w := AfterReserve(row, false);
            && Always(w, steps, Possible) && Always(w, steps, CleanSends) && !Always(w, steps, FinalAnswers)
            && Lost(Run(w, steps))
  {
    hide Run, Always;
    var look := PsbtLookup("t", Some("a"));
    var after := AcceptThenCrash(row, rest);
    var w0 := AfterReserve(row, false);
    Unroll(Next(w0, Journal(Written)), look, after);
    Unroll(w0, Journal(Written), [look] + after);
    steps := [Journal(Written)] + ([look] + after);
  }

  /** From a fresh start to the reservation. */
  lemma OpenAndReserve(policy: P.Policy, req: P.Check, raw: bool, rest: seq<Step>) returns (steps: seq<Step>)
    requires P.Evaluate(policy, req, 0, 0) == P.Allowed
    ensures var w, v := Start(0), AfterReserve(L.NewRow("a", 0, P.WindowCharge(req)), raw);
            && Run(w, steps) == Run(v, rest)
            && (Always(w, steps, Possible) <==> Always(v, rest, Possible))
            && (Always(w, steps, FinalAnswers) <==> Always(v, rest, FinalAnswers))
            && (Always(w, steps, CleanSends) <==> Always(v, rest, CleanSends))
  {
    hide Run, Always;
    var reserve := LL.ReserveStep(policy, req, "a", 0, 0, 0, true);
    ReserveFirst(policy, req, 0);
    var w0 := Start(0);
    var w1 := Next(w0, Open);
    var w2 := Next(w1, OpenDone);
    assert Next(w2, Sign(reserve, "t", raw)) == AfterReserve(L.NewRow("a", 0, P.WindowCharge(req)), raw);
    Unroll(w2, Sign(reserve, "t", raw), rest);
    Unroll(w1, OpenDone, [Sign(reserve, "t", raw)] + rest);
    Unroll(w0, Open, [OpenDone] + ([Sign(reserve, "t", raw)] + rest));
    steps := [Open] + ([OpenDone] + ([Sign(reserve, "t", raw)] + rest));
  }

  /** If a send's append may fail after its line is written, an accepted transaction can end up
      uncounted: the row is released, and the signed line is rebroadcast later. */
  lemma DirtyAppendLosesCount(policy: P.Policy, req: P.Check) returns (steps: seq<Step>)
    requires P.Evaluate(policy, req, 0, 0) == P.Allowed
    ensures var w := Start(0);
            && Always(w, steps, Possible) && Always(w, steps, FinalAnswers) && !Always(w, steps, CleanSends)
            && Lost(Run(w, steps))
  {
    var rest := DirtyAppendTail(L.NewRow("a", 0, P.WindowCharge(req)));
    steps := OpenAndReserve(policy, req, true, rest);
  }

  /** If a backend may reject a transaction another one already took, so can an accepted one: the
      process dies before recording the acceptance, and the rejection frees the row. */
  lemma FickleAnswersLoseCount(policy: P.Policy, req: P.Check) returns (steps: seq<Step>)
    requires P.Evaluate(policy, req, 0, 0) == P.Allowed
    ensures var w := Start(0);
            && Always(w, steps, Possible) && Always(w, steps, CleanSends) && !Always(w, steps, FinalAnswers)
            && Lost(Run(w, steps))
  {
    var row := L.NewRow("a", 0, P.WindowCharge(req));
    var tail := FickleAnswerTail(row);
    var rest := FickleAnswerHead(row, tail);
    steps := OpenAndReserve(policy, req, false, rest);
  }

  lemma ReserveFirst(policy: P.Policy, req: P.Check, t: int)
    requires P.Evaluate(policy, req, 0, t) == P.Allowed
    ensures var row := L.NewRow("a", t, P.WindowCharge(req));
            LL.Apply(LL.World([], [], t), LL.ReserveStep(policy, req, "a", t, t, t, true)) == LL.World([row], [row], t)
  {
    var row := L.NewRow("a", t, P.WindowCharge(req));
    assert [] + [row] == [row];
    assert L.Prune([row], t) == [row];
  }

  lemma ReleaseFirst(row: L.Entry, t: int)
    requires row.state == L.Reserved && row.ts == L.At(t)
    ensures var freed := row.(state := L.Released);
            LL.Apply(LL.World([row], [row], t), LL.TransitStep(row.id, L.Released, "", t, true)) == LL.World([freed], [freed], t)
  {
    var freed := row.(state := L.Released);
    assert [row][0 := freed] == [freed];
    assert L.Prune([freed], t) == [freed];
  }

  // ── a stale line that a broadcast finds breaks the window ────────────────────

  /** Every row was written at instant 0, so none is pruned. */
  predicate AllNow(rows: seq<L.Entry>) { forall k :: 0 <= k < |rows| ==> rows[k].ts == L.At(0) }

  lemma {:induction false} NothingPruned(rows: seq<L.Entry>)
    requires AllNow(rows)
    ensures L.Prune(rows, 0) == rows
  {
    if rows != [] {
      NothingPruned(rows[1..]);
    }
  }

  /** At rest, with all rows still in the file. */
  function AtRest(rows: seq<L.Entry>, journal: map<string, Record>, handedOut: set<string>, vouched: set<string>): World {
    World(LL.World(rows, rows, 0), journal, |journal|, {}, {}, handedOut, vouched, Idle)
  }

  function SignStep(policy: P.Policy, req: P.Check, id: string, txid: string, raw: bool): Step {
    Sign(LL.ReserveStep(policy, req, id, 0, 0, 0, true), txid, raw)
  }

  /** Signing once more, up to the journal. */
  lemma SignOnce(policy: P.Policy, req: P.Check, w: World, id: string, txid: string, raw: bool)
    requires AllNow(w.ledger.history) && w == AtRest(w.ledger.history, w.journal, w.handedOut, w.vouched)
    requires LL.FreshId(w.ledger.history, id) && id !in w.journal
    requires P.Evaluate(policy, req, L.SumWindow(w.ledger.history, 0, ""), 0) == P.Allowed
    ensures var s := SignStep(policy, req, id, txid, raw);
            var rows := w.ledger.history + [L.NewRow(id, 0, P.WindowCharge(req))];
            && Possible(w, s) && AllNow(rows)
            && Next(w, s) == w.(ledger := LL.World(rows, rows, 0), pc := SignReserved(id, txid, raw))
  {
    NothingPruned(w.ledger.history + [L.NewRow(id, 0, P.WindowCharge(req))]);
  }

  /** A PSBT is signed and handed out. */
  lemma HandOut(policy: P.Policy, req: P.Check, w: World, id: string, txid: string, rest: seq<Step>) returns (steps: seq<Step>)
    requires AllNow(w.ledger.history) && w == AtRest(w.ledger.history, w.journal, w.handedOut, w.vouched)
    requires LL.FreshId(w.ledger.history, id) && id !in w.journal
    requires P.Evaluate(policy, req, L.SumWindow(w.ledger.history, 0, ""), 0) == P.Allowed
    ensures var v := AtRest(w.ledger.history + [L.NewRow(id, 0, P.WindowCharge(req))],
                            w.journal[id := Record(txid, Signed, false, |w.journal|)], w.handedOut + {txid}, w.vouched + {id});
            && AllNow(v.ledger.history) && Run(w, steps) == Run(v, rest)
            && (Always(w, steps, Possible) <==> Always(v, rest, Possible))
            && (Always(w, steps, FinalAnswers) <==> Always(v, rest, FinalAnswers))
            && (!Always(v, rest, CleanRepeats) || !SendsVouched(w, txid) ==> !Always(w, steps, CleanRepeats))
    ensures forall s :: s in steps && s.Sign? ==> s in rest || s == SignStep(policy, req, id, txid, false)
  {
    hide Run, Always;
    var s1 := SignStep(policy, req, id, txid, false);
    SignOnce(policy, req, w, id, txid, false);
    var w1 := Next(w, s1);
    var v := Next(w1, Journal(Written));
    assert |w.journal[id := Record(txid, Signed, false, |w.journal|)]| == |w.journal| + 1;
    assert v == AtRest(w1.ledger.history, w.journal[id := Record(txid, Signed, false, |w.journal|)], w.handedOut + {txid}, w.vouched + {id});
    Unroll(w1, Journal(Written), rest);
    UnrollRepeats(w1, Journal(Written), rest);
    Unroll(w, s1, [Journal(Written)] + rest);
    UnrollRepeats(w, s1, [Journal(Written)] + rest);
    steps := [s1] + ([Journal(Written)] + rest);
  }

  /** The append fails after its line is written, and the row is freed. */
  lemma FailAndFree(w: World, before: seq<L.Entry>, row: L.Entry, txid: string, raw: bool)
    requires AllNow(before) && LL.FreshId(before, row.id) && row.ts == L.At(0) && row.state == L.Reserved && row.id !in w.journal
    requires w == AtRest(before + [row], w.journal, w.handedOut, w.vouched).(pc := SignReserved(row.id, txid, raw), nextOrder := |w.journal|)
    ensures var freed := row.(state := L.Released);
            var s := Journal(WrittenButFailed);
            && Possible(w, s) && FinalAnswers(w, s) && (txid in w.handedOut ==> !CleanRepeats(w, s))
            && Possible(Next(w, s), Abort(0, true)) && FinalAnswers(Next(w, s), Abort(0, true))
            && Next(Next(w, s), Abort(0, true))
               == AtRest(before + [freed], w.journal[row.id := Record(txid, Signed, raw, |w.journal|)], w.handedOut, w.vouched)
  {
    var freed := row.(state := L.Released);
    MoveRow(before, row, [], L.Released, "");
    assert before + [row] + [] == before + [row] && before + [freed] + [] == before + [freed];
    assert |w.journal[row.id := Record(txid, Signed, raw, |w.journal|)]| == |w.journal| + 1;
  }

  /** A transaction is signed, its append fails after its line, and its row is freed. */
  lemma LeaveStaleLine(policy: P.Policy, req: P.Check, w: World, id: string, txid: string, raw: bool, rest: seq<Step>) returns (steps: seq<Step>)
    requires AllNow(w.ledger.history) && w == AtRest(w.ledger.history, w.journal, w.handedOut, w.vouched)
    requires LL.FreshId(w.ledger.history, id) && id !in w.journal
    requires P.Evaluate(policy, req, L.SumWindow(w.ledger.history, 0, ""), 0) == P.Allowed
    ensures var freed := L.NewRow(id, 0, P.WindowCharge(req)).(state := L.Released);
            var v := AtRest(w.ledger.history + [freed], w.journal[id := Record(txid, Signed, raw, |w.journal|)], w.handedOut, w.vouched);
            && AllNow(v.ledger.history) && Run(w, steps) == Run(v, rest)
            && (Always(w, steps, Possible) <==> Always(v, rest, Possible))
            && (Always(w, steps, FinalAnswers) <==> Always(v, rest, FinalAnswers))
            && (!Always(v, rest, CleanRepeats) || txid in w.handedOut ==> !Always(w, steps, CleanRepeats))
    ensures forall s :: s in steps && s.Sign? ==> s in rest || s == SignStep(policy, req, id, txid, raw)
  {
    hide Run, Always;
    var s1, s2, s3 := SignStep(policy, req, id, txid, raw), Journal(WrittenButFailed), Abort(0, true);
    SignOnce(policy, req, w, id, txid, raw);
    var w1 := Next(w, s1);
    var w2 := Next(w1, s2);
    FailAndFree(w1, w.ledger.history, L.NewRow(id, 0, P.WindowCharge(req)), txid, raw);
    Unroll(w2, s3, rest);
    UnrollRepeats(w2, s3, rest);
    Unroll(w1, s2, [s3] + rest);
    UnrollRepeats(w1, s2, [s3] + rest);
    Unroll(w, s1, [s2] + ([s3] + rest));
    UnrollRepeats(w, s1, [s2] + ([s3] + rest));
    steps := [s1] + ([s2] + ([s3] + rest));
  }

  lemma {:induction false} FindMiddle(before: seq<L.Entry>, row: L.Entry, after: seq<L.Entry>)
    requires LL.FreshId(before, row.id)
    ensures L.Find(before + [row] + after, row.id) == |before|
  {
    var rows := before + [row] + after;
    if before != [] {
      assert rows[1..] == before[1..] + [row] + after;
      FindMiddle(before[1..], row, after);
    }
  }

  /** Settling a row among others of instant 0. */
  lemma MoveRow(before: seq<L.Entry>, row: L.Entry, after: seq<L.Entry>, to: L.State, txid: string)
    requires AllNow(before) && AllNow(after) && row.ts == L.At(0) && LL.FreshId(before, row.id)
    requires !(row.state == L.Committed && to == L.Released)
    ensures var rows, moved := before + [row] + after, before + [L.Moved(row, to, txid)] + after;
            LL.Apply(LL.World(rows, rows, 0), LL.TransitStep(row.id, to, txid, 0, true)) == LL.World(moved, moved, 0)
  {
    var rows, moved := before + [row] + after, before + [L.Moved(row, to, txid)] + after;
    FindMiddle(before, row, after);
    assert rows[|before| := L.Moved(row, to, txid)] == moved;
    NothingPruned(moved);
  }

  /** A broadcast that finds a stale line commits the row it freed. */
  lemma CommitStale(w: World, before: seq<L.Entry>, freed: L.Entry, after: seq<L.Entry>, txid: string) returns (steps: seq<Step>)
    requires AllNow(before) && AllNow(after) && freed.ts == L.At(0) && freed.state == L.Released && LL.FreshId(before, freed.id)
    requires w == AtRest(before + [freed] + after, w.journal, w.handedOut, w.vouched).(live := w.live, nextOrder := w.nextOrder)
    requires LatestFor(w.journal, txid, freed.id) && txid in w.handedOut
    ensures Always(w, steps, Possible) && Always(w, steps, FinalAnswers)
    ensures Run(w, steps).ledger.history == before + [L.Moved(freed, L.Committed, txid)] + after
    ensures forall s :: s in steps ==> !s.Sign?
  {
    hide Run, Always;
    var id, moved := freed.id, before + [L.Moved(freed, L.Committed, txid)] + after;
    var w1 := w.(pc := PsbtFound(txid, Some(id)));
    var w2 := w.(live := w.live + {txid}, pc := Accepted(Some(id), txid, false));
    var w3 := SetStatus(w2.(pc := Finishing(Some(id), txid, false)), Some(id), Broadcast, true);
    var w4 := w3.(ledger := LL.World(moved, moved, 0), pc := Idle);
    FoundAndTaken(w, id, txid);
    CommitsRow(w3, before, freed, after, txid);
    NoMore(w4);
    var s1, s2, s3, s4 := PsbtLookup(txid, Some(id)), Submit(Accept), MarkBroadcast(true), CommitRow(0, true);
    Unroll(w3, s4, []);
    Unroll(w2, s3, [s4] + []);
    Unroll(w1, s2, [s3] + ([s4] + []));
    Unroll(w, s1, [s2] + ([s3] + ([s4] + [])));
    steps := [s1] + ([s2] + ([s3] + ([s4] + [])));
  }

  /** A broadcast finds a record, and its transaction is taken and marked so. */
  lemma FoundAndTaken(w: World, id: string, txid: string)
    requires w.pc == Idle && w.dead == {} && LatestFor(w.journal, txid, id) && txid in w.handedOut
    ensures var s1, s2, s3 := PsbtLookup(txid, Some(id)), Submit(Accept), MarkBroadcast(true);
            var w1 := w.(pc := PsbtFound(txid, Some(id)));
            var w2 := w.(live := w.live + {txid}, pc := Accepted(Some(id), txid, false));
            && Next(w, s1) == w1 && Possible(w, s1) && FinalAnswers(w, s1)
            && Next(w1, s2) == w2 && Possible(w1, s2) && FinalAnswers(w1, s2)
            && Next(w2, s3) == SetStatus(w2.(pc := Finishing(Some(id), txid, false)), Some(id), Broadcast, true)
            && Possible(w2, s3) && FinalAnswers(w2, s3)
  {
  }

  lemma CommitsRow(w: World, before: seq<L.Entry>, freed: L.Entry, after: seq<L.Entry>, txid: string)
    requires AllNow(before) && AllNow(after) && freed.ts == L.At(0) && freed.state == L.Released && LL.FreshId(before, freed.id)
    requires var rows := before + [freed] + after; w.ledger == LL.World(rows, rows, 0)
    requires w.pc == Finishing(Some(freed.id), txid, false)
    ensures var moved := before + [L.Moved(freed, L.Committed, txid)] + after;
            && Next(w, CommitRow(0, true)) == w.(ledger := LL.World(moved, moved, 0), pc := Idle)
            && Possible(w, CommitRow(0, true)) && FinalAnswers(w, CommitRow(0, true))
  {
    MoveRow(before, freed, after, L.Committed, txid);
  }

  lemma FromStart(rest: seq<Step>) returns (steps: seq<Step>)
    ensures var w, v := Start(0), AtRest([], map[], {}, {});
            && Run(w, steps) == Run(v, rest)
            && (Always(w, steps, Possible) <==> Always(v, rest, Possible))
            && (Always(w, steps, FinalAnswers) <==> Always(v, rest, FinalAnswers))
            && (!Always(v, rest, CleanRepeats) ==> !Always(w, steps, CleanRepeats))
    ensures forall s :: s in steps && s.Sign? ==> s in rest
  {
    hide Run, Always;
    var w1 := Next(Start(0), Open);
    assert Next(w1, OpenDone) == AtRest([], map[], {}, {});
    Unroll(w1, OpenDone, rest);
    UnrollRepeats(w1, OpenDone, rest);
    Unroll(Start(0), Open, [OpenDone] + rest);
    UnrollRepeats(Start(0), Open, [OpenDone] + rest);
    steps := [Open] + ([OpenDone] + rest);
  }

  /** The hypothesis on repeats cannot be dropped. With room for two spends but not for three, sign
      a PSBT, sign it again with an append that fails after its line, so that its row is freed, and
      sign another; the first one's broadcast then finds the stale line and commits the freed row. */
  lemma StaleLineBreaksTheWindow(policy: P.Policy, req: P.Check, limit: int, z: string, a: string, y: string, t: string, u: string)
    returns (steps: seq<Step>)
    requires P.ResolveLimits(policy, req.network).maxDay == Some(limit)
    requires var c := P.WindowCharge(req);
             2 * c <= limit < 3 * c && P.Evaluate(policy, req, 0, 0) == P.Evaluate(policy, req, c, 0) == P.Allowed
    requires z != "" && a != "" && y != "" && z != a && a != y && z != y && t != u
    ensures Always(Start(0), steps, Possible) && Always(Start(0), steps, FinalAnswers) && !Always(Start(0), steps, CleanRepeats)
    ensures forall s :: s in steps && s.Sign? ==> LL.Limited(s.reserve, limit)
    ensures LL.WindowSum(Run(Start(0), steps).ledger.history, 0) == 3 * P.WindowCharge(req) > limit
  {
    hide Run, Always;
    var c := P.WindowCharge(req);
    var rz, freed, ry := L.NewRow(z, 0, c), L.NewRow(a, 0, c).(state := L.Released), L.NewRow(y, 0, c);
    Sums(rz, freed, ry, c);
    var s3 := SignAnotherAndCommitStale(policy, req, rz, freed, ry, t, u);
    var s1 := SignTwice(policy, req, rz, freed, t, s3);
    steps := FromStart(s1);
  }

  /** One transaction signed twice, the second time leaving a stale line. */
  function TwoLines(z: string, a: string, t: string): map<string, Record> {
    map[z := Record(t, Signed, false, 0)][a := Record(t, Signed, false, 1)]
  }

  lemma SignTwice(policy: P.Policy, req: P.Check, rz: L.Entry, freed: L.Entry, t: string, rest: seq<Step>) returns (steps: seq<Step>)
    requires var c := P.WindowCharge(req);
             && P.Evaluate(policy, req, 0, 0) == P.Evaluate(policy, req, c, 0) == P.Allowed
             && rz == L.NewRow(rz.id, 0, c) && freed == L.NewRow(freed.id, 0, c).(state := L.Released)
             && L.SumWindow([rz], 0, "") == c
    requires rz.id != "" && freed.id != "" && rz.id != freed.id
    ensures var w, v := AtRest([], map[], {}, {}), AtRest([rz, freed], TwoLines(rz.id, freed.id, t), {t}, {rz.id});
            && Run(w, steps) == Run(v, rest)
            && (Always(w, steps, Possible) <==> Always(v, rest, Possible))
            && (Always(w, steps, FinalAnswers) <==> Always(v, rest, FinalAnswers))
            && !Always(w, steps, CleanRepeats)
    ensures forall s :: s in steps && s.Sign? ==> s in rest || (s.reserve.ReserveStep? && s.reserve.policy == policy && s.reserve.req == req)
  {
    hide Run, Always, P.Evaluate;
    var j1 := map[rz.id := Record(t, Signed, false, 0)];
    var w0, w1 := AtRest([], map[], {}, {}), AtRest([rz], j1, {t}, {rz.id});
    assert [] + [rz] == [rz] && [rz] + [freed] == [rz, freed] && |j1| == 1;
    assert {} + {t} == {t} && {} + {rz.id} == {rz.id};
    var s2 := LeaveStaleLine(policy, req, w1, freed.id, t, false, rest);
    steps := HandOut(policy, req, w0, rz.id, t, s2);
  }

  lemma SignAnotherAndCommitStale(policy: P.Policy, req: P.Check, rz: L.Entry, freed: L.Entry, ry: L.Entry, t: string, u: string)
    returns (steps: seq<Step>)
    requires var c := P.WindowCharge(req);
             && P.Evaluate(policy, req, c, 0) == P.Allowed
             && rz == L.NewRow(rz.id, 0, c) && freed == L.NewRow(freed.id, 0, c).(state := L.Released) && ry == L.NewRow(ry.id, 0, c)
             && L.SumWindow([rz, freed], 0, "") == c
    requires ry.id != "" && rz.id != freed.id && freed.id != ry.id && rz.id != ry.id && freed.id != "" && t != u
    ensures var w := AtRest([rz, freed], TwoLines(rz.id, freed.id, t), {t}, {rz.id});
            && Always(w, steps, Possible) && Always(w, steps, FinalAnswers)
            && Run(w, steps).ledger.history == [rz, L.Moved(freed, L.Committed, t), ry]
    ensures forall s :: s in steps && s.Sign? ==> s.reserve.ReserveStep? && s.reserve.policy == policy && s.reserve.req == req
  {
    hide Run, Always, P.Evaluate;
    var j2 := TwoLines(rz.id, freed.id, t);
    var j3 := j2[ry.id := Record(u, Signed, false, 2)];
    var w2, w3 := AtRest([rz, freed], j2, {t}, {rz.id}), AtRest([rz, freed, ry], j3, {t} + {u}, {rz.id} + {ry.id});
    assert |j2| == 2 && [rz, freed] + [ry] == [rz] + [freed] + [ry] == [rz, freed, ry];
    assert LatestFor(j3, t, freed.id);
    var tail := CommitStale(w3, [rz], freed, [ry], t);
    assert [rz] + [L.Moved(freed, L.Committed, t)] + [ry] == [rz, L.Moved(freed, L.Committed, t), ry];
    steps := HandOut(policy, req, w2, ry.id, u, tail);
  }

  lemma Sums(rz: L.Entry, freed: L.Entry, ry: L.Entry, c: int)
    requires c > 0 && rz == L.NewRow(rz.id, 0, c) && ry == L.NewRow(ry.id, 0, c)
    requires freed == L.NewRow(freed.id, 0, c).(state := L.Released) && rz.id != "" && freed.id != "" && ry.id != ""
    ensures L.SumWindow([], 0, "") == 0 && L.SumWindow([rz], 0, "") == c && L.SumWindow([rz, freed], 0, "") == c
    ensures forall txid :: LL.WindowSum([rz, L.Moved(freed, L.Committed, txid), ry], 0) == 3 * c
  {
    assert [rz, freed][1..] == [freed] && L.SumWindow([freed], 0, "") == 0;
    forall txid ensures LL.WindowSum([rz, L.Moved(freed, L.Committed, txid), ry], 0) == 3 * c {
      var m := L.Moved(freed, L.Committed, txid);
      assert [rz, m, ry][1..] == [m, ry] && [m, ry][1..] == [ry];
      assert LL.WindowSum([ry], 0) == c;
    }
  }

  /** A stale send's line is rebroadcast, which makes it the latest record of its transaction. */
  lemma RebroadcastStale(w: World, id: string, rest: seq<Step>) returns (steps: seq<Step>)
    requires w == AtRest(w.ledger.history, w.journal, w.handedOut, w.vouched)
    requires id in w.journal && w.journal[id].status == Signed && w.journal[id].raw
    ensures var txid := w.journal[id].txid;
            var v := w.(journal := w.journal[id := w.journal[id].(status := Broadcast, order := |w.journal|)],
                        live := {txid}, nextOrder := |w.journal| + 1);
            && Run(w, steps) == Run(v, rest)
            && (Always(w, steps, Possible) <==> Always(v, rest, Possible))
            && (Always(w, steps, FinalAnswers) <==> Always(v, rest, FinalAnswers))
            && (!Always(v, rest, CleanRepeats) ==> !Always(w, steps, CleanRepeats))
    ensures forall s :: s in steps && s.Sign? ==> s in rest
  {
    hide Run, Always;
    var txid := w.journal[id].txid;
    var w1 := w.(pc := Rebroadcasting(id));
    var w2 := w.(live := {txid}, pc := RebroadcastAnswered(id, Broadcast));
    assert Next(w, Resubmit(id)) == w1;
    assert Next(w1, Submit(Accept)) == w2 by {
      assert {} + {txid} == {txid};
    }
    Unroll(w2, MarkResubmitted(true), rest);
    UnrollRepeats(w2, MarkResubmitted(true), rest);
    Unroll(w1, Submit(Accept), [MarkResubmitted(true)] + rest);
    UnrollRepeats(w1, Submit(Accept), [MarkResubmitted(true)] + rest);
    Unroll(w, Resubmit(id), [Submit(Accept)] + ([MarkResubmitted(true)] + rest));
    UnrollRepeats(w, Resubmit(id), [Submit(Accept)] + ([MarkResubmitted(true)] + rest));
    steps := [Resubmit(id)] + ([Submit(Accept)] + ([MarkResubmitted(true)] + rest));
  }

  /** A send's stale line of the transaction, its PSBT, and another PSBT. */
  function ThreeLines(a: string, z: string, y: string, t: string, u: string): map<string, Record> {
    map[a := Record(t, Signed, true, 0)][z := Record(t, Signed, false, 1)][y := Record(u, Signed, false, 2)]
  }

  lemma ThreeLinesFacts(a: string, z: string, y: string, t: string, u: string)
    requires z != a && a != y && z != y && t != u
    ensures var j := ThreeLines(a, z, y, t, u);
            && |j| == 3 && j[a] == Record(t, Signed, true, 0)
            && LatestFor(j[a := Record(t, Broadcast, true, 3)], t, a)
  {
  }

  lemma RebroadcastAndCommitStale(rz: L.Entry, freed: L.Entry, ry: L.Entry, t: string, u: string) returns (steps: seq<Step>)
    requires AllNow([freed]) && AllNow([rz, ry]) && freed.state == L.Released && freed.id != ""
    requires rz.id != freed.id && freed.id != ry.id && rz.id != ry.id && t != u
    ensures var w := AtRest([freed, rz, ry], ThreeLines(freed.id, rz.id, ry.id, t, u), {t, u}, {rz.id, ry.id});
            && Always(w, steps, Possible) && Always(w, steps, FinalAnswers)
            && Run(w, steps).ledger.history == [L.Moved(freed, L.Committed, t), rz, ry]
    ensures forall s :: s in steps ==> !s.Sign?
  {
    hide Run, Always;
    var j := ThreeLines(freed.id, rz.id, ry.id, t, u);
    var w := AtRest([freed, rz, ry], j, {t, u}, {rz.id, ry.id});
    ThreeLinesFacts(freed.id, rz.id, ry.id, t, u);
    assert [freed][0] == freed;
    assert [] + [freed] + [rz, ry] == [freed, rz, ry];
    assert [] + [L.Moved(freed, L.Committed, t)] + [rz, ry] == [L.Moved(freed, L.Committed, t), rz, ry];
    var tail := CommitStale(w.(journal := j[freed.id := Record(t, Broadcast, true, 3)], live := {t}, nextOrder := 4),
                            [], freed, [rz, ry], t);
    steps := RebroadcastStale(w, freed.id, tail);
  }

  lemma SumsAfterSend(freed: L.Entry, rz: L.Entry, ry: L.Entry, c: int)
    requires c > 0 && rz == L.NewRow(rz.id, 0, c) && ry == L.NewRow(ry.id, 0, c)
    requires freed == L.NewRow(freed.id, 0, c).(state := L.Released) && rz.id != "" && freed.id != "" && ry.id != ""
    ensures L.SumWindow([], 0, "") == 0 && L.SumWindow([freed], 0, "") == 0 && L.SumWindow([freed, rz], 0, "") == c
    ensures forall txid :: LL.WindowSum([L.Moved(freed, L.Committed, txid), rz, ry], 0) == 3 * c
  {
    assert [freed, rz][1..] == [rz] && L.SumWindow([rz], 0, "") == c;
    forall txid ensures LL.WindowSum([L.Moved(freed, L.Committed, txid), rz, ry], 0) == 3 * c {
      var m := L.Moved(freed, L.Committed, txid);
      assert [m, rz, ry][1..] == [rz, ry] && [rz, ry][1..] == [ry];
      assert LL.WindowSum([ry], 0) == c;
    }
  }

  /** Nor for sends: a send's append fails after its line, and its row is freed; then a PSBT of the
      same transaction is signed, and another. Rebroadcasting the stale line makes it the latest
      record, so the PSBT's broadcast finds it and commits the freed row. */
  lemma StaleSendBreaksTheWindow(policy: P.Policy, req: P.Check, limit: int, z: string, a: string, y: string, t: string, u: string)
    returns (steps: seq<Step>)
    requires P.ResolveLimits(policy, req.network).maxDay == Some(limit)
    requires var c := P.WindowCharge(req);
             2 * c <= limit < 3 * c && P.Evaluate(policy, req, 0, 0) == P.Evaluate(policy, req, c, 0) == P.Allowed
    requires z != "" && a != "" && y != "" && z != a && a != y && z != y && t != u
    ensures Always(Start(0), steps, Possible) && Always(Start(0), steps, FinalAnswers) && !Always(Start(0), steps, CleanRepeats)
    ensures forall s :: s in steps && s.Sign? ==> LL.Limited(s.reserve, limit)
    ensures LL.WindowSum(Run(Start(0), steps).ledger.history, 0) == 3 * P.WindowCharge(req) > limit
  {
    hide Run, Always;
    var c := P.WindowCharge(req);
    var rz, freed, ry := L.NewRow(z, 0, c), L.NewRow(a, 0, c).(state := L.Released), L.NewRow(y, 0, c);
    SumsAfterSend(freed, rz, ry, c);
    assert AllNow([freed]) && AllNow([rz, ry]);
    var tail := RebroadcastAndCommitStale(rz, freed, ry, t, u);
    var s2 := HandOutTwo(policy, req, freed, rz, ry, t, u, tail);
    assert [] + [freed] == [freed];
    var s1 := LeaveStaleLine(policy, req, AtRest([], map[], {}, {}), a, t, true, s2);
    steps := FromStart(s1);
  }

  lemma HandOutTwo(policy: P.Policy, req: P.Check, freed: L.Entry, rz: L.Entry, ry: L.Entry, t: string, u: string, rest: seq<Step>)
    returns (steps: seq<Step>)
    requires var c := P.WindowCharge(req);
             && P.Evaluate(policy, req, 0, 0) == P.Evaluate(policy, req, c, 0) == P.Allowed
             && rz == L.NewRow(rz.id, 0, c) && freed == L.NewRow(freed.id, 0, c).(state := L.Released) && ry == L.NewRow(ry.id, 0, c)
             && L.SumWindow([freed], 0, "") == 0 && L.SumWindow([freed, rz], 0, "") == c
    requires ry.id != "" && rz.id != "" && rz.id != freed.id && freed.id != ry.id && rz.id != ry.id && t != u
    ensures var w := AtRest([freed], map[freed.id := Record(t, Signed, true, 0)], {}, {});
            var v := AtRest([freed, rz, ry], ThreeLines(freed.id, rz.id, ry.id, t, u), {t, u}, {rz.id, ry.id});
            && Run(w, steps) == Run(v, rest)
            && (Always(w, steps, Possible) <==> Always(v, rest, Possible))
            && (Always(w, steps, FinalAnswers) <==> Always(v, rest, FinalAnswers))
            && !Always(w, steps, CleanRepeats)
    ensures forall s :: s in steps && s.Sign? ==> s in rest || (s.reserve.ReserveStep? && s.reserve.policy == policy && s.reserve.req == req)
  {
    hide Run, Always, P.Evaluate;
    var j0 := map[freed.id := Record(t, Signed, true, 0)];
    var j1 := j0[rz.id := Record(t, Signed, false, 1)];
    var w0, w1 := AtRest([freed], j0, {}, {}), AtRest([freed, rz], j1, {t}, {rz.id});
    var s2 := HandOutLast(policy, req, freed, rz, ry, t, u, rest);
    assert |j0| == 1 && [freed] + [rz] == [freed, rz] && {} + {t} == {t} && {} + {rz.id} == {rz.id};
    assert freed.id in w0.journal && !SendsVouched(w0, t);
    steps := HandOut(policy, req, w0, rz.id, t, s2);
  }

  lemma HandOutLast(policy: P.Policy, req: P.Check, freed: L.Entry, rz: L.Entry, ry: L.Entry, t: string, u: string, rest: seq<Step>)
    returns (steps: seq<Step>)
    requires var c := P.WindowCharge(req);
             && P.Evaluate(policy, req, c, 0) == P.Allowed && L.SumWindow([freed, rz], 0, "") == c
             && AllNow([freed, rz]) && ry == L.NewRow(ry.id, 0, c)
    requires ry.id != "" && rz.id != freed.id && freed.id != ry.id && rz.id != ry.id
    ensures var j := map[freed.id := Record(t, Signed, true, 0)][rz.id := Record(t, Signed, false, 1)];
            var w := AtRest([freed, rz], j, {t}, {rz.id});
            var v := AtRest([freed, rz, ry], j[ry.id := Record(u, Signed, false, 2)], {t, u}, {rz.id, ry.id});
            && Run(w, steps) == Run(v, rest)
            && (Always(w, steps, Possible) <==> Always(v, rest, Possible))
            && (Always(w, steps, FinalAnswers) <==> Always(v, rest, FinalAnswers))
    ensures forall s :: s in steps && s.Sign? ==> s in rest || (s.reserve.ReserveStep? && s.reserve.policy == policy && s.reserve.req == req)
  {
    hide Run, Always, P.Evaluate;
    var j := map[freed.id := Record(t, Signed, true, 0)][rz.id := Record(t, Signed, false, 1)];
    var w := AtRest([freed, rz], j, {t}, {rz.id});
    assert |j| == 2 && [freed, rz] + [ry] == [freed, rz, ry];
    assert {t} + {u} == {t, u} && {rz.id} + {ry.id} == {rz.id, ry.id};
    steps := HandOut(policy, req, w, ry.id, u, rest);
  }
}
