/** Reserve, sign, journal, broadcast and settle, with crashes, and reconciliation at open
    (internal/service/psbt.go, tx_send.go, policy.go). One network, one process at a time. */
module Settlement {
  import opened Base
  import L = Ledger
  import LL = LedgerLaws
  import P = Policies

  // ── state ────────────────────────────────────────────────────────────────────

  datatype Status = Signed | Broadcast | Confirmed | Failed

  /** The latest journal record of a reservation. `raw` marks a send's record, whose bytes can be
      rebroadcast from the journal; a PSBT record carries none. */
  datatype Record = Record(txid: string, status: Status, raw: bool, order: nat)

  /** Where the one running operation is. `rec` is the reservation of the record found, if any. */
  datatype Pc =
    | Down
    | Opening(todo: set<string>)
    | Idle
    | SignReserved(res: string, txid: string, raw: bool)
    | SignFailed(res: string)
    | SendJournaled(res: string)
    | PsbtFound(txid: string, rec: Option<string>)
    | Accepted(rec: Option<string>, txid: string, sendOrder: bool)
    | Finishing(rec: Option<string>, txid: string, sendOrder: bool)
    | Rejected(rec: Option<string>)
    | Refunding(rec: Option<string>)
    | Rebroadcasting(res: string)
    | RebroadcastAnswered(res: string, status: Status)

  /** `live` holds the transactions some backend took, `dead` those one has rejected, `handedOut`
      the transactions whose signed PSBT reached the caller, `vouched` the reservations whose
      signed record was appended without an error. */
  datatype World = World(
    ledger: LL.World, journal: map<string, Record>, nextOrder: nat,
    live: set<string>, dead: set<string>, handedOut: set<string>, vouched: set<string>, pc: Pc)

  datatype Append = Written | NotWritten | WrittenButFailed

  datatype Answer = Accept | Reject | Exhausted(reached: bool)

  datatype Step =
    | Crash
    | Open
    | Reconcile(res: string, journalFault: bool, t: int, writeOk: bool)
    | OpenDone
    | Sign(reserve: LL.Step, txid: string, raw: bool)
    | SignError
    | Journal(result: Append)
    | Abort(t: int, writeOk: bool)
    | PsbtLookup(txid: string, found: Option<string>)
    | Submit(answer: Answer)
    | MarkBroadcast(writeOk: bool)
    | CommitRow(t: int, writeOk: bool)
    | MarkFailed(writeOk: bool)
    | Refund(t: int, writeOk: bool)
    | Resubmit(res: string)
    | MarkResubmitted(writeOk: bool)
    | SawConfirmation(res: string)

  // ── durable effects ──────────────────────────────────────────────────────────

  function RowState(h: seq<L.Entry>, id: string): Option<L.State> {
    if L.Find(h, id) < |h| then Some(h[L.Find(h, id)].state) else None
  }

  function Settle(w: World, res: Option<string>, to: L.State, txid: string, t: int, writeOk: bool): World {
    if res.None? then w
    else w.(ledger := LL.Apply(w.ledger, LL.TransitStep(res.value, to, txid, t, writeOk)))
  }

  function SetStatus(w: World, res: Option<string>, status: Status, writeOk: bool): World {
    if res.None? || res.value !in w.journal || !writeOk then w
    else w.(journal := w.journal[res.value := w.journal[res.value].(status := status, order := w.nextOrder)],
            nextOrder := w.nextOrder + 1)
  }

  /** The latest record with this txid. */
  ghost predicate LatestFor(journal: map<string, Record>, txid: string, res: string) {
    && res in journal && journal[res].txid == txid
    && forall r :: r in journal && journal[r].txid == txid ==> journal[r].order <= journal[res].order
  }

  function Granted(w: World, s: LL.Step): bool { LL.Apply(w.ledger, s).history != w.ledger.history }

  /** The effect of a submission on what backends hold. */
  function Submitted(w: World, txid: string, a: Answer): World {
    if a.Reject? then w.(dead := w.dead + {txid})
    else if a == Exhausted(false) then w
    else w.(live := w.live + {txid})
  }

  /** One orphan against the journal: no record or a failed one frees it, a broadcast one commits
      it, a signed one or an unreadable journal leaves it. */
  function Reconciled(w: World, res: string, journalFault: bool, t: int, writeOk: bool): World {
    if journalFault then w
    else if res !in w.journal then Settle(w, Some(res), L.Released, "", t, writeOk)
    else
      match w.journal[res].status
      case Broadcast => Settle(w, Some(res), L.Committed, w.journal[res].txid, t, writeOk)
      case Confirmed => Settle(w, Some(res), L.Committed, w.journal[res].txid, t, writeOk)
      case Failed => Settle(w, Some(res), L.Released, "", t, writeOk)
      case Signed => w
  }

  function Journaled(w: World, result: Append): World
    requires w.pc.SignReserved?
  {
    var res := w.pc.res;
    var w' := w.(journal := w.journal[res := Record(w.pc.txid, Signed, w.pc.raw, w.nextOrder)], nextOrder := w.nextOrder + 1);
    match result
    case NotWritten => w.(pc := SignFailed(res))
    case WrittenButFailed => w'.(pc := SignFailed(res))
    case Written =>
      if w.pc.raw then w'.(vouched := w.vouched + {res}, pc := SendJournaled(res))
      else w'.(vouched := w.vouched + {res}, pc := Idle, handedOut := w.handedOut + {w.pc.txid})
  }

  /** The transaction the current operation is about to submit. */
  function Submitting(w: World): Option<string> {
    match w.pc
    case PsbtFound(txid, _) => Some(txid)
    case SendJournaled(res) => if res in w.journal then Some(w.journal[res].txid) else None
    case Rebroadcasting(res) => if res in w.journal then Some(w.journal[res].txid) else None
    case _ => None
  }

  function Answered(pc: Pc, txid: string, a: Answer): Pc {
    if a.Exhausted? then Idle
    else
      match pc
      case PsbtFound(_, rec) => if a.Accept? then Accepted(rec, txid, false) else Rejected(rec)
      case SendJournaled(res) => if a.Accept? then Accepted(Some(res), txid, true) else Rejected(Some(res))
      case Rebroadcasting(res) => RebroadcastAnswered(res, if a.Accept? then Broadcast else Failed)
      case _ => pc
  }

  /** The effect of a step. A PSBT broadcast records acceptance first and commits second; a send
      commits first and records second. */
  function Next(w: World, s: Step): World {
    match s
    case Crash => w.(pc := Down)
    case Open => w.(pc := Opening(set id | id in L.ReservedIds(w.ledger.file)))
    case Reconcile(res, fault, t, writeOk) =>
      Reconciled(w.(pc := Opening((if w.pc.Opening? then w.pc.todo else {}) - {res})), res, fault, t, writeOk)
    case OpenDone => w.(pc := Idle)
    case Sign(reserve, txid, raw) =>
      var w' := w.(ledger := LL.Apply(w.ledger, reserve));
      if Granted(w, reserve) && reserve.ReserveStep? then w'.(pc := SignReserved(reserve.id, txid, raw)) else w'
    case SignError => if w.pc.SignReserved? then w.(pc := SignFailed(w.pc.res)) else w
    case Journal(result) => if w.pc.SignReserved? then Journaled(w, result) else w
    case Abort(t, writeOk) =>
      if w.pc.SignFailed? then Settle(w.(pc := Idle), Some(w.pc.res), L.Released, "", t, writeOk) else w
    case PsbtLookup(txid, found) => w.(pc := PsbtFound(txid, found))
    case Submit(a) =>
      if Submitting(w).None? then w
      else Submitted(w, Submitting(w).value, a).(pc := Answered(w.pc, Submitting(w).value, a))
    case MarkBroadcast(writeOk) =>
      if w.pc.Accepted? && !w.pc.sendOrder then SetStatus(w.(pc := Finishing(w.pc.rec, w.pc.txid, false)), w.pc.rec, Broadcast, writeOk)
      else if w.pc.Finishing? && w.pc.sendOrder then SetStatus(w.(pc := Idle), w.pc.rec, Broadcast, writeOk)
      else w
    case CommitRow(t, writeOk) =>
      if w.pc.Accepted? && w.pc.sendOrder then Settle(w.(pc := Finishing(w.pc.rec, w.pc.txid, true)), w.pc.rec, L.Committed, w.pc.txid, t, writeOk)
      else if w.pc.Finishing? && !w.pc.sendOrder then Settle(w.(pc := Idle), w.pc.rec, L.Committed, w.pc.txid, t, writeOk)
      else w
    case MarkFailed(writeOk) =>
      if w.pc.Rejected? then SetStatus(w.(pc := Refunding(w.pc.rec)), w.pc.rec, Failed, writeOk) else w
    case Refund(t, writeOk) =>
      if w.pc.Refunding? then Settle(w.(pc := Idle), w.pc.rec, L.Released, "", t, writeOk) else w
    case Resubmit(res) => w.(pc := Rebroadcasting(res))
    case MarkResubmitted(writeOk) =>
      if w.pc.RebroadcastAnswered? then SetStatus(w.(pc := Idle), Some(w.pc.res), w.pc.status, writeOk) else w
    case SawConfirmation(res) => SetStatus(w, Some(res), Confirmed, true)
  }

  // ── what a run may do ────────────────────────────────────────────────────────

  /** When a step can happen: one operation at a time, a signed PSBT is broadcast only after its
      signing succeeded, the clock does not run back, ids are new. */
  ghost predicate Possible(w: World, s: Step) {
    match s
    case Crash => true
    case Open => w.pc.Down?
    case Reconcile(res, _, t, _) => w.pc.Opening? && res in w.pc.todo && w.ledger.clock <= t
    case OpenDone => w.pc.Opening?
    case Sign(reserve, _, _) => w.pc.Idle? && reserve.ReserveStep? && LL.Timely(w.ledger, reserve) && reserve.id !in w.journal
    case SignError => w.pc.SignReserved?
    case Journal(_) => w.pc.SignReserved?
    case Abort(t, _) => w.pc.SignFailed? && w.ledger.clock <= t
    case PsbtLookup(txid, found) =>
      w.pc.Idle? && txid in w.handedOut && (found.Some? ==> LatestFor(w.journal, txid, found.value))
    case Submit(_) => Submitting(w).Some?
    case MarkBroadcast(_) => (w.pc.Accepted? && !w.pc.sendOrder) || (w.pc.Finishing? && w.pc.sendOrder)
    case CommitRow(t, _) =>
      w.ledger.clock <= t && ((w.pc.Accepted? && w.pc.sendOrder) || (w.pc.Finishing? && !w.pc.sendOrder))
    case MarkFailed(_) => w.pc.Rejected?
    case Refund(t, _) => w.pc.Refunding? && w.ledger.clock <= t
    case Resubmit(res) => w.pc.Idle? && res in w.journal && w.journal[res].status == Signed && w.journal[res].raw
    case MarkResubmitted(_) => w.pc.RebroadcastAnswered?
    case SawConfirmation(res) =>
      w.pc.Idle? && res in w.journal && w.journal[res].status == Broadcast && w.journal[res].txid in w.live
  }

  /** Hypothesis on the network: a rejection is final. No backend takes a transaction one has
      rejected, or rejects one that some backend holds. */
  predicate FinalAnswers(w: World, s: Step) {
    s.Submit? && Submitting(w).Some? ==>
      var txid := Submitting(w).value;
      if s.answer.Reject? then txid !in w.live
      else if s.answer == Exhausted(false) then true
      else txid !in w.dead
  }

  /** A send's append that reports an error left no line behind. */
  predicate CleanSends(w: World, s: Step) {
    s.Journal? && s.result == WrittenButFailed ==> !(w.pc.SignReserved? && w.pc.raw)
  }

  /** No send's append for this transaction that reports an error has left its line behind. */
  predicate CleanSendFor(w: World, s: Step, txid: string) {
    s.Journal? && s.result == WrittenButFailed && w.pc.SignReserved? && w.pc.raw ==> w.pc.txid != txid
  }

  /** No append that reports an error leaves a line for a transaction whose PSBT was handed out, and
      no PSBT is handed out for a transaction of which a send has left such a line. */
  predicate CleanRepeats(w: World, s: Step) {
    s.Journal? && w.pc.SignReserved? ==>
      match s.result
      case NotWritten => true
      case WrittenButFailed => w.pc.txid !in w.handedOut
      case Written => w.pc.raw || forall r :: r in w.journal && w.journal[r].txid == w.pc.txid && w.journal[r].raw ==> r in w.vouched
  }

  function Run(w: World, steps: seq<Step>): World
    decreases |steps|
  {
    if steps == [] then w else Run(Next(w, steps[0]), steps[1..])
  }

  /** Every step of the run satisfies `p` where it happens. */
  ghost predicate Always(w: World, steps: seq<Step>, p: (World, Step) -> bool)
    decreases |steps|
  {
    steps == [] || (p(w, steps[0]) && Always(Next(w, steps[0]), steps[1..], p))
  }

  // ── the invariant ────────────────────────────────────────────────────────────

  predicate Counts(s: Option<L.State>) { s == Some(L.Reserved) || s == Some(L.Committed) }

  /** A vouched reservation keeps its row unless its transaction was rejected. */
  ghost predicate RowKept(w: World, r: string) {
    && r in w.journal
    && (|| w.journal[r].txid in w.dead
        || RowState(w.ledger.history, r) == Some(L.Committed)
        || (RowState(w.ledger.history, r) == Some(L.Reserved) && w.journal[r].status != Failed))
  }

  /** A record of the transaction that was appended without an error. */
  ghost predicate Vouched(w: World, txid: string) {
    exists r :: r in w.vouched && r in w.journal && w.journal[r].txid == txid
  }

  /** A record from which the transaction can have been submitted: a vouched one, or a send's. */
  ghost predicate Backed(w: World, txid: string) {
    exists r :: r in w.journal && w.journal[r].txid == txid && (r in w.vouched || w.journal[r].raw)
  }

  ghost predicate RecordFits(w: World, rec: Option<string>, txid: string) {
    rec.Some? ==> rec.value in w.journal && w.journal[rec.value].txid == txid
  }

  /** A send settles its own vouched record, a PSBT broadcast what it found for a PSBT handed out. */
  predicate CameFrom(w: World, rec: Option<string>, txid: string, send: bool) {
    if send then rec.Some? && rec.value in w.vouched else txid in w.handedOut
  }

  ghost predicate PcFits(w: World) {
    match w.pc
    case Opening(todo) => forall r :: r in todo ==> RowState(w.ledger.history, r) == Some(L.Reserved)
    case SignReserved(r, _, _) => r !in w.journal && RowState(w.ledger.history, r) == Some(L.Reserved)
    case SignFailed(r) => r !in w.vouched
    case SendJournaled(r) => r in w.vouched
    case PsbtFound(txid, rec) => txid in w.handedOut && RecordFits(w, rec, txid)
    case Accepted(rec, txid, send) => txid in w.live && RecordFits(w, rec, txid) && CameFrom(w, rec, txid, send)
    case Finishing(rec, txid, send) => txid in w.live && RecordFits(w, rec, txid) && CameFrom(w, rec, txid, send)
    case Rejected(rec) => rec.Some? ==> rec.value in w.journal && w.journal[rec.value].txid in w.dead
    case Refunding(rec) => rec.Some? ==> rec.value in w.journal && w.journal[rec.value].txid in w.dead
    case Rebroadcasting(r) => r in w.journal && w.journal[r].raw
    case RebroadcastAnswered(r, status) =>
      && r in w.journal && w.journal[r].raw
      && (status == Failed || status == Broadcast)
      && (if status == Failed then w.journal[r].txid in w.dead else w.journal[r].txid in w.live)
    case _ => true
  }

  ghost predicate Inv(w: World) {
    && LL.Core(w.ledger)
    && (forall r :: r in w.vouched ==> RowKept(w, r))
    && (forall r :: r in w.journal && w.journal[r].status == Failed ==> w.journal[r].txid in w.dead)
    && (forall r :: r in w.journal && w.journal[r].status in {Broadcast, Confirmed} ==> w.journal[r].txid in w.live)
    && (forall r :: r in w.journal ==> RowState(w.ledger.history, r).Some?)
    && (forall t :: t in w.handedOut ==> Vouched(w, t))
    && (forall t :: t in w.live ==> Backed(w, t))
    && w.live !! w.dead
    && PcFits(w)
  }

  // ── every step keeps it ──────────────────────────────────────────────────────

  lemma {:induction false} FindAfterAppend(h: seq<L.Entry>, row: L.Entry, id: string)
    requires LL.FreshId(h, row.id)
    ensures RowState(h + [row], id) == if id == row.id then Some(row.state) else RowState(h, id)
  {
    if h == [] {
      assert [row][1..] == [];
    } else {
      assert (h + [row])[1..] == h[1..] + [row];
      FindAfterAppend(h[1..], row, id);
    }
  }

  lemma {:induction false} FindAfterShift(h: seq<L.Entry>, x: string, to: L.State, txid: string, id: string)
    ensures RowState(L.Shifted(h, x, to, txid), id)
         == if id == x && L.Rewrites(h, x, to) then Some(to) else RowState(h, id)
  {
    if h != [] {
      if h[0].id == x {
        assert L.Shifted(h, x, to, txid)[1..] == h[1..];
      } else {
        LL.ShiftedTail(h, x, to, txid);
        FindAfterShift(h[1..], x, to, txid, id);
      }
    }
  }

  /** A settlement moves at most its own row, and never a committed one to released. */
  lemma SettleEffect(w: World, res: string, to: L.State, txid: string, t: int, writeOk: bool)
    requires LL.Core(w.ledger) && w.ledger.clock <= t && to != L.Reserved
    ensures var w' := Settle(w, Some(res), to, txid, t, writeOk);
            && LL.Core(w'.ledger) && w' == w.(ledger := w'.ledger)
            && (forall id :: id != res ==> RowState(w'.ledger.history, id) == RowState(w.ledger.history, id))
            && (var was, now := RowState(w.ledger.history, res), RowState(w'.ledger.history, res);
                now == was || (now == Some(to) && !(was == Some(L.Committed) && to == L.Released)))
  {
    LL.StepKeepsCore(w.ledger, LL.TransitStep(res, to, txid, t, writeOk));
    LL.FindTracks(w.ledger.file, w.ledger.history, w.ledger.clock, res);
    forall id ensures RowState(L.Shifted(w.ledger.history, res, to, txid), id)
                   == if id == res && L.Rewrites(w.ledger.history, res, to) then Some(to) else RowState(w.ledger.history, id)
    {
      FindAfterShift(w.ledger.history, res, to, txid, id);
    }
  }

  /** Records keep what they say of their transaction, and stay vouched. */
  ghost predicate RecordsKept(w: World, w': World) {
    && w.vouched <= w'.vouched
    && forall r :: r in w.journal ==> r in w'.journal && w'.journal[r].txid == w.journal[r].txid && w'.journal[r].raw == w.journal[r].raw
  }

  lemma BackingKept(w: World, w': World, t: string)
    requires RecordsKept(w, w')
    ensures Vouched(w, t) ==> Vouched(w', t)
    ensures Backed(w, t) ==> Backed(w', t)
    ensures Vouched(w, t) ==> Backed(w, t)
  {
    if Vouched(w, t) {
      var r :| r in w.vouched && r in w.journal && w.journal[r].txid == t;
      assert r in w'.vouched && r in w'.journal && w'.journal[r].txid == t;
    }
    if Backed(w, t) {
      var r :| r in w.journal && w.journal[r].txid == t && (r in w.vouched || w.journal[r].raw);
      assert r in w'.journal && w'.journal[r].txid == t && (r in w'.vouched || w'.journal[r].raw);
    }
  }

  /** Releasing a row nobody vouched for, or whose transaction is dead, or committing any row. */
  lemma SettleKeepsInv(w: World, res: Option<string>, to: L.State, txid: string, t: int, writeOk: bool)
    requires Inv(w) && w.ledger.clock <= t && to != L.Reserved && !w.pc.SignReserved?
    requires w.pc.Opening? ==> res.Some? && res.value !in w.pc.todo
    requires to == L.Released && res.Some? && res.value in w.vouched ==>
               res.value in w.journal && w.journal[res.value].txid in w.dead
    ensures Inv(Settle(w, res, to, txid, t, writeOk))
  {
    if res.Some? {
      var w' := Settle(w, res, to, txid, t, writeOk);
      SettleEffect(w, res.value, to, txid, t, writeOk);
      forall r | r in w'.vouched ensures RowKept(w', r) { assert RowKept(w, r); }
      forall x { BackingKept(w, w', x); }
    }
  }

  /** At most one record changes, in status and order only. */
  lemma SetStatusEffect(w: World, res: Option<string>, status: Status, writeOk: bool)
    ensures var w' := SetStatus(w, res, status, writeOk);
            && w' == w.(journal := w'.journal, nextOrder := w'.nextOrder) && RecordsKept(w, w')
            && w'.journal.Keys == w.journal.Keys
            && (forall r :: r in w.journal && w'.journal[r] != w.journal[r] ==> res == Some(r) && w'.journal[r].status == status)
  {
  }

  lemma SetStatusKeepsInv(w: World, res: Option<string>, status: Status, writeOk: bool)
    requires Inv(w)
    requires res.Some? && res.value in w.journal ==>
               match status
               case Failed => w.journal[res.value].txid in w.dead
               case Signed => false
               case _ => w.journal[res.value].txid in w.live
    ensures Inv(SetStatus(w, res, status, writeOk))
  {
    SetStatusEffect(w, res, status, writeOk);
    StatusChangeKeepsInv(w, SetStatus(w, res, status, writeOk), res, status);
  }

  lemma StatusChangeKeepsInv(w: World, w': World, res: Option<string>, status: Status)
    requires Inv(w) && w' == w.(journal := w'.journal, nextOrder := w'.nextOrder) && RecordsKept(w, w')
    requires w'.journal.Keys == w.journal.Keys
    requires forall r :: r in w.journal && w'.journal[r] != w.journal[r] ==>
               && res == Some(r) && w'.journal[r].status == status && status != Signed
               && w.journal[r].txid in if status == Failed then w.dead else w.live
    ensures Inv(w')
  {
    forall r | r in w'.vouched ensures RowKept(w', r) { assert RowKept(w, r); }
    forall x { BackingKept(w, w', x); }
  }

  lemma SignKeepsInv(w: World, s: Step)
    requires Inv(w) && s.Sign? && Possible(w, s)
    ensures Inv(Next(w, s))
  {
    var w' := Next(w, s);
    LL.StepKeepsCore(w.ledger, s.reserve);
    if Granted(w, s.reserve) {
      var row := w'.ledger.history[|w.ledger.history|];
      assert w'.ledger.history == w.ledger.history + [row] && row.id == s.reserve.id;
      forall id ensures RowState(w'.ledger.history, id) == if id == row.id then Some(L.Reserved) else RowState(w.ledger.history, id) {
        FindAfterAppend(w.ledger.history, row, id);
      }
    }
    forall r | r in w'.vouched ensures RowKept(w', r) { assert RowKept(w, r); }
    forall x { BackingKept(w, w', x); }
  }

  /** Journaling writes at most one record, under a new id. */
  lemma JournalBacks(w: World, s: Step)
    requires Inv(w) && s.Journal? && Possible(w, s)
    ensures var w' := Next(w, s);
            && (forall t :: t in w'.handedOut ==> Vouched(w', t))
            && (forall t :: t in w'.live ==> Backed(w', t))
  {
    var w' := Next(w, s);
    JournalEffect(w, s);
    hide Next, RowKept, LL.Core;
    forall x { BackingKept(w, w', x); }
    if s.result == Written {
      assert w.pc.res in w'.vouched && w'.journal[w.pc.res].txid == w.pc.txid;
    }
  }

  lemma JournalEffect(w: World, s: Step)
    requires Inv(w) && s.Journal? && Possible(w, s)
    ensures var w' := Next(w, s);
            && RecordsKept(w, w') && w'.live == w.live && w'.handedOut <= w.handedOut + {w.pc.txid}
            && (s.result != Written ==> w'.handedOut == w.handedOut)
            && (s.result == Written ==> w.pc.res in w'.vouched && w.pc.res in w'.journal && w'.journal[w.pc.res].txid == w.pc.txid)
  {
  }

  lemma JournalKeepsRows(w: World, s: Step)
    requires Inv(w) && s.Journal? && Possible(w, s)
    ensures forall r :: r in Next(w, s).vouched ==> RowKept(Next(w, s), r)
  {
    var w' := Next(w, s);
    forall r | r in w'.vouched ensures RowKept(w', r) {
      if r != w.pc.res {
        assert RowKept(w, r);
      }
    }
  }

  lemma JournalKeepsRecords(w: World, s: Step)
    requires Inv(w) && s.Journal? && Possible(w, s)
    ensures var w' := Next(w, s);
            && w'.ledger == w.ledger && w'.live == w.live && w'.dead == w.dead
            && (forall r :: r in w'.journal ==>
                  RowState(w'.ledger.history, r).Some? && ((r in w.journal && w'.journal[r] == w.journal[r]) || w'.journal[r].status == Signed))
            && PcFits(w')
  {
  }

  lemma JournalKeepsInv(w: World, s: Step)
    requires Inv(w) && s.Journal? && Possible(w, s)
    ensures Inv(Next(w, s))
  {
    JournalBacks(w, s);
    JournalKeepsRows(w, s);
    JournalKeepsRecords(w, s);
  }

  lemma SubmittingIsBacked(w: World)
    requires Inv(w) && Submitting(w).Some?
    ensures Backed(w, Submitting(w).value)
  {
    match w.pc
    case PsbtFound(x, _) => BackingKept(w, w, x);
    case SendJournaled(r) => assert r in w.vouched && RowKept(w, r);
    case Rebroadcasting(r) => assert r in w.journal && w.journal[r].raw;
  }

  /** Only what backends hold and the place in the operation change. */
  lemma HoldingsKeepInv(w: World, live: set<string>, dead: set<string>, pc: Pc)
    requires Inv(w) && w.live <= live && w.dead <= dead && live !! dead
    requires forall t :: t in live && t !in w.live ==> Backed(w, t)
    requires PcFits(w.(live := live, dead := dead, pc := pc))
    ensures Inv(w.(live := live, dead := dead, pc := pc))
  {
    var w' := w.(live := live, dead := dead, pc := pc);
    forall r | r in w'.vouched ensures RowKept(w', r) { assert RowKept(w, r); }
    forall x { BackingKept(w, w', x); }
  }

  lemma AnsweredFits(w: World, a: Answer)
    requires Inv(w) && Submitting(w).Some?
    ensures var txid := Submitting(w).value;
            PcFits(Submitted(w, txid, a).(pc := Answered(w.pc, txid, a)))
  {
  }

  lemma SubmitKeepsInv(w: World, s: Step)
    requires Inv(w) && s.Submit? && Possible(w, s) && FinalAnswers(w, s)
    ensures Inv(Next(w, s))
  {
    var txid := Submitting(w).value;
    SubmittingIsBacked(w);
    AnsweredFits(w, s.answer);
    var v := Submitted(w, txid, s.answer);
    HoldingsKeepInv(w, v.live, v.dead, Answered(w.pc, txid, s.answer));
    assert Next(w, s) == w.(live := v.live, dead := v.dead, pc := Answered(w.pc, txid, s.answer));
  }

  /** The steps that move a row of the ledger. */
  lemma RowStepKeepsInv(w: World, s: Step)
    requires Inv(w) && Possible(w, s) && FinalAnswers(w, s) && (s.Abort? || s.CommitRow? || s.Refund?)
    ensures Inv(Next(w, s))
  {
    match s
    case Abort(t, writeOk) =>
      PcKeepsInv(w, Idle);
      SettleKeepsInv(w.(pc := Idle), Some(w.pc.res), L.Released, "", t, writeOk);
    case CommitRow(t, writeOk) =>
      var pc := if w.pc.Accepted? then Finishing(w.pc.rec, w.pc.txid, true) else Idle;
      PcKeepsInv(w, pc);
      SettleKeepsInv(w.(pc := pc), w.pc.rec, L.Committed, w.pc.txid, t, writeOk);
    case Refund(t, writeOk) =>
      PcKeepsInv(w, Idle);
      SettleKeepsInv(w.(pc := Idle), w.pc.rec, L.Released, "", t, writeOk);
  }

  predicate SetsStatus(s: Step) { s.MarkBroadcast? || s.MarkFailed? || s.MarkResubmitted? || s.SawConfirmation? }

  /** Where a step that sets a status leads, whose record it changes, to what, and whether that is written. */
  function StatusCall(w: World, s: Step): (Pc, Option<string>, Status, bool)
    requires SetsStatus(s) && Possible(w, s)
  {
    match s
    case MarkBroadcast(ok) => (if w.pc.Accepted? then Finishing(w.pc.rec, w.pc.txid, false) else Idle, w.pc.rec, Broadcast, ok)
    case MarkFailed(ok) => (Refunding(w.pc.rec), w.pc.rec, Failed, ok)
    case MarkResubmitted(ok) => (Idle, Some(w.pc.res), w.pc.status, ok)
    case SawConfirmation(res) => (w.pc, Some(res), Confirmed, true)
  }

  lemma StatusCallIsNext(w: World, s: Step)
    requires SetsStatus(s) && Possible(w, s)
    ensures var (pc, res, status, ok) := StatusCall(w, s); Next(w, s) == SetStatus(w.(pc := pc), res, status, ok)
  {
  }

  lemma StatusCallFits(w: World, s: Step)
    requires SetsStatus(s) && Possible(w, s) && Inv(w)
    ensures var (pc, res, status, ok) := StatusCall(w, s);
            && PcFits(w.(pc := pc))
            && (res.Some? && res.value in w.journal ==>
                  match status
                  case Failed => w.journal[res.value].txid in w.dead
                  case Signed => false
                  case _ => w.journal[res.value].txid in w.live)
  {
  }

  /** The steps that change the status of a journal record. */
  lemma StatusStepKeepsInv(w: World, s: Step)
    requires Inv(w) && Possible(w, s) && SetsStatus(s)
    ensures Inv(Next(w, s))
  {
    var (pc, res, status, ok) := StatusCall(w, s);
    StatusCallIsNext(w, s);
    StatusCallFits(w, s);
    PcKeepsInv(w, pc);
    SetStatusKeepsInv(w.(pc := pc), res, status, ok);
  }

  lemma {:induction false} TracksKeepsUnique(file: seq<L.Entry>, h: seq<L.Entry>, clock: int)
    requires LL.Tracks(file, h, clock) && LL.UniqueIds(h)
    ensures LL.UniqueIds(file)
    ensures forall e :: e in file ==> e in h
    decreases |h|
  {
    if h != [] {
      assert LL.UniqueIds(h[1..]);
      if file != [] && file[0] == h[0] && LL.Tracks(file[1..], h[1..], clock) {
        TracksKeepsUnique(file[1..], h[1..], clock);
        assert file == [file[0]] + file[1..];
        forall j | 0 < j < |file| ensures file[j].id != file[0].id {
          assert file[j] in file[1..];
          var k :| 0 <= k < |h[1..]| && h[1..][k] == file[j];
          assert h[0].id != h[k + 1].id;
        }
      } else {
        TracksKeepsUnique(file, h[1..], clock);
      }
      assert h == [h[0]] + h[1..];
    }
  }

  lemma {:induction false} ReservedIdHasRow(es: seq<L.Entry>, id: string)
    requires id in L.ReservedIds(es)
    ensures exists e :: e in es && e.id == id && e.state == L.Reserved
  {
    if es != [] {
      if es[0].state == L.Reserved && es[0].id == id {
        assert es[0] in es;
      } else {
        ReservedIdHasRow(es[1..], id);
        var e :| e in es[1..] && e.id == id && e.state == L.Reserved;
        assert e in es;
      }
    }
  }

  lemma OrphansAreReserved(w: World, id: string)
    requires LL.Core(w.ledger) && id in L.ReservedIds(w.ledger.file)
    ensures RowState(w.ledger.history, id) == Some(L.Reserved)
  {
    var h := w.ledger.history;
    ReservedIdHasRow(w.ledger.file, id);
    TracksKeepsUnique(w.ledger.file, h, w.ledger.clock);
    var e :| e in w.ledger.file && e.id == id && e.state == L.Reserved;
    var k :| 0 <= k < |h| && h[k] == e;
    LL.FindIsFirst(h, id);
    FindReaches(h, id, k);
  }

  lemma {:induction false} FindReaches(h: seq<L.Entry>, id: string, k: nat)
    requires k < |h| && h[k].id == id
    ensures L.Find(h, id) <= k
  {
    if h[0].id != id {
      FindReaches(h[1..], id, k - 1);
    }
  }

  /** Every step of every operation, a crash included, keeps the invariant. */
  lemma StepKeepsInv(w: World, s: Step)
    requires Inv(w) && Possible(w, s) && FinalAnswers(w, s)
    ensures Inv(Next(w, s))
  {
    if s.Abort? || s.CommitRow? || s.Refund? {
      RowStepKeepsInv(w, s);
    } else if SetsStatus(s) {
      StatusStepKeepsInv(w, s);
    } else if s.Sign? {
      SignKeepsInv(w, s);
    } else if s.Journal? {
      JournalKeepsInv(w, s);
    } else if s.Submit? {
      SubmitKeepsInv(w, s);
    } else if s.Reconcile? {
      ReconcileKeepsInv(w, s);
    } else {
      forall id | s.Open? && id in L.ReservedIds(w.ledger.file) { OrphansAreReserved(w, id); }
      PcKeepsInv(w, Next(w, s).pc);
    }
  }

  lemma PcKeepsInv(w: World, pc: Pc)
    requires Inv(w) && PcFits(w.(pc := pc))
    ensures Inv(w.(pc := pc))
  {
    forall r | r in w.vouched ensures RowKept(w.(pc := pc), r) { assert RowKept(w, r); }
    forall x { BackingKept(w, w.(pc := pc), x); }
  }

  lemma ReconcileKeepsInv(w: World, s: Step)
    requires Inv(w) && s.Reconcile? && Possible(w, s)
    ensures Inv(Next(w, s))
  {
    var w1 := w.(pc := Opening(w.pc.todo - {s.res}));
    PcKeepsInv(w, w1.pc);
    if !s.journalFault {
      if s.res !in w.journal || w.journal[s.res].status == Failed {
        assert s.res in w.vouched ==> RowKept(w, s.res);
        SettleKeepsInv(w1, Some(s.res), L.Released, "", s.t, s.writeOk);
      } else if w.journal[s.res].status != Signed {
        SettleKeepsInv(w1, Some(s.res), L.Committed, w.journal[s.res].txid, s.t, s.writeOk);
      }
    }
  }

  lemma {:induction false} RunKeepsInv(w: World, steps: seq<Step>)
    requires Inv(w) && Always(w, steps, Possible) && Always(w, steps, FinalAnswers)
    ensures Inv(Run(w, steps))
    decreases |steps|
  {
    if steps != [] {
      StepKeepsInv(w, steps[0]);
      RunKeepsInv(Next(w, steps[0]), steps[1..]);
    }
  }

  function Start(clock: int): World { World(LL.World([], [], clock), map[], 0, {}, {}, {}, {}, Down) }

  /** No reservation of the transaction counts. */
  ghost predicate Uncounted(w: World, txid: string) {
    forall r :: r in w.journal && w.journal[r].txid == txid ==> !Counts(RowState(w.ledger.history, r))
  }

  /** Every record of the transaction was left by an append that reported an error, and its row freed. */
  ghost predicate OnlyStaleLines(w: World, txid: string) {
    forall r :: r in w.journal && w.journal[r].txid == txid ==>
      r !in w.vouched && RowState(w.ledger.history, r) == Some(L.Released)
  }

  /** Accepted money stays counted: after any run of signing, sending, broadcasting, rebroadcasting
      and reconciling with crashes anywhere, a reservation signed for without an error keeps its row
      reserved (and then still in the file) or committed once some backend took the transaction. So
      a transaction that was taken goes uncounted exactly when all its records are lines left by
      failed appends whose rows were freed; one of them is then a send's, and its PSBT never left. */
  lemma AcceptedStaysCounted(clock: int, steps: seq<Step>)
    requires Always(Start(clock), steps, Possible) && Always(Start(clock), steps, FinalAnswers)
    ensures var w := Run(Start(clock), steps);
            && (forall r :: r in w.vouched && r in w.journal && w.journal[r].txid in w.live ==> Counts(RowState(w.ledger.history, r)))
            && (forall t :: t in w.live ==> (Uncounted(w, t) <==> OnlyStaleLines(w, t)))
            && (forall t :: t in w.live && Uncounted(w, t) ==>
                  t !in w.handedOut && exists r :: r in w.journal && w.journal[r].txid == t && w.journal[r].raw && r !in w.vouched)
            && (forall i :: 0 <= i < |w.ledger.history| && w.ledger.history[i].state == L.Reserved ==> w.ledger.history[i] in w.ledger.file)
  {
    var w := Run(Start(clock), steps);
    RunKeepsInv(Start(clock), steps);
    LL.PruningIsInvisible(w.ledger);
    VouchedCounts(w);
    forall t | t in w.live ensures Uncounted(w, t) <==> OnlyStaleLines(w, t) {
      if Uncounted(w, t) {
        forall r | r in w.journal && w.journal[r].txid == t
          ensures r !in w.vouched && RowState(w.ledger.history, r) == Some(L.Released)
        {
          assert RowState(w.ledger.history, r).Some?;
        }
      }
    }
    forall t | t in w.live && Uncounted(w, t)
      ensures t !in w.handedOut && exists r :: r in w.journal && w.journal[r].txid == t && w.journal[r].raw && r !in w.vouched
    {
      assert Backed(w, t);
      var r :| r in w.journal && w.journal[r].txid == t && (r in w.vouched || w.journal[r].raw);
      assert t in w.handedOut ==> Vouched(w, t);
    }
  }

  lemma VouchedCounts(w: World)
    requires Inv(w)
    ensures forall r :: r in w.vouched && r in w.journal && w.journal[r].txid in w.live ==> Counts(RowState(w.ledger.history, r))
  {
    forall r | r in w.vouched && r in w.journal && w.journal[r].txid in w.live ensures Counts(RowState(w.ledger.history, r)) {
      assert RowKept(w, r);
    }
  }

  /** A send's records of the transaction are vouched. */
  ghost predicate SendsVouched(w: World, txid: string) {
    forall r :: r in w.journal && w.journal[r].txid == txid && w.journal[r].raw ==> r in w.vouched
  }

  /** Only journaling adds a record, and nothing changes what a record is about. */
  lemma RecordsSame(w: World, s: Step)
    requires Possible(w, s) && !s.Journal?
    ensures Next(w, s).vouched == w.vouched && Next(w, s).journal.Keys == w.journal.Keys
    ensures forall r :: r in w.journal ==>
              Next(w, s).journal[r].txid == w.journal[r].txid && Next(w, s).journal[r].raw == w.journal[r].raw
  {
    match s
    case MarkBroadcast(_) =>
    case MarkFailed(_) =>
    case MarkResubmitted(_) =>
    case SawConfirmation(_) =>
    case _ =>
  }

  lemma StepKeepsSendsVouched(w: World, s: Step, txid: string)
    requires Inv(w) && SendsVouched(w, txid) && Possible(w, s) && CleanSendFor(w, s, txid)
    ensures SendsVouched(Next(w, s), txid)
  {
    if s.Journal? {
      var w' := Next(w, s);
      assert forall r :: r in w'.journal && r != w.pc.res ==> r in w.journal && w'.journal[r] == w.journal[r];
    } else {
      RecordsSame(w, s);
    }
  }

  lemma {:induction false} CleanSendsVouch(w: World, steps: seq<Step>, txid: string)
    requires Inv(w) && SendsVouched(w, txid)
    requires Always(w, steps, Possible) && Always(w, steps, FinalAnswers)
    requires Always(w, steps, (v: World, s: Step) => CleanSendFor(v, s, txid))
    ensures SendsVouched(Run(w, steps), txid)
    decreases |steps|
  {
    if steps != [] {
      StepKeepsInv(w, steps[0]);
      StepKeepsSendsVouched(w, steps[0], txid);
      CleanSendsVouch(Next(w, steps[0]), steps[1..], txid);
    }
  }

  /** A transaction none of whose sends leaves a line by a failed append is counted once taken, under
      a reservation signed for without an error, whatever happens to other transactions. */
  lemma CleanTransactionStaysCounted(clock: int, steps: seq<Step>, txid: string)
    requires Always(Start(clock), steps, Possible) && Always(Start(clock), steps, FinalAnswers)
    requires Always(Start(clock), steps, (v: World, s: Step) => CleanSendFor(v, s, txid))
    ensures var w := Run(Start(clock), steps);
            txid in w.live ==>
              exists r :: r in w.vouched && r in w.journal && w.journal[r].txid == txid && Counts(RowState(w.ledger.history, r))
  {
    var w := Run(Start(clock), steps);
    RunKeepsInv(Start(clock), steps);
    CleanSendsVouch(Start(clock), steps, txid);
    VouchedCounts(w);
    if txid in w.live {
      assert Backed(w, txid);
    }
  }

  // ── the window holds through the protocol ────────────────────────────────────

  /** The call a step makes on the ledger, if any. */
  function LedgerCall(w: World, s: Step): Option<LL.Step> {
    match s
    case Sign(reserve, _, _) => Some(reserve)
    case Abort(t, ok) => if w.pc.SignFailed? then Some(LL.TransitStep(w.pc.res, L.Released, "", t, ok)) else None
    case Refund(t, ok) =>
      if w.pc.Refunding? && w.pc.rec.Some? then Some(LL.TransitStep(w.pc.rec.value, L.Released, "", t, ok)) else None
    case CommitRow(t, ok) =>
      if (w.pc.Accepted? || w.pc.Finishing?) && w.pc.rec.Some?
      then Some(LL.TransitStep(w.pc.rec.value, L.Committed, w.pc.txid, t, ok)) else None
    case Reconcile(res, fault, t, ok) =>
      if fault then None
      else if res !in w.journal || w.journal[res].status == Failed then Some(LL.TransitStep(res, L.Released, "", t, ok))
      else if w.journal[res].status == Signed then None
      else Some(LL.TransitStep(res, L.Committed, w.journal[res].txid, t, ok))
    case _ => None
  }

  /** Every ledger call of the protocol is the ledger's own, and timely. */
  lemma CallIsTimely(w: World, s: Step)
    requires Inv(w) && Possible(w, s)
    ensures match LedgerCall(w, s)
            case Some(c) => LL.Timely(w.ledger, c) && Next(w, s).ledger == LL.Apply(w.ledger, c)
            case None => Next(w, s).ledger == w.ledger
  {
  }

  /** A line left by a failed append, of a transaction whose PSBT was handed out and which some backend took. */
  predicate StaleLine(w: World, r: string) {
    r in w.journal && r !in w.vouched && w.journal[r].txid in w.handedOut && w.journal[r].txid in w.live
  }

  /** The row a commit of the protocol is about, and why it may have been freed. */
  lemma UndisciplinedIsStale(w: World, s: Step)
    requires Inv(w) && Possible(w, s) && LedgerCall(w, s).Some? && !LL.Disciplined(w.ledger, LedgerCall(w, s).value)
    ensures s.CommitRow? && w.pc.rec.Some? && LedgerCall(w, s).value.id == w.pc.rec.value && StaleLine(w, w.pc.rec.value)
  {
    var r := LedgerCall(w, s).value.id;
    LL.FindTracks(w.ledger.file, w.ledger.history, w.ledger.clock, r);
  }

  /** The row a step takes back from released to committed, if any. */
  function RevivedBy(w: World, s: Step): set<string> {
    match LedgerCall(w, s) case Some(c) => LL.Revives(w.ledger, c) case None => {}
  }

  /** The rows a run takes back from released to committed. */
  function Revived(w: World, steps: seq<Step>): set<string>
    decreases |steps|
  {
    if steps == [] then {} else RevivedBy(w, steps[0]) + Revived(Next(w, steps[0]), steps[1..])
  }

  lemma StaleStays(w: World, s: Step, r: string)
    requires Inv(w) && Possible(w, s) && StaleLine(w, r)
    ensures StaleLine(Next(w, s), r)
  {
    HoldingsGrow(w, s);
    if s.Journal? {
      JournalLeavesOthers(w, s, r);
    } else {
      RecordsSame(w, s);
    }
  }

  lemma JournalLeavesOthers(w: World, s: Step, r: string)
    requires s.Journal? && w.pc.SignReserved? && r in w.journal && r != w.pc.res
    ensures r in Next(w, s).journal && Next(w, s).journal[r] == w.journal[r]
    ensures r in Next(w, s).vouched <==> r in w.vouched
  {
  }

  lemma HoldingsGrow(w: World, s: Step)
    requires Possible(w, s)
    ensures w.handedOut <= Next(w, s).handedOut && w.live <= Next(w, s).live
  {
  }

  lemma {:induction false} StaleStaysForRuns(w: World, steps: seq<Step>, r: string)
    requires Inv(w) && Always(w, steps, Possible) && Always(w, steps, FinalAnswers) && StaleLine(w, r)
    ensures StaleLine(Run(w, steps), r)
    decreases |steps|
  {
    if steps != [] {
      StepKeepsInv(w, steps[0]);
      StaleStays(w, steps[0], r);
      StaleStaysForRuns(Next(w, steps[0]), steps[1..], r);
    }
  }

  lemma StepKeepsWindows(w: World, s: Step, out: set<string>, limit: int)
    requires Inv(w) && Possible(w, s) && LL.InvExcept(w.ledger, out, limit)
    requires s.Sign? ==> LL.Limited(s.reserve, limit)
    ensures LL.InvExcept(Next(w, s).ledger, out + RevivedBy(w, s), limit)
    ensures forall r :: r in RevivedBy(w, s) ==> StaleLine(w, r)
  {
    CallIsTimely(w, s);
    var c := LedgerCall(w, s);
    if c.Some? {
      LL.StepKeepsInvExcept(w.ledger, c.value, out, limit);
      if !LL.Disciplined(w.ledger, c.value) {
        UndisciplinedIsStale(w, s);
      }
    } else {
      assert out + {} == out;
    }
  }

  lemma {:induction false} RunKeepsWindows(w: World, steps: seq<Step>, out: set<string>, limit: int)
    requires Inv(w) && LL.InvExcept(w.ledger, out, limit)
    requires Always(w, steps, Possible) && Always(w, steps, FinalAnswers)
    requires forall s :: s in steps && s.Sign? ==> LL.Limited(s.reserve, limit)
    ensures LL.InvExcept(Run(w, steps).ledger, out + Revived(w, steps), limit)
    ensures forall r :: r in Revived(w, steps) ==> StaleLine(Run(w, steps), r)
    decreases |steps|
  {
    if steps == [] {
      assert out + {} == out;
    } else {
      hide Inv, LL.InvExcept, StaleLine, Next, RevivedBy;
      var s, rest := steps[0], steps[1..];
      var w', revived := Next(w, s), RevivedBy(w, s);
      StepKeepsInv(w, s);
      StepKeepsWindows(w, s, out, limit);
      RunKeepsWindows(w', rest, out + revived, limit);
      assert out + revived + Revived(w', rest) == out + Revived(w, steps);
      forall r | r in revived ensures StaleLine(Run(w, steps), r) {
        StaleStays(w, s, r);
        StaleStaysForRuns(w', rest, r);
      }
    }
  }

  /** Through every run of the protocol, crashes and failed appends anywhere, all rows but revived ones
      stay within the day limit in every window; and a revived row belongs to a line that a failed
      append left of a transaction whose PSBT was handed out and which some backend took. So a window
      exceeds the limit by at most what the rows of such lines spend there. */
  lemma WindowsHoldButForStaleLines(clock: int, steps: seq<Step>, limit: int)
    requires Always(Start(clock), steps, Possible) && Always(Start(clock), steps, FinalAnswers)
    requires forall s :: s in steps && s.Sign? ==> LL.Limited(s.reserve, limit)
    ensures var w, revived := Run(Start(clock), steps), Revived(Start(clock), steps);
            && (forall at :: LL.SumExcept(w.ledger.history, revived, at) == 0 || LL.SumExcept(w.ledger.history, revived, at) <= limit)
            && (forall at :: LL.WindowSum(w.ledger.history, at)
                             == LL.SumExcept(w.ledger.history, revived, at) + LL.SumOf(w.ledger.history, revived, at))
            && (forall r :: r in revived ==> StaleLine(w, r))
  {
    var w, revived := Run(Start(clock), steps), Revived(Start(clock), steps);
    RunKeepsWindows(Start(clock), steps, {}, limit);
    assert {} + revived == revived;
    forall at ensures LL.WindowSum(w.ledger.history, at)
                      == LL.SumExcept(w.ledger.history, revived, at) + LL.SumOf(w.ledger.history, revived, at) {
      LL.SumSplits(w.ledger.history, revived, at);
    }
  }

  // ── runs in which no broadcast finds a stale line ────────────────────────────

  /** A PSBT's stale line that a later, vouched record of the same transaction hides from lookups. */
  ghost predicate Hidden(w: World, r: string)
    requires r in w.journal
  {
    && !w.journal[r].raw
    && exists v :: v in w.vouched && v in w.journal && w.journal[v].txid == w.journal[r].txid && w.journal[v].order > w.journal[r].order
  }

  ghost predicate PcOrderly(w: World) {
    match w.pc
    case PsbtFound(_, rec) => rec.Some? ==> rec.value in w.vouched
    case Accepted(rec, _, _) => rec.Some? ==> rec.value in w.vouched
    case Finishing(rec, _, _) => rec.Some? ==> rec.value in w.vouched
    case Rejected(rec) => rec.Some? ==> rec.value in w.vouched
    case _ => true
  }

  /** No broadcast of a PSBT that was handed out finds a stale line. */
  ghost predicate Orderly(w: World) {
    && (forall r :: r in w.journal ==> w.journal[r].order < w.nextOrder)
    && (forall r :: r in w.journal && r !in w.vouched && !w.journal[r].raw ==> w.journal[r].status == Signed)
    && (forall r :: r in w.journal && r !in w.vouched && w.journal[r].txid in w.handedOut ==> Hidden(w, r))
    && PcOrderly(w)
  }

  /** While orderly, no commit of the protocol meets a released row. */
  lemma ProtocolIsDisciplined(w: World, s: Step)
    requires Inv(w) && Orderly(w) && Possible(w, s)
    ensures match LedgerCall(w, s)
            case Some(c) => && LL.Timely(w.ledger, c) && LL.Disciplined(w.ledger, c)
                            && Next(w, s).ledger == LL.Apply(w.ledger, c)
            case None => Next(w, s).ledger == w.ledger
  {
    CallIsTimely(w, s);
    if LedgerCall(w, s).Some? && !LL.Disciplined(w.ledger, LedgerCall(w, s).value) {
      UndisciplinedIsStale(w, s);
      assert PcOrderly(w);
    }
  }

  lemma HiddenKept(w: World, w': World, r: string)
    requires RecordsKept(w, w') && r in w.journal && Hidden(w, r)
    requires w'.journal[r] == w.journal[r]
    requires forall v :: v in w.journal ==> w'.journal[v].order >= w.journal[v].order
    ensures Hidden(w', r)
  {
    var v :| v in w.vouched && v in w.journal && w.journal[v].txid == w.journal[r].txid && w.journal[v].order > w.journal[r].order;
    assert v in w'.vouched && v in w'.journal && w'.journal[v].txid == w'.journal[r].txid && w'.journal[v].order > w'.journal[r].order;
  }

  lemma StatusKeepsOrderly(w: World, res: Option<string>, status: Status, writeOk: bool, pc: Pc)
    requires Orderly(w) && PcOrderly(w.(pc := pc))
    requires res.Some? && res.value in w.journal ==> res.value in w.vouched || w.journal[res.value].raw
    ensures Orderly(SetStatus(w.(pc := pc), res, status, writeOk))
  {
    var w' := SetStatus(w.(pc := pc), res, status, writeOk);
    forall r | r in w'.journal && r !in w'.vouched && w'.journal[r].txid in w'.handedOut ensures Hidden(w', r) {
      assert Hidden(w, r);
      HiddenKept(w, w', r);
    }
  }

  lemma SettleKeepsOrderly(w: World, res: Option<string>, to: L.State, txid: string, t: int, writeOk: bool)
    requires Orderly(w)
    ensures Orderly(Settle(w, res, to, txid, t, writeOk))
  {
    var w' := Settle(w, res, to, txid, t, writeOk);
    forall r | r in w'.journal && r !in w'.vouched && w'.journal[r].txid in w'.handedOut ensures Hidden(w', r) {
      assert Hidden(w, r);
      HiddenKept(w, w', r);
    }
  }

  /** Adding a record under a new id: vouched, or of a transaction not handed out. */
  lemma RecordKeepsOrderly(w: World, w': World, res: string, t: Record)
    requires Orderly(w) && res !in w.journal && PcOrderly(w')
    requires w'.journal == w.journal[res := t] && t.order == w.nextOrder && w'.nextOrder == w.nextOrder + 1 && t.status == Signed
    requires w.vouched <= w'.vouched <= w.vouched + {res}
    requires w.handedOut <= w'.handedOut <= w.handedOut + {t.txid}
    requires res !in w'.vouched ==> t.txid !in w'.handedOut
    requires t.txid in w'.handedOut && t.txid !in w.handedOut ==>
               forall r :: r in w.journal && w.journal[r].txid == t.txid && w.journal[r].raw ==> r in w.vouched
    ensures Orderly(w')
  {
    forall r | r in w'.journal && r !in w'.vouched && w'.journal[r].txid in w'.handedOut ensures Hidden(w', r) {
      if w.journal[r].txid in w.handedOut {
        assert Hidden(w, r);
        HiddenKept(w, w', r);
      } else {
        assert res in w'.vouched && w'.journal[res].order > w'.journal[r].order;
      }
    }
  }

  lemma JournalKeepsOrderly(w: World, s: Step)
    requires Inv(w) && Orderly(w) && s.Journal? && Possible(w, s) && CleanRepeats(w, s)
    ensures Orderly(Next(w, s))
  {
    if s.result == NotWritten {
      PcKeepsOrderly(w, Next(w, s));
    } else {
      RecordKeepsOrderly(w, Next(w, s), w.pc.res, Record(w.pc.txid, Signed, w.pc.raw, w.nextOrder));
    }
  }

  lemma LookupIsOrderly(w: World, txid: string, r: string)
    requires Orderly(w) && txid in w.handedOut && LatestFor(w.journal, txid, r)
    ensures r in w.vouched
  {
  }

  lemma PcKeepsOrderly(w: World, w': World)
    requires Orderly(w) && PcOrderly(w')
    requires w'.journal == w.journal && w'.nextOrder == w.nextOrder && w'.vouched == w.vouched && w'.handedOut == w.handedOut
    ensures Orderly(w')
  {
    forall r | r in w'.journal && r !in w'.vouched && w'.journal[r].txid in w'.handedOut ensures Hidden(w', r) {
      assert Hidden(w, r);
      HiddenKept(w, w', r);
    }
  }

  lemma RowStepKeepsOrderly(w: World, s: Step)
    requires Inv(w) && Orderly(w) && Possible(w, s) && (s.Abort? || s.CommitRow? || s.Refund?)
    ensures Orderly(Next(w, s))
  {
    match s
    case Abort(t, ok) =>
      PcKeepsOrderly(w, w.(pc := Idle));
      SettleKeepsOrderly(w.(pc := Idle), Some(w.pc.res), L.Released, "", t, ok);
    case CommitRow(t, ok) =>
      var pc := if w.pc.Accepted? then Finishing(w.pc.rec, w.pc.txid, true) else Idle;
      PcKeepsOrderly(w, w.(pc := pc));
      SettleKeepsOrderly(w.(pc := pc), w.pc.rec, L.Committed, w.pc.txid, t, ok);
    case Refund(t, ok) =>
      PcKeepsOrderly(w, w.(pc := Idle));
      SettleKeepsOrderly(w.(pc := Idle), w.pc.rec, L.Released, "", t, ok);
  }

  lemma StatusStepKeepsOrderly(w: World, s: Step)
    requires Inv(w) && Orderly(w) && Possible(w, s) && SetsStatus(s)
    ensures Orderly(Next(w, s))
  {
    var (pc, res, status, ok) := StatusCall(w, s);
    StatusCallIsNext(w, s);
    assert PcOrderly(w.(pc := pc));
    StatusKeepsOrderly(w, res, status, ok, pc);
  }

  lemma SubmitKeepsOrderly(w: World, s: Step)
    requires Inv(w) && Orderly(w) && Possible(w, s) && s.Submit?
    ensures Orderly(Next(w, s))
  {
    PcKeepsOrderly(w, Next(w, s));
  }

  lemma StepKeepsOrderly(w: World, s: Step)
    requires Inv(w) && Orderly(w) && Possible(w, s) && CleanRepeats(w, s)
    ensures Orderly(Next(w, s))
  {
    if s.Abort? || s.CommitRow? || s.Refund? {
      RowStepKeepsOrderly(w, s);
    } else if SetsStatus(s) {
      StatusStepKeepsOrderly(w, s);
    } else if s.Journal? {
      JournalKeepsOrderly(w, s);
    } else if s.Reconcile? {
      ReconcileKeepsOrderly(w, s);
    } else if s.Submit? {
      SubmitKeepsOrderly(w, s);
    } else {
      if s.PsbtLookup? && s.found.Some? {
        LookupIsOrderly(w, s.txid, s.found.value);
      }
      PcKeepsOrderly(w, Next(w, s));
    }
  }

  lemma ReconcileKeepsOrderly(w: World, s: Step)
    requires Inv(w) && Orderly(w) && s.Reconcile? && Possible(w, s)
    ensures Orderly(Next(w, s))
  {
    var w1 := w.(pc := Opening(w.pc.todo - {s.res}));
    PcKeepsOrderly(w, w1);
    if !s.journalFault {
      if s.res !in w.journal || w.journal[s.res].status == Failed {
        SettleKeepsOrderly(w1, Some(s.res), L.Released, "", s.t, s.writeOk);
      } else if w.journal[s.res].status != Signed {
        SettleKeepsOrderly(w1, Some(s.res), L.Committed, w.journal[s.res].txid, s.t, s.writeOk);
      }
    }
  }

  lemma {:induction false} OrderlyRevivesNone(w: World, steps: seq<Step>)
    requires Inv(w) && Orderly(w)
    requires Always(w, steps, Possible) && Always(w, steps, FinalAnswers) && Always(w, steps, CleanRepeats)
    ensures Revived(w, steps) == {}
    decreases |steps|
  {
    if steps != [] {
      ProtocolIsDisciplined(w, steps[0]);
      StepKeepsOrderly(w, steps[0]);
      StepKeepsInv(w, steps[0]);
      OrderlyRevivesNone(Next(w, steps[0]), steps[1..]);
    }
  }

  /** Then every window holds: the spending of every 24 hours stays within the day limit. */
  lemma WindowHoldsThroughTheProtocol(w: World, steps: seq<Step>, limit: int)
    requires Inv(w) && Orderly(w) && LL.Inv(w.ledger, limit)
    requires Always(w, steps, Possible) && Always(w, steps, FinalAnswers) && Always(w, steps, CleanRepeats)
    requires forall s :: s in steps && s.Sign? ==> LL.Limited(s.reserve, limit)
    ensures LL.Inv(Run(w, steps).ledger, limit)
  {
    LL.SafeIsExceptNone(w.ledger.history, limit);
    RunKeepsWindows(w, steps, {}, limit);
    OrderlyRevivesNone(w, steps);
    assert {} + Revived(w, steps) == {};
    LL.SafeIsExceptNone(Run(w, steps).ledger.history, limit);
  }
}
