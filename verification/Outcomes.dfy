/** What operations that nothing disturbs make of the records and the rows (internal/service/psbt.go, policy.go). */
module Outcomes {
  import opened Base
  import opened Settlement
  import L = Ledger
  import LL = LedgerLaws

  // ── broadcasting ─────────────────────────────────────────────────────────────

  /** The record found for a transaction: the one written last of those that name it. */
  ghost predicate Found(journal: map<string, Record>, txid: string, rec: Option<string>) {
    match rec
    case None => forall r :: r in journal ==> journal[r].txid != txid
    case Some(x) =>
      && x in journal && journal[x].txid == txid
      && forall r :: r in journal && journal[r].txid == txid ==> journal[r].order <= journal[x].order
  }

  /** An answer settled against the record found, all writes working. */
  function Settled(w: World, rec: Option<string>, txid: string, answer: Answer, t: int): World {
    match answer
    case Exhausted(_) => w
    case Accept => Settle(SetStatus(w, rec, Broadcast, true), rec, L.Committed, txid, t, true)
    case Reject => Settle(SetStatus(w, rec, Failed, true), rec, L.Released, "", t, true)
  }

  /** Settling looks at neither what backends hold nor where the operation is. */
  lemma SettledElsewhere(w: World, v: World, rec: Option<string>, txid: string, answer: Answer, t: int)
    requires v == w.(live := v.live, dead := v.dead, pc := v.pc)
    ensures Settled(v, rec, txid, answer, t) == Settled(w, rec, txid, answer, t).(live := v.live, dead := v.dead, pc := v.pc)
  {
    hide LL.Apply;
  }

  lemma NothingSettled(w: World, rec: Option<string>, txid: string, answer: Answer, t: int)
    requires answer.Exhausted?
    ensures Settled(w, rec, txid, answer, t) == w
  {
  }

  /** Only the record of `r` changed: it has the status now. */
  ghost predicate Recorded(was: map<string, Record>, now: map<string, Record>, r: string, status: Status) {
    && r in was && now.Keys == was.Keys
    && now[r].status == status && now[r].txid == was[r].txid && now[r].raw == was[r].raw
    && forall k :: k in was && k != r ==> now[k] == was[k]
  }

  /** Only the row of `r` changed: reserved before, it is in the state now; committed, it stays so. */
  ghost predicate RowMoved(was: seq<L.Entry>, now: seq<L.Entry>, r: string, to: L.State) {
    && (RowState(was, r) == Some(L.Reserved) ==> RowState(now, r) == Some(to))
    && (RowState(was, r) == Some(L.Committed) ==> RowState(now, r) == Some(L.Committed))
    && forall id :: id != r ==> RowState(now, id) == RowState(was, id)
  }

  /** What a broadcast leaves: accepted, the record found is broadcast and its row committed; rejected,
      the record is failed and its row released; with no answer, or no record, both are as they were. */
  ghost predicate BroadcastDone(journal: map<string, Record>, rows: seq<L.Entry>, journal': map<string, Record>, rows': seq<L.Entry>,
                                rec: Option<string>, answer: Answer) {
    if rec.None? || answer.Exhausted? then journal' == journal && rows' == rows
    else if answer.Accept? then Recorded(journal, journal', rec.value, Broadcast) && RowMoved(rows, rows', rec.value, L.Committed)
    else Recorded(journal, journal', rec.value, Failed) && RowMoved(rows, rows', rec.value, L.Released)
  }

  lemma SettleMoves(w: World, res: string, to: L.State, txid: string, t: int)
    requires LL.Core(w.ledger) && w.ledger.clock <= t && to != L.Reserved
    ensures RowMoved(w.ledger.history, Settle(w, Some(res), to, txid, t, true).ledger.history, res, to)
  {
    SettleEffect(w, res, to, txid, t, true);
    LL.FindTracks(w.ledger.file, w.ledger.history, w.ledger.clock, res);
    FindAfterShift(w.ledger.history, res, to, txid, res);
  }

  lemma SettledIs(w: World, rec: Option<string>, txid: string, answer: Answer, t: int)
    requires Inv(w) && w.ledger.clock <= t && Found(w.journal, txid, rec)
    ensures var w' := Settled(w, rec, txid, answer, t);
            BroadcastDone(w.journal, w.ledger.history, w'.journal, w'.ledger.history, rec, answer)
  {
    if rec.Some? && !answer.Exhausted? {
      var status, to := if answer.Accept? then Broadcast else Failed, if answer.Accept? then L.Committed else L.Released;
      var w1 := SetStatus(w, rec, status, true);
      SettleMoves(w1, rec.value, to, if answer.Accept? then txid else "", t);
    }
  }

  // ── reconciling ──────────────────────────────────────────────────────────────

  /** What reconciliation makes of a reserved row: freed when no record or a failed one names it,
      committed when its transaction was broadcast or confirmed, left alone when it is merely signed. */
  function Fate(journal: map<string, Record>, id: string): L.State {
    if id !in journal || journal[id].status == Failed then L.Released
    else if journal[id].status == Signed then L.Reserved
    else L.Committed
  }

  /** Each of these reserved rows met its fate and no other row changed. */
  ghost predicate MetFate(journal: map<string, Record>, rows: seq<L.Entry>, rows': seq<L.Entry>, left: set<string>) {
    forall id :: RowState(rows', id)
              == if RowState(rows, id) == Some(L.Reserved) && id !in left then Some(Fate(journal, id)) else RowState(rows, id)
  }

  lemma {:induction false} ReservedIsListed(es: seq<L.Entry>, e: L.Entry)
    requires e in es && e.state == L.Reserved
    ensures e.id in L.ReservedIds(es)
  {
    if es[0] != e {
      assert e in es[1..];
      ReservedIsListed(es[1..], e);
    }
  }

  /** Every reserved row is an orphan at open, so none has met its fate yet. */
  lemma NoneYet(w: World, left: set<string>)
    requires Inv(w) && left == set id | id in L.ReservedIds(w.ledger.file)
    ensures MetFate(w.journal, w.ledger.history, w.ledger.history, left)
  {
    var h := w.ledger.history;
    forall id | RowState(h, id) == Some(L.Reserved) ensures id in left {
      LL.FindTracks(w.ledger.file, h, w.ledger.clock, id);
      LL.FindIsFirst(h, id);
      ReservedIsListed(w.ledger.file, h[L.Find(h, id)]);
    }
  }

  lemma ReconciledIs(w: World, id: string, t: int)
    requires LL.Core(w.ledger) && w.ledger.clock <= t && RowState(w.ledger.history, id) == Some(L.Reserved)
    ensures var w' := Reconciled(w, id, false, t, true);
            && w'.journal == w.journal && RowState(w'.ledger.history, id) == Some(Fate(w.journal, id))
            && forall other :: other != id ==> RowState(w'.ledger.history, other) == RowState(w.ledger.history, other)
  {
    hide LL.Core, LL.Apply, RowState;
    var to := Fate(w.journal, id);
    if to == L.Committed {
      SettleMoves(w, id, to, w.journal[id].txid, t);
    } else if to == L.Released {
      SettleMoves(w, id, to, "", t);
    }
  }

  /** One more orphan meets its fate. */
  lemma OneMore(w: World, rows: seq<L.Entry>, id: string, left: set<string>, t: int)
    requires Inv(w) && w.ledger.clock <= t && id in left && RowState(w.ledger.history, id) == Some(L.Reserved)
    requires MetFate(w.journal, rows, w.ledger.history, left)
    ensures var w' := Reconciled(w, id, false, t, true);
            w'.journal == w.journal && MetFate(w.journal, rows, w'.ledger.history, left - {id})
  {
    ReconciledIs(w, id, t);
    hide Reconciled, RowState, Fate;
  }
}
