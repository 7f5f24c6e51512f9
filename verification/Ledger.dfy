/** The rolling-24h spend ledger of one network (internal/policy/engine.go, counter.go). */
module Ledger {
  import opened Base
  import P = Policies

  datatype State = Reserved | Committed | Released

  /** A row's timestamp as read back from disk. */
  datatype Stamp = At(ns: int) | Garbled

  /** One row. `sat` is None when the stored amount does not parse. */
  datatype Entry = Entry(id: string, ts: Stamp, sat: Option<int>, state: State, hash: string)

  predicate Aged(e: Entry, now: int) { e.ts.At? && e.ts.ns <= now - P.DAY }

  /** What a row adds to the window ending at `now`. */
  function Counted(e: Entry, now: int, exclude: string): int {
    if e.id == exclude || e.state == Released || Aged(e, now) || e.sat.None? then 0 else e.sat.value
  }

  function SumWindow(es: seq<Entry>, now: int, exclude: string): int {
    if es == [] then 0 else Counted(es[0], now, exclude) + SumWindow(es[1..], now, exclude)
  }

  /** Released rows go once aged or unreadable, committed rows once aged, reserved rows never. */
  predicate Keeps(e: Entry, now: int) {
    if e.state == Released then !(Aged(e, now) || e.ts.Garbled?)
    else !Aged(e, now) || e.state == Reserved
  }

  function Prune(es: seq<Entry>, now: int): seq<Entry> {
    if es == [] then [] else (if Keeps(es[0], now) then [es[0]] else []) + Prune(es[1..], now)
  }

  /** The position of the first row with this id, or the length of the list. */
  function Find(es: seq<Entry>, id: string): (i: nat)
    ensures i <= |es|
  {
    if es == [] || es[0].id == id then 0 else 1 + Find(es[1..], id)
  }

  function Moved(e: Entry, to: State, txid: string): Entry {
    e.(state := to, hash := if txid != "" then txid else e.hash)
  }

  /** A transition, before pruning: unknown ids and committed-to-released change nothing. */
  function Shifted(es: seq<Entry>, id: string, to: State, txid: string): seq<Entry> {
    var i := Find(es, id);
    if i == |es| || (es[i].state == Committed && to == Released) then es
    else es[i := Moved(es[i], to, txid)]
  }

  /** Whether a transition rewrites the file (and so prunes it). */
  predicate Rewrites(es: seq<Entry>, id: string, to: State) {
    var i := Find(es, id);
    i < |es| && !(es[i].state == Committed && to == Released)
  }

  function Transition(es: seq<Entry>, id: string, to: State, txid: string, now: int): seq<Entry> {
    if Rewrites(es, id, to) then Prune(Shifted(es, id, to, txid), now) else es
  }

  function NewRow(id: string, now: int, charge: int): Entry { Entry(id, At(now), Some(charge), Reserved, "") }

  datatype Reply = Granted | Denied(d: P.Decision) | WriteFailed

  // ── the counter file, edited in place ────────────────────────────────────────

  /** One network's counter file. Every method runs under the network's lock, so calls of
      concurrent lockers interleave only as whole calls. `history` is every row ever
      reserved, in order, with its latest state. */
  class Counter {
    var entries: seq<Entry>
    ghost var history: seq<Entry>

    constructor ()
      ensures entries == [] && history == []
    {
      entries, history := [], [];
    }

    method Sum(now: int, exclude: string) returns (total: int)
      ensures total == SumWindow(entries, now, exclude)
    {
      total := 0;
      for i := 0 to |entries|
        invariant total + SumWindow(entries[i..], now, exclude) == SumWindow(entries, now, exclude)
      {
        var e := entries[i];
        if e.id == exclude {
          continue;
        }
        if e.state == Released {
          continue;
        }
        if e.ts.At? && e.ts.ns <= now - P.DAY {
          continue;
        }
        if e.sat.None? {
          continue;
        }
        total := total + e.sat.value;
      }
    }

    /** Prunes and writes; a failed write leaves the file as it was. */
    method Write(rows: seq<Entry>, now: int, writeOk: bool)
      modifies this`entries
      ensures entries == if writeOk then Prune(rows, now) else old(entries)
    {
      var kept := [];
      for i := 0 to |rows|
        invariant kept + Prune(rows[i..], now) == Prune(rows, now)
      {
        var e := rows[i];
        var aged := e.ts.At? && e.ts.ns <= now - P.DAY;
        if e.state == Released {
          if aged || e.ts.Garbled? {
            continue;
          }
        }
        if aged && e.state != Reserved {
          continue;
        }
        kept := kept + [e];
      }
      assert kept == Prune(rows, now);
      if writeOk {
        entries := kept;
      }
    }

    method FindEntry(id: string) returns (i: nat)
      ensures i == Find(entries, id)
    {
      i := 0;
      while i < |entries| && entries[i].id != id
        invariant i <= |entries| && i + Find(entries[i..], id) == Find(entries, id)
      {
        i := i + 1;
      }
    }

    /** Sums, evaluates and appends a reserved row, reading the clock three times. */
    method Reserve(policy: P.Policy, req: P.Check, id: string, t1: int, t2: int, t3: int, writeOk: bool) returns (r: Reply)
      modifies this
      ensures var d := P.Evaluate(policy, req, SumWindow(old(entries), t1, ""), t2);
              var charge := req.amount + req.fee - req.priorSpent;
              var row := Entry(id, At(t3), Some(if charge < 0 then 0 else charge), Reserved, "");
              && r == (if d != P.Allowed then Denied(d) else if writeOk then Granted else WriteFailed)
              && entries == (if r == Granted then Prune(old(entries) + [row], t3) else old(entries))
              && history == (if r == Granted then old(history) + [row] else old(history))
    {
      var spent := Sum(t1, "");
      var d := P.Judge(policy, req, spent, t2);
      if d != P.Allowed {
        return Denied(d);
      }
      var row := NewRow(id, t3, P.WindowCharge(req));
      Write(entries + [row], t3, writeOk);
      if !writeOk {
        return WriteFailed;
      }
      history := history + [row];
      return Granted;
    }

    /** Commit and Release of a reservation, and of an orphan. */
    method Transit(id: string, to: State, txid: string, now: int, writeOk: bool)
      modifies this
      ensures entries == if writeOk then Transition(old(entries), id, to, txid, now) else old(entries)
      ensures history == if writeOk && Rewrites(old(entries), id, to)
                         then Shifted(old(history), id, to, txid) else old(history)
    {
      var i := FindEntry(id);
      if i == |entries| {
        return;
      }
      if entries[i].state == Committed && to == Released {
        return;
      }
      if writeOk {
        history := Shifted(history, id, to, txid);
      }
      Write(entries[i := Moved(entries[i], to, txid)], now, writeOk);
    }

    /** The operator's release of a stuck reservation; false when refused. */
    method ReleaseReservation(id: string, now: int, writeOk: bool) returns (ok: bool)
      modifies this
      ensures var i := Find(old(entries), id);
              var frees := i < |old(entries)| && old(entries)[i].state == Reserved;
              && ok == (i < |old(entries)| && old(entries)[i].state != Committed && (frees ==> writeOk))
              && entries == (if frees && writeOk then Transition(old(entries), id, Released, "", now) else old(entries))
              && history == (if frees && writeOk then Shifted(old(history), id, Released, "") else old(history))
    {
      var i := FindEntry(id);
      if i == |entries| {
        return false;
      }
      match entries[i].state
      case Committed => return false;
      case Released => return true;
      case Reserved =>
        if writeOk {
          history := Shifted(history, id, Released, "");
        }
        Write(entries[i := Moved(entries[i], Released, "")], now, writeOk);
        return writeOk;
    }

    /** The ids of every still-reserved row, for reconciliation at open. */
    method Orphans() returns (ids: seq<string>)
      ensures ids == ReservedIds(entries)
    {
      ids := [];
      for i := 0 to |entries|
        invariant ids + ReservedIds(entries[i..]) == ReservedIds(entries)
      {
        if entries[i].state == Reserved {
          ids := ids + [entries[i].id];
        }
      }
    }
  }

  function ReservedIds(es: seq<Entry>): seq<string> {
    if es == [] then [] else (if es[0].state == Reserved then [es[0].id] else []) + ReservedIds(es[1..])
  }
}
