/** The journal file keeps the records the settlement protocol speaks of. */
module JournalLink {
  import opened Base
  import J = Journal
  import S = JournalStore
  import T = Settlement

  /** Where a file's record says which reservation it belongs to and whether it carries the bytes. */
  datatype Fields = Fields(reservation: string -> string, raw: string -> bool)

  /** The protocol's status; a replaced record has none. */
  function StatusOf(s: J.Status): Option<T.Status> {
    match s
    case Signed => Some(T.Signed)
    case Broadcast => Some(T.Broadcast)
    case Confirmed => Some(T.Confirmed)
    case Failed => Some(T.Failed)
    case Replaced => None
  }

  function ReservationOf(f: Fields, r: J.Record): string { f.reservation(r.payload) }

  /** The file's record as the protocol sees it; line numbers start at 1, orders at 0. */
  predicate Shows(f: Fields, r: J.Record, t: T.Record) {
    r.seqNo >= 1 && StatusOf(r.status).Some? && t == T.Record(r.txid, StatusOf(r.status).value, f.raw(r.payload), r.seqNo - 1)
  }

  /** The latest records on file are the protocol's, one for each reservation. */
  ghost predicate Represents(f: Fields, view: map<string, J.Record>, maxSeq: nat, journal: map<string, T.Record>, nextOrder: nat) {
    && nextOrder == maxSeq
    && (forall id :: id in view ==> ReservationOf(f, view[id]) in journal && Shows(f, view[id], journal[ReservationOf(f, view[id])]))
    && (forall id, other :: id in view && other in view && id != other ==> ReservationOf(f, view[id]) != ReservationOf(f, view[other]))
    && (forall res :: res in journal ==> exists id :: id in view && ReservationOf(f, view[id]) == res)
  }

  ghost predicate FileRepresents(f: Fields, c: J.Codec, file: string, w: T.World) {
    Represents(f, J.View(c, file), J.MaxSeq(J.Records(c, file)), w.journal, w.nextOrder)
  }

  /** A record set in both under one reservation. */
  lemma SetRepresents(f: Fields, view: map<string, J.Record>, maxSeq: nat, journal: map<string, T.Record>, nextOrder: nat,
                      id: string, r: J.Record, t: T.Record)
    requires Represents(f, view, maxSeq, journal, nextOrder)
    requires r.seqNo == maxSeq + 1 && Shows(f, r, t)
    requires if id in view then ReservationOf(f, view[id]) == ReservationOf(f, r) else ReservationOf(f, r) !in journal
    ensures Represents(f, view[id := r], r.seqNo, journal[ReservationOf(f, r) := t], nextOrder + 1)
  {
    var res := ReservationOf(f, r);
    var view', journal' := view[id := r], journal[res := t];
    forall x | x in journal' ensures exists k :: k in view' && ReservationOf(f, view'[k]) == x {
      if x == res {
        assert id in view';
      } else {
        var k :| k in view && ReservationOf(f, view[k]) == x;
        assert k in view' && view'[k] == view[k];
      }
    }
  }

  lemma JournalingEffect(w: T.World, result: T.Append)
    requires w.pc.SignReserved?
    ensures var v := T.Next(w, T.Journal(result));
            if result == T.NotWritten then v.journal == w.journal && v.nextOrder == w.nextOrder
            else v.journal == w.journal[w.pc.res := T.Record(w.pc.txid, T.Signed, w.pc.raw, w.nextOrder)] && v.nextOrder == w.nextOrder + 1
  {
  }

  /** An append is a journaling step: acknowledged it is `Written`; otherwise its line is on file,
      as after `Written` or `WrittenButFailed`, or nothing has changed. */
  lemma AppendIsJournaling(f: Fields, c: J.Codec, was: string, now: string, out: J.Record, w: T.World)
    requires w.pc.SignReserved? && w.pc.res !in w.journal && FileRepresents(f, c, was, w)
    requires out.id !in J.View(c, was) && out.seqNo == J.MaxSeq(J.Records(c, was)) + 1 && out.status == J.Signed
    requires ReservationOf(f, out) == w.pc.res && f.raw(out.payload) == w.pc.raw && out.txid == w.pc.txid
    requires S.Stepped(c, was, now, out)
    ensures || FileRepresents(f, c, now, T.Next(w, T.Journal(T.NotWritten)))
            || (&& FileRepresents(f, c, now, T.Next(w, T.Journal(T.Written)))
                && FileRepresents(f, c, now, T.Next(w, T.Journal(T.WrittenButFailed))))
    ensures S.Landed(c, was, now, out) ==> FileRepresents(f, c, now, T.Next(w, T.Journal(T.Written)))
  {
    JournalingEffect(w, T.NotWritten);
    JournalingEffect(w, T.Written);
    JournalingEffect(w, T.WrittenButFailed);
    var t := T.Record(w.pc.txid, T.Signed, w.pc.raw, w.nextOrder);
    SetRepresents(f, J.View(c, was), J.MaxSeq(J.Records(c, was)), w.journal, w.nextOrder, out.id, out, t);
    var journal := w.journal[w.pc.res := t];
    var none, some, failed := T.Next(w, T.Journal(T.NotWritten)), T.Next(w, T.Journal(T.Written)), T.Next(w, T.Journal(T.WrittenButFailed));
    hide T.Next, J.Records, J.View, J.MaxSeq, J.StrictlyIncreasing, Represents;
    if Became(c, was, now, out) {
      Carried(f, c, now, journal, w.nextOrder + 1, some);
      Carried(f, c, now, journal, w.nextOrder + 1, failed);
    } else {
      Carried(f, c, now, w.journal, w.nextOrder, none);
    }
  }

  ghost predicate Became(c: J.Codec, was: string, now: string, out: J.Record) {
    J.View(c, now) == J.View(c, was)[out.id := out] && J.MaxSeq(J.Records(c, now)) == out.seqNo
  }

  lemma Carried(f: Fields, c: J.Codec, file: string, journal: map<string, T.Record>, nextOrder: nat, v: T.World)
    requires Represents(f, J.View(c, file), J.MaxSeq(J.Records(c, file)), journal, nextOrder)
    requires v.journal == journal && v.nextOrder == nextOrder
    ensures FileRepresents(f, c, file, v)
  {
  }

  /** A transition of a record is the protocol's, all of it or nothing. */
  lemma SetStateIsStatus(f: Fields, c: J.Codec, was: string, now: string, id: string, m: J.Mutation, time: string,
                         w: T.World, status: T.Status)
    requires FileRepresents(f, c, was, w) && id in J.View(c, was)
    requires m.status.Some? && StatusOf(m.status.value) == Some(status)
    requires m.txid.Some? ==> m.txid.value == J.View(c, was)[id].txid
    requires S.Stepped(c, was, now, S.Moved(c, was, id, m, time))
    ensures var res := Some(ReservationOf(f, J.View(c, was)[id]));
            && (FileRepresents(f, c, now, T.SetStatus(w, res, status, false)) || FileRepresents(f, c, now, T.SetStatus(w, res, status, true)))
            && (S.Landed(c, was, now, S.Moved(c, was, id, m, time)) ==> FileRepresents(f, c, now, T.SetStatus(w, res, status, true)))
  {
    var view, next := J.View(c, was), S.Moved(c, was, id, m, time);
    var maxSeq := J.MaxSeq(J.Records(c, was));
    MovedIs(c, was, id, m, time);
    var res := ReservationOf(f, view[id]);
    var t := w.journal[res].(status := status, order := w.nextOrder);
    assert Shows(f, view[id], w.journal[res]);
    SetRepresents(f, view, maxSeq, w.journal, w.nextOrder, id, next, t);
    if J.View(c, now) == view[id := next] && J.MaxSeq(J.Records(c, now)) == next.seqNo {
      assert Represents(f, J.View(c, now), J.MaxSeq(J.Records(c, now)), w.journal[res := t], w.nextOrder + 1);
    } else {
      assert Represents(f, J.View(c, now), J.MaxSeq(J.Records(c, now)), w.journal, w.nextOrder);
    }
  }

  /** A transition writes a record of the same id under the next number, with the fields named changed
      and all others kept. */
  lemma MovedIs(c: J.Codec, was: string, id: string, m: J.Mutation, time: string)
    requires id in J.View(c, was)
    ensures var next, r := S.Moved(c, was, id, m, time), J.View(c, was)[id];
            && next.v == r.v && next.id == id && next.wallet == r.wallet && next.payload == r.payload
            && next.seqNo == J.MaxSeq(J.Records(c, was)) + 1 && next.ts == time
            && next.txid == (if m.txid.Some? then m.txid.value else r.txid)
            && next.status == (if m.status.Some? then m.status.value else r.status)
            && next.confirmations == (if m.confirmations.Some? then m.confirmations.value else r.confirmations)
            && next.blockHeight == (if m.blockHeight.Some? then m.blockHeight.value else r.blockHeight)
            && next.error == (if m.error.Some? then m.error else r.error)
            && next.replacedBy == (if m.replacedBy.Some? then m.replacedBy.value else r.replacedBy)
  {
    J.FoldIsLatest(J.Records(c, was));
  }

  /** Looking a transaction up in the file finds the protocol's latest record of it. */
  lemma LookupIsLatest(f: Fields, view: map<string, J.Record>, maxSeq: nat, journal: map<string, T.Record>, nextOrder: nat,
                       txid: string, found: Option<J.Record>)
    requires Represents(f, view, maxSeq, journal, nextOrder) && txid != "" && S.LatestWith(view, txid, found)
    ensures match found
            case Some(r) => T.LatestFor(journal, txid, ReservationOf(f, r))
            case None => forall res :: res in journal ==> journal[res].txid != txid
  {
    forall res | res in journal && journal[res].txid == txid
      ensures found.Some? && journal[res].order <= found.value.seqNo - 1
    {
      var id :| id in view && ReservationOf(f, view[id]) == res;
      assert view[id].txid == txid;
    }
  }
}
