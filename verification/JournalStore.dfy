/** The journal's operations on one file, with writes that can fail, die or be torn
    (internal/journal/store.go, store_jsonl.go). */
module JournalStore {
  import opened Base
  import opened Orders
  import opened Lines
  import opened Journal

  const RECORD_VERSION := 1
  const MAX_SUPERSEDED := 5000
  const MAX_SIZE := 0x80_0000 // 8 MiB

  /** What an operation meets. A torn append leaves its first bytes in the file; a torn replacement
      of the whole file leaves the old one. */
  datatype Fault = Fine | Fails | Dies | Torn(bytes: nat)

  datatype Outcome = Ok | NotFound | NoId | Stopped(f: Fault)

  /** The record an append writes: the schema version, an id and a time are filled in if missing. */
  function Filled(r: Record, freshId: string, now: string, seqNo: nat): Record {
    r.(v := if r.v == 0 then RECORD_VERSION else r.v, id := if r.id == "" then freshId else r.id,
       ts := if r.ts == "" then now else r.ts, seqNo := seqNo)
  }

  /** One mutation seen from outside: all of it or nothing, numbers still rising. */
  ghost predicate Stepped(c: Codec, was: string, now: string, next: Record) {
    && (|| (View(c, now) == View(c, was) && MaxSeq(Records(c, now)) == MaxSeq(Records(c, was)))
        || (View(c, now) == View(c, was)[next.id := next] && MaxSeq(Records(c, now)) == next.seqNo))
    && (StrictlyIncreasing(Records(c, was)) ==> StrictlyIncreasing(Records(c, now)))
  }

  ghost predicate Landed(c: Codec, was: string, now: string, next: Record) {
    && View(c, now) == View(c, was)[next.id := next] && MaxSeq(Records(c, now)) == next.seqNo
    && Tail(now) == "" && |Records(c, now)| - |View(c, now)| < 5000
  }

  /** A step loses no id and lowers no number. */
  lemma StepLosesNothing(c: Codec, was: string, now: string, next: Record)
    requires Stepped(c, was, now, next) && next.seqNo > MaxSeq(Records(c, was))
    ensures MaxSeq(Records(c, now)) >= MaxSeq(Records(c, was))
    ensures forall id :: id in View(c, was) ==> id in View(c, now) && View(c, now)[id].seqNo >= View(c, was)[id].seqNo
  {
    FoldIsLatest(Records(c, was));
    MaxSeqBounds(Records(c, was));
  }

  /** The file without a torn tail. */
  function Repaired(data: string): string {
    CutTail(data);
    if Blank(Tail(data)) then data else data[..|data| - |Tail(data)|]
  }

  /** Repairing changes no record, so repairing and other reads agree. */
  lemma RepairKeepsRecords(c: Codec, data: string)
    ensures Records(c, Repaired(data)) == Records(c, data) && Blank(Tail(Repaired(data)))
  {
    CutTail(data);
  }

  /** A step from a file with the same records is a step from this one. */
  lemma StepFromRepaired(c: Codec, was: string, now: string, next: Record)
    requires Stepped(c, Repaired(was), now, next)
    ensures Stepped(c, was, now, next)
    ensures Landed(c, Repaired(was), now, next) ==> Landed(c, was, now, next)
  {
    RepairKeepsRecords(c, was);
  }

  lemma DistinctNumbers(recs: seq<Record>, a: Record, b: Record)
    requires StrictlyIncreasing(recs) && a in recs && b in recs && a != b
    ensures a.seqNo != b.seqNo
  {
    var p :| 0 <= p < |recs| && recs[p] == a;
    var q :| 0 <= q < |recs| && recs[q] == b;
    assert p < q || q < p;
  }

  lemma SortedListRises(s: seq<Record>, recs: seq<Record>)
    requires Lists(s, Fold(recs)) && SortedBySeq(s) && StrictlyIncreasing(recs)
    ensures StrictlyIncreasing(s)
  {
    FoldIsLatest(recs);
    forall i, j | 0 <= i < j < |s| ensures s[i].seqNo < s[j].seqNo {
      assert s[i] in s && s[j] in s;
      DistinctNumbers(recs, s[i], s[j]);
    }
  }

  lemma AppendRises(recs: seq<Record>, r: Record)
    requires StrictlyIncreasing(recs) && r.seqNo > MaxSeq(recs)
    ensures StrictlyIncreasing(recs + [r])
  {
    MaxSeqBounds(recs);
    forall i, j | 0 <= i < j < |recs + [r]| ensures (recs + [r])[i].seqNo < (recs + [r])[j].seqNo {
      assert recs[i] in recs;
    }
  }

  class Store {
    const codec: Codec
    var file: string
    var faults: seq<Fault> // what the coming operations will meet

    constructor (codec: Codec, file: string)
      ensures this.codec == codec && this.file == file && faults == []
    {
      this.codec, this.file, faults := codec, file, [];
    }

    method Meet() returns (f: Fault)
      modifies this`faults
      ensures f == if old(faults) == [] then Fine else old(faults)[0]
      ensures faults == if old(faults) == [] then [] else old(faults)[1..]
    {
      if faults == [] {
        return Fine;
      }
      f := faults[0];
      faults := faults[1..];
    }

    method WriteAtomic(data: string) returns (r: Outcome)
      modifies this`file, this`faults
      ensures file == if r == Ok then data else old(file)
      ensures r == Ok || r.Stopped?
      ensures old(faults) == [] ==> r == Ok && faults == []
    {
      var f := Meet();
      if f == Fine {
        file := data;
        return Ok;
      }
      r := Stopped(f);
    }

    method ParseInto(recs: seq<Record>, maxSeq: nat, line: string) returns (more: seq<Record>, high: nat)
      requires maxSeq == MaxSeq(recs)
      ensures more == recs + ParseLine(codec, line) && high == MaxSeq(more)
    {
      more, high := recs, maxSeq;
      var trimmed := Trim(line);
      if trimmed == "" {
        return;
      }
      var parsed := codec.dec(trimmed);
      if parsed.None? {
        return;
      }
      MaxSeqSnoc(recs, parsed.value);
      more := recs + [parsed.value];
      if parsed.value.seqNo > high {
        high := parsed.value.seqNo;
      }
    }

    /** Cuts the file off after its last line feed. */
    method TruncateTornFinal() returns (r: Outcome)
      requires !Blank(Tail(file))
      modifies this`file, this`faults
      ensures r == Ok || r.Stopped?
      ensures file == if r == Ok then Repaired(old(file)) else old(file)
      ensures old(faults) == [] ==> r == Ok && faults == []
    {
      var at := AfterLastLineFeed(file);
      r := WriteAtomic(file[..at]);
    }

    /** The line loop of a read. */
    method Scan(lines: seq<string>, terminated: bool, repair: bool) returns (r: Outcome, recs: seq<Record>, maxSeq: nat)
      requires lines != [] && (!terminated ==> lines[|lines| - 1] == Tail(file))
      modifies this`file, this`faults
      ensures r == Ok || r.Stopped?
      ensures var last := lines[|lines| - 1];
              var torn := !terminated && !Blank(last);
              && (r == Ok ==> recs == ParseLines(codec, lines[..|lines| - 1]) + (if torn then [] else ParseLine(codec, last)))
              && (r == Ok ==> maxSeq == MaxSeq(recs))
              && file == if r == Ok && torn && repair then Repaired(old(file)) else old(file)
      ensures old(faults) == [] || !repair ==> r == Ok && faults == old(faults)
    {
      recs, maxSeq := [], 0;
      for i := 0 to |lines|
        invariant i < |lines| ==> file == old(file) && recs == ParseLines(codec, lines[..i])
        invariant i == |lines| ==>
                    var last := lines[|lines| - 1];
                    var torn := !terminated && !Blank(last);
                    && recs == ParseLines(codec, lines[..|lines| - 1]) + (if torn then [] else ParseLine(codec, last))
                    && file == if torn && repair then Repaired(old(file)) else old(file)
        invariant maxSeq == MaxSeq(recs) && (old(faults) == [] || !repair ==> faults == old(faults))
      {
        if i == |lines| - 1 && !terminated && Trim(lines[i]) != "" {
          if repair {
            r := TruncateTornFinal();
            if r != Ok {
              return r, [], 0;
            }
          }
          continue;
        }
        recs, maxSeq := ParseInto(recs, maxSeq, lines[i]);
        ParseLinesSnoc(codec, lines[..i], lines[i]);
        assert lines[..i + 1] == lines[..i] + [lines[i]];
      }
      r := Ok;
    }

    /** The records of the terminated lines and their highest number. A repairing read also cuts
        off a torn tail. */
    method ReadAll(repair: bool) returns (r: Outcome, recs: seq<Record>, maxSeq: nat)
      modifies this`file, this`faults
      ensures r == Ok || r.Stopped?
      ensures r == Ok ==> recs == Records(codec, old(file)) && maxSeq == MaxSeq(recs)
      ensures file == if r == Ok && repair then Repaired(old(file)) else old(file)
      ensures old(faults) != [] && old(faults)[0] != Fine ==> r == Stopped(old(faults)[0]) && recs == []
      ensures !repair ==> (r == Ok <==> old(faults) == [] || old(faults)[0] == Fine) && (r != Ok ==> recs == [])
      ensures old(faults) == [] ==> r == Ok && faults == []
    {
      var read := Meet();
      if read != Fine {
        return Stopped(read), [], 0;
      }
      EndsWithLineFeed(file);
      if file == "" {
        return Ok, [], 0;
      }
      r, recs, maxSeq := Scan(Segments(file), file[|file| - 1] == '\n', repair);
      assert ParseLine(codec, "") == [];
    }

    /** One write of one line: what reaches the file is some first part of it, all of it on success. */
    method AppendLine(rec: Record) returns (r: Outcome, ghost k: nat)
      modifies this`file, this`faults
      ensures r == Ok || r.Stopped?
      ensures var line := codec.enc(rec) + "\n"; k <= |line| && file == old(file) + line[..k] && (r == Ok ==> k == |line|)
      ensures old(faults) == [] ==> r == Ok && faults == []
    {
      var line := codec.enc(rec) + "\n";
      var f := Meet();
      k := 0;
      match f {
        case Fine =>
          file := file + line;
          k := |line|;
          assert line[..k] == line;
          r := Ok;
        case Torn(n) =>
          var written := if n < |line| then n else |line|;
          file := file + line[..written];
          k := written;
          r := Stopped(f);
        case _ =>
          r := Stopped(f);
      }
    }

    /** Rewrites the file as one line per id, by rising number. */
    method Compact(folded: map<string, Record>, ghost recs: seq<Record>) returns (r: Outcome)
      requires Faithful(codec) && folded == Fold(recs)
      modifies this`file, this`faults
      ensures r == Ok || r.Stopped?
      ensures r != Ok ==> file == old(file)
      ensures r == Ok ==>
                && Lists(Records(codec, file), folded) && SortedBySeq(Records(codec, file))
                && file == EncodeAll(codec, Records(codec, file)) && Tail(file) == ""
      ensures old(faults) == [] ==> r == Ok && faults == []
    {
      FoldIsLatest(recs);
      var listed: seq<Record> := [];
      var rest := folded.Keys;
      while rest != {}
        invariant rest <= folded.Keys
        invariant forall x :: x in listed ==> x.id in folded && x.id !in rest && folded[x.id] == x
        invariant forall id :: id in folded && id !in rest ==> folded[id] in listed
        invariant forall i, j :: 0 <= i < j < |listed| ==> listed[i] != listed[j]
      {
        var id :| id in rest;
        listed := listed + [folded[id]];
        rest := rest - {id};
      }
      var snap := new Record[|listed|](i requires 0 <= i < |listed| => listed[i]);
      assert snap[..] == listed;
      ExchangeSort(snap);
      PermutationLists(listed, snap[..], folded);
      EncodeAllReads(codec, snap[..]);
      r := WriteAtomic(EncodeAll(codec, snap[..]));
    }

    /** Compacts when too many lines are superseded or the file is too large. */
    method MaybeCompact(preRecs: seq<Record>, latest: Record) returns (r: Outcome)
      requires Faithful(codec) && Records(codec, file) == preRecs + [latest] && Tail(file) == ""
      modifies this`file, this`faults
      ensures r == Ok || r.Stopped?
      ensures View(codec, file) == old(View(codec, file)) && MaxSeq(Records(codec, file)) == MaxSeq(preRecs + [latest])
      ensures Tail(file) == "" && (StrictlyIncreasing(preRecs + [latest]) ==> StrictlyIncreasing(Records(codec, file)))
      ensures r == Ok ==> |Records(codec, file)| - |View(codec, file)| < 5000
      ensures old(faults) == [] ==> r == Ok && faults == []
      ensures var many := |preRecs| + 1 - |old(View(codec, file))| >= 5000;
              && (!many && |old(file)| < 8 * 1024 * 1024 ==> file == old(file))
              && (!many && old(faults) != [] && old(faults)[0] == Dies ==> r == Stopped(Dies))
              && (old(faults) == [] && (many || |old(file)| >= 8 * 1024 * 1024) ==> |Records(codec, file)| == |View(codec, file)|)
    {
      var all := preRecs + [latest];
      var folded := FoldLatest(all);
      if |all| - |folded| < MAX_SUPERSEDED {
        var stat := Meet();
        if stat == Dies {
          return Stopped(stat);
        }
        if stat != Fine || |file| < MAX_SIZE {
          return Ok;
        }
      }
      r := Compact(folded, all);
      if r == Ok {
        ghost var s := Records(codec, file);
        FoldOfList(s, folded);
        ListKeepsMaxSeq(s, all);
        ListSize(s, folded);
        if StrictlyIncreasing(all) {
          SortedListRises(s, all);
        }
      }
    }

    /** Appends the next line and compacts: all or nothing, and all of it on success. */
    method Write(recs: seq<Record>, next: Record) returns (r: Outcome)
      requires Faithful(codec) && Records(codec, file) == recs && Blank(Tail(file)) && next.seqNo == MaxSeq(recs) + 1
      modifies this`file, this`faults
      ensures r == Ok || r.Stopped?
      ensures Stepped(codec, old(file), file, next)
      ensures r == Ok ==> Landed(codec, old(file), file, next)
      ensures old(faults) == [] ==> r == Ok && faults == []
    {
      ghost var k;
      r, k := AppendLine(next);
      AppendIsAtomic(codec, old(file), next, k);
      FoldAppend(recs, next);
      if StrictlyIncreasing(recs) {
        AppendRises(recs, next);
      }
      if r != Ok {
        return;
      }
      r := MaybeCompact(recs, next);
    }

    /** Journals a record under a fresh number. */
    method Append(rec: Record, freshId: string, now: string) returns (r: Outcome, out: Record)
      requires Faithful(codec)
      modifies this`file, this`faults
      ensures r == Ok || r.Stopped?
      ensures out == rec.(v := if rec.v == 0 then 1 else rec.v, id := if rec.id == "" then freshId else rec.id,
                          ts := if rec.ts == "" then now else rec.ts, seqNo := MaxSeq(old(Records(codec, file))) + 1)
      ensures Stepped(codec, old(file), file, out)
      ensures r == Ok ==> Landed(codec, old(file), file, out)
      ensures old(faults) == [] ==> r == Ok && faults == []
    {
      var recs, maxSeq;
      out := rec;
      r, recs, maxSeq := ReadAll(true);
      if r != Ok {
        out := Filled(rec, freshId, now, MaxSeq(Records(codec, file)) + 1);
        return;
      }
      RepairKeepsRecords(codec, old(file));
      if out.v == 0 {
        out := out.(v := RECORD_VERSION);
      }
      if out.id == "" {
        out := out.(id := freshId);
      }
      if out.ts == "" {
        out := out.(ts := now);
      }
      out := out.(seqNo := maxSeq + 1);
      r := Write(recs, out);
      StepFromRepaired(codec, old(file), file, out);
    }

    /** Journals the transition of a known id; an empty or unknown id changes no record. */
    method SetState(id: string, m: Mutation, now: string) returns (r: Outcome)
      requires Faithful(codec)
      modifies this`file, this`faults
      ensures r == NoId <==> id == ""
      ensures r == NoId ==> file == old(file)
      ensures (r == NotFound ==> id !in View(codec, old(file))) && (r == Ok ==> id in View(codec, old(file)))
      ensures id in View(codec, old(file)) ==> Stepped(codec, old(file), file, Moved(codec, old(file), id, m, now))
      ensures r == Ok ==> Landed(codec, old(file), file, Moved(codec, old(file), id, m, now))
      ensures id !in View(codec, old(file)) ==> Records(codec, file) == Records(codec, old(file))
      ensures old(faults) == [] ==> faults == [] && r == if id == "" then NoId else if id in View(codec, old(file)) then Ok else NotFound
    {
      if id == "" {
        return NoId;
      }
      var recs, maxSeq;
      r, recs, maxSeq := ReadAll(true);
      if r != Ok {
        return;
      }
      RepairKeepsRecords(codec, old(file));
      var latest := FoldLatest(recs);
      if id !in latest {
        return NotFound;
      }
      var next := ApplyTo(m, latest[id]).(seqNo := maxSeq + 1, ts := now);
      assert next == Moved(codec, old(file), id, m, now);
      r := Write(recs, next);
      StepFromRepaired(codec, old(file), file, next);
    }

    // ── queries ────────────────────────────────────────────────────────────────

    /** The latest record carrying a transaction id. */
    method ByTxid(txid: string) returns (r: Outcome, found: Option<Record>)
      modifies this`file, this`faults
      ensures file == old(file)
      ensures if old(faults) == [] || old(faults)[0] == Fine then r == Ok && LatestWith(View(codec, file), txid, found)
              else r == Stopped(old(faults)[0]) && found.None?
    {
      var recs, maxSeq;
      found := None;
      r, recs, maxSeq := ReadAll(false);
      if r != Ok {
        return;
      }
      var latest := FoldLatest(recs);
      found := FindTxid(latest, txid);
    }

    /** The records whose status is not terminal, newest first. */
    method Unresolved() returns (r: Outcome, out: seq<Record>)
      modifies this`file, this`faults
      ensures file == old(file)
      ensures if old(faults) == [] || old(faults)[0] == Fine then r == Ok else r == Stopped(old(faults)[0]) && out == []
      ensures r == Ok ==> forall id :: id in View(codec, file) ==>
                (View(codec, file)[id] in out <==> View(codec, file)[id].status == Signed || View(codec, file)[id].status == Broadcast)
      ensures r == Ok ==> Lists(out, Open(View(codec, file))) && forall i, j :: 0 <= i < j < |out| ==> out[i].seqNo >= out[j].seqNo
    {
      var recs, maxSeq;
      out := [];
      r, recs, maxSeq := ReadAll(false);
      if r != Ok {
        return;
      }
      var latest := FoldLatest(recs);
      FoldIsLatest(recs);
      out := CollectOpen(latest);
      NewestFirstOrders();
      SortBySorts(out, NewestFirst);
      PermutationLists(out, SortBy(out, NewestFirst), Open(latest));
      out := SortBy(out, NewestFirst);
      ListedAreOpen(out, latest);
    }
  }

  /** `found` is a record of `m` with the transaction id and the highest number, if there is any. */
  ghost predicate LatestWith(m: map<string, Record>, txid: string, found: Option<Record>) {
    && (found.None? ==> txid == "" || forall id :: id in m ==> m[id].txid != txid)
    && (found.Some? ==>
          && txid != "" && found.value.txid == txid && (exists id :: id in m && m[id] == found.value)
          && forall id :: id in m && m[id].txid == txid ==> m[id].seqNo <= found.value.seqNo)
  }

  method FindTxid(latest: map<string, Record>, txid: string) returns (found: Option<Record>)
    ensures LatestWith(latest, txid, found)
  {
    found := None;
    var rest := latest.Keys;
    while rest != {}
      invariant rest <= latest.Keys && LatestWith(latest - rest, txid, found)
    {
      var id :| id in rest;
      var x := latest[id];
      ghost var seen := latest - rest;
      rest := rest - {id};
      assert latest - rest == seen[id := x];
      assert (latest - rest)[id] == x;
      if x.txid == txid && x.txid != "" && (found.None? || x.seqNo > found.value.seqNo) {
        found := Some(x);
      } else if found.Some? {
        ghost var k :| k in seen && seen[k] == found.value;
        assert k in latest - rest;
      }
    }
    assert latest - {} == latest;
  }

  method CollectOpen(latest: map<string, Record>) returns (out: seq<Record>)
    requires forall id :: id in latest ==> latest[id].id == id
    ensures Lists(out, Open(latest))
  {
    out := [];
    ghost var seen: map<string, Record> := map[];
    var rest := latest.Keys;
    while rest != {}
      invariant rest <= latest.Keys && seen == latest - rest
      invariant Lists(out, Open(seen))
    {
      var id :| id in rest;
      CollectOne(out, seen, latest - (rest - {id}), latest[id]);
      if !IsTerminal(latest[id].status) {
        out := out + [latest[id]];
      }
      rest := rest - {id};
      seen := latest - rest;
    }
    assert latest - {} == latest;
  }

  /** The unresolved part of a journal. */
  function Open(m: map<string, Record>): map<string, Record> {
    map id | id in m && !IsTerminal(m[id].status) :: m[id]
  }

  lemma ListedAreOpen(out: seq<Record>, m: map<string, Record>)
    requires Lists(out, Open(m)) && forall id :: id in m ==> m[id].id == id
    ensures forall id :: id in m ==> (m[id] in out <==> m[id].status == Signed || m[id].status == Broadcast)
  {
    forall id | id in m ensures m[id] in out <==> m[id].status == Signed || m[id].status == Broadcast {
      assert id in Open(m) ==> Open(m)[id] in out;
      assert m[id] in out ==> id in Open(m);
    }
  }

  lemma CollectOne(out: seq<Record>, before: map<string, Record>, after: map<string, Record>, x: Record)
    requires Lists(out, Open(before)) && x.id !in before && after == before[x.id := x]
    ensures Lists(if IsTerminal(x.status) then out else out + [x], Open(after))
  {
    if IsTerminal(x.status) {
      assert Open(after) == Open(before);
    } else {
      assert Open(after) == Open(before)[x.id := x];
      ListOneMore(out, Open(before), x);
    }
  }

  lemma ListOneMore(out: seq<Record>, m: map<string, Record>, x: Record)
    requires Lists(out, m) && x.id !in m
    ensures Lists(out + [x], m[x.id := x])
  {
    var more, m' := out + [x], m[x.id := x];
    assert x !in out;
    forall id | id in m' ensures m'[id] in more {
      if id == x.id {
        assert more[|out|] == x;
      } else {
        assert m[id] in out;
      }
    }
  }

  lemma NewestFirstOrders()
    ensures WeakOrder(NewestFirst)
  {
  }

  /** The record a transition writes. */
  function Moved(c: Codec, data: string, id: string, m: Mutation, now: string): Record
    requires id in View(c, data)
  {
    ApplyTo(m, View(c, data)[id]).(seqNo := MaxSeq(Records(c, data)) + 1, ts := now)
  }

  predicate NewestFirst(x: Record, y: Record) { x.seqNo > y.seqNo }

  // ── whole runs ───────────────────────────────────────────────────────────────

  datatype Op = Add(rec: Record, freshId: string) | Move(id: string, m: Mutation) | Look(txid: string)

  datatype Call = Call(op: Op, now: string, faults: seq<Fault>)

  /** The acknowledged ids with their numbers are all still there, at those numbers or later. */
  ghost predicate Kept(m: map<string, Record>, acked: map<string, nat>) {
    forall id :: id in acked ==> id in m && m[id].seqNo >= acked[id]
  }

  lemma KeptAfterStep(c: Codec, was: string, now: string, next: Record, acked: map<string, nat>)
    requires Stepped(c, was, now, next) && next.seqNo > MaxSeq(Records(c, was)) && Kept(View(c, was), acked)
    ensures Kept(View(c, now), acked) && MaxSeq(Records(c, now)) >= MaxSeq(Records(c, was))
    ensures Landed(c, was, now, next) ==> Kept(View(c, now), acked[next.id := next.seqNo])
  {
    StepLosesNothing(c, was, now, next);
  }

  method ExecuteAdd(s: Store, rec: Record, freshId: string, now: string, ghost acked: map<string, nat>) returns (ghost next: map<string, nat>)
    requires Faithful(s.codec) && StrictlyIncreasing(Records(s.codec, s.file)) && Kept(View(s.codec, s.file), acked)
    modifies s
    ensures StrictlyIncreasing(Records(s.codec, s.file)) && Kept(View(s.codec, s.file), next)
    ensures MaxSeq(Records(s.codec, s.file)) >= MaxSeq(Records(s.codec, old(s.file)))
    ensures acked.Keys <= next.Keys && (old(s.faults) == [] ==> Filled(rec, freshId, now, 0).id in next)
  {
    var r, out := s.Append(rec, freshId, now);
    KeptAfterStep(s.codec, old(s.file), s.file, out, acked);
    next := if r == Ok then acked[out.id := out.seqNo] else acked;
  }

  method ExecuteMove(s: Store, id: string, m: Mutation, now: string, ghost acked: map<string, nat>) returns (ghost next: map<string, nat>)
    requires Faithful(s.codec) && StrictlyIncreasing(Records(s.codec, s.file)) && Kept(View(s.codec, s.file), acked)
    modifies s
    ensures StrictlyIncreasing(Records(s.codec, s.file)) && Kept(View(s.codec, s.file), next)
    ensures MaxSeq(Records(s.codec, s.file)) >= MaxSeq(Records(s.codec, old(s.file)))
    ensures acked.Keys <= next.Keys
    ensures old(s.faults) == [] && id != "" && id in View(s.codec, old(s.file)) ==>
              id in next && next[id] > MaxSeq(Records(s.codec, old(s.file)))
  {
    ghost var was := s.file;
    var r := s.SetState(id, m, now);
    next := acked;
    FoldIsLatest(Records(s.codec, was));
    if id in View(s.codec, was) {
      ghost var moved := Moved(s.codec, was, id, m, now);
      KeptAfterStep(s.codec, was, s.file, moved, acked);
      next := if r == Ok then acked[moved.id := moved.seqNo] else acked;
    }
  }

  /** An undisturbed append is acknowledged. */
  ghost predicate Answered(call: Call, acked: map<string, nat>) {
    call.op.Add? && call.faults == [] ==> Filled(call.op.rec, call.op.freshId, call.now, 0).id in acked
  }

  method Execute(s: Store, call: Call, ghost acked: map<string, nat>) returns (ghost next: map<string, nat>)
    requires Faithful(s.codec) && StrictlyIncreasing(Records(s.codec, s.file)) && Kept(View(s.codec, s.file), acked)
    modifies s
    ensures StrictlyIncreasing(Records(s.codec, s.file)) && Kept(View(s.codec, s.file), next)
    ensures MaxSeq(Records(s.codec, s.file)) >= MaxSeq(Records(s.codec, old(s.file)))
    ensures acked.Keys <= next.Keys
    ensures Answered(call, next)
    ensures call.faults == [] && call.op.Move? && call.op.id != "" && call.op.id in View(s.codec, old(s.file)) ==>
              call.op.id in next && next[call.op.id] > MaxSeq(Records(s.codec, old(s.file)))
  {
    s.faults := call.faults;
    next := acked;
    match call.op {
      case Add(rec, freshId) =>
        next := ExecuteAdd(s, rec, freshId, call.now, acked);
      case Move(id, m) =>
        next := ExecuteMove(s, id, m, call.now, acked);
      case Look(txid) =>
        var r, found := s.ByTxid(txid);
    }
  }

  /** Over any run of journal calls, each of which may fail, die or be torn anywhere: the numbers of
      the file's lines keep rising, and no acknowledged record is ever lost or rolled back. */
  method Replay(s: Store, calls: seq<Call>) returns (ghost acked: map<string, nat>)
    requires Faithful(s.codec) && StrictlyIncreasing(Records(s.codec, s.file))
    modifies s
    ensures StrictlyIncreasing(Records(s.codec, s.file)) && Kept(View(s.codec, s.file), acked)
    ensures MaxSeq(Records(s.codec, s.file)) >= MaxSeq(Records(s.codec, old(s.file)))
    ensures forall call :: call in calls ==> Answered(call, acked)
  {
    acked := map[];
    assert Kept(View(s.codec, s.file), acked);
    hide Faithful, StrictlyIncreasing, Kept, View, Records, MaxSeq;
    for i := 0 to |calls|
      invariant StrictlyIncreasing(Records(s.codec, s.file)) && Kept(View(s.codec, s.file), acked)
      invariant MaxSeq(Records(s.codec, s.file)) >= MaxSeq(Records(s.codec, old(s.file)))
      invariant forall k :: 0 <= k < i ==> Answered(calls[k], acked)
    {
      acked := Execute(s, calls[i], acked);
    }
  }
}
