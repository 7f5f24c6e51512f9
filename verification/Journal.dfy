/** One network's append-only journal (internal/journal/store.go, store_jsonl.go, record.go). */
module Journal {
  import opened Base
  import opened Orders
  import opened Lines
  import T = Texts

  // ── records ──────────────────────────────────────────────────────────────────

  datatype Status = Signed | Broadcast | Confirmed | Failed | Replaced

  /** A record; `payload` stands for the transaction fields no operation here looks at. */
  datatype Record = Record(
    v: int, id: string, seqNo: nat, ts: string, wallet: string, status: Status, txid: string,
    confirmations: int, blockHeight: int, error: Option<string>, replacedBy: string, payload: string)

  predicate IsTerminal(s: Status) { s == Confirmed || s == Failed || s == Replaced }

  datatype Mutation = Mutation(
    status: Option<Status>, txid: Option<string>, confirmations: Option<int>, blockHeight: Option<int>,
    error: Option<string>, replacedBy: Option<string>)

  /** The transition of a record; absent fields keep their value. */
  function ApplyTo(m: Mutation, r: Record): Record {
    r.(status := if m.status.Some? then m.status.value else r.status,
       txid := if m.txid.Some? then m.txid.value else r.txid,
       confirmations := if m.confirmations.Some? then m.confirmations.value else r.confirmations,
       blockHeight := if m.blockHeight.Some? then m.blockHeight.value else r.blockHeight,
       error := if m.error.Some? then m.error else r.error,
       replacedBy := if m.replacedBy.Some? then m.replacedBy.value else r.replacedBy)
  }

  // ── folding ──────────────────────────────────────────────────────────────────

  /** The latest record per id: a later line wins unless its sequence number is lower. */
  function Fold(recs: seq<Record>): map<string, Record> {
    if recs == [] then map[]
    else
      var m, r := Fold(recs[..|recs| - 1]), recs[|recs| - 1];
      if r.id !in m || r.seqNo >= m[r.id].seqNo then m[r.id := r] else m
  }

  function MaxSeq(recs: seq<Record>): nat {
    if recs == [] then 0
    else
      var m, r := MaxSeq(recs[..|recs| - 1]), recs[|recs| - 1];
      if r.seqNo > m then r.seqNo else m
  }

  method FoldLatest(recs: seq<Record>) returns (latest: map<string, Record>)
    ensures latest == Fold(recs)
  {
    latest := map[];
    for i := 0 to |recs|
      invariant latest == Fold(recs[..i])
    {
      var r := recs[i];
      assert recs[..i + 1][..i] == recs[..i];
      if r.id !in latest || r.seqNo >= latest[r.id].seqNo {
        latest := latest[r.id := r];
      }
    }
    assert recs[..|recs|] == recs;
  }

  lemma {:induction false} MaxSeqBounds(recs: seq<Record>)
    ensures forall r :: r in recs ==> r.seqNo <= MaxSeq(recs)
    ensures recs != [] ==> exists r :: r in recs && r.seqNo == MaxSeq(recs)
  {
    if recs != [] {
      var front := recs[..|recs| - 1];
      MaxSeqBounds(front);
      assert recs == front + [recs[|recs| - 1]];
      assert front == [] ==> MaxSeq(recs) == recs[|recs| - 1].seqNo;
      if front != [] && recs[|recs| - 1].seqNo <= MaxSeq(front) {
        var r :| r in front && r.seqNo == MaxSeq(front);
        assert r in recs;
      } else {
        assert recs[|recs| - 1] in recs;
      }
    }
  }

  /** The fold holds, for every id on file and no other, a line of that id with its highest number. */
  lemma {:induction false} FoldIsLatest(recs: seq<Record>)
    ensures forall id :: id in Fold(recs) ==> Fold(recs)[id] in recs && Fold(recs)[id].id == id
    ensures forall r :: r in recs ==> r.id in Fold(recs) && r.seqNo <= Fold(recs)[r.id].seqNo
  {
    if recs != [] {
      var front := recs[..|recs| - 1];
      FoldIsLatest(front);
      assert recs == front + [recs[|recs| - 1]];
    }
  }

  /** Of the lines of an id, the last of those with its highest number is its record. */
  lemma {:induction false} LastOfTheHighest(recs: seq<Record>, k: nat)
    requires k < |recs| && forall i :: 0 <= i < |recs| && recs[i].id == recs[k].id ==>
               if i <= k then recs[i].seqNo <= recs[k].seqNo else recs[i].seqNo < recs[k].seqNo
    ensures recs[k].id in Fold(recs) && Fold(recs)[recs[k].id] == recs[k]
  {
    var front := recs[..|recs| - 1];
    FoldIsLatest(front);
    if k < |front| {
      LastOfTheHighest(front, k);
    } else if recs[k].id in Fold(front) {
      assert Fold(front)[recs[k].id] in front;
    }
  }

  /** A line above every number on file replaces its id's record. */
  lemma FoldAppend(recs: seq<Record>, r: Record)
    requires r.seqNo > MaxSeq(recs)
    ensures Fold(recs + [r]) == Fold(recs)[r.id := r]
    ensures MaxSeq(recs + [r]) == r.seqNo
  {
    assert (recs + [r])[..|recs|] == recs;
    FoldIsLatest(recs);
    MaxSeqBounds(recs);
  }

  predicate StrictlyIncreasing(recs: seq<Record>) {
    forall i, j :: 0 <= i < j < |recs| ==> recs[i].seqNo < recs[j].seqNo
  }

  // ── encoding ─────────────────────────────────────────────────────────────────

  /** The JSON encoder and decoder of one record. */
  datatype Codec = Codec(enc: Record -> string, dec: string -> Option<Record>)

  /** Encodings are one line without surrounding space, and decode to what was encoded. */
  ghost predicate Faithful(c: Codec) {
    forall r :: OneLine(c.enc(r)) && c.enc(r) != "" && Trim(c.enc(r)) == c.enc(r) && c.dec(c.enc(r)) == Some(r)
  }

  /** A line's record: none when it is blank or does not parse. */
  function ParseLine(c: Codec, line: string): seq<Record> {
    var t := Trim(line);
    if t == "" then [] else match c.dec(t) case None => [] case Some(r) => [r]
  }

  function ParseLines(c: Codec, lines: seq<string>): seq<Record> {
    if lines == [] then [] else ParseLines(c, lines[..|lines| - 1]) + ParseLine(c, lines[|lines| - 1])
  }

  /** What a reader sees in a file: the records of its terminated lines. */
  function Records(c: Codec, data: string): seq<Record> { ParseLines(c, Terminated(data)) }

  function View(c: Codec, data: string): map<string, Record> { Fold(Records(c, data)) }

  lemma ParseLinesSnoc(c: Codec, lines: seq<string>, line: string)
    ensures ParseLines(c, lines + [line]) == ParseLines(c, lines) + ParseLine(c, line)
  {
    assert (lines + [line])[..|lines|] == lines;
  }

  lemma MaxSeqSnoc(recs: seq<Record>, r: Record)
    ensures MaxSeq(recs + [r]) == if r.seqNo > MaxSeq(recs) then r.seqNo else MaxSeq(recs)
  {
    assert (recs + [r])[..|recs|] == recs;
  }

  lemma TrimSkipsBlank(blank: string, s: string)
    requires Blank(blank)
    ensures Trim(blank + s) == Trim(s)
  {
    T.BlankMeansSpaces(blank, T.IsSpaceByte);
    T.TrimLeftSkipsSpaces(blank, s, T.IsSpaceByte);
  }

  /** Appending is atomic under a crash: whatever part of a line reaches a file whose tail is blank,
      the records are the old ones, until its line feed arrives and they include the new one. */
  lemma AppendIsAtomic(c: Codec, data: string, r: Record, k: nat)
    requires Faithful(c) && Blank(Tail(data)) && k <= |c.enc(r)| + 1
    ensures Records(c, data + (c.enc(r) + "\n")[..k])
         == if k <= |c.enc(r)| then Records(c, data) else Records(c, data) + [r]
    ensures k == |c.enc(r)| + 1 ==> Tail(data + (c.enc(r) + "\n")[..k]) == ""
  {
    var line := c.enc(r);
    if k <= |line| {
      assert (line + "\n")[..k] == line[..k];
      assert forall x :: x in line[..k] ==> x in line;
      TailGrows(data, line[..k]);
    } else {
      assert (line + "\n")[..k] == line + "\n";
      assert data + (line + "\n") == (data + line) + "\n";
      TailGrows(data, line);
      LineFeedEndsTail(data + line);
      ParseLinesSnoc(c, Terminated(data), Tail(data) + line);
      TrimSkipsBlank(Tail(data), line);
    }
  }

  // ── snapshots ────────────────────────────────────────────────────────────────

  function EncodeAll(c: Codec, recs: seq<Record>): string {
    if recs == [] then "" else EncodeAll(c, recs[..|recs| - 1]) + c.enc(recs[|recs| - 1]) + "\n"
  }

  lemma WholeLine(c: Codec, data: string, r: Record)
    requires Faithful(c) && Tail(data) == ""
    ensures Records(c, data + c.enc(r) + "\n") == Records(c, data) + [r] && Tail(data + c.enc(r) + "\n") == ""
  {
    AppendIsAtomic(c, data, r, |c.enc(r)| + 1);
    assert (c.enc(r) + "\n")[..|c.enc(r)| + 1] == c.enc(r) + "\n";
    assert data + (c.enc(r) + "\n") == data + c.enc(r) + "\n";
  }

  lemma {:induction false} EncodeAllReads(c: Codec, recs: seq<Record>)
    requires Faithful(c)
    ensures Records(c, EncodeAll(c, recs)) == recs && Tail(EncodeAll(c, recs)) == ""
  {
    if recs != [] {
      var front, r := recs[..|recs| - 1], recs[|recs| - 1];
      EncodeAllReads(c, front);
      WholeLine(c, EncodeAll(c, front), r);
      assert front + [r] == recs;
    }
  }

  predicate SortedBySeq(s: seq<Record>) { forall i, j :: 0 <= i < j < |s| ==> s[i].seqNo <= s[j].seqNo }

  /** `s` lists the records of `m`, each once, in some order. */
  ghost predicate Lists(s: seq<Record>, m: map<string, Record>) {
    && (forall r :: r in s ==> r.id in m && m[r.id] == r)
    && (forall id :: id in m ==> m[id] in s && m[id].id == id)
    && (forall i, j :: 0 <= i < j < |s| ==> s[i] != s[j])
  }

  lemma {:induction false} FoldOfList(s: seq<Record>, m: map<string, Record>)
    requires Lists(s, m)
    ensures Fold(s) == m
  {
    FoldIsLatest(s);
    forall id | id in m ensures id in Fold(s) && Fold(s)[id] == m[id] { assert m[id] in s; }
    forall id | id in Fold(s) ensures id in m { assert Fold(s)[id] in s; }
  }

  lemma ListKeepsMaxSeq(s: seq<Record>, recs: seq<Record>)
    requires Lists(s, Fold(recs))
    ensures MaxSeq(s) == MaxSeq(recs)
  {
    MaxSeqBounds(s);
    MaxSeqBounds(recs);
    FoldIsLatest(recs);
    if recs != [] {
      var r :| r in recs && r.seqNo == MaxSeq(recs);
      assert Fold(recs)[r.id] in s;
    }
    if s != [] {
      var r :| r in s && r.seqNo == MaxSeq(s);
      assert Fold(recs)[r.id] in recs;
    }
  }

  lemma ListSize(s: seq<Record>, m: map<string, Record>)
    requires Lists(s, m)
    ensures |s| == |m|
  {
    var ids := set r | r in s :: r.id;
    forall id | id in m ensures id in ids { assert m[id] in s && m[id].id == id; }
    assert ids == m.Keys;
    IdsOf(s);
  }

  lemma {:induction false} IdsOf(s: seq<Record>)
    requires forall i, j :: 0 <= i < j < |s| ==> s[i].id != s[j].id
    ensures |set r | r in s :: r.id| == |s|
  {
    if s != [] {
      var front, r := s[..|s| - 1], s[|s| - 1];
      IdsOf(front);
      assert s == front + [r];
      var ids := set x | x in front :: x.id;
      assert (set x | x in s :: x.id) == ids + {r.id};
      assert r.id !in ids;
    }
  }

  lemma PermutationLists(s: seq<Record>, t: seq<Record>, m: map<string, Record>)
    requires Lists(s, m) && multiset(s) == multiset(t)
    ensures Lists(t, m)
  {
    assert forall r :: r in t <==> r in multiset(t);
    assert forall r :: r in s <==> r in multiset(s);
    forall i, j | 0 <= i < j < |t| ensures t[i] != t[j] {
      if t[i] == t[j] {
        assert t == t[..j] + [t[j]] + t[j + 1..];
        assert t[i] in t[..j];
        assert multiset(t)[t[i]] >= 2;
        OnceEach(s, t[i]);
        assert false;
      }
    }
  }

  lemma {:induction false} OnceEach(s: seq<Record>, r: Record)
    requires forall i, j :: 0 <= i < j < |s| ==> s[i] != s[j]
    ensures multiset(s)[r] <= 1
  {
    if s != [] {
      assert s == s[..|s| - 1] + [s[|s| - 1]];
      OnceEach(s[..|s| - 1], r);
      if s[|s| - 1] == r { assert r !in s[..|s| - 1]; }
    }
  }

  /** The first `i` elements are where a sort by number puts them. */
  predicate Settled(s: seq<Record>, i: int) {
    forall p, q :: 0 <= p < i && p < q < |s| ==> s[p].seqNo <= s[q].seqNo
  }

  /** Element `i` is no higher than those after it, up to `j`. */
  predicate Least(s: seq<Record>, i: nat, j: int)
    requires i < |s| && j <= |s|
  {
    forall q :: i < q < j ==> s[i].seqNo <= s[q].seqNo
  }

  function SwapIfLower(s: seq<Record>, i: nat, j: nat): seq<Record>
    requires i < j < |s|
  {
    if s[j].seqNo < s[i].seqNo then s[i := s[j]][j := s[i]] else s
  }

  lemma SwapStep(s: seq<Record>, i: nat, j: nat)
    requires i < j < |s| && Settled(s, i) && Least(s, i, j)
    ensures var t := SwapIfLower(s, i, j);
            |t| == |s| && Settled(t, i) && Least(t, i, j + 1) && multiset(t) == multiset(s)
  {
  }

  lemma LeastSettles(s: seq<Record>, i: nat)
    requires i < |s| && Settled(s, i) && Least(s, i, |s|)
    ensures Settled(s, i + 1)
  {
  }

  /** The inner loop: brings the least of the rest to position `i`. */
  method SettleNext(a: array<Record>, i: nat)
    requires i < a.Length && Settled(a[..], i)
    modifies a
    ensures Settled(a[..], i + 1) && multiset(a[..]) == multiset(old(a[..]))
  {
    ghost var s := a[..];
    for j := i + 1 to a.Length
      invariant a[..] == s && |s| == a.Length && multiset(s) == multiset(old(a[..]))
      invariant Settled(s, i) && Least(s, i, j)
    {
      SwapStep(s, i, j);
      s := SwapIfLower(s, i, j);
      if a[j].seqNo < a[i].seqNo {
        a[i], a[j] := a[j], a[i];
      }
    }
    LeastSettles(s, i);
  }

  /** The in-place exchange sort of compaction. */
  method ExchangeSort(a: array<Record>)
    modifies a
    ensures SortedBySeq(a[..]) && multiset(a[..]) == multiset(old(a[..]))
  {
    for i := 0 to a.Length
      invariant multiset(a[..]) == multiset(old(a[..])) && Settled(a[..], i)
    {
      SettleNext(a, i);
    }
  }

  /** Whatever order a map hands its records out in, sorting them by distinct numbers gives one list. */
  lemma SnapshotIsUnique(s: seq<Record>, t: seq<Record>, m: map<string, Record>)
    requires Lists(s, m) && Lists(t, m) && SortedBySeq(s) && SortedBySeq(t)
    requires forall a, b :: a in m && b in m && a != b ==> m[a].seqNo != m[b].seqNo
    ensures s == t
  {
    var less := (x: Record, y: Record) => x.seqNo < y.seqNo;
    forall r ensures multiset(s)[r] == multiset(t)[r] {
      OnceEach(s, r);
      OnceEach(t, r);
      assert r in multiset(s) <==> r in s;
      assert r in multiset(t) <==> r in t;
      assert r in s <==> r in t;
    }
    assert multiset(s) == multiset(t);
    SortedUnique(s, t, less);
  }
}
