/** The rolling window holds over every run of the ledger. */
module LedgerLaws {
  import opened Base
  import opened Ledger
  import P = Policies

  // ── runs ─────────────────────────────────────────────────────────────────────

  /** One locked call of some client, with the clock readings it makes. */
  datatype Step =
    | ReserveStep(policy: P.Policy, req: P.Check, id: string, t1: int, t2: int, t3: int, writeOk: bool)
    | TransitStep(id: string, to: State, txid: string, t: int, writeOk: bool)
    | FreeStep(id: string, t: int, writeOk: bool)

  /** The counter file, every row ever reserved, and the latest clock reading. */
  datatype World = World(file: seq<Entry>, history: seq<Entry>, clock: int)

  function Apply(w: World, s: Step): World {
    match s
    case ReserveStep(policy, req, id, t1, t2, t3, writeOk) =>
      if P.Evaluate(policy, req, SumWindow(w.file, t1, ""), t2) != P.Allowed then w.(clock := t2)
      else if !writeOk then w.(clock := t3)
      else
        var row := NewRow(id, t3, P.WindowCharge(req));
        World(Prune(w.file + [row], t3), w.history + [row], t3)
    case TransitStep(id, to, txid, t, writeOk) =>
      if !Rewrites(w.file, id, to) || !writeOk then w
      else World(Transition(w.file, id, to, txid, t), Shifted(w.history, id, to, txid), t)
    case FreeStep(id, t, writeOk) =>
      var i := Find(w.file, id);
      if i == |w.file| || w.file[i].state != Reserved || !writeOk then w
      else World(Transition(w.file, id, Released, "", t), Shifted(w.history, id, Released, ""), t)
  }

  function Run(w: World, steps: seq<Step>): World
    decreases |steps|
  {
    if steps == [] then w else Run(Apply(w, steps[0]), steps[1..])
  }

  ghost predicate FreshId(h: seq<Entry>, id: string) {
    id != "" && forall i :: 0 <= i < |h| ==> h[i].id != id
  }

  /** The clock never runs back and reservation ids are new. */
  ghost predicate Timely(w: World, s: Step) {
    match s
    case ReserveStep(_, _, id, t1, t2, t3, _) => w.clock <= t1 <= t2 <= t3 && FreshId(w.history, id)
    case TransitStep(_, to, _, t, _) => w.clock <= t && to != Reserved
    case FreeStep(_, t, _) => w.clock <= t
  }

  /** The day limit stays the same. */
  ghost predicate Limited(s: Step, limit: int) {
    s.ReserveStep? ==> P.ResolveLimits(s.policy, s.req.network).maxDay == Some(limit)
  }

  ghost predicate Enabled(w: World, s: Step, limit: int) { Timely(w, s) && Limited(s, limit) }

  /** A commit never meets a released row. */
  predicate Disciplined(w: World, s: Step) {
    s.TransitStep? && s.to == Committed ==>
      var i := Find(w.file, s.id); i == |w.file| || w.file[i].state != Released
  }

  /** The row a step takes back from released to committed, if any. */
  function Revives(w: World, s: Step): set<string> {
    if s.TransitStep? && s.writeOk && !Disciplined(w, s) then {s.id} else {}
  }

  /** The rows a run takes back from released to committed. */
  function AllRevived(w: World, steps: seq<Step>): set<string>
    decreases |steps|
  {
    if steps == [] then {} else Revives(w, steps[0]) + AllRevived(Apply(w, steps[0]), steps[1..])
  }

  ghost predicate EnabledRun(w: World, steps: seq<Step>, limit: int)
    decreases |steps|
  {
    steps == [] || (Enabled(w, steps[0], limit) && EnabledRun(Apply(w, steps[0]), steps[1..], limit))
  }

  predicate DisciplinedRun(w: World, steps: seq<Step>)
    decreases |steps|
  {
    steps == [] || (Disciplined(w, steps[0]) && DisciplinedRun(Apply(w, steps[0]), steps[1..]))
  }

  /** The counter object takes any sequence of calls to the state that sequence describes. */
  method Drive(c: Counter, steps: seq<Step>, ghost start: World)
    requires c.entries == start.file && c.history == start.history
    modifies c
    ensures var w := Run(start, steps); c.entries == w.file && c.history == w.history
  {
    ghost var w := start;
    for i := 0 to |steps|
      invariant c.entries == w.file && c.history == w.history
      invariant Run(w, steps[i..]) == Run(start, steps)
    {
      assert steps[i..][1..] == steps[i + 1..];
      match steps[i] {
        case ReserveStep(policy, req, id, t1, t2, t3, writeOk) =>
          var r := c.Reserve(policy, req, id, t1, t2, t3, writeOk);
        case TransitStep(id, to, txid, t, writeOk) =>
          c.Transit(id, to, txid, t, writeOk);
        case FreeStep(id, t, writeOk) =>
          var r := c.ReleaseReservation(id, t, writeOk);
      }
      w := Apply(w, steps[i]);
    }
  }

  // ── the file tracks the history ──────────────────────────────────────────────

  /** The file is the history less some settled rows that had left the window by `clock`. */
  ghost predicate Tracks(file: seq<Entry>, h: seq<Entry>, clock: int) {
    if h == [] then file == []
    else
      || (file != [] && file[0] == h[0] && Tracks(file[1..], h[1..], clock))
      || (Aged(h[0], clock) && h[0].state != Reserved && Tracks(file, h[1..], clock))
  }

  /** Rows the engine writes itself: parseable, named, never negative, never in the future. */
  ghost predicate WellFormed(h: seq<Entry>, clock: int) {
    forall i :: 0 <= i < |h| ==>
      h[i].id != "" && h[i].ts.At? && h[i].ts.ns <= clock && h[i].sat.Some? && h[i].sat.value >= 0
  }

  ghost predicate UniqueIds(h: seq<Entry>) {
    forall i, j :: 0 <= i < j < |h| ==> h[i].id != h[j].id
  }

  lemma {:induction false} TracksLater(file: seq<Entry>, h: seq<Entry>, clock: int, later: int)
    requires Tracks(file, h, clock) && clock <= later
    ensures Tracks(file, h, later)
  {
    if h != [] {
      if file != [] && file[0] == h[0] && Tracks(file[1..], h[1..], clock) {
        TracksLater(file[1..], h[1..], clock, later);
      } else {
        TracksLater(file, h[1..], clock, later);
      }
    }
  }

  lemma {:induction false} AppendTracks(file: seq<Entry>, h: seq<Entry>, clock: int, row: Entry)
    requires Tracks(file, h, clock)
    ensures Tracks(file + [row], h + [row], clock)
  {
    if h == [] {
      assert (file + [row])[1..] == [] && (h + [row])[1..] == [];
    } else if file != [] && file[0] == h[0] && Tracks(file[1..], h[1..], clock) {
      AppendTracks(file[1..], h[1..], clock, row);
      assert (file + [row])[1..] == file[1..] + [row] && (h + [row])[1..] == h[1..] + [row];
    } else {
      AppendTracks(file, h[1..], clock, row);
      assert (h + [row])[1..] == h[1..] + [row];
    }
  }

  /** Pruning drops only settled rows outside the window. */
  lemma {:induction false} PruneTracks(file: seq<Entry>, h: seq<Entry>, clock: int)
    requires Tracks(file, h, clock) && WellFormed(h, clock)
    ensures Tracks(Prune(file, clock), h, clock)
  {
    if h != [] {
      assert WellFormed(h[1..], clock);
      if file != [] && file[0] == h[0] && Tracks(file[1..], h[1..], clock) {
        PruneTracks(file[1..], h[1..], clock);
        if Keeps(file[0], clock) {
          assert Prune(file, clock)[1..] == Prune(file[1..], clock);
        } else {
          assert Prune(file, clock) == Prune(file[1..], clock);
        }
      } else {
        PruneTracks(file, h[1..], clock);
      }
    }
  }

  /** A row of the file is the row of the history with that id. */
  lemma {:induction false} FindTracks(file: seq<Entry>, h: seq<Entry>, clock: int, id: string)
    requires Tracks(file, h, clock) && UniqueIds(h)
    ensures Find(file, id) < |file| ==> Find(h, id) < |h| && h[Find(h, id)] == file[Find(file, id)]
    ensures Find(h, id) < |h| && h[Find(h, id)].state == Reserved ==> Find(file, id) < |file|
  {
    if h != [] {
      FindIsFirst(h, id);
      if file != [] && file[0] == h[0] && Tracks(file[1..], h[1..], clock) {
        FindTracks(file[1..], h[1..], clock, id);
      } else {
        FindTracks(file, h[1..], clock, id);
        FindIsFirst(h[1..], id);
      }
    }
  }

  lemma {:induction false} FindIsFirst(h: seq<Entry>, id: string)
    ensures var i := Find(h, id);
            && (i < |h| ==> h[i].id == id)
            && (forall j :: 0 <= j < i ==> h[j].id != id)
  {
    if h != [] && h[0].id != id { FindIsFirst(h[1..], id); }
  }

  lemma ShiftedTail(h: seq<Entry>, id: string, to: State, txid: string)
    requires h != [] && h[0].id != id
    ensures Shifted(h, id, to, txid) == [h[0]] + Shifted(h[1..], id, to, txid)
    ensures Rewrites(h, id, to) <==> Rewrites(h[1..], id, to)
  {
  }

  lemma {:induction false} ShiftTracks(file: seq<Entry>, h: seq<Entry>, clock: int, id: string, to: State, txid: string)
    requires Tracks(file, h, clock) && UniqueIds(h) && Rewrites(file, id, to)
    ensures Tracks(Shifted(file, id, to, txid), Shifted(h, id, to, txid), clock)
  {
    FindTracks(file, h, clock, id);
    FindIsFirst(h, id);
    if h[0].id == id {
      if file != [] && file[0] == h[0] && Tracks(file[1..], h[1..], clock) {
        assert Shifted(file, id, to, txid)[1..] == file[1..];
        assert Shifted(h, id, to, txid)[1..] == h[1..];
      } else {
        FindIsFirst(h[1..], id);
        FindTracks(file, h[1..], clock, id);
        assert false;
      }
    } else {
      ShiftedTail(h, id, to, txid);
      if file != [] && file[0] == h[0] && Tracks(file[1..], h[1..], clock) {
        ShiftedTail(file, id, to, txid);
        ShiftTracks(file[1..], h[1..], clock, id, to, txid);
      } else {
        ShiftTracks(file, h[1..], clock, id, to, txid);
      }
    }
  }

  predicate IsFirstWith(es: seq<Entry>, id: string, k: nat)
    requires k < |es|
  {
    es[k].id == id && forall j :: 0 <= j < k ==> es[j].id != id
  }

  /** A transition changes the state of the first row with the id, and its transaction id if one is given, unless
      that would release a committed row; every other row stays. */
  lemma ShiftChangesOneRow(es: seq<Entry>, id: string, to: State, txid: string)
    ensures |Shifted(es, id, to, txid)| == |es|
    ensures forall k :: 0 <= k < |es| ==>
              Shifted(es, id, to, txid)[k] == if IsFirstWith(es, id, k) && !(es[k].state == Committed && to == Released)
                                              then Entry(id, es[k].ts, es[k].sat, to, if txid == "" then es[k].hash else txid)
                                              else es[k]
    ensures Rewrites(es, id, to) <==>
              exists k :: 0 <= k < |es| && IsFirstWith(es, id, k) && !(es[k].state == Committed && to == Released)
  {
    FindIsFirst(es, id);
    var i := Find(es, id);
    assert i < |es| ==> IsFirstWith(es, id, i);
    assert forall k :: 0 <= k < |es| && IsFirstWith(es, id, k) ==> i == k;
  }

  // ── sums ─────────────────────────────────────────────────────────────────────

  const HOURS_24 := 24 * 60 * 60 * 1_000_000_000

  /** What a row spends in the window (at - 24h, at]. */
  function Spent(e: Entry, at: int): int {
    if e.state == Released || e.sat.None? || e.ts.Garbled? || e.ts.ns <= at - HOURS_24 || e.ts.ns > at then 0 else e.sat.value
  }

  /** The amounts of the rows that count now: reserved or committed, with a readable amount, and stamped within
      the last 24 hours, an unreadable stamp counting as one that is. */
  function CountingSum(es: seq<Entry>, now: int): int {
    if es == [] then 0
    else
      var e := es[0];
      var recent := match e.ts case At(ns) => ns > now - HOURS_24 case Garbled => true;
      CountingSum(es[1..], now) + if (e.state == Reserved || e.state == Committed) && e.sat.Some? && recent then e.sat.value else 0
  }

  /** The rolling sum is that of the rows that count, whatever the file holds, as long as rows have names; and
      it is the sum of the window that ends now unless some row is from the future or has no readable stamp. */
  lemma {:induction false} RollingSumCounts(es: seq<Entry>, now: int)
    requires forall i :: 0 <= i < |es| ==> es[i].id != ""
    ensures SumWindow(es, now, "") == CountingSum(es, now)
    ensures (forall i :: 0 <= i < |es| ==> es[i].ts.At? && es[i].ts.ns <= now) ==> SumWindow(es, now, "") == WindowSum(es, now)
  {
    if es != [] {
      RollingSumCounts(es[1..], now);
    }
  }

  /** Pruning drops exactly the rows that are released or committed and 24 hours old, and the released ones
      without a readable stamp. */
  lemma {:induction false} PruneDrops(es: seq<Entry>, now: int, e: Entry)
    ensures e in Prune(es, now) <==>
              && e in es
              && !(e.ts.At? && e.ts.ns <= now - HOURS_24 && e.state != Reserved) && !(e.ts.Garbled? && e.state == Released)
  {
    if es != [] {
      PruneDrops(es[1..], now, e);
      assert es == [es[0]] + es[1..];
    }
  }

  function WindowSum(h: seq<Entry>, at: int): int {
    if h == [] then 0 else Spent(h[0], at) + WindowSum(h[1..], at)
  }

  /** Pruning is invisible: at every later instant the file sums to what the history does. */
  lemma {:induction false} FileSumsLikeHistory(file: seq<Entry>, h: seq<Entry>, clock: int, now: int)
    requires Tracks(file, h, clock) && clock <= now
    ensures SumWindow(file, now, "") == SumWindow(h, now, "")
  {
    if h != [] {
      if file != [] && file[0] == h[0] && Tracks(file[1..], h[1..], clock) {
        FileSumsLikeHistory(file[1..], h[1..], clock, now);
      } else {
        FileSumsLikeHistory(file, h[1..], clock, now);
      }
    }
  }

  /** No window that starts later sums to more than the rolling sum, and both are non-negative. */
  lemma {:induction false} WindowBelowRollingSum(h: seq<Entry>, clock: int, now: int, at: int)
    requires WellFormed(h, clock) && now <= at
    ensures 0 <= WindowSum(h, at) <= SumWindow(h, now, "")
  {
    if h != [] {
      assert WellFormed(h[1..], clock);
      WindowBelowRollingSum(h[1..], clock, now, at);
    }
  }

  /** The same, leaving out some rows. */
  function SumExcept(h: seq<Entry>, out: set<string>, at: int): int {
    if h == [] then 0 else (if h[0].id in out then 0 else Spent(h[0], at)) + SumExcept(h[1..], out, at)
  }

  /** What only those rows spend. */
  function SumOf(h: seq<Entry>, only: set<string>, at: int): int {
    if h == [] then 0 else (if h[0].id in only then Spent(h[0], at) else 0) + SumOf(h[1..], only, at)
  }

  lemma {:induction false} SumSplits(h: seq<Entry>, out: set<string>, at: int)
    ensures WindowSum(h, at) == SumExcept(h, out, at) + SumOf(h, out, at)
    ensures out == {} ==> SumOf(h, out, at) == 0
  {
    if h != [] {
      SumSplits(h[1..], out, at);
    }
  }

  /** Leaving out more rows lowers a window. */
  lemma {:induction false} ExceptIsLess(h: seq<Entry>, clock: int, out: set<string>, more: set<string>, at: int)
    requires WellFormed(h, clock) && out <= more
    ensures 0 <= SumExcept(h, more, at) <= SumExcept(h, out, at) <= WindowSum(h, at)
  {
    if h != [] {
      assert WellFormed(h[1..], clock);
      ExceptIsLess(h[1..], clock, out, more, at);
    }
  }

  lemma {:induction false} SumExceptAppend(h: seq<Entry>, row: Entry, out: set<string>, at: int)
    ensures SumExcept(h + [row], out, at) == SumExcept(h, out, at) + if row.id in out then 0 else Spent(row, at)
  {
    if h == [] {
      assert (h + [row])[1..] == [];
    } else {
      SumExceptAppend(h[1..], row, out, at);
      assert (h + [row])[1..] == h[1..] + [row];
    }
  }

  /** A commit of a row that is not released, or that is left out, changes no window; a release
      lowers them. */
  lemma {:induction false} ShiftLowersWindows(h: seq<Entry>, clock: int, id: string, to: State, txid: string, out: set<string>, at: int)
    requires WellFormed(h, clock)
    requires to == Released || id in out || Find(h, id) == |h| || h[Find(h, id)].state != Released
    ensures 0 <= SumExcept(Shifted(h, id, to, txid), out, at) <= SumExcept(h, out, at)
  {
    if h != [] {
      assert WellFormed(h[1..], clock);
      if h[0].id == id {
        ExceptIsLess(h[1..], clock, out, out, at);
        assert Shifted(h, id, to, txid)[1..] == h[1..];
      } else {
        ShiftedTail(h, id, to, txid);
        ShiftLowersWindows(h[1..], clock, id, to, txid, out, at);
      }
    }
  }

  /** Committing a released row adds its charge to the windows that hold its stamp. */
  lemma {:induction false} RevivalRaises(h: seq<Entry>, id: string, txid: string, at: int)
    requires Find(h, id) < |h| && h[Find(h, id)].state == Released
    ensures WindowSum(Shifted(h, id, Committed, txid), at)
            == WindowSum(h, at) + Spent(h[Find(h, id)].(state := Committed), at)
  {
    if h[0].id == id {
      assert Shifted(h, id, Committed, txid)[1..] == h[1..];
    } else {
      ShiftedTail(h, id, Committed, txid);
      RevivalRaises(h[1..], id, txid, at);
    }
  }

  // ── the invariant of every run ───────────────────────────────────────────────

  ghost predicate Safe(h: seq<Entry>, limit: int) {
    forall at :: WindowSum(h, at) == 0 || WindowSum(h, at) <= limit
  }

  ghost predicate SafeExcept(h: seq<Entry>, out: set<string>, limit: int) {
    forall at :: SumExcept(h, out, at) == 0 || SumExcept(h, out, at) <= limit
  }

  lemma SafeIsExceptNone(h: seq<Entry>, limit: int)
    ensures Safe(h, limit) <==> SafeExcept(h, {}, limit)
  {
    forall at ensures SumExcept(h, {}, at) == WindowSum(h, at) { SumSplits(h, {}, at); }
    if SafeExcept(h, {}, limit) {
      forall at ensures WindowSum(h, at) == 0 || WindowSum(h, at) <= limit {
        assert SumExcept(h, {}, at) == 0 || SumExcept(h, {}, at) <= limit;
      }
    }
  }

  lemma SafeExceptMore(h: seq<Entry>, clock: int, out: set<string>, more: set<string>, limit: int)
    requires WellFormed(h, clock) && SafeExcept(h, out, limit) && out <= more
    ensures SafeExcept(h, more, limit)
  {
    forall at ensures SumExcept(h, more, at) == 0 || SumExcept(h, more, at) <= limit {
      ExceptIsLess(h, clock, out, more, at);
      assert SumExcept(h, out, at) == 0 || SumExcept(h, out, at) <= limit;
    }
  }

  /** What the file and the history always satisfy. */
  ghost predicate Core(w: World) {
    && Tracks(w.file, w.history, w.clock)
    && WellFormed(w.history, w.clock) && UniqueIds(w.history)
  }

  ghost predicate Inv(w: World, limit: int) { Core(w) && Safe(w.history, limit) }

  ghost predicate InvExcept(w: World, out: set<string>, limit: int) { Core(w) && SafeExcept(w.history, out, limit) }

  lemma ShiftKeepsCore(w: World, id: string, to: State, txid: string, t: int)
    requires Core(w) && w.clock <= t && Rewrites(w.file, id, to)
    ensures Core(World(Transition(w.file, id, to, txid, t), Shifted(w.history, id, to, txid), t))
  {
    var h := Shifted(w.history, id, to, txid);
    FindTracks(w.file, w.history, w.clock, id);
    TracksLater(w.file, w.history, w.clock, t);
    ShiftTracks(w.file, w.history, t, id, to, txid);
    assert WellFormed(h, t) && UniqueIds(h);
    PruneTracks(Shifted(w.file, id, to, txid), h, t);
  }

  lemma StepKeepsCore(w: World, s: Step)
    requires Core(w) && Timely(w, s)
    ensures Core(Apply(w, s))
  {
    match s
    case ReserveStep(policy, req, id, t1, t2, t3, writeOk) =>
      TracksLater(w.file, w.history, w.clock, Apply(w, s).clock);
      if Apply(w, s).history != w.history {
        var row := NewRow(id, t3, P.WindowCharge(req));
        AppendTracks(w.file, w.history, t3, row);
        PruneTracks(w.file + [row], w.history + [row], t3);
      }
    case TransitStep(id, to, txid, t, writeOk) =>
      if Rewrites(w.file, id, to) && writeOk { ShiftKeepsCore(w, id, to, txid, t); }
    case FreeStep(id, t, writeOk) =>
      if Apply(w, s) != w { ShiftKeepsCore(w, id, Released, "", t); }
  }

  /** What the verdict's day-limit stage guarantees. */
  lemma AllowedFitsTheDay(policy: P.Policy, req: P.Check, spent: int, now: int, limit: int)
    requires P.Evaluate(policy, req, spent, now) == P.Allowed
    requires P.ResolveLimits(policy, req.network).maxDay == Some(limit)
    ensures spent + P.WindowCharge(req) <= limit && P.WindowCharge(req) >= 0
  {
  }

  lemma ReserveKeepsSafe(w: World, s: Step, out: set<string>, limit: int)
    requires InvExcept(w, out, limit) && s.ReserveStep? && Enabled(w, s, limit)
    ensures SafeExcept(Apply(w, s).history, out, limit)
  {
    var spent := SumWindow(w.file, s.t1, "");
    if P.Evaluate(s.policy, s.req, spent, s.t2) == P.Allowed && s.writeOk {
      AllowedFitsTheDay(s.policy, s.req, spent, s.t2, limit);
      FileSumsLikeHistory(w.file, w.history, w.clock, s.t1);
      var row := NewRow(s.id, s.t3, P.WindowCharge(s.req));
      forall at ensures SumExcept(w.history + [row], out, at) == 0 || SumExcept(w.history + [row], out, at) <= limit {
        SumExceptAppend(w.history, row, out, at);
        ExceptIsLess(w.history, w.clock, out, out, at);
        assert SumExcept(w.history, out, at) == 0 || SumExcept(w.history, out, at) <= limit;
        if at >= s.t3 { WindowBelowRollingSum(w.history, w.clock, s.t1, at); }
      }
    }
  }

  lemma ShiftKeepsSafe(w: World, id: string, to: State, txid: string, out: set<string>, limit: int)
    requires InvExcept(w, out, limit) && Rewrites(w.file, id, to)
    requires to == Released || id in out || w.file[Find(w.file, id)].state != Released
    ensures SafeExcept(Shifted(w.history, id, to, txid), out, limit)
  {
    FindTracks(w.file, w.history, w.clock, id);
    var h := Shifted(w.history, id, to, txid);
    forall at ensures SumExcept(h, out, at) == 0 || SumExcept(h, out, at) <= limit {
      ShiftLowersWindows(w.history, w.clock, id, to, txid, out, at);
      assert SumExcept(w.history, out, at) == 0 || SumExcept(w.history, out, at) <= limit;
    }
  }

  /** Every locked call keeps every window within the limit, but for the rows revived so far. */
  lemma StepKeepsInvExcept(w: World, s: Step, out: set<string>, limit: int)
    requires InvExcept(w, out, limit) && Enabled(w, s, limit)
    ensures InvExcept(Apply(w, s), out + Revives(w, s), limit)
  {
    StepKeepsCore(w, s);
    var more := out + Revives(w, s);
    SafeExceptMore(w.history, w.clock, out, more, limit);
    match s
    case ReserveStep(_, _, _, _, _, _, _) => ReserveKeepsSafe(w, s, more, limit);
    case TransitStep(id, to, txid, t, writeOk) =>
      if Rewrites(w.file, id, to) && writeOk { ShiftKeepsSafe(w, id, to, txid, more, limit); }
    case FreeStep(id, t, writeOk) =>
      if Apply(w, s) != w { ShiftKeepsSafe(w, id, Released, "", more, limit); }
  }

  lemma StepKeepsInv(w: World, s: Step, limit: int)
    requires Inv(w, limit) && Enabled(w, s, limit) && Disciplined(w, s)
    ensures Inv(Apply(w, s), limit)
  {
    SafeIsExceptNone(w.history, limit);
    StepKeepsInvExcept(w, s, {}, limit);
    assert {} + Revives(w, s) == {};
    SafeIsExceptNone(Apply(w, s).history, limit);
  }

  /** The limit is broken by exactly those commits that meet a released row whose charge no longer
      fits some window holding its stamp. */
  lemma CommitBreaksExactly(w: World, id: string, txid: string, t: int, limit: int)
    requires Inv(w, limit) && w.clock <= t
    ensures var i := Find(w.file, id);
            !Safe(Apply(w, TransitStep(id, Committed, txid, t, true)).history, limit) <==>
              && i < |w.file| && w.file[i].state == Released
              && exists at :: var charge := Spent(w.file[i].(state := Committed), at);
                              charge > 0 && WindowSum(w.history, at) + charge > limit
  {
    var s := TransitStep(id, Committed, txid, t, true);
    if Disciplined(w, s) {
      if Rewrites(w.file, id, Committed) {
        CommitOfUnreleased(w, id, txid, limit);
      }
    } else {
      FindTracks(w.file, w.history, w.clock, id);
      var row := w.file[Find(w.file, id)];
      var h := Shifted(w.history, id, Committed, txid);
      forall at ensures WindowSum(h, at) == WindowSum(w.history, at) + Spent(row.(state := Committed), at) {
        RevivalRaises(w.history, id, txid, at);
      }
      if at :| Spent(row.(state := Committed), at) > 0 && WindowSum(w.history, at) + Spent(row.(state := Committed), at) > limit {
        WindowBelowRollingSum(w.history, w.clock, at, at);
        assert WindowSum(h, at) > limit && WindowSum(h, at) != 0;
      } else {
        forall at ensures WindowSum(h, at) == 0 || WindowSum(h, at) <= limit {
          assert WindowSum(w.history, at) == 0 || WindowSum(w.history, at) <= limit;
          FindIsFirst(w.history, id);
          assert row.sat.Some? && row.sat.value >= 0;
        }
      }
    }
  }

  lemma CommitOfUnreleased(w: World, id: string, txid: string, limit: int)
    requires Inv(w, limit) && Rewrites(w.file, id, Committed) && w.file[Find(w.file, id)].state != Released
    ensures Safe(Shifted(w.history, id, Committed, txid), limit)
  {
    SafeIsExceptNone(w.history, limit);
    ShiftKeepsSafe(w, id, Committed, txid, {}, limit);
    SafeIsExceptNone(Shifted(w.history, id, Committed, txid), limit);
  }

  /** Pruning loses nothing that counts: at every later instant the file sums to what the whole
      history does, and it still holds every reserved row. */
  lemma PruningIsInvisible(w: World)
    requires Core(w)
    ensures forall now :: w.clock <= now ==> SumWindow(w.file, now, "") == SumWindow(w.history, now, "")
    ensures forall i :: 0 <= i < |w.history| && w.history[i].state == Reserved ==> w.history[i] in w.file
  {
    forall now | w.clock <= now ensures SumWindow(w.file, now, "") == SumWindow(w.history, now, "") {
      FileSumsLikeHistory(w.file, w.history, w.clock, now);
    }
    forall i | 0 <= i < |w.history| && w.history[i].state == Reserved ensures w.history[i] in w.file {
      var id := w.history[i].id;
      FindIsFirst(w.history, id);
      assert Find(w.history, id) == i;
      FindTracks(w.file, w.history, w.clock, id);
    }
  }

  lemma {:induction false} RunKeepsInvExcept(w: World, steps: seq<Step>, out: set<string>, limit: int)
    requires InvExcept(w, out, limit) && EnabledRun(w, steps, limit)
    ensures InvExcept(Run(w, steps), out + AllRevived(w, steps), limit)
    decreases |steps|
  {
    if steps == [] {
      assert out + {} == out;
    } else {
      var revived := Revives(w, steps[0]);
      StepKeepsInvExcept(w, steps[0], out, limit);
      RunKeepsInvExcept(Apply(w, steps[0]), steps[1..], out + revived, limit);
      assert out + revived + AllRevived(Apply(w, steps[0]), steps[1..]) == out + AllRevived(w, steps);
    }
  }

  lemma {:induction false} DisciplineRevivesNone(w: World, steps: seq<Step>)
    requires DisciplinedRun(w, steps)
    ensures AllRevived(w, steps) == {}
    decreases |steps|
  {
    if steps != [] {
      DisciplineRevivesNone(Apply(w, steps[0]), steps[1..]);
    }
  }

  const EMPTY := World([], [], 0)

  /** Rolling-window safety over all runs: whatever the clients do, in whatever order, the rows that
      were never taken back from released to committed stay within the day limit in every window of
      24 hours, so a window exceeds it by at most what the others spend there; and pruning has lost
      nothing that counts. */
  lemma RunsAreSafeButForRevivals(clock: int, steps: seq<Step>, limit: int)
    requires EnabledRun(EMPTY.(clock := clock), steps, limit)
    ensures var w := EMPTY.(clock := clock);
            var v, revived := Run(w, steps), AllRevived(w, steps);
            && (forall at :: SumExcept(v.history, revived, at) == 0 || SumExcept(v.history, revived, at) <= limit)
            && (forall at :: WindowSum(v.history, at) == SumExcept(v.history, revived, at) + SumOf(v.history, revived, at))
            && (forall now :: v.clock <= now ==> SumWindow(v.file, now, "") == SumWindow(v.history, now, ""))
            && (forall i :: 0 <= i < |v.history| && v.history[i].state == Reserved ==> v.history[i] in v.file)
  {
    var w := EMPTY.(clock := clock);
    var v, revived := Run(w, steps), AllRevived(w, steps);
    RunKeepsInvExcept(w, steps, {}, limit);
    assert {} + revived == revived;
    PruningIsInvisible(v);
    forall at ensures WindowSum(v.history, at) == SumExcept(v.history, revived, at) + SumOf(v.history, revived, at) {
      SumSplits(v.history, revived, at);
    }
  }

  /** As long as no commit meets a released row, what is not released never exceeds the day limit. */
  lemma RunsAreSafe(clock: int, steps: seq<Step>, limit: int)
    requires EnabledRun(EMPTY.(clock := clock), steps, limit) && DisciplinedRun(EMPTY.(clock := clock), steps)
    ensures var v := Run(EMPTY.(clock := clock), steps);
            && (forall at :: WindowSum(v.history, at) == 0 || WindowSum(v.history, at) <= limit)
            && (forall now :: v.clock <= now ==> SumWindow(v.file, now, "") == SumWindow(v.history, now, ""))
            && (forall i :: 0 <= i < |v.history| && v.history[i].state == Reserved ==> v.history[i] in v.file)
  {
    RunsAreSafeButForRevivals(clock, steps, limit);
    DisciplineRevivesNone(EMPTY.(clock := clock), steps);
    SafeIsExceptNone(Run(EMPTY.(clock := clock), steps).history, limit);
  }

  /** The discipline cannot be dropped: with any positive limit and any spend that uses it up,
      reserve, release, reserve again and commit the first row doubles the limit. */
  lemma CommittingReleasedRowsBreaksTheWindow(policy: P.Policy, req: P.Check, limit: int) returns (steps: seq<Step>)
    requires limit > 0 && P.WindowCharge(req) == limit
    requires P.ResolveLimits(policy, req.network).maxDay == Some(limit)
    requires P.Evaluate(policy, req, 0, 0) == P.Allowed
    ensures EnabledRun(EMPTY, steps, limit) && !DisciplinedRun(EMPTY, steps)
    ensures WindowSum(Run(EMPTY, steps).history, 0) == 2 * limit > limit
    ensures !Safe(Run(EMPTY, steps).history, limit)
  {
    var s0 := ReserveStep(policy, req, "a", 0, 0, 0, true);
    var s1 := TransitStep("a", Released, "", 0, true);
    var s2 := ReserveStep(policy, req, "b", 0, 0, 0, true);
    var s3 := TransitStep("a", Committed, "", 0, true);
    var a, b := NewRow("a", 0, limit), NewRow("b", 0, limit);
    var ar, ac := a.(state := Released), a.(state := Committed);
    var w1, w2, w3, w4 := World([a], [a], 0), World([ar], [ar], 0), World([ar, b], [ar, b], 0), World([ac, b], [ac, b], 0);
    assert Apply(EMPTY, s0) == w1 by { assert [] + [a] == [a]; assert Prune([a], 0) == [a]; }
    assert Apply(w1, s1) == w2 by { assert [a][0 := ar] == [ar]; assert Prune([ar], 0) == [ar]; }
    assert Apply(w2, s2) == w3 by {
      assert SumWindow([ar], 0, "") == 0;
      assert [ar] + [b] == [ar, b];
      assert [ar, b][1..] == [b];
      assert Prune([b], 0) == [b];
      assert Prune([ar, b], 0) == [ar, b];
    }
    assert Apply(w3, s3) == w4 by {
      assert [ar, b][0 := ac] == [ac, b];
      assert [ac, b][1..] == [b];
      assert Prune([b], 0) == [b];
      assert Prune([ac, b], 0) == [ac, b];
    }
    assert [ac, b][1..] == [b];
    assert WindowSum([b], 0) == limit;
    steps := [s0] + ([s1] + ([s2] + [s3]));
    assert Run(w3, [s3]) == w4;
    assert Run(w2, [s2] + [s3]) == w4;
    assert Run(w1, [s1] + ([s2] + [s3])) == w4;
    assert Run(EMPTY, steps) == w4;
    assert !DisciplinedRun(w3, [s3]) && EnabledRun(w3, [s3], limit);
    assert !DisciplinedRun(w2, [s2] + [s3]) && EnabledRun(w2, [s2] + [s3], limit);
    assert !DisciplinedRun(w1, [s1] + ([s2] + [s3])) && EnabledRun(w1, [s1] + ([s2] + [s3]), limit);
  }
}
