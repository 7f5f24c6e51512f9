/** The capped branch-and-bound search of internal/coinselect/select.go. */
module Bnb {

  const MAX_ITERATIONS := 100_000
  const MAX_INT := 0x7fff_ffff_ffff_ffff

  // ── selections of positions ──────────────────────────────────────────────────

  /** A choice of distinct positions below `n`, none before `lo`, in increasing order. */
  ghost predicate Selection(t: seq<nat>, lo: nat, n: nat) {
    && (forall i :: 0 <= i < |t| ==> lo <= t[i] < n)
    && (forall i, j :: 0 <= i < j < |t| ==> t[i] < t[j])
  }

  /** The sum of the chosen values. */
  ghost function SumAt(ev: seq<int>, t: seq<nat>): int
    requires forall i :: 0 <= i < |t| ==> t[i] < |ev|
  {
    if t == [] then 0 else ev[t[0]] + SumAt(ev, t[1..])
  }

  function Suffix(ev: seq<int>, i: nat): int
    requires i <= |ev|
    decreases |ev| - i
  {
    if i == |ev| then 0 else Suffix(ev, i + 1) + ev[i]
  }

  ghost predicate Positive(ev: seq<int>) { forall i :: 0 <= i < |ev| ==> ev[i] > 0 }

  ghost predicate InWindow(ev: seq<int>, target: int, upper: int, t: seq<nat>) {
    Selection(t, 0, |ev|) && target <= SumAt(ev, t) <= upper
  }

  lemma {:induction false} SumAtAppend(ev: seq<int>, t: seq<nat>, d: nat)
    requires d < |ev| && forall i :: 0 <= i < |t| ==> t[i] < |ev|
    ensures SumAt(ev, t + [d]) == SumAt(ev, t) + ev[d]
  {
    if t == [] {
      assert SumAt(ev, [d]) == ev[d] + SumAt(ev, [d][1..]);
    } else {
      assert (t + [d])[1..] == t[1..] + [d];
      SumAtAppend(ev, t[1..], d);
    }
  }

  lemma {:induction false} SumAtConcat(ev: seq<int>, s: seq<nat>, t: seq<nat>)
    requires forall i :: 0 <= i < |s| ==> s[i] < |ev|
    requires forall i :: 0 <= i < |t| ==> t[i] < |ev|
    ensures SumAt(ev, s + t) == SumAt(ev, s) + SumAt(ev, t)
  {
    if s == [] {
      assert s + t == t;
    } else {
      assert (s + t)[1..] == s[1..] + t;
      SumAtConcat(ev, s[1..], t);
    }
  }

  lemma {:induction false} SelectionTail(t: seq<nat>, lo: nat, n: nat)
    requires Selection(t, lo, n) && t != []
    ensures Selection(t[1..], t[0] + 1, n) && Selection(t, t[0], n)
    ensures t[0] != lo ==> Selection(t, lo + 1, n)
  {
    assert forall i :: 0 <= i < |t[1..]| ==> t[1..][i] == t[i + 1];
  }

  /** No choice from position `lo` on exceeds everything from there on; and it is positive. */
  lemma {:induction false} SelectionBound(ev: seq<int>, t: seq<nat>, lo: nat)
    requires Positive(ev) && lo <= |ev| && Selection(t, lo, |ev|)
    ensures 0 <= SumAt(ev, t) <= Suffix(ev, lo)
    ensures t != [] ==> SumAt(ev, t) > 0
    decreases |ev| - lo
  {
    if lo == |ev| {
      assert t == [];
    } else if t == [] {
      SelectionBound(ev, t, lo + 1);
    } else {
      SelectionTail(t, lo, |ev|);
      if t[0] == lo {
        SelectionBound(ev, t[1..], lo + 1);
      } else {
        SelectionBound(ev, t, lo + 1);
      }
    }
  }

  /** Choosing everything from `lo` on is a selection, with the suffix sum. */
  lemma {:induction false} TakeAll(ev: seq<int>, lo: nat) returns (t: seq<nat>)
    requires lo <= |ev|
    ensures Selection(t, lo, |ev|) && SumAt(ev, t) == Suffix(ev, lo)
    decreases |ev| - lo
  {
    if lo == |ev| {
      t := [];
    } else {
      var r := TakeAll(ev, lo + 1);
      t := [lo] + r;
      assert t[1..] == r;
    }
  }

  // ── the search, as a function of its captured variables ──────────────────────

  /** The variables the search closure updates, apart from the path `cur`. */
  datatype Progress = Progress(haveBest: bool, bestSel: seq<nat>, bestSum: int, iters: nat)

  const START := Progress(false, [], 0, 0)

  /** Fewer inputs first, then the smaller sum. */
  predicate Beats(count: nat, sum: int, p: Progress) {
    !p.haveBest || count < |p.bestSel| || (count == |p.bestSel| && sum < p.bestSum)
  }

  function Record(p: Progress, cur: seq<nat>, sum: int): Progress {
    if Beats(|cur|, sum, p) then p.(haveBest := true, bestSel := cur, bestSum := sum) else p
  }

  function Explore(ev: seq<int>, target: int, upper: int, depth: nat, sum: int, cur: seq<nat>, p: Progress): Progress
    requires depth <= |ev|
    decreases |ev| - depth
  {
    if p.iters >= MAX_ITERATIONS then p
    else
      var q := p.(iters := p.iters + 1);
      if sum > upper then q
      else if sum >= target then Record(q, cur, sum)
      else if depth == |ev| || sum + Suffix(ev, depth) < target then q
      else
        var r := Explore(ev, target, upper, depth + 1, sum + ev[depth], cur + [depth], q);
        Explore(ev, target, upper, depth + 1, sum, cur, r)
  }

  function Search(ev: seq<int>, target: int, upper: int): Progress {
    Explore(ev, target, upper, 0, 0, [], START)
  }

  /** How many calls the search would make if nothing capped it. */
  function Calls(ev: seq<int>, target: int, upper: int, depth: nat, sum: int): nat
    requires depth <= |ev|
    decreases |ev| - depth
  {
    if sum > upper || sum >= target || depth == |ev| || sum + Suffix(ev, depth) < target then 1
    else 1 + Calls(ev, target, upper, depth + 1, sum + ev[depth]) + Calls(ev, target, upper, depth + 1, sum)
  }

  /** The search finishes before the iteration cap cuts it short. */
  predicate Uncapped(ev: seq<int>, target: int, upper: int) {
    Calls(ev, target, upper, 0, 0) <= MAX_ITERATIONS
  }

  // ── the search as it runs ────────────────────────────────────────────────────

  /** The search closure and the variables it captures. */
  class Searcher {
    const effVals: seq<int>
    const suffix: seq<int>
    const target: int
    const upper: int
    var bestSel: seq<nat>
    var bestCount: int
    var bestSum: int
    var haveBest: bool
    var cur: seq<nat>
    var iters: nat

    ghost predicate Valid() reads this {
      && |suffix| == |effVals| + 1
      && (forall i :: 0 <= i <= |effVals| ==> suffix[i] == Suffix(effVals, i))
      && bestCount == (if haveBest then |bestSel| else MAX_INT)
    }

    ghost function State(): Progress reads this { Progress(haveBest, bestSel, bestSum, iters) }

    constructor (effVals: seq<int>, suffix: seq<int>, target: int, upper: int)
      requires |suffix| == |effVals| + 1
      requires forall i :: 0 <= i <= |effVals| ==> suffix[i] == Suffix(effVals, i)
      ensures Valid() && State() == START && cur == []
      ensures this.effVals == effVals && this.target == target && this.upper == upper
    {
      this.effVals, this.suffix, this.target, this.upper := effVals, suffix, target, upper;
      bestSel, bestCount, bestSum, haveBest := [], MAX_INT, 0, false;
      cur, iters := [], 0;
    }

    method Dfs(depth: nat, sum: int)
      requires Valid() && depth <= |effVals|
      modifies this
      ensures Valid() && cur == old(cur)
      ensures State() == Explore(effVals, target, upper, depth, sum, old(cur), old(State()))
      decreases |effVals| - depth
    {
      if iters >= MAX_ITERATIONS {
        return;
      }
      iters := iters + 1;
      if sum > upper {
        return;
      }
      if sum >= target {
        if !haveBest || |cur| < bestCount || (|cur| == bestCount && sum < bestSum) {
          bestSel, bestCount, bestSum, haveBest := cur, |cur|, sum, true;
        }
        return;
      }
      if depth >= |effVals| {
        return;
      }
      if sum + suffix[depth] < target {
        return;
      }
      cur := cur + [depth];
      Dfs(depth + 1, sum + effVals[depth]);
      cur := cur[..|cur| - 1];
      assert cur == old(cur);
      Dfs(depth + 1, sum);
    }
  }

  method Run(effVals: seq<int>, target: int, upper: int) returns (sel: seq<nat>, ok: bool)
    ensures var p := Search(effVals, target, upper);
            ok == p.haveBest && sel == if ok then p.bestSel else []
  {
    var n := |effVals|;
    var suffix := new int[n + 1](_ => 0);
    for i := n downto 0
      invariant forall k :: i <= k <= n ==> suffix[k] == Suffix(effVals, k)
    {
      suffix[i] := suffix[i + 1] + effVals[i];
    }
    var s := new Searcher(effVals, suffix[..], target, upper);
    s.Dfs(0, 0);
    if !s.haveBest {
      return [], false;
    }
    return s.bestSel, true;
  }

  // ── what the search finds ────────────────────────────────────────────────────

  /** The cap counter is exact: the search stops at the cap or after all its calls. */
  lemma {:induction false} IterationCount(ev: seq<int>, target: int, upper: int, depth: nat, sum: int, cur: seq<nat>, p: Progress)
    requires depth <= |ev| && p.iters <= MAX_ITERATIONS
    ensures var q := Explore(ev, target, upper, depth, sum, cur, p);
            var c := p.iters + Calls(ev, target, upper, depth, sum);
            q.iters == if c <= 100_000 then c else 100_000
    decreases |ev| - depth
  {
    if p.iters < MAX_ITERATIONS && !(sum > upper || sum >= target || depth == |ev| || sum + Suffix(ev, depth) < target) {
      var q := p.(iters := p.iters + 1);
      var r := Explore(ev, target, upper, depth + 1, sum + ev[depth], cur + [depth], q);
      IterationCount(ev, target, upper, depth + 1, sum + ev[depth], cur + [depth], q);
      IterationCount(ev, target, upper, depth + 1, sum, cur, r);
    }
  }

  function Pow2(n: nat): nat { if n == 0 then 1 else 2 * Pow2(n - 1) }

  lemma {:induction false} CallsBound(ev: seq<int>, target: int, upper: int, depth: nat, sum: int)
    requires depth <= |ev|
    ensures Calls(ev, target, upper, depth, sum) <= Pow2(|ev| - depth + 1) - 1
    decreases |ev| - depth
  {
    if depth < |ev| {
      CallsBound(ev, target, upper, depth + 1, sum + ev[depth]);
      CallsBound(ev, target, upper, depth + 1, sum);
    } else {
      assert Pow2(1) == 2 * Pow2(0);
    }
  }

  lemma {:induction false} Pow2Monotone(m: nat, n: nat)
    requires m <= n
    ensures Pow2(m) <= Pow2(n)
    decreases n
  {
    if m < n { Pow2Monotone(m, n - 1); }
  }

  /** Fifteen coins or fewer never reach the cap. */
  lemma FifteenCoinsAreUncapped(ev: seq<int>, target: int, upper: int)
    requires |ev| <= 15
    ensures Uncapped(ev, target, upper)
    ensures Search(ev, target, upper).iters == Calls(ev, target, upper, 0, 0) <= 0xffff
  {
    CallsBound(ev, target, upper, 0, 0);
    Pow2Monotone(|ev| + 1, 16);
    assert Pow2(16) == 0x10000 by {
      assert Pow2(4) == 16; assert Pow2(8) == 256; assert Pow2(12) == 4096;
    }
    IterationCount(ev, target, upper, 0, 0, [], START);
  }

  /** What a recorded best must be: a selection in the window, with its own sum. */
  ghost predicate Sound(ev: seq<int>, target: int, upper: int, p: Progress) {
    p.haveBest ==> InWindow(ev, target, upper, p.bestSel) && p.bestSum == SumAt(ev, p.bestSel)
  }

  /** The first best or a later one that beats it. */
  predicate AtLeastAsGood(p: Progress, count: nat, sum: int) {
    p.haveBest && (|p.bestSel| < count || (|p.bestSel| == count && p.bestSum <= sum))
  }

  /** The search branches here. */
  predicate Open(ev: seq<int>, target: int, upper: int, depth: nat, sum: int, p: Progress)
    requires depth <= |ev|
  {
    p.iters < MAX_ITERATIONS && sum <= upper && sum < target && depth < |ev| && sum + Suffix(ev, depth) >= target
  }

  lemma ExtendPath(ev: seq<int>, depth: nat, sum: int, cur: seq<nat>)
    requires depth < |ev| && Selection(cur, 0, depth) && sum == SumAt(ev, cur)
    ensures Selection(cur, 0, depth + 1) && Selection(cur + [depth], 0, depth + 1) && sum + ev[depth] == SumAt(ev, cur + [depth])
  {
    SumAtAppend(ev, cur, depth);
  }

  lemma OpenExplores(ev: seq<int>, target: int, upper: int, depth: nat, sum: int, cur: seq<nat>, p: Progress)
    requires depth <= |ev| && Open(ev, target, upper, depth, sum, p)
    ensures var r := Explore(ev, target, upper, depth + 1, sum + ev[depth], cur + [depth], p.(iters := p.iters + 1));
            Explore(ev, target, upper, depth, sum, cur, p) == Explore(ev, target, upper, depth + 1, sum, cur, r)
  {
  }

  lemma LeafIsSound(ev: seq<int>, target: int, upper: int, depth: nat, sum: int, cur: seq<nat>, p: Progress)
    requires depth <= |ev| && Sound(ev, target, upper, p) && !Open(ev, target, upper, depth, sum, p)
    requires Selection(cur, 0, depth) && sum == SumAt(ev, cur)
    ensures var q := Explore(ev, target, upper, depth, sum, cur, p);
            && Sound(ev, target, upper, q)
            && (p.haveBest ==> AtLeastAsGood(q, |p.bestSel|, p.bestSum))
  {
  }

  lemma {:induction false} DfsSound(ev: seq<int>, target: int, upper: int, depth: nat, sum: int, cur: seq<nat>, p: Progress)
    requires depth <= |ev| && Sound(ev, target, upper, p)
    requires Selection(cur, 0, depth) && sum == SumAt(ev, cur)
    ensures var q := Explore(ev, target, upper, depth, sum, cur, p);
            && Sound(ev, target, upper, q)
            && (p.haveBest ==> AtLeastAsGood(q, |p.bestSel|, p.bestSum))
    decreases |ev| - depth
  {
    if Open(ev, target, upper, depth, sum, p) {
      var q := p.(iters := p.iters + 1);
      var r := Explore(ev, target, upper, depth + 1, sum + ev[depth], cur + [depth], q);
      ExtendPath(ev, depth, sum, cur);
      OpenExplores(ev, target, upper, depth, sum, cur, p);
      hide Explore, Selection, SumAt, Suffix;
      DfsSound(ev, target, upper, depth + 1, sum + ev[depth], cur + [depth], q);
      DfsSound(ev, target, upper, depth + 1, sum, cur, r);
    } else {
      LeafIsSound(ev, target, upper, depth, sum, cur, p);
    }
  }

  /** With or without the cap, a returned choice is distinct positions summing into the window. */
  lemma SearchSound(ev: seq<int>, target: int, upper: int)
    ensures var p := Search(ev, target, upper);
            && Sound(ev, target, upper, p)
            && (p.haveBest ==> InWindow(ev, target, upper, p.bestSel))
  {
    DfsSound(ev, target, upper, 0, 0, [], START);
  }

  /** A path that some remaining choice completes is not pruned. */
  lemma NotPruned(ev: seq<int>, target: int, upper: int, depth: nat, sum: int, t: seq<nat>)
    requires Positive(ev) && depth <= |ev| && sum < target
    requires Selection(t, depth, |ev|) && target <= sum + SumAt(ev, t) <= upper
    ensures t != [] && depth < |ev| && sum <= upper && sum + Suffix(ev, depth) >= target
  {
    SelectionBound(ev, t, depth);
  }

  /** An open node explores both branches, the second from what the first found. */
  lemma BothBranches(ev: seq<int>, target: int, upper: int, depth: nat, sum: int, cur: seq<nat>, p: Progress) returns (r: Progress)
    requires depth < |ev| && sum < target && sum <= upper && sum + Suffix(ev, depth) >= target && p.iters < MAX_ITERATIONS
    requires Sound(ev, target, upper, p) && Selection(cur, 0, depth) && sum == SumAt(ev, cur)
    ensures r == Explore(ev, target, upper, depth + 1, sum + ev[depth], cur + [depth], p.(iters := p.iters + 1))
    ensures Selection(cur + [depth], 0, depth + 1) && sum + ev[depth] == SumAt(ev, cur + [depth])
    ensures Sound(ev, target, upper, r)
    ensures Explore(ev, target, upper, depth, sum, cur, p) == Explore(ev, target, upper, depth + 1, sum, cur, r)
  {
    var q := p.(iters := p.iters + 1);
    SumAtAppend(ev, cur, depth);
    DfsSound(ev, target, upper, depth + 1, sum + ev[depth], cur + [depth], q);
    r := Explore(ev, target, upper, depth + 1, sum + ev[depth], cur + [depth], q);
  }

  /** Neither branch of an open node reaches the cap when the node does not. */
  lemma Budget(ev: seq<int>, target: int, upper: int, depth: nat, sum: int, cur: seq<nat>, p: Progress)
    requires depth <= |ev| && Open(ev, target, upper, depth, sum, p)
    requires p.iters + Calls(ev, target, upper, depth, sum) <= MAX_ITERATIONS
    ensures var q := p.(iters := p.iters + 1);
            && q.iters + Calls(ev, target, upper, depth + 1, sum + ev[depth]) <= MAX_ITERATIONS
            && Explore(ev, target, upper, depth + 1, sum + ev[depth], cur + [depth], q).iters
               + Calls(ev, target, upper, depth + 1, sum) <= MAX_ITERATIONS
  {
    IterationCount(ev, target, upper, depth + 1, sum + ev[depth], cur + [depth], p.(iters := p.iters + 1));
  }

  /** Where some choice completes the path: an open node, with its branches, their budget, and what
      is left of the choice in the one it takes. */
  lemma Completing(ev: seq<int>, target: int, upper: int, depth: nat, sum: int, cur: seq<nat>, p: Progress, t: seq<nat>) returns (r: Progress)
    requires Positive(ev) && depth <= |ev| && sum < target
    requires Sound(ev, target, upper, p) && Selection(cur, 0, depth) && sum == SumAt(ev, cur)
    requires p.iters + Calls(ev, target, upper, depth, sum) <= MAX_ITERATIONS
    requires Selection(t, depth, |ev|) && target <= sum + SumAt(ev, t) <= upper
    ensures depth < |ev| && t != []
    ensures var q := p.(iters := p.iters + 1);
            && Sound(ev, target, upper, q) && Sound(ev, target, upper, r)
            && r == Explore(ev, target, upper, depth + 1, sum + ev[depth], cur + [depth], q)
            && Explore(ev, target, upper, depth, sum, cur, p) == Explore(ev, target, upper, depth + 1, sum, cur, r)
            && q.iters + Calls(ev, target, upper, depth + 1, sum + ev[depth]) <= MAX_ITERATIONS
            && r.iters + Calls(ev, target, upper, depth + 1, sum) <= MAX_ITERATIONS
    ensures Selection(cur, 0, depth + 1) && Selection(cur + [depth], 0, depth + 1) && sum + ev[depth] == SumAt(ev, cur + [depth])
    ensures if t[0] == depth then Selection(t[1..], depth + 1, |ev|) && SumAt(ev, t) == ev[depth] + SumAt(ev, t[1..])
            else Selection(t, depth + 1, |ev|)
  {
    NotPruned(ev, target, upper, depth, sum, t);
    r := BothBranches(ev, target, upper, depth, sum, cur, p);
    Budget(ev, target, upper, depth, sum, cur, p);
    ExtendPath(ev, depth, sum, cur);
    SelectionTail(t, depth, |ev|);
  }

  lemma CompleteLeaf(ev: seq<int>, target: int, upper: int, depth: nat, sum: int, cur: seq<nat>, p: Progress, t: seq<nat>)
    requires Positive(ev) && depth <= |ev| && sum >= target
    requires p.iters + Calls(ev, target, upper, depth, sum) <= MAX_ITERATIONS
    requires Selection(t, depth, |ev|) && sum + SumAt(ev, t) <= upper
    ensures AtLeastAsGood(Explore(ev, target, upper, depth, sum, cur, p), |cur| + |t|, sum + SumAt(ev, t))
  {
    SelectionBound(ev, t, depth);
  }

  /** Below the cap no choice in the window that extends the current path is overlooked. */
  lemma {:induction false} DfsComplete(ev: seq<int>, target: int, upper: int, depth: nat, sum: int, cur: seq<nat>, p: Progress, t: seq<nat>)
    requires Positive(ev) && depth <= |ev|
    requires Sound(ev, target, upper, p) && Selection(cur, 0, depth) && sum == SumAt(ev, cur)
    requires p.iters + Calls(ev, target, upper, depth, sum) <= MAX_ITERATIONS
    requires Selection(t, depth, |ev|) && target <= sum + SumAt(ev, t) <= upper
    ensures AtLeastAsGood(Explore(ev, target, upper, depth, sum, cur, p), |cur| + |t|, sum + SumAt(ev, t))
    decreases |ev| - depth
  {
    hide Explore, Selection, SumAt, Suffix, Calls, Sound, Positive;
    if sum >= target {
      CompleteLeaf(ev, target, upper, depth, sum, cur, p, t);
    } else {
      var r := Completing(ev, target, upper, depth, sum, cur, p, t);
      if t[0] == depth {
        DfsComplete(ev, target, upper, depth + 1, sum + ev[depth], cur + [depth], p.(iters := p.iters + 1), t[1..]);
        DfsSound(ev, target, upper, depth + 1, sum, cur, r);
      } else {
        DfsComplete(ev, target, upper, depth + 1, sum, cur, r, t);
      }
    }
  }

  /** Below the cap the search is exact: it answers iff some choice sums into the window, and
      its answer has the fewest inputs and, among those, the smallest sum. */
  lemma SearchExact(ev: seq<int>, target: int, upper: int)
    requires Positive(ev) && Uncapped(ev, target, upper)
    ensures var p := Search(ev, target, upper);
            && (p.haveBest <==> exists t :: InWindow(ev, target, upper, t))
            && (forall t :: InWindow(ev, target, upper, t) ==> AtLeastAsGood(p, |t|, SumAt(ev, t)))
            && (p.haveBest ==> InWindow(ev, target, upper, p.bestSel) && p.bestSum == SumAt(ev, p.bestSel))
  {
    SearchSound(ev, target, upper);
    forall t | InWindow(ev, target, upper, t)
      ensures AtLeastAsGood(Search(ev, target, upper), |t|, SumAt(ev, t))
    {
      DfsComplete(ev, target, upper, 0, 0, [], START, t);
    }
  }

  // ── the first path of the search ─────────────────────────────────────────────

  /** Everything together in the window is found on the first path, if the cap allows the path. */
  lemma {:induction false} FirstPathFinds(ev: seq<int>, target: int, upper: int, depth: nat, sum: int, cur: seq<nat>, p: Progress)
    requires Positive(ev) && depth <= |ev|
    requires Sound(ev, target, upper, p) && Selection(cur, 0, depth) && sum == SumAt(ev, cur)
    requires target <= sum + Suffix(ev, depth) <= upper
    requires depth == p.iters < MAX_ITERATIONS
    requires |ev| < MAX_ITERATIONS || sum + Suffix(ev, depth) - Suffix(ev, MAX_ITERATIONS - 1) >= target
    ensures Explore(ev, target, upper, depth, sum, cur, p).haveBest
    decreases |ev| - depth
  {
    SuffixShrinks(ev, depth, |ev|);
    if sum < target {
      var r := BothBranches(ev, target, upper, depth, sum, cur, p);
      FirstPathFinds(ev, target, upper, depth + 1, sum + ev[depth], cur + [depth], p.(iters := p.iters + 1));
      DfsSound(ev, target, upper, depth + 1, sum, cur, r);
    }
  }

  /** A first path too long for the cap, still below the window where the cap falls, finds nothing. */
  lemma {:induction false} FirstPathStarves(ev: seq<int>, target: int, upper: int, depth: nat, sum: int, cur: seq<nat>, p: Progress)
    requires Positive(ev) && |ev| >= MAX_ITERATIONS
    requires depth == p.iters <= MAX_ITERATIONS && !p.haveBest
    requires target <= sum + Suffix(ev, depth) <= upper
    requires sum + Suffix(ev, depth) - Suffix(ev, MAX_ITERATIONS - 1) < target
    ensures var q := Explore(ev, target, upper, depth, sum, cur, p);
            !q.haveBest && q.iters >= MAX_ITERATIONS
    decreases |ev| - depth
  {
    if depth < MAX_ITERATIONS {
      SuffixShrinks(ev, depth, MAX_ITERATIONS - 1);
      SuffixShrinks(ev, depth, |ev|);
      FirstPathStarves(ev, target, upper, depth + 1, sum + ev[depth], cur + [depth], p.(iters := p.iters + 1));
    }
  }

  lemma {:induction false} SuffixShrinks(ev: seq<int>, i: nat, j: nat)
    requires Positive(ev) && i <= j <= |ev|
    ensures Suffix(ev, i) >= Suffix(ev, j) >= 0
    ensures i < j ==> Suffix(ev, i) > Suffix(ev, j)
    decreases |ev| - i
  {
    if i < j {
      SuffixShrinks(ev, i + 1, j);
    } else if j < |ev| {
      SuffixShrinks(ev, j + 1, |ev|);
    }
  }

  /** If everything together lies in the window, the search comes back empty-handed exactly when
      the first path meets the cap while still below the window. */
  lemma WholeSetMissedIffStarved(ev: seq<int>, target: int, upper: int)
    requires Positive(ev) && target <= Suffix(ev, 0) <= upper
    ensures !Search(ev, target, upper).haveBest
       <==> |ev| >= MAX_ITERATIONS && Suffix(ev, 0) - Suffix(ev, MAX_ITERATIONS - 1) < target
  {
    if |ev| >= MAX_ITERATIONS && Suffix(ev, 0) - Suffix(ev, MAX_ITERATIONS - 1) < target {
      FirstPathStarves(ev, target, upper, 0, 0, [], START);
    } else {
      FirstPathFinds(ev, target, upper, 0, 0, [], START);
    }
  }
}
