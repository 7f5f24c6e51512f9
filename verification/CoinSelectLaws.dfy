/** What every coin selection satisfies. */
module CoinSelectLaws {
  import opened Orders
  import opened VSize
  import opened CoinSelect
  import Bnb

  // ── sums ─────────────────────────────────────────────────────────────────────

  lemma {:induction false} TotalConcat<T>(a: seq<T>, b: seq<T>, f: T -> int)
    ensures Total(a + b, f) == Total(a, f) + Total(b, f)
  {
    if b == [] {
      assert a + b == a;
    } else {
      assert (a + b)[..|a + b| - 1] == a + b[..|b| - 1];
      TotalConcat(a, b[..|b| - 1], f);
    }
  }

  /** A sum does not depend on the order of its terms. */
  lemma {:induction false} TotalPermutes<T>(a: seq<T>, b: seq<T>, f: T -> int)
    requires multiset(a) == multiset(b)
    ensures Total(a, f) == Total(b, f)
  {
    assert |a| == |multiset(a)| && |b| == |multiset(b)|;
    if a != [] {
      var x, front := a[|a| - 1], a[..|a| - 1];
      assert a == front + [x];
      assert x in multiset(a);
      var l, r := Extract(b, x);
      assert multiset(front) == multiset(a) - multiset{x};
      TotalPermutes(front, l + r, f);
      TotalConcat(l, r, f);
      TotalConcat(l + [x], r, f);
      TotalConcat(l, [x], f);
      assert [x][..0] == [];
    }
  }

  // ── fees ─────────────────────────────────────────────────────────────────────

  /** Each input costs the input fee, and the change output its own fee, on top of the fixed fee. */
  lemma FeeIsAffine(p: Params, n: nat)
    ensures TxFee(p, n, 0) == TxFee(p, 0, 0) + n * InputFee(p)
    ensures TxFee(p, n, 1) == TxFee(p, n, 0) + CostOfChange(p)
    ensures InputFee(p) == 68 * Rate(p) > 0 && CostOfChange(p) == 31 * Rate(p) > 0
    ensures TxFee(p, n, 0) == TxVSize(p, n, 0) * Rate(p) && TxFee(p, n, 1) == TxVSize(p, n, 1) * Rate(p)
  {
    var r, base := Rate(p), OVERHEAD_VBYTES + RecipientVBytes(p);
    assert TxVSize(p, n, 0) == base + n * 68 && TxVSize(p, n, 1) == base + n * 68 + 31;
    assert (base + n * 68) * r == base * r + n * (68 * r);
    assert (base + n * 68 + 31) * r == (base + n * 68) * r + 31 * r;
  }

  // ── the kept candidates ──────────────────────────────────────────────────────

  ghost predicate Priced(k: seq<Candidate>, inputFee: int) {
    forall i :: 0 <= i < |k| ==> k[i].eff == k[i].coin.value - inputFee && Economical(k[i].coin, inputFee)
  }

  /** How often a candidate occurs among the kept ones. */
  lemma {:induction false} KeptCounts(coins: seq<Coin>, inputFee: int, c: Candidate)
    ensures multiset(Kept(coins, inputFee))[c]
         == if Economical(c.coin, inputFee) && c.eff == c.coin.value - inputFee then multiset(coins)[c.coin] else 0
  {
    if coins != [] {
      var front, last := coins[..|coins| - 1], coins[|coins| - 1];
      KeptCounts(front, inputFee, c);
      assert coins == front + [last];
      assert multiset(coins) == multiset(front) + multiset{last};
    }
  }

  lemma KeptPriced(coins: seq<Coin>, inputFee: int)
    ensures Priced(Kept(coins, inputFee), inputFee)
  {
    var k := Kept(coins, inputFee);
    forall i | 0 <= i < |k|
      ensures k[i].eff == k[i].coin.value - inputFee && Economical(k[i].coin, inputFee)
    {
      KeptCounts(coins, inputFee, k[i]);
      assert k[i] in multiset(k);
    }
  }

  lemma PricedPermutes(a: seq<Candidate>, b: seq<Candidate>, inputFee: int)
    requires Priced(a, inputFee) && multiset(a) == multiset(b)
    ensures Priced(b, inputFee) && |a| == |b|
  {
    assert |a| == |multiset(a)| && |b| == |multiset(b)|;
    forall i | 0 <= i < |b| ensures b[i].eff == b[i].coin.value - inputFee && Economical(b[i].coin, inputFee) {
      assert b[i] in multiset(a);
    }
  }

  /** The effective sum of a choice is its value less one input fee each. */
  lemma {:induction false} EffOfPick(k: seq<Candidate>, inputFee: int, t: seq<nat>)
    requires Priced(k, inputFee) && forall i :: 0 <= i < |t| ==> t[i] < |k|
    ensures Bnb.SumAt(EffsOf(k), t) == SumValue(Pick(CoinsOf(k), t)) - |t| * inputFee
  {
    if t != [] {
      var front, last := t[..|t| - 1], t[|t| - 1];
      assert t == front + [last];
      EffOfPick(k, inputFee, front);
      Bnb.SumAtAppend(EffsOf(k), front, last);
      assert Pick(CoinsOf(k), t)[..|t| - 1] == Pick(CoinsOf(k), front);
      assert |t| * inputFee == (|t| - 1) * inputFee + inputFee;
    }
  }

  lemma {:induction false} EffOfAll(k: seq<Candidate>, inputFee: int)
    requires Priced(k, inputFee)
    ensures SumEff(k) == SumValue(CoinsOf(k)) - |k| * inputFee
  {
    if k != [] {
      EffOfAll(k[..|k| - 1], inputFee);
      assert CoinsOf(k)[..|k| - 1] == CoinsOf(k[..|k| - 1]);
      assert |k| * inputFee == (|k| - 1) * inputFee + inputFee;
    }
  }

  /** The sorted candidates, with the facts the later lemmas need. */
  function Ordered(coins: seq<Coin>, p: Params): seq<Candidate> { SortBy(Kept(coins, InputFee(p)), LargestFirst) }

  lemma LargestFirstIsWeakOrder()
    ensures WeakOrder(LargestFirst) && WeakOrder(ByOutpoint)
  {
    LexIsWeakOrder();
    assert forall x, y :: LexLess(x, y) ==> !LexLess(y, x);
    forall x, y, z: Candidate ensures !LargestFirst(y, x) && !LargestFirst(z, y) ==> !LargestFirst(z, x) {
      var a, b, c := x.coin.outpoint, y.coin.outpoint, z.coin.outpoint;
      assert !LexLess(b, a) && !LexLess(c, b) ==> !LexLess(c, a);
    }
    forall x, y, z: Coin ensures !ByOutpoint(y, x) && !ByOutpoint(z, y) ==> !ByOutpoint(z, x) {
      var a, b, c := x.outpoint, y.outpoint, z.outpoint;
      assert !LexLess(b, a) && !LexLess(c, b) ==> !LexLess(c, a);
    }
  }

  lemma OrderedFacts(coins: seq<Coin>, p: Params)
    ensures var k, kept := Ordered(coins, p), Kept(coins, InputFee(p));
            && Priced(k, InputFee(p)) && multiset(k) == multiset(kept) && |k| == |kept|
            && SumEff(k) == SumEff(kept) == SumValue(CoinsOf(k)) - |k| * InputFee(p)
            && Bnb.Positive(EffsOf(k))
  {
    LargestFirstIsWeakOrder();
    var kept := Kept(coins, InputFee(p));
    SortBySorts(kept, LargestFirst);
    KeptPriced(coins, InputFee(p));
    PricedPermutes(kept, Ordered(coins, p), InputFee(p));
    TotalPermutes(kept, Ordered(coins, p), Eff);
    EffOfAll(Ordered(coins, p), InputFee(p));
  }

  // ── value conservation ───────────────────────────────────────────────────────

  /** Value is conserved with a tight fee. */
  ghost predicate Conserving(p: Params, s: Selected) {
    && SumValue(s.inputs) == p.target + s.fee + s.change
    && s.vsize == TxVSize(p, |s.inputs|, if s.hasChange then 1 else 0)
    && (if s.hasChange then s.change >= DUST && s.fee == s.vsize * Rate(p)
        else s.change == 0 && s.vsize * Rate(p) <= s.fee < s.vsize * Rate(p) + 31 * Rate(p) + DUST)
    && Sorted(s.inputs, ByOutpoint)
  }

  lemma SortedInputs(picked: seq<Coin>)
    ensures var s := SortBy(picked, ByOutpoint);
            && Sorted(s, ByOutpoint) && |s| == |picked| && multiset(s) == multiset(picked) && SumValue(s) == SumValue(picked)
  {
    LargestFirstIsWeakOrder();
    SortBySorts(picked, ByOutpoint);
    TotalPermutes(SortBy(picked, ByOutpoint), picked, Value);
  }

  /** Distinct positions pick a sub-multiset. */
  lemma {:induction false} PickIsSubset(cs: seq<Coin>, t: seq<nat>)
    requires Bnb.Selection(t, 0, |cs|)
    ensures multiset(Pick(cs, t)) <= multiset(cs)
  {
    if t == [] {
      assert Pick(cs, t) == [];
    } else {
      var front, last := t[..|t| - 1], t[|t| - 1];
      PickIsSubset(cs[..last], front);
      assert Pick(cs, t) == Pick(cs[..last], front) + [cs[last]];
      assert cs == cs[..last] + [cs[last]] + cs[last + 1..];
    }
  }

  lemma CoinsOfKept(coins: seq<Coin>, p: Params)
    ensures multiset(CoinsOf(Ordered(coins, p))) <= multiset(coins)
  {
    OrderedFacts(coins, p);
    CoinsOfPermuted(Ordered(coins, p), Kept(coins, InputFee(p)));
    CoinsOfFiltered(coins, InputFee(p));
  }

  lemma {:induction false} CoinsOfFiltered(coins: seq<Coin>, inputFee: int)
    ensures multiset(CoinsOf(Kept(coins, inputFee))) <= multiset(coins)
  {
    if coins == [] {
      assert CoinsOf(Kept(coins, inputFee)) == [];
    } else {
      var front, last := coins[..|coins| - 1], coins[|coins| - 1];
      CoinsOfFiltered(front, inputFee);
      assert coins == front + [last];
      var k := Kept(front, inputFee);
      assert CoinsOf(k + [Candidate(last, last.value - inputFee)]) == CoinsOf(k) + [last];
    }
  }

  lemma CoinsOfConcat(a: seq<Candidate>, b: seq<Candidate>)
    ensures CoinsOf(a + b) == CoinsOf(a) + CoinsOf(b)
  {
  }

  lemma {:induction false} CoinsOfPermuted(a: seq<Candidate>, b: seq<Candidate>)
    requires multiset(a) == multiset(b)
    ensures multiset(CoinsOf(a)) == multiset(CoinsOf(b))
  {
    assert |a| == |multiset(a)| && |b| == |multiset(b)|;
    if a == [] {
      assert CoinsOf(a) == CoinsOf(b);
    } else {
      var x := a[0];
      assert a == [x] + a[1..];
      assert x in multiset(a);
      var l, r := Extract(b, x);
      assert multiset(a[1..]) == multiset(a) - multiset{x};
      CoinsOfPermuted(a[1..], l + r);
      assert CoinsOf(a) == [x.coin] + CoinsOf(a[1..]);
      CoinsOfConcat(l, r);
      CoinsOfConcat(l + [x], r);
      CoinsOfConcat(l, [x]);
      assert CoinsOf([x]) == [x.coin];
    }
  }

  lemma {:induction false} FirstWithRoomIsFirst(p: Params, cs: seq<Coin>, n: nat)
    requires n <= |cs|
    ensures var k := FirstWithRoom(p, cs, n);
            && n < k <= |cs| + 1
            && (k <= |cs| ==> RoomForChange(p, cs, k))
            && (forall j :: n < j < k && j <= |cs| ==> !RoomForChange(p, cs, j))
    decreases |cs| - n
  {
    if n < |cs| { FirstWithRoomIsFirst(p, cs, n + 1); }
  }

  lemma ChangelessConserves(p: Params, picked: seq<Coin>)
    requires TxFee(p, |picked|, 0) <= SumValue(picked) - p.target < TxFee(p, |picked|, 1) + DUST
    ensures Conserving(p, Changeless(p, picked))
  {
    SortedInputs(picked);
    FeeIsAffine(p, |picked|);
  }

  lemma WithChangeConserves(p: Params, picked: seq<Coin>)
    requires SumValue(picked) >= p.target + TxFee(p, |picked|, 1) + DUST
    ensures Conserving(p, WithChange(p, picked))
  {
    SortedInputs(picked);
    FeeIsAffine(p, |picked|);
  }

  /** A choice in the search window is a changeless transaction with a tight fee. */
  lemma WindowMeansTightFee(p: Params, k: seq<Candidate>, t: seq<nat>)
    requires Priced(k, InputFee(p)) && Bnb.Selection(t, 0, |k|)
    ensures Bnb.InWindow(EffsOf(k), WindowLow(p), WindowHigh(p), t)
       <==> TxFee(p, |t|, 0) <= SumValue(Pick(CoinsOf(k), t)) - p.target < TxFee(p, |t|, 1) + DUST
  {
    EffOfPick(k, InputFee(p), t);
    FeeIsAffine(p, |t|);
  }

  /** The fallback spends a prefix, and conserves value whenever it pays. */
  lemma FallbackConserves(p: Params, cs: seq<Coin>)
    requires ValidTarget(p)
    ensures match Fallback(p, cs)
            case Funded(s) => Conserving(p, s) && multiset(s.inputs) <= multiset(cs)
            case _ => true
  {
    FirstWithRoomIsFirst(p, cs, 0);
    var n := FirstWithRoom(p, cs, 0);
    if n <= |cs| {
      WithChangeConserves(p, cs[..n]);
      SortedInputs(cs[..n]);
      assert cs == cs[..n] + cs[n..];
    } else if SumValue(cs) >= p.target + TxFee(p, |cs|, 0) {
      assert cs[..|cs|] == cs;
      FeeIsAffine(p, |cs|);
      assert TxVSize(p, |cs|, 0) > 0;
      assert cs != [];
      assert !RoomForChange(p, cs, |cs|);
      ChangelessConserves(p, cs);
      SortedInputs(cs);
    }
  }

  /** Every selection conserves value with a tight fee, never makes dust, and uses each coin
      at most once. */
  lemma SelectConserves(coins: seq<Coin>, p: Params)
    ensures match Selection(coins, p)
            case Funded(s) =>
              && ValidTarget(p) && Conserving(p, s)
              && multiset(s.inputs) <= multiset(CoinsOf(Ordered(coins, p))) && multiset(s.inputs) <= multiset(coins)
            case BadAmount => p.target <= 0
            case DustOutput => 0 < p.target < DUST
            case Insufficient(_, _) => ValidTarget(p)
  {
    if ValidTarget(p) && SumEff(Kept(coins, InputFee(p))) >= WindowLow(p) {
      var k := Ordered(coins, p);
      var cs := CoinsOf(k);
      OrderedFacts(coins, p);
      CoinsOfKept(coins, p);
      Bnb.SearchSound(EffsOf(k), WindowLow(p), WindowHigh(p));
      var found := Bnb.Search(EffsOf(k), WindowLow(p), WindowHigh(p));
      if found.haveBest {
        WindowMeansTightFee(p, k, found.bestSel);
        ChangelessConserves(p, Pick(cs, found.bestSel));
        PickIsSubset(cs, found.bestSel);
        SortedInputs(Pick(cs, found.bestSel));
      } else {
        FallbackConserves(p, cs);
      }
    }
  }

  // ── completeness ─────────────────────────────────────────────────────────────

  /** Distinct coins of the caller's list pay the target and the changeless fee for so many inputs. */
  ghost predicate PaysWith(coins: seq<Coin>, p: Params, t: seq<nat>) {
    Bnb.Selection(t, 0, |coins|) && SumValue(Pick(coins, t)) >= p.target + TxFee(p, |t|, 0)
  }

  /** No choice of coins is worth more, net of input fees, than the kept ones. */
  lemma {:induction false} KeptIsBest(coins: seq<Coin>, inputFee: int, t: seq<nat>)
    requires inputFee > 0 && Bnb.Selection(t, 0, |coins|)
    ensures SumValue(Pick(coins, t)) - |t| * inputFee <= SumEff(Kept(coins, inputFee))
  {
    if coins == [] {
      assert t == [];
    } else {
      var n := |coins| - 1;
      var front := coins[..n];
      var kept := Kept(front, inputFee);
      assert (kept + [Candidate(coins[n], coins[n].value - inputFee)])[..|kept|] == kept;
      if t != [] && t[|t| - 1] == n {
        var s := t[..|t| - 1];
        KeptIsBest(front, inputFee, s);
        assert Pick(coins, t)[..|t| - 1] == Pick(front, s);
        assert |t| * inputFee == (|t| - 1) * inputFee + inputFee;
      } else {
        assert Bnb.Selection(t, 0, n) by {
          forall i | 0 <= i < |t| ensures t[i] < n { assert i < |t| - 1 ==> t[i] < t[|t| - 1]; }
        }
        KeptIsBest(front, inputFee, t);
        assert Pick(coins, t) == Pick(front, t);
      }
    }
  }

  /** The kept coins themselves are such a choice. */
  lemma {:induction false} KeptPositions(coins: seq<Coin>, inputFee: int) returns (t: seq<nat>)
    ensures Bnb.Selection(t, 0, |coins|)
    ensures SumValue(Pick(coins, t)) - |t| * inputFee == SumEff(Kept(coins, inputFee))
  {
    t := [];
    if coins != [] {
      var n := |coins| - 1;
      var front := coins[..n];
      var kept := Kept(front, inputFee);
      assert (kept + [Candidate(coins[n], coins[n].value - inputFee)])[..|kept|] == kept;
      var s := KeptPositions(front, inputFee);
      t := s;
      assert Pick(coins, s) == Pick(front, s);
      if Economical(coins[n], inputFee) {
        t := s + [n];
        assert Pick(coins, t)[..|t| - 1] == Pick(front, s);
        assert |t| * inputFee == (|t| - 1) * inputFee + inputFee;
      }
    }
  }

  /** The insufficiency gate decides exactly whether any choice of coins pays. */
  lemma GateIsExact(coins: seq<Coin>, p: Params)
    ensures SumEff(Kept(coins, InputFee(p))) >= WindowLow(p) <==> exists t :: PaysWith(coins, p, t)
  {
    FeeIsAffine(p, 0);
    var t := KeptPositions(coins, InputFee(p));
    FeeIsAffine(p, |t|);
    assert SumEff(Kept(coins, InputFee(p))) >= WindowLow(p) ==> PaysWith(coins, p, t);
    forall u | PaysWith(coins, p, u) ensures SumEff(Kept(coins, InputFee(p))) >= WindowLow(p) {
      KeptIsBest(coins, InputFee(p), u);
      FeeIsAffine(p, |u|);
    }
  }

  lemma FallbackPays(p: Params, k: seq<Candidate>)
    requires Priced(k, InputFee(p)) && SumEff(k) >= WindowLow(p)
    ensures Fallback(p, CoinsOf(k)).Funded?
  {
    EffOfAll(k, InputFee(p));
    FeeIsAffine(p, |k|);
  }

  /** Selection succeeds exactly when some choice of distinct coins can pay, so the
      insufficient-funds answer after the fallback is never given. */
  lemma SelectComplete(coins: seq<Coin>, p: Params)
    requires ValidTarget(p)
    ensures Selection(coins, p).Funded? <==> exists t :: PaysWith(coins, p, t)
    ensures Selection(coins, p).Insufficient? ==> SumEff(Kept(coins, InputFee(p))) < WindowLow(p)
  {
    GateIsExact(coins, p);
    if SumEff(Kept(coins, InputFee(p))) >= WindowLow(p) {
      OrderedFacts(coins, p);
      FallbackPays(p, Ordered(coins, p));
      Bnb.SearchSound(EffsOf(Ordered(coins, p)), WindowLow(p), WindowHigh(p));
    }
  }

  // ── the changeless tail ──────────────────────────────────────────────────────

  /** Control reaches the changeless spend of every kept coin after the largest-first loop. */
  ghost predicate TailReached(coins: seq<Coin>, p: Params) {
    var k := Ordered(coins, p);
    && ValidTarget(p) && SumEff(k) >= WindowLow(p)
    && !Bnb.Search(EffsOf(k), WindowLow(p), WindowHigh(p)).haveBest
    && FirstWithRoom(p, CoinsOf(k), 0) > |k|
  }

  lemma {:induction false} SuffixIsSum(k: seq<Candidate>, n: nat)
    requires n <= |k|
    ensures SumEff(k[..n]) + Bnb.Suffix(EffsOf(k), n) == Bnb.Suffix(EffsOf(k), 0)
  {
    if n == 0 {
      assert k[..0] == [];
    } else {
      SuffixIsSum(k, n - 1);
      assert k[..n][..n - 1] == k[..n - 1];
    }
  }

  lemma {:induction false} PrefixRoom(k: seq<Candidate>, p: Params, n: nat)
    requires Priced(k, InputFee(p)) && n <= |k|
    ensures RoomForChange(p, CoinsOf(k), n) <==> SumEff(k[..n]) > WindowHigh(p)
  {
    EffOfAll(k[..n], InputFee(p));
    assert CoinsOf(k)[..n] == CoinsOf(k[..n]);
    FeeIsAffine(p, n);
  }

  /** The tail runs exactly when all kept coins together lie in the changeless window and there
      are so many of them that the search is capped before its first path enters the window. */
  lemma TailNeedsHundredThousandCoins(coins: seq<Coin>, p: Params)
    requires ValidTarget(p)
    ensures var k := Ordered(coins, p);
            (TailReached(coins, p)
             <==> (WindowLow(p) <= SumEff(k) <= WindowHigh(p) && |k| >= 100_000 && SumEff(k[..99_999]) < WindowLow(p)))
    ensures TailReached(coins, p) ==> !Bnb.Uncapped(EffsOf(Ordered(coins, p)), WindowLow(p), WindowHigh(p))
  {
    var k := Ordered(coins, p);
    var ev, cs, n := EffsOf(k), CoinsOf(k), |k|;
    OrderedFacts(coins, p);
    FirstWithRoomIsFirst(p, cs, 0);
    SuffixIsSum(k, n);
    assert k[..n] == k;
    if |k| >= Bnb.MAX_ITERATIONS { SuffixIsSum(k, Bnb.MAX_ITERATIONS - 1); }
    forall j | 0 < j <= n ensures RoomForChange(p, cs, j) ==> SumEff(k) > WindowHigh(p) {
      PrefixRoom(k, p, j);
      SuffixIsSum(k, j);
      Bnb.SuffixShrinks(ev, j, n);
    }
    FeeIsAffine(p, 0);
    assert SumEff(k) >= WindowLow(p) ==> n > 0;
    if n > 0 { PrefixRoom(k, p, n); }
    if WindowLow(p) <= SumEff(k) <= WindowHigh(p) {
      Bnb.WholeSetMissedIffStarved(ev, WindowLow(p), WindowHigh(p));
      var t := Bnb.TakeAll(ev, 0);
      assert Bnb.InWindow(ev, WindowLow(p), WindowHigh(p), t);
      if Bnb.Uncapped(ev, WindowLow(p), WindowHigh(p)) { Bnb.SearchExact(ev, WindowLow(p), WindowHigh(p)); }
    }
  }

  // ── optimality ───────────────────────────────────────────────────────────────

  /** A changeless transaction whose fee wastes less than a change output would cost. */
  ghost predicate Tight(p: Params, cs: seq<Coin>, t: seq<nat>) {
    && Bnb.Selection(t, 0, |cs|)
    && TxFee(p, |t|, 0) <= SumValue(Pick(cs, t)) - p.target < TxFee(p, |t|, 1) + DUST
  }

  /** Below the cap, a tight changeless transaction is found whenever the economical coins allow
      one, with the fewest inputs and then the lowest fee. */
  lemma SelectPrefersTight(coins: seq<Coin>, p: Params, t: seq<nat>)
    requires ValidTarget(p)
    requires Bnb.Uncapped(EffsOf(Ordered(coins, p)), WindowLow(p), WindowHigh(p))
    requires Tight(p, CoinsOf(Ordered(coins, p)), t)
    ensures var r := Selection(coins, p);
            && r.Funded? && !r.tx.hasChange
            && (|r.tx.inputs| < |t|
                || (|r.tx.inputs| == |t| && r.tx.fee <= SumValue(Pick(CoinsOf(Ordered(coins, p)), t)) - p.target))
  {
    var k := Ordered(coins, p);
    var ev, cs := EffsOf(k), CoinsOf(k);
    OrderedFacts(coins, p);
    WindowMeansTightFee(p, k, t);
    Bnb.SelectionBound(ev, t, 0);
    var all := Bnb.TakeAll(ev, 0);
    SuffixIsSum(k, |k|);
    assert k[..|k|] == k;
    Bnb.SearchExact(ev, WindowLow(p), WindowHigh(p));
    var best := Bnb.Search(ev, WindowLow(p), WindowHigh(p)).bestSel;
    EffOfPick(k, InputFee(p), t);
    EffOfPick(k, InputFee(p), best);
    SortedInputs(Pick(cs, best));
  }

  /** In a list sorted largest first no `m` entries sum to more than the first `m`. */
  lemma {:induction false} PrefixDominates(k: seq<Candidate>, t: seq<nat>)
    requires Sorted(k, LargestFirst) && Bnb.Selection(t, 0, |k|)
    ensures |t| <= |k| && Bnb.SumAt(EffsOf(k), t) <= SumEff(k[..|t|])
    ensures t != [] ==> t[|t| - 1] >= |t| - 1
  {
    if t == [] {
      assert k[..0] == [];
    } else {
      var m := |t| - 1;
      PrefixDominates(k, t[..m]);
      assert m > 0 ==> t[m - 1] < t[m];
      assert t == t[..m] + [t[m]];
      Bnb.SumAtAppend(EffsOf(k), t[..m], t[m]);
      assert k[..m + 1][..m] == k[..m];
      assert m < t[m] ==> !LargestFirst(k[t[m]], k[m]);
    }
  }

  /** A transaction with change uses the fewest inputs of all transactions with change that the
      economical coins allow. */
  lemma ChangeUsesFewestInputs(coins: seq<Coin>, p: Params, t: seq<nat>)
    requires Selection(coins, p).Funded? && Selection(coins, p).tx.hasChange
    requires var cs := CoinsOf(Ordered(coins, p));
             && Bnb.Selection(t, 0, |cs|) && t != []
             && SumValue(Pick(cs, t)) >= p.target + TxFee(p, |t|, 1) + DUST
    ensures |Selection(coins, p).tx.inputs| <= |t|
  {
    var k := Ordered(coins, p);
    OrderedFacts(coins, p);
    LargestFirstIsWeakOrder();
    SortBySorts(Kept(coins, InputFee(p)), LargestFirst);
    PrefixDominates(k, t);
    EffOfPick(k, InputFee(p), t);
    FeeIsAffine(p, |t|);
    PrefixRoom(k, p, |t|);
    FirstWithRoomIsFirst(p, CoinsOf(k), 0);
    SortedInputs(CoinsOf(k)[..FirstWithRoom(p, CoinsOf(k), 0)]);
  }

  // ── independence from the input order ────────────────────────────────────────

  ghost predicate DistinctOutpoints(coins: seq<Coin>) {
    forall i, j :: 0 <= i < j < |coins| ==> coins[i].outpoint != coins[j].outpoint
  }

  lemma KeptNeverTies(coins: seq<Coin>, inputFee: int)
    requires DistinctOutpoints(coins)
    ensures NoTies(Kept(coins, inputFee), LargestFirst)
  {
    KeptPriced(coins, inputFee);
    var k := Kept(coins, inputFee);
    forall x, y | x in k && y in k && x != y ensures LargestFirst(x, y) || LargestFirst(y, x) {
      assert x in multiset(k) && y in multiset(k);
      KeptCounts(coins, inputFee, x);
      KeptCounts(coins, inputFee, y);
      assert x.coin in multiset(coins) && y.coin in multiset(coins);
      LexTotal(x.coin.outpoint, y.coin.outpoint);
    }
  }

  /** The same coins in any order give the same transaction or the same error. */
  lemma SelectIgnoresOrder(a: seq<Coin>, b: seq<Coin>, p: Params)
    requires multiset(a) == multiset(b) && DistinctOutpoints(a)
    ensures Selection(a, p) == Selection(b, p)
  {
    var f := InputFee(p);
    var ka, kb := Kept(a, f), Kept(b, f);
    forall c ensures multiset(ka)[c] == multiset(kb)[c] {
      KeptCounts(a, f, c);
      KeptCounts(b, f, c);
    }
    assert multiset(ka) == multiset(kb);
    KeptNeverTies(a, f);
    LargestFirstIsWeakOrder();
    SortByForgetsOrder(ka, kb, LargestFirst);
    TotalPermutes(ka, kb, Eff);
    CoinsOfPermuted(ka, kb);
    TotalPermutes(CoinsOf(ka), CoinsOf(kb), Value);
  }

  // ── machine integers ─────────────────────────────────────────────────────────

  const MONEY_CAP := 2_100_000_000_000_000
  const MAX_FEE_RATE := 10_000_000

  predicate InInt64(x: int) { -0x8000_0000_0000_0000 <= x <= 0x7fff_ffff_ffff_ffff }

  lemma {:induction false} SumIsCapped(cs: seq<Coin>)
    requires forall i :: 0 <= i < |cs| ==> 0 <= cs[i].value <= MONEY_CAP
    ensures 0 <= SumValue(cs) <= |cs| * MONEY_CAP
  {
    if cs != [] { SumIsCapped(cs[..|cs| - 1]); }
  }

  lemma AtMost4000Kept(coins: seq<Coin>, p: Params)
    requires |coins| <= 4000 && forall i :: 0 <= i < |coins| ==> coins[i].value <= MONEY_CAP
    ensures var k := Ordered(coins, p);
            |k| <= 4000 && forall i :: 0 <= i < |k| ==> 0 <= CoinsOf(k)[i].value <= MONEY_CAP
  {
    var k := Ordered(coins, p);
    var cs := CoinsOf(k);
    OrderedFacts(coins, p);
    CoinsOfKept(coins, p);
    SubsetSize(multiset(cs), multiset(coins));
    assert |cs| == |multiset(cs)| && |coins| == |multiset(coins)|;
    forall i | 0 <= i < |cs| ensures 0 <= cs[i].value <= MONEY_CAP {
      assert Economical(k[i].coin, InputFee(p));
      assert cs[i] in multiset(cs);
      assert cs[i] in multiset(coins);
    }
  }

  /** Sums along any path `t` of the search up to `depth`, and over the coins on it. */
  lemma SumsFit(k: seq<Candidate>, inputFee: int, t: seq<nat>, depth: nat)
    requires Priced(k, inputFee) && inputFee > 0 && |k| <= 4000 && Bnb.Selection(t, 0, depth) && depth <= |k|
    requires forall i :: 0 <= i < |k| ==> 0 <= CoinsOf(k)[i].value <= MONEY_CAP
    ensures var ev := EffsOf(k);
            && 0 <= SumEff(k) <= SumValue(CoinsOf(k)) <= 4000 * MONEY_CAP
            && 0 <= Bnb.SumAt(ev, t) && 0 <= Bnb.Suffix(ev, depth)
            && Bnb.SumAt(ev, t) + Bnb.Suffix(ev, depth) <= SumEff(k)
            && 0 <= SumValue(Pick(CoinsOf(k), t)) <= 4000 * MONEY_CAP
  {
    var cs, ev := CoinsOf(k), EffsOf(k);
    SumIsCapped(cs);
    EffOfAll(k, inputFee);
    SuffixIsSum(k, |k|);
    assert k[..|k|] == k;
    assert Bnb.Positive(ev);
    Bnb.SelectionBound(ev, t, 0);
    Bnb.SuffixShrinks(ev, depth, |ev|);
    PathAndRest(ev, t, depth);
    SelectionLength(t, depth);
    SumIsCapped(Pick(cs, t));
  }

  /** For up to 4000 coins within the money cap, a target within it, a rate within the parser's
      cap and an output of at most 10 kvB, no sum, product or comparison operand of the selection
      or of its search leaves 64 bits: `t` is any path of the search down to `depth`. */
  lemma NoOverflow(coins: seq<Coin>, p: Params, t: seq<nat>, depth: nat)
    requires |coins| <= 4000 && forall i :: 0 <= i < |coins| ==> coins[i].value <= MONEY_CAP
    requires 0 < p.target <= MONEY_CAP && p.feeRate <= MAX_FEE_RATE && p.recipientVBytes <= 10_000
    requires Bnb.Selection(t, 0, depth) && depth <= |Ordered(coins, p)|
    ensures var k := Ordered(coins, p);
            && InInt64(SumValue(CoinsOf(k))) && InInt64(SumEff(k))
            && InInt64(Bnb.SumAt(EffsOf(k), t)) && InInt64(SumValue(Pick(CoinsOf(k), t)))
            && InInt64(Bnb.SumAt(EffsOf(k), t) + Bnb.Suffix(EffsOf(k), depth))
            && InInt64(WindowHigh(p) + 1) && InInt64(p.target + TxFee(p, |t|, 1) + DUST)
            && InInt64(SumValue(Pick(CoinsOf(k), t)) - p.target - TxFee(p, |t|, 1))
            && InInt64(p.target + TxFee(p, 1, 0))
            && (forall i :: 0 <= i < |coins| && coins[i].value > 0 ==> InInt64(coins[i].value - InputFee(p)))
  {
    AtMost4000Kept(coins, p);
    OrderedFacts(coins, p);
    FeeIsAffine(p, 0);
    SumsFit(Ordered(coins, p), InputFee(p), t, depth);
    SelectionLength(t, depth);
    SmallFee(p, |t|);
    SmallFee(p, 0);
    SmallFee(p, 1);
  }

  lemma SubsetSize<T>(a: multiset<T>, b: multiset<T>)
    requires a <= b
    ensures |a| <= |b|
  {
    assert b == a + (b - a);
  }

  lemma {:induction false} SelectionLength(t: seq<nat>, n: nat)
    requires Bnb.Selection(t, 0, n)
    ensures |t| <= n
  {
    if t != [] {
      SelectionLength(t[..|t| - 1], t[|t| - 1]);
    }
  }

  lemma SmallFee(p: Params, n: nat)
    requires n <= 4000 && p.feeRate <= MAX_FEE_RATE && p.recipientVBytes <= 10_000
    ensures 0 <= TxFee(p, n, 0) <= TxFee(p, n, 1) <= 300_000 * MAX_FEE_RATE
    ensures 0 <= InputFee(p) <= 68 * MAX_FEE_RATE
    ensures 0 <= CostOfChange(p) <= 31 * MAX_FEE_RATE
  {
    FeeIsAffine(p, n);
    assert 0 < TxVSize(p, n, 1) <= 300_000;
    ProductBound(TxVSize(p, n, 1), Rate(p), 300_000, MAX_FEE_RATE);
  }

  lemma ProductBound(a: int, b: int, m: int, n: int)
    requires 0 <= a <= m && 0 <= b <= n
    ensures 0 <= a * b <= m * n
  {
    assert a * b <= m * b;
    assert m * b <= m * n;
  }

  /** A path up to `depth` together with everything after it is at most everything. */
  lemma {:induction false} PathAndRest(ev: seq<int>, t: seq<nat>, depth: nat)
    requires Bnb.Positive(ev) && depth <= |ev| && Bnb.Selection(t, 0, depth)
    ensures Bnb.SumAt(ev, t) + Bnb.Suffix(ev, depth) <= Bnb.Suffix(ev, 0)
  {
    var rest := Bnb.TakeAll(ev, depth);
    Bnb.SumAtConcat(ev, t, rest);
    Bnb.SelectionBound(ev, t + rest, 0);
  }
}
