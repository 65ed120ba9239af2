/** What the members of a package go at, from what they pay and what earlier packages went at. */
module PackageRates {
  import opened Basics
  import opened Ancestry
  import opened Packages
  import opened Weights

  // ------------------------------------------------------------------ adding up

  ghost function FeeIn(pool: Pool): TxId -> int {
    t => if t in pool then pool[t].own.fee else 0
  }

  ghost function SizeIn(pool: Pool): TxId -> int {
    t => if t in pool then pool[t].own.size else 0
  }

  ghost function SigopsIn(pool: Pool): TxId -> int {
    t => if t in pool then pool[t].own.sigops else 0
  }

  ghost function WeightIn(pool: Pool): TxId -> int {
    t => if t in pool then pool[t].weight else 0
  }

  /** One by one the members add up to what is kept for them. */
  lemma {:induction false} MembersSum(pool: Pool, ids: seq<TxId>)
    requires Distinct(ids) && Elements(ids) <= pool.Keys
    ensures TotalOf(pool, Elements(ids)) ==
      Totals(Sum(ids, FeeIn(pool)), Sum(ids, SizeIn(pool)), Sum(ids, SigopsIn(pool)))
    ensures WeightOf(pool, Elements(ids)) == Sum(ids, WeightIn(pool))
  {
    if ids == [] {
      assert Elements(ids) == {};
    } else {
      var init, last := ids[..|ids|-1], ids[|ids|-1];
      SplitLast(ids);
      LastIsNew(ids);
      MembersSum(pool, init);
      OneMoreMember(pool, init, last);
    }
  }

  lemma LastIsNew(ids: seq<TxId>)
    requires Distinct(ids) && ids != []
    ensures Distinct(ids[..|ids|-1]) && ids[|ids|-1] !in Elements(ids[..|ids|-1])
    ensures Elements(ids[..|ids|-1]) <= Elements(ids)
  {
  }

  lemma OneMoreMember(pool: Pool, init: seq<TxId>, last: TxId)
    requires last in pool && last !in Elements(init) && Elements(init) <= pool.Keys
    requires TotalOf(pool, Elements(init)) ==
      Totals(Sum(init, FeeIn(pool)), Sum(init, SizeIn(pool)), Sum(init, SigopsIn(pool)))
    requires WeightOf(pool, Elements(init)) == Sum(init, WeightIn(pool))
    ensures var ids := init + [last];
      && Elements(ids) == Elements(init) + {last} && Elements(ids) <= pool.Keys
      && TotalOf(pool, Elements(ids)) ==
           Totals(Sum(ids, FeeIn(pool)), Sum(ids, SizeIn(pool)), Sum(ids, SigopsIn(pool)))
      && WeightOf(pool, Elements(ids)) == Sum(ids, WeightIn(pool))
  {
    var ids := init + [last];
    assert Elements(ids) == Elements(init) + {last};
    assert Elements(ids) - {last} == Elements(init);
    TotalWithout(pool, Elements(ids), last);
    WeightWithout(pool, Elements(ids), last);
    SumWithLast(init, last, FeeIn(pool));
    SumWithLast(init, last, SizeIn(pool));
    SumWithLast(init, last, SigopsIn(pool));
    SumWithLast(init, last, WeightIn(pool));
  }

  lemma SumWithLast(init: seq<TxId>, last: TxId, f: TxId -> int)
    ensures Sum(init + [last], f) == Sum(init, f) + f(last)
  {
    assert (init + [last])[..|init|] == init;
  }

  // --------------------------------------------------------------------- bounds

  /** The rates that bear on `t`: number 0 is its first rate, and number `i` that of the `i`th
      package, if it took an ancestor of `t`. */
  ghost predicate IsBound(ctx: Context, run: seq<Package>, t: TxId, i: nat, r: real) {
    || (i == 0 && t in ctx.firstRate && r == ctx.firstRate[t])
    || (0 < i <= |run| && r == run[i-1].rate && exists a :: a in run[i-1].cluster && a in Ancestors(ctx.txs, t))
  }

  /** A bound of zero counts as none and makes those before it forgotten, unless one of them
      is negative. */
  ghost predicate Forgets(ctx: Context, run: seq<Package>, t: TxId, j: nat) {
    && IsBound(ctx, run, t, j, 0.0)
    && forall i: nat, r {:trigger IsBound(ctx, run, t, i, r)} :: i < j && IsBound(ctx, run, t, i, r) ==> r >= 0.0
  }

  /** The bounds that are not forgotten. */
  ghost predicate Binds(ctx: Context, run: seq<Package>, t: TxId, i: nat, r: real) {
    && IsBound(ctx, run, t, i, r)
    && forall j: nat {:trigger Forgets(ctx, run, t, j)} :: i <= j ==> !Forgets(ctx, run, t, j)
  }

  /** What a package pays for itself. */
  ghost function OwnRate(ctx: Context, p: Package): real {
    ctx.scoring(
      Totals(Sum(p.cluster, FeeIn(ctx.txs)), Sum(p.cluster, SizeIn(ctx.txs)), Sum(p.cluster, SigopsIn(ctx.txs))))
  }

  /** After `run`, the package `p` goes at what it pays for itself, or at the lowest of the
      bounds on its root if one is lower. */
  ghost predicate FairPrice(ctx: Context, run: seq<Package>, p: Package) {
    && p.rate <= OwnRate(ctx, p)
    && (forall i: nat, r {:trigger Binds(ctx, run, p.root, i, r)} :: Binds(ctx, run, p.root, i, r) ==> p.rate <= r)
    && (p.rate == OwnRate(ctx, p) ||
        exists i: nat, r {:trigger Binds(ctx, run, p.root, i, r)} :: Binds(ctx, run, p.root, i, r) && p.rate == r)
  }

  ghost predicate FairAt(ctx: Context, run: seq<Package>, k: nat)
    requires k < |run|
  {
    FairPrice(ctx, run[..k], run[k])
  }

  ghost predicate AllFair(ctx: Context, run: seq<Package>) {
    forall k {:trigger FairAt(ctx, run, k)} :: 0 <= k < |run| ==> FairAt(ctx, run, k)
  }

  // ----------------------------------------------------------- the dependency rate

  /** With one more package only the last bound can be new. */
  lemma BoundsGrow(ctx: Context, run: seq<Package>, t: TxId, i: nat, r: real)
    requires run != []
    ensures i < |run| ==> (IsBound(ctx, run, t, i, r) <==> IsBound(ctx, run[..|run|-1], t, i, r))
    ensures i > |run| ==> !IsBound(ctx, run, t, i, r)
    ensures !IsBound(ctx, run[..|run|-1], t, |run|, r)
  {
    var before := run[..|run|-1];
    if 0 < i < |run| {
      assert before[i-1] == run[i-1];
    }
  }

  lemma ForgetsGrow(ctx: Context, run: seq<Package>, t: TxId, j: nat)
    requires run != [] && j < |run|
    ensures Forgets(ctx, run, t, j) <==> Forgets(ctx, run[..|run|-1], t, j)
  {
    var before := run[..|run|-1];
    BoundsGrow(ctx, run, t, j, 0.0);
    forall i: nat, r | i < j && (IsBound(ctx, run, t, i, r) || IsBound(ctx, before, t, i, r))
      ensures IsBound(ctx, run, t, i, r) && IsBound(ctx, before, t, i, r)
    {
      BoundsGrow(ctx, run, t, i, r);
    }
  }

  /** Nothing binds, and the rate kept is zero; or the rate kept is the lowest that binds. */
  ghost predicate IsLowest(ctx: Context, run: seq<Package>, t: TxId, rate: real) {
    && (rate == 0.0 <==> forall i: nat, r {:trigger Binds(ctx, run, t, i, r)} :: !Binds(ctx, run, t, i, r))
    && (forall i: nat, r {:trigger Binds(ctx, run, t, i, r)} :: Binds(ctx, run, t, i, r) ==> rate <= r)
    && (rate != 0.0 ==> exists i: nat {:trigger Binds(ctx, run, t, i, rate)} :: Binds(ctx, run, t, i, rate))
    && (rate >= 0.0 ==>
        forall i: nat, r {:trigger IsBound(ctx, run, t, i, r)} :: IsBound(ctx, run, t, i, r) ==> r >= 0.0)
  }

  lemma FirstIsKept(ctx: Context, t: TxId)
    requires t in ctx.firstRate
    ensures IsLowest(ctx, [], t, ctx.firstRate[t])
  {
    var first := ctx.firstRate[t];
    assert IsBound(ctx, [], t, 0, first);
    assert Forgets(ctx, [], t, 0) <==> first == 0.0;
    assert first != 0.0 ==> Binds(ctx, [], t, 0, first);
  }

  /** Neither old bounds nor what forgets them change but through a new bound. */
  lemma BindsGrow(ctx: Context, run: seq<Package>, t: TxId, i: nat, r: real)
    requires run != []
    ensures i < |run| ==>
      (Binds(ctx, run, t, i, r) <==> Binds(ctx, run[..|run|-1], t, i, r) && !Forgets(ctx, run, t, |run|))
    ensures i == |run| ==> (Binds(ctx, run, t, i, r) <==> IsBound(ctx, run, t, i, r) && !Forgets(ctx, run, t, |run|))
    ensures i > |run| ==> !Binds(ctx, run, t, i, r)
    ensures i >= |run| ==> !Binds(ctx, run[..|run|-1], t, i, r)
  {
    var before := run[..|run|-1];
    BoundsGrow(ctx, run, t, i, r);
    forall j: nat | i <= j
      ensures j > |run| ==> !Forgets(ctx, run, t, j)
      ensures j >= |run| ==> !Forgets(ctx, before, t, j)
      ensures j < |run| ==> (Forgets(ctx, run, t, j) <==> Forgets(ctx, before, t, j))
    {
      BoundsGrow(ctx, run, t, j, 0.0);
      if j < |run| {
        ForgetsGrow(ctx, run, t, j);
      }
    }
  }

  lemma NoNewBound(ctx: Context, run: seq<Package>, t: TxId, rate: real)
    requires run != [] && Members(run[|run|-1]) !! Ancestors(ctx.txs, t)
    requires IsLowest(ctx, run[..|run|-1], t, rate)
    ensures IsLowest(ctx, run, t, rate)
  {
    var before := run[..|run|-1];
    forall a | a in run[|run|-1].cluster ensures a !in Ancestors(ctx.txs, t) {
      assert a in Members(run[|run|-1]);
    }
    forall i: nat, r
      ensures Binds(ctx, run, t, i, r) <==> Binds(ctx, before, t, i, r)
      ensures IsBound(ctx, run, t, i, r) <==> IsBound(ctx, before, t, i, r)
    {
      BindsGrow(ctx, run, t, i, r);
      BoundsGrow(ctx, run, t, i, r);
    }
    if rate != 0.0 {
      var i: nat :| Binds(ctx, before, t, i, rate);
      assert Binds(ctx, run, t, i, rate);
    }
  }

  lemma NewBound(ctx: Context, run: seq<Package>, t: TxId, rate: real)
    requires run != [] && !(Members(run[|run|-1]) !! Ancestors(ctx.txs, t))
    requires IsLowest(ctx, run[..|run|-1], t, rate)
    ensures IsLowest(ctx, run, t, Cap(rate, run[|run|-1].rate))
  {
    var before, n, last := run[..|run|-1], |run|, run[|run|-1].rate;
    var a :| a in Members(run[n-1]) && a in Ancestors(ctx.txs, t);
    assert a in run[n-1].cluster && IsBound(ctx, run, t, n, last);
    forall i: nat, r
      ensures i != n ==> (IsBound(ctx, run, t, i, r) <==> IsBound(ctx, before, t, i, r))
      ensures i == n ==> (IsBound(ctx, run, t, i, r) <==> r == last)
    {
      BoundsGrow(ctx, run, t, i, r);
      BoundsGrow(ctx, run, t, n, r);
    }
    if rate >= 0.0 && last == 0.0 {
      assert Forgets(ctx, run, t, n);
      forall i: nat, r ensures !Binds(ctx, run, t, i, r) {
        BindsGrow(ctx, run, t, i, r);
      }
    } else {
      LastBinds(ctx, run, t, rate);
    }
  }

  lemma LastBinds(ctx: Context, run: seq<Package>, t: TxId, rate: real)
    requires run != [] && IsLowest(ctx, run[..|run|-1], t, rate)
    requires rate < 0.0 || run[|run|-1].rate != 0.0
    requires forall i: nat, r {:trigger IsBound(ctx, run, t, i, r)} ::
      if i == |run| then IsBound(ctx, run, t, i, r) <==> r == run[|run|-1].rate
      else IsBound(ctx, run, t, i, r) <==> IsBound(ctx, run[..|run|-1], t, i, r)
    ensures IsLowest(ctx, run, t, Cap(rate, run[|run|-1].rate))
  {
    var before, n, last := run[..|run|-1], |run|, run[|run|-1].rate;
    assert !Forgets(ctx, run, t, n) by {
      if rate < 0.0 {
        var i: nat :| Binds(ctx, before, t, i, rate);
        BindsGrow(ctx, run, t, i, rate);
        assert i < n && IsBound(ctx, run, t, i, rate);
      }
    }
    forall i: nat, r
      ensures Binds(ctx, run, t, i, r) <==> Binds(ctx, before, t, i, r) || (i == n && r == last)
    {
      BindsGrow(ctx, run, t, i, r);
    }
    assert Binds(ctx, run, t, n, last);
    if rate != 0.0 {
      var i: nat :| Binds(ctx, before, t, i, rate);
      assert Binds(ctx, run, t, i, rate);
    }
  }

  lemma {:induction false} LowestIsKept(ctx: Context, run: seq<Package>, t: TxId)
    requires t in ctx.firstRate
    ensures IsLowest(ctx, run, t, DependencyRate(ctx, run, t))
  {
    if run == [] {
      FirstIsKept(ctx, t);
    } else {
      var before, last := run[..|run|-1], run[|run|-1];
      LowestIsKept(ctx, before, t);
      if Members(last) !! Ancestors(ctx.txs, t) {
        NoNewBound(ctx, run, t, DependencyRate(ctx, before, t));
      } else {
        NewBound(ctx, run, t, DependencyRate(ctx, before, t));
      }
    }
  }

  // ------------------------------------------------------------------- the price

  /** Every package of a run has a fair price. */
  lemma RunIsFair(ctx: Context, rank: map<TxId, nat>, run: seq<Package>)
    requires WellFormed(ctx) && Ranks(ctx.txs, rank) && IsRun(ctx, run)
    ensures AllFair(ctx, run)
  {
    forall k | 0 <= k < |run| ensures FairAt(ctx, run, k) {
      assert FollowsAt(ctx, run, k);
      NextIsFair(ctx, rank, run[..k], run[k]);
    }
  }

  /** The lower of the two, where zero is no dependency rate. */
  lemma LowerOfTwo(dependencyRate: real, score: real)
    ensures var rate := EffectiveRate(dependencyRate, score);
      && rate <= score && (dependencyRate != 0.0 ==> rate <= dependencyRate)
      && (rate == score || (dependencyRate != 0.0 && rate == dependencyRate))
  {
  }

  lemma NextIsFair(ctx: Context, rank: map<TxId, nat>, run: seq<Package>, p: Package)
    requires WellFormed(ctx) && Ranks(ctx.txs, rank) && Follows(ctx, run, p)
    ensures FairPrice(ctx, run, p)
  {
    NotOwnAncestor(ctx.txs, rank, p.root);
    MembersAddUp(ctx, run, p);
    assert Elements(p.cluster) == Members(p);
    MembersSum(ctx.txs, p.cluster);
    LowestIsKept(ctx, run, p.root);
    LowerOfTwo(DependencyRate(ctx, run, p.root), OwnRate(ctx, p));
  }

  /** A package scores its fee for every `unit` of size. */
  ghost predicate PerSize(scoring: Totals -> real, unit: real) {
    forall x: Totals {:trigger scoring(x)} :: x.size > 0 ==> scoring(x) * x.size as real == unit * x.fee as real
  }

  lemma FeeRateIsPerSize(unit: real)
    requires unit > 0.0
    ensures PerSize(FeeRate(unit), unit)
  {
    forall x: Totals | x.size > 0 ensures FeeRate(unit)(x) * x.size as real == unit * x.fee as real {
      RateTimesSize(x.fee, x.size, x.sigops, unit);
    }
  }

  /** The price of a package comes to no more than its members pay. */
  ghost predicate PaysFor(ctx: Context, p: Package, unit: real) {
    p.rate * Sum(p.cluster, SizeIn(ctx.txs)) as real <= unit * Sum(p.cluster, FeeIn(ctx.txs)) as real
  }

  lemma PackagePays(ctx: Context, rank: map<TxId, nat>, run: seq<Package>, k: nat, unit: real)
    requires WellFormed(ctx) && Ranks(ctx.txs, rank) && IsRun(ctx, run) && AllFair(ctx, run) && k < |run|
    requires PerSize(ctx.scoring, unit)
    ensures PaysFor(ctx, run[k], unit)
  {
    assert FollowsAt(ctx, run, k) && FairAt(ctx, run, k);
    NextPays(ctx, rank, run[..k], run[k], unit);
  }

  lemma NextPays(ctx: Context, rank: map<TxId, nat>, run: seq<Package>, p: Package, unit: real)
    requires WellFormed(ctx) && Ranks(ctx.txs, rank) && Follows(ctx, run, p) && p.rate <= OwnRate(ctx, p)
    requires PerSize(ctx.scoring, unit)
    ensures PaysFor(ctx, p, unit)
  {
    ClusterHasSize(ctx, rank, run, p);
    CheapPays(ctx, p, unit);
  }

  lemma CheapPays(ctx: Context, p: Package, unit: real)
    requires PerSize(ctx.scoring, unit) && Sum(p.cluster, SizeIn(ctx.txs)) > 0 && p.rate <= OwnRate(ctx, p)
    ensures PaysFor(ctx, p, unit)
  {
    OwnRatePays(ctx, p, unit);
    TimesMore(p.rate, OwnRate(ctx, p), Sum(p.cluster, SizeIn(ctx.txs)) as real,
      unit * Sum(p.cluster, FeeIn(ctx.txs)) as real);
  }

  /** What a package pays for itself, times its size, is its fee. */
  lemma OwnRatePays(ctx: Context, p: Package, unit: real)
    requires PerSize(ctx.scoring, unit) && Sum(p.cluster, SizeIn(ctx.txs)) > 0
    ensures OwnRate(ctx, p) * Sum(p.cluster, SizeIn(ctx.txs)) as real == unit * Sum(p.cluster, FeeIn(ctx.txs)) as real
  {
    var x := Totals(Sum(p.cluster, FeeIn(ctx.txs)), Sum(p.cluster, SizeIn(ctx.txs)),
      Sum(p.cluster, SigopsIn(ctx.txs)));
    assert ctx.scoring(x) * x.size as real == unit * x.fee as real;
  }

  lemma ClusterHasSize(ctx: Context, rank: map<TxId, nat>, run: seq<Package>, p: Package)
    requires WellFormed(ctx) && Ranks(ctx.txs, rank) && Follows(ctx, run, p)
    ensures Sum(p.cluster, SizeIn(ctx.txs)) > 0
  {
    NotOwnAncestor(ctx.txs, rank, p.root);
    MembersAddUp(ctx, run, p);
    PackageHasSize(ctx, Used(run), p.root);
    assert Elements(p.cluster) == Members(p);
    MembersSum(ctx.txs, p.cluster);
  }

  lemma TimesMore(a: real, b: real, c: real, d: real)
    requires a <= b && c >= 0.0 && b * c == d
    ensures a * c <= d
  {
  }

  lemma RateTimesSize(fee: int, size: int, sigops: int, unit: real)
    requires unit > 0.0 && size > 0
    ensures FeeRate(unit)(Totals(fee, size, sigops)) * size as real == fee as real * unit
  {
    var s := size as real / unit;
    assert s > 0.0 && s * unit == size as real;
    assert fee as real / s * s == fee as real;
    TimesUnit(fee as real / s, s, unit);
  }

  lemma TimesUnit(x: real, s: real, unit: real)
    ensures x * (s * unit) == x * s * unit
  {
  }
}
