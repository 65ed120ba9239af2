/** Adding up block weight and signature operations. */
module Weights {
  import opened Basics
  import opened Ancestry
  import opened Packages

  ghost function WeightOf(pool: Pool, s: set<TxId>): nat
    requires s <= pool.Keys
  {
    if s == {} then 0
    else
      var x :| x in s;
      pool[x].weight + WeightOf(pool, s - {x})
  }

  lemma {:induction false} WeightWithout(pool: Pool, s: set<TxId>, x: TxId)
    requires s <= pool.Keys && x in s
    ensures WeightOf(pool, s) == pool[x].weight + WeightOf(pool, s - {x})
    decreases |s|
  {
    var y :| y in s && WeightOf(pool, s) == pool[y].weight + WeightOf(pool, s - {y});
    if y != x {
      WeightWithout(pool, s - {y}, x);
      WeightWithout(pool, s - {x}, y);
      assert s - {y} - {x} == s - {x} - {y};
    }
  }

  lemma {:induction false} WeightOfUnion(pool: Pool, s: set<TxId>, t: set<TxId>)
    requires s <= pool.Keys && t <= pool.Keys && s !! t
    ensures WeightOf(pool, s + t) == WeightOf(pool, s) + WeightOf(pool, t)
    decreases |t|
  {
    if t == {} {
      assert s + t == s;
    } else {
      var x :| x in t;
      WeightWithout(pool, t, x);
      WeightWithout(pool, s + t, x);
      assert s + t - {x} == s + (t - {x});
      WeightOfUnion(pool, s, t - {x});
    }
  }

  lemma {:induction false} TotalOfUnion(pool: Pool, s: set<TxId>, t: set<TxId>)
    requires s <= pool.Keys && t <= pool.Keys && s !! t
    ensures TotalOf(pool, s + t) == TotalOf(pool, s).Plus(TotalOf(pool, t))
    decreases |t|
  {
    if t == {} {
      assert s + t == s;
      PlusNothing(TotalOf(pool, s));
    } else {
      var x :| x in t;
      var less := t - {x};
      assert s + t - {x} == s + less;
      TotalWithout(pool, s + t, x);
      TotalWithout(pool, t, x);
      TotalOfUnion(pool, s, less);
      PlusSwaps(pool[x].own, TotalOf(pool, s), TotalOf(pool, less));
    }
  }

  lemma PlusNothing(x: Totals)
    ensures x.Plus(NOTHING) == x
  {
  }

  /** Weight never exceeds four times size. */
  lemma {:induction false} WeightBound(pool: Pool, s: set<TxId>)
    requires s <= pool.Keys && Sized(pool)
    ensures WeightOf(pool, s) <= 4 * TotalOf(pool, s).size
    decreases |s|
  {
    if s != {} {
      var x :| x in s;
      WeightWithout(pool, s, x);
      TotalWithout(pool, s, x);
      WeightBound(pool, s - {x});
    }
  }

  /** The members of a package add up to the totals kept for its root. */
  lemma MembersAddUp(ctx: Context, run: seq<Package>, p: Package)
    requires WellFormed(ctx) && Follows(ctx, run, p)
    requires p.root !in Ancestors(ctx.txs, p.root)
    ensures Members(p) <= ctx.txs.Keys
    ensures TotalOf(ctx.txs, Members(p)) == PackageTotals(ctx, Used(run), p.root)
  {
    var rest := Remaining(ctx, Used(run), p.root);
    assert Members(p) - {p.root} == rest;
    TotalWithout(ctx.txs, Members(p), p.root);
  }

  datatype Limit = Unlimited | AtMost(n: int) {
    predicate Above(x: int) { Unlimited? || x < n }
    predicate Allows(x: int) { Unlimited? || x <= n }
  }

  /** Does the package of `t` still fit beside what `run` has taken? */
  ghost predicate Fits(ctx: Context, run: seq<Package>, t: TxId, weightLimit: Limit, sigopLimit: Limit) {
    && t in ctx.txs && Used(run) <= ctx.txs.Keys
    && (weightLimit.AtMost? ==>
          WeightOf(ctx.txs, Used(run)) + 4 * PackageTotals(ctx, Used(run), t).size < weightLimit.n)
    && (sigopLimit.AtMost? ==>
          TotalOf(ctx.txs, Used(run)).sigops + PackageTotals(ctx, Used(run), t).sigops <= sigopLimit.n)
  }

  /** Everything taken stays below the weight limit and within the sigop limit. */
  ghost predicate WithinLimits(ctx: Context, run: seq<Package>, weightLimit: Limit, sigopLimit: Limit) {
    && Used(run) <= ctx.txs.Keys
    && (weightLimit.AtMost? ==> WeightOf(ctx.txs, Used(run)) < weightLimit.n)
    && (sigopLimit.AtMost? ==> TotalOf(ctx.txs, Used(run)).sigops <= sigopLimit.n)
  }

  lemma TotalsGrow(ctx: Context, rank: map<TxId, nat>, run: seq<Package>, p: Package)
    requires WellFormed(ctx) && Ranks(ctx.txs, rank) && IsRun(ctx, run) && Follows(ctx, run, p)
    ensures Used(run) <= ctx.txs.Keys && Members(p) <= ctx.txs.Keys && Used(run + [p]) == Used(run) + Members(p)
    ensures WeightOf(ctx.txs, Used(run + [p])) == WeightOf(ctx.txs, Used(run)) + WeightOf(ctx.txs, Members(p))
    ensures TotalOf(ctx.txs, Used(run + [p])) == TotalOf(ctx.txs, Used(run)).Plus(TotalOf(ctx.txs, Members(p)))
    ensures TotalOf(ctx.txs, Members(p)) == PackageTotals(ctx, Used(run), p.root)
  {
    UsedInPool(ctx, run);
    RunGrows(ctx, run, p);
    NotOwnAncestor(ctx.txs, rank, p.root);
    MembersAddUp(ctx, run, p);
    WeightOfUnion(ctx.txs, Used(run), Members(p));
    TotalOfUnion(ctx.txs, Used(run), Members(p));
  }

  /** A package that fits leaves everything within the limits. */
  lemma FittingStaysWithin(
    ctx: Context, rank: map<TxId, nat>, run: seq<Package>, p: Package, weightLimit: Limit, sigopLimit: Limit)
    requires WellFormed(ctx) && Ranks(ctx.txs, rank) && IsRun(ctx, run) && Follows(ctx, run, p)
    requires Fits(ctx, run, p.root, weightLimit, sigopLimit)
    ensures WithinLimits(ctx, run + [p], weightLimit, sigopLimit)
  {
    TotalsGrow(ctx, rank, run, p);
    WeightBound(ctx.txs, Members(p));
  }
}
