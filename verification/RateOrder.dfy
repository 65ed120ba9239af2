/** When effective rates follow the order of spending, so that nobody ends at a higher rate
    than a transaction it spends from, directly or not. */
module RateOrder {
  import opened Basics
  import opened Ancestry
  import opened Packages

  /** Scores have the sign of the fee. */
  ghost predicate ScoresByFee(ctx: Context) {
    forall x: Totals :: x.size > 0 ==>
      && (x.fee > 0 ==> ctx.scoring(x) > 0.0)
      && (x.fee == 0 ==> ctx.scoring(x) == 0.0)
  }

  /** Nobody is paid for being included. */
  ghost predicate NoNegativeFees(ctx: Context) {
    && ScoresByFee(ctx)
    && (forall t :: t in ctx.txs ==> ctx.txs[t].own.fee >= 0)
    && forall t :: t in ctx.firstRate ==> ctx.firstRate[t] >= 0.0
  }

  lemma QuotientSign(x: real, y: real)
    requires y > 0.0
    ensures x > 0.0 ==> x / y > 0.0
    ensures x == 0.0 ==> x / y == 0.0
  {
  }

  lemma FeeRateScoresByFee(ctx: Context, unit: real)
    requires unit > 0.0 && ctx.scoring == FeeRate(unit)
    ensures ScoresByFee(ctx)
  {
    forall x: Totals | x.size > 0
      ensures (x.fee > 0 ==> ctx.scoring(x) > 0.0) && (x.fee == 0 ==> ctx.scoring(x) == 0.0)
    {
      QuotientSign(x.size as real, unit);
      QuotientSign(x.fee as real, x.size as real / unit);
    }
  }

  ghost predicate Free(ctx: Context, s: set<TxId>) {
    forall t :: t in s ==> t in ctx.txs && ctx.txs[t].own.fee == 0
  }

  lemma {:induction false} FeesAddUp(ctx: Context, s: set<TxId>)
    requires NoNegativeFees(ctx) && s <= ctx.txs.Keys
    ensures TotalOf(ctx.txs, s).fee >= 0
    ensures TotalOf(ctx.txs, s).fee == 0 <==> Free(ctx, s)
    decreases |s|
  {
    if s != {} {
      var x :| x in s;
      TotalWithout(ctx.txs, s, x);
      FeesAddUp(ctx, s - {x});
    }
  }

  /** A package scores nothing exactly when nobody in it pays. */
  lemma ScoreSign(ctx: Context, used: set<TxId>, t: TxId)
    requires WellFormed(ctx) && NoNegativeFees(ctx) && t in ctx.txs
    ensures Score(ctx, used, t) >= 0.0
    ensures Score(ctx, used, t) == 0.0 <==> Free(ctx, Remaining(ctx, used, t) + {t})
  {
    PackageHasSize(ctx, used, t);
    FeesAddUp(ctx, Remaining(ctx, used, t));
  }

  lemma {:induction false} RatesNotNegative(ctx: Context, run: seq<Package>)
    requires WellFormed(ctx) && NoNegativeFees(ctx) && IsRun(ctx, run)
    ensures forall k :: 0 <= k < |run| ==> run[k].rate >= 0.0
  {
    if run != [] {
      var before, last := run[..|run|-1], run[|run|-1];
      assert FollowsAt(ctx, run, |run| - 1);
      RunPrefix(ctx, run, |run| - 1);
      RatesNotNegative(ctx, before);
      DependencyRateNotNegative(ctx, before, last.root);
      ScoreSign(ctx, Used(before), last.root);
      forall k | 0 <= k < |before| ensures run[k].rate >= 0.0 {
        assert before[k].rate >= 0.0;
      }
    }
  }

  lemma {:induction false} DependencyRateNotNegative(ctx: Context, run: seq<Package>, t: TxId)
    requires NoNegativeFees(ctx) && t in ctx.firstRate
    requires forall k :: 0 <= k < |run| ==> run[k].rate >= 0.0
    ensures DependencyRate(ctx, run, t) >= 0.0
  {
    if run != [] {
      DependencyRateNotNegative(ctx, run[..|run|-1], t);
    }
  }

  /** A package goes at a rate of zero exactly when nobody in it pays. */
  lemma ZeroRateIsFree(ctx: Context, run: seq<Package>, k: nat)
    requires WellFormed(ctx) && NoNegativeFees(ctx) && IsRun(ctx, run) && k < |run|
    ensures run[k].root in ctx.txs
    ensures run[k].rate == 0.0 <==> Free(ctx, Members(run[k]))
    ensures run[k].rate == 0.0 <==> Score(ctx, Used(run[..k]), run[k].root) == 0.0
  {
    assert FollowsAt(ctx, run, k);
    RunPrefix(ctx, run, k);
    RatesNotNegative(ctx, run[..k]);
    DependencyRateNotNegative(ctx, run[..k], run[k].root);
    ScoreSign(ctx, Used(run[..k]), run[k].root);
  }

  ghost predicate TakesAncestor(ctx: Context, p: Package, t: TxId) {
    !(Members(p) !! Ancestors(ctx.txs, t))
  }

  /** What ancestors went at keeps capping the dependency rate as long as none goes at zero. */
  lemma {:induction false} StaysCapped(ctx: Context, run: seq<Package>, i: nat, t: TxId)
    requires NoNegativeFees(ctx) && t in ctx.firstRate && i < |run| && TakesAncestor(ctx, run[i], t)
    requires forall k :: 0 <= k < |run| ==> run[k].rate >= 0.0
    requires forall k :: i <= k < |run| && TakesAncestor(ctx, run[k], t) ==> run[k].rate > 0.0
    ensures 0.0 < DependencyRate(ctx, run, t) <= run[i].rate
  {
    var before := run[..|run|-1];
    DependencyRateNotNegative(ctx, before, t);
    if i < |before| {
      StaysCapped(ctx, before, i, t);
    }
  }

  // -------------------------------------------------------- runs in order of rate

  /** No transaction ends at a higher rate than an ancestor, whichever packages they are in. */
  ghost predicate RatesFollow(ctx: Context, run: seq<Package>) {
    forall i, j, a, t {:trigger a in run[i].cluster, t in run[j].cluster} ::
      0 <= i < |run| && 0 <= j < |run| && a in run[i].cluster && t in run[j].cluster && a in Ancestors(ctx.txs, t) ==>
        run[j].rate <= run[i].rate
  }

  /** Between `i` and `j`, whatever of the ancestors of `j` goes at zero leaves zero for `j`. */
  ghost predicate ZeroSticks(ctx: Context, run: seq<Package>, i: nat, j: nat)
    requires j < |run|
  {
    forall k :: i <= k < j && TakesAncestor(ctx, run[k], run[j].root) && run[k].rate == 0.0 ==> run[j].rate == 0.0
  }

  lemma OrderedIfZeroSticks(ctx: Context, run: seq<Package>, i: nat, j: nat)
    requires WellFormed(ctx) && NoNegativeFees(ctx) && IsRun(ctx, run) && i < j < |run|
    requires TakesAncestor(ctx, run[i], run[j].root) && ZeroSticks(ctx, run, i, j)
    ensures run[j].rate <= run[i].rate
  {
    RatesNotNegative(ctx, run);
    if run[j].rate != 0.0 {
      var before := run[..j];
      assert FollowsAt(ctx, run, j);
      forall k | i <= k < |before| && TakesAncestor(ctx, before[k], run[j].root) ensures before[k].rate > 0.0 {
        assert run[k] == before[k];
      }
      StaysCapped(ctx, before, i, run[j].root);
    }
  }

  lemma AncestorIsAbove(ctx: Context, run: seq<Package>, i: nat, j: nat, a: TxId, t: TxId)
    requires WellFormed(ctx) && IsRun(ctx, run) && i < |run| && j < |run|
    requires a in run[i].cluster && t in run[j].cluster && a in Ancestors(ctx.txs, t)
    ensures i <= j && TakesAncestor(ctx, run[i], run[j].root)
  {
    var k := AncestorsComeFirst(ctx, run, j, t, a);
    assert a in Members(run[k]) && a in Members(run[i]);
    if k < i {
      PackagesDisjoint(ctx, run, k, i);
    } else if i < k {
      PackagesDisjoint(ctx, run, i, k);
    }
    assert FollowsAt(ctx, run, j);
    assert t in Members(run[j]);
    if t != run[j].root {
      AncestorsCompose(ctx.txs, a, t, run[j].root);
    }
  }

  /** A run in which zero sticks is in order. */
  lemma RatesFollowIfZeroSticks(ctx: Context, run: seq<Package>)
    requires WellFormed(ctx) && NoNegativeFees(ctx) && IsRun(ctx, run)
    requires forall i, j {:trigger ZeroSticks(ctx, run, i, j)} :: 0 <= i < j < |run| ==> ZeroSticks(ctx, run, i, j)
    ensures RatesFollow(ctx, run)
  {
    forall i, j, a, t | 0 <= i < |run| && 0 <= j < |run| && a in run[i].cluster && t in run[j].cluster &&
        a in Ancestors(ctx.txs, t)
      ensures run[j].rate <= run[i].rate
    {
      AncestorIsAbove(ctx, run, i, j, a, t);
      if i < j {
        assert ZeroSticks(ctx, run, i, j);
        OrderedIfZeroSticks(ctx, run, i, j);
      }
    }
  }

  // ------------------------------------------------------------- in greedy order

  /** Nothing left would have scored better, at any point of the run. */
  ghost predicate AlwaysBest(ctx: Context, run: seq<Package>)
    requires WellFormed(ctx)
  {
    forall k {:trigger run[k]} :: 0 <= k < |run| ==>
        run[k].root in ctx.txs && Best(ctx, Used(run[..k]), {}, run[k].root)
  }

  lemma UsedGrows(run: seq<Package>, k: nat, j: nat)
    requires k <= j <= |run|
    ensures Used(run[..k]) <= Used(run[..j])
  {
    forall t | t in Used(run[..k]) ensures t in Used(run[..j]) {
      var n :| 0 <= n < |run[..k]| && t in run[..k][n].cluster;
      assert run[..j][n] == run[..k][n];
    }
  }

  /** Once the best score is zero nobody left pays anything. */
  lemma BestZeroSticks(ctx: Context, run: seq<Package>, k: nat, j: nat)
    requires WellFormed(ctx) && NoNegativeFees(ctx) && IsRun(ctx, run) && AlwaysBest(ctx, run)
    requires k < j < |run| && run[k].rate == 0.0
    ensures run[j].rate == 0.0
  {
    var early, late, r := Used(run[..k]), Used(run[..j]), run[j].root;
    assert FollowsAt(ctx, run, j);
    UsedGrows(run, k, j);
    ZeroRateIsFree(ctx, run, k);
    ZeroRateIsFree(ctx, run, j);
    assert Score(ctx, early, r) <= Score(ctx, early, run[k].root);
    ScoreSign(ctx, early, r);
    assert Remaining(ctx, late, r) <= Remaining(ctx, early, r);
  }

  /** Taken in greedy order, transactions end in order of rate even if some pay nothing. */
  lemma GreedyRatesFollow(ctx: Context, run: seq<Package>)
    requires WellFormed(ctx) && NoNegativeFees(ctx) && IsRun(ctx, run) && AlwaysBest(ctx, run)
    ensures RatesFollow(ctx, run)
  {
    forall i, j | 0 <= i < j < |run| ensures ZeroSticks(ctx, run, i, j) {
      forall k | i <= k < j && TakesAncestor(ctx, run[k], run[j].root) &&
          run[k].rate == 0.0 ensures run[j].rate == 0.0 {
        BestZeroSticks(ctx, run, k, j);
      }
    }
    RatesFollowIfZeroSticks(ctx, run);
  }

  // ---------------------------------------------------------------- in any order

  ghost predicate PaysBeside(ctx: Context, a: TxId, r: TxId, x: TxId) {
    && a in ctx.txs && r in ctx.txs && a in Ancestors(ctx.txs, r)
    && x in Ancestors(ctx.txs, r) + {r} && x !in Ancestors(ctx.txs, a) + {a}
    && x in ctx.txs && ctx.txs[x].own.fee > 0
  }

  /** Whatever is below a transaction that pays nothing is itself free, and so is all that
      it spends from beside that transaction and its ancestors. */
  ghost predicate FreeAlike(ctx: Context) {
    forall a, r, x {:trigger PaysBeside(ctx, a, r, x)} ::
      PaysBeside(ctx, a, r, x) ==> ctx.txs[a].own.fee > 0
  }

  /** However the packages are chosen, rates follow ancestors. */
  ghost predicate AlwaysFollow(ctx: Context)
    requires WellFormed(ctx)
  {
    forall run {:trigger IsRun(ctx, run)} :: IsRun(ctx, run) ==> RatesFollow(ctx, run)
  }

  lemma MembersAboveRoot(ctx: Context, run: seq<Package>, j: nat, x: TxId)
    requires WellFormed(ctx) && IsRun(ctx, run) && j < |run| && x in Members(run[j])
    ensures run[j].root in ctx.txs && x in Ancestors(ctx.txs, run[j].root) + {run[j].root}
    ensures x in ctx.txs && x !in Used(run[..j])
  {
    assert FollowsAt(ctx, run, j);
  }

  lemma FreeAlikeSticks(ctx: Context, run: seq<Package>, k: nat, j: nat)
    requires WellFormed(ctx) && NoNegativeFees(ctx) && IsRun(ctx, run) && FreeAlike(ctx)
    requires k < j < |run| && TakesAncestor(ctx, run[k], run[j].root) && run[k].rate == 0.0
    ensures run[j].rate == 0.0
  {
    ZeroRateIsFree(ctx, run, k);
    ZeroRateIsFree(ctx, run, j);
    var r := run[j].root;
    var a := AncestorTaken(ctx, run[k], r);
    forall x | x in Members(run[j])
      ensures x in ctx.txs && ctx.txs[x].own.fee == 0
    {
      MembersAboveRoot(ctx, run, j, x);
      OutsideAncestry(ctx, run, k, j, a, x);
      assert !PaysBeside(ctx, a, r, x);
    }
  }

  lemma AncestorTaken(ctx: Context, p: Package, t: TxId) returns (a: TxId)
    requires TakesAncestor(ctx, p, t)
    ensures a in Members(p) && a in Ancestors(ctx.txs, t)
  {
    a :| a in Members(p) && a in Ancestors(ctx.txs, t);
  }

  /** A transaction and its ancestors are used once its package is. */
  lemma OutsideAncestry(ctx: Context, run: seq<Package>, k: nat, j: nat, a: TxId, x: TxId)
    requires WellFormed(ctx) && IsRun(ctx, run) && k < j < |run| && a in Members(run[k]) && x !in Used(run[..j])
    ensures x !in Ancestors(ctx.txs, a) + {a}
  {
    UsedHolds(run[..j], k);
    assert a in Used(run[..j]);
    if x in Ancestors(ctx.txs, a) {
      RunPrefix(ctx, run, j);
      UsedIsClosed(ctx, run[..j], x, a);
    }
  }

  lemma FreeAlikeFollows(ctx: Context, run: seq<Package>)
    requires WellFormed(ctx) && NoNegativeFees(ctx) && IsRun(ctx, run) && FreeAlike(ctx)
    ensures RatesFollow(ctx, run)
  {
    forall i, j | 0 <= i < j < |run| ensures ZeroSticks(ctx, run, i, j) {
      forall k | i <= k < j && TakesAncestor(ctx, run[k], run[j].root) &&
          run[k].rate == 0.0 ensures run[j].rate == 0.0 {
        FreeAlikeSticks(ctx, run, k, j);
      }
    }
    RatesFollowIfZeroSticks(ctx, run);
  }

  /** With positive fees, in particular. */
  lemma PayingRatesFollow(ctx: Context, run: seq<Package>)
    requires WellFormed(ctx) && NoNegativeFees(ctx) && IsRun(ctx, run)
    requires forall t :: t in ctx.txs ==> ctx.txs[t].own.fee > 0
    ensures RatesFollow(ctx, run)
  {
    FreeAlikeFollows(ctx, run);
  }

  // ------------------------------------------------- a run that breaks the order

  lemma {:induction false} HighestRank(rank: map<TxId, nat>, s: set<TxId>) returns (top: TxId)
    requires s != {} && s <= rank.Keys
    ensures top in s && forall x :: x in s ==> rank[x] <= rank[top]
    decreases |s|
  {
    top :| top in s;
    if s != {top} {
      var other := HighestRank(rank, s - {top});
      if rank[top] < rank[other] {
        top := other;
      }
    }
  }

  ghost predicate Closed(ctx: Context, s: set<TxId>) {
    s <= ctx.txs.Keys && forall t :: t in s ==> Ancestors(ctx.txs, t) <= s
  }

  lemma AncestryIsClosed(ctx: Context, a: TxId)
    ensures Closed(ctx, Ancestors(ctx.txs, a))
  {
    forall t, x | t in Ancestors(ctx.txs, a) && x in Ancestors(ctx.txs, t) ensures x in Ancestors(ctx.txs, a) {
      AncestorsCompose(ctx.txs, x, t, a);
    }
  }

  /** The package of a transaction whose ancestors are all used. */
  ghost function Single(ctx: Context, run: seq<Package>, t: TxId): Package
    requires t in ctx.txs && t in ctx.firstRate
  {
    Package(t, [t], EffectiveRate(DependencyRate(ctx, run, t), Score(ctx, Used(run), t)))
  }

  lemma SingleFollows(ctx: Context, run: seq<Package>, t: TxId)
    requires WellFormed(ctx) && IsRun(ctx, run) && t in ctx.txs && t !in Used(run) && Ancestors(ctx.txs, t) <= Used(run)
    ensures Follows(ctx, run, Single(ctx, run, t))
    ensures IsRun(ctx, run + [Single(ctx, run, t)]) && Used(run + [Single(ctx, run, t)]) == Used(run) + {t}
  {
    var p := Single(ctx, run, t);
    assert Members(p) == {t} && Remaining(ctx, Used(run), t) == {};
    RunGrows(ctx, run, p);
  }

  /** Any closed set can be taken one by one. */
  lemma {:induction false} OneByOne(ctx: Context, rank: map<TxId, nat>, s: set<TxId>) returns (run: seq<Package>)
    requires WellFormed(ctx) && Ranks(ctx.txs, rank) && Closed(ctx, s)
    ensures IsRun(ctx, run) && Used(run) == s
    decreases |s|
  {
    run := [];
    assert Used(run) == {};
    if s != {} {
      var last := HighestRank(rank, s);
      forall t | t in s - {last} ensures last !in Ancestors(ctx.txs, t) {
        if last in Ancestors(ctx.txs, t) {
          AncestorsRankLower(ctx.txs, rank, last, t);
        }
      }
      run := OneByOne(ctx, rank, s - {last});
      NotOwnAncestor(ctx.txs, rank, last);
      SingleFollows(ctx, run, last);
      run := run + [Single(ctx, run, last)];
    }
  }

  lemma {:induction false} MostLeft(ctx: Context, used: set<TxId>, s: set<TxId>) returns (top: TxId)
    requires s != {}
    ensures top in s && forall x :: x in s ==> |Remaining(ctx, used, x)| <= |Remaining(ctx, used, top)|
    decreases |s|
  {
    top :| top in s;
    if s != {top} {
      var other := MostLeft(ctx, used, s - {top});
      if |Remaining(ctx, used, top)| < |Remaining(ctx, used, other)| {
        top := other;
      }
    }
  }

  lemma ListedLast(ctx: Context, used: set<TxId>, init: seq<TxId>, last: TxId)
    requires Distinct(init) && last !in Elements(init) && FewestFirst(ctx, used, init)
    requires forall x :: x in Elements(init) ==> |Remaining(ctx, used, x)| <= |Remaining(ctx, used, last)|
    ensures Distinct(init + [last]) && Elements(init + [last]) == Elements(init) + {last}
    ensures FewestFirst(ctx, used, init + [last])
  {
    DistinctConcat(init, [last]);
    forall i, j | 0 <= i < j < |init + [last]|
      ensures |Remaining(ctx, used, (init + [last])[i])| <= |Remaining(ctx, used, (init + [last])[j])|
    {
      assert init[i] in Elements(init);
    }
  }

  /** Any set can be listed by the number of unused ancestors. */
  lemma {:induction false} Listing(ctx: Context, used: set<TxId>, s: set<TxId>) returns (cluster: seq<TxId>)
    ensures Distinct(cluster) && Elements(cluster) == s && FewestFirst(ctx, used, cluster)
    decreases |s|
  {
    cluster := [];
    if s != {} {
      var last := MostLeft(ctx, used, s);
      var init := Listing(ctx, used, s - {last});
      ListedLast(ctx, used, init, last);
      cluster := init + [last];
    }
  }

  /** Anyone whose ancestors are in the pool can go next. */
  lemma PackageExists(ctx: Context, rank: map<TxId, nat>, run: seq<Package>, r: TxId) returns (p: Package)
    requires WellFormed(ctx) && Ranks(ctx.txs, rank) && IsRun(ctx, run) && r in ctx.txs && r !in Used(run)
    ensures p.root == r && Follows(ctx, run, p)
  {
    var above := Listing(ctx, Used(run), Remaining(ctx, Used(run), r));
    p := Package(r, above + [r], EffectiveRate(DependencyRate(ctx, run, r), Score(ctx, Used(run), r)));
    NotOwnAncestor(ctx.txs, rank, r);
    assert r !in Elements(above) && forall x :: x in above ==> x in Elements(above);
    assert Members(p) == Elements(above) + {r};
    assert p.cluster[..|p.cluster|-1] == above;
  }

  /** The free transaction goes alone, then the package of the one below it that brings fees. */
  lemma OrderBroken(ctx: Context, rank: map<TxId, nat>, a: TxId, r: TxId, x: TxId) returns (run: seq<Package>)
    requires WellFormed(ctx) && Ranks(ctx.txs, rank) && NoNegativeFees(ctx)
    requires PaysBeside(ctx, a, r, x) && ctx.txs[a].own.fee == 0
    ensures IsRun(ctx, run) && !RatesFollow(ctx, run)
  {
    AncestryIsClosed(ctx, a);
    var before := OneByOne(ctx, rank, Ancestors(ctx.txs, a));
    NotOwnAncestor(ctx.txs, rank, a);
    SingleFollows(ctx, before, a);
    var mid := before + [Single(ctx, before, a)];
    if r in Used(mid) {
      AncestorsCompose(ctx.txs, a, r, a);
    }
    var p := PackageExists(ctx, rank, mid, r);
    RunGrows(ctx, mid, p);
    run := mid + [p];
    var i, j := |before|, |mid|;
    assert run[..i] == before && run[..j] == mid && run[i] == mid[i];
    ZeroRateIsFree(ctx, run, i);
    ZeroRateIsFree(ctx, run, j);
    RatesNotNegative(ctx, run);
    assert x in Members(p) && r in Members(p);
    assert a in run[i].cluster && r in run[j].cluster && run[j].rate > run[i].rate;
  }

  /** If fees are not negative, rates follow ancestors in every run, whatever the order of
      packages, exactly when the transactions that pay nothing keep to themselves. */
  lemma OrderIsSafeExactly(ctx: Context, rank: map<TxId, nat>)
    requires WellFormed(ctx) && Ranks(ctx.txs, rank) && NoNegativeFees(ctx)
    ensures AlwaysFollow(ctx) <==> FreeAlike(ctx)
  {
    if FreeAlike(ctx) {
      forall run | IsRun(ctx, run) ensures RatesFollow(ctx, run) {
        FreeAlikeFollows(ctx, run);
      }
    } else {
      var a, r, x :| PaysBeside(ctx, a, r, x) && ctx.txs[a].own.fee <= 0;
      var run := OrderBroken(ctx, rank, a, r, x);
      assert IsRun(ctx, run);
    }
  }
}
