/** What is promised of a projected block: that it keeps the limits, that each of its packages
    was well picked, and why nothing more was put into it. */
module BlockRules {
  import opened Basics
  import opened Ancestry
  import opened Packages
  import opened Weights

  const RESERVED_WEIGHT := 4000
  const SIGOP_LIMIT := 80000
  const FULL_BLOCKS := 7

  /** The package of `t`, as it is left, still fits into the block of `packages`, which is
      built upon `before`. Sigops are counted for the package alone. */
  ghost predicate BlockFits(ctx: Context, before: seq<Package>, packages: seq<Package>, limit: int, t: TxId) {
    && t in ctx.txs && Used(packages) <= ctx.txs.Keys
    && RESERVED_WEIGHT + WeightOf(ctx.txs, Used(packages)) + PackageTotals(ctx, Used(before + packages), t).size < limit
    && PackageTotals(ctx, Used(before + packages), t).sigops <= SIGOP_LIMIT
  }

  ghost predicate FailedAt(ctx: Context, before: seq<Package>, packages: seq<Package>, limit: int, t: TxId, j: nat) {
    j <= |packages| && !BlockFits(ctx, before, packages[..j], limit, t)
  }

  /** At some point while this block was built the package of `t` did not fit. */
  ghost predicate FailedHere(ctx: Context, before: seq<Package>, packages: seq<Package>, limit: int, t: TxId) {
    exists j :: FailedAt(ctx, before, packages, limit, t, j)
  }

  lemma FailsNow(ctx: Context, before: seq<Package>, packages: seq<Package>, limit: int, t: TxId)
    requires !BlockFits(ctx, before, packages, limit, t)
    ensures FailedHere(ctx, before, packages, limit, t)
  {
    assert packages[..|packages|] == packages;
    assert FailedAt(ctx, before, packages, limit, t, |packages|);
  }

  lemma FailedStays(ctx: Context, before: seq<Package>, packages: seq<Package>, p: Package, limit: int, t: TxId)
    requires FailedHere(ctx, before, packages, limit, t)
    ensures FailedHere(ctx, before, packages + [p], limit, t)
  {
    var j: nat :| FailedAt(ctx, before, packages, limit, t, j);
    assert (packages + [p])[..j] == packages[..j];
    assert FailedAt(ctx, before, packages + [p], limit, t, j);
  }

  /** The package of `t`, as it is left, would go over a limit of an empty block. */
  ghost predicate TooBig(ctx: Context, run: seq<Package>, limit: int, t: TxId) {
    t in ctx.txs &&
    !(RESERVED_WEIGHT + PackageTotals(ctx, Used(run), t).size < limit &&
      PackageTotals(ctx, Used(run), t).sigops <= SIGOP_LIMIT)
  }

  lemma FailedInEmptyBlock(ctx: Context, before: seq<Package>, limit: int, t: TxId)
    requires FailedHere(ctx, before, [], limit, t) && t in ctx.txs
    ensures TooBig(ctx, before, limit, t)
  {
    var none: seq<Package> := [];
    var j: nat :| FailedAt(ctx, before, none, limit, t, j);
    assert none[..j] == none && before + none == before && Used(none) == {};
  }

  // ------------------------------------------------------------------- the limits

  ghost predicate FewSigops(ctx: Context, p: Package) {
    Members(p) <= ctx.txs.Keys && TotalOf(ctx.txs, Members(p)).sigops <= SIGOP_LIMIT
  }

  /** The block leaves room for the reserved weight and no package has too many sigops. */
  ghost predicate BlockWithin(ctx: Context, packages: seq<Package>, limit: int) {
    && Used(packages) <= ctx.txs.Keys && RESERVED_WEIGHT + WeightOf(ctx.txs, Used(packages)) < limit
    && forall k {:trigger FewSigops(ctx, packages[k])} :: 0 <= k < |packages| ==> FewSigops(ctx, packages[k])
  }

  // ------------------------------------------------------------------ the choice

  /** Nothing that `t` depends on has been taken yet. */
  ghost predicate Fresh(ctx: Context, used: set<TxId>, t: TxId) {
    t in ctx.txs && t !in used && used !! Ancestors(ctx.txs, t)
  }

  ghost function FirstScore(ctx: Context, t: TxId): real {
    if t in ctx.txs then Score(ctx, {}, t) else 0.0
  }

  lemma FreshScore(ctx: Context, used: set<TxId>, t: TxId)
    requires Fresh(ctx, used, t)
    ensures Score(ctx, used, t) == FirstScore(ctx, t)
  {
    assert Remaining(ctx, used, t) == Remaining(ctx, {}, t);
  }

  /** Nobody fresh would have scored better than `root`, except who failed in this block. */
  ghost predicate BestFresh(
    ctx: Context, before: seq<Package>, packages: seq<Package>, limit: int, bounded: bool, root: TxId)
  {
    var used := Used(before + packages);
    && root in ctx.txs
    && forall t {:trigger Fresh(ctx, used, t)} ::
         Fresh(ctx, used, t) && !(bounded && FailedHere(ctx, before, packages, limit, t)) ==>
           Score(ctx, used, t) <= Score(ctx, used, root)
  }

  ghost predicate WellPicked(ctx: Context, before: seq<Package>, packages: seq<Package>, limit: int, bounded: bool) {
    forall k {:trigger packages[k]} :: 0 <= k < |packages| ==>
      BestFresh(ctx, before, packages[..k], limit, bounded, packages[k].root)
  }

  lemma WellPickedMore(
    ctx: Context, before: seq<Package>, packages: seq<Package>, limit: int, bounded: bool, p: Package)
    requires WellPicked(ctx, before, packages, limit, bounded) &&
      BestFresh(ctx, before, packages, limit, bounded, p.root)
    ensures WellPicked(ctx, before, packages + [p], limit, bounded)
  {
    var more := packages + [p];
    forall k | 0 <= k < |more| ensures BestFresh(ctx, before, more[..k], limit, bounded, more[k].root) {
      assert more[..k] == packages[..k];
      assert k == |packages| ==> packages[..k] == packages;
    }
  }

  // --------------------------------------------------------------------- the end

  ghost predicate DoesNotFit(ctx: Context, before: seq<Package>, packages: seq<Package>, limit: int, t: TxId) {
    t in ctx.txs && !BlockFits(ctx, before, packages, limit, t)
  }

  /** Nobody occurs more than once for itself and once for each of its ancestors used by now. */
  ghost predicate FewEntries(ctx: Context, used: set<TxId>, entries: multiset<TxId>) {
    forall t {:trigger FewOf(ctx, used, entries, t)} :: t in ctx.txs ==> FewOf(ctx, used, entries, t)
  }

  ghost predicate FewOf(ctx: Context, used: set<TxId>, entries: multiset<TxId>, t: TxId) {
    entries[t] <= 1 + |Ancestors(ctx.txs, t) * used|
  }

  /** More than `n` times in a row something did not fit beside what the block holds. The same
      transaction may have been tried again, but only once more for each used ancestor. */
  ghost predicate ManyTries(ctx: Context, before: seq<Package>, packages: seq<Package>, limit: int, n: nat) {
    exists tried: seq<TxId> ::
      && |tried| > n && FewEntries(ctx, Used(before + packages), multiset(tried))
      && forall t {:trigger DoesNotFit(ctx, before, packages, limit, t)} :: t in tried ==>
           DoesNotFit(ctx, before, packages, limit, t)
  }

  lemma {:induction false} CountsAddUp(s: seq<TxId>, ids: set<TxId>, m: nat)
    requires forall x :: multiset(s)[x] <= m
    requires Elements(s) <= ids
    ensures |s| <= m * |ids|
    decreases |ids|
  {
    if ids == {} {
      SomeElement(s);
    } else {
      var x :| x in ids;
      var rest := Without(s, x);
      CountsAddUp(rest, ids - {x}, m);
      OneMoreTime(m, |ids - {x}|);
    }
  }

  lemma SomeElement(s: seq<TxId>)
    ensures s != [] ==> Elements(s) != {}
  {
    if s != [] {
      assert s[0] in Elements(s);
    }
  }

  lemma OneMoreTime(m: nat, n: nat)
    ensures m * (n + 1) == m * n + m
  {
  }

  /** The list without any `x`, which is shorter by as many. */
  lemma {:induction false} Without(s: seq<TxId>, x: TxId) returns (rest: seq<TxId>)
    ensures |s| == |rest| + multiset(s)[x] && Elements(rest) == Elements(s) - {x}
    ensures forall y :: y != x ==> multiset(rest)[y] == multiset(s)[y]
    ensures multiset(rest)[x] == 0
  {
    if s == [] {
      rest := [];
    } else {
      var init, last := s[..|s|-1], s[|s|-1];
      rest := Without(init, x);
      SplitLast(s);
      assert Elements(s) == Elements(init) + {last};
      if last != x {
        assert Elements(rest + [last]) == Elements(rest) + {last};
        rest := rest + [last];
      }
    }
  }

  /** Many tries are tries of many: if nobody has more than `m` ancestors, at least one in
      `m + 1` of the tries was of somebody else. */
  lemma TriesAreOfMany(
    ctx: Context, before: seq<Package>, packages: seq<Package>, limit: int, n: nat, m: nat) returns (failed: set<TxId>)
    requires ManyTries(ctx, before, packages, limit, n)
    requires forall t :: t in ctx.txs ==> |Ancestors(ctx.txs, t)| <= m
    ensures (m + 1) * |failed| > n
    ensures forall t {:trigger DoesNotFit(ctx, before, packages, limit, t)} :: t in failed ==>
      DoesNotFit(ctx, before, packages, limit, t)
  {
    var tried: seq<TxId> :|
      && |tried| > n && FewEntries(ctx, Used(before + packages), multiset(tried))
      && forall t {:trigger DoesNotFit(ctx, before, packages, limit, t)} :: t in tried ==>
           DoesNotFit(ctx, before, packages, limit, t);
    failed := Elements(tried);
    forall t | t in tried ensures t in ctx.txs {
      assert DoesNotFit(ctx, before, packages, limit, t);
    }
    FewOfEach(ctx, Used(before + packages), tried, m);
    CountsAddUp(tried, failed, m + 1);
  }

  lemma FewOfEach(ctx: Context, used: set<TxId>, tried: seq<TxId>, m: nat)
    requires FewEntries(ctx, used, multiset(tried)) && forall t :: t in tried ==> t in ctx.txs
    requires forall t :: t in ctx.txs ==> |Ancestors(ctx.txs, t)| <= m
    ensures forall x :: multiset(tried)[x] <= m + 1
  {
    forall x ensures multiset(tried)[x] <= m + 1 {
      if x in tried {
        assert FewOf(ctx, used, multiset(tried), x);
        PartIsSmaller(Ancestors(ctx.txs, x) * used, Ancestors(ctx.txs, x));
      }
    }
  }

  lemma PartIsSmaller(part: set<TxId>, all: set<TxId>)
    requires part <= all
    ensures |part| <= |all|
  {
    if part != all {
      ProperSubsetIsSmaller(part, all);
    }
  }

  /** The block was ended because it was nearly full and more than a thousand tries in a row
      had failed, or because whoever was left had failed. */
  ghost predicate ClosedFull(ctx: Context, before: seq<Package>, packages: seq<Package>, limit: int) {
    || (&& Used(packages) <= ctx.txs.Keys && RESERVED_WEIGHT + WeightOf(ctx.txs, Used(packages)) > limit - 4000
        && ManyTries(ctx, before, packages, limit, 1000))
    || forall t {:trigger FailedHere(ctx, before, packages, limit, t)} ::
         t in ctx.txs && t !in Used(before + packages) ==> FailedHere(ctx, before, packages, limit, t)
  }

  /** `next` would have scored at least as well as anyone fresh who is not set aside. */
  ghost predicate TopFresh(ctx: Context, used: set<TxId>, overflow: seq<TxId>, next: TxId) {
    && next in ctx.txs
    && forall t {:trigger Fresh(ctx, used, t)} :: Fresh(ctx, used, t) && t !in overflow ==>
         Score(ctx, used, t) <= Score(ctx, used, next)
  }

  /** Less than 4000 is left. */
  ghost predicate AlmostFull(ctx: Context, packages: seq<Package>, limit: int) {
    4000 + WeightOf(ctx.txs, Used(packages) * ctx.txs.Keys) > limit - 4000
  }

  /** Package `k` was taken when the first `at[k]` of those tried had failed: it was the best of
      the others, and if the block was nearly full, no more than a thousand had failed since the
      package before, or since the block was begun. */
  ghost predicate TriedAt(
    ctx: Context, before: seq<Package>, packages: seq<Package>, limit: int, tried: seq<TxId>, at: seq<nat>, k: nat)
    requires k < |packages| && |at| == |packages|
  {
    && at[k] <= |tried| && TopFresh(ctx, Used(before + packages[..k]), tried[..at[k]], packages[k].root)
    && (forall t {:trigger FailedHere(ctx, before, packages[..k], limit, t)} :: t in tried[..at[k]] ==>
          FailedHere(ctx, before, packages[..k], limit, t))
    && (AlmostFull(ctx, packages[..k], limit) ==> at[k] <= 1000 + if k > 0 then at[k-1] else 0)
  }

  ghost predicate TriedInTime(
    ctx: Context, before: seq<Package>, packages: seq<Package>, limit: int, tried: seq<TxId>, at: seq<nat>)
  {
    && |at| == |packages|
    && forall k {:trigger TriedAt(ctx, before, packages, limit, tried, at, k)} :: 0 <= k < |packages| ==>
         TriedAt(ctx, before, packages, limit, tried, at, k)
  }

  /** The block was not filled any further once that many tries had failed. */
  ghost predicate ClosedInTime(ctx: Context, before: seq<Package>, packages: seq<Package>, limit: int) {
    exists tried: seq<TxId>, at: seq<nat> :: TriedInTime(ctx, before, packages, limit, tried, at)
  }

  /** A full block. */
  ghost predicate FullBlock(ctx: Context, before: seq<Package>, packages: seq<Package>, limit: int) {
    && packages != [] && BlockWithin(ctx, packages, limit)
    && WellPicked(ctx, before, packages, limit, true) && ClosedFull(ctx, before, packages, limit)
    && ClosedInTime(ctx, before, packages, limit)
  }

  // ------------------------------------------------------------------ all of them

  ghost function Flat(filled: seq<seq<Package>>): seq<Package> {
    if filled == [] then [] else Flat(filled[..|filled|-1]) + filled[|filled|-1]
  }

  lemma {:induction false} FlatAt(parts: seq<seq<Package>>, j: nat, u: nat)
    requires j < |parts| && u < |parts[j]|
    ensures |Flat(parts[..j])| + u < |Flat(parts)| && Flat(parts)[|Flat(parts[..j])| + u] == parts[j][u]
  {
    var init, last := parts[..|parts|-1], parts[|parts|-1];
    if j < |init| {
      FlatAt(init, j, u);
      assert init[..j] == parts[..j];
    } else {
      assert parts[..j] == init;
    }
  }

  ghost predicate AllFull(ctx: Context, filled: seq<seq<Package>>, limit: int) {
    forall i {:trigger filled[i]} :: 0 <= i < |filled| ==> FullBlock(ctx, Flat(filled[..i]), filled[i], limit)
  }

  lemma AllFullMore(ctx: Context, filled: seq<seq<Package>>, limit: int, packages: seq<Package>)
    requires AllFull(ctx, filled, limit) && FullBlock(ctx, Flat(filled), packages, limit)
    ensures AllFull(ctx, filled + [packages], limit)
    ensures Flat(filled + [packages]) == Flat(filled) + packages
  {
    var more := filled + [packages];
    assert more[..|more|-1] == filled;
    forall i | 0 <= i < |more| ensures FullBlock(ctx, Flat(more[..i]), more[i], limit) {
      assert more[..i] == filled[..i];
      assert i == |filled| ==> filled[..i] == filled;
    }
  }
}
