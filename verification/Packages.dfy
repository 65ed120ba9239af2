/** What a block builder should do, told without its bookkeeping: each round picks an
    unused transaction together with all its unused ancestors, and everything about the
    round (who goes along, the totals, the rate) is recomputed from the bare graph. */
module Packages {
  import opened Basics
  import opened Ancestry

  /** The fixed surroundings of a run: the graph, how totals are scored, and the rate each
      transaction starts from (0.0 when there is none). */
  datatype Context = Context(txs: Pool, scoring: Totals -> real, firstRate: map<TxId, real>)

  /** One committed package: its root, its members ancestors first, and the effective
      fee rate all of them get. */
  datatype Package = Package(root: TxId, cluster: seq<TxId>, rate: real)

  ghost predicate WellFormed(ctx: Context) {
    ctx.firstRate.Keys == ctx.txs.Keys && Sized(ctx.txs)
  }

  /** Fee per virtual byte, for a virtual byte of `unit` size units. */
  function FeeRate(unit: real): Totals -> real
    requires unit > 0.0
  {
    (x: Totals) => if x.size > 0 then x.fee as real / (x.size as real / unit) else 0.0
  }

  function Min(x: real, y: real): real {
    if y < x then y else x
  }

  /** How a transaction's dependency rate follows the rate of a package that took one of
      its ancestors. A rate of zero counts as no rate at all. */
  function Cap(rate: real, clusterRate: real): real {
    if rate != 0.0 then Min(rate, clusterRate) else clusterRate
  }

  /** The effective rate of a package from its root's dependency rate and its own score. */
  function EffectiveRate(dependencyRate: real, score: real): real {
    if dependencyRate != 0.0 then Min(dependencyRate, score) else score
  }

  lemma CapTwice(rate: real, clusterRate: real)
    ensures Cap(Cap(rate, clusterRate), clusterRate) == Cap(rate, clusterRate)
  {
  }

  ghost function Members(p: Package): set<TxId> {
    set t | t in p.cluster
  }

  ghost function Used(run: seq<Package>): set<TxId> {
    set k, t | 0 <= k < |run| && t in run[k].cluster :: t
  }

  /** The members of each package, last of the cluster first, package after package. */
  ghost function Taken(run: seq<Package>): seq<TxId> {
    if run == [] then [] else Taken(run[..|run|-1]) + Reversed(run[|run|-1].cluster)
  }

  ghost function Remaining(ctx: Context, used: set<TxId>, t: TxId): set<TxId> {
    Ancestors(ctx.txs, t) - used
  }

  /** The totals of `t` and its ancestors outside `used`. */
  ghost function PackageTotals(ctx: Context, used: set<TxId>, t: TxId): Totals
    requires t in ctx.txs
  {
    ctx.txs[t].own.Plus(TotalOf(ctx.txs, Remaining(ctx, used, t)))
  }

  lemma PackageHasSize(ctx: Context, used: set<TxId>, t: TxId)
    requires WellFormed(ctx) && t in ctx.txs
    ensures PackageTotals(ctx, used, t).size > 0 && PackageTotals(ctx, used, t).sigops >= 0
  {
    TotalsBounds(ctx.txs, Remaining(ctx, used, t));
  }

  ghost function Score(ctx: Context, used: set<TxId>, t: TxId): real
    requires t in ctx.txs
  {
    ctx.scoring(PackageTotals(ctx, used, t))
  }

  /** The lowest rate among the packages that took ancestors of `t`, and its first rate. */
  ghost function DependencyRate(ctx: Context, run: seq<Package>, t: TxId): real
    requires t in ctx.firstRate
  {
    if run == [] then ctx.firstRate[t]
    else
      var before := DependencyRate(ctx, run[..|run|-1], t);
      var last := run[|run|-1];
      if Members(last) !! Ancestors(ctx.txs, t) then before else Cap(before, last.rate)
  }

  ghost predicate FewestFirst(ctx: Context, used: set<TxId>, cluster: seq<TxId>) {
    forall i, j :: 0 <= i < j < |cluster| ==>
      |Remaining(ctx, used, cluster[i])| <= |Remaining(ctx, used, cluster[j])|
  }

  /** `p` holds its root and everything left above it, ordered by how much is left above each. */
  ghost predicate IsPackage(ctx: Context, used: set<TxId>, p: Package) {
    && p.root in ctx.txs && p.root !in used
    && Members(p) == Remaining(ctx, used, p.root) + {p.root}
    && Distinct(p.cluster) && p.cluster != [] && p.cluster[|p.cluster|-1] == p.root
    && FewestFirst(ctx, used, p.cluster[..|p.cluster|-1])
  }

  /** `p` is what committing its root next does: its package at the capped rate. */
  ghost predicate Follows(ctx: Context, run: seq<Package>, p: Package)
    requires WellFormed(ctx)
  {
    && IsPackage(ctx, Used(run), p)
    && p.rate == EffectiveRate(DependencyRate(ctx, run, p.root), Score(ctx, Used(run), p.root))
  }

  ghost predicate FollowsAt(ctx: Context, run: seq<Package>, k: int)
    requires WellFormed(ctx) && 0 <= k < |run|
  {
    Follows(ctx, run[..k], run[k])
  }

  ghost predicate IsRun(ctx: Context, run: seq<Package>)
    requires WellFormed(ctx)
  {
    forall k :: 0 <= k < |run| ==> FollowsAt(ctx, run, k)
  }

  /** No unused transaction outside `skipped` would have scored better. */
  ghost predicate Best(ctx: Context, used: set<TxId>, skipped: set<TxId>, root: TxId)
    requires WellFormed(ctx) && root in ctx.txs
  {
    forall t :: t in ctx.txs && t !in used && t !in skipped ==>
      Score(ctx, used, t) <= Score(ctx, used, root)
  }

  lemma RunPrefix(ctx: Context, run: seq<Package>, k: nat)
    requires WellFormed(ctx) && IsRun(ctx, run) && k <= |run|
    ensures IsRun(ctx, run[..k])
  {
    forall i | 0 <= i < k
      ensures FollowsAt(ctx, run[..k], i)
    {
      assert FollowsAt(ctx, run, i);
      assert run[..k][..i] == run[..i];
    }
  }

  lemma RunGrows(ctx: Context, run: seq<Package>, p: Package)
    requires WellFormed(ctx) && IsRun(ctx, run) && Follows(ctx, run, p)
    ensures IsRun(ctx, run + [p])
    ensures Used(run + [p]) == Used(run) + Members(p)
  {
    var more := run + [p];
    forall i | 0 <= i < |more|
      ensures FollowsAt(ctx, more, i)
    {
      if i < |run| {
        assert FollowsAt(ctx, run, i);
        assert more[..i] == run[..i];
      } else {
        assert more[..i] == run;
      }
    }
    forall t | t in Used(run) + Members(p)
      ensures t in Used(more)
    {
      if t in Used(run) {
        var k :| 0 <= k < |run| && t in run[k].cluster;
        assert t in more[k].cluster;
      } else {
        assert t in more[|run|].cluster;
      }
    }
    forall t | t in Used(more)
      ensures t in Used(run) + Members(p)
    {
      var k :| 0 <= k < |more| && t in more[k].cluster;
      if k < |run| {
        assert t in run[k].cluster;
      }
    }
  }

  lemma UsedHolds(run: seq<Package>, k: nat)
    requires k < |run|
    ensures Members(run[k]) <= Used(run)
  {
    forall t | t in run[k].cluster
      ensures t in Used(run)
    {
      assert t in run[k].cluster;
    }
  }

  /** A run never takes a transaction without taking all its ancestors no later. */
  lemma AncestorsComeFirst(ctx: Context, run: seq<Package>, j: nat, t: TxId, a: TxId) returns (i: nat)
    requires WellFormed(ctx) && IsRun(ctx, run) && j < |run|
    requires t in run[j].cluster && a in Ancestors(ctx.txs, t)
    ensures i <= j && a in run[i].cluster
  {
    var p := run[j];
    assert FollowsAt(ctx, run, j);
    assert t in Members(p);
    if t != p.root {
      AncestorsCompose(ctx.txs, a, t, p.root);
    }
    if a in Used(run[..j]) {
      i :| 0 <= i < |run[..j]| && a in run[..j][i].cluster;
    } else {
      assert a in Members(p);
      i := j;
    }
  }

  lemma UsedIsClosed(ctx: Context, run: seq<Package>, a: TxId, t: TxId)
    requires WellFormed(ctx) && IsRun(ctx, run)
    requires t in Used(run) && a in Ancestors(ctx.txs, t)
    ensures a in Used(run)
  {
    var j :| 0 <= j < |run| && t in run[j].cluster;
    var i := AncestorsComeFirst(ctx, run, j, t, a);
    assert a in run[i].cluster;
  }

  lemma UsedInPool(ctx: Context, run: seq<Package>)
    requires WellFormed(ctx) && IsRun(ctx, run)
    ensures Used(run) <= ctx.txs.Keys
  {
    forall t | t in Used(run)
      ensures t in ctx.txs
    {
      var k :| 0 <= k < |run| && t in run[k].cluster;
      assert FollowsAt(ctx, run, k);
      assert t in Members(run[k]);
    }
  }

  /** No transaction is in two packages. */
  lemma PackagesDisjoint(ctx: Context, run: seq<Package>, i: nat, j: nat)
    requires WellFormed(ctx) && IsRun(ctx, run) && i < j < |run|
    ensures Members(run[i]) !! Members(run[j])
  {
    UsedHolds(run[..j], i);
    var p := run[j];
    assert FollowsAt(ctx, run, j);
    assert Members(p) !! Used(run[..j]);
  }

  /** Inside a package the members are in topological order: an ancestor has strictly
      fewer ancestors left, so ordering by their number puts it before its descendants. */
  lemma ClusterIsTopological(ctx: Context, rank: map<TxId, nat>, used: set<TxId>, p: Package, i: nat, j: nat)
    requires Ranks(ctx.txs, rank) && IsPackage(ctx, used, p)
    requires i < |p.cluster| && j < |p.cluster|
    requires p.cluster[i] in Ancestors(ctx.txs, p.cluster[j])
    ensures i < j
  {
    forall x | x in p.cluster
      ensures x !in used && (x == p.root || x in Ancestors(ctx.txs, p.root))
    {
      assert x in Members(p);
    }
    FewestFirstIsTopological(ctx, rank, used, p.root, p.cluster, i, j);
  }

  lemma FewestFirstIsTopological(
    ctx: Context, rank: map<TxId, nat>, used: set<TxId>, root: TxId, cluster: seq<TxId>, i: nat, j: nat)
    requires Ranks(ctx.txs, rank)
    requires i < |cluster| && j < |cluster| && cluster[|cluster|-1] == root
    requires forall x :: x in cluster ==> x !in used && (x == root || x in Ancestors(ctx.txs, root))
    requires FewestFirst(ctx, used, cluster[..|cluster|-1])
    requires cluster[i] in Ancestors(ctx.txs, cluster[j])
    ensures i < j
  {
    var a, t, last := cluster[i], cluster[j], |cluster| - 1;
    AncestorsRankLower(ctx.txs, rank, a, t);
    if i == last {
      if t != root {
        AncestorsRankLower(ctx.txs, rank, t, root);
      }
    } else if j <= i {
      var others := cluster[..last];
      assert others[i] == a && others[j] == t;
      AncestorLeavesFewer(ctx, rank, used, a, t);
    }
  }

  lemma AncestorLeavesFewer(ctx: Context, rank: map<TxId, nat>, used: set<TxId>, a: TxId, t: TxId)
    requires Ranks(ctx.txs, rank) && a in Ancestors(ctx.txs, t) && a !in used
    ensures |Remaining(ctx, used, a)| < |Remaining(ctx, used, t)|
  {
    forall x | x in Remaining(ctx, used, a)
      ensures x in Remaining(ctx, used, t)
    {
      AncestorsCompose(ctx.txs, x, a, t);
    }
    if a in Ancestors(ctx.txs, a) {
      AncestorsRankLower(ctx.txs, rank, a, a);
    }
    assert a in Remaining(ctx, used, t) && a !in Remaining(ctx, used, a);
    ProperSubsetIsSmaller(Remaining(ctx, used, a), Remaining(ctx, used, t));
  }
}
