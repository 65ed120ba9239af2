/** Where the members of a run stand in the list of what it took. */
module BlockOrder {
  import opened Basics
  import opened Ancestry
  import opened Packages

  /** The members of an earlier package stand before those of a later one. */
  lemma {:induction false} TakenInOrder(run: seq<Package>, i: nat, j: nat, a: TxId, b: TxId)
    requires i < j < |run| && a in run[i].cluster && b in run[j].cluster
    ensures Before(Taken(run), a, b)
  {
    var init, last := run[..|run|-1], run[|run|-1];
    if j < |init| {
      TakenInOrder(init, i, j, a, b);
      BeforeStays(Taken(init), Reversed(last.cluster), a, b);
    } else {
      TakenHas(init, i, a);
      ReversedIsSame(last.cluster);
      assert b in Elements(last.cluster) && b in Elements(Reversed(last.cluster));
      BeforeAcross(Taken(init), Reversed(last.cluster), a, b);
    }
  }

  lemma {:induction false} TakenHas(run: seq<Package>, i: nat, a: TxId)
    requires i < |run| && a in run[i].cluster
    ensures a in Taken(run)
  {
    var init, last := run[..|run|-1], run[|run|-1];
    if i < |init| {
      TakenHas(init, i, a);
    } else {
      ReversedIsSame(last.cluster);
      assert a in Elements(last.cluster) && a in Elements(Reversed(last.cluster));
    }
  }

  /** An ancestor is in an earlier package, or before its descendant in the same one. */
  lemma AncestorStands(ctx: Context, rank: map<TxId, nat>, run: seq<Package>, j: nat, t: TxId, a: TxId)
    returns (i: nat)
    requires WellFormed(ctx) && Ranks(ctx.txs, rank) && IsRun(ctx, run) && j < |run|
    requires t in run[j].cluster && a in Ancestors(ctx.txs, t)
    ensures i <= j && a in run[i].cluster && (i == j ==> Before(run[j].cluster, a, t))
  {
    i := AncestorsComeFirst(ctx, run, j, t, a);
    if i == j {
      var x :| 0 <= x < |run[j].cluster| && run[j].cluster[x] == a;
      var y :| 0 <= y < |run[j].cluster| && run[j].cluster[y] == t;
      assert FollowsAt(ctx, run, j);
      ClusterIsTopological(ctx, rank, Used(run[..j]), run[j], x, y);
    }
  }

  /** A package is in no other place. */
  lemma SamePlace(ctx: Context, run: seq<Package>, i: nat, j: nat, t: TxId)
    requires WellFormed(ctx) && IsRun(ctx, run) && i < |run| && j < |run|
    requires t in run[i].cluster && t in run[j].cluster
    ensures i == j
  {
    assert t in Members(run[i]) && t in Members(run[j]);
    if i < j {
      PackagesDisjoint(ctx, run, i, j);
    } else if j < i {
      PackagesDisjoint(ctx, run, j, i);
    }
  }
}
