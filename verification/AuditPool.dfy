/** The pool of candidate transactions while blocks are being built from it. */
module AuditPools {
  import opened Basics
  import opened Ancestry
  import opened Packages
  import opened PackageRates
  import opened Relatives
  import opened Repairs
  import opened Commits

  class AuditPool {
    const ctx: Context
    ghost const rank: map<TxId, nat>

    /** Every candidate's working record. */
    var auditPool: Book

    /** The packages committed so far. */
    ghost var run: seq<Package>

    ghost predicate Valid()
      reads this
    {
      Ranks(ctx.txs, rank) && Settled(ctx, auditPool, run)
    }

    constructor (ctx: Context, ghost rank: map<TxId, nat>)
      requires WellFormed(ctx) && Ranks(ctx.txs, rank)
      ensures this.ctx == ctx && this.rank == rank
      ensures Building(ctx, auditPool, {}) && run == []
      ensures auditPool ==
        map t | t in ctx.txs :: AuditTx(false, {}, {}, NOTHING, 0.0, ctx.firstRate[t], ctx.firstRate[t], [], false)
    {
      this.ctx, this.rank, run := ctx, rank, [];
      auditPool := map t | t in ctx.txs ::
        AuditTx(false, {}, {}, NOTHING, 0.0, ctx.firstRate[t], ctx.firstRate[t], [], false);
    }

    /** Adds up a transaction and its known ancestors. */
    method SumAncestors(t: TxId) returns (sum: Totals)
      requires t in ctx.txs && t in auditPool && auditPool[t].ancestorMap <= ctx.txs.Keys
      ensures sum == ctx.txs[t].own.Plus(TotalOf(ctx.txs, auditPool[t].ancestorMap))
    {
      sum := ctx.txs[t].own;
      var rest := auditPool[t].ancestorMap;
      while rest != {}
        invariant rest <= ctx.txs.Keys
        invariant sum.Plus(TotalOf(ctx.txs, rest)) == ctx.txs[t].own.Plus(TotalOf(ctx.txs, auditPool[t].ancestorMap))
        decreases |rest|
      {
        var a :| a in rest;
        TotalWithout(ctx.txs, rest, a);
        sum := sum.Plus(ctx.txs[a].own);
        rest := rest - {a};
      }
    }

    /** Visits the ancestors of `t` depth first, each once, and records for `t` all its
        ancestors and the totals over them. */
    method SetRelatives(t: TxId, ghost busy: set<TxId>)
      requires Ranks(ctx.txs, rank) && Building(ctx, auditPool, busy)
      requires t in ctx.txs && !auditPool[t].relativesSet && t !in busy
      requires forall b :: b in busy ==> rank[t] < rank[b]
      modifies this`auditPool
      ensures Building(ctx, auditPool, busy) && auditPool[t].relativesSet
      ensures Progress(old(auditPool), auditPool, busy)
      decreases rank[t], 4
    {
      assert Untouched(auditPool, t);
      VisitParents(t, busy);
      AncestorsAreAboveParents(ctx.txs, t);
      ghost var before := auditPool;
      Complete(t, busy);
      ProgressCompose(old(auditPool), before, auditPool, busy);
    }

    method VisitParents(t: TxId, ghost busy: set<TxId>)
      requires Ranks(ctx.txs, rank) && Building(ctx, auditPool, busy + {t})
      requires t in ctx.txs && t !in busy && Untouched(auditPool, t)
      requires forall b :: b in busy ==> rank[t] < rank[b]
      modifies this`auditPool
      ensures Building(ctx, auditPool, busy + {t})
      ensures Progress(old(auditPool), auditPool, busy)
      ensures KnowsAbove(ctx, auditPool, t, Parents(ctx.txs, t))
      decreases rank[t], 3
    {
      var inputs := ctx.txs[t].inputs;
      SpentParents(ctx.txs, t);
      NothingChanged(auditPool, busy);
      for i := 0 to |inputs|
        invariant Building(ctx, auditPool, busy + {t})
        invariant Progress(old(auditPool), auditPool, busy)
        invariant KnowsAbove(ctx, auditPool, t, ParentsUpTo(ctx.txs, t, i))
      {
        ghost var before := auditPool;
        VisitInput(t, i, busy);
        ProgressCompose(old(auditPool), before, auditPool, busy);
      }
    }

    method VisitInput(t: TxId, i: nat, ghost busy: set<TxId>)
      requires Ranks(ctx.txs, rank) && Building(ctx, auditPool, busy + {t})
      requires t in ctx.txs && t !in busy && i < |ctx.txs[t].inputs|
      requires forall b :: b in busy ==> rank[t] < rank[b]
      requires KnowsAbove(ctx, auditPool, t, ParentsUpTo(ctx.txs, t, i))
      modifies this`auditPool
      ensures Building(ctx, auditPool, busy + {t})
      ensures Progress(old(auditPool), auditPool, busy)
      ensures KnowsAbove(ctx, auditPool, t, ParentsUpTo(ctx.txs, t, i + 1))
      decreases rank[t], 2
    {
      var input := ctx.txs[t].inputs[i];
      ParentStep(ctx.txs, t, i);
      if input in ctx.txs {
        TakeParent(t, input, busy, ParentsUpTo(ctx.txs, t, i));
      } else {
        NothingChanged(auditPool, busy);
      }
    }

    /** Sets the relatives of all transactions, listed in `order`. */
    method SetAllRelatives(order: seq<TxId>)
      requires Ranks(ctx.txs, rank) && Building(ctx, auditPool, {}) && run == []
      requires Elements(order) == ctx.txs.Keys
      requires forall t :: t in ctx.txs ==> Marks(auditPool[t]) == (ctx.firstRate[t], ctx.firstRate[t], [], false)
      modifies this`auditPool
      ensures Valid()
    {
      NothingChanged(auditPool, {});
      for i := 0 to |order|
        invariant Building(ctx, auditPool, {}) && Progress(old(auditPool), auditPool, {})
        invariant forall t :: t in order[..i] ==> t in ctx.txs && auditPool[t].relativesSet
      {
        assert order[i] in Elements(order);
        if !auditPool[order[i]].relativesSet {
          ghost var before := auditPool;
          SetRelatives(order[i], {});
          ProgressCompose(old(auditPool), before, auditPool, {});
        }
      }
      forall t | t in ctx.txs
        ensures auditPool[t].relativesSet && Marks(auditPool[t]) == Marks(old(auditPool)[t])
      {
        assert t in Elements(order) && t in order[..|order|];
      }
      BuiltIsSettled(ctx, auditPool);
    }

    method Complete(t: TxId, ghost busy: set<TxId>)
      requires Building(ctx, auditPool, busy + {t}) && t !in busy && t in ctx.txs
      requires KnowsAbove(ctx, auditPool, t, Parents(ctx.txs, t))
      requires Ancestors(ctx.txs, t) == Above(ctx.txs, Parents(ctx.txs, t))
      modifies this`auditPool
      ensures Building(ctx, auditPool, busy) && auditPool[t].relativesSet
      ensures Progress(old(auditPool), auditPool, busy)
    {
      var sum := SumAncestors(t);
      CompletedStep(ctx, auditPool, busy, t);
      assert Remaining(ctx, {}, t) == Ancestors(ctx.txs, t);
      auditPool := Completed(auditPool, t, sum, ctx.scoring(sum));
    }

    method TakeParent(t: TxId, parent: TxId, ghost busy: set<TxId>, ghost known: set<TxId>)
      requires Ranks(ctx.txs, rank) && Building(ctx, auditPool, busy + {t})
      requires t in ctx.txs && t !in busy && parent in Parents(ctx.txs, t)
      requires forall b :: b in busy ==> rank[t] < rank[b]
      requires KnowsAbove(ctx, auditPool, t, known)
      modifies this`auditPool
      ensures Building(ctx, auditPool, busy + {t})
      ensures Progress(old(auditPool), auditPool, busy)
      ensures KnowsAbove(ctx, auditPool, t, known + {parent})
      decreases rank[t], 1
    {
      if parent !in auditPool[t].ancestorMap {
        VisitParent(t, parent, busy);
        NewParentIsKnown(ctx, old(auditPool), auditPool, busy, t, known, parent);
      } else {
        KnownParentAddsNothing(ctx, rank, auditPool, busy + {t}, t, known, parent);
        NothingChanged(auditPool, busy);
      }
    }

    method VisitParent(t: TxId, parent: TxId, ghost busy: set<TxId>)
      requires Ranks(ctx.txs, rank) && Building(ctx, auditPool, busy + {t})
      requires t in ctx.txs && t !in busy && parent in Parents(ctx.txs, t)
      requires forall b :: b in busy ==> rank[t] < rank[b]
      modifies this`auditPool
      ensures Building(ctx, auditPool, busy + {t}) && auditPool[parent].relativesSet
      ensures Progress(old(auditPool), auditPool, busy)
      ensures auditPool[t].ancestorMap == old(auditPool)[t].ancestorMap + {parent} + Ancestors(ctx.txs, parent)
      ensures Holders(auditPool, t) == Holders(old(auditPool), t) + {parent}
      decreases rank[t], 0
    {
      ghost var start := auditPool;
      LinkStep(ctx, start, busy, t, parent);
      auditPool := WithLink(auditPool, t, parent);
      ghost var linked := auditPool;
      NothingChanged(linked, busy + {t});
      if !auditPool[parent].relativesSet {
        SetRelatives(parent, busy + {t});
      }
      ghost var visited := auditPool;
      InheritStep(ctx, visited, busy, t, parent);
      auditPool := WithAncestors(auditPool, t, auditPool[parent].ancestorMap);
      ProgressThrice(start, linked, visited, auditPool, busy, t);
    }

    // ---------------------------------------------------------------- repairing

    /** Pushes those of `kids` that have not been seen. */
    method PushUnseen(kids: set<TxId>, seen: set<TxId>) returns (more: seq<TxId>)
      ensures Distinct(more) && Elements(more) == kids - seen
    {
      more := [];
      var rest := kids - seen;
      while rest != {}
        invariant Distinct(more) && Elements(more) !! rest && Elements(more) + rest == kids - seen
        decreases |rest|
      {
        var kid :| kid in rest;
        DistinctConcat(more, [kid]);
        assert Elements([kid]) == {kid};
        more := more + [kid];
        rest := rest - {kid};
      }
    }

    /** Walks over the descendants of `rootTx` that still count it as an ancestor, and
        repairs each once. Returns them in the order of the walk. */
    method UpdateDescendants(rootTx: TxId, clusterRate: real, ghost removed: set<TxId>) returns (touched: seq<TxId>)
      requires Ranks(ctx.txs, rank) && Linked(ctx.txs, auditPool) && Accounted(ctx, auditPool, removed)
      requires rootTx in ctx.txs && rootTx !in removed
      modifies this`auditPool
      ensures RepairedIn(ctx, old(auditPool), auditPool, rootTx, clusterRate, Below(ctx.txs, rootTx))
      ensures Distinct(touched) && Elements(touched) == Below(ctx.txs, rootTx)
    {
      ghost var before := auditPool;
      touched := [];
      var descendants := PushUnseen(auditPool[rootTx].children, {});
      var descendantSet := Elements(descendants);
      WalkBegins(ctx.txs, before, rootTx, descendants);
      while descendants != []
        invariant Walking(before, rootTx, descendantSet, descendants, Elements(touched))
        invariant RepairedIn(ctx, before, auditPool, rootTx, clusterRate, Elements(touched))
        invariant Distinct(touched)
        decreases |ctx.txs.Keys - descendantSet|, |descendants|
      {
        var descendantTx := descendants[|descendants|-1];
        WalkTop(before, rootTx, descendantSet, descendants, Elements(touched));
        assert auditPool[descendantTx] == before[descendantTx];
        if rootTx in auditPool[descendantTx].ancestorMap {
          descendants, descendantSet, touched :=
            RepairTop(rootTx, clusterRate, before, descendants, descendantSet, touched);
        } else {
          WalkPops(before, rootTx, descendantSet, descendants, Elements(touched));
          descendants := descendants[..|descendants|-1];
        }
      }
      WalkEnds(ctx, rank, before, removed, rootTx, descendantSet, Elements(touched));
    }

    /** The descendant on top of the stack is repaired and makes place for its children. */
    method RepairTop(rootTx: TxId, clusterRate: real, ghost before: Book,
                     descendants: seq<TxId>, descendantSet: set<TxId>, touched: seq<TxId>)
      returns (descendants': seq<TxId>, descendantSet': set<TxId>, touched': seq<TxId>)
      requires rootTx in ctx.txs && before.Keys == ctx.txs.Keys && Linked(ctx.txs, before)
      requires Walking(before, rootTx, descendantSet, descendants, Elements(touched)) && descendants != []
      requires RepairedIn(ctx, before, auditPool, rootTx, clusterRate, Elements(touched)) && Distinct(touched)
      requires descendants[|descendants|-1] in auditPool
      requires rootTx in auditPool[descendants[|descendants|-1]].ancestorMap
      modifies this`auditPool
      ensures Walking(before, rootTx, descendantSet', descendants', Elements(touched'))
      ensures RepairedIn(ctx, before, auditPool, rootTx, clusterRate, Elements(touched')) && Distinct(touched')
      ensures |ctx.txs.Keys - descendantSet'| <= |ctx.txs.Keys - descendantSet|
      ensures |descendants'| >= |descendants| ==> |ctx.txs.Keys - descendantSet'| < |ctx.txs.Keys - descendantSet|
    {
      var descendantTx := descendants[|descendants|-1];
      var more := PushUnseen(auditPool[descendantTx].children, descendantSet);
      RepairRound(ctx, before, auditPool, rootTx, clusterRate, descendantSet, descendants, touched, more);
      auditPool := auditPool[descendantTx := Repaired(ctx, auditPool[descendantTx], rootTx, clusterRate)];
      touched' := touched + [descendantTx];
      descendants' := descendants[..|descendants|-1] + more;
      descendantSet' := descendantSet + Elements(more);
    }

    // --------------------------------------------------------------- committing

    /** Lists a set of transactions by ascending number of remaining ancestors. */
    method SortByAncestors(ancestors: set<TxId>) returns (sorted: seq<TxId>)
      requires ancestors <= auditPool.Keys
      ensures Distinct(sorted) && Elements(sorted) == ancestors
      ensures forall x :: x in sorted ==> x in auditPool
      ensures SortedByAncestors(auditPool, sorted)
    {
      sorted := [];
      var rest := ancestors;
      while rest != {}
        invariant SortedSoFar(auditPool, ancestors, sorted, rest)
        decreases |rest|
      {
        ghost var fewest := SomeoneHasFewest(auditPool, rest);
        var next :| next in rest && FewestAncestors(auditPool, rest, next);
        SortStep(auditPool, ancestors, sorted, rest, next);
        sorted := sorted + [next];
        rest := rest - {next};
      }
    }

    /** Pops the members off the sorted package, last first, and marks each. */
    method MarkUsed(clusterTxids: seq<TxId>, rate: real) returns (used: seq<TxId>)
      requires Elements(clusterTxids) <= auditPool.Keys
      modifies this`auditPool
      ensures used == Reversed(clusterTxids)
      ensures OnlyMarked(old(auditPool), auditPool, rate, clusterTxids, Elements(clusterTxids))
    {
      used := [];
      var sortedTxSet := clusterTxids;
      while sortedTxSet != []
        invariant sortedTxSet <= clusterTxids
        invariant used + Reversed(sortedTxSet) == Reversed(clusterTxids)
        invariant OnlyMarked(old(auditPool), auditPool, rate, clusterTxids, Elements(clusterTxids[|sortedTxSet|..]))
      {
        var last := |sortedTxSet| - 1;
        var ancestor := sortedTxSet[last];
        MarkStep(old(auditPool), auditPool, rate, clusterTxids, last);
        auditPool := auditPool[ancestor := Marked(auditPool[ancestor], rate, clusterTxids)];
        used := used + [ancestor];
        sortedTxSet := sortedTxSet[..last];
      }
    }

    /** Removes the taken members, one by one, from everybody's ancestors. */
    method RepairAll(used: seq<TxId>, clusterRate: real, ghost p: Package, ghost before: Book)
      returns (touched: seq<TxId>)
      requires Ranks(ctx.txs, rank) && clusterRate == p.rate
      requires Taking(ctx, before, auditPool, Used(run), p, {})
      requires Distinct(used) && Elements(used) == Members(p) && Members(p) <= ctx.txs.Keys - Used(run)
      modifies this`auditPool
      ensures Taking(ctx, before, auditPool, Used(run), p, Members(p))
      ensures Elements(touched) == BelowAny(ctx.txs, Elements(used))
    {
      touched := [];
      assert Elements(used[..0]) == {};
      for i := 0 to |used|
        invariant Taking(ctx, before, auditPool, Used(run), p, Elements(used[..i]))
        invariant Elements(touched) == BelowAny(ctx.txs, Elements(used[..i]))
      {
        var x := used[i];
        assert x in Elements(used);
        ghost var done := Elements(used[..i]);
        assert x !in done;
        assert Elements(used[..i+1]) == done + {x};
        ghost var mid := auditPool;
        var more := UpdateDescendants(x, clusterRate, Used(run) + done);
        TakingStep(ctx, before, mid, auditPool, Used(run), p, done, x);
        BelowOneMore(ctx.txs, done, x);
        assert Elements(touched + more) == Elements(touched) + Elements(more);
        touched := touched + more;
      }
      assert used[..|used|] == used;
    }

    /** `next` below everything left above it, with the rate they get. */
    method PackageOf(next: TxId) returns (p: Package)
      requires Valid() && next in ctx.txs && !auditPool[next].used
      ensures Follows(ctx, run, p) && p.root == next
      ensures Distinct(p.cluster) && Members(p) <= ctx.txs.Keys - Used(run)
    {
      NotOwnAncestor(ctx.txs, rank, next);
      assert next !in Used(run) && AccountedAt(ctx, auditPool[next], Used(run), next);
      var sorted := SortByAncestors(auditPool[next].ancestorMap);
      PackageFollows(ctx, auditPool, run, next, sorted);
      p := Package(next, sorted + [next],
          EffectiveRate(auditPool[next].dependencyRate, ctx.scoring(auditPool[next].totals)));
    }

    /** Marks the members of `p` and repairs the records of everybody below them. */
    method TakeMembers(p: Package) returns (used: seq<TxId>, touched: seq<TxId>)
      requires Valid() && Follows(ctx, run, p) && Members(p) <= ctx.txs.Keys - Used(run)
      modifies this`auditPool
      ensures Settled(ctx, auditPool, run + [p])
      ensures used == Reversed(p.cluster)
      ensures Elements(touched) == BelowAny(ctx.txs, Elements(used))
    {
      ghost var before := auditPool;
      used := MarkUsed(p.cluster, p.rate);
      MarksBeginTaking(ctx, before, auditPool, Used(run), p);
      ReversedIsDistinct(p.cluster);
      touched := RepairAll(used, p.rate, p, before);
      TakingEnds(ctx, before, auditPool, run, p);
    }

    /** Takes `next` and everything left above it as one package. Returns the members in the
        order they were taken and whoever had a record repaired. */
    method CommitPackage(next: TxId) returns (used: seq<TxId>, touched: seq<TxId>, ghost p: Package)
      requires Valid() && next in ctx.txs && !auditPool[next].used
      modifies this
      ensures Valid()
      ensures run == old(run) + [p]
      ensures p.root == next && used == Reversed(p.cluster) && FairPrice(ctx, old(run), p)
      ensures Elements(touched) == BelowAny(ctx.txs, Elements(used))
    {
      var package := PackageOf(next);
      used, touched := TakeMembers(package);
      p := package;
      NextIsFair(ctx, rank, run, p);
      run := run + [p];
    }
  }
}
