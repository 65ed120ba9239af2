/** What taking one transaction out of everybody's ancestors means, and why the walk over
    child links gets to all of them. */
module Repairs {
  import opened Basics
  import opened Ancestry
  import opened Packages
  import opened Relatives

  ghost predicate Accounted(ctx: Context, book: Book, removed: set<TxId>) {
    && book.Keys == ctx.txs.Keys
    && forall t {:trigger AccountedAt(ctx, book[t], removed, t)} ::
         t in ctx.txs ==> AccountedAt(ctx, book[t], removed, t)
  }

  /** Everything below `root`. */
  ghost function Below(txs: Pool, root: TxId): set<TxId> {
    set t | t in txs && root in Ancestors(txs, t)
  }

  ghost function BelowAny(txs: Pool, roots: set<TxId>): set<TxId> {
    set t | t in txs && !(roots !! Ancestors(txs, t))
  }

  lemma BelowOneMore(txs: Pool, roots: set<TxId>, root: TxId)
    ensures BelowAny(txs, roots + {root}) == BelowAny(txs, roots) + Below(txs, root)
  {
    forall t | t in BelowAny(txs, roots + {root})
      ensures t in BelowAny(txs, roots) + Below(txs, root)
    {
      var a :| a in roots + {root} && a in Ancestors(txs, t);
    }
  }

  lemma BelowEither(txs: Pool, a: set<TxId>, b: set<TxId>)
    ensures BelowAny(txs, a + b) == BelowAny(txs, a) + BelowAny(txs, b)
  {
  }

  /** The record of a transaction once `root` no longer counts among its ancestors. */
  function Repaired(ctx: Context, entry: AuditTx, root: TxId, clusterRate: real): AuditTx
    requires root in ctx.txs
  {
    var left := entry.totals.Minus(ctx.txs[root].own);
    entry.(
      ancestorMap := entry.ancestorMap - {root},
      totals := left,
      score := ctx.scoring(left),
      dependencyRate := Cap(entry.dependencyRate, clusterRate))
  }

  /** Exactly the members of `handled` have been repaired. */
  ghost predicate RepairedIn(ctx: Context, before: Book, after: Book, root: TxId, clusterRate: real, handled: set<TxId>)
    requires root in ctx.txs
  {
    && after.Keys == before.Keys
    && forall t {:trigger after[t]} :: t in before ==>
         after[t] == if t in handled then Repaired(ctx, before[t], root, clusterRate) else before[t]
  }

  lemma RepairStep(
    ctx: Context, before: Book, mid: Book, root: TxId, clusterRate: real, handled: set<TxId>, d: TxId)
    requires root in ctx.txs && RepairedIn(ctx, before, mid, root, clusterRate, handled)
    requires d in before && d !in handled
    ensures RepairedIn(ctx, before, mid[d := Repaired(ctx, mid[d], root, clusterRate)], root, clusterRate,
      handled + {d})
  {
  }

  /** Repairing everything below `root` leaves each account as if it had been recomputed
      from the graph without `root`. */
  lemma RepairsKeepAccounts(
    ctx: Context, before: Book, after: Book, root: TxId, clusterRate: real, removed: set<TxId>)
    requires root in ctx.txs && root !in removed && Accounted(ctx, before, removed)
    requires RepairedIn(ctx, before, after, root, clusterRate, Below(ctx.txs, root))
    ensures Accounted(ctx, after, removed + {root})
  {
    forall t | t in ctx.txs
      ensures AccountedAt(ctx, after[t], removed + {root}, t)
    {
      assert AccountedAt(ctx, before[t], removed, t);
      RepairKeepsAccount(ctx, before[t], root, clusterRate, removed, t);
    }
  }

  lemma RepairKeepsAccount(ctx: Context, entry: AuditTx, root: TxId, clusterRate: real, removed: set<TxId>, t: TxId)
    requires root in ctx.txs && root !in removed && t in ctx.txs
    requires AccountedAt(ctx, entry, removed, t)
    ensures root in Ancestors(ctx.txs, t) ==>
      AccountedAt(ctx, Repaired(ctx, entry, root, clusterRate), removed + {root}, t)
    ensures root !in Ancestors(ctx.txs, t) ==> AccountedAt(ctx, entry, removed + {root}, t)
  {
    var left := Remaining(ctx, removed + {root}, t);
    assert left == Remaining(ctx, removed, t) - {root};
    if root in Ancestors(ctx.txs, t) {
      TotalWithout(ctx.txs, Remaining(ctx, removed, t), root);
      PlusThenMinus(ctx.txs[t].own, ctx.txs[root].own, TotalOf(ctx.txs, left));
    } else {
      assert left == Remaining(ctx, removed, t);
    }
  }

  lemma PlusThenMinus(x: Totals, y: Totals, z: Totals)
    ensures x.Plus(y.Plus(z)).Minus(y) == x.Plus(z)
  {
  }

  lemma LinksSurviveRepair(
    ctx: Context, before: Book, after: Book, root: TxId, clusterRate: real, handled: set<TxId>)
    requires root in ctx.txs && RepairedIn(ctx, before, after, root, clusterRate, handled)
    requires Linked(ctx.txs, before)
    ensures Linked(ctx.txs, after)
  {
    forall t
      ensures Holders(after, t) == Holders(before, t)
    {
    }
  }

  // -------------------------------------------------------------- the walk

  /** The walk has seen `seen`; what it has popped and found to have `root` as an ancestor
      is `handled`, and the children of those have been seen. */
  ghost predicate Walking(
    book: Book, root: TxId, seen: set<TxId>, pending: seq<TxId>, handled: set<TxId>)
  {
    && root in book && seen <= book.Keys
    && Distinct(pending) && Elements(pending) <= seen
    && handled == (set x | x in seen && x !in pending && root in book[x].ancestorMap)
    && book[root].children <= seen
    && forall x {:trigger book[x].children} :: x in handled ==> book[x].children <= seen
  }

  lemma ChildrenInPool(txs: Pool, book: Book, p: TxId)
    requires Linked(txs, book) && p in book
    ensures book[p].children <= txs.Keys
  {
  }

  lemma WalkBegins(txs: Pool, book: Book, root: TxId, pending: seq<TxId>)
    requires Linked(txs, book) && root in book
    requires Distinct(pending) && Elements(pending) == book[root].children
    ensures Walking(book, root, Elements(pending), pending, {})
  {
    ChildrenInPool(txs, book, root);
    assert forall x :: x in Elements(pending) ==> x in pending;
  }

  /** Whoever is pending has not been handled yet. */
  lemma WalkTop(book: Book, root: TxId, seen: set<TxId>, pending: seq<TxId>, handled: set<TxId>)
    requires Walking(book, root, seen, pending, handled) && pending != []
    ensures pending[|pending|-1] in seen && pending[|pending|-1] !in handled
  {
    assert pending[|pending|-1] in Elements(pending);
  }

  /** Each round of the walk either sees someone new or shortens the stack. */
  lemma FewerUnseen(keys: set<TxId>, seen: set<TxId>, more: set<TxId>)
    requires more <= keys - seen
    ensures |keys - (seen + more)| <= |keys - seen|
    ensures more != {} ==> |keys - (seen + more)| < |keys - seen|
  {
    if more != {} {
      ProperSubsetIsSmaller(keys - (seen + more), keys - seen);
    } else {
      assert seen + more == seen;
    }
  }

  lemma WalkPops(book: Book, root: TxId, seen: set<TxId>, pending: seq<TxId>, handled: set<TxId>)
    requires Walking(book, root, seen, pending, handled) && pending != []
    requires root !in book[pending[|pending|-1]].ancestorMap
    ensures Walking(book, root, seen, pending[..|pending|-1], handled)
  {
    var d, rest := pending[|pending|-1], pending[..|pending|-1];
    assert pending == rest + [d];
    assert d !in rest;
  }

  lemma WalkHandles(
    book: Book, root: TxId, seen: set<TxId>, pending: seq<TxId>, handled: set<TxId>, more: seq<TxId>)
    requires Walking(book, root, seen, pending, handled) && pending != []
    requires root in book[pending[|pending|-1]].ancestorMap
    requires Distinct(more) && Elements(more) == book[pending[|pending|-1]].children - seen
    requires book[pending[|pending|-1]].children <= book.Keys
    ensures Walking(book, root, seen + Elements(more), pending[..|pending|-1] + more, handled + {pending[|pending|-1]})
    ensures pending[|pending|-1] !in handled
  {
    var d, rest := pending[|pending|-1], pending[..|pending|-1];
    assert pending == rest + [d];
    assert d in Elements(pending);
    assert d !in Elements(more);
    forall x | x in Elements(rest)
      ensures x !in Elements(more)
    {
      assert x in Elements(pending);
    }
    DistinctConcat(rest, more);
  }

  /** One round of the walk that finds a descendant: it is repaired, and its children
      still unseen are pushed. */
  lemma RepairRound(
    ctx: Context, before: Book, mid: Book, root: TxId, clusterRate: real,
    seen: set<TxId>, pending: seq<TxId>, touched: seq<TxId>, more: seq<TxId>)
    requires root in ctx.txs && Linked(ctx.txs, before)
    requires Walking(before, root, seen, pending, Elements(touched)) && Distinct(touched)
    requires RepairedIn(ctx, before, mid, root, clusterRate, Elements(touched))
    requires pending != [] && pending[|pending|-1] in before && root in mid[pending[|pending|-1]].ancestorMap
    requires Distinct(more) && Elements(more) == mid[pending[|pending|-1]].children - seen
    ensures var d := pending[|pending|-1];
      && Distinct(touched + [d])
      && Walking(before, root, seen + Elements(more), pending[..|pending|-1] + more, Elements(touched + [d]))
      && RepairedIn(ctx, before, mid[d := Repaired(ctx, mid[d], root, clusterRate)], root, clusterRate,
                    Elements(touched + [d]))
    ensures |ctx.txs.Keys - (seen + Elements(more))| <= |ctx.txs.Keys - seen|
    ensures more != [] ==> |ctx.txs.Keys - (seen + Elements(more))| < |ctx.txs.Keys - seen|
  {
    var d := pending[|pending|-1];
    WalkTop(before, root, seen, pending, Elements(touched));
    assert mid[d] == before[d];
    ChildrenInPool(ctx.txs, before, d);
    WalkHandles(before, root, seen, pending, Elements(touched), more);
    RepairStep(ctx, before, mid, root, clusterRate, Elements(touched), d);
    assert Elements([d]) == {d};
    DistinctConcat(touched, [d]);
    FewerUnseen(ctx.txs.Keys, seen, Elements(more));
    assert more != [] ==> more[0] in Elements(more);
  }

  /** A set that holds the children of `root`, and those of each of its members below
      `root`, holds everything below `root`. */
  lemma {:induction false} WalkReaches(
    txs: Pool, rank: map<TxId, nat>, book: Book, root: TxId, seen: set<TxId>, d: TxId)
    requires Ranks(txs, rank) && Linked(txs, book) && root in txs
    requires book[root].children <= seen
    requires forall x {:trigger book[x].children} ::
      x in seen && x in txs && root in Ancestors(txs, x) ==> book[x].children <= seen
    requires root in Ancestors(txs, d)
    ensures d in seen
    decreases if d in rank then rank[d] else 0
  {
    var viaParent := AncestorThroughParent(txs, root, d);
    assert root in Above(txs, Holders(book, d));
    if root !in Holders(book, d) {
      var p :| p in Holders(book, d) && root in Ancestors(txs, p);
      assert d in book[p].children;
      WalkReaches(txs, rank, book, root, seen, p);
      assert book[p].children <= seen;
    }
  }

  /** When nothing is pending the walk has handled precisely what lies below `root`. */
  lemma WalkEnds(
    ctx: Context, rank: map<TxId, nat>, book: Book, removed: set<TxId>, root: TxId, seen: set<TxId>, handled: set<TxId>)
    requires Ranks(ctx.txs, rank) && Linked(ctx.txs, book) && Accounted(ctx, book, removed)
    requires root in ctx.txs && root !in removed
    requires Walking(book, root, seen, [], handled)
    ensures handled == Below(ctx.txs, root)
  {
    forall x | x in ctx.txs
      ensures root in book[x].ancestorMap <==> root in Ancestors(ctx.txs, x)
    {
      assert AccountedAt(ctx, book[x], removed, x);
    }
    forall d | d in Below(ctx.txs, root)
      ensures d in handled
    {
      WalkReaches(ctx.txs, rank, book, root, seen, d);
    }
  }
}
