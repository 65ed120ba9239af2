/** The bookkeeping both block builders share: every transaction keeps the set of its
    unused ancestors and running totals over it. This module builds it; the next one
    repairs it whenever a package is taken. */
module Relatives {
  import opened Basics
  import opened Ancestry
  import opened Packages

  /** The fields of a pool transaction that the builders change. The transaction objects
      are reached through the pool's map only, so ids stand for references to them. */
  datatype AuditTx = AuditTx(
    relativesSet: bool,
    ancestorMap: set<TxId>,
    children: set<TxId>,
    totals: Totals,
    score: real,
    dependencyRate: real,
    effectiveRate: real,
    cluster: seq<TxId>,
    used: bool)

  type Book = map<TxId, AuditTx>

  /** Who holds a child link to `t`. */
  ghost function Holders(book: Book, t: TxId): set<TxId> {
    set p | p in book && t in book[p].children
  }

  ghost predicate LinksInPool(txs: Pool, book: Book) {
    && book.Keys == txs.Keys
    && forall p, t {:trigger t in book[p].children} ::
         p in book && t in book[p].children ==> t in txs && p in Parents(txs, t)
  }

  /** Child links lead to real children, and although a link is only made to a parent
      that was not already known, going up along links still finds every ancestor. */
  ghost predicate Linked(txs: Pool, book: Book) {
    && LinksInPool(txs, book)
    && forall t {:trigger Holders(book, t)} :: t in txs ==> Ancestors(txs, t) == Above(txs, Holders(book, t))
  }

  /** The stored ancestors, totals and score of `t` are those of the graph once `removed`
      is taken away. */
  ghost predicate AccountedAt(ctx: Context, entry: AuditTx, removed: set<TxId>, t: TxId)
    requires t in ctx.txs
  {
    && entry.ancestorMap == Remaining(ctx, removed, t)
    && entry.totals == PackageTotals(ctx, removed, t)
    && entry.score == Score(ctx, removed, t)
  }

  // ------------------------------------------------- while relatives are being set

  ghost predicate Untouched(book: Book, t: TxId)
    requires t in book
  {
    book[t].ancestorMap == {} && Holders(book, t) == {}
  }

  ghost predicate Finished(ctx: Context, book: Book, t: TxId)
    requires t in ctx.txs && t in book && book.Keys == ctx.txs.Keys
  {
    && book[t].relativesSet
    && AccountedAt(ctx, book[t], {}, t)
    && (forall p :: p in Parents(ctx.txs, t) ==> book[p].relativesSet)
    && Ancestors(ctx.txs, t) == Above(ctx.txs, Holders(book, t))
  }

  /** In the middle of the traversal: every transaction is finished, or not visited yet,
      or on the call stack, whose members are in `busy`. */
  ghost predicate Building(ctx: Context, book: Book, busy: set<TxId>) {
    && WellFormed(ctx) && LinksInPool(ctx.txs, book) && busy <= ctx.txs.Keys
    && (forall b :: b in busy ==> !book[b].relativesSet)
    && (forall t {:trigger Finished(ctx, book, t)} :: t in ctx.txs && book[t].relativesSet ==> Finished(ctx, book, t))
    && forall t {:trigger Untouched(book, t)} ::
         t in ctx.txs && !book[t].relativesSet && t !in busy ==> Untouched(book, t)
  }

  ghost predicate Kept(before: Book, after: Book, b: TxId) {
    && b in before && b in after
    && after[b].ancestorMap == before[b].ancestorMap && Holders(after, b) == Holders(before, b)
  }

  /** The fields the traversal has no business with. */
  function Marks(entry: AuditTx): (real, real, seq<TxId>, bool) {
    (entry.dependencyRate, entry.effectiveRate, entry.cluster, entry.used)
  }

  /** What a visit leaves alone: who was finished, and everything about the call stack. */
  ghost predicate Progress(before: Book, after: Book, busy: set<TxId>) {
    && before.Keys == after.Keys
    && (forall t :: t in before && before[t].relativesSet ==> after[t].relativesSet)
    && (forall t {:trigger Marks(after[t])} :: t in before ==> Marks(after[t]) == Marks(before[t]))
    && forall b {:trigger Kept(before, after, b)} :: b in busy ==> Kept(before, after, b)
  }

  lemma ProgressCompose(one: Book, two: Book, three: Book, busy: set<TxId>)
    requires Progress(one, two, busy) && Progress(two, three, busy)
    ensures Progress(one, three, busy)
  {
    forall t | t in one
      ensures Marks(three[t]) == Marks(one[t])
    {
      assert Marks(two[t]) == Marks(one[t]);
    }
    forall b | b in busy
      ensures Kept(one, three, b)
    {
      assert Kept(one, two, b) && Kept(two, three, b);
    }
  }

  lemma {:induction false} AncestorsFinished(
    ctx: Context, rank: map<TxId, nat>, book: Book, busy: set<TxId>, t: TxId, a: TxId)
    requires Ranks(ctx.txs, rank) && Building(ctx, book, busy)
    requires t in ctx.txs && book[t].relativesSet && a in Ancestors(ctx.txs, t)
    ensures book[a].relativesSet
    decreases rank[t]
  {
    assert Finished(ctx, book, t);
    var p := AncestorThroughParent(ctx.txs, a, t);
    if a != p {
      AncestorsFinished(ctx, rank, book, busy, p, a);
    }
  }

  /** `t` has looked at the parents in `known`, and recorded them and all above them. */
  ghost predicate KnowsAbove(ctx: Context, book: Book, t: TxId, known: set<TxId>) {
    && t in book && book.Keys == ctx.txs.Keys && known <= book.Keys
    && (forall p :: p in known ==> book[p].relativesSet)
    && book[t].ancestorMap == Above(ctx.txs, known)
    && book[t].ancestorMap == Above(ctx.txs, Holders(book, t))
  }

  /** A parent met again, as someone's ancestor, adds nothing. */
  lemma KnownParentAddsNothing(
    ctx: Context, rank: map<TxId, nat>, book: Book, busy: set<TxId>, t: TxId, known: set<TxId>, parent: TxId)
    requires Ranks(ctx.txs, rank) && Building(ctx, book, busy) && KnowsAbove(ctx, book, t, known)
    requires parent in ctx.txs && parent in book[t].ancestorMap
    ensures KnowsAbove(ctx, book, t, known + {parent})
  {
    AboveGrows(ctx.txs, known, parent);
    AboveIsClosed(ctx.txs, known, parent);
    if parent !in known {
      var k :| k in known && parent in Ancestors(ctx.txs, k);
      AncestorsFinished(ctx, rank, book, busy, k, parent);
    }
  }

  lemma NewParentIsKnown(
    ctx: Context, before: Book, after: Book, busy: set<TxId>, t: TxId, known: set<TxId>, parent: TxId)
    requires KnowsAbove(ctx, before, t, known) && Progress(before, after, busy)
    requires parent in ctx.txs && after[parent].relativesSet
    requires after[t].ancestorMap == before[t].ancestorMap + {parent} + Ancestors(ctx.txs, parent)
    requires Holders(after, t) == Holders(before, t) + {parent}
    ensures KnowsAbove(ctx, after, t, known + {parent})
  {
    AboveGrows(ctx.txs, known, parent);
    AboveGrows(ctx.txs, Holders(before, t), parent);
  }

  function WithAncestors(book: Book, t: TxId, more: set<TxId>): Book
    requires t in book
  {
    book[t := book[t].(ancestorMap := book[t].ancestorMap + more)]
  }

  function WithChild(book: Book, p: TxId, t: TxId): Book
    requires p in book
  {
    book[p := book[p].(children := book[p].children + {t})]
  }

  lemma HoldersWithChild(book: Book, p: TxId, t: TxId, x: TxId)
    requires p in book
    ensures Holders(WithChild(book, p, t), x) == Holders(book, x) + if x == t then {p} else {}
  {
  }

  lemma HoldersWithAncestors(book: Book, t: TxId, more: set<TxId>, x: TxId)
    requires t in book
    ensures Holders(WithAncestors(book, t, more), x) == Holders(book, x)
  {
  }

  /** New links elsewhere do not concern a transaction that is finished. */
  lemma StaysFinished(ctx: Context, book: Book, after: Book, x: TxId)
    requires x in ctx.txs && book.Keys == after.Keys == ctx.txs.Keys && Finished(ctx, book, x)
    requires after[x] == book[x].(children := after[x].children) && Holders(after, x) == Holders(book, x)
    requires forall p {:trigger after[p]} :: p in book && book[p].relativesSet ==> after[p].relativesSet
    ensures Finished(ctx, after, x)
  {
    assert forall p :: p in Parents(ctx.txs, x) ==> book[p].relativesSet && p in book;
  }

  /** A member of the call stack may learn of more ancestors. */
  lemma AncestorsStep(ctx: Context, book: Book, busy: set<TxId>, t: TxId, more: set<TxId>)
    requires Building(ctx, book, busy) && t in busy
    ensures Building(ctx, WithAncestors(book, t, more), busy)
    ensures Progress(book, WithAncestors(book, t, more), busy - {t})
  {
    var after := WithAncestors(book, t, more);
    forall x ensures Holders(after, x) == Holders(book, x) { HoldersWithAncestors(book, t, more, x); }
    forall x | x in ctx.txs && after[x].relativesSet
      ensures Finished(ctx, after, x)
    {
      assert Finished(ctx, book, x);
    }
    forall x | x in ctx.txs && !after[x].relativesSet && x !in busy
      ensures Untouched(after, x)
    {
      assert Untouched(book, x);
    }
  }

  lemma ChildIsBuilding(ctx: Context, book: Book, busy: set<TxId>, p: TxId, t: TxId)
    requires Building(ctx, book, busy) && t in busy && p in Parents(ctx.txs, t)
    ensures Building(ctx, WithChild(book, p, t), busy)
  {
    var after := WithChild(book, p, t);
    forall x | x in ctx.txs && after[x].relativesSet
      ensures Finished(ctx, after, x)
    {
      assert Finished(ctx, book, x);
      HoldersWithChild(book, p, t, x);
      StaysFinished(ctx, book, after, x);
    }
    forall x | x in ctx.txs && !after[x].relativesSet && x !in busy
      ensures Untouched(after, x)
    {
      assert Untouched(book, x);
      HoldersWithChild(book, p, t, x);
    }
  }

  lemma ChildIsProgress(book: Book, busy: set<TxId>, p: TxId, t: TxId)
    requires t in busy && p in book && busy <= book.Keys
    ensures Progress(book, WithChild(book, p, t), busy - {t})
  {
    var after := WithChild(book, p, t);
    forall x | x in busy - {t}
      ensures Kept(book, after, x)
    {
      HoldersWithChild(book, p, t, x);
    }
  }

  /** A parent gets a link to a child that is on the call stack. */
  lemma ChildStep(ctx: Context, book: Book, busy: set<TxId>, p: TxId, t: TxId)
    requires Building(ctx, book, busy) && t in busy && p in Parents(ctx.txs, t)
    ensures Building(ctx, WithChild(book, p, t), busy)
    ensures Progress(book, WithChild(book, p, t), busy - {t})
    ensures Holders(WithChild(book, p, t), t) == Holders(book, t) + {p}
  {
    ChildIsBuilding(ctx, book, busy, p, t);
    ChildIsProgress(book, busy, p, t);
    HoldersWithChild(book, p, t, t);
  }

  function WithLink(book: Book, t: TxId, parent: TxId): Book
    requires t in book && parent in book
  {
    WithChild(WithAncestors(book, t, {parent}), parent, t)
  }

  /** A newly found parent is named as an ancestor and gets its link. */
  lemma LinkStep(ctx: Context, book: Book, busy: set<TxId>, t: TxId, parent: TxId)
    requires Building(ctx, book, busy + {t}) && t !in busy && t in ctx.txs && parent in Parents(ctx.txs, t)
    requires parent != t
    ensures var after := WithLink(book, t, parent);
      && Building(ctx, after, busy + {t}) && Progress(book, after, busy)
      && after[t].ancestorMap == book[t].ancestorMap + {parent}
      && Holders(after, t) == Holders(book, t) + {parent}
  {
    assert busy + {t} - {t} == busy;
    var named := WithAncestors(book, t, {parent});
    AncestorsStep(ctx, book, busy + {t}, t, {parent});
    HoldersWithAncestors(book, t, {parent}, t);
    ChildStep(ctx, named, busy + {t}, parent, t);
    ProgressCompose(book, named, WithLink(book, t, parent), busy);
  }

  /** What the parent knows by then flows to the child. */
  lemma InheritStep(ctx: Context, book: Book, busy: set<TxId>, t: TxId, parent: TxId)
    requires Building(ctx, book, busy + {t}) && t !in busy && t in ctx.txs && parent in ctx.txs
    requires book[parent].relativesSet
    ensures var after := WithAncestors(book, t, book[parent].ancestorMap);
      && Building(ctx, after, busy + {t}) && Progress(book, after, busy)
      && after[t].ancestorMap == book[t].ancestorMap + Ancestors(ctx.txs, parent)
      && Holders(after, t) == Holders(book, t)
  {
    assert busy + {t} - {t} == busy;
    assert Finished(ctx, book, parent);
    assert Remaining(ctx, {}, parent) == Ancestors(ctx.txs, parent);
    AncestorsStep(ctx, book, busy + {t}, t, book[parent].ancestorMap);
    HoldersWithAncestors(book, t, book[parent].ancestorMap, t);
  }

  lemma ProgressThrice(one: Book, two: Book, three: Book, four: Book, busy: set<TxId>, t: TxId)
    requires Progress(one, two, busy) && Progress(two, three, busy + {t}) && Progress(three, four, busy)
    ensures Progress(one, four, busy) && Kept(two, three, t)
  {
    assert Kept(two, three, t);
    forall b | b in busy
      ensures Kept(two, three, b)
    {
    }
    ProgressCompose(one, two, three, busy);
    ProgressCompose(one, three, four, busy);
  }

  lemma NothingChanged(book: Book, busy: set<TxId>)
    requires busy <= book.Keys
    ensures Progress(book, book, busy)
  {
  }

  function Completed(book: Book, t: TxId, totals: Totals, score: real): Book
    requires t in book
  {
    book[t := book[t].(totals := totals, score := score, relativesSet := true)]
  }

  lemma HoldersCompleted(book: Book, t: TxId, totals: Totals, score: real, x: TxId)
    requires t in book
    ensures Holders(Completed(book, t, totals, score), x) == Holders(book, x)
  {
  }

  lemma CompletedIsProgress(book: Book, busy: set<TxId>, t: TxId, totals: Totals, score: real)
    requires t in book && t !in busy && busy <= book.Keys
    ensures Progress(book, Completed(book, t, totals, score), busy)
  {
    var after := Completed(book, t, totals, score);
    forall x | x in busy
      ensures Kept(book, after, x)
    {
      HoldersCompleted(book, t, totals, score, x);
    }
  }

  /** The transaction on top of the call stack is done. */
  lemma CompletedStep(ctx: Context, book: Book, busy: set<TxId>, t: TxId)
    requires Building(ctx, book, busy + {t}) && t !in busy && t in ctx.txs
    requires book[t].ancestorMap == Ancestors(ctx.txs, t)
    requires forall p :: p in Parents(ctx.txs, t) ==> book[p].relativesSet
    requires Ancestors(ctx.txs, t) == Above(ctx.txs, Holders(book, t))
    ensures var after := Completed(book, t, PackageTotals(ctx, {}, t), Score(ctx, {}, t));
      Building(ctx, after, busy) && Progress(book, after, busy)
  {
    CompletedIsBuilding(ctx, book, busy, t);
    CompletedIsProgress(book, busy, t, PackageTotals(ctx, {}, t), Score(ctx, {}, t));
  }

  lemma CompletedIsBuilding(ctx: Context, book: Book, busy: set<TxId>, t: TxId)
    requires Building(ctx, book, busy + {t}) && t !in busy && t in ctx.txs
    requires book[t].ancestorMap == Ancestors(ctx.txs, t)
    requires forall p :: p in Parents(ctx.txs, t) ==> book[p].relativesSet
    requires Ancestors(ctx.txs, t) == Above(ctx.txs, Holders(book, t))
    ensures Building(ctx, Completed(book, t, PackageTotals(ctx, {}, t), Score(ctx, {}, t)), busy)
  {
    var totals, score := PackageTotals(ctx, {}, t), Score(ctx, {}, t);
    var after := Completed(book, t, totals, score);
    assert Remaining(ctx, {}, t) == Ancestors(ctx.txs, t);
    forall x | x in ctx.txs && after[x].relativesSet
      ensures Finished(ctx, after, x)
    {
      HoldersCompleted(book, t, totals, score, x);
      if x != t {
        assert Finished(ctx, book, x);
        StaysFinished(ctx, book, after, x);
      }
    }
    forall x | x in ctx.txs && !after[x].relativesSet && x !in busy
      ensures Untouched(after, x)
    {
      assert Untouched(book, x);
      HoldersCompleted(book, t, totals, score, x);
    }
  }

  /** The parents among the first `n` inputs. */
  ghost function ParentsUpTo(txs: Pool, t: TxId, n: nat): set<TxId>
    requires t in txs && n <= |txs[t].inputs|
  {
    set p | p in txs[t].inputs[..n] && p in txs
  }

  lemma ParentStep(txs: Pool, t: TxId, i: nat)
    requires t in txs && i < |txs[t].inputs|
    ensures var p := txs[t].inputs[i];
      ParentsUpTo(txs, t, i + 1) == if p in txs then ParentsUpTo(txs, t, i) + {p} else ParentsUpTo(txs, t, i)
    ensures txs[t].inputs[i] in txs ==> txs[t].inputs[i] in Parents(txs, t)
  {
    PrefixStep(txs[t].inputs, i);
  }

  lemma SpentParents(txs: Pool, t: TxId)
    requires t in txs
    ensures ParentsUpTo(txs, t, 0) == {} && ParentsUpTo(txs, t, |txs[t].inputs|) == Parents(txs, t)
  {
    PrefixWhole(txs[t].inputs);
  }
}
