/** Committing a package, told on records: what holds between packages, and how marking the
    members and repairing their descendants one by one gets from one such state to the next. */
module Commits {
  import opened Basics
  import opened Ancestry
  import opened Packages
  import opened Relatives
  import opened Repairs

  /** The records agree with what recomputing everything from the run would give. */
  ghost predicate Settled(ctx: Context, book: Book, run: seq<Package>) {
    && WellFormed(ctx) && Linked(ctx.txs, book) && IsRun(ctx, run)
    && Accounted(ctx, book, Used(run))
    && RatesSettled(ctx, book, run)
    && MarksSettled(ctx, book, run)
  }

  ghost predicate RatesSettled(ctx: Context, book: Book, run: seq<Package>) {
    && book.Keys == ctx.txs.Keys && ctx.firstRate.Keys == ctx.txs.Keys
    && forall t {:trigger DependencyRate(ctx, run, t)} ::
         t in ctx.txs ==> book[t].dependencyRate == DependencyRate(ctx, run, t)
  }

  /** Who is used, and at what rate and with whom it went. */
  ghost predicate MarksSettled(ctx: Context, book: Book, run: seq<Package>) {
    && book.Keys == ctx.txs.Keys && ctx.firstRate.Keys == ctx.txs.Keys
    && (forall t {:trigger book[t].used} :: t in ctx.txs ==> (book[t].used <==> t in Used(run)))
    && (forall k, t {:trigger t in run[k].cluster} :: 0 <= k < |run| && t in run[k].cluster ==>
          t in book && book[t].effectiveRate == run[k].rate && book[t].cluster == run[k].cluster)
    && forall t {:trigger book[t].effectiveRate} {:trigger book[t].cluster} :: t in ctx.txs && t !in Used(run) ==>
         book[t].effectiveRate == ctx.firstRate[t] && book[t].cluster == []
  }

  /** The relatives are all set and nothing has been taken yet. */
  lemma BuiltIsSettled(ctx: Context, book: Book)
    requires Building(ctx, book, {})
    requires forall t :: t in ctx.txs ==>
      && book[t].relativesSet && !book[t].used && book[t].cluster == []
      && book[t].dependencyRate == ctx.firstRate[t] && book[t].effectiveRate == ctx.firstRate[t]
    ensures Settled(ctx, book, [])
  {
    assert Used([]) == {};
    forall t | t in ctx.txs
      ensures AccountedAt(ctx, book[t], {}, t) && Ancestors(ctx.txs, t) == Above(ctx.txs, Holders(book, t))
    {
      assert Finished(ctx, book, t);
    }
  }

  function Marked(entry: AuditTx, rate: real, cluster: seq<TxId>): AuditTx {
    entry.(used := true, effectiveRate := rate, cluster := cluster)
  }

  /** In the middle of taking package `p`: its members are marked, and those in `done` no
      longer count as anybody's ancestors. */
  ghost predicate Taking(ctx: Context, before: Book, book: Book, used: set<TxId>, p: Package, done: set<TxId>) {
    && before.Keys == ctx.txs.Keys && Linked(ctx.txs, book) && Accounted(ctx, book, used + done)
    && CappedBy(ctx, before, book, p.rate, done)
    && MarkedIn(ctx, before, book, p.rate, p.cluster, Members(p))
  }

  ghost predicate CappedBy(ctx: Context, before: Book, book: Book, rate: real, done: set<TxId>) {
    && before.Keys == book.Keys == ctx.txs.Keys
    && forall t {:trigger book[t].dependencyRate} :: t in ctx.txs ==>
         book[t].dependencyRate == if done !! Ancestors(ctx.txs, t) then before[t].dependencyRate
                                   else Cap(before[t].dependencyRate, rate)
  }

  ghost predicate MarkedIn(ctx: Context, before: Book, book: Book, rate: real, cluster: seq<TxId>, marked: set<TxId>) {
    && before.Keys == book.Keys == ctx.txs.Keys
    && (forall t {:trigger book[t].used} :: t in ctx.txs ==> book[t].used == (before[t].used || t in marked))
    && (forall t {:trigger book[t].effectiveRate} :: t in ctx.txs ==>
          book[t].effectiveRate == if t in marked then rate else before[t].effectiveRate)
    && forall t {:trigger book[t].cluster} :: t in ctx.txs ==>
         book[t].cluster == if t in marked then cluster else before[t].cluster
  }

  /** Exactly the members of `marked` have been marked. */
  ghost predicate OnlyMarked(before: Book, after: Book, rate: real, cluster: seq<TxId>, marked: set<TxId>) {
    && after.Keys == before.Keys
    && forall t {:trigger after[t]} :: t in before ==>
         after[t] == if t in marked then Marked(before[t], rate, cluster) else before[t]
  }

  /** Marking from the end of the cluster: one more. */
  lemma MarkStep(before: Book, mid: Book, rate: real, cluster: seq<TxId>, last: nat)
    requires last < |cluster| && Elements(cluster) <= before.Keys
    requires OnlyMarked(before, mid, rate, cluster, Elements(cluster[last+1..]))
    ensures cluster[last] in mid
    ensures OnlyMarked(before, mid[cluster[last] := Marked(mid[cluster[last]], rate, cluster)], rate, cluster,
                       Elements(cluster[last..]))
  {
    assert cluster[last] in Elements(cluster);
    assert cluster[last..] == [cluster[last]] + cluster[last+1..];
    assert Elements(cluster[last..]) == Elements(cluster[last+1..]) + {cluster[last]};
  }

  lemma MarksBeginTaking(ctx: Context, before: Book, book: Book, used: set<TxId>, p: Package)
    requires Linked(ctx.txs, before) && Accounted(ctx, before, used)
    requires OnlyMarked(before, book, p.rate, p.cluster, Members(p))
    ensures Taking(ctx, before, book, used, p, {})
  {
    forall t
      ensures Holders(book, t) == Holders(before, t)
    {
    }
    assert used + {} == used;
    forall t | t in ctx.txs
      ensures AccountedAt(ctx, book[t], used, t)
    {
      assert AccountedAt(ctx, before[t], used, t);
    }
  }

  lemma TakingStep(
    ctx: Context, before: Book, mid: Book, book: Book, used: set<TxId>, p: Package, done: set<TxId>, x: TxId)
    requires Taking(ctx, before, mid, used, p, done) && x in ctx.txs && x !in used + done
    requires RepairedIn(ctx, mid, book, x, p.rate, Below(ctx.txs, x))
    ensures Taking(ctx, before, book, used, p, done + {x})
  {
    assert used + done + {x} == used + (done + {x});
    RepairsKeepAccounts(ctx, mid, book, x, p.rate, used + done);
    LinksSurviveRepair(ctx, mid, book, x, p.rate, Below(ctx.txs, x));
    CapsStep(ctx, before, mid, book, p.rate, done, x);
    MarksStay(ctx, before, mid, book, p, x);
  }

  lemma CapsStep(
    ctx: Context, before: Book, mid: Book, book: Book, rate: real, done: set<TxId>, x: TxId)
    requires CappedBy(ctx, before, mid, rate, done) && x in ctx.txs
    requires RepairedIn(ctx, mid, book, x, rate, Below(ctx.txs, x))
    ensures CappedBy(ctx, before, book, rate, done + {x})
  {
    forall t | t in ctx.txs
      ensures book[t].dependencyRate == if done + {x} !! Ancestors(ctx.txs, t) then before[t].dependencyRate
                                        else Cap(before[t].dependencyRate, rate)
    {
      CapTwice(before[t].dependencyRate, rate);
      assert mid[t].dependencyRate == mid[t].dependencyRate;
    }
  }

  /** A repair leaves marks alone. */
  lemma MarksStay(ctx: Context, before: Book, mid: Book, book: Book, p: Package, x: TxId)
    requires MarkedIn(ctx, before, mid, p.rate, p.cluster, Members(p)) && x in ctx.txs
    requires RepairedIn(ctx, mid, book, x, p.rate, Below(ctx.txs, x))
    ensures MarkedIn(ctx, before, book, p.rate, p.cluster, Members(p))
  {
  }

  lemma TakingEnds(ctx: Context, before: Book, book: Book, run: seq<Package>, p: Package)
    requires Settled(ctx, before, run) && Follows(ctx, run, p)
    requires Taking(ctx, before, book, Used(run), p, Members(p))
    ensures Settled(ctx, book, run + [p])
  {
    RunGrows(ctx, run, p);
    RatesEnd(ctx, before, book, run, p);
    MarksEnd(ctx, before, book, run, p);
  }

  lemma RatesEnd(ctx: Context, before: Book, book: Book, run: seq<Package>, p: Package)
    requires RatesSettled(ctx, before, run) && CappedBy(ctx, before, book, p.rate, Members(p))
    ensures RatesSettled(ctx, book, run + [p])
  {
    var more := run + [p];
    assert more[..|more|-1] == run && more[|more|-1] == p;
    forall t | t in ctx.txs
      ensures book[t].dependencyRate == DependencyRate(ctx, more, t)
    {
      assert before[t].dependencyRate == DependencyRate(ctx, run, t);
    }
  }

  lemma MarksEnd(ctx: Context, before: Book, book: Book, run: seq<Package>, p: Package)
    requires MarksSettled(ctx, before, run) && MarkedIn(ctx, before, book, p.rate, p.cluster, Members(p))
    requires Used(run + [p]) == Used(run) + Members(p) && Members(p) !! Used(run) && Members(p) <= ctx.txs.Keys
    ensures MarksSettled(ctx, book, run + [p])
  {
    var more := run + [p];
    forall t | t in ctx.txs ensures book[t].used <==> t in Used(more) {
      UsedMarksEnd(ctx, before, book, run, p, t);
    }
    forall k, t | 0 <= k < |more| && t in more[k].cluster
      ensures t in book && book[t].effectiveRate == more[k].rate && book[t].cluster == more[k].cluster
    {
      TakenMarksEnd(ctx, before, book, run, p, k, t);
    }
    forall t | t in ctx.txs && t !in Used(more)
      ensures book[t].effectiveRate == ctx.firstRate[t] && book[t].cluster == []
    {
      OtherMarksEnd(ctx, before, book, run, p, t);
    }
  }

  lemma UsedMarksEnd(ctx: Context, before: Book, book: Book, run: seq<Package>, p: Package, t: TxId)
    requires MarksSettled(ctx, before, run) && MarkedIn(ctx, before, book, p.rate, p.cluster, Members(p))
    requires t in ctx.txs
    ensures t in book && (book[t].used <==> t in Used(run) + Members(p))
  {
    assert before[t].used <==> t in Used(run);
  }

  lemma TakenMarksEnd(
    ctx: Context, before: Book, book: Book, run: seq<Package>, p: Package, k: nat, t: TxId)
    requires MarksSettled(ctx, before, run) && MarkedIn(ctx, before, book, p.rate, p.cluster, Members(p))
    requires Members(p) !! Used(run) && Members(p) <= ctx.txs.Keys && k <= |run| && t in (run + [p])[k].cluster
    ensures t in book && book[t].effectiveRate == (run + [p])[k].rate && book[t].cluster == (run + [p])[k].cluster
  {
    if k < |run| {
      assert t in run[k].cluster;
      assert t in Used(run);
    } else {
      assert t in Members(p);
    }
  }

  lemma OtherMarksEnd(ctx: Context, before: Book, book: Book, run: seq<Package>, p: Package, t: TxId)
    requires MarksSettled(ctx, before, run) && MarkedIn(ctx, before, book, p.rate, p.cluster, Members(p))
    requires t in ctx.txs && t !in Used(run) && t !in Members(p)
    ensures t in book && book[t].effectiveRate == ctx.firstRate[t] && book[t].cluster == []
  {
    assert before[t].effectiveRate == ctx.firstRate[t] && before[t].cluster == [];
  }

  // ---------------------------------------------------- putting a package together

  predicate FewestAncestors(book: Book, s: set<TxId>, x: TxId)
    requires s <= book.Keys && x in book
  {
    forall y {:trigger book[y].ancestorMap} :: y in s ==> |book[x].ancestorMap| <= |book[y].ancestorMap|
  }

  lemma {:induction false} SomeoneHasFewest(book: Book, s: set<TxId>) returns (x: TxId)
    requires s != {} && s <= book.Keys
    ensures x in s && FewestAncestors(book, s, x)
    decreases |s|
  {
    x :| x in s;
    if s != {x} {
      var y := SomeoneHasFewest(book, s - {x});
      if |book[y].ancestorMap| < |book[x].ancestorMap| {
        x := y;
      }
    }
  }

  predicate SortedByAncestors(book: Book, s: seq<TxId>)
    requires forall x :: x in s ==> x in book
  {
    forall i, j :: 0 <= i < j < |s| ==> |book[s[i]].ancestorMap| <= |book[s[j]].ancestorMap|
  }

  ghost predicate SortedSoFar(book: Book, all: set<TxId>, sorted: seq<TxId>, rest: set<TxId>) {
    && all <= book.Keys && Distinct(sorted) && Elements(sorted) + rest == all && Elements(sorted) !! rest
    && (forall x :: x in sorted ==> x in book)
    && SortedByAncestors(book, sorted)
    && forall x {:trigger FewestAncestors(book, rest, x)} :: x in sorted ==> FewestAncestors(book, rest, x)
  }

  lemma SortStep(book: Book, all: set<TxId>, sorted: seq<TxId>, rest: set<TxId>, next: TxId)
    requires SortedSoFar(book, all, sorted, rest) && next in rest && FewestAncestors(book, rest, next)
    ensures SortedSoFar(book, all, sorted + [next], rest - {next})
  {
    assert Elements([next]) == {next};
    DistinctConcat(sorted, [next]);
    forall x | x in sorted
      ensures |book[x].ancestorMap| <= |book[next].ancestorMap| && FewestAncestors(book, rest - {next}, x)
    {
      assert FewestAncestors(book, rest, x);
    }
  }

  /** The root with its sorted ancestors is the package the run continues with. */
  lemma PackageFollows(ctx: Context, book: Book, run: seq<Package>, next: TxId, sorted: seq<TxId>)
    requires Settled(ctx, book, run) && next in ctx.txs && next !in Used(run)
    requires next !in Ancestors(ctx.txs, next)
    requires Distinct(sorted) && Elements(sorted) == book[next].ancestorMap
    requires forall x :: x in sorted ==> x in book
    requires SortedByAncestors(book, sorted)
    ensures Follows(ctx, run,
      Package(next, sorted + [next], EffectiveRate(book[next].dependencyRate, ctx.scoring(book[next].totals))))
  {
    var p := Package(next, sorted + [next], EffectiveRate(book[next].dependencyRate, ctx.scoring(book[next].totals)));
    assert AccountedAt(ctx, book[next], Used(run), next);
    assert next !in Elements(sorted);
    DistinctConcat(sorted, [next]);
    assert Members(p) == Elements(sorted) + {next};
    assert p.cluster[..|p.cluster|-1] == sorted;
    SortedIsFewestFirst(ctx, book, Used(run), sorted);
    assert book[next].dependencyRate == DependencyRate(ctx, run, next);
  }

  lemma SortedIsFewestFirst(ctx: Context, book: Book, used: set<TxId>, sorted: seq<TxId>)
    requires Accounted(ctx, book, used)
    requires forall x :: x in sorted ==> x in book
    requires SortedByAncestors(book, sorted)
    ensures FewestFirst(ctx, used, sorted)
  {
    forall i, j | 0 <= i < j < |sorted|
      ensures |Remaining(ctx, used, sorted[i])| <= |Remaining(ctx, used, sorted[j])|
    {
      assert AccountedAt(ctx, book[sorted[i]], used, sorted[i]);
      assert AccountedAt(ctx, book[sorted[j]], used, sorted[j]);
    }
  }
}
