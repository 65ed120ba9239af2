/** Building the template: the greedy loop and what it guarantees. */
module Template {
  import opened Basics
  import opened Ancestry
  import opened Packages
  import opened Relatives
  import opened Repairs
  import opened Queues
  import opened Weights
  import opened AuditPools
  import opened MiniMiner
  import opened RateOrder
  import opened Asides
  import opened Patience
  import opened BlockOrder
  import opened PackageRates

  /** At some earlier point of the run the package of `t` did not fit. */
  ghost predicate FailedToFit(ctx: Context, run: seq<Package>, lim: Limits, t: TxId) {
    exists j :: 0 <= j <= |run| && !Fits(ctx, run[..j], t, lim.weight, lim.sigops)
  }

  ghost predicate CountersAgree(
    ctx: Context, run: seq<Package>, transactions: seq<TxId>, blockWeight: int, blockSigops: int) {
    && Used(run) <= ctx.txs.Keys
    && transactions == Taken(run)
    && blockWeight == WeightOf(ctx.txs, Used(run))
    && blockSigops == TotalOf(ctx.txs, Used(run)).sigops
  }

  ghost predicate LimitsKept(ctx: Context, run: seq<Package>, lim: Limits, overflow: seq<TxId>, failures: nat) {
    && (forall t {:trigger FailedToFit(ctx, run, lim, t)} :: t in overflow ==>
          t in ctx.txs && FailedToFit(ctx, run, lim, t))
    && (!lim.Enforced() ==> overflow == [] && failures == 0)
    && (lim.Enforced() && run != [] ==> WithinLimits(ctx, run, lim.weight, lim.sigops))
  }

  ghost predicate BestAt(ctx: Context, run: seq<Package>, passedOver: seq<set<TxId>>, k: int)
    requires 0 <= k < |run| && k < |passedOver|
  {
    WellFormed(ctx) && run[k].root in ctx.txs && Best(ctx, Used(run[..k]), passedOver[k], run[k].root)
  }

  /** Each package was the best one left, save for those passed over: they had not fitted and
      had not been queued again. */
  ghost predicate Greedy(ctx: Context, run: seq<Package>, lim: Limits, passedOver: seq<set<TxId>>) {
    && |passedOver| == |run|
    && (forall k {:trigger BestAt(ctx, run, passedOver, k)} :: 0 <= k < |run| ==> BestAt(ctx, run, passedOver, k))
    && (forall k, t {:trigger t in passedOver[k]} :: 0 <= k < |run| && t in passedOver[k] ==>
          PassedOver(ctx, run[..k], lim, t))
    && (!lim.Enforced() ==> forall k {:trigger passedOver[k]} :: 0 <= k < |run| ==> passedOver[k] == {})
  }

  lemma FailureIsRemembered(ctx: Context, run: seq<Package>, p: Package, lim: Limits, t: TxId)
    requires FailedToFit(ctx, run, lim, t)
    ensures FailedToFit(ctx, run + [p], lim, t)
  {
    var j :| 0 <= j <= |run| && !Fits(ctx, run[..j], t, lim.weight, lim.sigops);
    assert (run + [p])[..j] == run[..j];
  }

  lemma GreedyGrows(
    ctx: Context, run: seq<Package>, p: Package, lim: Limits, passedOver: seq<set<TxId>>, aside: set<TxId>)
    requires WellFormed(ctx) && Greedy(ctx, run, lim, passedOver)
    requires p.root in ctx.txs && Best(ctx, Used(run), aside, p.root)
    requires forall t :: t in aside ==> PassedOver(ctx, run, lim, t)
    requires !lim.Enforced() ==> aside == {}
    ensures Greedy(ctx, run + [p], lim, passedOver + [aside])
  {
    var more, over := run + [p], passedOver + [aside];
    forall k | 0 <= k < |more|
      ensures BestAt(ctx, more, over, k)
    {
      if k < |run| {
        assert BestAt(ctx, run, passedOver, k);
        assert more[..k] == run[..k];
      } else {
        assert more[..k] == run;
      }
    }
    forall k, t | 0 <= k < |more| && t in over[k]
      ensures PassedOver(ctx, more[..k], lim, t)
    {
      if k < |run| {
        assert t in passedOver[k];
        assert more[..k] == run[..k];
      } else {
        assert more[..k] == run;
      }
    }
  }

  /** Both queues, the flags and the overflow list are in order. */
  ghost predicate QueuesKept(
    ctx: Context, book: Book, run: seq<Package>, done: set<TxId>, firstScore: map<TxId, real>, st: Selection,
    lim: Limits)
  {
    && Waiting(ctx, book, done, firstScore, st.mempoolArray, st.modified, st.isModified, Elements(st.overflow))
    && AsideKnown(ctx, run, done, st, lim)
  }

  /** Drops used and repaired transactions from the head of the array. */
  method SkipInvalid(audit: AuditPool, st: Selection, ghost firstScore: map<TxId, real>, ghost lim: Limits)
    returns (st': Selection)
    requires audit.Valid() && QueuesKept(audit.ctx, audit.auditPool, audit.run, Used(audit.run), firstScore, st, lim)
    ensures QueuesKept(audit.ctx, audit.auditPool, audit.run, Used(audit.run), firstScore, st', lim)
    ensures st' == st.(mempoolArray := st'.mempoolArray) && |st'.mempoolArray| <= |st.mempoolArray|
    ensures QueuedIn(st) <= QueuedIn(st') + Used(audit.run)
    ensures st'.mempoolArray == [] ||
      (!audit.auditPool[st'.mempoolArray[0]].used && st'.mempoolArray[0] !in st'.isModified)
  {
    st' := st;
    while st'.mempoolArray != [] &&
          (audit.auditPool[st'.mempoolArray[0]].used || st'.mempoolArray[0] in st'.isModified)
      invariant st' == st.(mempoolArray := st'.mempoolArray) && |st'.mempoolArray| <= |st.mempoolArray|
      invariant QueuesKept(audit.ctx, audit.auditPool, audit.run, Used(audit.run), firstScore, st', lim)
      invariant QueuedIn(st) <= QueuedIn(st') + Used(audit.run)
      decreases |st'.mempoolArray|
    {
      assert st'.mempoolArray[0] in audit.ctx.txs;
      QueueWithoutHead(st');
      ArrayHeadLeaves(audit.ctx, audit.auditPool, audit.run, Used(audit.run), firstScore, st', lim);
      st' := st'.(mempoolArray := st'.mempoolArray[1..]);
    }
  }

  lemma ArrayHeadLeaves(
    ctx: Context, book: Book, run: seq<Package>, done: set<TxId>, firstScore: map<TxId, real>, st: Selection,
    lim: Limits)
    requires QueuesKept(ctx, book, run, done, firstScore, st, lim)
    requires st.mempoolArray != [] && st.mempoolArray[0] in done + st.isModified
    ensures QueuesKept(ctx, book, run, done, firstScore, st.(mempoolArray := st.mempoolArray[1..]), lim)
  {
    PoolHeadGoes(ctx, book, done, firstScore, st.mempoolArray, st.modified, st.isModified, Elements(st.overflow));
    ArrayHeadGoes(ctx, run, done, st, lim);
  }

  /** The head of the array is picked. */
  lemma ArrayHeadPicked(
    ctx: Context, book: Book, run: seq<Package>, firstScore: map<TxId, real>, st: Selection, lim: Limits)
    requires QueuesKept(ctx, book, run, Used(run), firstScore, st, lim)
    requires st.mempoolArray != [] && st.mempoolArray[0] !in st.isModified
    ensures var next, st' := st.mempoolArray[0], st.(mempoolArray := st.mempoolArray[1..]);
      QueuesKept(ctx, book, run, Used(run) + {next}, firstScore, st', lim) && next !in QueuedIn(st') &&
          QueuedIn(st) <= QueuedIn(st') + {next}
  {
    var next := st.mempoolArray[0];
    assert next in Elements(st.mempoolArray) && next in QueuedIn(st);
    MoreAside(ctx, book, Used(run), Used(run) + {next}, firstScore, st.mempoolArray, st.modified, st.isModified,
              Elements(st.overflow), Elements(st.overflow));
    OnePicked(ctx, run, st, lim, next);
    QueueWithoutHead(st);
    ArrayHeadLeaves(ctx, book, run, Used(run) + {next}, firstScore, st, lim);
  }

  lemma ModifiedHeadPicked(
    ctx: Context, book: Book, run: seq<Package>, firstScore: map<TxId, real>, st: Selection, lim: Limits)
    requires QueuesKept(ctx, book, run, Used(run), firstScore, st, lim) && st.modified != []
    ensures var next, st' := st.modified[0], st.(modified := st.modified[1..]);
      QueuesKept(ctx, book, run, Used(run) + {next}, firstScore, st', lim) && next !in QueuedIn(st') &&
          QueuedIn(st) <= QueuedIn(st') + {next}
  {
    var next := st.modified[0];
    assert next in Elements(st.modified) && next in QueuedIn(st);
    MoreAside(ctx, book, Used(run), Used(run) + {next}, firstScore, st.mempoolArray, st.modified, st.isModified,
              Elements(st.overflow), Elements(st.overflow));
    OnePicked(ctx, run, st, lim, next);
    ModifiedHeadGoes(ctx, book, Used(run) + {next}, firstScore, st.mempoolArray, st.modified, st.isModified,
                     Elements(st.overflow));
    ModifiedHeadGoesToo(ctx, run, Used(run) + {next}, st, lim);
  }

  lemma AsideIsPassedOver(ctx: Context, run: seq<Package>, st: Selection, lim: Limits)
    requires AsideKnown(ctx, run, Used(run), st, lim)
    ensures forall t :: t in AsideIn(run, st) ==> PassedOver(ctx, run, lim, t)
    ensures st.overflow == [] ==> AsideIn(run, st) == {}
  {
  }

  /** Takes the better of the two heads off its queue. */
  method PickNext(audit: AuditPool, st: Selection, ghost firstScore: map<TxId, real>, ghost lim: Limits)
    returns (next: Option<TxId>, st': Selection)
    requires audit.Valid() && QueuesKept(audit.ctx, audit.auditPool, audit.run, Used(audit.run), firstScore, st, lim)
    requires st.mempoolArray == [] || st.mempoolArray[0] !in st.isModified
    ensures st' == st.(mempoolArray := st'.mempoolArray, modified := st'.modified)
    ensures next.None? ==> st' == st && st.mempoolArray == [] && st.modified == []
    ensures next.Some? ==>
      && next.value in audit.ctx.txs && next.value !in QueuedIn(st') && QueuedIn(st) <= QueuedIn(st') + {next.value}
      && TopScore(audit.ctx, audit.auditPool, Used(audit.run), AsideIn(audit.run, st), next.value)
      && QueuesKept(audit.ctx, audit.auditPool, audit.run, Used(audit.run) + {next.value}, firstScore, st', lim)
      && |st'.mempoolArray| + |st'.modified| < |st.mempoolArray| + |st.modified|
  {
    ghost var ctx, book, run := audit.ctx, audit.auditPool, audit.run;
    next, st' := None, st;
    if st.mempoolArray != [] &&
       (st.modified == [] || audit.auditPool[st.mempoolArray[0]].score > audit.auditPool[st.modified[0]].score) {
      next := Some(st.mempoolArray[0]);
      TopOfPool(ctx, book, Used(run), firstScore, st.mempoolArray, st.modified, st.isModified, Elements(st.overflow));
      ArrayHeadPicked(ctx, book, run, firstScore, st, lim);
      st' := st.(mempoolArray := st.mempoolArray[1..]);
    } else if st.modified != [] {
      next := Some(st.modified[0]);
      TopOfModified(ctx, book, Used(run), firstScore, st.mempoolArray, st.modified, st.isModified,
          Elements(st.overflow));
      ModifiedHeadPicked(ctx, book, run, firstScore, st, lim);
      st' := st.(modified := st.modified[1..]);
    }
  }

  /** Adds the taken transactions to the running weight and sigops of the block. */
  method CountTaken(audit: AuditPool, taken: seq<TxId>, blockWeight: int, blockSigops: int)
    returns (weight: int, sigops: int)
    requires Distinct(taken) && Elements(taken) <= audit.ctx.txs.Keys
    ensures weight == blockWeight + WeightOf(audit.ctx.txs, Elements(taken))
    ensures sigops == blockSigops + TotalOf(audit.ctx.txs, Elements(taken)).sigops
  {
    ghost var txs := audit.ctx.txs;
    weight, sigops := blockWeight, blockSigops;
    assert Elements(taken[..0]) == {};
    for i := 0 to |taken|
      invariant Elements(taken[..i]) <= txs.Keys
      invariant weight == blockWeight + WeightOf(txs, Elements(taken[..i]))
      invariant sigops == blockSigops + TotalOf(txs, Elements(taken[..i])).sigops
    {
      assert taken[i] in Elements(taken);
      ghost var more := Elements(taken[..i+1]);
      assert more == Elements(taken[..i]) + {taken[i]};
      assert more - {taken[i]} == Elements(taken[..i]);
      WeightWithout(txs, more, taken[i]);
      TotalWithout(txs, more, taken[i]);
      weight := weight + audit.ctx.txs[taken[i]].weight;
      sigops := sigops + audit.ctx.txs[taken[i]].own.sigops;
    }
    assert taken[..|taken|] == taken;
  }

  /** Flags whoever was repaired and queues those that were not flagged before. */
  method FlagModified(touched: seq<TxId>, modified: seq<TxId>, isModified: set<TxId>)
    returns (modified': seq<TxId>, isModified': set<TxId>)
    requires Distinct(modified) && Elements(modified) <= isModified
    ensures isModified' == isModified + Elements(touched)
    ensures Elements(modified') == Elements(modified) + (Elements(touched) - isModified)
    ensures Distinct(modified')
  {
    modified', isModified' := modified, isModified;
    for i := 0 to |touched|
      invariant isModified' == isModified + Elements(touched[..i])
      invariant Elements(modified') == Elements(modified) + (Elements(touched[..i]) - isModified)
      invariant Distinct(modified')
    {
      assert Elements(touched[..i+1]) == Elements(touched[..i]) + {touched[i]};
      if touched[i] !in isModified' {
        DistinctConcat(modified', [touched[i]]);
        modified', isModified' := modified' + [touched[i]], isModified' + {touched[i]};
      }
    }
    assert touched[..|touched|] == touched;
  }

  /** Takes the package of `next` into the block and brings the queues up to date. */
  method TakePackage(audit: AuditPool, st: Selection, next: TxId, ghost firstScore: map<TxId, real>, ghost lim: Limits)
    returns (st': Selection, ghost p: Package)
    requires audit.Valid() && next in audit.ctx.txs && !audit.auditPool[next].used
    requires CountersAgree(audit.ctx, audit.run, st.transactions, st.blockWeight, st.blockSigops)
    requires QueuesKept(audit.ctx, audit.auditPool, audit.run, Used(audit.run) + {next}, firstScore, st, lim)
    requires forall t :: t in st.overflow ==> t in audit.ctx.txs
    modifies audit
    ensures audit.Valid()
    ensures audit.run == old(audit.run) + [p] && p.root == next
    ensures CountersAgree(audit.ctx, audit.run, st'.transactions, st'.blockWeight, st'.blockSigops)
    ensures QueuesKept(audit.ctx, audit.auditPool, audit.run, Used(audit.run), firstScore, st', lim)
    ensures st'.overflow == st.overflow && st'.failures == 0
    ensures AsideIn(audit.run, st') <= AsideIn(old(audit.run), st) - {next}
  {
    ghost var ctx, before, run := audit.ctx, audit.auditPool, audit.run;
    var touched;
    st', touched, p := CommitAndCount(audit, st, next);
    ghost var taken := Members(p);
    MoreAside(ctx, before, Used(run) + {next}, Used(run) + taken, firstScore,
              st.mempoolArray, st.modified, st.isModified, Elements(st.overflow), Elements(st.overflow));
    var modified, isModified := Requeue(audit, st, touched, firstScore, before, Used(run), taken);
    st' := st'.(modified := modified, isModified := isModified);
    AsideAfterCommit(ctx, run, p, st, st', lim);
    FewerAside(run, p, st, st', next);
  }

  lemma FewerAside(run: seq<Package>, p: Package, st: Selection, st': Selection, next: TxId)
    requires next in Members(p) && Used(run + [p]) == Used(run) + Members(p)
    requires st'.mempoolArray == st.mempoolArray && st'.overflow == st.overflow
    requires Elements(st.modified) <= Elements(st'.modified)
    requires st'.isModified <= st.isModified + Elements(st'.modified)
    ensures AsideIn(run + [p], st') <= AsideIn(run, st) - {next}
  {
  }

  method CommitAndCount(audit: AuditPool, st: Selection, next: TxId)
    returns (st': Selection, touched: seq<TxId>, ghost p: Package)
    requires audit.Valid() && next in audit.ctx.txs && !audit.auditPool[next].used
    requires CountersAgree(audit.ctx, audit.run, st.transactions, st.blockWeight, st.blockSigops)
    modifies audit
    ensures audit.Valid()
    ensures audit.run == old(audit.run) + [p] && p.root == next && next in Members(p)
    ensures Used(audit.run) == Used(old(audit.run)) + Members(p)
    ensures CountersAgree(audit.ctx, audit.run, st'.transactions, st'.blockWeight, st'.blockSigops)
    ensures st' == st.(transactions := st'.transactions, blockWeight := st'.blockWeight,
                       blockSigops := st'.blockSigops, failures := 0)
    ensures Elements(touched) == BelowAny(audit.ctx.txs, Members(p))
  {
    ghost var run := audit.run;
    var used;
    used, touched, p := audit.CommitPackage(next);
    st' := CountPackage(audit, st, used, run, p);
  }

  method CountPackage(audit: AuditPool, st: Selection, used: seq<TxId>, ghost run: seq<Package>, ghost p: Package)
    returns (st': Selection)
    requires WellFormed(audit.ctx) && Ranks(audit.ctx.txs, audit.rank) && IsRun(audit.ctx, run + [p])
    requires used == Reversed(p.cluster)
    requires CountersAgree(audit.ctx, run, st.transactions, st.blockWeight, st.blockSigops)
    ensures CountersAgree(audit.ctx, run + [p], st'.transactions, st'.blockWeight, st'.blockSigops)
    ensures st' == st.(transactions := st'.transactions, blockWeight := st'.blockWeight,
                       blockSigops := st'.blockSigops, failures := 0)
    ensures Used(run + [p]) == Used(run) + Members(p) && p.root in Members(p) && Elements(used) == Members(p)
  {
    LastFollows(audit.ctx, run, p);
    ReversedIsSame(p.cluster);
    TotalsGrow(audit.ctx, audit.rank, run, p);
    var weight, sigops := CountTaken(audit, used, st.blockWeight, st.blockSigops);
    st' := st.(transactions := st.transactions + used, blockWeight := weight, blockSigops := sigops, failures := 0);
  }

  /** Flags the repaired transactions and sorts the list of flagged ones again. */
  method Requeue(audit: AuditPool, st: Selection, touched: seq<TxId>, ghost firstScore: map<TxId, real>,
                 ghost before: Book, ghost used: set<TxId>, ghost taken: set<TxId>)
    returns (modified: seq<TxId>, isModified: set<TxId>)
    requires Waiting(audit.ctx, before, used + taken, firstScore,
                     st.mempoolArray, st.modified, st.isModified, Elements(st.overflow))
    requires Accounted(audit.ctx, before, used) && Accounted(audit.ctx, audit.auditPool, used + taken)
    requires Elements(touched) == BelowAny(audit.ctx.txs, taken)
    requires Distinct(st.modified) && Elements(st.modified) <= st.isModified
    ensures Waiting(audit.ctx, audit.auditPool, used + taken, firstScore,
                    st.mempoolArray, modified, isModified, Elements(st.overflow))
    ensures Distinct(modified) && isModified == st.isModified + BelowAny(audit.ctx.txs, taken)
    ensures Elements(modified) == Elements(st.modified) + (BelowAny(audit.ctx.txs, taken) - st.isModified)
  {
    var flagged;
    flagged, isModified := FlagModified(touched, st.modified, st.isModified);
    assert forall t :: t in Elements(st.modified) ==> t in st.modified;
    ElementsInPool(audit.ctx, audit.auditPool, flagged, Elements(st.modified) + BelowAny(audit.ctx.txs, taken));
    modified := SortByPriority(audit.ctx, audit.auditPool, flagged);
    SameMultisetSameElements(modified, flagged);
    SameMultisetDistinct(modified, flagged);
    CommitKeepsWaiting(audit.ctx, before, audit.auditPool, used, taken, firstScore,
                       st.mempoolArray, st.modified, st.isModified, Elements(st.overflow), modified, isModified);
  }

  lemma LastFollows(ctx: Context, run: seq<Package>, p: Package)
    requires WellFormed(ctx) && IsRun(ctx, run + [p])
    ensures IsRun(ctx, run) && Follows(ctx, run, p)
    ensures Distinct(p.cluster) && p.root in Members(p)
  {
    assert FollowsAt(ctx, run + [p], |run|);
    assert (run + [p])[..|run|] == run;
    RunPrefix(ctx, run + [p], |run|);
  }

  lemma ElementsInPool(ctx: Context, book: Book, s: seq<TxId>, all: set<TxId>)
    requires book.Keys == ctx.txs.Keys && Elements(s) <= all
    requires forall t :: t in all ==> t in ctx.txs
    ensures AllIn(ctx, book, s)
  {
  }

  lemma SameMultisetSameElements(s: seq<TxId>, t: seq<TxId>)
    requires multiset(s) == multiset(t)
    ensures Elements(s) == Elements(t)
  {
    forall x
      ensures x in s <==> x in t
    {
      assert x in s <==> x in multiset(s);
      assert x in t <==> x in multiset(t);
    }
  }

  lemma SameMultisetDistinct(s: seq<TxId>, t: seq<TxId>)
    requires multiset(s) == multiset(t) && Distinct(t)
    ensures Distinct(s)
  {
    DistinctCounts(t);
    CountsDistinct(s);
  }

  lemma {:induction false} DistinctCounts(s: seq<TxId>)
    requires Distinct(s)
    ensures forall x :: multiset(s)[x] <= 1
  {
    if s != [] {
      var init, last := s[..|s|-1], s[|s|-1];
      DistinctCounts(init);
      SplitLast(s);
      assert last !in init;
    }
  }

  lemma {:induction false} CountsDistinct(s: seq<TxId>)
    requires forall x :: multiset(s)[x] <= 1
    ensures Distinct(s)
  {
    if s != [] {
      var init, last := s[..|s|-1], s[|s|-1];
      SplitLast(s);
      assert forall x :: multiset(init)[x] <= multiset(s)[x];
      CountsDistinct(init);
      assert multiset(s)[last] == multiset(init)[last] + 1;
      assert last !in multiset(init) && last !in init;
    }
  }

  /** What every round of the loop keeps. */
  ghost predicate RoundInv(ctx: Context, book: Book, run: seq<Package>, st: Selection, lim: Limits,
                           firstScore: map<TxId, real>, passedOver: seq<set<TxId>>) {
    && CountersAgree(ctx, run, st.transactions, st.blockWeight, st.blockSigops)
    && LimitsKept(ctx, run, lim, st.overflow, st.failures) && Greedy(ctx, run, lim, passedOver)
    && QueuesKept(ctx, book, run, Used(run), firstScore, st, lim)
  }

  lemma LimitsKeptGrows(
    ctx: Context, rank: map<TxId, nat>, run: seq<Package>, p: Package, lim: Limits, overflow: seq<TxId>, failures: nat)
    requires WellFormed(ctx) && Ranks(ctx.txs, rank) && IsRun(ctx, run) && Follows(ctx, run, p)
    requires LimitsKept(ctx, run, lim, overflow, failures)
    requires lim.Enforced() ==> Fits(ctx, run, p.root, lim.weight, lim.sigops)
    ensures LimitsKept(ctx, run + [p], lim, overflow, 0)
  {
    forall t | t in overflow
      ensures t in ctx.txs && FailedToFit(ctx, run + [p], lim, t)
    {
      assert FailedToFit(ctx, run, lim, t);
      FailureIsRemembered(ctx, run, p, lim, t);
    }
    if lim.Enforced() {
      FittingStaysWithin(ctx, rank, run, p, lim.weight, lim.sigops);
    }
  }

  lemma SetAsideKept(ctx: Context, run: seq<Package>, lim: Limits, overflow: seq<TxId>, failures: nat, next: TxId)
    requires LimitsKept(ctx, run, lim, overflow, failures) && lim.Enforced() && next in ctx.txs
    requires !Fits(ctx, run, next, lim.weight, lim.sigops)
    ensures LimitsKept(ctx, run, lim, overflow + [next], failures + 1)
  {
    assert run[..|run|] == run;
    forall t | t in overflow + [next]
      ensures t in ctx.txs && FailedToFit(ctx, run, lim, t)
    {
      assert t != next ==> t in overflow && FailedToFit(ctx, run, lim, t);
    }
  }

  lemma OverflowInPool(ctx: Context, run: seq<Package>, lim: Limits, overflow: seq<TxId>, failures: nat)
    requires LimitsKept(ctx, run, lim, overflow, failures)
    ensures forall t :: t in overflow ==> t in ctx.txs
  {
    forall t | t in overflow ensures t in ctx.txs {
      assert FailedToFit(ctx, run, lim, t);
    }
  }

  /** Commits the best package and keeps account of why it was the best. */
  method CommitBest(audit: AuditPool, st: Selection, next: TxId, lim: Limits, ghost aside: set<TxId>,
                    ghost firstScore: map<TxId, real>, ghost passedOver: seq<set<TxId>>)
    returns (st': Selection, ghost passedOver': seq<set<TxId>>)
    requires audit.Valid() && next in audit.ctx.txs && !audit.auditPool[next].used
    requires CountersAgree(audit.ctx, audit.run, st.transactions, st.blockWeight, st.blockSigops)
    requires LimitsKept(audit.ctx, audit.run, lim, st.overflow, st.failures)
    requires Greedy(audit.ctx, audit.run, lim, passedOver)
    requires QueuesKept(audit.ctx, audit.auditPool, audit.run, Used(audit.run) + {next}, firstScore, st, lim)
    requires TopScore(audit.ctx, audit.auditPool, Used(audit.run), aside, next)
    requires forall t :: t in aside ==> PassedOver(audit.ctx, audit.run, lim, t)
    requires !lim.Enforced() ==> aside == {}
    requires lim.Enforced() ==> Fits(audit.ctx, audit.run, next, lim.weight, lim.sigops)
    modifies audit
    ensures audit.Valid() && RoundInv(audit.ctx, audit.auditPool, audit.run, st', lim, firstScore, passedOver')
    ensures Used(old(audit.run)) < Used(audit.run)
    ensures TakenOrAside(old(audit.run), st, next, aside, passedOver, audit.run, st', passedOver')
  {
    ghost var ctx, run := audit.ctx, audit.run;
    TopScoreIsBest(ctx, audit.auditPool, run, aside, next);
    OverflowInPool(ctx, run, lim, st.overflow, st.failures);
    ghost var p;
    st', p := TakePackage(audit, st, next, firstScore, lim);
    CommitKeeps(ctx, audit.rank, run, p, lim, st.overflow, st.failures, passedOver, aside);
    passedOver' := passedOver + [aside];
  }

  lemma CommitKeeps(
    ctx: Context, rank: map<TxId, nat>, run: seq<Package>, p: Package, lim: Limits,
    overflow: seq<TxId>, failures: nat, passedOver: seq<set<TxId>>, aside: set<TxId>)
    requires WellFormed(ctx) && Ranks(ctx.txs, rank) && IsRun(ctx, run + [p])
    requires LimitsKept(ctx, run, lim, overflow, failures) && Greedy(ctx, run, lim, passedOver)
    requires p.root in ctx.txs && Best(ctx, Used(run), aside, p.root)
    requires forall t :: t in aside ==> PassedOver(ctx, run, lim, t)
    requires !lim.Enforced() ==> aside == {}
    requires lim.Enforced() ==> Fits(ctx, run, p.root, lim.weight, lim.sigops)
    ensures LimitsKept(ctx, run + [p], lim, overflow, 0)
    ensures Greedy(ctx, run + [p], lim, passedOver + [aside])
    ensures Used(run) < Used(run + [p])
  {
    LastFollows(ctx, run, p);
    RunGrows(ctx, run, p);
    LimitsKeptGrows(ctx, rank, run, p, lim, overflow, failures);
    GreedyGrows(ctx, run, p, lim, passedOver, aside);
  }

  lemma SetAsideWaits(
    ctx: Context, book: Book, used: set<TxId>, firstScore: map<TxId, real>,
    mempoolArray: seq<TxId>, modified: seq<TxId>, isModified: set<TxId>, overflow: set<TxId>, x: TxId)
    requires Waiting(ctx, book, used + {x}, firstScore, mempoolArray, modified, isModified, overflow)
    ensures Waiting(ctx, book, used, firstScore, mempoolArray, modified, isModified, overflow + {x})
  {
  }

  /** Sets `next`, which does not fit, aside. */
  method SetAside(st: Selection, next: TxId, lim: Limits, ghost ctx: Context, ghost book: Book,
                  ghost run: seq<Package>, ghost firstScore: map<TxId, real>, ghost passedOver: seq<set<TxId>>)
    returns (st': Selection)
    requires CountersAgree(ctx, run, st.transactions, st.blockWeight, st.blockSigops)
    requires LimitsKept(ctx, run, lim, st.overflow, st.failures) && Greedy(ctx, run, lim, passedOver)
    requires QueuesKept(ctx, book, run, Used(run) + {next}, firstScore, st, lim) && next !in QueuedIn(st)
    requires lim.Enforced() && StillFails(ctx, run, lim, next)
    ensures RoundInv(ctx, book, run, st', lim, firstScore, passedOver)
    ensures st' == st.(overflow := st.overflow + [next], failures := st.failures + 1)
  {
    st' := st.(overflow := st.overflow + [next], failures := st.failures + 1);
    SetAsideLimits(ctx, run, lim, st, next);
    SetAsideQueues(ctx, book, run, firstScore, st, lim, next);
    AllKept(ctx, book, run, st', lim, firstScore, passedOver);
  }

  lemma SetAsideLimits(ctx: Context, run: seq<Package>, lim: Limits, st: Selection, next: TxId)
    requires LimitsKept(ctx, run, lim, st.overflow, st.failures)
    requires lim.Enforced() && StillFails(ctx, run, lim, next)
    ensures LimitsKept(ctx, run, lim, st.overflow + [next], st.failures + 1)
  {
    SetAsideKept(ctx, run, lim, st.overflow, st.failures, next);
  }

  lemma AllKept(ctx: Context, book: Book, run: seq<Package>, st: Selection, lim: Limits,
                firstScore: map<TxId, real>, passedOver: seq<set<TxId>>)
    requires CountersAgree(ctx, run, st.transactions, st.blockWeight, st.blockSigops)
    requires LimitsKept(ctx, run, lim, st.overflow, st.failures) && Greedy(ctx, run, lim, passedOver)
    requires QueuesKept(ctx, book, run, Used(run), firstScore, st, lim)
    ensures RoundInv(ctx, book, run, st, lim, firstScore, passedOver)
  {
  }

  lemma SetAsideQueues(
    ctx: Context, book: Book, run: seq<Package>, firstScore: map<TxId, real>, st: Selection, lim: Limits, next: TxId)
    requires QueuesKept(ctx, book, run, Used(run) + {next}, firstScore, st, lim) && next !in QueuedIn(st)
    requires StillFails(ctx, run, lim, next)
    ensures QueuesKept(ctx, book, run, Used(run), firstScore,
                       st.(overflow := st.overflow + [next], failures := st.failures + 1), lim)
  {
    assert Elements(st.overflow + [next]) == Elements(st.overflow) + {next};
    SetAsideWaits(ctx, book, Used(run), firstScore, st.mempoolArray, st.modified, st.isModified, Elements(st.overflow),
        next);
    OneSetAside(ctx, run, st, lim, next);
  }

  /** One round: picks the best package, takes it if it fits and sets it aside otherwise. */
  method SelectNext(audit: AuditPool, st: Selection, lim: Limits,
                    ghost firstScore: map<TxId, real>, ghost passedOver: seq<set<TxId>>)
    returns (st': Selection, ghost passedOver': seq<set<TxId>>)
    requires audit.Valid() && RoundInv(audit.ctx, audit.auditPool, audit.run, st, lim, firstScore, passedOver)
    requires Patient(audit.ctx, audit.run, st, lim, passedOver)
    requires AlmostFull(audit.ctx, audit.run, lim) ==> st.failures <= 1000
    modifies audit
    ensures audit.Valid() && RoundInv(audit.ctx, audit.auditPool, audit.run, st', lim, firstScore, passedOver')
    ensures Patient(audit.ctx, audit.run, st', lim, passedOver')
    ensures Used(old(audit.run)) <= Used(audit.run)
    ensures Used(old(audit.run)) == Used(audit.run) ==>
      || |st'.mempoolArray| + |st'.modified| < |st.mempoolArray| + |st.modified|
      || (st'.mempoolArray == [] && st'.modified == [])
  {
    var ready := SkipInvalid(audit, st, firstScore, lim);
    ghost var aside := AsideIn(audit.run, ready);
    AsideIsPassedOver(audit.ctx, audit.run, ready, lim);
    var next, picked;
    next, picked := PickNext(audit, ready, firstScore, lim);
    st', passedOver' := picked, passedOver;
    ghost var run := audit.run;
    AsideAsPicked(run, st, ready, picked, next);
    if next.Some? && !audit.auditPool[next.value].used {
      st', passedOver' := TakeOrSetAside(audit, picked, next.value, lim, aside, firstScore, passedOver);
      PatienceKept(audit.ctx, lim, run, st, picked, next.value, aside, passedOver, audit.run, st', passedOver');
    } else {
      if next.Some? {
        UsedOnePicked(audit.ctx, audit.auditPool, run, firstScore, picked, lim, next.value);
      }
      PatienceSpared(audit.ctx, lim, run, st, picked, passedOver);
    }
  }

  /** Skipping and picking put nobody aside but who was picked. */
  lemma AsideAsPicked(run: seq<Package>, st: Selection, ready: Selection, picked: Selection, next: Option<TxId>)
    requires ready == st.(mempoolArray := ready.mempoolArray) && QueuedIn(st) <= QueuedIn(ready) + Used(run)
    requires picked == ready.(mempoolArray := picked.mempoolArray, modified := picked.modified)
    requires if next.Some? then QueuedIn(ready) <= QueuedIn(picked) + {next.value} else picked == ready
    ensures AsideIn(run, ready) <= AsideIn(run, st)
    ensures AsideIn(run, picked) <= AsideIn(run, ready) + (if next.Some? then {next.value} else {})
    ensures next.None? || next.value in Used(run) ==> AsideIn(run, picked) <= AsideIn(run, st)
  {
  }

  lemma UsedOnePicked(
    ctx: Context, book: Book, run: seq<Package>, firstScore: map<TxId, real>, st: Selection, lim: Limits, next: TxId)
    requires QueuesKept(ctx, book, run, Used(run) + {next}, firstScore, st, lim) && next in Used(run)
    ensures QueuesKept(ctx, book, run, Used(run), firstScore, st, lim)
  {
    assert Used(run) + {next} == Used(run);
  }

  method PackageFits(audit: AuditPool, st: Selection, next: TxId, lim: Limits) returns (fits: bool)
    requires audit.Valid() && next in audit.ctx.txs && !audit.auditPool[next].used
    requires CountersAgree(audit.ctx, audit.run, st.transactions, st.blockWeight, st.blockSigops)
    ensures fits <==> Fits(audit.ctx, audit.run, next, lim.weight, lim.sigops)
    ensures next !in Used(audit.run)
  {
    var totals := audit.auditPool[next].totals;
    assert AccountedAt(audit.ctx, audit.auditPool[next], Used(audit.run), next);
    fits := lim.weight.Above(st.blockWeight + 4 * totals.size) && lim.sigops.Allows(st.blockSigops + totals.sigops);
  }

  /** The second half of a round. */
  method TakeOrSetAside(audit: AuditPool, st: Selection, next: TxId, lim: Limits, ghost aside: set<TxId>,
                        ghost firstScore: map<TxId, real>, ghost passedOver: seq<set<TxId>>)
    returns (st': Selection, ghost passedOver': seq<set<TxId>>)
    requires audit.Valid() && next in audit.ctx.txs && !audit.auditPool[next].used && next !in QueuedIn(st)
    requires CountersAgree(audit.ctx, audit.run, st.transactions, st.blockWeight, st.blockSigops)
    requires LimitsKept(audit.ctx, audit.run, lim, st.overflow, st.failures)
    requires Greedy(audit.ctx, audit.run, lim, passedOver)
    requires QueuesKept(audit.ctx, audit.auditPool, audit.run, Used(audit.run) + {next}, firstScore, st, lim)
    requires TopScore(audit.ctx, audit.auditPool, Used(audit.run), aside, next)
    requires forall t :: t in aside ==> PassedOver(audit.ctx, audit.run, lim, t)
    requires !lim.Enforced() ==> aside == {}
    modifies audit
    ensures audit.Valid() && RoundInv(audit.ctx, audit.auditPool, audit.run, st', lim, firstScore, passedOver')
    ensures Used(old(audit.run)) <= Used(audit.run)
    ensures Used(old(audit.run)) == Used(audit.run) ==>
      st'.mempoolArray == st.mempoolArray && st'.modified == st.modified
    ensures TakenOrAside(old(audit.run), st, next, aside, passedOver, audit.run, st', passedOver')
  {
    var fits := PackageFits(audit, st, next, lim);
    if 0 >= lim.maxBlocks - 1 || fits {
      st', passedOver' := CommitBest(audit, st, next, lim, aside, firstScore, passedOver);
    } else {
      st' := SetAside(st, next, lim, audit.ctx, audit.auditPool, audit.run, firstScore, passedOver);
      passedOver' := passedOver;
    }
  }

  // --------------------------------------------------------------- the result

  ghost predicate RanksCandidates(candidates: seq<Candidate>, rank: map<TxId, nat>) {
    && rank.Keys == Elements(Txids(candidates))
    && forall c, p {:trigger p in c.inputs, c in candidates} ::
         c in candidates && p in c.inputs && p in rank ==> c.txid in rank && rank[p] < rank[c.txid]
  }

  /** No candidate depends on itself. */
  ghost predicate Acyclic(candidates: seq<Candidate>) {
    exists rank :: RanksCandidates(candidates, rank)
  }

  lemma RanksCarryOver(ctx: Context, candidates: seq<Candidate>, accelerations: seq<Acceleration>, rank: map<TxId, nat>)
    requires Describes(ctx, candidates, accelerations) && RanksCandidates(candidates, rank)
    ensures Ranks(ctx.txs, rank)
  {
  }

  /** The template entry of every member of a package names that package. */
  ghost predicate Reports(run: seq<Package>, template: seq<TemplateTx>) {
    && |template| == |Taken(run)|
    && forall i, k {:trigger template[i], run[k]} ::
         0 <= i < |template| && 0 <= k < |run| && Taken(run)[i] in run[k].cluster ==>
         template[i] == TemplateTx(Taken(run)[i], run[k].cluster, run[k].rate, [])
  }

  /** Enough weight is used that a long row of failures may end the search. */
  predicate NearlyFull(lim: Limits, blockWeight: int) {
    lim.weight.AtMost? && blockWeight > lim.weight.n - 4000
  }

  method ReadOff(audit: AuditPool, taken: seq<TxId>) returns (template: seq<TemplateTx>)
    requires audit.Valid() && taken == Taken(audit.run) && Elements(taken) <= audit.ctx.txs.Keys
    ensures Reports(audit.run, template)
  {
    template := [];
    for i := 0 to |taken|
      invariant |template| == i
      invariant forall j :: 0 <= j < i ==>
        && taken[j] in audit.auditPool
        && template[j] == TemplateTx(
             taken[j], audit.auditPool[taken[j]].cluster, audit.auditPool[taken[j]].effectiveRate, [])
    {
      assert taken[i] in Elements(taken);
      var entry := audit.auditPool[taken[i]];
      template := template + [TemplateTx(taken[i], entry.cluster, entry.effectiveRate, [])];
    }
  }

  lemma {:induction false} TakenIsUsed(ctx: Context, run: seq<Package>)
    requires WellFormed(ctx) && IsRun(ctx, run)
    ensures Elements(Taken(run)) == Used(run) && Distinct(Taken(run))
  {
    if run != [] {
      var before, last := run[..|run|-1], run[|run|-1];
      assert run == before + [last];
      LastFollows(ctx, before, last);
      RunGrows(ctx, before, last);
      TakenIsUsed(ctx, before);
      ReversedIsSame(last.cluster);
      DistinctConcat(Taken(before), Reversed(last.cluster));
    }
  }

  ghost function ScoresOf(book: Book): map<TxId, real> {
    map t | t in book :: book[t].score
  }

  lemma RoundsBegin(ctx: Context, book: Book, order: seq<TxId>, lim: Limits)
    requires WellFormed(ctx) && book.Keys == ctx.txs.Keys && Elements(order) == ctx.txs.Keys
    requires AllIn(ctx, book, order) && PrioritySorted(ctx, book, order) && Distinct(order)
    ensures RoundInv(ctx, book, [], Selection(order, [], {}, [], [], 0, 0, 0), lim, ScoresOf(book), [])
  {
    assert Used([]) == {};
    AsideBegins(ctx, order, lim);
  }

  /** When both queues are empty, whoever is left did not fit. */
  lemma NobodyForgotten(ctx: Context, book: Book, run: seq<Package>, st: Selection, lim: Limits,
                        firstScore: map<TxId, real>, passedOver: seq<set<TxId>>)
    requires RoundInv(ctx, book, run, st, lim, firstScore, passedOver)
    requires st.mempoolArray == [] && st.modified == []
    ensures EveryoneFailed(ctx, run, lim) && ctx.txs.Keys - Used(run) <= AsideIn(run, st)
    ensures !lim.Enforced() ==> Used(run) == ctx.txs.Keys
  {
    forall t | t in ctx.txs && t !in Used(run)
      ensures lim.Enforced() && FailedToFit(ctx, run, lim, t)
    {
      var flagged := t in st.isModified;
      assert t in Elements(st.overflow);
      assert t in st.overflow;
    }
  }

  /** Either nobody is left waiting, or the search was given up on a nearly full block. */
  ghost predicate Ended(st: Selection, lim: Limits) {
    (st.mempoolArray == [] && st.modified == []) || (st.failures > 1000 && NearlyFull(lim, st.blockWeight))
  }

  /** The search ends with nobody left who had not failed, or with more than a thousand failures
      in a row beside a nearly full block. */
  lemma SearchEnded(ctx: Context, book: Book, run: seq<Package>, st: Selection, lim: Limits,
                    firstScore: map<TxId, real>, passedOver: seq<set<TxId>>)
    requires RoundInv(ctx, book, run, st, lim, firstScore, passedOver) && Ended(st, lim)
    requires Patient(ctx, run, st, lim, passedOver)
    ensures !lim.Enforced() ==> Used(run) == ctx.txs.Keys
    ensures RightlyEnded(ctx, run, lim, passedOver)
  {
    AlmostFullByWeight(ctx, run, st, lim);
    if st.failures > 1000 && NearlyFull(lim, st.blockWeight) {
      FailuresAreMany(ctx, run, st, lim, 1000);
    } else {
      NobodyForgotten(ctx, book, run, st, lim, firstScore, passedOver);
      FewLeftBehind(ctx, run, st, lim, passedOver, ctx.txs.Keys - Used(run));
    }
  }

  /** The search was given up beside a nearly full block with more than a thousand that do not
      fit beside it, or ran out of transactions before that. */
  ghost predicate RightlyEnded(ctx: Context, run: seq<Package>, lim: Limits, passedOver: seq<set<TxId>>) {
    || (AlmostFull(ctx, run, lim) && ManyFail(ctx, run, lim, 1000))
    || (EveryoneFailed(ctx, run, lim) &&
        (AlmostFull(ctx, run, lim) ==> |ctx.txs.Keys - Used(run) - LastOver(passedOver)| <= 1000))
  }

  ghost predicate EveryoneFailed(ctx: Context, run: seq<Package>, lim: Limits) {
    forall t {:trigger FailedToFit(ctx, run, lim, t)} :: t in ctx.txs && t !in Used(run) ==>
      FailedToFit(ctx, run, lim, t)
  }

  /** Sets up the pool, finds everybody's relatives and sorts by score. */
  method Prepare(candidates: seq<Candidate>, accelerations: seq<Acceleration>)
    returns (audit: AuditPool, mempoolArray: seq<TxId>)
    requires Plausible(candidates) && Acyclic(candidates)
    ensures fresh(audit) && audit.Valid() && audit.run == [] && Describes(audit.ctx, candidates, accelerations)
    ensures Elements(mempoolArray) == audit.ctx.txs.Keys && AllIn(audit.ctx, audit.auditPool, mempoolArray)
    ensures PrioritySorted(audit.ctx, audit.auditPool, mempoolArray) && Distinct(mempoolArray)
  {
    audit, mempoolArray := LoadPool(candidates, accelerations);
    audit.SetAllRelatives(mempoolArray);
    SameAsKeys(audit.ctx, audit.auditPool, mempoolArray);
    mempoolArray := SortForSelection(audit, mempoolArray);
  }

  method LoadPool(candidates: seq<Candidate>, accelerations: seq<Acceleration>)
    returns (audit: AuditPool, mempoolArray: seq<TxId>)
    requires Plausible(candidates) && Acyclic(candidates)
    ensures fresh(audit) && Describes(audit.ctx, candidates, accelerations) && audit.run == []
    ensures Elements(mempoolArray) == audit.ctx.txs.Keys && Distinct(mempoolArray)
    ensures WellFormed(audit.ctx) && Ranks(audit.ctx.txs, audit.rank) && Building(audit.ctx, audit.auditPool, {})
    ensures audit.auditPool == map t | t in audit.ctx.txs ::
      AuditTx(false, {}, {}, NOTHING, 0.0, audit.ctx.firstRate[t], audit.ctx.firstRate[t], [], false)
  {
    var ctx;
    ctx, mempoolArray := LoadCandidates(candidates, accelerations);
    DescribedIsWellFormed(ctx, candidates, accelerations);
    ghost var rank :| RanksCandidates(candidates, rank);
    RanksCarryOver(ctx, candidates, accelerations, rank);
    audit := new AuditPool(ctx, rank);
  }

  lemma SameAsKeys(ctx: Context, book: Book, order: seq<TxId>)
    requires book.Keys == ctx.txs.Keys == Elements(order)
    ensures AllIn(ctx, book, order)
  {
  }

  method SortForSelection(audit: AuditPool, order: seq<TxId>) returns (sorted: seq<TxId>)
    requires AllIn(audit.ctx, audit.auditPool, order)
    ensures multiset(sorted) == multiset(order) && Elements(sorted) == Elements(order)
    ensures AllIn(audit.ctx, audit.auditPool, sorted)
    ensures PrioritySorted(audit.ctx, audit.auditPool, sorted)
    ensures Distinct(order) ==> Distinct(sorted)
  {
    sorted := SortByPriority(audit.ctx, audit.auditPool, order);
    SameMultisetSameElements(sorted, order);
    if Distinct(order) {
      SameMultisetDistinct(sorted, order);
    }
  }

  ghost predicate Selecting(
    audit: AuditPool, st: Selection, lim: Limits, firstScore: map<TxId, real>, passedOver: seq<set<TxId>>)
    reads audit
  {
    && audit.Valid() && RoundInv(audit.ctx, audit.auditPool, audit.run, st, lim, firstScore, passedOver)
    && Patient(audit.ctx, audit.run, st, lim, passedOver)
  }

  /** Selects from the sorted array. */
  method SelectAll(audit: AuditPool, mempoolArray: seq<TxId>, lim: Limits)
    returns (st: Selection, ghost firstScore: map<TxId, real>, ghost passedOver: seq<set<TxId>>)
    requires audit.Valid() && audit.run == []
    requires Elements(mempoolArray) == audit.ctx.txs.Keys && AllIn(audit.ctx, audit.auditPool, mempoolArray)
    requires PrioritySorted(audit.ctx, audit.auditPool, mempoolArray) && Distinct(mempoolArray)
    modifies audit
    ensures Selecting(audit, st, lim, firstScore, passedOver) && Ended(st, lim)
  {
    RoundsBegin(audit.ctx, audit.auditPool, mempoolArray, lim);
    PatientAtFirst(audit.ctx, mempoolArray, lim);
    firstScore := ScoresOf(audit.auditPool);
    st, passedOver := SelectOn(audit, Selection(mempoolArray, [], {}, [], [], 0, 0, 0), lim, firstScore);
  }

  /** The selection loop. */
  method SelectOn(audit: AuditPool, start: Selection, lim: Limits, ghost firstScore: map<TxId, real>)
    returns (st: Selection, ghost passedOver: seq<set<TxId>>)
    requires Selecting(audit, start, lim, firstScore, []) && start.failures == 0
    modifies audit
    ensures Selecting(audit, st, lim, firstScore, passedOver) && Ended(st, lim)
  {
    st, passedOver := start, [];
    while st.mempoolArray != [] || st.modified != []
      invariant Selecting(audit, st, lim, firstScore, passedOver)
      invariant AlmostFull(audit.ctx, audit.run, lim) ==> st.failures <= 1000
      decreases |audit.ctx.txs.Keys - Used(audit.run)|, |st.mempoolArray| + |st.modified|
    {
      var stopped;
      st, stopped, passedOver := SelectRound(audit, st, lim, firstScore, passedOver);
      if stopped {
        break;
      }
    }
  }

  /** One round, and whether it ends the search. */
  method SelectRound(audit: AuditPool, st: Selection, lim: Limits,
                     ghost firstScore: map<TxId, real>, ghost passedOver: seq<set<TxId>>)
    returns (st': Selection, stopped: bool, ghost passedOver': seq<set<TxId>>)
    requires Selecting(audit, st, lim, firstScore, passedOver)
    requires AlmostFull(audit.ctx, audit.run, lim) ==> st.failures <= 1000
    modifies audit
    ensures Selecting(audit, st', lim, firstScore, passedOver') && (stopped <==> Ended(st', lim))
    ensures !stopped && AlmostFull(audit.ctx, audit.run, lim) ==> st'.failures <= 1000
    ensures !stopped ==>
      |audit.ctx.txs.Keys - Used(audit.run)| < |audit.ctx.txs.Keys - Used(old(audit.run))| ||
      (Used(audit.run) == Used(old(audit.run)) &&
       |st'.mempoolArray| + |st'.modified| < |st.mempoolArray| + |st.modified|)
  {
    ghost var usedBefore := Used(audit.run);
    st', passedOver' := SelectNext(audit, st, lim, firstScore, passedOver);
    FewerLeft(audit.ctx, usedBefore, audit.run);
    AlmostFullByWeight(audit.ctx, audit.run, st', lim);
    var exceededPackageTries := st'.failures > 1000 && NearlyFull(lim, st'.blockWeight);
    var queueEmpty := st'.mempoolArray == [] && st'.modified == [];
    stopped := exceededPackageTries || queueEmpty;
  }

  lemma AlmostFullByWeight(ctx: Context, run: seq<Package>, st: Selection, lim: Limits)
    requires CountersAgree(ctx, run, st.transactions, st.blockWeight, st.blockSigops)
    ensures AlmostFull(ctx, run, lim) <==> lim.weight.AtMost? && st.blockWeight > lim.weight.n - 4000
  {
    assert Used(run) * ctx.txs.Keys == Used(run);
  }

  lemma FewerLeft(ctx: Context, before: set<TxId>, run: seq<Package>)
    requires WellFormed(ctx) && IsRun(ctx, run) && before <= Used(run)
    ensures before == Used(run) || |ctx.txs.Keys - Used(run)| < |ctx.txs.Keys - before|
  {
    if before != Used(run) {
      UsedInPool(ctx, run);
      ProperSubsetIsSmaller(ctx.txs.Keys - Used(run), ctx.txs.Keys - before);
    }
  }

  /** `template` reports a run of the plain greedy rule: each round takes a transaction that
      scores best among all that are left, scores being computed from scratch, with
      everything above it. Without limits everyone is placed; with limits they are kept, and
      whoever was passed over had not fitted. If someone is left out without having failed,
      the template is nearly full and more than a thousand do not fit beside it. Unless fees
      are negative, nobody gets a higher rate than an ancestor; with limits only if those
      that pay nothing keep to themselves. */
  ghost predicate Explains(
    candidates: seq<Candidate>, accelerations: seq<Acceleration>, lim: Limits, template: seq<TemplateTx>,
    ctx: Context, run: seq<Package>, passedOver: seq<set<TxId>>)
  {
    && Describes(ctx, candidates, accelerations) && WellFormed(ctx)
    && IsRun(ctx, run) && Greedy(ctx, run, lim, passedOver) && Reports(run, template)
    && Used(run) <= ctx.txs.Keys
    && (!lim.Enforced() ==> Used(run) == ctx.txs.Keys)
    && (lim.Enforced() && run != [] ==> WithinLimits(ctx, run, lim.weight, lim.sigops))
    && (FeesNotNegative(candidates, accelerations) && (!lim.Enforced() || FreeAlike(ctx)) ==>
        TemplateRatesFollow(ctx, template))
    && GivenUpInTime(ctx, run, lim, passedOver) && RightlyEnded(ctx, run, lim, passedOver)
  }

  /** No modified fee is negative. */
  ghost predicate FeesNotNegative(candidates: seq<Candidate>, accelerations: seq<Acceleration>) {
    forall c :: c in candidates ==> ModifiedFee(c, accelerations) >= 0
  }

  /** No entry gets a higher rate than an entry it depends on. */
  ghost predicate TemplateRatesFollow(ctx: Context, template: seq<TemplateTx>) {
    forall i, j {:trigger template[i], template[j]} ::
      0 <= i < |template| && 0 <= j < |template| && template[i].txid in Ancestors(ctx.txs, template[j].txid) ==>
        template[j].effectiveFeePerVsize <= template[i].effectiveFeePerVsize
  }

  lemma ReportedBy(
    ctx: Context, run: seq<Package>, template: seq<TemplateTx>, i: nat) returns (k: nat)
    requires WellFormed(ctx) && IsRun(ctx, run) && Reports(run, template) && i < |template|
    ensures k < |run| && template[i].txid in run[k].cluster && template[i].effectiveFeePerVsize == run[k].rate
  {
    TakenIsUsed(ctx, run);
    assert Taken(run)[i] in Elements(Taken(run));
    k :| 0 <= k < |run| && Taken(run)[i] in run[k].cluster;
    assert template[i] == TemplateTx(Taken(run)[i], run[k].cluster, run[k].rate, []);
  }

  lemma ReportedRatesFollow(ctx: Context, run: seq<Package>, template: seq<TemplateTx>)
    requires WellFormed(ctx) && IsRun(ctx, run) && Reports(run, template) && RatesFollow(ctx, run)
    ensures TemplateRatesFollow(ctx, template)
  {
    forall i, j | 0 <= i < |template| && 0 <= j < |template| && template[i].txid in Ancestors(ctx.txs, template[j].txid)
      ensures template[j].effectiveFeePerVsize <= template[i].effectiveFeePerVsize
    {
      var k := ReportedBy(ctx, run, template, i);
      var n := ReportedBy(ctx, run, template, j);
    }
  }

  lemma GreedyIsAlwaysBest(ctx: Context, run: seq<Package>, lim: Limits, passedOver: seq<set<TxId>>)
    requires WellFormed(ctx) && Greedy(ctx, run, lim, passedOver) && !lim.Enforced()
    ensures AlwaysBest(ctx, run)
  {
    forall k | 0 <= k < |run| ensures run[k].root in ctx.txs && Best(ctx, Used(run[..k]), {}, run[k].root) {
      assert BestAt(ctx, run, passedOver, k) && passedOver[k] == {};
    }
  }

  /** The rates reported follow the order of spending. */
  lemma TemplateIsOrdered(
    candidates: seq<Candidate>, accelerations: seq<Acceleration>, lim: Limits, template: seq<TemplateTx>,
    ctx: Context, run: seq<Package>, passedOver: seq<set<TxId>>)
    requires Plausible(candidates) && Describes(ctx, candidates, accelerations) && WellFormed(ctx)
    requires IsRun(ctx, run) && Greedy(ctx, run, lim, passedOver) && Reports(run, template)
    requires FeesNotNegative(candidates, accelerations) && (!lim.Enforced() || FreeAlike(ctx))
    ensures TemplateRatesFollow(ctx, template)
  {
    DescribedFees(ctx, candidates, accelerations);
    if !lim.Enforced() {
      GreedyIsAlwaysBest(ctx, run, lim, passedOver);
      GreedyRatesFollow(ctx, run);
    } else {
      FreeAlikeFollows(ctx, run);
    }
    ReportedRatesFollow(ctx, run, template);
  }

  ghost predicate IsTemplate(
    candidates: seq<Candidate>, accelerations: seq<Acceleration>, lim: Limits, template: seq<TemplateTx>) {
    exists ctx, run, passedOver :: Explains(candidates, accelerations, lim, template, ctx, run, passedOver)
  }

  lemma ExplainedIsTemplate(
    candidates: seq<Candidate>, accelerations: seq<Acceleration>, lim: Limits, template: seq<TemplateTx>,
    ctx: Context, run: seq<Package>, passedOver: seq<set<TxId>>)
    requires Explains(candidates, accelerations, lim, template, ctx, run, passedOver)
    ensures IsTemplate(candidates, accelerations, lim, template)
  {
  }

  function TemplateIds(template: seq<TemplateTx>): seq<TxId> {
    seq(|template|, i requires 0 <= i < |template| => template[i].txid)
  }

  lemma ReportedIds(ctx: Context, run: seq<Package>, template: seq<TemplateTx>)
    requires WellFormed(ctx) && IsRun(ctx, run) && Reports(run, template)
    ensures TemplateIds(template) == Taken(run) && Distinct(Taken(run)) && Elements(Taken(run)) == Used(run)
  {
    TakenIsUsed(ctx, run);
    forall i | 0 <= i < |template| ensures template[i].txid == Taken(run)[i] {
      assert Taken(run)[i] in Elements(Taken(run));
      var k :| 0 <= k < |run| && Taken(run)[i] in run[k].cluster;
      assert template[i] == TemplateTx(Taken(run)[i], run[k].cluster, run[k].rate, []);
    }
  }

  // -------------------------------------------- what that is for the candidates

  /** `p` is an earlier entry than entry `i`, or stands before it in the cluster of both. */
  ghost predicate InputStands(template: seq<TemplateTx>, i: nat, p: TxId)
    requires i < |template|
  {
    exists j {:trigger template[j]} ::
      && 0 <= j < |template| && template[j].txid == p
      && (j < i ||
          (template[j].cluster == template[i].cluster && Before(template[i].cluster, p, template[i].txid)))
  }

  ghost predicate InputsStand(candidates: seq<Candidate>, template: seq<TemplateTx>) {
    forall c, i, p {:trigger InputStands(template, i, p), c in candidates} ::
      (&& c in candidates && 0 <= i < |template| && template[i].txid == c.txid
       && p in c.inputs && p in Elements(Txids(candidates))) ==> InputStands(template, i, p)
  }

  /** No entry has a higher rate than its cluster pays for its size. */
  ghost predicate EntriesPay(ctx: Context, template: seq<TemplateTx>) {
    forall i {:trigger template[i]} :: 0 <= i < |template| ==>
      Pays(ctx, template[i].cluster, template[i].effectiveFeePerVsize)
  }

  ghost predicate Pays(ctx: Context, cluster: seq<TxId>, rate: real) {
    rate * Sum(cluster, SizeIn(ctx.txs)) as real <= Sum(cluster, FeeIn(ctx.txs)) as real
  }

  /** With more than one block to come the entries keep the limits. */
  ghost predicate EntriesFit(ctx: Context, lim: Limits, template: seq<TemplateTx>) {
    lim.maxBlocks > 1 && template != [] ==>
      && (lim.weight.AtMost? ==> Sum(TemplateIds(template), WeightIn(ctx.txs)) < lim.weight.n)
      && (lim.sigops.AtMost? ==> Sum(TemplateIds(template), SigopsIn(ctx.txs)) <= lim.sigops.n)
  }

  ghost predicate Stands(
    candidates: seq<Candidate>, accelerations: seq<Acceleration>, lim: Limits, template: seq<TemplateTx>, ctx: Context)
  {
    && Shows(ctx, candidates, accelerations) && InputsStand(candidates, template)
    && EntriesPay(ctx, template) && EntriesFit(ctx, lim, template)
  }

  lemma TemplateStands(
    candidates: seq<Candidate>, accelerations: seq<Acceleration>, lim: Limits, template: seq<TemplateTx>, ctx: Context,
    rank: map<TxId, nat>, run: seq<Package>)
    requires Plausible(candidates) && Describes(ctx, candidates, accelerations) && WellFormed(ctx)
    requires Ranks(ctx.txs, rank) && IsRun(ctx, run) && Reports(run, template)
    requires lim.Enforced() && run != [] ==> WithinLimits(ctx, run, lim.weight, lim.sigops)
    ensures Stands(candidates, accelerations, lim, template, ctx) && AllFair(ctx, run)
  {
    DescribedShows(ctx, candidates, accelerations);
    RunIsFair(ctx, rank, run);
    EntriesDoPay(ctx, rank, run, template, candidates, accelerations);
    EntriesDoFit(ctx, run, template, lim);
    forall c, i, p |
      && c in candidates && 0 <= i < |template| && template[i].txid == c.txid
      && p in c.inputs && p in Elements(Txids(candidates))
      ensures InputStands(template, i, p)
    {
      assert ShowsOne(ctx, c, accelerations);
      ParentIsAncestor(ctx.txs, p, c.txid);
      AncestorStandsThere(ctx, rank, run, template, i, p);
    }
  }

  lemma AncestorStandsThere(
    ctx: Context, rank: map<TxId, nat>, run: seq<Package>, template: seq<TemplateTx>, i: nat, a: TxId)
    requires WellFormed(ctx) && Ranks(ctx.txs, rank) && IsRun(ctx, run) && Reports(run, template)
    requires i < |template| && a in Ancestors(ctx.txs, template[i].txid)
    ensures InputStands(template, i, a)
  {
    var t := template[i].txid;
    ReportedIds(ctx, run, template);
    var k := ReportedBy(ctx, run, template, i);
    var n := AncestorStands(ctx, rank, run, k, t, a);
    if n < k {
      TakenInOrder(run, n, k, a, t);
      var x, y :| 0 <= x < y < |Taken(run)| && Taken(run)[x] == a && Taken(run)[y] == t;
      assert Taken(run)[i] == t && y == i && template[x].txid == TemplateIds(template)[x];
    } else {
      TakenHas(run, k, a);
      var j :| 0 <= j < |Taken(run)| && Taken(run)[j] == a;
      assert template[j] == TemplateTx(a, run[k].cluster, run[k].rate, []);
      assert Taken(run)[i] in run[k].cluster;
      assert template[i].cluster == run[k].cluster;
    }
  }

  lemma EntriesDoPay(
    ctx: Context, rank: map<TxId, nat>, run: seq<Package>, template: seq<TemplateTx>, candidates: seq<Candidate>,
    accelerations: seq<Acceleration>)
    requires WellFormed(ctx) && Ranks(ctx.txs, rank) && IsRun(ctx, run) && Reports(run, template)
    requires Shows(ctx, candidates, accelerations) && AllFair(ctx, run)
    ensures EntriesPay(ctx, template)
  {
    ReportedIds(ctx, run, template);
    forall i | 0 <= i < |template|
      ensures Pays(ctx, template[i].cluster, template[i].effectiveFeePerVsize)
    {
      var k := ReportedBy(ctx, run, template, i);
      assert TemplateIds(template)[i] == Taken(run)[i];
      assert template[i] == TemplateTx(Taken(run)[i], run[k].cluster, run[k].rate, []);
      OnePays(ctx, rank, run, k, candidates, accelerations);
    }
  }

  lemma OnePays(
    ctx: Context, rank: map<TxId, nat>, run: seq<Package>, k: nat, candidates: seq<Candidate>,
    accelerations: seq<Acceleration>)
    requires WellFormed(ctx) && Ranks(ctx.txs, rank) && IsRun(ctx, run) && AllFair(ctx, run) && k < |run|
    requires Shows(ctx, candidates, accelerations)
    ensures Pays(ctx, run[k].cluster, run[k].rate)
  {
    PackagePays(ctx, rank, run, k, 1.0);
  }

  lemma EntriesDoFit(ctx: Context, run: seq<Package>, template: seq<TemplateTx>, lim: Limits)
    requires WellFormed(ctx) && IsRun(ctx, run) && Reports(run, template)
    requires lim.Enforced() && run != [] ==> WithinLimits(ctx, run, lim.weight, lim.sigops)
    ensures EntriesFit(ctx, lim, template)
  {
    ReportedIds(ctx, run, template);
    UsedInPool(ctx, run);
    MembersSum(ctx.txs, TemplateIds(template));
    if run == [] {
      assert template == [];
    }
  }

  /** Builds a template from the candidates. */
  method MakeBlockTemplate(candidates: seq<Candidate>, accelerations: seq<Acceleration>, lim: Limits)
    returns (template: seq<TemplateTx>, ghost ctx: Context, ghost run: seq<Package>, ghost passedOver: seq<set<TxId>>)
    requires Plausible(candidates) && Acyclic(candidates)
    ensures Explains(candidates, accelerations, lim, template, ctx, run, passedOver)
    ensures IsTemplate(candidates, accelerations, lim, template)
    ensures Distinct(TemplateIds(template)) && Elements(TemplateIds(template)) <= Elements(Txids(candidates))
    ensures lim.maxBlocks <= 1 ==> Elements(TemplateIds(template)) == Elements(Txids(candidates))
    ensures Stands(candidates, accelerations, lim, template, ctx) && AllFair(ctx, run)
  {
    var audit, mempoolArray := Prepare(candidates, accelerations);
    ctx := audit.ctx;
    var st;
    ghost var firstScore;
    st, firstScore, passedOver := SelectAll(audit, mempoolArray, lim);
    run := audit.run;
    TakenIsUsed(ctx, run);
    SearchEnded(ctx, audit.auditPool, run, st, lim, firstScore, passedOver);
    template := ReadOff(audit, st.transactions);
    ReportedIds(ctx, run, template);
    TemplateStands(candidates, accelerations, lim, template, ctx, audit.rank, run);
    if FeesNotNegative(candidates, accelerations) && (!lim.Enforced() || FreeAlike(ctx)) {
      TemplateIsOrdered(candidates, accelerations, lim, template, ctx, run, passedOver);
    }
    ExplainedIsTemplate(candidates, accelerations, lim, template, ctx, run, passedOver);
  }
}
