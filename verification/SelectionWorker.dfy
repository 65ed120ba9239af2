/** The worker that packs the whole mempool into projected blocks. */
module SelectionWorker {
  import opened Basics
  import opened Ancestry
  import opened Packages
  import opened Relatives
  import opened Repairs
  import opened Commits
  import opened Queues
  import opened Weights
  import opened AuditPools
  import opened Template
  import opened RateOrder
  import opened BlockRules
  import opened Packing
  import opened Entries
  import opened BlockOrder
  import opened PackageRates

  datatype CompactTx = CompactTx(
    fee: int, weight: nat, sigops: nat, inputs: seq<TxId>, feePerVsize: real, effectiveFeePerVsize: real)

  type Mempool = map<TxId, CompactTx>

  ghost predicate Plausible(mempool: Mempool) {
    forall t :: t in mempool ==> mempool[t].weight > 0
  }

  function TxOf(tx: CompactTx, uid: TxId): Tx {
    Tx(Totals(tx.fee, tx.weight, tx.sigops), tx.weight, uid, tx.inputs)
  }

  /** The worker's view of the mempool: sizes are weights, a virtual byte is four of them,
      and nobody starts with a dependency rate. */
  function ContextOf(mempool: Mempool): Context {
    Context(map t | t in mempool :: TxOf(mempool[t], t), FeeRate(4.0), map t | t in mempool :: 0.0)
  }

  ghost predicate Acyclic(mempool: Mempool) {
    exists rank :: Ranks(ContextOf(mempool).txs, rank)
  }

  lemma ContextIsWellFormed(mempool: Mempool)
    requires Plausible(mempool)
    ensures WellFormed(ContextOf(mempool)) && WeightIsSize(ContextOf(mempool).txs)
  {
  }

  method ListPool(mempool: Mempool) returns (mempoolArray: seq<TxId>)
    ensures Elements(mempoolArray) == mempool.Keys && Distinct(mempoolArray)
  {
    mempoolArray := [];
    var rest := mempool.Keys;
    while rest != {}
      invariant Elements(mempoolArray) + rest == mempool.Keys && Elements(mempoolArray) !! rest
      invariant Distinct(mempoolArray)
      decreases |rest|
    {
      var t :| t in rest;
      OneListed(mempoolArray, t);
      mempoolArray, rest := mempoolArray + [t], rest - {t};
    }
  }

  lemma OneListed(listed: seq<TxId>, t: TxId)
    requires Distinct(listed) && t !in Elements(listed)
    ensures Distinct(listed + [t]) && Elements(listed + [t]) == Elements(listed) + {t}
  {
    DistinctConcat(listed, [t]);
  }

  // ---------------------------------------------------------------- one round

  /** The queue, the heap and the overflow list cover everyone left, and the array is in order. */
  ghost predicate QueuesKept(ctx: Context, run: seq<Package>, used: set<TxId>, st: Packing) {
    && Covered(ctx, used, st.mempoolArray, st.top, st.heap, st.node, st.isModified, Elements(st.overflow))
    && SlotsInOrder(ctx, st.mempoolArray, st.top, st.isModified, st.overflow)
    && st.isModified == BelowAny(ctx.txs, Used(run))
  }

  ghost predicate PackInv(
    ctx: Context, run: seq<Package>, st: Packing, filled: seq<seq<Package>>, current: seq<Package>, limit: int)
  {
    && QueuesKept(ctx, run, Used(run), st)
    && BlocksBuilt(ctx, run, filled, current, limit, st.blocks, st.transactions, st.blockWeight)
    && AsideExplained(ctx, filled, current, limit, st.overflow)
    && TriesKnown(ctx, filled, current, limit, st.overflow, st.failures)
    && FewEntries(ctx, Used(run), EntriesOf(st))
    && Unrepaired(st.overflow, st.isModified) <= st.top
  }

  function QueueLength(st: Packing): int {
    |st.mempoolArray| - st.top + |st.heap|
  }

  lemma FewerSlots(
    ctx: Context, mempoolArray: seq<TxId>, top: nat, isModified: set<TxId>, overflow: seq<TxId>)
    requires SlotsInOrder(ctx, mempoolArray, top, isModified, overflow) && top < |mempoolArray|
    ensures SlotsInOrder(ctx, mempoolArray, top + 1, isModified, overflow)
  {
  }

  lemma SlotSkipped(ctx: Context, run: seq<Package>, st: Packing)
    requires QueuesKept(ctx, run, Used(run), st) && st.top < |st.mempoolArray|
    requires st.mempoolArray[st.top] in Used(run) + st.isModified
    ensures QueuesKept(ctx, run, Used(run), st.(top := st.top + 1))
  {
    SlotConsumed(ctx, Used(run), st.mempoolArray, st.top, st.heap, st.node, st.isModified, Elements(st.overflow));
    FewerSlots(ctx, st.mempoolArray, st.top, st.isModified, st.overflow);
  }

  /** Moves past slots whose transaction is used or has been repaired. */
  method SkipInvalid(audit: AuditPool, st: Packing) returns (st': Packing)
    requires audit.Valid() && QueuesKept(audit.ctx, audit.run, Used(audit.run), st)
    ensures QueuesKept(audit.ctx, audit.run, Used(audit.run), st')
    ensures st' == st.(top := st'.top) && st.top <= st'.top <= |st.mempoolArray|
    ensures EntriesOf(st') <= EntriesOf(st)
    ensures st'.top == |st'.mempoolArray| ||
      (st'.mempoolArray[st'.top] !in st'.isModified && !audit.auditPool[st'.mempoolArray[st'.top]].used)
  {
    st' := st;
    while st'.top < |st.mempoolArray| &&
          (audit.auditPool[st.mempoolArray[st'.top]].used || st.mempoolArray[st'.top] in st.isModified)
      invariant st' == st.(top := st'.top) && st.top <= st'.top <= |st.mempoolArray|
      invariant QueuesKept(audit.ctx, audit.run, Used(audit.run), st') && EntriesOf(st') <= EntriesOf(st)
      decreases |st.mempoolArray| - st'.top
    {
      SlotTaken(st');
      assert st'.mempoolArray[st'.top] in st'.mempoolArray;
      SlotSkipped(audit.ctx, audit.run, st');
      st' := st'.(top := st'.top + 1);
    }
  }

  /** Whoever scores at least as well as the first valid slot is a top choice. */
  lemma SlotIsTopFresh(ctx: Context, run: seq<Package>, st: Packing, next: TxId)
    requires QueuesKept(ctx, run, Used(run), st) && next in ctx.txs
    requires st.top < |st.mempoolArray| ==>
      && st.mempoolArray[st.top] !in st.isModified + Used(run) && st.mempoolArray[st.top] in ctx.txs
      && Score(ctx, Used(run), st.mempoolArray[st.top]) <= Score(ctx, Used(run), next)
    ensures TopFresh(ctx, Used(run), st.overflow, next)
  {
    forall t | Fresh(ctx, Used(run), t) && t !in st.overflow
      ensures Score(ctx, Used(run), t) <= Score(ctx, Used(run), next)
    {
      FreshWaitInSlots(ctx, Used(run), st.mempoolArray, st.top, st.heap, st.node, st.isModified, st.overflow, t);
      FreshScore(ctx, Used(run), t);
      assert Fresh(ctx, Used(run), st.mempoolArray[st.top]);
      FreshScore(ctx, Used(run), st.mempoolArray[st.top]);
    }
  }

  /** What setting `next` aside leaves in order: it comes from the slot before `top` or it has
      been repaired. */
  ghost predicate AsideFits(ctx: Context, st: Packing, next: TxId) {
    && SlotsInOrder(ctx, st.mempoolArray, st.top, st.isModified, st.overflow + [next])
    && Unrepaired(st.overflow + [next], st.isModified) <= st.top
  }

  /** From `st`, `next` was picked. */
  ghost predicate Picked(ctx: Context, run: seq<Package>, st: Packing, next: TxId, st': Packing) {
    && st' == st.(top := st'.top, heap := st'.heap, node := st'.node) && st.top <= st'.top
    && TopFresh(ctx, Used(run), st.overflow, next) && QueuesKept(ctx, run, Used(run) + {next}, st')
    && QueueLength(st') < QueueLength(st) && AsideFits(ctx, st', next)
    && EntriesOf(st') + multiset{next} == EntriesOf(st)
    && st'.node == (if st'.heap == st.heap then st.node else st.node - {next})
  }

  lemma SlotPicked(ctx: Context, run: seq<Package>, st: Packing)
    requires QueuesKept(ctx, run, Used(run), st) && st.top < |st.mempoolArray|
    requires Unrepaired(st.overflow, st.isModified) <= st.top
    requires st.mempoolArray[st.top] !in st.isModified + Used(run)
    ensures Picked(ctx, run, st, st.mempoolArray[st.top], st.(top := st.top + 1))
  {
    var next := st.mempoolArray[st.top];
    assert next in st.mempoolArray;
    SlotTaken(st);
    SlotIsTopFresh(ctx, run, st, next);
    MoreCovered(ctx, Used(run), Used(run) + {next}, st.mempoolArray, st.top, st.heap, st.node, st.isModified,
                Elements(st.overflow), Elements(st.overflow));
    SlotConsumed(ctx, Used(run) + {next}, st.mempoolArray, st.top, st.heap, st.node, st.isModified,
        Elements(st.overflow));
    SlotSetAside(ctx, st.mempoolArray, st.top, st.isModified, st.overflow);
    UnrepairedGrows(st.overflow, st.isModified, next);
    FewerSlots(ctx, st.mempoolArray, st.top, st.isModified, st.overflow);
  }

  lemma HeapHeadPicked(ctx: Context, run: seq<Package>, st: Packing, next: TxId)
    requires QueuesKept(ctx, run, Used(run), st) && next in st.heap
    requires Unrepaired(st.overflow, st.isModified) <= st.top
    requires st.top < |st.mempoolArray| ==>
      && st.mempoolArray[st.top] !in st.isModified + Used(run) && st.mempoolArray[st.top] in ctx.txs && next in ctx.txs
      && Score(ctx, Used(run), st.mempoolArray[st.top]) <= Score(ctx, Used(run), next)
    ensures Picked(ctx, run, st, next, st.(heap := st.heap - multiset{next}, node := st.node - {next}))
  {
    assert st.heap[next] > 0 && next in st.isModified && next in ctx.txs;
    HeadPopped(st, next);
    SlotIsTopFresh(ctx, run, st, next);
    MoreCovered(ctx, Used(run), Used(run) + {next}, st.mempoolArray, st.top, st.heap, st.node, st.isModified,
                Elements(st.overflow), Elements(st.overflow));
    HeapPopped(ctx, Used(run) + {next}, st.mempoolArray, st.top, st.heap, st.node, st.isModified,
        Elements(st.overflow), next);
    RepairedSetAside(ctx, st.mempoolArray, st.top, st.isModified, st.overflow, next);
    UnrepairedGrows(st.overflow, st.isModified, next);
  }

  /** Consumes a slot or pops the heap, whichever head scores better; which element heads
      the heap is left open. */
  method PickNext(audit: AuditPool, st: Packing) returns (next: Option<TxId>, st': Packing)
    requires audit.Valid() && QueuesKept(audit.ctx, audit.run, Used(audit.run), st)
    requires Unrepaired(st.overflow, st.isModified) <= st.top
    requires st.top == |st.mempoolArray| ||
      (st.mempoolArray[st.top] !in st.isModified && !audit.auditPool[st.mempoolArray[st.top]].used)
    ensures next.None? ==> st' == st && QueueLength(st) == 0
    ensures next.Some? ==> Picked(audit.ctx, audit.run, st, next.value, st')
  {
    ghost var ctx, run := audit.ctx, audit.run;
    next, st' := None, st;
    var peek := None;
    if st.heap != multiset{} {
      var head :| head in st.heap;
      assert st.heap[head] > 0 && head in audit.ctx.txs;
      peek := Some(head);
    }
    ScoresAreKept(ctx, audit.auditPool, Used(run));
    assert st.top < |st.mempoolArray| ==> st.mempoolArray[st.top] in st.mempoolArray;
    if st.top < |st.mempoolArray|
       && (peek.None? || audit.auditPool[st.mempoolArray[st.top]].score > audit.auditPool[peek.value].score) {
      next, st' := Some(st.mempoolArray[st.top]), st.(top := st.top + 1);
      SlotPicked(ctx, run, st);
    } else if peek.Some? {
      next := peek;
      st' := st.(heap := st.heap - multiset{next.value}, node := st.node - {next.value});
      HeapHeadPicked(ctx, run, st, next.value);
    }
  }

  lemma ScoresAreKept(ctx: Context, book: Book, used: set<TxId>)
    requires Accounted(ctx, book, used)
    ensures forall t {:trigger book[t]} :: t in ctx.txs ==> t in book && book[t].score == Score(ctx, used, t)
  {
    forall t | t in ctx.txs ensures book[t].score == Score(ctx, used, t) {
      assert AccountedAt(ctx, book[t], used, t);
    }
  }

  /** Puts the repaired transactions whose link is not set into the heap. */
  method TouchAll(st: Packing, touched: seq<TxId>, ghost ctx: Context, ghost used: set<TxId>) returns (st': Packing)
    requires Covered(ctx, used, st.mempoolArray, st.top, st.heap, st.node, st.isModified, Elements(st.overflow))
    requires Elements(touched) <= ctx.txs.Keys
    ensures Covered(ctx, used, st'.mempoolArray, st'.top, st'.heap, st'.node, st'.isModified, Elements(st'.overflow))
    ensures st' == st.(heap := st'.heap, node := st.node + Elements(touched),
      isModified := st.isModified + Elements(touched))
    ensures st'.heap <= st.heap + multiset(Elements(touched))
  {
    st' := st;
    for i := 0 to |touched|
      invariant Covered(ctx, used, st'.mempoolArray, st'.top, st'.heap, st'.node, st'.isModified,
        Elements(st'.overflow))
      invariant st' == st.(heap := st'.heap, node := st.node + Elements(touched[..i]),
        isModified := st.isModified + Elements(touched[..i]))
      invariant st'.heap <= st.heap + multiset(Elements(touched[..i]))
    {
      var t := touched[i];
      assert t in Elements(touched) && Elements(touched[..i+1]) == Elements(touched[..i]) + {t};
      if t !in st'.node {
        TouchKeepsCovered(ctx, used, st'.mempoolArray, st'.top, st'.heap, st'.node, st'.isModified,
            Elements(st'.overflow), t);
        st' := st'.(isModified := st'.isModified + {t}, node := st'.node + {t}, heap := st'.heap + multiset{t});
      }
    }
    PrefixWhole(touched);
  }

  /** Takes the package of `next` into the block being built. */
  method CommitNext(audit: AuditPool, st: Packing, next: TxId, limit: int,
                    ghost filled: seq<seq<Package>>, ghost current: seq<Package>)
    returns (st': Packing, ghost current': seq<Package>, ghost p: Package)
    requires audit.Valid() && WeightIsSize(audit.ctx.txs) && next in audit.ctx.txs && !audit.auditPool[next].used
    requires QueuesKept(audit.ctx, audit.run, Used(audit.run) + {next}, st)
    requires BlocksBuilt(audit.ctx, audit.run, filled, current, limit, st.blocks, st.transactions, st.blockWeight)
    requires AsideExplained(audit.ctx, filled, current, limit, st.overflow)
    requires Unrepaired(st.overflow, st.isModified) <= st.top
    requires FewEntries(audit.ctx, Used(audit.run), EntriesOf(st))
    requires TriesKnown(audit.ctx, filled, current, limit, st.overflow, st.failures)
    requires InTime(audit.ctx, filled, current, limit, st.overflow, st.failures)
    requires TopFresh(audit.ctx, Used(audit.run), st.overflow, next)
    requires BestFresh(audit.ctx, Flat(filled), current, limit, |st.blocks| < FULL_BLOCKS, next)
    requires |st.blocks| < FULL_BLOCKS ==> BlockFits(audit.ctx, Flat(filled), current, limit, next)
    modifies audit
    ensures audit.Valid() && audit.run == old(audit.run) + [p] && p.root == next && next in Members(p)
    ensures PackInv(audit.ctx, audit.run, st', filled, current', limit)
    ensures st'.blocks == st.blocks && st'.overflow == st.overflow && current' == current + [p]
  {
    ghost var ctx, run := audit.ctx, audit.run;
    var used, touched;
    used, touched, p := audit.CommitPackage(next);
    LastFollows(ctx, run, p);
    PackageAdded(ctx, audit.rank, run, filled, current, limit, st.blocks, st.transactions, st.blockWeight, p);
    current' := current + [p];
    AsideStaysExplained(ctx, filled, current, limit, st.overflow, p);
    TriesAnew(ctx, filled, current, limit, st.overflow, st.failures, p);
    st' := CountAndTouch(audit, st, used, touched, run, p, next);
  }

  method CountAndTouch(audit: AuditPool, st: Packing, used: seq<TxId>, touched: seq<TxId>,
                       ghost run: seq<Package>, ghost p: Package, ghost next: TxId)
    returns (st': Packing)
    requires WellFormed(audit.ctx) && IsRun(audit.ctx, run) && Follows(audit.ctx, run, p) && next in Members(p)
    requires QueuesKept(audit.ctx, run, Used(run) + {next}, st)
    requires used == Reversed(p.cluster) && Members(p) <= audit.ctx.txs.Keys
    requires Elements(touched) == BelowAny(audit.ctx.txs, Elements(used))
    requires Unrepaired(st.overflow, st.isModified) <= st.top && FewEntries(audit.ctx, Used(run), EntriesOf(st))
    ensures QueuesKept(audit.ctx, run + [p], Used(run + [p]), st')
    ensures FewEntries(audit.ctx, Used(run + [p]), EntriesOf(st'))
    ensures Unrepaired(st'.overflow, st'.isModified) <= st'.top
    ensures st'.transactions == st.transactions + used
    ensures st'.blockWeight == st.blockWeight + WeightOf(audit.ctx.txs, Members(p))
    ensures st'.blocks == st.blocks && st'.overflow == st.overflow && st'.failures == 0
  {
    ghost var ctx := audit.ctx;
    ReversedIsDistinct(p.cluster);
    RunGrows(ctx, run, p);
    var weight, sigops := CountTaken(audit, used, st.blockWeight, 0);
    st' := st.(transactions := st.transactions + used, blockWeight := weight, failures := 0);
    MoreCovered(ctx, Used(run) + {next}, Used(run + [p]), st.mempoolArray, st.top, st.heap, st.node,
                st.isModified, Elements(st.overflow), Elements(st.overflow));
    EntriesAfterCommit(ctx, Used(run), Members(p), EntriesOf(st));
    ghost var entries := EntriesOf(st) + multiset(BelowAny(ctx.txs, Members(p)));
    st' := TouchAll(st', touched, ctx, Used(run + [p]));
    FewerEntries(ctx, Used(run + [p]), entries, EntriesOf(st'));
    BelowEither(ctx.txs, Used(run), Members(p));
    MoreFlags(ctx, st.mempoolArray, st.top, st.isModified, st'.isModified, st.overflow);
    UnrepairedShrinks(st.overflow, st.isModified, st'.isModified);
  }

  lemma MoreFlags(
    ctx: Context, mempoolArray: seq<TxId>, top: nat, isModified: set<TxId>, more: set<TxId>, overflow: seq<TxId>)
    requires SlotsInOrder(ctx, mempoolArray, top, isModified, overflow) && isModified <= more
    ensures SlotsInOrder(ctx, mempoolArray, top, more, overflow)
  {
  }

  /** Closes the block and puts the overflow list back in front of the queue. */
  method CloseBlock(st: Packing, ghost ctx: Context, ghost run: seq<Package>, ghost limit: int,
                    ghost filled: seq<seq<Package>>, ghost current: seq<Package>)
    returns (st': Packing)
    requires PackInv(ctx, run, st, filled, current, limit) && |st.blocks| < FULL_BLOCKS && current != []
    requires QueueLength(st) == 0 || (st.failures > 1000 && st.blockWeight > limit - 4000)
    ensures PackInv(ctx, run, st', filled + [current], [], limit) && |st'.blocks| == |st.blocks| + 1
    ensures st'.overflow == []
  {
    EndsWithReason(ctx, run, st, filled, current, limit);
    TriesClosed(ctx, filled, current, limit, st.overflow, st.failures);
    BlockClosed(ctx, run, filled, current, limit, st.blocks, st.transactions, st.blockWeight);
    st' := GiveBack(st, ctx, run);
    Reopened(ctx, run, st', filled + [current], limit, st.blocks + [st.transactions]);
    st' := st'.(blocks := st.blocks + [st.transactions], transactions := [], blockWeight := RESERVED_WEIGHT);
  }

  /** With nothing set aside the next block begins. */
  lemma Reopened(
    ctx: Context, run: seq<Package>, st: Packing, filled: seq<seq<Package>>, limit: int, blocks: seq<seq<TxId>>)
    requires QueuesKept(ctx, run, Used(run), st) && FewEntries(ctx, Used(run), EntriesOf(st)) && st.overflow == []
    requires BlocksBuilt(ctx, run, filled, [], limit, blocks, [], RESERVED_WEIGHT)
    ensures PackInv(ctx, run, st.(blocks := blocks, transactions := [], blockWeight := RESERVED_WEIGHT), filled, [],
      limit)
  {
    NothingTried(ctx, filled, limit, st.failures);
  }

  /** Everyone left is in the overflow list once nothing is queued. */
  lemma OnlyOverflowLeft(ctx: Context, run: seq<Package>, st: Packing, t: TxId)
    requires QueuesKept(ctx, run, Used(run), st) && QueueLength(st) == 0 && t in ctx.txs && t !in Used(run)
    ensures t in st.overflow
  {
    assert st.heap == multiset{} && st.mempoolArray[st.top..] == [];
    var repaired := t in st.isModified;
    assert t in Elements(st.overflow);
  }

  lemma EndsWithReason(
    ctx: Context, run: seq<Package>, st: Packing, filled: seq<seq<Package>>, current: seq<Package>, limit: int)
    requires PackInv(ctx, run, st, filled, current, limit) && current != []
    requires QueueLength(st) == 0 || (st.failures > 1000 && st.blockWeight > limit - 4000)
    ensures ClosedFull(ctx, Flat(filled), current, limit)
  {
    if QueueLength(st) != 0 {
      TriesAreMany(ctx, run, filled, current, limit, st, 1000);
    } else {
      forall t | t in ctx.txs && t !in Used(run) ensures FailedHere(ctx, Flat(filled), current, limit, t) {
        OnlyOverflowLeft(ctx, run, st, t);
      }
    }
  }

  /** The overflow list goes back, from its end, into the slots before `top` and the heap. */
  method GiveBack(st: Packing, ghost ctx: Context, ghost run: seq<Package>) returns (st': Packing)
    requires QueuesKept(ctx, run, Used(run), st) && Unrepaired(st.overflow, st.isModified) <= st.top
    ensures st' == st.(mempoolArray := st'.mempoolArray, top := st'.top, heap := st'.heap, node := st'.node,
      overflow := [])
    ensures QueuesKept(ctx, run, Used(run), st') && EntriesOf(st') == EntriesOf(st)
  {
    st' := st;
    var i := |st.overflow|;
    PrefixWhole(st.overflow);
    while i > 0
      invariant 0 <= i <= |st.overflow|
      invariant st' == st.(mempoolArray := st'.mempoolArray, top := st'.top, heap := st'.heap, node := st'.node)
      invariant QueuesKept(ctx, run, Used(run), st'.(overflow := st.overflow[..i]))
      invariant EntriesOf(st'.(overflow := st.overflow[..i])) == EntriesOf(st)
      invariant Unrepaired(st.overflow[..i], st.isModified) <= st'.top
    {
      i := i - 1;
      ElementsStep(st.overflow, i);
      st' := GiveBackLast(st', st.overflow[i], ctx, run, st.overflow[..i]);
    }
    assert st.overflow[..0] == [];
    st' := st'.(overflow := []);
  }

  method GiveBackLast(st: Packing, overflowTx: TxId, ghost ctx: Context, ghost run: seq<Package>, ghost rest: seq<TxId>)
    returns (st': Packing)
    requires QueuesKept(ctx, run, Used(run), st.(overflow := rest + [overflowTx]))
    requires Unrepaired(rest + [overflowTx], st.isModified) <= st.top
    ensures st' == st.(mempoolArray := st'.mempoolArray, top := st'.top, heap := st'.heap, node := st'.node)
    ensures QueuesKept(ctx, run, Used(run), st'.(overflow := rest)) && Unrepaired(rest, st.isModified) <= st'.top
    ensures EntriesOf(st'.(overflow := rest)) == EntriesOf(st.(overflow := rest + [overflowTx]))
    ensures st'.node == if overflowTx in st.isModified then st.node + {overflowTx} else st.node
  {
    RoomForLast(ctx, run, st, rest, overflowTx);
    if overflowTx in st.isModified {
      st' := st.(node := st.node + {overflowTx}, heap := st.heap + multiset{overflowTx});
      assert st'.(overflow := rest) ==
        st.(node := st.node + {overflowTx}, heap := st.heap + multiset{overflowTx}, overflow := rest);
      BackInHeap(ctx, run, st, rest, overflowTx);
      BackToHeap(st, rest, overflowTx);
    } else {
      st' := st.(mempoolArray := st.mempoolArray[st.top - 1 := overflowTx], top := st.top - 1);
      assert st'.(overflow := rest) ==
        st.(mempoolArray := st.mempoolArray[st.top - 1 := overflowTx], top := st.top - 1, overflow := rest);
      BackInSlot(ctx, run, st, rest, overflowTx);
      BackToSlot(st, rest, overflowTx);
    }
  }

  lemma RoomForLast(ctx: Context, run: seq<Package>, st: Packing, rest: seq<TxId>, t: TxId)
    requires QueuesKept(ctx, run, Used(run), st.(overflow := rest + [t]))
    requires Unrepaired(rest + [t], st.isModified) <= st.top
    ensures st.top <= |st.mempoolArray|
    ensures Unrepaired(rest, st.isModified) + (if t in st.isModified then 0 else 1) <= st.top
  {
    UnrepairedGrows(rest, st.isModified, t);
  }

  lemma BackInHeap(ctx: Context, run: seq<Package>, st: Packing, rest: seq<TxId>, t: TxId)
    requires QueuesKept(ctx, run, Used(run), st.(overflow := rest + [t])) && t in st.isModified
    ensures QueuesKept(ctx, run, Used(run),
      st.(node := st.node + {t}, heap := st.heap + multiset{t}, overflow := rest))
  {
    assert Elements(rest + [t]) == Elements(rest) + {t};
    HeapGivenBack(ctx, Used(run), st.mempoolArray, st.top, st.heap, st.node, st.isModified, Elements(rest), t);
    HeapBackInOrder(ctx, st.mempoolArray, st.top, st.isModified, rest, t);
  }

  lemma BackInSlot(ctx: Context, run: seq<Package>, st: Packing, rest: seq<TxId>, t: TxId)
    requires QueuesKept(ctx, run, Used(run), st.(overflow := rest + [t]))
    requires t !in st.isModified && 0 < st.top <= |st.mempoolArray|
    ensures QueuesKept(ctx, run, Used(run),
      st.(mempoolArray := st.mempoolArray[st.top - 1 := t], top := st.top - 1, overflow := rest))
  {
    assert Elements(rest + [t]) == Elements(rest) + {t};
    SlotGivenBack(ctx, Used(run), st.mempoolArray, st.top, st.heap, st.node, st.isModified, Elements(rest), t);
    SlotBackInOrder(ctx, st.mempoolArray, st.top, st.isModified, rest, t);
  }

  lemma QueuesWithAside(ctx: Context, run: seq<Package>, st: Packing, next: TxId)
    requires QueuesKept(ctx, run, Used(run) + {next}, st) && AsideFits(ctx, st, next) && next in ctx.txs
    ensures QueuesKept(ctx, run, Used(run), st.(overflow := st.overflow + [next], failures := st.failures + 1))
  {
    assert Elements(st.overflow + [next]) == Elements(st.overflow) + {next};
    MoreCovered(ctx, Used(run) + {next}, Used(run), st.mempoolArray, st.top, st.heap, st.node,
                st.isModified, Elements(st.overflow), Elements(st.overflow + [next]));
  }

  /** Sets `next` aside while smaller packages are tried. */
  method SetAside(st: Packing, next: TxId, ghost ctx: Context, ghost run: seq<Package>, ghost limit: int,
                  ghost filled: seq<seq<Package>>, ghost current: seq<Package>)
    returns (st': Packing)
    requires QueuesKept(ctx, run, Used(run) + {next}, st) && AsideFits(ctx, st, next)
    requires BlocksBuilt(ctx, run, filled, current, limit, st.blocks, st.transactions, st.blockWeight)
    requires AsideExplained(ctx, filled, current, limit, st.overflow) && |st.blocks| < FULL_BLOCKS
    requires TriesKnown(ctx, filled, current, limit, st.overflow, st.failures)
    requires next in ctx.txs && !BlockFits(ctx, Flat(filled), current, limit, next)
    requires FewEntries(ctx, Used(run), EntriesOf(st) + multiset{next})
    ensures PackInv(ctx, run, st', filled, current, limit)
    ensures st' == st.(overflow := st.overflow + [next], failures := st.failures + 1)
  {
    st' := st.(overflow := st.overflow + [next], failures := st.failures + 1);
    QueuesWithAside(ctx, run, st, next);
    SetAsideKeeps(ctx, run, st, st', filled, current, limit, next);
  }

  lemma SetAsideKeeps(
    ctx: Context, run: seq<Package>, st: Packing, st': Packing, filled: seq<seq<Package>>, current: seq<Package>,
    limit: int, next: TxId)
    requires st' == st.(overflow := st.overflow + [next], failures := st.failures + 1)
    requires QueuesKept(ctx, run, Used(run), st') && Unrepaired(st'.overflow, st'.isModified) <= st'.top
    requires BlocksBuilt(ctx, run, filled, current, limit, st.blocks, st.transactions, st.blockWeight)
    requires AsideExplained(ctx, filled, current, limit, st.overflow) && |st.blocks| < FULL_BLOCKS
    requires TriesKnown(ctx, filled, current, limit, st.overflow, st.failures)
    requires next in ctx.txs && !BlockFits(ctx, Flat(filled), current, limit, next)
    requires FewEntries(ctx, Used(run), EntriesOf(st) + multiset{next})
    ensures PackInv(ctx, run, st', filled, current, limit)
  {
    EntrySetAside(st, next);
    OneMoreFailed(ctx, filled, current, limit, st.overflow, st.failures, next);
    AllKept(ctx, run, st', filled, current, limit);
  }

  lemma OneMoreFailed(
    ctx: Context, filled: seq<seq<Package>>, current: seq<Package>, limit: int, overflow: seq<TxId>, failures: nat,
    next: TxId)
    requires AsideExplained(ctx, filled, current, limit, overflow) && |filled| < FULL_BLOCKS
    requires TriesKnown(ctx, filled, current, limit, overflow, failures)
    requires DoesNotFit(ctx, Flat(filled), current, limit, next)
    ensures AsideExplained(ctx, filled, current, limit, overflow + [next])
    ensures TriesKnown(ctx, filled, current, limit, overflow + [next], failures + 1)
  {
    FailsNow(ctx, Flat(filled), current, limit, next);
    OneMoreExplained(ctx, filled, current, limit, overflow, next);
    OneMoreTry(ctx, filled, current, limit, overflow, failures, next);
  }

  lemma OneMoreExplained(
    ctx: Context, filled: seq<seq<Package>>, current: seq<Package>, limit: int, overflow: seq<TxId>, next: TxId)
    requires AsideExplained(ctx, filled, current, limit, overflow) && |filled| < FULL_BLOCKS
    requires next in ctx.txs && FailedHere(ctx, Flat(filled), current, limit, next)
    ensures AsideExplained(ctx, filled, current, limit, overflow + [next])
  {
    forall t | t in overflow + [next] ensures t in ctx.txs && FailedHere(ctx, Flat(filled), current, limit, t) {
      assert t == next || FailedHere(ctx, Flat(filled), current, limit, t);
    }
  }

  lemma AllKept(
    ctx: Context, run: seq<Package>, st: Packing, filled: seq<seq<Package>>, current: seq<Package>, limit: int)
    requires QueuesKept(ctx, run, Used(run), st)
    requires BlocksBuilt(ctx, run, filled, current, limit, st.blocks, st.transactions, st.blockWeight)
    requires AsideExplained(ctx, filled, current, limit, st.overflow)
    requires TriesKnown(ctx, filled, current, limit, st.overflow, st.failures)
    requires FewEntries(ctx, Used(run), EntriesOf(st))
    requires Unrepaired(st.overflow, st.isModified) <= st.top
    ensures PackInv(ctx, run, st, filled, current, limit)
  {
  }

  /** The first half of a round: one package is taken or set aside. */
  method SelectNext(audit: AuditPool, st: Packing, limit: int,
                    ghost filled: seq<seq<Package>>, ghost current: seq<Package>)
    returns (st': Packing, ghost current': seq<Package>)
    requires audit.Valid() && WeightIsSize(audit.ctx.txs) && PackInv(audit.ctx, audit.run, st, filled, current, limit)
    requires InTime(audit.ctx, filled, current, limit, st.overflow, st.failures)
    modifies audit
    ensures audit.Valid() && PackInv(audit.ctx, audit.run, st', filled, current', limit)
    ensures st'.blocks == st.blocks && Used(old(audit.run)) <= Used(audit.run)
    ensures Used(old(audit.run)) == Used(audit.run) ==> QueueLength(st') < QueueLength(st) || QueueLength(st') == 0
  {
    current' := current;
    var ready := SkipInvalid(audit, st);
    var next;
    next, st' := PickNext(audit, ready);
    EntriesInHand(audit.ctx, Used(audit.run), st, ready, next, st');
    if next.Some? {
      if audit.auditPool[next.value].used {
        UsedOnePicked(audit.ctx, audit.run, st', next.value);
      } else {
        TopIsBestFresh(audit.ctx, audit.run, filled, current, limit, st'.blocks, st'.transactions, st'.blockWeight,
                       st'.overflow, next.value);
        st', current' := TakeOrSetAside(audit, st', next.value, limit, filled, current);
      }
    }
  }

  /** Skipping and picking make no entry; what was picked may still go back. */
  lemma EntriesInHand(
    ctx: Context, used: set<TxId>, st: Packing, ready: Packing, next: Option<TxId>, st': Packing)
    requires FewEntries(ctx, used, EntriesOf(st)) && EntriesOf(ready) <= EntriesOf(st)
    requires if next.Some? then EntriesOf(st') + multiset{next.value} == EntriesOf(ready) else st' == ready
    ensures FewEntries(ctx, used, EntriesOf(st'))
    ensures next.Some? ==> FewEntries(ctx, used, EntriesOf(st') + multiset{next.value})
  {
    FewerEntries(ctx, used, EntriesOf(st), EntriesOf(ready));
    FewerEntries(ctx, used, EntriesOf(ready), EntriesOf(st'));
  }

  lemma UsedOnePicked(ctx: Context, run: seq<Package>, st: Packing, next: TxId)
    requires QueuesKept(ctx, run, Used(run) + {next}, st) && next in Used(run)
    ensures QueuesKept(ctx, run, Used(run), st)
  {
    assert Used(run) + {next} == Used(run);
  }

  /** Whoever is set aside failed in this block. */
  lemma TopIsBestFresh(
    ctx: Context, run: seq<Package>, filled: seq<seq<Package>>, current: seq<Package>, limit: int,
    blocks: seq<seq<TxId>>, transactions: seq<TxId>, blockWeight: int, overflow: seq<TxId>, next: TxId)
    requires BlocksBuilt(ctx, run, filled, current, limit, blocks, transactions, blockWeight)
    requires AsideExplained(ctx, filled, current, limit, overflow) && TopFresh(ctx, Used(run), overflow, next)
    ensures BestFresh(ctx, Flat(filled), current, limit, |blocks| < FULL_BLOCKS, next)
  {
  }

  /** Does the package of `next` fit? */
  method PackageFits(audit: AuditPool, st: Packing, next: TxId, limit: int,
                     ghost filled: seq<seq<Package>>, ghost current: seq<Package>) returns (fits: bool)
    requires audit.Valid() && next in audit.ctx.txs && !audit.auditPool[next].used
    requires BlocksBuilt(audit.ctx, audit.run, filled, current, limit, st.blocks, st.transactions, st.blockWeight)
    ensures fits <==> BlockFits(audit.ctx, Flat(filled), current, limit, next)
  {
    assert AccountedAt(audit.ctx, audit.auditPool[next], Used(audit.run), next);
    var totals := audit.auditPool[next].totals;
    fits := st.blockWeight + totals.size < limit && totals.sigops <= SIGOP_LIMIT;
  }

  method TakeOrSetAside(audit: AuditPool, st: Packing, next: TxId, limit: int,
                        ghost filled: seq<seq<Package>>, ghost current: seq<Package>)
    returns (st': Packing, ghost current': seq<Package>)
    requires audit.Valid() && WeightIsSize(audit.ctx.txs) && next in audit.ctx.txs && !audit.auditPool[next].used
    requires QueuesKept(audit.ctx, audit.run, Used(audit.run) + {next}, st) && AsideFits(audit.ctx, st, next)
    requires BlocksBuilt(audit.ctx, audit.run, filled, current, limit, st.blocks, st.transactions, st.blockWeight)
    requires AsideExplained(audit.ctx, filled, current, limit, st.overflow)
    requires TriesKnown(audit.ctx, filled, current, limit, st.overflow, st.failures)
    requires InTime(audit.ctx, filled, current, limit, st.overflow, st.failures)
    requires TopFresh(audit.ctx, Used(audit.run), st.overflow, next)
    requires FewEntries(audit.ctx, Used(audit.run), EntriesOf(st) + multiset{next})
    requires Unrepaired(st.overflow, st.isModified) <= st.top
    requires BestFresh(audit.ctx, Flat(filled), current, limit, |st.blocks| < FULL_BLOCKS, next)
    modifies audit
    ensures audit.Valid() && PackInv(audit.ctx, audit.run, st', filled, current', limit)
    ensures st'.blocks == st.blocks && Used(old(audit.run)) <= Used(audit.run)
    ensures Used(old(audit.run)) == Used(audit.run) ==> QueueLength(st') == QueueLength(st)
  {
    current' := current;
    var fits := PackageFits(audit, st, next, limit, filled, current);
    if |st.blocks| >= FULL_BLOCKS || fits {
      ghost var run, p := audit.run, Package(next, [], 0.0);
      FewerEntries(audit.ctx, Used(run), EntriesOf(st) + multiset{next}, EntriesOf(st));
      st', current', p := CommitNext(audit, st, next, limit, filled, current);
      LastFollows(audit.ctx, run, p);
      RunGrows(audit.ctx, run, p);
      assert next !in Used(run);
    } else {
      st' := SetAside(st, next, audit.ctx, audit.run, limit, filled, current);
    }
  }

  lemma EmptyBlockWeighsNothing(
    ctx: Context, run: seq<Package>, filled: seq<seq<Package>>, current: seq<Package>, limit: int,
    blocks: seq<seq<TxId>>, transactions: seq<TxId>, blockWeight: int)
    requires BlocksBuilt(ctx, run, filled, current, limit, blocks, transactions, blockWeight)
    ensures current == [] ==> blockWeight == RESERVED_WEIGHT && transactions == []
  {
  }

  lemma TakenSomething(ctx: Context, run: seq<Package>, full: seq<Package>, current: seq<Package>)
    requires WellFormed(ctx) && IsRun(ctx, run) && run == full + current && current != []
    ensures Taken(current) != []
  {
    assert FollowsAt(ctx, run, |run| - 1);
    assert run[|run|-1] == current[|current|-1];
  }

  // --------------------------------------------------------------- whole blocks

  /** The blocks hold the packages of `parts`. All but an eighth are full blocks: they keep
      the limits and were ended for a reason. In each block every package was well picked. */
  ghost predicate BlocksOf(
    ctx: Context, run: seq<Package>, parts: seq<seq<Package>>, blocks: seq<seq<TxId>>, limit: int) {
    && run == Flat(parts) && |blocks| == |parts| <= FULL_BLOCKS + 1
    && (forall i {:trigger parts[i]} :: 0 <= i < |parts| ==>
          && parts[i] != [] && blocks[i] == Taken(parts[i])
          && WellPicked(ctx, Flat(parts[..i]), parts[i], limit, i < FULL_BLOCKS)
          && (i < FULL_BLOCKS ==> FullBlock(ctx, Flat(parts[..i]), parts[i], limit)))
  }

  /** Left out are exactly those that could not be placed in an empty block, and once seven
      blocks are full nobody. */
  ghost predicate NobodyForgotten(ctx: Context, run: seq<Package>, blocks: seq<seq<TxId>>, limit: int) {
    && (|blocks| < FULL_BLOCKS ==>
          forall t {:trigger TooBig(ctx, run, limit, t)} :: t in ctx.txs ==>
              (t !in Used(run) <==> TooBig(ctx, run, limit, t)))
    && (|blocks| >= FULL_BLOCKS ==> Used(run) == ctx.txs.Keys)
  }

  lemma EveryoneAccountedFor(
    ctx: Context, run: seq<Package>, st: Packing, filled: seq<seq<Package>>, current: seq<Package>, limit: int)
    requires WellFormed(ctx) && WeightIsSize(ctx.txs) && IsRun(ctx, run)
    requires PackInv(ctx, run, st, filled, current, limit) && QueueLength(st) == 0
    requires |st.blocks| < FULL_BLOCKS ==> current == []
    ensures NobodyForgotten(ctx, run, if current == [] then st.blocks else st.blocks + [st.transactions], limit)
  {
    UsedInPool(ctx, run);
    forall t | t in ctx.txs && t !in Used(run)
      ensures |st.blocks| < FULL_BLOCKS && TooBig(ctx, run, limit, t)
    {
      OnlyOverflowLeft(ctx, run, st, t);
      assert FailedHere(ctx, Flat(filled), current, limit, t);
      FailedInEmptyBlock(ctx, Flat(filled), limit, t);
      assert Flat(filled) + [] == run;
    }
    if |st.blocks| < FULL_BLOCKS {
      forall t | t in Used(run) ensures !TooBig(ctx, run, limit, t) {
        assert Flat(filled) + [] == run;
        PlacedIsSmall(ctx, run, filled, limit, t);
      }
    }
  }

  /** What is in a full block would fit an empty one. */
  lemma PlacedIsSmall(
    ctx: Context, run: seq<Package>, filled: seq<seq<Package>>, limit: int, t: TxId)
    requires WellFormed(ctx) && WeightIsSize(ctx.txs) && IsRun(ctx, run) && run == Flat(filled)
    requires AllFull(ctx, filled, limit) && t in Used(run)
    ensures !TooBig(ctx, run, limit, t)
  {
    var i := FlatUsed(filled, t);
    assert BlockWithin(ctx, filled[i], limit);
    var k :| 0 <= k < |filled[i]| && t in filled[i][k].cluster;
    assert FewSigops(ctx, filled[i][k]);
    AloneIsLess(ctx, Members(filled[i][k]), t);
    WeightAtLeast(ctx, Used(filled[i]), t);
    forall a | a in Ancestors(ctx.txs, t) ensures a in Used(run) {
      UsedIsClosed(ctx, run, a, t);
    }
    assert Remaining(ctx, Used(run), t) == {};
  }

  lemma AloneIsLess(ctx: Context, s: set<TxId>, t: TxId)
    requires WellFormed(ctx) && s <= ctx.txs.Keys && t in s
    ensures ctx.txs[t].own.sigops <= TotalOf(ctx.txs, s).sigops
  {
    TotalWithout(ctx.txs, s, t);
    TotalsBounds(ctx.txs, s - {t});
  }

  lemma WeightAtLeast(ctx: Context, s: set<TxId>, t: TxId)
    requires s <= ctx.txs.Keys && t in s
    ensures ctx.txs[t].weight <= WeightOf(ctx.txs, s)
  {
    WeightWithout(ctx.txs, s, t);
  }

  ghost predicate PackingOn(audit: AuditPool, st: Packing, filled: seq<seq<Package>>, current: seq<Package>, limit: int)
    reads audit
  {
    && audit.Valid() && PackInv(audit.ctx, audit.run, st, filled, current, limit) && st.top <= |st.mempoolArray|
  }

  function Start(mempoolArray: seq<TxId>): Packing {
    Packing(mempoolArray, 0, multiset{}, {}, {}, [], [], RESERVED_WEIGHT, 0, [])
  }

  /** Packs the sorted array. */
  method Pack(audit: AuditPool, mempoolArray: seq<TxId>, limit: int)
    returns (st: Packing, ghost filled: seq<seq<Package>>, ghost current: seq<Package>)
    requires audit.Valid() && audit.run == [] && WeightIsSize(audit.ctx.txs)
    requires Elements(mempoolArray) == audit.ctx.txs.Keys && Distinct(mempoolArray)
    requires InScoreOrder(audit.ctx, mempoolArray)
    modifies audit
    ensures PackingOn(audit, st, filled, current, limit)
    ensures limit >= 8000 ==> QueueLength(st) == 0
    ensures |st.blocks| < FULL_BLOCKS ==> current == []
  {
    PackingBegins(audit.ctx, mempoolArray, limit);
    st, filled, current := PackOn(audit, Start(mempoolArray), limit);
  }

  /** The packing loop. */
  method PackOn(audit: AuditPool, start: Packing, limit: int)
    returns (st: Packing, ghost filled: seq<seq<Package>>, ghost current: seq<Package>)
    requires PackingOn(audit, start, [], [], limit) && WeightIsSize(audit.ctx.txs) && start.failures == 0
    modifies audit
    ensures PackingOn(audit, st, filled, current, limit)
    ensures limit >= 8000 ==> QueueLength(st) == 0
    ensures |st.blocks| < FULL_BLOCKS ==> current == []
  {
    st, filled, current := start, [], [];
    while st.top < |st.mempoolArray| || st.heap != multiset{}
      invariant PackingOn(audit, st, filled, current, limit)
      invariant QueueLength(st) == 0 && |st.blocks| < FULL_BLOCKS ==> current == []
      invariant InTime(audit.ctx, filled, current, limit, st.overflow, st.failures)
      decreases FULL_BLOCKS - |st.blocks|, |audit.ctx.txs.Keys - Used(audit.run)|, QueueLength(st)
    {
      var stopped;
      st, stopped, filled, current := PackRound(audit, st, limit, filled, current);
      if stopped {
        break;
      }
    }
    NothingQueued(st);
  }

  lemma NothingQueued(st: Packing)
    ensures st.top == |st.mempoolArray| && st.heap == multiset{} ==> QueueLength(st) == 0
  {
  }

  /** One round: a package is taken or set aside, and the block closed if that ends it. */
  method PackRound(audit: AuditPool, st: Packing, limit: int,
                   ghost filled: seq<seq<Package>>, ghost current: seq<Package>)
    returns (st': Packing, stopped: bool, ghost filled': seq<seq<Package>>, ghost current': seq<Package>)
    requires WeightIsSize(audit.ctx.txs) && PackingOn(audit, st, filled, current, limit)
    requires InTime(audit.ctx, filled, current, limit, st.overflow, st.failures)
    modifies audit
    ensures PackingOn(audit, st', filled', current', limit)
    ensures stopped || InTime(audit.ctx, filled', current', limit, st'.overflow, st'.failures)
    ensures (stopped || QueueLength(st') == 0) && |st'.blocks| < FULL_BLOCKS ==> current' == []
    ensures stopped && limit >= 8000 ==> QueueLength(st') == 0
    ensures |st.blocks| <= |st'.blocks|
    ensures |st'.blocks| == |st.blocks| ==>
      |audit.ctx.txs.Keys - Used(audit.run)| < |audit.ctx.txs.Keys - Used(old(audit.run))| ||
      (Used(audit.run) == Used(old(audit.run)) && (QueueLength(st') < QueueLength(st) || QueueLength(st') == 0))
  {
    ghost var usedBefore := Used(audit.run);
    st', current' := SelectNext(audit, st, limit, filled, current);
    FewerLeft(audit.ctx, usedBefore, audit.run);
    st', stopped, filled', current' := EndOfRound(st', limit, audit.ctx, audit.run, filled, current');
  }

  /** The second half of a round. */
  method EndOfRound(st: Packing, limit: int, ghost ctx: Context, ghost run: seq<Package>,
                    ghost filled: seq<seq<Package>>, ghost current: seq<Package>)
    returns (st': Packing, stopped: bool, ghost filled': seq<seq<Package>>, ghost current': seq<Package>)
    requires WellFormed(ctx) && IsRun(ctx, run) && PackInv(ctx, run, st, filled, current, limit)
    ensures PackInv(ctx, run, st', filled', current', limit)
    ensures stopped || InTime(ctx, filled', current', limit, st'.overflow, st'.failures)
    ensures stopped <==>
      && |st.blocks| < FULL_BLOCKS && current == []
      && (QueueLength(st) == 0 || (st.failures > 1000 && st.blockWeight > limit - 4000))
    ensures (stopped || QueueLength(st') == 0) && |st'.blocks| < FULL_BLOCKS ==> current' == []
    ensures stopped && limit >= 8000 ==> QueueLength(st') == 0
    ensures |st.blocks| <= |st'.blocks| && (|st.blocks| == |st'.blocks| ==> st' == st)
  {
    st', stopped, filled', current' := st, false, filled, current;
    AlmostFullByWeight(ctx, run, st, limit, filled, current);
    var exceededPackageTries := st.failures > 1000 && st.blockWeight > limit - 4000;
    var queueEmpty := st.top >= |st.mempoolArray| && st.heap == multiset{};
    if (exceededPackageTries || queueEmpty) && |st.blocks| < FULL_BLOCKS {
      EmptyBlockWeighsNothing(ctx, run, filled, current, limit, st.blocks, st.transactions, st.blockWeight);
      if st.transactions != [] {
        st' := CloseBlock(st, ctx, run, limit, filled, current);
        filled', current' := filled + [current], [];
      } else {
        if current != [] {
          TakenSomething(ctx, run, Flat(filled), current);
        }
        stopped := true;
      }
    }
  }

  lemma AlmostFullByWeight(
    ctx: Context, run: seq<Package>, st: Packing, limit: int, filled: seq<seq<Package>>, current: seq<Package>)
    requires BlocksBuilt(ctx, run, filled, current, limit, st.blocks, st.transactions, st.blockWeight)
    ensures |filled| == |st.blocks| && (AlmostFull(ctx, current, limit) <==> st.blockWeight > limit - 4000)
  {
    assert Used(current) * ctx.txs.Keys == Used(current);
  }

  /** The array is sorted by score before anything is taken. */
  ghost predicate InScoreOrder(ctx: Context, mempoolArray: seq<TxId>) {
    forall i, j :: 0 <= i < j < |mempoolArray| ==> FirstScore(ctx, mempoolArray[j]) <= FirstScore(ctx, mempoolArray[i])
  }

  lemma PackingBegins(ctx: Context, mempoolArray: seq<TxId>, limit: int)
    requires WellFormed(ctx) && Elements(mempoolArray) == ctx.txs.Keys && Distinct(mempoolArray)
    requires InScoreOrder(ctx, mempoolArray)
    ensures PackInv(ctx, [], Start(mempoolArray), [], [], limit)
  {
    assert Used([]) == {};
    FirstEntries(ctx, Start(mempoolArray));
    NothingTried(ctx, [], limit, 0);
    QueuesBegin(ctx, mempoolArray);
  }

  lemma QueuesBegin(ctx: Context, mempoolArray: seq<TxId>)
    requires WellFormed(ctx) && Elements(mempoolArray) == ctx.txs.Keys && InScoreOrder(ctx, mempoolArray)
    ensures QueuesKept(ctx, [], {}, Start(mempoolArray))
  {
    assert Used([]) == {};
    assert mempoolArray[0..] == mempoolArray;
  }

  lemma LastBlockJoins(
    ctx: Context, run: seq<Package>, st: Packing, filled: seq<seq<Package>>, current: seq<Package>, limit: int)
    requires WellFormed(ctx) && IsRun(ctx, run) && PackInv(ctx, run, st, filled, current, limit)
    requires |st.blocks| < FULL_BLOCKS ==> current == []
    ensures st.transactions == [] <==> current == []
    ensures current == [] ==> BlocksOf(ctx, run, filled, st.blocks, limit)
    ensures current != [] ==> BlocksOf(ctx, run, filled + [current], st.blocks + [st.transactions], limit)
  {
    if current != [] {
      TakenSomething(ctx, run, Flat(filled), current);
      BlocksWithLast(ctx, run, filled, current, limit, st.blocks, st.transactions, st.blockWeight);
    } else {
      assert Flat(filled) + current == Flat(filled);
    }
  }

  lemma BlocksWithLast(
    ctx: Context, run: seq<Package>, filled: seq<seq<Package>>, current: seq<Package>, limit: int,
    blocks: seq<seq<TxId>>, transactions: seq<TxId>, blockWeight: int)
    requires BlocksBuilt(ctx, run, filled, current, limit, blocks, transactions, blockWeight)
    requires |blocks| < FULL_BLOCKS ==> current == []
    ensures current != [] ==> BlocksOf(ctx, run, filled + [current], blocks + [transactions], limit)
  {
    BlockAdded(ctx, filled, current, limit);
  }

  lemma BlockAdded(ctx: Context, filled: seq<seq<Package>>, current: seq<Package>, limit: int)
    requires AllFull(ctx, filled, limit)
    ensures var parts := filled + [current];
      && parts[..|parts|-1] == filled && Flat(parts) == Flat(filled) + current
      && forall i {:trigger parts[i]} :: 0 <= i < |parts| - 1 ==> FullBlock(ctx, Flat(parts[..i]), parts[i], limit)
  {
    var parts := filled + [current];
    assert parts[..|parts|-1] == filled;
    forall i | 0 <= i < |parts| - 1
      ensures FullBlock(ctx, Flat(parts[..i]), parts[i], limit)
    {
      assert parts[..i] == filled[..i] && parts[i] == filled[i];
    }
  }

  // ------------------------------------------------------------- what is reported

  /** No fee is negative, and whoever pays nothing has a plain rate of zero. */
  predicate FeesSane(mempool: Mempool) {
    forall t :: t in mempool ==> mempool[t].fee >= 0 && (mempool[t].fee == 0 ==> mempool[t].feePerVsize == 0.0)
  }

  /** The effective rate once the reported changes are applied. */
  function ReportedRate(mempool: Mempool, rates: map<TxId, real>, t: TxId): real
    requires t in mempool
  {
    if t in rates then rates[t] else mempool[t].effectiveFeePerVsize
  }

  /** Nobody placed has a higher rate than a transaction it depends on. */
  ghost predicate ReportedRatesFollow(mempool: Mempool, placed: set<TxId>, rates: map<TxId, real>) {
    forall a, t {:trigger a in Ancestors(ContextOf(mempool).txs, t)} ::
      t in placed && t in mempool && a in mempool && a in Ancestors(ContextOf(mempool).txs, t) ==>
        ReportedRate(mempool, rates, t) <= ReportedRate(mempool, rates, a)
  }

  lemma SaneIsNotNegative(mempool: Mempool)
    requires FeesSane(mempool)
    ensures NoNegativeFees(ContextOf(mempool))
  {
    FeeRateScoresByFee(ContextOf(mempool), 4.0);
  }

  /** What is reported of a placed transaction is the rate of its package. */
  lemma ReportedIsRate(mempool: Mempool, run: seq<Package>, rates: map<TxId, real>, k: nat, t: TxId)
    requires WellFormed(ContextOf(mempool)) && IsRun(ContextOf(mempool), run) && FeesSane(mempool)
    requires RatesReported(mempool, run, rates) && k < |run| && t in run[k].cluster && t in mempool
    ensures ReportedRate(mempool, rates, t) == run[k].rate
  {
    SaneIsNotNegative(mempool);
    ZeroRateIsFree(ContextOf(mempool), run, k);
    assert t in Members(run[k]);
  }

  lemma ReportedFollow(mempool: Mempool, run: seq<Package>, rates: map<TxId, real>)
    requires WellFormed(ContextOf(mempool)) && IsRun(ContextOf(mempool), run)
    requires FeesSane(mempool) && FreeAlike(ContextOf(mempool)) && RatesReported(mempool, run, rates)
    ensures ReportedRatesFollow(mempool, Used(run), rates)
  {
    var ctx := ContextOf(mempool);
    SaneIsNotNegative(mempool);
    FreeAlikeFollows(ctx, run);
    forall a, t | t in Used(run) && t in mempool && a in mempool && a in Ancestors(ctx.txs, t)
      ensures ReportedRate(mempool, rates, t) <= ReportedRate(mempool, rates, a)
    {
      var j :| 0 <= j < |run| && t in run[j].cluster;
      var i := AncestorsComeFirst(ctx, run, j, t, a);
      ReportedIsRate(mempool, run, rates, i, a);
      ReportedIsRate(mempool, run, rates, j, t);
    }
  }

  /** What is placed is one run of ancestor packages, cut into blocks; all blocks but an
      eighth are full ones within the limits; for a sensible limit exactly those are left out
      that would not fit an empty block; and if those that pay nothing keep to themselves,
      nobody has a higher rate than an ancestor. */
  ghost predicate Projects(
    mempool: Mempool, limit: int, blocks: seq<seq<TxId>>, rates: map<TxId, real>, clusters: map<TxId, seq<TxId>>,
    run: seq<Package>, parts: seq<seq<Package>>)
  {
    && WellFormed(ContextOf(mempool)) && IsRun(ContextOf(mempool), run)
    && BlocksOf(ContextOf(mempool), run, parts, blocks, limit)
    && (limit >= 8000 ==> NobodyForgotten(ContextOf(mempool), run, blocks, limit))
    && RatesReported(mempool, run, rates)
    && ClustersReported(run, clusters)
    && (FeesSane(mempool) && FreeAlike(ContextOf(mempool)) ==> ReportedRatesFollow(mempool, Used(run), rates))
  }

  ghost predicate IsProjection(
    mempool: Mempool, limit: int, blocks: seq<seq<TxId>>, rates: map<TxId, real>, clusters: map<TxId, seq<TxId>>)
  {
    exists run, parts :: Projects(mempool, limit, blocks, rates, clusters, run, parts)
  }

  // ------------------------------------------------ what that is for the mempool

  /** The graph is that of the mempool: every field is as it was sent, packages are scored by
      fee per four weight units, and nobody starts with a rate. */
  ghost predicate Shows(ctx: Context, mempool: Mempool) {
    && ctx.txs.Keys == ctx.firstRate.Keys == mempool.Keys
    && (forall t {:trigger mempool[t]} {:trigger ctx.txs[t]} :: t in mempool ==>
         && ctx.txs[t].inputs == mempool[t].inputs && ctx.txs[t].order == t
         && ctx.txs[t].own.fee == mempool[t].fee && ctx.txs[t].own.sigops == mempool[t].sigops
         && ctx.txs[t].own.size == ctx.txs[t].weight == mempool[t].weight
         && ctx.firstRate[t] == 0.0)
    && PerSize(ctx.scoring, 4.0)
  }

  lemma ContextShows(mempool: Mempool)
    requires Plausible(mempool)
    ensures Shows(ContextOf(mempool), mempool)
  {
    FeeRateIsPerSize(4.0);
  }

  ghost function FeesOf(mempool: Mempool): TxId -> int {
    t => if t in mempool then mempool[t].fee else 0
  }

  ghost function WeightsOf(mempool: Mempool): TxId -> int {
    t => if t in mempool then mempool[t].weight else 0
  }

  ghost function SigopsOf(mempool: Mempool): TxId -> int {
    t => if t in mempool then mempool[t].sigops else 0
  }

  lemma SumsShow(ctx: Context, mempool: Mempool, ids: seq<TxId>)
    requires Shows(ctx, mempool)
    ensures Sum(ids, FeeIn(ctx.txs)) == Sum(ids, FeesOf(mempool))
    ensures Sum(ids, SizeIn(ctx.txs)) == Sum(ids, WeightIn(ctx.txs)) == Sum(ids, WeightsOf(mempool))
    ensures Sum(ids, SigopsIn(ctx.txs)) == Sum(ids, SigopsOf(mempool))
  {
    SumOfSame(ids, FeeIn(ctx.txs), FeesOf(mempool));
    SumOfSame(ids, SizeIn(ctx.txs), WeightsOf(mempool));
    SumOfSame(ids, WeightIn(ctx.txs), WeightsOf(mempool));
    SumOfSame(ids, SigopsIn(ctx.txs), SigopsOf(mempool));
  }

  /** What `t` of block `j` spends from is in an earlier block, before it in the same block, or
      before it in the cluster reported for both. */
  ghost predicate InputPlaced(
    blocks: seq<seq<TxId>>, clusters: map<TxId, seq<TxId>>, j: nat, t: TxId, p: TxId)
    requires j < |blocks|
  {
    || (exists i {:trigger blocks[i]} :: 0 <= i < j && p in blocks[i])
    || Before(blocks[j], p, t)
    || (p in blocks[j] && exists r {:trigger clusters[r]} :: r in clusters && Before(clusters[r], p, t))
  }

  ghost predicate InputsPlaced(mempool: Mempool, blocks: seq<seq<TxId>>, clusters: map<TxId, seq<TxId>>) {
    forall j, t, p {:trigger InputPlaced(blocks, clusters, j, t, p)} ::
      0 <= j < |blocks| && t in blocks[j] && t in mempool && p in mempool[t].inputs && p in mempool ==>
        InputPlaced(blocks, clusters, j, t, p)
  }

  lemma InputsArePlaced(
    mempool: Mempool, rank: map<TxId, nat>, run: seq<Package>, parts: seq<seq<Package>>, blocks: seq<seq<TxId>>,
    limit: int, clusters: map<TxId, seq<TxId>>)
    requires WellFormed(ContextOf(mempool)) && Ranks(ContextOf(mempool).txs, rank) && IsRun(ContextOf(mempool), run)
    requires BlocksOf(ContextOf(mempool), run, parts, blocks, limit) && ClustersReported(run, clusters)
    requires Shows(ContextOf(mempool), mempool)
    ensures InputsPlaced(mempool, blocks, clusters)
  {
    var ctx := ContextOf(mempool);
    forall j, t, p | 0 <= j < |blocks| && t in blocks[j] && t in mempool && p in mempool[t].inputs && p in mempool
      ensures InputPlaced(blocks, clusters, j, t, p)
    {
      assert ctx.txs[t].inputs == mempool[t].inputs;
      ParentIsAncestor(ctx.txs, p, t);
      var i := BlocksAreAncestorsFirst(ctx, run, parts, blocks, limit, j, t, p);
      if i == j {
        InSameBlock(ctx, rank, run, parts, blocks, limit, clusters, j, t, p);
      }
    }
  }

  /** The block holds what the packages of its part took. */
  lemma BlockIs(
    ctx: Context, run: seq<Package>, parts: seq<seq<Package>>, blocks: seq<seq<TxId>>, limit: int, j: nat)
    requires BlocksOf(ctx, run, parts, blocks, limit) && j < |blocks|
    ensures |parts| == |blocks| && run == Flat(parts) && blocks[j] == Taken(parts[j])
    ensures j < FULL_BLOCKS ==> BlockWithin(ctx, parts[j], limit)
  {
    assert parts[j] != [];
  }

  lemma PlaceInRun(run: seq<Package>, parts: seq<seq<Package>>, j: nat, t: TxId) returns (u: nat, k: nat)
    requires run == Flat(parts) && j < |parts| && t in Taken(parts[j])
    ensures u < |parts[j]| && t in parts[j][u].cluster
    ensures k == |Flat(parts[..j])| + u < |run| && run[k] == parts[j][u]
  {
    TakenElements(parts[j]);
    assert t in Elements(Taken(parts[j]));
    u :| 0 <= u < |parts[j]| && t in parts[j][u].cluster;
    FlatAt(parts, j, u);
    k := |Flat(parts[..j])| + u;
  }

  lemma InSameBlock(
    ctx: Context, rank: map<TxId, nat>, run: seq<Package>, parts: seq<seq<Package>>, blocks: seq<seq<TxId>>, limit: int,
    clusters: map<TxId, seq<TxId>>, j: nat, t: TxId, p: TxId)
    requires WellFormed(ctx) && Ranks(ctx.txs, rank) && IsRun(ctx, run) && BlocksOf(ctx, run, parts, blocks, limit)
    requires ClustersReported(run, clusters)
    requires j < |blocks| && t in blocks[j] && p in blocks[j] && p in Ancestors(ctx.txs, t)
    ensures InputPlaced(blocks, clusters, j, t, p)
  {
    BlockIs(ctx, run, parts, blocks, limit, j);
    var u, k := PlaceInRun(run, parts, j, t);
    var v, n := PlaceInRun(run, parts, j, p);
    var i := AncestorStands(ctx, rank, run, k, t, p);
    SamePlace(ctx, run, i, n, p);
    if v < u {
      TakenInOrder(parts[j], v, u, p, t);
    } else {
      assert Before(run[k].cluster, p, t) && |run[k].cluster| > 1;
      assert run[k].root in clusters && clusters[run[k].root] == run[k].cluster;
    }
  }

  /** Beside the reserved 4000 the block stays below the limit. */
  ghost predicate LeavesRoom(mempool: Mempool, block: seq<TxId>, limit: int) {
    Elements(block) <= mempool.Keys && 4000 + Sum(block, WeightsOf(mempool)) < limit
  }

  /** No package of these has more than 80000 sigops. */
  ghost predicate SigopsKept(mempool: Mempool, packages: seq<Package>) {
    forall k {:trigger packages[k]} :: 0 <= k < |packages| ==> Sum(packages[k].cluster, SigopsOf(mempool)) <= 80000
  }

  /** The first seven blocks keep the limits. */
  ghost predicate BlocksKept(mempool: Mempool, blocks: seq<seq<TxId>>, parts: seq<seq<Package>>, limit: int)
    requires |parts| == |blocks|
  {
    forall i {:trigger blocks[i]} :: 0 <= i < |blocks| && i < 7 ==>
      LeavesRoom(mempool, blocks[i], limit) && SigopsKept(mempool, parts[i])
  }

  lemma BlockLeavesRoom(
    mempool: Mempool, run: seq<Package>, parts: seq<seq<Package>>, blocks: seq<seq<TxId>>, limit: int, i: nat)
    requires WellFormed(ContextOf(mempool)) && IsRun(ContextOf(mempool), run)
    requires BlocksOf(ContextOf(mempool), run, parts, blocks, limit) && i < |blocks| && i < FULL_BLOCKS
    requires Shows(ContextOf(mempool), mempool)
    ensures LeavesRoom(mempool, blocks[i], limit) && SigopsKept(mempool, parts[i])
  {
    PlacedOnce(ContextOf(mempool), run, parts, blocks, limit);
    OneOfConcat(blocks, i);
    BlockIs(ContextOf(mempool), run, parts, blocks, limit, i);
    BlockAddsUp(mempool, blocks[i], parts[i], limit);
    PartKeepsSigops(mempool, run, parts, limit, i);
  }

  lemma BlockAddsUp(mempool: Mempool, block: seq<TxId>, part: seq<Package>, limit: int)
    requires BlockWithin(ContextOf(mempool), part, limit) && block == Taken(part) && Distinct(block)
    requires Shows(ContextOf(mempool), mempool)
    ensures LeavesRoom(mempool, block, limit)
  {
    TakenElements(part);
    MembersSum(ContextOf(mempool).txs, block);
    SumsShow(ContextOf(mempool), mempool, block);
  }

  lemma PartKeepsSigops(mempool: Mempool, run: seq<Package>, parts: seq<seq<Package>>, limit: int, i: nat)
    requires WellFormed(ContextOf(mempool)) && IsRun(ContextOf(mempool), run) && run == Flat(parts)
    requires i < |parts| && BlockWithin(ContextOf(mempool), parts[i], limit) && Shows(ContextOf(mempool), mempool)
    ensures SigopsKept(mempool, parts[i])
  {
    forall k | 0 <= k < |parts[i]| ensures Sum(parts[i][k].cluster, SigopsOf(mempool)) <= 80000 {
      var n := InRun(run, parts, i, k);
      OneKeepsSigops(mempool, run, n, parts[i], k, limit);
    }
  }

  lemma InRun(run: seq<Package>, parts: seq<seq<Package>>, i: nat, k: nat) returns (n: nat)
    requires run == Flat(parts) && i < |parts| && k < |parts[i]|
    ensures n < |run| && run[n] == parts[i][k]
  {
    FlatAt(parts, i, k);
    n := |Flat(parts[..i])| + k;
  }

  lemma OneKeepsSigops(mempool: Mempool, run: seq<Package>, n: nat, part: seq<Package>, k: nat, limit: int)
    requires WellFormed(ContextOf(mempool)) && IsRun(ContextOf(mempool), run) && Shows(ContextOf(mempool), mempool)
    requires n < |run| && k < |part| && run[n] == part[k] && BlockWithin(ContextOf(mempool), part, limit)
    ensures Sum(part[k].cluster, SigopsOf(mempool)) <= 80000
  {
    assert FewSigops(ContextOf(mempool), part[k]);
    ClusterSums(mempool, run, n);
  }

  lemma {:induction false} OneOfConcat(blocks: seq<seq<TxId>>, i: nat)
    requires i < |blocks| && Distinct(Concat(blocks))
    ensures Distinct(blocks[i])
  {
    var init, last := blocks[..|blocks|-1], blocks[|blocks|-1];
    var all, n := Concat(blocks), |Concat(init)|;
    assert all == Concat(init) + last;
    if i < |init| {
      assert forall x :: 0 <= x < n ==> Concat(init)[x] == all[x];
      OneOfConcat(init, i);
    } else {
      assert forall x :: 0 <= x < |last| ==> last[x] == all[n + x];
    }
  }

  /** The members of a package of the run, added up over the mempool. */
  lemma ClusterSums(mempool: Mempool, run: seq<Package>, k: nat)
    requires WellFormed(ContextOf(mempool)) && IsRun(ContextOf(mempool), run) && k < |run|
    requires Shows(ContextOf(mempool), mempool)
    ensures Distinct(run[k].cluster) && Elements(run[k].cluster) == Members(run[k]) <= mempool.Keys
    ensures TotalOf(ContextOf(mempool).txs, Members(run[k])) == Totals(Sum(run[k].cluster, FeesOf(mempool)),
      Sum(run[k].cluster, WeightsOf(mempool)), Sum(run[k].cluster, SigopsOf(mempool)))
  {
    var ctx := ContextOf(mempool);
    assert FollowsAt(ctx, run, k);
    assert Elements(run[k].cluster) == Members(run[k]);
    MembersSum(ctx.txs, run[k].cluster);
    SumsShow(ctx, mempool, run[k].cluster);
  }

  /** No package goes at more than its members pay for their weight. */
  ghost predicate PaysItsRate(mempool: Mempool, p: Package) {
    p.rate * Sum(p.cluster, WeightsOf(mempool)) as real <= 4.0 * Sum(p.cluster, FeesOf(mempool)) as real
  }

  ghost predicate AllPay(mempool: Mempool, run: seq<Package>) {
    forall k {:trigger run[k]} :: 0 <= k < |run| ==> PaysItsRate(mempool, run[k])
  }

  lemma PackagesPay(mempool: Mempool, rank: map<TxId, nat>, run: seq<Package>)
    requires WellFormed(ContextOf(mempool)) && Ranks(ContextOf(mempool).txs, rank) && IsRun(ContextOf(mempool), run)
    requires Shows(ContextOf(mempool), mempool)
    ensures AllFair(ContextOf(mempool), run)
    ensures AllPay(mempool, run)
  {
    var ctx := ContextOf(mempool);
    RunIsFair(ctx, rank, run);
    forall k | 0 <= k < |run| ensures PaysItsRate(mempool, run[k]) {
      PackagePays(ctx, rank, run, k, 4.0);
      SumsShow(ctx, mempool, run[k].cluster);
    }
  }

  /** Together with whatever is left above it, `t` would go over a limit of an empty block. */
  ghost predicate FitsNoBlock(mempool: Mempool, placed: set<TxId>, limit: int, t: TxId) {
    exists left: seq<TxId> {:trigger Distinct(left)} ::
      && Distinct(left) && Elements(left) == {t} + (Ancestors(ContextOf(mempool).txs, t) - placed)
      && (4000 + Sum(left, WeightsOf(mempool)) >= limit || Sum(left, SigopsOf(mempool)) > 80000)
  }

  lemma FitsNoBlockIsTooBig(mempool: Mempool, rank: map<TxId, nat>, run: seq<Package>, limit: int, t: TxId)
    requires Shows(ContextOf(mempool), mempool) && Ranks(ContextOf(mempool).txs, rank) && t in mempool
    ensures FitsNoBlock(mempool, Used(run), limit, t) <==> TooBig(ContextOf(mempool), run, limit, t)
  {
    var ctx := ContextOf(mempool);
    var rest := Ancestors(ctx.txs, t) - Used(run);
    NotOwnAncestor(ctx.txs, rank, t);
    forall left: seq<TxId> | Distinct(left) && Elements(left) == {t} + rest
      ensures PackageTotals(ctx, Used(run), t).size == Sum(left, WeightsOf(mempool))
      ensures PackageTotals(ctx, Used(run), t).sigops == Sum(left, SigopsOf(mempool))
    {
      assert Elements(left) - {t} == rest;
      TotalWithout(ctx.txs, Elements(left), t);
      MembersSum(ctx.txs, left);
      SumsShow(ctx, mempool, left);
    }
    var left := ListOf({t} + rest);
    assert Distinct(left) && Elements(left) == {t} + rest;
  }

  lemma ListOf(s: set<TxId>) returns (ids: seq<TxId>)
    ensures Distinct(ids) && Elements(ids) == s
  {
    ids := [];
    if s != {} {
      var x :| x in s;
      var rest := ListOf(s - {x});
      OneListed(rest, x);
      ids := rest + [x];
    }
  }

  lemma LeftOutAre(
    mempool: Mempool, rank: map<TxId, nat>, run: seq<Package>, parts: seq<seq<Package>>, blocks: seq<seq<TxId>>,
    limit: int)
    requires WellFormed(ContextOf(mempool)) && IsRun(ContextOf(mempool), run) && Ranks(ContextOf(mempool).txs, rank)
    requires BlocksOf(ContextOf(mempool), run, parts, blocks, limit) && Shows(ContextOf(mempool), mempool)
    requires NobodyForgotten(ContextOf(mempool), run, blocks, limit)
    ensures LeftOutExactly(mempool, limit, blocks)
  {
    PlacedOnce(ContextOf(mempool), run, parts, blocks, limit);
    forall t | t in mempool
      ensures t !in Elements(Concat(blocks)) <==>
        |blocks| < 7 && FitsNoBlock(mempool, Elements(Concat(blocks)), limit, t)
    {
      FitsNoBlockIsTooBig(mempool, rank, run, limit, t);
    }
  }

  /** Fewer than seven blocks leave out exactly those that fit no block, and others nobody. */
  ghost predicate LeftOutExactly(mempool: Mempool, limit: int, blocks: seq<seq<TxId>>) {
    var placed := Elements(Concat(blocks));
    forall t {:trigger FitsNoBlock(mempool, placed, limit, t)} :: t in mempool ==>
      (t !in placed <==> |blocks| < 7 && FitsNoBlock(mempool, placed, limit, t))
  }

  /** Projects the mempool into at most eight blocks. */
  method MakeBlockTemplates(mempool: Mempool, limit: int)
    returns (blocks: seq<seq<TxId>>, rates: map<TxId, real>, clusters: map<TxId, seq<TxId>>,
             ghost run: seq<Package>, ghost parts: seq<seq<Package>>)
    requires Plausible(mempool) && Acyclic(mempool)
    ensures Projects(mempool, limit, blocks, rates, clusters, run, parts)
    ensures IsProjection(mempool, limit, blocks, rates, clusters)
    ensures |blocks| <= 8 && Distinct(Concat(blocks)) && Elements(Concat(blocks)) <= mempool.Keys
    ensures Shows(ContextOf(mempool), mempool) && InputsPlaced(mempool, blocks, clusters)
    ensures |parts| == |blocks| && BlocksKept(mempool, blocks, parts, limit)
    ensures AllFair(ContextOf(mempool), run) && AllPay(mempool, run)
    ensures limit >= 8000 ==> LeftOutExactly(mempool, limit, blocks)
    ensures FeesSane(mempool) && FreeAlike(ContextOf(mempool)) ==>
      ReportedRatesFollow(mempool, Elements(Concat(blocks)), rates)
  {
    ContextIsWellFormed(mempool);
    ghost var rank :| Ranks(ContextOf(mempool).txs, rank);
    var audit := new AuditPool(ContextOf(mempool), rank);
    blocks, rates, clusters, run, parts := BuildBlocks(audit, mempool, limit);
    PlacedOnce(ContextOf(mempool), run, parts, blocks, limit);
    UsedInPool(ContextOf(mempool), run);
    ContextShows(mempool);
    InputsArePlaced(mempool, rank, run, parts, blocks, limit, clusters);
    PackagesPay(mempool, rank, run);
    BlocksLeaveRoom(mempool, run, parts, blocks, limit);
    if limit >= 8000 {
      LeftOutAre(mempool, rank, run, parts, blocks, limit);
    }
  }

  lemma BlocksLeaveRoom(
    mempool: Mempool, run: seq<Package>, parts: seq<seq<Package>>, blocks: seq<seq<TxId>>, limit: int)
    requires WellFormed(ContextOf(mempool)) && IsRun(ContextOf(mempool), run)
    requires BlocksOf(ContextOf(mempool), run, parts, blocks, limit) && Shows(ContextOf(mempool), mempool)
    ensures |parts| == |blocks| && BlocksKept(mempool, blocks, parts, limit)
  {
    forall i {:trigger blocks[i]} | 0 <= i < |blocks| && i < 7
      ensures LeavesRoom(mempool, blocks[i], limit) && SigopsKept(mempool, parts[i])
    {
      BlockLeavesRoom(mempool, run, parts, blocks, limit, i);
    }
  }

  lemma {:induction false} TakenElements(packages: seq<Package>)
    ensures Elements(Taken(packages)) == Used(packages)
  {
    if packages == [] {
      assert Used(packages) == {};
    } else {
      var init, last := packages[..|packages|-1], packages[|packages|-1];
      TakenElements(init);
      ReversedIsSame(last.cluster);
      SplitLast(packages);
      UsedOfConcat(init, [last]);
      UsedOfOne(last);
      assert Elements(Taken(packages)) == Elements(Taken(init)) + Elements(Reversed(last.cluster));
      assert Elements(last.cluster) == Members(last);
    }
  }

  /** The worker, its pool set up. */
  method BuildBlocks(audit: AuditPool, mempool: Mempool, limit: int)
    returns (blocks: seq<seq<TxId>>, rates: map<TxId, real>, clusters: map<TxId, seq<TxId>>,
             ghost run: seq<Package>, ghost parts: seq<seq<Package>>)
    requires Plausible(mempool) && audit.ctx == ContextOf(mempool) && Ranks(audit.ctx.txs, audit.rank)
    requires WellFormed(audit.ctx) && Building(audit.ctx, audit.auditPool, {}) && audit.run == []
    requires audit.auditPool == map t | t in audit.ctx.txs ::
      AuditTx(false, {}, {}, NOTHING, 0.0, audit.ctx.firstRate[t], audit.ctx.firstRate[t], [], false)
    modifies audit
    ensures Projects(mempool, limit, blocks, rates, clusters, run, parts)
  {
    ContextIsWellFormed(mempool);
    var mempoolArray := ListPool(mempool);
    audit.SetAllRelatives(mempoolArray);
    mempoolArray := SortPool(audit, mempoolArray);
    var st;
    ghost var filled, current;
    st, filled, current := Pack(audit, mempoolArray, limit);
    run := audit.run;
    LastBlockJoins(audit.ctx, run, st, filled, current, limit);
    if limit >= 8000 {
      EveryoneAccountedFor(audit.ctx, run, st, filled, current, limit);
    }
    blocks := st.blocks;
    parts := filled;
    if st.transactions != [] {
      blocks := blocks + [st.transactions];
      parts := parts + [current];
    }
    rates := ReadRates(audit, mempool);
    clusters := ReadClusters(audit);
    if FeesSane(mempool) && FreeAlike(ContextOf(mempool)) {
      ReportedFollow(mempool, run, rates);
    }
  }

  method SortPool(audit: AuditPool, order: seq<TxId>) returns (sorted: seq<TxId>)
    requires audit.Valid() && audit.run == [] && Elements(order) == audit.ctx.txs.Keys
    ensures Elements(sorted) == audit.ctx.txs.Keys && InScoreOrder(audit.ctx, sorted)
    ensures Distinct(order) ==> Distinct(sorted)
  {
    SameAsKeys(audit.ctx, audit.auditPool, order);
    sorted := SortForSelection(audit, order);
    SortedByFirstScore(audit.ctx, audit.auditPool, sorted);
  }

  lemma SortedByFirstScore(ctx: Context, book: Book, sorted: seq<TxId>)
    requires Accounted(ctx, book, Used([])) && AllIn(ctx, book, sorted) && PrioritySorted(ctx, book, sorted)
    ensures InScoreOrder(ctx, sorted)
  {
    assert Used([]) == {};
    forall i, j | 0 <= i < j < |sorted| ensures FirstScore(ctx, sorted[j]) <= FirstScore(ctx, sorted[i]) {
      assert Precedes(ctx, book, sorted[i], sorted[j]);
      assert AccountedAt(ctx, book[sorted[i]], {}, sorted[i]) && AccountedAt(ctx, book[sorted[j]], {}, sorted[j]);
    }
  }

  /** A rate of zero counts as none. */
  function RateSent(tx: CompactTx, rate: real): real {
    if rate != 0.0 then rate else tx.feePerVsize
  }

  /** Rates are sent for those whose rate changed. */
  ghost predicate RatesReported(mempool: Mempool, run: seq<Package>, rates: map<TxId, real>) {
    && rates.Keys <= mempool.Keys && rates.Keys <= Used(run)
    && forall k, t {:trigger t in run[k].cluster} :: 0 <= k < |run| && t in run[k].cluster && t in mempool ==>
         && (t in rates <==> mempool[t].effectiveFeePerVsize != run[k].rate)
         && (t in rates ==> rates[t] == if run[k].rate == 0.0 then mempool[t].feePerVsize else run[k].rate)
  }

  /** Packages of several transactions are sent under their roots. */
  ghost predicate ClustersReported(run: seq<Package>, clusters: map<TxId, seq<TxId>>) {
    && (forall k {:trigger run[k]} :: 0 <= k < |run| && |run[k].cluster| > 1 ==>
          run[k].root in clusters && clusters[run[k].root] == run[k].cluster)
    && forall t {:trigger t in clusters} :: t in clusters ==>
         exists k :: 0 <= k < |run| && run[k].root == t && |run[k].cluster| > 1
  }

  method ReadRates(audit: AuditPool, mempool: Mempool) returns (rates: map<TxId, real>)
    requires audit.Valid() && audit.ctx == ContextOf(mempool)
    ensures RatesReported(mempool, audit.run, rates)
  {
    rates := map[];
    var rest := mempool.Keys;
    while rest != {}
      invariant rest <= mempool.Keys
      invariant rates.Keys <= mempool.Keys - rest
      invariant forall t {:trigger t in rates} :: t in mempool.Keys - rest ==>
        var entry := audit.auditPool[t];
        && (t in rates <==> entry.used && mempool[t].effectiveFeePerVsize != entry.effectiveRate)
        && (t in rates ==> rates[t] == RateSent(mempool[t], entry.effectiveRate))
      decreases |rest|
    {
      var t :| t in rest;
      var entry := audit.auditPool[t];
      if entry.used && mempool[t].effectiveFeePerVsize != entry.effectiveRate {
        rates := rates[t := RateSent(mempool[t], entry.effectiveRate)];
      }
      rest := rest - {t};
    }
  }

  predicate IsClusterRoot(entry: AuditTx, t: TxId) {
    entry.used && |entry.cluster| > 1 && entry.cluster[|entry.cluster|-1] == t
  }

  method ReadClusters(audit: AuditPool) returns (clusters: map<TxId, seq<TxId>>)
    requires audit.Valid()
    ensures ClustersReported(audit.run, clusters)
  {
    clusters := map[];
    var rest := audit.auditPool.Keys;
    while rest != {}
      invariant rest <= audit.auditPool.Keys
      invariant clusters.Keys <= audit.auditPool.Keys - rest
      invariant forall t {:trigger t in clusters} :: t in audit.auditPool.Keys - rest ==>
        && (t in clusters <==> IsClusterRoot(audit.auditPool[t], t))
        && (t in clusters ==> clusters[t] == audit.auditPool[t].cluster)
      decreases |rest|
    {
      var t :| t in rest;
      if IsClusterRoot(audit.auditPool[t], t) {
        clusters := clusters[t := audit.auditPool[t].cluster];
      }
      rest := rest - {t};
    }
    RootsAreReported(audit.ctx, audit.auditPool, audit.run, clusters);
  }

  lemma RootIsMarked(ctx: Context, book: Book, run: seq<Package>, k: nat)
    requires WellFormed(ctx) && IsRun(ctx, run) && MarksSettled(ctx, book, run) && k < |run|
    ensures run[k].cluster != [] && run[k].cluster[|run[k].cluster|-1] == run[k].root
    ensures run[k].root in book && book[run[k].root].used && book[run[k].root].cluster == run[k].cluster
  {
    assert FollowsAt(ctx, run, k);
    assert run[k].root in run[k].cluster;
    MemberIsMarked(ctx, book, run, k, run[k].root);
  }

  lemma MemberIsMarked(ctx: Context, book: Book, run: seq<Package>, k: nat, t: TxId)
    requires MarksSettled(ctx, book, run) && k < |run| && t in run[k].cluster
    ensures t in book && book[t].used && book[t].cluster == run[k].cluster
  {
  }

  lemma UsedIsMember(ctx: Context, book: Book, run: seq<Package>, t: TxId) returns (k: nat)
    requires MarksSettled(ctx, book, run) && t in book && book[t].used
    ensures k < |run| && t in run[k].cluster
  {
    assert t in Used(run);
    var j :| 0 <= j < |run| && t in run[j].cluster;
    k := j;
  }

  lemma RootsAreReported(ctx: Context, book: Book, run: seq<Package>, clusters: map<TxId, seq<TxId>>)
    requires WellFormed(ctx) && IsRun(ctx, run) && MarksSettled(ctx, book, run) && clusters.Keys <= book.Keys
    requires forall t {:trigger t in clusters} :: t in book ==>
      && (t in clusters <==> IsClusterRoot(book[t], t))
      && (t in clusters ==> clusters[t] == book[t].cluster)
    ensures ClustersReported(run, clusters)
  {
    forall k | 0 <= k < |run| && |run[k].cluster| > 1
      ensures run[k].root in clusters && clusters[run[k].root] == run[k].cluster
    {
      RootIsMarked(ctx, book, run, k);
    }
    forall t | t in clusters
      ensures exists k :: 0 <= k < |run| && run[k].root == t && |run[k].cluster| > 1
    {
      var k := UsedIsMember(ctx, book, run, t);
      MemberIsMarked(ctx, book, run, k, t);
      RootIsMarked(ctx, book, run, k);
      assert run[k].root == t;
    }
  }

  // ------------------------------------------------ what the blocks hold together

  function Concat(blocks: seq<seq<TxId>>): seq<TxId> {
    if blocks == [] then [] else Concat(blocks[..|blocks|-1]) + blocks[|blocks|-1]
  }

  lemma {:induction false} TakenOfConcat(a: seq<Package>, b: seq<Package>)
    ensures Taken(a + b) == Taken(a) + Taken(b)
  {
    if b == [] {
      assert a + b == a;
    } else {
      TakenOfConcat(a, b[..|b|-1]);
      LastOfConcat(a, b);
      ConcatThrice(Taken(a), Taken(b[..|b|-1]), Reversed(b[|b|-1].cluster));
    }
  }

  lemma {:induction false} BlocksConcatenate(parts: seq<seq<Package>>, blocks: seq<seq<TxId>>)
    requires |parts| == |blocks| && forall i :: 0 <= i < |parts| ==> blocks[i] == Taken(parts[i])
    ensures Concat(blocks) == Taken(Flat(parts))
  {
    if parts != [] {
      BlocksConcatenate(parts[..|parts|-1], blocks[..|blocks|-1]);
      TakenOfConcat(Flat(parts[..|parts|-1]), parts[|parts|-1]);
    }
  }

  /** No transaction is placed twice, within a block or across blocks, and what is placed
      is what the run used. */
  lemma PlacedOnce(
    ctx: Context, run: seq<Package>, parts: seq<seq<Package>>, blocks: seq<seq<TxId>>, limit: int)
    requires WellFormed(ctx) && IsRun(ctx, run) && BlocksOf(ctx, run, parts, blocks, limit)
    ensures Distinct(Concat(blocks)) && Elements(Concat(blocks)) == Used(run)
  {
    BlocksConcatenate(parts, blocks);
    TakenIsUsed(ctx, run);
  }

  lemma {:induction false} FlatPrefix(parts: seq<seq<Package>>, j: nat)
    requires j <= |parts|
    ensures |Flat(parts[..j])| <= |Flat(parts)| && Flat(parts[..j]) == Flat(parts)[..|Flat(parts[..j])|]
  {
    if j == |parts| {
      assert parts[..j] == parts;
    } else {
      var before := parts[..|parts|-1];
      FlatPrefix(before, j);
      assert before[..j] == parts[..j];
    }
  }

  lemma {:induction false} FlatUsed(parts: seq<seq<Package>>, t: TxId) returns (i: nat)
    requires t in Used(Flat(parts))
    ensures i < |parts| && t in Used(parts[i])
  {
    assert Used([]) == {};
    var before := parts[..|parts|-1];
    UsedOfConcat(Flat(before), parts[|parts|-1]);
    if t in Used(parts[|parts|-1]) {
      i := |parts| - 1;
    } else {
      i := FlatUsed(before, t);
    }
  }

  lemma {:induction false} UsedFlat(parts: seq<seq<Package>>, i: nat, t: TxId)
    requires i < |parts| && t in Used(parts[i])
    ensures t in Used(Flat(parts))
  {
    var before := parts[..|parts|-1];
    UsedOfConcat(Flat(before), parts[|parts|-1]);
    if i < |before| {
      UsedFlat(before, i, t);
    }
  }

  lemma PartsAreAncestorsFirst(
    ctx: Context, run: seq<Package>, parts: seq<seq<Package>>, j: nat, t: TxId, a: TxId) returns (i: nat)
    requires WellFormed(ctx) && IsRun(ctx, run) && run == Flat(parts)
    requires j < |parts| && t in Used(parts[j]) && a in Ancestors(ctx.txs, t)
    ensures i <= j && a in Used(parts[i])
  {
    var upto := parts[..j+1];
    FlatPrefix(parts, j + 1);
    RunPrefix(ctx, run, |Flat(upto)|);
    UsedFlat(upto, j, t);
    UsedIsClosed(ctx, Flat(upto), a, t);
    i := FlatUsed(upto, a);
  }

  /** A transaction never comes in an earlier block than an ancestor of it. */
  lemma BlocksAreAncestorsFirst(
    ctx: Context, run: seq<Package>, parts: seq<seq<Package>>, blocks: seq<seq<TxId>>, limit: int, j: nat, t: TxId,
    a: TxId)
    returns (i: nat)
    requires WellFormed(ctx) && IsRun(ctx, run) && BlocksOf(ctx, run, parts, blocks, limit)
    requires j < |blocks| && t in blocks[j] && a in Ancestors(ctx.txs, t)
    ensures i <= j && a in blocks[i]
  {
    assert blocks[j] == Taken(parts[j]);
    TakenElements(parts[j]);
    assert t in Elements(blocks[j]);
    i := PartsAreAncestorsFirst(ctx, run, parts, j, t, a);
    assert blocks[i] == Taken(parts[i]);
    TakenElements(parts[i]);
    assert a in Elements(blocks[i]);
  }
}
