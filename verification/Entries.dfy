/** How often a transaction can be waiting to be tried: the array, the heap and the overflow
    list may hold it at once, but a further entry is only made when an ancestor is used. */
module Entries {
  import opened Basics
  import opened Ancestry
  import opened Packages
  import opened Repairs
  import opened Template
  import opened BlockRules
  import opened Packing

  /** Everything waiting: in the slots left, in the heap and in the overflow list. */
  function EntriesOf(st: Packing): multiset<TxId> {
    multiset(if st.top <= |st.mempoolArray| then st.mempoolArray[st.top..] else []) + st.heap + multiset(st.overflow)
  }

  lemma FewerEntries(ctx: Context, used: set<TxId>, entries: multiset<TxId>, fewer: multiset<TxId>)
    requires FewEntries(ctx, used, entries) && fewer <= entries
    ensures FewEntries(ctx, used, fewer)
  {
    forall t | t in ctx.txs ensures FewOf(ctx, used, fewer, t) {
      assert FewOf(ctx, used, entries, t);
    }
  }

  lemma NoEntryTwice(ctx: Context, mempoolArray: seq<TxId>)
    requires Distinct(mempoolArray)
    ensures FewEntries(ctx, {}, multiset(mempoolArray))
  {
    DistinctCounts(mempoolArray);
  }

  /** Taking a package makes one more entry for each of its descendants at most. */
  lemma EntriesAfterCommit(ctx: Context, used: set<TxId>, taken: set<TxId>, entries: multiset<TxId>)
    requires FewEntries(ctx, used, entries) && used !! taken
    ensures FewEntries(ctx, used + taken, entries + multiset(BelowAny(ctx.txs, taken)))
  {
    var more := entries + multiset(BelowAny(ctx.txs, taken));
    forall t | t in ctx.txs ensures FewOf(ctx, used + taken, more, t) {
      var above := Ancestors(ctx.txs, t);
      assert FewOf(ctx, used, entries, t);
      assert above * (used + taken) == above * used + above * taken;
      assert (above * used) !! (above * taken);
      if t in BelowAny(ctx.txs, taken) {
        var a :| a in taken && a in above;
        assert a in above * taken;
      }
    }
  }

  lemma SlotTaken(st: Packing)
    requires st.top < |st.mempoolArray|
    ensures EntriesOf(st) == EntriesOf(st.(top := st.top + 1)) + multiset{st.mempoolArray[st.top]}
  {
    assert st.mempoolArray[st.top..] == [st.mempoolArray[st.top]] + st.mempoolArray[st.top+1..];
  }

  lemma HeadPopped(st: Packing, t: TxId)
    requires t in st.heap
    ensures EntriesOf(st) == EntriesOf(st.(heap := st.heap - multiset{t}, node := st.node - {t})) + multiset{t}
  {
  }

  lemma EntrySetAside(st: Packing, t: TxId)
    ensures EntriesOf(st.(overflow := st.overflow + [t], failures := st.failures + 1)) == EntriesOf(st) + multiset{t}
  {
  }

  /** Going back into the heap or a slot changes nothing. */
  lemma BackToHeap(st: Packing, rest: seq<TxId>, t: TxId)
    ensures EntriesOf(st.(overflow := rest + [t])) ==
      EntriesOf(st.(node := st.node + {t}, heap := st.heap + multiset{t}, overflow := rest))
  {
  }

  lemma BackToSlot(st: Packing, rest: seq<TxId>, t: TxId)
    requires 0 < st.top <= |st.mempoolArray|
    ensures EntriesOf(st.(overflow := rest + [t])) ==
      EntriesOf(st.(mempoolArray := st.mempoolArray[st.top - 1 := t], top := st.top - 1, overflow := rest))
  {
    assert st.mempoolArray[st.top - 1 := t][st.top - 1..] == [t] + st.mempoolArray[st.top..];
  }

  lemma TriesAreMany(
    ctx: Context, run: seq<Package>, filled: seq<seq<Package>>, current: seq<Package>, limit: int, st: Packing, n: nat)
    requires TriesKnown(ctx, filled, current, limit, st.overflow, st.failures) && current != [] && st.failures > n
    requires FewEntries(ctx, Used(run), EntriesOf(st)) && run == Flat(filled) + current
    ensures ManyTries(ctx, Flat(filled), current, limit, n)
  {
    var overflow, k := st.overflow, |st.overflow| - st.failures;
    var tried := overflow[k..];
    forall t | t in tried ensures DoesNotFit(ctx, Flat(filled), current, limit, t) {
      var i :| 0 <= i < |tried| && tried[i] == t;
      assert overflow[k + i] == t;
    }
    TailIsWaiting(st, k);
    FewerEntries(ctx, Used(run), EntriesOf(st), multiset(tried));
  }

  lemma TailIsWaiting(st: Packing, k: nat)
    requires k <= |st.overflow|
    ensures multiset(st.overflow[k..]) <= EntriesOf(st)
  {
    assert st.overflow == st.overflow[..k] + st.overflow[k..];
  }

  /** At first only the array has entries. */
  lemma FirstEntries(ctx: Context, st: Packing)
    requires st.top == 0 && st.heap == multiset{} && st.overflow == [] && Distinct(st.mempoolArray)
    ensures FewEntries(ctx, {}, EntriesOf(st))
  {
    assert st.mempoolArray[0..] == st.mempoolArray && EntriesOf(st) == multiset(st.mempoolArray);
    NoEntryTwice(ctx, st.mempoolArray);
  }
}
