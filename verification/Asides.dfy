/** What is known of the transactions a template builder has set aside because their packages
    did not fit: why each is out of the queues, and that the recent failures are all different. */
module Asides {
  import opened Basics
  import opened Ancestry
  import opened Packages
  import opened Repairs
  import opened Queues
  import opened Weights
  import opened MiniMiner

  /** The local variables of the selection loop. */
  datatype Selection = Selection(
    mempoolArray: seq<TxId>,
    modified: seq<TxId>,
    isModified: set<TxId>,
    overflow: seq<TxId>,
    transactions: seq<TxId>,
    blockWeight: int,
    blockSigops: int,
    failures: nat)

  function QueuedIn(st: Selection): set<TxId> {
    Queued(st.mempoolArray, st.modified, st.isModified)
  }

  ghost predicate PassedOverAt(ctx: Context, run: seq<Package>, lim: Limits, t: TxId, j: nat) {
    && j <= |run| && !Fits(ctx, run[..j], t, lim.weight, lim.sigops)
    && (Used(run[..j]) !! Ancestors(ctx.txs, t) ==> Used(run) !! Ancestors(ctx.txs, t))
  }

  /** The package of `t` did not fit at some point, and `t` has not been queued again since:
      that happens when, for the first time, an ancestor of it is taken. */
  ghost predicate PassedOver(ctx: Context, run: seq<Package>, lim: Limits, t: TxId) {
    exists j :: PassedOverAt(ctx, run, lim, t, j)
  }

  // ------------------------------------------------------------- the invariant

  /** The queues hold nobody twice, and flagged are those with an ancestor taken. */
  ghost predicate QueuesInOrder(ctx: Context, run: seq<Package>, st: Selection) {
    && Distinct(st.mempoolArray) && Distinct(st.modified)
    && st.isModified == BelowAny(ctx.txs, Used(run)) && Elements(st.modified) <= st.isModified
  }

  ghost predicate OverflowKnown(ctx: Context, run: seq<Package>, done: set<TxId>, st: Selection, lim: Limits) {
    forall t {:trigger PassedOver(ctx, run, lim, t)} :: t in st.overflow && t !in done && t !in QueuedIn(st) ==>
      PassedOver(ctx, run, lim, t)
  }

  /** Who has been set aside since the last package was taken. */
  function Recent(st: Selection): seq<TxId>
    requires st.failures <= |st.overflow|
  {
    st.overflow[|st.overflow| - st.failures..]
  }

  ghost predicate StillFails(ctx: Context, run: seq<Package>, lim: Limits, t: TxId) {
    t in ctx.txs && t !in Used(run) && !Fits(ctx, run, t, lim.weight, lim.sigops)
  }

  ghost predicate RecentFailed(ctx: Context, run: seq<Package>, done: set<TxId>, st: Selection, lim: Limits) {
    && st.failures <= |st.overflow| && Distinct(Recent(st))
    && forall t {:trigger StillFails(ctx, run, lim, t)} :: t in Recent(st) ==>
         StillFails(ctx, run, lim, t) && t !in done && t !in QueuedIn(st)
  }

  ghost predicate AsideKnown(ctx: Context, run: seq<Package>, done: set<TxId>, st: Selection, lim: Limits) {
    QueuesInOrder(ctx, run, st) && OverflowKnown(ctx, run, done, st, lim) && RecentFailed(ctx, run, done, st, lim)
  }

  lemma AsideBegins(ctx: Context, mempoolArray: seq<TxId>, lim: Limits)
    requires Distinct(mempoolArray)
    ensures AsideKnown(ctx, [], {}, Selection(mempoolArray, [], {}, [], [], 0, 0, 0), lim)
  {
    assert Used([]) == {};
  }

  lemma TailOfDistinct(s: seq<TxId>)
    requires Distinct(s) && s != []
    ensures Distinct(s[1..]) && Elements(s[1..]) == Elements(s) - {s[0]}
  {
    forall t | t in Elements(s) - {s[0]} ensures t in Elements(s[1..]) {
      var i :| 0 <= i < |s| && s[i] == t;
      assert s[1..][i-1] == t;
    }
  }

  lemma QueueWithoutHead(st: Selection)
    requires Distinct(st.mempoolArray) && Elements(st.modified) <= st.isModified && st.mempoolArray != []
    ensures var head, st' := st.mempoolArray[0], st.(mempoolArray := st.mempoolArray[1..]);
      QueuedIn(st') == if head in st.isModified then QueuedIn(st) else QueuedIn(st) - {head}
  {
    TailOfDistinct(st.mempoolArray);
  }

  /** A used or flagged head of the array goes. */
  lemma ArrayHeadGoes(ctx: Context, run: seq<Package>, done: set<TxId>, st: Selection, lim: Limits)
    requires AsideKnown(ctx, run, done, st, lim)
    requires st.mempoolArray != [] && st.mempoolArray[0] in done + st.isModified
    ensures AsideKnown(ctx, run, done, st.(mempoolArray := st.mempoolArray[1..]), lim)
  {
    TailOfDistinct(st.mempoolArray);
    QueueWithoutHead(st);
    var st' := st.(mempoolArray := st.mempoolArray[1..]);
    assert Recent(st') == Recent(st);
    forall t | t in Recent(st')
      ensures StillFails(ctx, run, lim, t) && t !in done && t !in QueuedIn(st')
    {
      assert t in Recent(st) && StillFails(ctx, run, lim, t);
      assert t !in QueuedIn(st);
    }
  }

  lemma ModifiedHeadGoesToo(
    ctx: Context, run: seq<Package>, done: set<TxId>, st: Selection, lim: Limits)
    requires AsideKnown(ctx, run, done, st, lim)
    requires st.modified != [] && st.modified[0] in done
    ensures AsideKnown(ctx, run, done, st.(modified := st.modified[1..]), lim)
    ensures QueuedIn(st.(modified := st.modified[1..])) == QueuedIn(st) - {st.modified[0]}
  {
    TailOfDistinct(st.modified);
    assert st.modified[0] in Elements(st.modified);
    var st', head := st.(modified := st.modified[1..]), st.modified[0];
    assert QueuedIn(st') == QueuedIn(st) - {head} by {
      assert head in st.isModified;
    }
    assert Recent(st') == Recent(st);
    forall t | t in Recent(st')
      ensures StillFails(ctx, run, lim, t) && t !in done && t !in QueuedIn(st')
    {
      assert t in Recent(st) && StillFails(ctx, run, lim, t);
      assert t !in QueuedIn(st);
    }
  }

  /** Somebody still queued is picked. */
  lemma OnePicked(ctx: Context, run: seq<Package>, st: Selection, lim: Limits, next: TxId)
    requires AsideKnown(ctx, run, Used(run), st, lim) && next in QueuedIn(st)
    ensures AsideKnown(ctx, run, Used(run) + {next}, st, lim)
  {
    forall t | t in Recent(st) ensures StillFails(ctx, run, lim, t) && t !in Used(run) + {next} {
      assert StillFails(ctx, run, lim, t);
    }
  }

  lemma OneSetAside(ctx: Context, run: seq<Package>, st: Selection, lim: Limits, next: TxId)
    requires AsideKnown(ctx, run, Used(run) + {next}, st, lim) && next !in QueuedIn(st)
    requires StillFails(ctx, run, lim, next)
    ensures AsideKnown(ctx, run, Used(run), st.(overflow := st.overflow + [next], failures := st.failures + 1), lim)
  {
    var st' := st.(overflow := st.overflow + [next], failures := st.failures + 1);
    assert Recent(st') == Recent(st) + [next] && QueuedIn(st') == QueuedIn(st);
    assert next !in Elements(Recent(st));
    DistinctConcat(Recent(st), [next]);
    forall t | t in Recent(st')
      ensures StillFails(ctx, run, lim, t) && t !in Used(run) && t !in QueuedIn(st')
    {
      assert t != next ==> t in Recent(st) && StillFails(ctx, run, lim, t);
    }
    forall t | t in st'.overflow && t !in Used(run) && t !in QueuedIn(st')
      ensures PassedOver(ctx, run, lim, t)
    {
      if t == next {
        assert run[..|run|] == run;
        assert PassedOverAt(ctx, run, lim, next, |run|);
      }
    }
  }

  /** Taking a package leaves those passed over out of the queues, except the ones queued again. */
  lemma StillPassedOver(ctx: Context, run: seq<Package>, p: Package, lim: Limits, t: TxId)
    requires PassedOver(ctx, run, lim, t) && Used(run + [p]) == Used(run) + Members(p)
    requires t in BelowAny(ctx.txs, Used(run)) || t !in BelowAny(ctx.txs, Members(p))
    requires t in ctx.txs
    ensures PassedOver(ctx, run + [p], lim, t)
  {
    var j: nat :| PassedOverAt(ctx, run, lim, t, j);
    assert (run + [p])[..j] == run[..j];
    assert PassedOverAt(ctx, run + [p], lim, t, j);
  }

  /** After a commit, with those touched flagged and queued again. */
  lemma AsideAfterCommit(
    ctx: Context, run: seq<Package>, p: Package, st: Selection, st': Selection, lim: Limits)
    requires Used(run + [p]) == Used(run) + Members(p) && p.root in Members(p)
    requires AsideKnown(ctx, run, Used(run) + {p.root}, st, lim) && forall t :: t in st.overflow ==> t in ctx.txs
    requires st'.mempoolArray == st.mempoolArray && st'.overflow == st.overflow && st'.failures == 0
    requires st'.isModified == st.isModified + BelowAny(ctx.txs, Members(p))
    requires Elements(st'.modified) == Elements(st.modified) + (BelowAny(ctx.txs, Members(p)) - st.isModified)
    requires Distinct(st'.modified)
    ensures AsideKnown(ctx, run + [p], Used(run + [p]), st', lim)
  {
    BelowEither(ctx.txs, Used(run), Members(p));
    forall t | t in st'.overflow && t !in Used(run + [p]) && t !in QueuedIn(st')
      ensures PassedOver(ctx, run + [p], lim, t)
    {
      assert t !in QueuedIn(st);
      StillPassedOver(ctx, run, p, lim, t);
    }
    assert Recent(st') == [];
  }

  /** More than `n` transactions are left that do not fit beside what was taken. */
  ghost predicate ManyFail(ctx: Context, run: seq<Package>, lim: Limits, n: nat) {
    exists failed: seq<TxId> ::
      Distinct(failed) && |failed| > n && forall t {:trigger StillFails(ctx, run, lim, t)} :: t in failed ==>
          StillFails(ctx, run, lim, t)
  }

  lemma FailuresAreMany(ctx: Context, run: seq<Package>, st: Selection, lim: Limits, n: nat)
    requires AsideKnown(ctx, run, Used(run), st, lim) && st.failures > n
    ensures ManyFail(ctx, run, lim, n)
  {
    var failed := Recent(st);
    assert Distinct(failed) && |failed| > n;
  }
}
