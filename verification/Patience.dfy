/** When a search is given up: beside a nearly full block nothing more is taken once more than
    a thousand in a row have been passed over. */
module Patience {
  import opened Basics
  import opened Ancestry
  import opened Packages
  import opened Queues
  import opened Weights
  import opened MiniMiner
  import opened Asides

  /** Who is out of the queues without having been used. */
  ghost function AsideIn(run: seq<Package>, st: Selection): set<TxId> {
    LeftAside(Used(run), st.mempoolArray, st.modified, st.isModified, Elements(st.overflow))
  }

  /** Those passed over when the last package was taken. */
  ghost function LastOver(passedOver: seq<set<TxId>>): set<TxId> {
    if passedOver == [] then {} else passedOver[|passedOver|-1]
  }

  /** Less than 4000 is left. */
  ghost predicate AlmostFull(ctx: Context, run: seq<Package>, lim: Limits) {
    lim.weight.AtMost? && WeightOf(ctx.txs, Used(run) * ctx.txs.Keys) > lim.weight.n - 4000
  }

  ghost predicate InTimeAt(ctx: Context, run: seq<Package>, lim: Limits, passedOver: seq<set<TxId>>, k: nat)
    requires k < |run| && k < |passedOver|
  {
    AlmostFull(ctx, run[..k], lim) ==> |passedOver[k] - LastOver(passedOver[..k])| <= 1000
  }

  /** Each package taken beside a nearly full block was taken before more than a thousand had
      been passed over since the package before it. */
  ghost predicate GivenUpInTime(ctx: Context, run: seq<Package>, lim: Limits, passedOver: seq<set<TxId>>) {
    && |passedOver| == |run|
    && forall k {:trigger InTimeAt(ctx, run, lim, passedOver, k)} :: 0 <= k < |run| ==>
         InTimeAt(ctx, run, lim, passedOver, k)
  }

  /** The failures counted are at least those passed over since the last package. */
  ghost predicate Patient(
    ctx: Context, run: seq<Package>, st: Selection, lim: Limits, passedOver: seq<set<TxId>>)
  {
    GivenUpInTime(ctx, run, lim, passedOver) && |AsideIn(run, st) - LastOver(passedOver)| <= st.failures
  }

  lemma PatientAtFirst(ctx: Context, order: seq<TxId>, lim: Limits)
    ensures Patient(ctx, [], Selection(order, [], {}, [], [], 0, 0, 0), lim, [])
  {
    assert AsideIn([], Selection(order, [], {}, [], [], 0, 0, 0)) - LastOver([]) == {};
  }

  /** From `st`, `next` was set aside, or its package taken. */
  ghost predicate TakenOrAside(
    run: seq<Package>, st: Selection, next: TxId, aside: set<TxId>, passedOver: seq<set<TxId>>,
    run': seq<Package>, st': Selection, passedOver': seq<set<TxId>>)
  {
    || (run' == run && passedOver' == passedOver &&
        st' == st.(overflow := st.overflow + [next], failures := st.failures + 1))
    || (|run'| == |run| + 1 && run'[..|run|] == run && passedOver' == passedOver + [aside] &&
        AsideIn(run', st') <= AsideIn(run, st) - {next})
  }

  lemma FewerIsSmaller(part: set<TxId>, all: set<TxId>)
    requires part <= all
    ensures |part| <= |all|
  {
    if part != all {
      ProperSubsetIsSmaller(part, all);
    }
  }

  lemma OneMoreAside(run: seq<Package>, before: Selection, st: Selection, next: TxId, last: set<TxId>)
    requires AsideIn(run, st) <= AsideIn(run, before) + {next}
    ensures |AsideIn(run, st.(overflow := st.overflow + [next], failures := st.failures + 1)) - last| <=
      |AsideIn(run, before) - last| + 1
  {
    var st' := st.(overflow := st.overflow + [next], failures := st.failures + 1);
    assert Elements(st'.overflow) == Elements(st.overflow) + {next};
    var fewer := AsideIn(run, before) - last;
    assert AsideIn(run, st') <= AsideIn(run, st) + {next};
    assert AsideIn(run, st') - last <= fewer + {next};
    FewerIsSmaller(AsideIn(run, st') - last, fewer + {next});
    assert next !in fewer ==> |fewer + {next}| == |fewer| + 1;
    assert next in fewer ==> fewer + {next} == fewer;
  }

  /** From `before`, `next` was picked and then set aside or its package taken. */
  lemma PatienceKept(
    ctx: Context, lim: Limits, run: seq<Package>, before: Selection, st: Selection, next: TxId, aside: set<TxId>,
    passedOver: seq<set<TxId>>, run': seq<Package>, st': Selection, passedOver': seq<set<TxId>>)
    requires Patient(ctx, run, before, lim, passedOver) && st.failures == before.failures
    requires AlmostFull(ctx, run, lim) ==> before.failures <= 1000
    requires aside <= AsideIn(run, before) && AsideIn(run, st) <= aside + {next}
    requires TakenOrAside(run, st, next, aside, passedOver, run', st', passedOver')
    ensures Patient(ctx, run', st', lim, passedOver')
  {
    if run' == run {
      OneMoreAside(run, before, st, next, LastOver(passedOver));
    } else {
      assert AsideIn(run', st') - LastOver(passedOver') == {};
      FewerIsSmaller(aside - LastOver(passedOver), AsideIn(run, before) - LastOver(passedOver));
      TakenInTime(ctx, lim, run, aside, passedOver, run', passedOver');
    }
  }

  lemma TakenInTime(
    ctx: Context, lim: Limits, run: seq<Package>, aside: set<TxId>, passedOver: seq<set<TxId>>,
    run': seq<Package>, passedOver': seq<set<TxId>>)
    requires GivenUpInTime(ctx, run, lim, passedOver)
    requires AlmostFull(ctx, run, lim) ==> |aside - LastOver(passedOver)| <= 1000
    requires |run'| == |run| + 1 && run'[..|run|] == run && passedOver' == passedOver + [aside]
    ensures GivenUpInTime(ctx, run', lim, passedOver')
  {
    forall k | 0 <= k < |run'| ensures InTimeAt(ctx, run', lim, passedOver', k) {
      assert passedOver'[..|run|] == passedOver;
      if k < |run| {
        assert InTimeAt(ctx, run, lim, passedOver, k);
        assert run'[..k] == run[..k] && passedOver'[..k] == passedOver[..k];
      }
    }
  }

  /** Whoever picked was used already changes nothing. */
  lemma PatienceSpared(
    ctx: Context, lim: Limits, run: seq<Package>, before: Selection, st: Selection, passedOver: seq<set<TxId>>)
    requires Patient(ctx, run, before, lim, passedOver) && st.failures == before.failures
    requires AsideIn(run, st) <= AsideIn(run, before)
    ensures Patient(ctx, run, st, lim, passedOver)
  {
    FewerIsSmaller(AsideIn(run, st) - LastOver(passedOver), AsideIn(run, before) - LastOver(passedOver));
  }

  /** When the search has run out, so few were left since the last package. */
  lemma FewLeftBehind(
    ctx: Context, run: seq<Package>, st: Selection, lim: Limits, passedOver: seq<set<TxId>>, left: set<TxId>)
    requires Patient(ctx, run, st, lim, passedOver) && left <= AsideIn(run, st)
    ensures |left - LastOver(passedOver)| <= st.failures
  {
    FewerIsSmaller(left - LastOver(passedOver), AsideIn(run, st) - LastOver(passedOver));
  }
}
