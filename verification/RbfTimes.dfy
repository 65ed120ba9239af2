/** Times in the stored trees: how long each transaction stood before it was replaced. */
module RbfTimes {
  import opened Basics
  import opened RbfForest
  import opened RbfMarks

  /** Below the root each transaction has stood from its own time to that of what replaced it;
      the root itself has `interval`. */
  ghost predicate Timed(tree: RbfTree, interval: Option<real>)
    decreases tree
  {
    tree.interval == interval && TimedBelow(tree.replacedTrees, tree.time)
  }

  ghost predicate TimedBelow(trees: seq<RbfTree>, time: real)
    decreases trees
  {
    trees == [] ||
    (TimedBelow(trees[..|trees|-1], time) && Timed(trees[|trees|-1], Some(time - trees[|trees|-1].time)))
  }

  /** So it is in every stored tree; a stored root has not been replaced. */
  ghost predicate AllTimed(trees: Forest) {
    forall id {:trigger trees[id]} :: id in trees ==> Timed(trees[id], None)
  }

  lemma TimedWithKid(trees: seq<RbfTree>, kid: RbfTree, time: real)
    requires TimedBelow(trees, time) && Timed(kid, Some(time - kid.time))
    ensures TimedBelow(trees + [kid], time)
  {
    LastOfConcat(trees, [kid]);
    assert trees + [kid][..0] == trees;
  }

  /** Of two transactions one right above the other, the lower stood for the difference. */
  lemma {:induction false} TimedKid(trees: seq<RbfTree>, time: real, i: nat)
    requires TimedBelow(trees, time) && i < |trees|
    ensures trees[i].interval == Some(time - trees[i].time) && TimedBelow(trees[i].replacedTrees, trees[i].time)
  {
    if i < |trees| - 1 {
      TimedKid(trees[..|trees|-1], time, i);
    }
  }

  /** Marking changes no time. */
  lemma {:induction false} MarkKeepsTimes(tree: RbfTree, interval: Option<real>, txid: TxId)
    requires Timed(tree, interval)
    ensures Timed(MarkMined(tree, txid), interval) && MarkMined(tree, txid).time == tree.time
    decreases tree
  {
    MarkAllKeepsTimes(tree.replacedTrees, tree.time, txid);
  }

  lemma {:induction false} MarkAllKeepsTimes(trees: seq<RbfTree>, time: real, txid: TxId)
    requires TimedBelow(trees, time)
    ensures TimedBelow(MarkAllMined(trees, txid), time)
    decreases trees
  {
    if trees != [] {
      var init, last := trees[..|trees|-1], trees[|trees|-1];
      MarkAllKeepsTimes(init, time, txid);
      MarkKeepsTimes(last, Some(time - last.time), txid);
      TimedWithKid(MarkAllMined(init, txid), MarkMined(last, txid), time);
    }
  }

  lemma MinedKeepsTimes(trees: Forest, id: TxId, txid: TxId)
    requires AllTimed(trees) && id in trees
    ensures AllTimed(trees[id := MinedTree(trees[id], txid)])
  {
    MarkKeepsTimes(trees[id], None, txid);
  }
}
