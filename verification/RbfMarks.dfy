/** Marking one transaction of a tree as mined. */
module RbfMarks {
  import opened Basics
  import opened RbfForest
  import opened RbfGrowth

  /** Sets the flag of `txid` wherever the search from the root first meets it. */
  function MarkMined(tree: RbfTree, txid: TxId): RbfTree {
    if tree.Id() == txid then tree.(tx := tree.tx.(mined := true))
    else tree.(replacedTrees := MarkAllMined(tree.replacedTrees, txid))
  }

  function MarkAllMined(trees: seq<RbfTree>, txid: TxId): (marked: seq<RbfTree>)
    ensures |marked| == |trees|
  {
    if trees == [] then []
    else MarkAllMined(trees[..|trees|-1], txid) + [MarkMined(trees[|trees|-1], txid)]
  }

  ghost function MinedIn(tree: RbfTree): set<TxId> {
    (if tree.tx.mined then {tree.Id()} else {}) + MinedAmong(tree.replacedTrees)
  }

  ghost function MinedAmong(trees: seq<RbfTree>): set<TxId> {
    if trees == [] then {} else MinedAmong(trees[..|trees|-1]) + MinedIn(trees[|trees|-1])
  }

  lemma {:induction false} MarkKeepsShape(tree: RbfTree, txid: TxId)
    ensures MarkMined(tree, txid).Id() == tree.Id() && Nodes(MarkMined(tree, txid)) == Nodes(tree)
    ensures Ids(MarkMined(tree, txid).replacedTrees) == Ids(tree.replacedTrees)
    ensures NodesOf(MarkMined(tree, txid).replacedTrees) == NodesOf(tree.replacedTrees)
    decreases tree
  {
    MarkAllKeepsShape(tree.replacedTrees, txid);
  }

  lemma {:induction false} MarkAllKeepsShape(trees: seq<RbfTree>, txid: TxId)
    ensures Ids(MarkAllMined(trees, txid)) == Ids(trees) && NodesOf(MarkAllMined(trees, txid)) == NodesOf(trees)
    decreases trees
  {
    if trees != [] {
      var init, last := trees[..|trees|-1], trees[|trees|-1];
      MarkAllKeepsShape(init, txid);
      MarkKeepsShape(last, txid);
      SplitLast(trees);
      SameShapes(init, last, MarkAllMined(init, txid), MarkMined(last, txid));
    }
  }

  lemma {:induction false} MarkKeepsMirrors(replacedBy: Links, replacesMap: Kids, tree: RbfTree, txid: TxId)
    requires Mirrors(replacedBy, replacesMap, tree)
    ensures Mirrors(replacedBy, replacesMap, MarkMined(tree, txid))
    decreases tree
  {
    MarkKeepsShape(tree, txid);
    MarkAllKeepsMirrors(replacedBy, replacesMap, tree.Id(), tree.replacedTrees, txid);
  }

  lemma {:induction false} MarkAllKeepsMirrors(
    replacedBy: Links, replacesMap: Kids, parent: TxId, trees: seq<RbfTree>, txid: TxId)
    requires MirrorsAll(replacedBy, replacesMap, parent, trees)
    ensures MirrorsAll(replacedBy, replacesMap, parent, MarkAllMined(trees, txid))
    decreases trees
  {
    if trees != [] {
      var init, last := trees[..|trees|-1], trees[|trees|-1];
      var marked := MarkAllMined(trees, txid);
      MarkAllKeepsMirrors(replacedBy, replacesMap, parent, init, txid);
      MarkKeepsMirrors(replacedBy, replacesMap, last, txid);
      MarkKeepsShape(last, txid);
      assert marked[..|marked|-1] == MarkAllMined(init, txid);
    }
  }

  /** Exactly one flag is set: the one asked for. */
  lemma {:induction false} MarkSetsOneFlag(tree: RbfTree, txid: TxId)
    requires Distinct(Nodes(tree))
    ensures MinedIn(MarkMined(tree, txid)) == MinedIn(tree) + (if txid in Nodes(tree) then {txid} else {})
    decreases tree
  {
    DistinctParts([tree.Id()], NodesOf(tree.replacedTrees));
    if tree.Id() == txid {
      assert Nodes(tree)[0] == txid;
    } else {
      MarkAllSetsOneFlag(tree.replacedTrees, txid);
    }
  }

  lemma {:induction false} MarkAllSetsOneFlag(trees: seq<RbfTree>, txid: TxId)
    requires Distinct(NodesOf(trees))
    ensures MinedAmong(MarkAllMined(trees, txid)) == MinedAmong(trees) + (if txid in NodesOf(trees) then {txid} else {})
    decreases trees
  {
    if trees != [] {
      var init, last := trees[..|trees|-1], trees[|trees|-1];
      var marked := MarkAllMined(trees, txid);
      DistinctParts(NodesOf(init), Nodes(last));
      MarkAllSetsOneFlag(init, txid);
      MarkSetsOneFlag(last, txid);
      assert marked[..|marked|-1] == MarkAllMined(init, txid);
    }
  }

  /** The tree with no transaction marked, and the rest as it is. */
  ghost function Unmined(tree: RbfTree): RbfTree {
    tree.(tx := tree.tx.(mined := false), replacedTrees := UnminedAll(tree.replacedTrees))
  }

  ghost function UnminedAll(trees: seq<RbfTree>): seq<RbfTree> {
    if trees == [] then [] else UnminedAll(trees[..|trees|-1]) + [Unmined(trees[|trees|-1])]
  }

  /** Nothing but those flags can change. */
  lemma {:induction false} MarkSetsFlagsOnly(tree: RbfTree, txid: TxId)
    ensures Unmined(MarkMined(tree, txid)) == Unmined(tree)
    decreases tree
  {
    MarkAllSetsFlagsOnly(tree.replacedTrees, txid);
  }

  lemma {:induction false} MarkAllSetsFlagsOnly(trees: seq<RbfTree>, txid: TxId)
    ensures UnminedAll(MarkAllMined(trees, txid)) == UnminedAll(trees)
    decreases trees
  {
    if trees != [] {
      var init, last := trees[..|trees|-1], trees[|trees|-1];
      var marked := MarkAllMined(trees, txid);
      MarkAllSetsFlagsOnly(init, txid);
      MarkSetsFlagsOnly(last, txid);
      assert marked[..|marked|-1] == MarkAllMined(init, txid);
    }
  }

  /** The tree of `txid` with the transaction and the tree marked. */
  function MinedTree(tree: RbfTree, txid: TxId): RbfTree {
    MarkMined(tree, txid).(mined := true)
  }

  lemma MinedTreeKeeps(replacedBy: Links, replacesMap: Kids, txs: Txs, tree: RbfTree, txid: TxId)
    requires Mirrors(replacedBy, replacesMap, tree) && Flagged(txs, tree)
    ensures var after := MinedTree(tree, txid);
      after.Id() == tree.Id() && Nodes(after) == Nodes(tree) && Mirrors(replacedBy, replacesMap, after) &&
          Flagged(txs, after)
  {
    var marked, after := MarkMined(tree, txid), MinedTree(tree, txid);
    MarkKeepsShape(tree, txid);
    MarkKeepsMirrors(replacedBy, replacesMap, tree, txid);
    assert after.replacedTrees == marked.replacedTrees;
    assert Nodes(after) == Nodes(marked);
    assert Mirrors(replacedBy, replacesMap, after) by {
      assert Mirrors(replacedBy, replacesMap, marked);
    }
  }

  /** Storing the marked tree keeps everything the cache keeps. */
  lemma MinedKeeps(
    forest: Forest, txs: Txs, replacedBy: Links, replacesMap: Kids, treeMap: Links, id: TxId, txid: TxId)
    requires Represents(forest, replacedBy, replacesMap, treeMap) && AllFlagged(txs, forest) && id in forest
    ensures var after := forest[id := MinedTree(forest[id], txid)];
      Represents(after, replacedBy, replacesMap, treeMap) && AllFlagged(txs, after)
  {
    var tree := MinedTree(forest[id], txid);
    var after := forest[id := tree];
    assert Mirrors(replacedBy, replacesMap, forest[id]);
    MinedTreeKeeps(replacedBy, replacesMap, txs, forest[id], txid);
    SameShape(forest, replacedBy, replacesMap, id, tree);
    SameIds(forest, treeMap, id, tree);
    assert forall other :: other in after ==> other == id || after[other] == forest[other];
  }

  lemma SameIds(forest: Forest, treeMap: Links, id: TxId, tree: RbfTree)
    requires Mapped(forest, treeMap) && id in forest && Nodes(tree) == Nodes(forest[id])
    requires AllNodes(forest[id := tree]) == AllNodes(forest)
    ensures Mapped(forest[id := tree], treeMap)
  {
  }
}
