/** What the cache keeps, and how one replacement after another goes under a new root. */
module RbfGrowth {
  import opened Basics
  import opened RbfForest
  import opened RbfUpdates
  import opened RbfMirror

  /** Explicit signalling (Summary section of BIP 125): some input has a sequence number
      below 0xfffffffe. */
  predicate Signals(tx: MempoolTx) {
    exists sequence :: sequence in tx.sequences && sequence < 0xfffffffe
  }

  type Txs = map<TxId, MempoolTx>

  ghost predicate AnySilent(txs: Txs, nodes: seq<TxId>) {
    exists x :: x in nodes && x in txs && !Signals(txs[x])
  }

  /** A stored tree knows whether its root signals, and whether anything it replaced,
      directly or not, did not. */
  ghost predicate Flagged(txs: Txs, tree: RbfTree) {
    && tree.Id() in txs && tree.tx.rbf == Signals(txs[tree.Id()])
    && (tree.fullRbf <==> AnySilent(txs, NodesOf(tree.replacedTrees)))
  }

  ghost predicate AllFlagged(txs: Txs, forest: Forest) {
    forall id {:trigger Flagged(txs, forest[id])} :: id in forest ==> Flagged(txs, forest[id])
  }

  /** What every operation of the cache keeps. */
  ghost predicate WellKept(memory: Memory, replacedBy: Links, replacesMap: Kids, treeMap: Links) {
    && Represents(memory.trees, replacedBy, replacesMap, treeMap)
    && memory.txs.Keys == treeMap.Keys
    && memory.expiring.Keys <= memory.txs.Keys
    && AllFlagged(memory.txs, memory.trees)
  }

  // ------------------------------------------------------- growing a new root

  function Listed(replacesMap: Kids, root: RbfTree): Kids {
    if root.replacedTrees == [] then replacesMap else replacesMap[root.Id() := Ids(root.replacedTrees)]
  }

  /** The stored trees and the new root together use exactly the known transactions. */
  ghost predicate Covers(all: Forest, txs: Txs, replacedBy: Links, lists: Kids) {
    && Linked(all, replacedBy, lists)
    && KeysWithin(txs.Keys, replacedBy, lists)
    && AllNodes(all) == txs.Keys
  }

  /** Tree ids are still those of the trees as they were stored before. */
  ghost predicate EarlierIds(trees: Forest, txs: Txs, replacedBy: Links, treeMap: Links) {
    && treeMap.Keys <= txs.Keys
    && (forall x {:trigger treeMap[x]} :: x in treeMap ==> x in replacedBy || treeMap[x] == x)
    && (forall id, x {:trigger x in Nodes(trees[id])} :: id in trees && x in Nodes(trees[id]) ==>
        x in treeMap && treeMap[x] == id)
  }

  /** The new root is not stored yet and has some of its replacements below it. */
  ghost predicate Growing(
    trees: Forest, txs: Txs, replacedBy: Links, replacesMap: Kids, treeMap: Links, root: RbfTree) {
    && root.Id() !in trees && root.Id() !in treeMap
    && Covers(trees[root.Id() := root], txs, replacedBy, Listed(replacesMap, root))
    && EarlierIds(trees, txs, replacedBy, treeMap)
    && AllFlagged(txs, trees)
    && Flagged(txs, root)
  }

  /** A tree that shares nothing with the stored ones is stored. */
  lemma StoreTree(forest: Forest, replacedBy: Links, replacesMap: Kids, tree: RbfTree)
    requires Linked(forest, replacedBy, replacesMap) && tree.Id() !in replacedBy && tree.Id() !in forest
    requires Mirrors(replacedBy, replacesMap, tree) && Distinct(Nodes(tree)) && NodeSet(tree) !! AllNodes(forest)
    ensures Linked(forest[tree.Id() := tree], replacedBy, replacesMap)
    ensures AllNodes(forest[tree.Id() := tree]) == AllNodes(forest) + NodeSet(tree)
  {
    var after := forest[tree.Id() := tree];
    forall x | x in AllNodes(forest) + NodeSet(tree)
      ensures x in AllNodes(after)
    {
      if x in NodeSet(tree) {
        assert after[tree.Id()] == tree;
      } else {
        var other :| other in forest && x in Nodes(forest[other]);
        assert after[other] == forest[other];
      }
    }
    forall x | x in AllNodes(after)
      ensures x in AllNodes(forest) + NodeSet(tree)
    {
      var other :| other in after && x in Nodes(after[other]);
      if other != tree.Id() {
        assert x in Nodes(forest[other]);
      }
    }
    forall one, two, x | one in after && two in after && x in Nodes(after[one]) && x in Nodes(after[two])
      ensures one == two
    {
      assert one == tree.Id() || (x in Nodes(forest[one]) && x in AllNodes(forest));
      assert two == tree.Id() || (x in Nodes(forest[two]) && x in AllNodes(forest));
      assert x in NodeSet(tree) || x !in Nodes(tree);
    }
    forall other | other in after
      ensures other !in replacedBy && Mirrors(replacedBy, replacesMap, after[other])
    {
      assert other != tree.Id() ==> Mirrors(replacedBy, replacesMap, forest[other]);
    }
  }

  lemma StartGrowing(
    memory: Memory, replacedBy: Links, replacesMap: Kids, treeMap: Links, tx: MempoolTx, root: RbfTree)
    requires WellKept(memory, replacedBy, replacesMap, treeMap)
    requires tx.txid == root.Id() && tx.txid !in memory.txs
    requires root.replacedTrees == [] && root.tx.rbf == Signals(tx) && !root.fullRbf
    ensures Growing(memory.trees, memory.txs[tx.txid := tx], replacedBy, replacesMap, treeMap, root)
  {
    UnknownIsNotStored(memory, replacedBy, replacesMap, treeMap, root.Id());
    StartIds(memory.trees, memory.txs[tx.txid := tx], replacedBy, replacesMap, treeMap);
    StartWithRoot(memory.trees, memory.txs, replacedBy, replacesMap, treeMap, tx, root);
  }

  lemma StartWithRoot(
    forest: Forest, txs: Txs, replacedBy: Links, replacesMap: Kids, treeMap: Links, tx: MempoolTx, root: RbfTree)
    requires Covers(forest, txs, replacedBy, replacesMap) && AllFlagged(txs, forest)
    requires EarlierIds(forest, txs[tx.txid := tx], replacedBy, treeMap)
    requires tx.txid == root.Id() && tx.txid !in txs && tx.txid !in forest && tx.txid !in treeMap
    requires root.replacedTrees == [] && root.tx.rbf == Signals(tx) && !root.fullRbf
    ensures Growing(forest, txs[tx.txid := tx], replacedBy, replacesMap, treeMap, root)
  {
    CoverStart(forest, txs, replacedBy, replacesMap, tx, root);
    FlagsStart(forest, txs, tx);
    FlagsOfBareRoot(txs[tx.txid := tx], root);
  }

  lemma FlagsOfBareRoot(txs: Txs, root: RbfTree)
    requires root.Id() in txs && root.tx.rbf == Signals(txs[root.Id()]) && root.replacedTrees == [] && !root.fullRbf
    ensures Flagged(txs, root)
  {
  }

  lemma FlagsStart(forest: Forest, txs: Txs, tx: MempoolTx)
    requires AllFlagged(txs, forest) && Disjoint(forest) && AllNodes(forest) == txs.Keys && tx.txid !in txs
    ensures AllFlagged(txs[tx.txid := tx], forest)
  {
    FlagsSurvive(txs, txs[tx.txid := tx], forest);
  }

  lemma UnknownIsNotStored(
    memory: Memory, replacedBy: Links, replacesMap: Kids, treeMap: Links, id: TxId)
    requires WellKept(memory, replacedBy, replacesMap, treeMap) && id !in memory.txs
    ensures id !in memory.trees && id !in treeMap && id !in replacedBy && id !in replacesMap && id !in memory.expiring
    ensures memory.txs.Keys == AllNodes(memory.trees)
  {
    if id in memory.trees {
      RootIsNode(memory.trees, id);
      assert false;
    }
  }

  lemma CoverStart(
    forest: Forest, txs: Txs, replacedBy: Links, replacesMap: Kids, tx: MempoolTx, root: RbfTree)
    requires Covers(forest, txs, replacedBy, replacesMap)
    requires tx.txid == root.Id() && tx.txid !in txs && tx.txid !in forest && root.replacedTrees == []
    ensures Covers(forest[root.Id() := root], txs[tx.txid := tx], replacedBy, Listed(replacesMap, root))
  {
    assert Nodes(root) == [root.Id()];
    assert NodeSet(root) == {root.Id()};
    StoreTree(forest, replacedBy, replacesMap, root);
  }

  lemma StartIds(forest: Forest, txs: Txs, replacedBy: Links, replacesMap: Kids, treeMap: Links)
    requires Represents(forest, replacedBy, replacesMap, treeMap) && treeMap.Keys <= txs.Keys
    ensures EarlierIds(forest, txs, replacedBy, treeMap)
  {
    forall x | x in treeMap ensures x in replacedBy || treeMap[x] == x {
      UniqueIdAndExistence(forest, replacedBy, replacesMap, treeMap, x);
    }
    forall id, x | id in forest && x in Nodes(forest[id]) ensures x in treeMap && treeMap[x] == id {
      assert x in AllNodes(forest);
    }
  }

  lemma FlagsSurvive(txs: Txs, txs': Txs, forest: Forest)
    requires AllFlagged(txs, forest)
    requires forall x {:trigger x in AllNodes(forest)} :: x in AllNodes(forest) ==>
      x in txs && x in txs' && txs[x] == txs'[x]
    requires Disjoint(forest)
    ensures AllFlagged(txs', forest)
  {
    forall id | id in forest
      ensures Flagged(txs', forest[id])
    {
      RootIsNode(forest, id);
      forall x | x in NodesOf(forest[id].replacedTrees) ensures x in txs && x in txs' && txs[x] == txs'[x] {
        assert x in Nodes(forest[id]);
        assert x in AllNodes(forest);
      }
      assert Flagged(txs, forest[id]);
    }
  }

  /** A replaced transaction the cache knows, not replaced before, is the root of a stored
      tree. */
  lemma KnownIsRoot(
    trees: Forest, txs: Txs, replacedBy: Links, replacesMap: Kids, treeMap: Links, root: RbfTree, r: TxId)
    requires Growing(trees, txs, replacedBy, replacesMap, treeMap, root)
    requires r in txs && r !in replacedBy && r != root.Id()
    ensures r in trees && r in treeMap && treeMap[r] == r
  {
    var all := trees[root.Id() := root];
    var id :| id in all && r in Nodes(all[id]);
    if r != id {
      assert Mirrors(replacedBy, Listed(replacesMap, root), all[id]);
      assert r in NodesOf(all[id].replacedTrees);
      ReplacementLists(replacedBy, Listed(replacesMap, root), all[id], r);
      assert false;
    }
    assert r in Nodes(trees[r]);
  }

  lemma ListedWithKid(replacesMap: Kids, root: RbfTree, kid: RbfTree, fullRbf: bool)
    ensures Listed(replacesMap, WithKid(root, kid).(fullRbf := fullRbf))
         == Listed(replacesMap, root)[root.Id() := Ids(root.replacedTrees + [kid])]
  {
  }

  /** A stored tree is taken out and goes below the root. */
  lemma CoverWithTree(
    all: Forest, txs: Txs, replacedBy: Links, lists: Kids, id: TxId, r: TxId, kid: RbfTree)
    requires Covers(all, txs, replacedBy, lists) && id in all && r in all && r != id
    requires kid == all[r].(interval := kid.interval)
    ensures Covers((all - {r})[id := WithKid(all[id], kid)], txs, replacedBy[r := id],
      lists[id := Ids(all[id].replacedTrees + [kid])])
  {
    WithoutTree(all, replacedBy, lists, r);
    assert Mirrors(replacedBy, lists, kid);
    assert Nodes(kid) == Nodes(all[r]);
    Attach(all - {r}, replacedBy, lists, id, kid);
    RootIsNode(all, r);
    RootIsNode(all, id);
    assert NodeSet(all[r]) <= AllNodes(all);
  }

  /** The root's own flags and times are not part of its shape. */
  lemma CoverSameShape(
    all: Forest, txs: Txs, replacedBy: Links, lists: Kids, id: TxId, tree: RbfTree)
    requires Covers(all, txs, replacedBy, lists) && id in all
    requires tree.Id() == id && Nodes(tree) == Nodes(all[id]) && Mirrors(replacedBy, lists, tree)
    ensures Covers(all[id := tree], txs, replacedBy, lists)
  {
    SameShape(all, replacedBy, lists, id, tree);
  }

  lemma {:induction false} SameShape(forest: Forest, replacedBy: Links, replacesMap: Kids, id: TxId, tree: RbfTree)
    requires Linked(forest, replacedBy, replacesMap) && id in forest
    requires tree.Id() == id && Nodes(tree) == Nodes(forest[id]) && Mirrors(replacedBy, replacesMap, tree)
    ensures Linked(forest[id := tree], replacedBy, replacesMap)
    ensures AllNodes(forest[id := tree]) == AllNodes(forest)
  {
    var after := forest[id := tree];
    AllNodesOfUpdate(forest, id, tree);
    assert NodeSet(tree) <= AllNodes(forest);
    forall one, two, x | one in after && two in after && x in Nodes(after[one]) && x in Nodes(after[two])
      ensures one == two
    {
      assert x in Nodes(forest[one]) && x in Nodes(forest[two]);
    }
    forall other | other in after
      ensures other !in replacedBy && Mirrors(replacedBy, replacesMap, after[other])
    {
      assert Mirrors(replacedBy, replacesMap, forest[other]);
    }
  }

  lemma EarlierIdsSurvive(
    trees: Forest, txs: Txs, replacedBy: Links, treeMap: Links, fewer: Forest, txs': Txs, replacedBy': Links)
    requires EarlierIds(trees, txs, replacedBy, treeMap)
    requires txs.Keys <= txs'.Keys && replacedBy.Keys <= replacedBy'.Keys
    requires forall id {:trigger fewer[id]} :: id in fewer ==> id in trees && fewer[id] == trees[id]
    ensures EarlierIds(fewer, txs', replacedBy', treeMap)
  {
  }

  lemma GrowWithTree(
    trees: Forest, txs: Txs, replacedBy: Links, replacesMap: Kids, treeMap: Links, root: RbfTree, r: TxId, kid: RbfTree)
    requires Growing(trees, txs, replacedBy, replacesMap, treeMap, root)
    requires r in trees && kid == trees[r].(interval := kid.interval)
    ensures var root' := WithKid(root, kid).(fullRbf := root.fullRbf || kid.fullRbf || !kid.tx.rbf);
      Growing(trees - {r}, txs, replacedBy[r := root.Id()], replacesMap, treeMap, root')
  {
    var all, id, lists := trees[root.Id() := root], root.Id(), Listed(replacesMap, root);
    var fullRbf := root.fullRbf || kid.fullRbf || !kid.tx.rbf;
    var root' := WithKid(root, kid).(fullRbf := fullRbf);
    CoverWithTree(all, txs, replacedBy, lists, id, r, kid);
    ListedWithKid(replacesMap, root, kid, fullRbf);
    var grown := (all - {r})[id := WithKid(root, kid)];
    CoverSameShape(grown, txs, replacedBy[r := id], Listed(replacesMap, root'), id, root') by {
      assert Mirrors(replacedBy[r := id], Listed(replacesMap, root'), grown[id]);
    }
    RemovalBesideWrite(trees, id, root, r);
    LastWriteWins(trees - {r}, id, root, WithKid(root, kid));
    LastWriteWins(trees - {r}, id, WithKid(root, kid), root');
    EarlierIdsSurvive(trees, txs, replacedBy, treeMap, trees - {r}, txs, replacedBy[r := id]);
    assert Flagged(txs, trees[r]);
    FlagsOfKid(txs, root, kid, fullRbf);
  }

  lemma FlagsOfKid(txs: Txs, root: RbfTree, kid: RbfTree, fullRbf: bool)
    requires Flagged(txs, root)
    requires kid.Id() in txs && kid.tx.rbf == Signals(txs[kid.Id()])
    requires fullRbf == (root.fullRbf || !kid.tx.rbf || AnySilent(txs, NodesOf(kid.replacedTrees)))
    ensures Flagged(txs, WithKid(root, kid).(fullRbf := fullRbf))
  {
  }

  function Leaf(tx: MempoolTx, time: real, newTime: real): RbfTree {
    RbfTree(RbfTx(tx.txid, Signals(tx), false, false), time, Some(newTime - time), false, !Signals(tx), [])
  }

  lemma CoverWithLeaf(
    all: Forest, txs: Txs, replacedBy: Links, lists: Kids, id: TxId, tx: MempoolTx, leaf: RbfTree)
    requires Covers(all, txs, replacedBy, lists) && id in all
    requires tx.txid !in txs && leaf.Id() == tx.txid && leaf.replacedTrees == []
    ensures Covers(all[id := WithKid(all[id], leaf)], txs[tx.txid := tx], replacedBy[tx.txid := id],
      lists[id := Ids(all[id].replacedTrees + [leaf])])
  {
    assert Nodes(leaf) == [tx.txid];
    assert NodeSet(leaf) == {tx.txid};
    RootIsNode(all, id);
    Attach(all, replacedBy, lists, id, leaf);
  }

  lemma GrowWithLeaf(
    trees: Forest, txs: Txs, replacedBy: Links, replacesMap: Kids, treeMap: Links, root: RbfTree, tx: MempoolTx,
    leaf: RbfTree)
    requires Growing(trees, txs, replacedBy, replacesMap, treeMap, root)
    requires tx.txid !in txs && leaf.Id() == tx.txid && leaf.replacedTrees == [] && leaf.tx.rbf == Signals(tx)
    ensures var root' := WithKid(root, leaf).(fullRbf := root.fullRbf || !leaf.tx.rbf);
      Growing(trees, txs[tx.txid := tx], replacedBy[tx.txid := root.Id()], replacesMap, treeMap, root')
  {
    var all, id, lists := trees[root.Id() := root], root.Id(), Listed(replacesMap, root);
    var fullRbf := root.fullRbf || !leaf.tx.rbf;
    var root' := WithKid(root, leaf).(fullRbf := fullRbf);
    var txs', links := txs[tx.txid := tx], replacedBy[tx.txid := id];
    CoverWithLeaf(all, txs, replacedBy, lists, id, tx, leaf);
    ListedWithKid(replacesMap, root, leaf, fullRbf);
    var grown := all[id := WithKid(root, leaf)];
    CoverSameShape(grown, txs', links, Listed(replacesMap, root'), id, root') by {
      assert Mirrors(links, Listed(replacesMap, root'), grown[id]);
    }
    LastWriteWins(trees, id, root, WithKid(root, leaf));
    LastWriteWins(trees, id, WithKid(root, leaf), root');
    EarlierIdsSurvive(trees, txs, replacedBy, treeMap, trees, txs', links);
    FlagsOfAll(all, txs, txs', trees, root);
    FlagsOfKid(txs', root, leaf, fullRbf);
  }

  lemma FlagsOfAll(all: Forest, txs: Txs, txs': Txs, trees: Forest, root: RbfTree)
    requires all == trees[root.Id() := root] && root.Id() !in trees && Disjoint(all) && AllNodes(all) <= txs.Keys
    requires AllFlagged(txs, trees) && Flagged(txs, root)
    requires forall x {:trigger txs[x]} :: x in txs ==> x in txs' && txs[x] == txs'[x]
    ensures AllFlagged(txs', trees) && Flagged(txs', root)
  {
    assert AllFlagged(txs, all) by {
      assert all[root.Id()] == root;
      assert forall id :: id in all ==> id == root.Id() || all[id] == trees[id];
    }
    FlagsSurvive(txs, txs', all);
    assert Flagged(txs', all[root.Id()]);
    forall id | id in trees ensures Flagged(txs', trees[id]) {
      assert all[id] == trees[id];
    }
  }

  /** With the whole tree entered under its root in `treeMap`, the cache is well kept again. */
  lemma StoreRoot(
    trees: Forest, txs: Txs, replacedBy: Links, replacesMap: Kids, treeMap: Links, root: RbfTree, treeMap': Links,
    expiring: map<TxId, int>)
    requires Growing(trees, txs, replacedBy, replacesMap, treeMap, root)
    requires root.replacedTrees != [] && expiring.Keys <= txs.Keys
    requires treeMap'.Keys == treeMap.Keys + NodeSet(root)
    requires forall x :: x in treeMap' ==> treeMap'[x] == if x in NodeSet(root) then root.Id() else treeMap[x]
    ensures WellKept(Memory(txs, trees[root.Id() := root], expiring), replacedBy,
      replacesMap[root.Id() := Ids(root.replacedTrees)], treeMap')
  {
    var all := trees[root.Id() := root];
    IdsOfStored(trees, txs, replacedBy, treeMap, root, treeMap');
    assert AllFlagged(txs, all) by {
      assert forall id :: id in all ==> id == root.Id() || all[id] == trees[id];
    }
  }

  lemma IdsOfStored(
    trees: Forest, txs: Txs, replacedBy: Links, treeMap: Links, root: RbfTree, treeMap': Links)
    requires EarlierIds(trees, txs, replacedBy, treeMap) && root.Id() !in trees
    requires Disjoint(trees[root.Id() := root]) && AllNodes(trees[root.Id() := root]) == txs.Keys
    requires treeMap'.Keys == treeMap.Keys + NodeSet(root)
    requires forall x :: x in treeMap' ==> treeMap'[x] == if x in NodeSet(root) then root.Id() else treeMap[x]
    ensures Mapped(trees[root.Id() := root], treeMap')
  {
    var all := trees[root.Id() := root];
    assert all[root.Id()] == root;
    forall x | x in AllNodes(all) ensures x in treeMap' {
      var id :| id in all && x in Nodes(all[id]);
      if id != root.Id() {
        assert x in Nodes(trees[id]);
      }
    }
    forall x | x in treeMap' ensures x in AllNodes(all) {
      if x in NodeSet(root) {
        assert x in Nodes(all[root.Id()]);
      }
    }
    forall id, x | id in all && x in Nodes(all[id])
      ensures treeMap'[x] == id
    {
      if x in Nodes(all[root.Id()]) {
        assert x in NodeSet(root);
      } else {
        assert x in Nodes(trees[id]);
      }
    }
  }
}
