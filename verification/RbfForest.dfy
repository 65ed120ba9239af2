/** Trees of replacements, and when the lookup maps kept beside them agree with them. */
module RbfForest {
  import opened Basics

  /** What a tree keeps of a transaction: its id, whether it signals replaceability, and
      two flags. */
  datatype RbfTx = RbfTx(txid: TxId, rbf: bool, mined: bool, fullRbf: bool)

  datatype RbfTree = RbfTree(
    tx: RbfTx, time: real, interval: Option<real>, mined: bool, fullRbf: bool, replacedTrees: seq<RbfTree>)
  {
    function Id(): TxId { tx.txid }
  }

  function Ids(trees: seq<RbfTree>): (ids: seq<TxId>)
    ensures |ids| == |trees|
    ensures forall i :: 0 <= i < |trees| ==> ids[i] == trees[i].Id()
  {
    seq(|trees|, i requires 0 <= i < |trees| => trees[i].Id())
  }

  /** All transactions of a tree. */
  function Nodes(tree: RbfTree): seq<TxId> {
    [tree.Id()] + NodesOf(tree.replacedTrees)
  }

  function NodesOf(trees: seq<RbfTree>): seq<TxId> {
    if trees == [] then [] else NodesOf(trees[..|trees|-1]) + Nodes(trees[|trees|-1])
  }

  ghost function NodeSet(tree: RbfTree): set<TxId> {
    Elements(Nodes(tree))
  }

  lemma {:induction false} NodesOfSplits(trees: seq<RbfTree>, more: seq<RbfTree>)
    ensures NodesOf(trees + more) == NodesOf(trees) + NodesOf(more)
  {
    if more == [] {
      assert trees + more == trees;
    } else {
      var init, last := more[..|more|-1], more[|more|-1];
      NodesOfSplits(trees, init);
      LastOfConcat(trees, more);
      ConcatThrice(NodesOf(trees), NodesOf(init), Nodes(last));
    }
  }

  lemma {:induction false} NodesAreIn(trees: seq<RbfTree>, i: nat)
    requires i < |trees|
    ensures Elements(Nodes(trees[i])) <= Elements(NodesOf(trees)) && trees[i].Id() in NodesOf(trees)
  {
    var init := trees[..|trees|-1];
    assert Nodes(trees[|trees|-1])[0] == trees[|trees|-1].Id();
    if i < |init| {
      NodesAreIn(init, i);
    }
  }

  lemma {:induction false} NodeIsInSome(trees: seq<RbfTree>, x: TxId) returns (i: nat)
    requires x in NodesOf(trees)
    ensures i < |trees| && x in Nodes(trees[i])
  {
    var init := trees[..|trees|-1];
    if x in NodesOf(init) {
      i := NodeIsInSome(init, x);
    } else {
      i := |trees| - 1;
    }
  }

  lemma SameShapes(init: seq<RbfTree>, last: RbfTree, init': seq<RbfTree>, last': RbfTree)
    requires NodesOf(init') == NodesOf(init) && Ids(init') == Ids(init) && Nodes(last') == Nodes(last) &&
      last'.Id() == last.Id()
    ensures NodesOf(init' + [last']) == NodesOf(init + [last]) && Ids(init' + [last']) == Ids(init + [last])
  {
  }

  type Links = map<TxId, TxId>
  type Kids = map<TxId, seq<TxId>>

  /** `replacedBy` and `replacesMap` tell the tree's story: a transaction with replacements
      lists them, one without is not listed, and each replacement points back. */
  ghost predicate Mirrors(replacedBy: Links, replacesMap: Kids, tree: RbfTree)
    decreases tree
  {
    && (if tree.replacedTrees == [] then tree.Id() !in replacesMap
        else tree.Id() in replacesMap && replacesMap[tree.Id()] == Ids(tree.replacedTrees))
    && MirrorsAll(replacedBy, replacesMap, tree.Id(), tree.replacedTrees)
  }

  ghost predicate MirrorsAll(replacedBy: Links, replacesMap: Kids, parent: TxId, trees: seq<RbfTree>)
    decreases trees
  {
    trees == [] ||
    (var last := trees[|trees|-1];
     && MirrorsAll(replacedBy, replacesMap, parent, trees[..|trees|-1])
     && last.Id() in replacedBy && replacedBy[last.Id()] == parent
     && Mirrors(replacedBy, replacesMap, last))
  }

  /** The two maps say the same about everything in `nodes`. */
  ghost predicate AgreeOn<K(!new), V>(a: map<K, V>, b: map<K, V>, nodes: set<K>) {
    forall x {:trigger x in nodes} :: x in nodes ==> (x in a <==> x in b) && (x in a && x in b ==> a[x] == b[x])
  }

  /** Only what is said of a tree's own transactions matters to it; its root's own parent
      does not. */
  lemma {:induction false} MirrorsFrame(
    replacedBy: Links, replacesMap: Kids, replacedBy': Links, replacesMap': Kids, tree: RbfTree)
    requires Mirrors(replacedBy, replacesMap, tree)
    requires AgreeOn(replacedBy, replacedBy', Elements(NodesOf(tree.replacedTrees)))
    requires AgreeOn(replacesMap, replacesMap', NodeSet(tree))
    ensures Mirrors(replacedBy', replacesMap', tree)
    decreases tree
  {
    assert tree.Id() in Nodes(tree);
    assert tree.Id() in NodeSet(tree);
    assert Elements(NodesOf(tree.replacedTrees)) <= NodeSet(tree);
    MirrorsAllFrame(replacedBy, replacesMap, replacedBy', replacesMap', tree.Id(), tree.replacedTrees);
  }

  lemma {:induction false} MirrorsAllFrame(
    replacedBy: Links, replacesMap: Kids, replacedBy': Links, replacesMap': Kids, parent: TxId, trees: seq<RbfTree>)
    requires MirrorsAll(replacedBy, replacesMap, parent, trees)
    requires AgreeOn(replacedBy, replacedBy', Elements(NodesOf(trees)))
    requires AgreeOn(replacesMap, replacesMap', Elements(NodesOf(trees)))
    ensures MirrorsAll(replacedBy', replacesMap', parent, trees)
    decreases trees
  {
    if trees != [] {
      var init, last := trees[..|trees|-1], trees[|trees|-1];
      assert Elements(NodesOf(trees)) == Elements(NodesOf(init)) + NodeSet(last);
      assert last.Id() in Nodes(last);
      assert Elements(NodesOf(last.replacedTrees)) <= NodeSet(last);
      MirrorsAllFrame(replacedBy, replacesMap, replacedBy', replacesMap', parent, init);
      MirrorsFrame(replacedBy, replacesMap, replacedBy', replacesMap', last);
      assert last.Id() in NodeSet(last);
    }
  }

  lemma {:induction false} MirrorsOne(replacedBy: Links, replacesMap: Kids, parent: TxId, trees: seq<RbfTree>, i: nat)
    requires MirrorsAll(replacedBy, replacesMap, parent, trees) && i < |trees|
    ensures trees[i].Id() in replacedBy && replacedBy[trees[i].Id()] == parent
    ensures Mirrors(replacedBy, replacesMap, trees[i])
  {
    if i < |trees| - 1 {
      MirrorsOne(replacedBy, replacesMap, parent, trees[..|trees|-1], i);
    }
  }

  /** Every transaction below the root has been replaced, and is listed by its replacement. */
  lemma {:induction false} ReplacementLists(replacedBy: Links, replacesMap: Kids, tree: RbfTree, a: TxId)
    requires Mirrors(replacedBy, replacesMap, tree) && a in NodesOf(tree.replacedTrees)
    ensures a in replacedBy && replacedBy[a] in Nodes(tree)
    ensures replacedBy[a] in replacesMap && a in replacesMap[replacedBy[a]]
    decreases tree
  {
    var i := NodeIsInSome(tree.replacedTrees, a);
    var kid := tree.replacedTrees[i];
    MirrorsOne(replacedBy, replacesMap, tree.Id(), tree.replacedTrees, i);
    NodesAreIn(tree.replacedTrees, i);
    if a == kid.Id() {
      assert Ids(tree.replacedTrees)[i] == a;
      assert tree.Id() in Nodes(tree);
    } else {
      assert a in NodesOf(kid.replacedTrees);
      ReplacementLists(replacedBy, replacesMap, kid, a);
      assert replacedBy[a] in Elements(Nodes(kid));
      assert replacedBy[a] in NodesOf(tree.replacedTrees);
    }
  }

  /** Whoever is listed as replaced by a transaction of the tree points back to it. */
  lemma {:induction false} ListedPointsBack(replacedBy: Links, replacesMap: Kids, tree: RbfTree, b: TxId, a: TxId)
    requires Mirrors(replacedBy, replacesMap, tree) && b in Nodes(tree) && b in replacesMap && a in replacesMap[b]
    requires Distinct(Nodes(tree))
    ensures a in NodesOf(tree.replacedTrees) && a in replacedBy && replacedBy[a] == b
    decreases tree
  {
    if b == tree.Id() {
      var i :| 0 <= i < |replacesMap[b]| && replacesMap[b][i] == a;
      MirrorsOne(replacedBy, replacesMap, tree.Id(), tree.replacedTrees, i);
      NodesAreIn(tree.replacedTrees, i);
    } else {
      assert b in NodesOf(tree.replacedTrees);
      var i := NodeIsInSome(tree.replacedTrees, b);
      MirrorsOne(replacedBy, replacesMap, tree.Id(), tree.replacedTrees, i);
      DistinctBelow(tree, i);
      ListedPointsBack(replacedBy, replacesMap, tree.replacedTrees[i], b, a);
      NodesAreIn(tree.replacedTrees, i);
      assert a in Elements(Nodes(tree.replacedTrees[i]));
    }
  }

  lemma DistinctParts(s: seq<TxId>, t: seq<TxId>)
    requires Distinct(s + t)
    ensures Distinct(s) && Distinct(t) && Elements(s) !! Elements(t)
  {
    forall i, j | 0 <= i < j < |s| ensures s[i] != s[j] {
      assert (s + t)[i] == s[i] && (s + t)[j] == s[j];
    }
    forall i, j | 0 <= i < j < |t| ensures t[i] != t[j] {
      assert (s + t)[|s| + i] == t[i] && (s + t)[|s| + j] == t[j];
    }
    forall i, j | 0 <= i < |s| && 0 <= j < |t| ensures s[i] != t[j] {
      assert (s + t)[i] == s[i] && (s + t)[|s| + j] == t[j];
    }
  }

  lemma {:induction false} DistinctAmong(trees: seq<RbfTree>, i: nat)
    requires Distinct(NodesOf(trees)) && i < |trees|
    ensures Distinct(Nodes(trees[i]))
    ensures forall j :: 0 <= j < |trees| && j != i ==> Elements(Nodes(trees[i])) !! Elements(Nodes(trees[j]))
  {
    var init, last := trees[..|trees|-1], trees[|trees|-1];
    DistinctParts(NodesOf(init), Nodes(last));
    forall j | 0 <= j < |init|
      ensures Elements(Nodes(init[j])) !! Elements(Nodes(last))
    {
      NodesAreIn(init, j);
    }
    if i < |init| {
      DistinctAmong(init, i);
      forall j | 0 <= j < |trees| && j != i
        ensures Elements(Nodes(trees[i])) !! Elements(Nodes(trees[j]))
      {
        if j < |init| {
          assert init[j] == trees[j];
        }
      }
    }
  }

  lemma DistinctBelow(tree: RbfTree, i: nat)
    requires Distinct(Nodes(tree)) && i < |tree.replacedTrees|
    ensures Distinct(Nodes(tree.replacedTrees[i])) && tree.Id() !in NodesOf(tree.replacedTrees)
    ensures Distinct(NodesOf(tree.replacedTrees))
  {
    DistinctParts([tree.Id()], NodesOf(tree.replacedTrees));
    assert tree.Id() in Elements([tree.Id()]);
    assert tree.Id() !in Elements(NodesOf(tree.replacedTrees));
    DistinctAmong(tree.replacedTrees, i);
  }

  // ------------------------------------------------------------------ forests

  /** The stored trees, by the id of their root. */
  type Forest = map<TxId, RbfTree>

  ghost function AllNodes(forest: Forest): set<TxId> {
    set id, x | id in forest && x in Nodes(forest[id]) :: x
  }

  /** Trees are stored under their roots and no transaction occurs twice. */
  ghost predicate Disjoint(forest: Forest) {
    && (forall id {:trigger forest[id]} :: id in forest ==> forest[id].Id() == id && Distinct(Nodes(forest[id])))
    && forall id, other, x {:trigger x in Nodes(forest[id]), x in Nodes(forest[other])} ::
         id in forest && other in forest && x in Nodes(forest[id]) && x in Nodes(forest[other]) ==> id == other
  }

  ghost predicate Linked(forest: Forest, replacedBy: Links, replacesMap: Kids) {
    && Disjoint(forest)
    && forall id {:trigger Mirrors(replacedBy, replacesMap, forest[id])} :: id in forest ==>
         id !in replacedBy && Mirrors(replacedBy, replacesMap, forest[id])
  }

  ghost predicate KeysWithin(nodes: set<TxId>, replacedBy: Links, replacesMap: Kids) {
    replacedBy.Keys <= nodes && replacesMap.Keys <= nodes
  }

  ghost predicate Mapped(forest: Forest, treeMap: Links) {
    && treeMap.Keys == AllNodes(forest)
    && forall id, x {:trigger x in Nodes(forest[id])} :: id in forest && x in Nodes(forest[id]) ==> treeMap[x] == id
  }

  /** The three lookup maps are determined by the stored trees. */
  ghost predicate Represents(forest: Forest, replacedBy: Links, replacesMap: Kids, treeMap: Links) {
    && Linked(forest, replacedBy, replacesMap)
    && KeysWithin(AllNodes(forest), replacedBy, replacesMap)
    && Mapped(forest, treeMap)
  }

  lemma RootIsNode(forest: Forest, id: TxId)
    requires Disjoint(forest) && id in forest
    ensures id in Nodes(forest[id]) && id in AllNodes(forest)
  {
  }

  // ------------------------- the invariants the cache is documented to keep

  /** Symmetry: A is replaced by B just when B lists A. */
  lemma Symmetry(
    forest: Forest, replacedBy: Links, replacesMap: Kids, treeMap: Links, a: TxId, b: TxId)
    requires Represents(forest, replacedBy, replacesMap, treeMap)
    ensures (a in replacedBy && replacedBy[a] == b) <==> (b in replacesMap && a in replacesMap[b])
  {
    if a in replacedBy && replacedBy[a] == b {
      var id :| id in forest && a in Nodes(forest[id]);
      assert Mirrors(replacedBy, replacesMap, forest[id]);
      assert a in NodesOf(forest[id].replacedTrees);
      ReplacementLists(replacedBy, replacesMap, forest[id], a);
    }
    if b in replacesMap && a in replacesMap[b] {
      var id :| id in forest && b in Nodes(forest[id]);
      assert Mirrors(replacedBy, replacesMap, forest[id]);
      ListedPointsBack(replacedBy, replacesMap, forest[id], b, a);
    }
  }

  /** Unique tree: a transaction and its replacement are in the same tree. */
  lemma UniqueTree(
    forest: Forest, replacedBy: Links, replacesMap: Kids, treeMap: Links, a: TxId, b: TxId)
    requires Represents(forest, replacedBy, replacesMap, treeMap)
    requires b in replacesMap && a in replacesMap[b]
    ensures a in treeMap && b in treeMap && treeMap[a] == treeMap[b]
  {
    var id :| id in forest && b in Nodes(forest[id]);
    assert Mirrors(replacedBy, replacesMap, forest[id]);
    ListedPointsBack(replacedBy, replacesMap, forest[id], b, a);
    assert a in Nodes(forest[id]);
  }

  /** Unique id and existence: a tree's id is a root that is stored and is its own tree id. */
  lemma UniqueIdAndExistence(
    forest: Forest, replacedBy: Links, replacesMap: Kids, treeMap: Links, x: TxId)
    requires Represents(forest, replacedBy, replacesMap, treeMap) && x in treeMap
    ensures treeMap[x] in forest && x in Nodes(forest[treeMap[x]])
    ensures treeMap[x] in treeMap && treeMap[treeMap[x]] == treeMap[x]
    ensures x in replacedBy <==> treeMap[x] != x
  {
    var id :| id in forest && x in Nodes(forest[id]);
    RootIsNode(forest, id);
    assert Mirrors(replacedBy, replacesMap, forest[id]);
    if x != id {
      assert x in NodesOf(forest[id].replacedTrees);
      ReplacementLists(replacedBy, replacesMap, forest[id], x);
    }
  }

  /** Completeness: whoever is mentioned by either link map belongs to a tree. */
  lemma Completeness(
    forest: Forest, replacedBy: Links, replacesMap: Kids, treeMap: Links, x: TxId)
    requires Represents(forest, replacedBy, replacesMap, treeMap)
    ensures x in replacedBy ==> x in treeMap && replacedBy[x] in treeMap
    ensures x in replacesMap ==> x in treeMap && replacesMap[x] != []
    ensures x in replacesMap ==> forall y :: y in replacesMap[x] ==> y in treeMap
  {
    if x in replacedBy {
      Symmetry(forest, replacedBy, replacesMap, treeMap, x, replacedBy[x]);
    }
    if x in replacesMap {
      var id :| id in forest && x in Nodes(forest[id]);
      assert Mirrors(replacedBy, replacesMap, forest[id]);
      ListedIsNotEmpty(replacedBy, replacesMap, forest[id], x);
      forall y | y in replacesMap[x]
        ensures y in treeMap
      {
        Symmetry(forest, replacedBy, replacesMap, treeMap, y, x);
      }
    }
  }

  lemma {:induction false} ListedIsNotEmpty(replacedBy: Links, replacesMap: Kids, tree: RbfTree, b: TxId)
    requires Mirrors(replacedBy, replacesMap, tree) && b in Nodes(tree) && b in replacesMap
    ensures replacesMap[b] != []
    decreases tree
  {
    if b != tree.Id() {
      assert b in NodesOf(tree.replacedTrees);
      var i := NodeIsInSome(tree.replacedTrees, b);
      MirrorsOne(replacedBy, replacesMap, tree.Id(), tree.replacedTrees, i);
      ListedIsNotEmpty(replacedBy, replacesMap, tree.replacedTrees[i], b);
    }
  }

  /** Each step of the chain is the replacement of the step before. */
  ghost predicate ReplacementChain(replacedBy: Links, chain: seq<TxId>) {
    && chain != []
    && forall i {:trigger chain[i]} :: 0 <= i < |chain| - 1 ==>
        chain[i] in replacedBy && replacedBy[chain[i]] == chain[i+1]
  }

  lemma {:induction false} ChainInTree(replacedBy: Links, replacesMap: Kids, tree: RbfTree, x: TxId)
    returns (chain: seq<TxId>)
    requires Mirrors(replacedBy, replacesMap, tree) && Distinct(Nodes(tree)) && x in Nodes(tree)
    ensures ReplacementChain(replacedBy, chain) && Distinct(chain) && Elements(chain) <= NodeSet(tree)
    ensures chain[0] == x && chain[|chain|-1] == tree.Id()
    decreases tree
  {
    if x == tree.Id() {
      chain := [x];
    } else {
      assert x in NodesOf(tree.replacedTrees);
      var i := NodeIsInSome(tree.replacedTrees, x);
      var kid := tree.replacedTrees[i];
      MirrorsOne(replacedBy, replacesMap, tree.Id(), tree.replacedTrees, i);
      DistinctBelow(tree, i);
      NodesAreIn(tree.replacedTrees, i);
      var lower := ChainInTree(replacedBy, replacesMap, kid, x);
      chain := lower + [tree.Id()];
      assert Elements([tree.Id()]) == {tree.Id()};
      assert tree.Id() !in Elements(NodesOf(tree.replacedTrees));
      DistinctConcat(lower, [tree.Id()]);
      assert Elements(NodesOf(tree.replacedTrees)) <= NodeSet(tree);
    }
  }

  /** The tree id of a transaction is the end of its chain of replacements, which never
      meets the same transaction twice. */
  lemma TreeIdEndsTheChain(
    forest: Forest, replacedBy: Links, replacesMap: Kids, treeMap: Links, x: TxId)
    returns (chain: seq<TxId>)
    requires Represents(forest, replacedBy, replacesMap, treeMap) && x in treeMap
    ensures ReplacementChain(replacedBy, chain) && Distinct(chain)
    ensures chain[0] == x && chain[|chain|-1] == treeMap[x] && treeMap[x] !in replacedBy
  {
    var id :| id in forest && x in Nodes(forest[id]);
    assert Mirrors(replacedBy, replacesMap, forest[id]);
    chain := ChainInTree(replacedBy, replacesMap, forest[id], x);
  }
  /** Nothing is replaced by itself. */
  lemma NothingReplacesItself(forest: Forest, replacedBy: Links, replacesMap: Kids, treeMap: Links, x: TxId)
    requires Represents(forest, replacedBy, replacesMap, treeMap) && x in replacedBy
    ensures replacedBy[x] != x
  {
    Completeness(forest, replacedBy, replacesMap, treeMap, x);
    UniqueIdAndExistence(forest, replacedBy, replacesMap, treeMap, x);
    var chain := TreeIdEndsTheChain(forest, replacedBy, replacesMap, treeMap, x);
    assert |chain| > 1;
    assert replacedBy[chain[0]] == chain[1];
  }
}
