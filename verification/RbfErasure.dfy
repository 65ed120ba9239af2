/** Forgetting a whole tree, and that the stored trees determine the lookup maps. */
module RbfErasure {
  import opened Basics
  import opened RbfForest
  import opened RbfMirror
  import opened RbfUpdates
  import opened RbfGrowth

  /** All the maps of the cache. */
  datatype State = State(memory: Memory, replacedBy: Links, replacesMap: Kids, treeMap: Links)

  ghost predicate Kept(s: State) {
    WellKept(s.memory, s.replacedBy, s.replacesMap, s.treeMap)
  }

  /** Forgets `nodes` everywhere, the links of `replaced` and the stored trees `roots`. */
  function Erased(s: State, replaced: set<TxId>, nodes: set<TxId>, roots: set<TxId>): State {
    State(
      Memory(s.memory.txs - nodes, s.memory.trees - roots, s.memory.expiring - nodes),
      s.replacedBy - replaced, s.replacesMap - nodes, s.treeMap - nodes)
  }

  lemma ErasedTwice(
    s: State, replaced: set<TxId>, nodes: set<TxId>, roots: set<TxId>, replaced': set<TxId>, nodes': set<TxId>,
    roots': set<TxId>)
    ensures Erased(Erased(s, replaced, nodes, roots), replaced', nodes', roots') ==
      Erased(s, replaced + replaced', nodes + nodes', roots + roots')
  {
  }

  lemma TwoRemovals<K, V>(m: map<K, V>, a: set<K>, b: set<K>)
    ensures m - a - b == m - (a + b)
  {
  }

  /** A tree that can be forgotten from `txid` down. */
  ghost predicate Removable(s: State, tree: RbfTree) {
    && tree.Id() !in s.replacedBy
    && Mirrors(s.replacedBy, s.replacesMap, tree)
    && Distinct(Nodes(tree))
    && forall x {:trigger s.treeMap[x]} :: x in NodesOf(tree.replacedTrees) && x in s.treeMap ==> s.treeMap[x] != x
  }

  /** With the kids before it forgotten, the next kid can be forgotten once its link is. */
  lemma NextIsRemovable(s: State, tree: RbfTree, i: nat, roots: set<TxId>)
    requires Removable(s, tree) && i < |tree.replacedTrees|
    ensures var kid, earlier := tree.replacedTrees[i], Elements(NodesOf(tree.replacedTrees[..i]));
      Removable(Erased(s, earlier + {kid.Id()}, {tree.Id()} + earlier, roots), kid)
    ensures tree.replacedTrees[i].Id() in s.treeMap ==>
      s.treeMap[tree.replacedTrees[i].Id()] != tree.replacedTrees[i].Id()
  {
    var kids, kid, earlier := tree.replacedTrees, tree.replacedTrees[i], Elements(NodesOf(tree.replacedTrees[..i]));
    var after := Erased(s, earlier + {kid.Id()}, {tree.Id()} + earlier, roots);
    DistinctBelow(tree, i);
    KidApart(kids, i);
    NodesAreIn(kids, i);
    MirrorsOne(s.replacedBy, s.replacesMap, tree.Id(), kids, i);
    DistinctParts([kid.Id()], NodesOf(kid.replacedTrees));
    assert kid.Id() in Elements([kid.Id()]);
    assert Elements(NodesOf(kid.replacedTrees)) <= NodeSet(kid);
    assert tree.Id() !in Elements(NodesOf(kids));
    MirrorsFrame(s.replacedBy, s.replacesMap, after.replacedBy, after.replacesMap, kid);
    assert forall x :: x in NodesOf(kid.replacedTrees) ==> x in Elements(NodesOf(kids));
  }

  lemma KidApart(trees: seq<RbfTree>, i: nat)
    requires Distinct(NodesOf(trees)) && i < |trees|
    ensures Elements(NodesOf(trees[..i])) !! NodeSet(trees[i])
  {
    assert trees == trees[..i+1] + trees[i+1..];
    NodesOfSplits(trees[..i+1], trees[i+1..]);
    DistinctParts(NodesOf(trees[..i+1]), NodesOf(trees[i+1..]));
    PrefixStep(trees, i);
    DistinctParts(NodesOf(trees[..i]), Nodes(trees[i]));
  }

  /** The sets after one more kid. */
  lemma OneMoreKid(trees: seq<RbfTree>, i: nat)
    requires i < |trees|
    ensures Elements(NodesOf(trees[..i+1])) == Elements(NodesOf(trees[..i])) + NodeSet(trees[i])
    ensures NodeSet(trees[i]) == {trees[i].Id()} + Elements(NodesOf(trees[i].replacedTrees))
  {
    PrefixStep(trees, i);
  }

  lemma StoredIsRemovable(s: State, id: TxId)
    requires Kept(s) && id in s.memory.trees
    ensures Removable(s, s.memory.trees[id]) && id in s.treeMap && s.treeMap[id] == id
  {
    WithoutTree(s.memory.trees, s.replacedBy, s.replacesMap, id);
    IdsBelow(s.memory.trees, s.treeMap, id);
  }

  lemma IdsBelow(trees: Forest, treeMap: Links, id: TxId)
    requires Disjoint(trees) && Mapped(trees, treeMap) && id in trees
    ensures id in treeMap && treeMap[id] == id
    ensures forall x {:trigger treeMap[x]} :: x in NodesOf(trees[id].replacedTrees) && x in treeMap ==> treeMap[x] != x
  {
    RootIsNode(trees, id);
    RootApart(trees[id]);
    forall x | x in NodesOf(trees[id].replacedTrees) && x in treeMap ensures treeMap[x] != x {
      assert x in Nodes(trees[id]);
      assert x in Elements(NodesOf(trees[id].replacedTrees));
    }
  }

  /** Forgetting a stored tree entirely keeps everything the cache keeps. */
  lemma ErasedIsKept(s: State, id: TxId)
    requires Kept(s) && id in s.memory.trees
    ensures var tree := s.memory.trees[id];
      Kept(Erased(s, Elements(NodesOf(tree.replacedTrees)), NodeSet(tree), {id}))
  {
    var trees, tree := s.memory.trees, s.memory.trees[id];
    WithoutTree(trees, s.replacedBy, s.replacesMap, id);
    ErasedTree(trees, s.replacedBy, s.replacesMap, s.treeMap, id);
    RootApart(tree);
    RemovalsBut(s.replacedBy, Elements(NodesOf(tree.replacedTrees)), id);
    ErasedFlags(s.memory.txs, trees, id);
    ErasedKeys(s.memory.txs, s.treeMap, s.memory.expiring, NodeSet(tree));
  }

  lemma RemovalsBut<K, V>(m: map<K, V>, gone: set<K>, k: K)
    requires k !in m
    ensures m - ({k} + gone) == m - gone
  {
  }

  lemma ErasedKeys(txs: Txs, treeMap: Links, expiring: map<TxId, int>, gone: set<TxId>)
    requires txs.Keys == treeMap.Keys && expiring.Keys <= txs.Keys
    ensures (txs - gone).Keys == (treeMap - gone).Keys && (expiring - gone).Keys <= (txs - gone).Keys
  {
  }

  lemma RootApart(tree: RbfTree)
    requires Distinct(Nodes(tree))
    ensures tree.Id() !in Elements(NodesOf(tree.replacedTrees))
    ensures NodeSet(tree) == {tree.Id()} + Elements(NodesOf(tree.replacedTrees))
  {
    DistinctParts([tree.Id()], NodesOf(tree.replacedTrees));
    assert tree.Id() in Elements([tree.Id()]);
  }

  lemma ErasedFlags(txs: Txs, trees: Forest, id: TxId)
    requires Disjoint(trees) && AllNodes(trees) == txs.Keys && AllFlagged(txs, trees) && id in trees
    requires AllNodes(trees - {id}) == AllNodes(trees) - NodeSet(trees[id])
    ensures AllFlagged(txs - NodeSet(trees[id]), trees - {id})
  {
    var fewer := trees - {id};
    assert AllFlagged(txs, fewer);
    assert Disjoint(fewer) by {
      forall one, two, x | one in fewer && two in fewer && x in Nodes(fewer[one]) && x in Nodes(fewer[two])
        ensures one == two
      {
        assert x in Nodes(trees[one]) && x in Nodes(trees[two]);
      }
    }
    FlagsSurvive(txs, txs - NodeSet(trees[id]), fewer);
  }

  /** A tree is marked as full RBF exactly when a transaction with its tree id, other than
      its root, does not signal replaceability. */
  lemma FullRbfMeans(s: State, id: TxId)
    requires Kept(s) && id in s.memory.trees
    ensures s.memory.trees[id].fullRbf <==>
      exists x {:trigger s.treeMap[x]} :: x in s.treeMap && s.treeMap[x] == id && x != id && x in s.memory.txs &&
          !Signals(s.memory.txs[x])
  {
    var trees, tree := s.memory.trees, s.memory.trees[id];
    assert Flagged(s.memory.txs, tree);
    RootApart(tree);
    if tree.fullRbf {
      var x :| x in NodesOf(tree.replacedTrees) && x in s.memory.txs && !Signals(s.memory.txs[x]);
      assert x in Elements(NodesOf(tree.replacedTrees)) && x in Nodes(trees[id]);
      assert s.treeMap[x] == id;
    }
    if x :| x in s.treeMap && s.treeMap[x] == id && x != id && x in s.memory.txs && !Signals(s.memory.txs[x]) {
      UniqueIdAndExistence(trees, s.replacedBy, s.replacesMap, s.treeMap, x);
      assert x in NodesOf(tree.replacedTrees);
    }
  }

  // ------------------------------------------------------- sweeping the expired

  /** From `before`, the ids of `gone` have expired: trees stored under them are forgotten
      and the rest is as it was. */
  ghost predicate Swept(before: State, gone: set<TxId>, s: State) {
    Kept(s) && Leaves(before.memory, gone, s.memory)
  }

  ghost predicate Leaves(before: Memory, gone: set<TxId>, after: Memory) {
    && after.trees == before.trees - gone
    && (forall x {:trigger after.txs[x]} :: x in after.txs ==> x in before.txs && after.txs[x] == before.txs[x])
    && after.expiring == StillExpiring(before.expiring, after.txs.Keys, gone)
  }

  function StillExpiring(expiring: map<TxId, int>, known: set<TxId>, gone: set<TxId>): map<TxId, int> {
    map x | x in expiring && x in known && x !in gone :: expiring[x]
  }

  function WithoutExpiry(s: State, id: TxId): State {
    s.(memory := s.memory.(expiring := s.memory.expiring - {id}))
  }

  /** What forgetting `id` leaves, the expiry included. */
  ghost function AfterRemove(s: State, id: TxId): State {
    if id in s.replacedBy || id !in s.memory.trees then s
    else
      var tree := s.memory.trees[id];
      Erased(s, Elements(NodesOf(tree.replacedTrees)), NodeSet(tree), {id})
  }

  lemma StoredOrReplaced(s: State, id: TxId)
    requires Kept(s) && id in s.memory.txs
    ensures id in s.memory.trees <==> id !in s.replacedBy
  {
    UniqueIdAndExistence(s.memory.trees, s.replacedBy, s.replacesMap, s.treeMap, id);
    if id in s.memory.trees {
      RootIsNode(s.memory.trees, id);
    }
  }

  lemma LapsedIsKept(s: State, id: TxId)
    requires Kept(s)
    ensures Kept(WithoutExpiry(s, id)) && (id in s.memory.expiring ==> id in s.memory.txs)
  {
  }

  lemma SweepOne(before: State, gone: set<TxId>, s: State, id: TxId)
    requires Swept(before, gone, s) && id in s.memory.expiring
    ensures Kept(WithoutExpiry(s, id)) && id in s.memory.txs
    ensures Swept(before, gone + {id}, AfterRemove(WithoutExpiry(s, id), id))
  {
    LapsedIsKept(s, id);
    StoredOrReplaced(s, id);
    if id in s.replacedBy {
      SweepReplaced(before, gone, s, id);
    } else {
      SweepRoot(before, gone, s, id);
    }
  }

  lemma SweepReplaced(before: State, gone: set<TxId>, s: State, id: TxId)
    requires Swept(before, gone, s) && Kept(WithoutExpiry(s, id)) && id !in s.memory.trees
    ensures Swept(before, gone + {id}, WithoutExpiry(s, id))
  {
  }

  lemma SweepRoot(before: State, gone: set<TxId>, s: State, id: TxId)
    requires Swept(before, gone, s) && Kept(WithoutExpiry(s, id)) && id in s.memory.trees
    ensures var tree := s.memory.trees[id];
      Swept(before, gone + {id},
          Erased(WithoutExpiry(s, id), Elements(NodesOf(tree.replacedTrees)), NodeSet(tree), {id}))
  {
    ErasedIsKept(WithoutExpiry(s, id), id);
    LeavesLess(before.memory, gone, s.memory, id, NodeSet(s.memory.trees[id]));
  }

  lemma LeavesLess(before: Memory, gone: set<TxId>, m: Memory, id: TxId, nodes: set<TxId>)
    requires Leaves(before, gone, m)
    ensures Leaves(before, gone + {id}, Memory(m.txs - nodes, m.trees - {id}, m.expiring - {id} - nodes))
  {
  }

  lemma TreesWithout(trees: Forest, gone: set<TxId>, id: TxId)
    requires id !in trees - gone
    ensures trees - (gone + {id}) == trees - gone
  {
  }

  /** An id whose expiry went with its tree is already gone. */
  lemma SweepNone(before: State, gone: set<TxId>, s: State, id: TxId)
    requires Swept(before, gone, s) && id in before.memory.expiring && id !in s.memory.expiring && id !in gone
    ensures Swept(before, gone + {id}, s)
  {
    NotKnownNow(before.memory, gone, s.memory, id);
    NotStoredNow(s, id);
    TreesWithout(before.memory.trees, gone, id);
    ExpiringUnknown(before.memory.expiring, s.memory.txs.Keys, gone, id);
  }

  lemma NotKnownNow(before: Memory, gone: set<TxId>, m: Memory, id: TxId)
    requires Leaves(before, gone, m) && id in before.expiring && id !in m.expiring && id !in gone
    ensures id !in m.txs
  {
  }

  lemma NotStoredNow(s: State, id: TxId)
    requires Kept(s) && id !in s.memory.txs
    ensures id !in s.memory.trees
  {
    if id in s.memory.trees {
      RootIsNode(s.memory.trees, id);
      assert false;
    }
  }

  lemma ExpiringUnknown(expiring: map<TxId, int>, known: set<TxId>, gone: set<TxId>, id: TxId)
    requires id !in known
    ensures StillExpiring(expiring, known, gone + {id}) == StillExpiring(expiring, known, gone)
  {
  }

  lemma SweepStart(s: State)
    requires Kept(s)
    ensures Swept(s, {}, s)
  {
  }

  lemma ExpiringMore(s: State, id: TxId, expiry: int)
    requires Kept(s) && id in s.memory.txs
    ensures Kept(s.(memory := s.memory.(expiring := s.memory.expiring[id := expiry])))
  {
  }

  // --------------------------------------------- the trees determine the maps

  /** Two accounts of the same tree agree. */
  lemma {:induction false} TreeDetermines(one: Links, lists: Kids, two: Links, lists': Kids, tree: RbfTree)
    requires Mirrors(one, lists, tree) && Mirrors(two, lists', tree)
    ensures AgreeOn(one, two, Elements(NodesOf(tree.replacedTrees))) && AgreeOn(lists, lists', NodeSet(tree))
    decreases tree
  {
    KidsDetermine(one, lists, two, lists', tree.Id(), tree.replacedTrees);
    assert NodeSet(tree) == {tree.Id()} + Elements(NodesOf(tree.replacedTrees));
  }

  lemma {:induction false} KidsDetermine(
    one: Links, lists: Kids, two: Links, lists': Kids, parent: TxId, trees: seq<RbfTree>)
    requires MirrorsAll(one, lists, parent, trees) && MirrorsAll(two, lists', parent, trees)
    ensures AgreeOn(one, two, Elements(NodesOf(trees))) && AgreeOn(lists, lists', Elements(NodesOf(trees)))
    decreases trees
  {
    if trees != [] {
      var init, last := trees[..|trees|-1], trees[|trees|-1];
      KidsDetermine(one, lists, two, lists', parent, init);
      TreeDetermines(one, lists, two, lists', last);
      assert Elements(NodesOf(trees)) == Elements(NodesOf(init)) + NodeSet(last);
      assert NodeSet(last) == {last.Id()} + Elements(NodesOf(last.replacedTrees));
    }
  }

  /** The three lookup maps hold nothing the stored trees do not say. */
  lemma TreesDetermineMaps(
    forest: Forest, replacedBy: Links, replacesMap: Kids, treeMap: Links, replacedBy': Links, replacesMap': Kids,
    treeMap': Links)
    requires Represents(forest, replacedBy, replacesMap, treeMap)
    requires Represents(forest, replacedBy', replacesMap', treeMap')
    ensures replacedBy' == replacedBy && replacesMap' == replacesMap && treeMap' == treeMap
  {
    forall x | x in AllNodes(forest)
      ensures AgreeOn(replacedBy, replacedBy', {x}) && AgreeOn(replacesMap, replacesMap', {x}) &&
        treeMap[x] == treeMap'[x]
    {
      var id :| id in forest && x in Nodes(forest[id]);
      assert Mirrors(replacedBy, replacesMap, forest[id]) && Mirrors(replacedBy', replacesMap', forest[id]);
      TreeDetermines(replacedBy, replacesMap, replacedBy', replacesMap', forest[id]);
      assert x in NodeSet(forest[id]);
      assert x == id || x in Elements(NodesOf(forest[id].replacedTrees));
    }
    SameOn(replacedBy, replacedBy', AllNodes(forest));
    SameOn(replacesMap, replacesMap', AllNodes(forest));
  }

  lemma SameOn<K(!new), V>(a: map<K, V>, b: map<K, V>, keys: set<K>)
    requires a.Keys <= keys && b.Keys <= keys
    requires forall x {:trigger x in keys} :: x in keys ==> AgreeOn(a, b, {x})
    ensures a == b
  {
  }
}
