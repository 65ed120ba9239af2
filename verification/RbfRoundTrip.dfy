/** Exported trees and what importing them brings back. */
module RbfRoundTrip {
  import opened Basics
  import opened RbfForest
  import opened RbfExport
  import opened RbfGrowth

  // ------------------------------------------------------------------ exporting

  lemma {:induction false} ExportDescribes(tree: RbfTree, records: Records)
    requires Distinct(Nodes(tree))
    ensures Describes(ExportInto(tree, records), tree)
    ensures ExportInto(tree, records).Keys == records.Keys + NodeSet(tree)
    ensures forall x {:trigger records[x]} :: x in records && x !in Nodes(tree) ==>
      ExportInto(tree, records)[x] == records[x]
    decreases tree
  {
    var own := records[tree.Id() := InfoOf(tree)];
    DistinctParts([tree.Id()], NodesOf(tree.replacedTrees));
    assert tree.Id() in Elements([tree.Id()]);
    assert tree.Id() !in Elements(NodesOf(tree.replacedTrees));
    ExportAllDescribes(tree.replacedTrees, own);
    assert own[tree.Id()] == InfoOf(tree);
    assert NodeSet(tree) == {tree.Id()} + Elements(NodesOf(tree.replacedTrees));
    forall x | x in records && x !in Nodes(tree) ensures ExportInto(tree, records)[x] == records[x] {
      assert own[x] == records[x];
    }
  }

  lemma {:induction false} ExportAllDescribes(trees: seq<RbfTree>, records: Records)
    requires Distinct(NodesOf(trees))
    ensures RecordsAll(ExportAll(trees, records), trees)
    ensures ExportAll(trees, records).Keys == records.Keys + Elements(NodesOf(trees))
    ensures forall x {:trigger records[x]} :: x in records && x !in NodesOf(trees) ==>
      ExportAll(trees, records)[x] == records[x]
    decreases trees
  {
    if trees != [] {
      var init, last := trees[..|trees|-1], trees[|trees|-1];
      DistinctParts(NodesOf(init), Nodes(last));
      var before := ExportAll(init, records);
      ExportAllDescribes(init, records);
      ExportDescribes(last, before);
      assert Elements(NodesOf(trees)) == Elements(NodesOf(init)) + NodeSet(last);
      assert forall x :: x in NodesOf(init) ==> x in Elements(NodesOf(init)) && x !in Elements(Nodes(last));
      assert forall x :: x in before && x !in Nodes(last) ==> ExportInto(last, before)[x] == before[x];
      RecordsFrame(before, ExportInto(last, before), init);
    }
  }

  lemma {:induction false} RecordsFrame(records: Records, records': Records, trees: seq<RbfTree>)
    requires RecordsAll(records, trees)
    requires forall x {:trigger x in NodesOf(trees)} :: x in NodesOf(trees) && x in records ==>
      x in records' && records'[x] == records[x]
    ensures RecordsAll(records', trees)
    decreases trees
  {
    if trees != [] {
      var init, last := trees[..|trees|-1], trees[|trees|-1];
      assert NodesOf(trees) == NodesOf(init) + Nodes(last);
      assert forall x :: x in NodesOf(init) || x in Nodes(last) ==> x in NodesOf(trees);
      RecordsFrame(records, records', init);
      RecordFrame(records, records', last);
    }
  }

  lemma {:induction false} RecordFrame(records: Records, records': Records, tree: RbfTree)
    requires Describes(records, tree)
    requires forall x {:trigger x in Nodes(tree)} :: x in Nodes(tree) && x in records ==>
      x in records' && records'[x] == records[x]
    ensures Describes(records', tree)
    decreases tree
  {
    assert Nodes(tree)[0] == tree.Id();
    assert tree.Id() in Nodes(tree);
    assert forall x :: x in NodesOf(tree.replacedTrees) ==> x in Nodes(tree);
    RecordsFrame(records, records', tree.replacedTrees);
  }

  lemma {:induction false} RecordsOne(records: Records, trees: seq<RbfTree>, i: nat)
    requires RecordsAll(records, trees) && i < |trees|
    ensures Describes(records, trees[i])
  {
    if i < |trees| - 1 {
      RecordsOne(records, trees[..|trees|-1], i);
    }
  }

  // ------------------------------------------------------------------ importing

  lemma KnownParts(known: set<TxId>, trees: seq<RbfTree>)
    requires trees != [] && Elements(NodesOf(trees)) <= known
    ensures Elements(NodesOf(trees[..|trees|-1])) <= known && NodeSet(trees[|trees|-1]) <= known
  {
  }

  lemma KnownBelow(known: set<TxId>, tree: RbfTree)
    requires NodeSet(tree) <= known
    ensures tree.Id() in known && Elements(NodesOf(tree.replacedTrees)) <= known
  {
  }

  /** What an import brings back: all but the flag of the tree and the full-RBF flag of the
      transaction; the signalling flag is computed anew. */
  function Restored(txs: Txs, tree: RbfTree): RbfTree
    requires NodeSet(tree) <= txs.Keys
  {
    KnownBelow(txs.Keys, tree);
    RbfTree(RbfTx(tree.Id(), Signals(txs[tree.Id()]), tree.tx.mined, false), tree.time, tree.interval, false,
        tree.fullRbf,
      RestoredAll(txs, tree.replacedTrees))
  }

  function RestoredAll(txs: Txs, trees: seq<RbfTree>): (restored: seq<RbfTree>)
    requires Elements(NodesOf(trees)) <= txs.Keys
    ensures |restored| == |trees|
  {
    if trees == [] then []
    else
      KnownParts(txs.Keys, trees);
      RestoredAll(txs, trees[..|trees|-1]) + [Restored(txs, trees[|trees|-1])]
  }

  /** The flags an import recomputes or drops are as it will set them. */
  ghost predicate Plain(txs: Txs, tree: RbfTree)
    decreases tree
  {
    && tree.Id() in txs && tree.tx.rbf == Signals(txs[tree.Id()])
    && !tree.tx.fullRbf && !tree.mined
    && PlainAll(txs, tree.replacedTrees)
  }

  ghost predicate PlainAll(txs: Txs, trees: seq<RbfTree>)
    decreases trees
  {
    trees == [] || (PlainAll(txs, trees[..|trees|-1]) && Plain(txs, trees[|trees|-1]))
  }

  /** A tree without those flags comes back as it was. */
  lemma {:induction false} PlainComesBack(txs: Txs, tree: RbfTree)
    requires NodeSet(tree) <= txs.Keys && Plain(txs, tree)
    ensures Restored(txs, tree) == tree
    decreases tree
  {
    KnownBelow(txs.Keys, tree);
    PlainAllComeBack(txs, tree.replacedTrees);
  }

  lemma {:induction false} PlainAllComeBack(txs: Txs, trees: seq<RbfTree>)
    requires Elements(NodesOf(trees)) <= txs.Keys && PlainAll(txs, trees)
    ensures RestoredAll(txs, trees) == trees
    decreases trees
  {
    if trees != [] {
      KnownParts(txs.Keys, trees);
      PlainAllComeBack(txs, trees[..|trees|-1]);
      PlainComesBack(txs, trees[|trees|-1]);
    }
  }

  /** In any case the shape, and the set of mined transactions, come back. */
  lemma {:induction false} ShapeComesBack(txs: Txs, tree: RbfTree)
    requires NodeSet(tree) <= txs.Keys
    ensures Nodes(Restored(txs, tree)) == Nodes(tree) &&
      Ids(Restored(txs, tree).replacedTrees) == Ids(tree.replacedTrees)
    decreases tree
  {
    KnownBelow(txs.Keys, tree);
    ShapesComeBack(txs, tree.replacedTrees);
  }

  lemma {:induction false} ShapesComeBack(txs: Txs, trees: seq<RbfTree>)
    requires Elements(NodesOf(trees)) <= txs.Keys
    ensures NodesOf(RestoredAll(txs, trees)) == NodesOf(trees) && Ids(RestoredAll(txs, trees)) == Ids(trees)
    decreases trees
  {
    if trees != [] {
      var init, last := trees[..|trees|-1], trees[|trees|-1];
      KnownParts(txs.Keys, trees);
      ShapesComeBack(txs, init);
      ShapeComesBack(txs, last);
      var restored, restoredLast := RestoredAll(txs, init), Restored(txs, last);
      assert RestoredAll(txs, trees) == restored + [restoredLast];
      assert restoredLast.Id() == last.Id();
      SameShapes(init, last, restored, restoredLast);
      SplitLast(trees);
    }
  }

  lemma {:induction false} MirrorsRestored(replacedBy: Links, replacesMap: Kids, txs: Txs, tree: RbfTree)
    requires NodeSet(tree) <= txs.Keys && Mirrors(replacedBy, replacesMap, tree)
    ensures Mirrors(replacedBy, replacesMap, Restored(txs, tree))
    decreases tree
  {
    KnownBelow(txs.Keys, tree);
    ShapesComeBack(txs, tree.replacedTrees);
    MirrorsAllRestored(replacedBy, replacesMap, txs, tree.Id(), tree.replacedTrees);
  }

  lemma {:induction false} MirrorsAllRestored(
    replacedBy: Links, replacesMap: Kids, txs: Txs, parent: TxId, trees: seq<RbfTree>)
    requires Elements(NodesOf(trees)) <= txs.Keys && MirrorsAll(replacedBy, replacesMap, parent, trees)
    ensures MirrorsAll(replacedBy, replacesMap, parent, RestoredAll(txs, trees))
    decreases trees
  {
    if trees != [] {
      var init, last := trees[..|trees|-1], trees[|trees|-1];
      KnownParts(txs.Keys, trees);
      MirrorsAllRestored(replacedBy, replacesMap, txs, parent, init);
      MirrorsRestored(replacedBy, replacesMap, txs, last);
      var restored := RestoredAll(txs, trees);
      assert restored[..|restored|-1] == RestoredAll(txs, init);
    }
  }

  // ---------------------------------------------------- what there is to bring back

  /** Known, and not in the cache already. */
  predicate Comes(known: set<TxId>, cached: set<TxId>, tree: RbfTree) {
    tree.Id() in known && tree.Id() !in cached
  }

  /** The tree without whatever does not come, nor anything below that. */
  function Pruned(known: set<TxId>, cached: set<TxId>, tree: RbfTree): RbfTree
    decreases tree
  {
    tree.(replacedTrees := PrunedAll(known, cached, tree.replacedTrees))
  }

  function PrunedAll(known: set<TxId>, cached: set<TxId>, trees: seq<RbfTree>): seq<RbfTree>
    decreases trees
  {
    if trees == [] then []
    else
      var init, last := trees[..|trees|-1], trees[|trees|-1];
      PrunedAll(known, cached, init) + if Comes(known, cached, last) then [Pruned(known, cached, last)] else []
  }

  /** What stays was there, is known and was not in the cache. */
  lemma {:induction false} PrunedNodes(known: set<TxId>, cached: set<TxId>, tree: RbfTree)
    ensures NodeSet(Pruned(known, cached, tree)) <= NodeSet(tree)
    ensures Comes(known, cached, tree) ==> NodeSet(Pruned(known, cached, tree)) <= known - cached
    decreases tree
  {
    PrunedNodesOf(known, cached, tree.replacedTrees);
    RootAndBelow(tree);
    RootAndBelow(Pruned(known, cached, tree));
  }

  lemma {:induction false} PrunedNodesOf(known: set<TxId>, cached: set<TxId>, trees: seq<RbfTree>)
    ensures Elements(NodesOf(PrunedAll(known, cached, trees))) <= Elements(NodesOf(trees))
    ensures Elements(NodesOf(PrunedAll(known, cached, trees))) <= known - cached
    decreases trees
  {
    if trees != [] {
      var init, last := trees[..|trees|-1], trees[|trees|-1];
      PrunedNodesOf(known, cached, init);
      PrunedNodes(known, cached, last);
      LastAndBefore(trees);
      if Comes(known, cached, last) {
        LastOfConcat(PrunedAll(known, cached, init), [Pruned(known, cached, last)]);
        LastAndBefore(PrunedAll(known, cached, init) + [Pruned(known, cached, last)]);
      } else {
        assert PrunedAll(known, cached, trees) == PrunedAll(known, cached, init);
      }
    }
  }

  lemma RootAndBelow(tree: RbfTree)
    ensures NodeSet(tree) == {tree.Id()} + Elements(NodesOf(tree.replacedTrees))
  {
    assert Nodes(tree)[0] == tree.Id();
  }

  lemma LastAndBefore(trees: seq<RbfTree>)
    requires trees != []
    ensures Elements(NodesOf(trees)) == Elements(NodesOf(trees[..|trees|-1])) + NodeSet(trees[|trees|-1])
  {
  }

  lemma MoreNodes(trees: seq<RbfTree>, i: nat)
    requires i < |trees|
    ensures Elements(NodesOf(trees[..i+1])) == Elements(NodesOf(trees[..i])) + NodeSet(trees[i])
  {
    PrefixStep(trees, i);
    LastAndBefore(trees[..i+1]);
  }

  /** If all of a tree comes, nothing is cut. */
  lemma {:induction false} PrunedWhole(known: set<TxId>, cached: set<TxId>, tree: RbfTree)
    requires NodeSet(tree) <= known - cached
    ensures Comes(known, cached, tree) && Pruned(known, cached, tree) == tree
    decreases tree
  {
    RootAndBelow(tree);
    PrunedWholeOf(known, cached, tree.replacedTrees);
  }

  lemma {:induction false} PrunedWholeOf(known: set<TxId>, cached: set<TxId>, trees: seq<RbfTree>)
    requires Elements(NodesOf(trees)) <= known - cached
    ensures PrunedAll(known, cached, trees) == trees
    decreases trees
  {
    if trees != [] {
      LastAndBefore(trees);
      PrunedWholeOf(known, cached, trees[..|trees|-1]);
      PrunedWhole(known, cached, trees[|trees|-1]);
      SplitLast(trees);
    }
  }

  /** What an import returns. */
  function Imported(txs: Txs, cached: set<TxId>, tree: RbfTree): Option<RbfTree> {
    if Comes(txs.Keys, cached, tree) then
      PrunedNodes(txs.Keys, cached, tree);
      Some(Restored(txs, Pruned(txs.Keys, cached, tree)))
    else None
  }

  // ----------------------------------------------------- the maps after an import

  /** An import lists nothing for a leaf, where the cache has no list at all. */
  function Lists(replacesMap: Kids): Kids {
    map x | x in replacesMap && replacesMap[x] != [] :: replacesMap[x]
  }

  /** Every transaction of `tree` that is not cached has its list, also an unknown one, and
      the kids that come point back to it. */
  function ImportedLinks(known: set<TxId>, cached: set<TxId>, replacedBy: Links, tree: RbfTree): Links
    decreases tree
  {
    if tree.Id() in cached then replacedBy
    else ImportedLinksOf(known, cached, replacedBy, tree.Id(), tree.replacedTrees)
  }

  function ImportedLinksOf(
    known: set<TxId>, cached: set<TxId>, replacedBy: Links, parent: TxId, trees: seq<RbfTree>): Links
    decreases trees
  {
    if trees == [] then replacedBy
    else
      var init, last := trees[..|trees|-1], trees[|trees|-1];
      var links := ImportedLinks(known, cached, ImportedLinksOf(known, cached, replacedBy, parent, init), last);
      if Comes(known, cached, last) then links[last.Id() := parent] else links
  }

  function ImportedLists(known: set<TxId>, cached: set<TxId>, replacesMap: Kids, tree: RbfTree): Kids
    decreases tree
  {
    if tree.Id() in cached then replacesMap
    else
      ImportedListsOf(known, cached, replacesMap, tree.replacedTrees)
        [tree.Id() := Ids(PrunedAll(known, cached, tree.replacedTrees))]
  }

  function ImportedListsOf(known: set<TxId>, cached: set<TxId>, replacesMap: Kids, trees: seq<RbfTree>): Kids
    decreases trees
  {
    if trees == [] then replacesMap
    else
      ImportedLists(known, cached, ImportedListsOf(known, cached, replacesMap, trees[..|trees|-1]), trees[|trees|-1])
  }

  lemma {:induction false} ImportedFrame(
    known: set<TxId>, cached: set<TxId>, replacedBy: Links, replacesMap: Kids, tree: RbfTree, x: TxId)
    ensures x !in NodesOf(tree.replacedTrees) ==>
      AgreeOn(replacedBy, ImportedLinks(known, cached, replacedBy, tree), {x})
    ensures x !in Nodes(tree) ==> AgreeOn(replacesMap, ImportedLists(known, cached, replacesMap, tree), {x})
    decreases tree
  {
    ImportedFrameOf(known, cached, replacedBy, replacesMap, tree.Id(), tree.replacedTrees, x);
    assert Nodes(tree) == [tree.Id()] + NodesOf(tree.replacedTrees);
    assert x !in Nodes(tree) ==> x != tree.Id() by {
      assert Nodes(tree)[0] == tree.Id();
    }
  }

  lemma {:induction false} ImportedFrameOf(
    known: set<TxId>, cached: set<TxId>, replacedBy: Links, replacesMap: Kids, parent: TxId, trees: seq<RbfTree>,
    x: TxId)
    ensures x !in NodesOf(trees) ==>
      AgreeOn(replacedBy, ImportedLinksOf(known, cached, replacedBy, parent, trees), {x})
    ensures x !in NodesOf(trees) ==> AgreeOn(replacesMap, ImportedListsOf(known, cached, replacesMap, trees), {x})
    decreases trees
  {
    if trees != [] && x !in NodesOf(trees) {
      var init, last := trees[..|trees|-1], trees[|trees|-1];
      assert Nodes(last)[0] == last.Id();
      ImportedFrameOf(known, cached, replacedBy, replacesMap, parent, init, x);
      ImportedFrame(known, cached, ImportedLinksOf(known, cached, replacedBy, parent, init),
                    ImportedListsOf(known, cached, replacesMap, init), last, x);
      assert x in {x};
    }
  }

  /** The maps an import leaves tell the story of the tree it returns. */
  lemma {:induction false} ImportedMirrors(
    known: set<TxId>, cached: set<TxId>, replacedBy: Links, replacesMap: Kids, tree: RbfTree)
    requires Distinct(Nodes(tree)) && tree.Id() !in cached
    ensures Mirrors(ImportedLinks(known, cached, replacedBy, tree),
      Lists(ImportedLists(known, cached, replacesMap, tree)), Pruned(known, cached, tree))
    decreases tree, 0
  {
    var id, kids, pruned := tree.Id(), tree.replacedTrees, PrunedAll(known, cached, tree.replacedTrees);
    DistinctParts([id], NodesOf(kids));
    assert id in Elements([id]);
    assert id !in Elements(NodesOf(kids));
    ImportedMirrorsOf(known, cached, replacedBy, replacesMap, id, kids);
    var links := ImportedLinks(known, cached, replacedBy, tree);
    var lists := Lists(ImportedListsOf(known, cached, replacesMap, kids));
    var lists' := Lists(ImportedLists(known, cached, replacesMap, tree));
    PrunedNodesOf(known, cached, kids);
    assert AgreeOn(lists, lists', Elements(NodesOf(pruned)));
    MirrorsAllFrame(links, lists, links, lists', id, pruned);
    assert Ids(pruned) == [] <==> pruned == [];
  }

  lemma {:induction false} ImportedMirrorsOf(
    known: set<TxId>, cached: set<TxId>, replacedBy: Links, replacesMap: Kids, parent: TxId, trees: seq<RbfTree>)
    requires Distinct(NodesOf(trees))
    ensures MirrorsAll(ImportedLinksOf(known, cached, replacedBy, parent, trees),
      Lists(ImportedListsOf(known, cached, replacesMap, trees)), parent, PrunedAll(known, cached, trees))
    decreases trees, 0
  {
    if trees != [] {
      var init, last := trees[..|trees|-1], trees[|trees|-1];
      var links := ImportedLinksOf(known, cached, replacedBy, parent, init);
      var lists := ImportedListsOf(known, cached, replacesMap, init);
      DistinctParts(NodesOf(init), Nodes(last));
      ImportedMirrorsOf(known, cached, replacedBy, replacesMap, parent, init);
      EarlierKept(known, cached, links, lists, parent, init, last);
      if Comes(known, cached, last) {
        LastMirrored(known, cached, links, lists, parent, last);
        var pruned := PrunedAll(known, cached, trees);
        assert pruned[..|pruned|-1] == PrunedAll(known, cached, init);
        assert pruned[|pruned|-1] == Pruned(known, cached, last);
      } else {
        assert PrunedAll(known, cached, trees) == PrunedAll(known, cached, init);
      }
    }
  }

  /** Importing one more tree leaves what is said of the earlier ones. */
  lemma EarlierKept(
    known: set<TxId>, cached: set<TxId>, links: Links, lists: Kids, parent: TxId, init: seq<RbfTree>, last: RbfTree)
    requires Elements(NodesOf(init)) !! NodeSet(last)
    requires MirrorsAll(links, Lists(lists), parent, PrunedAll(known, cached, init))
    ensures var links' := ImportedLinks(known, cached, links, last);
      MirrorsAll(if Comes(known, cached, last) then links'[last.Id() := parent] else links',
        Lists(ImportedLists(known, cached, lists, last)), parent, PrunedAll(known, cached, init))
  {
    var links' := ImportedLinks(known, cached, links, last);
    var after := if Comes(known, cached, last) then links'[last.Id() := parent] else links';
    var lists' := ImportedLists(known, cached, lists, last);
    var nodes := Elements(NodesOf(PrunedAll(known, cached, init)));
    PrunedNodesOf(known, cached, init);
    RootAndBelow(last);
    forall x | x in nodes
      ensures AgreeOn(links, after, {x}) && AgreeOn(Lists(lists), Lists(lists'), {x})
    {
      assert x !in Elements(Nodes(last));
      ImportedFrame(known, cached, links, lists, last, x);
      assert x in {x};
    }
    AgreeTogether(links, after, nodes);
    AgreeTogether(Lists(lists), Lists(lists'), nodes);
    MirrorsAllFrame(links, Lists(lists), after, Lists(lists'), parent, PrunedAll(known, cached, init));
  }

  lemma {:induction false} LastMirrored(
    known: set<TxId>, cached: set<TxId>, links: Links, lists: Kids, parent: TxId, last: RbfTree)
    requires Distinct(Nodes(last)) && Comes(known, cached, last)
    ensures Mirrors(ImportedLinks(known, cached, links, last)[last.Id() := parent],
      Lists(ImportedLists(known, cached, lists, last)), Pruned(known, cached, last))
    decreases last, 1
  {
    ImportedMirrors(known, cached, links, lists, last);
    DistinctParts([last.Id()], NodesOf(last.replacedTrees));
    assert last.Id() in Elements([last.Id()]);
    PrunedNodesOf(known, cached, last.replacedTrees);
    KeepsRoot(ImportedLinks(known, cached, links, last), Lists(ImportedLists(known, cached, lists, last)),
              Pruned(known, cached, last), parent);
  }

  lemma KeepsRoot(links: Links, lists: Kids, last: RbfTree, parent: TxId)
    requires last.Id() !in Elements(NodesOf(last.replacedTrees)) && Mirrors(links, lists, last)
    ensures Mirrors(links[last.Id() := parent], lists, last)
  {
    MirrorsFrame(links, lists, links[last.Id() := parent], lists, last);
  }

  lemma AgreeTogether<K(!new), V>(a: map<K, V>, b: map<K, V>, keys: set<K>)
    requires forall x {:trigger x in keys} :: x in keys ==> AgreeOn(a, b, {x})
    ensures AgreeOn(a, b, keys)
  {
  }

  /** What an import has done once the kids `trees` are rebuilt. */
  ghost predicate Rebuilt(
    txs: Txs, cached: set<TxId>, links: Links, lists: Kids, parent: TxId, trees: seq<RbfTree>, kids: seq<RbfTree>,
    replacedBy: Links, replacesMap: Kids)
  {
    && Elements(NodesOf(PrunedAll(txs.Keys, cached, trees))) <= txs.Keys
    && kids == RestoredAll(txs, PrunedAll(txs.Keys, cached, trees))
    && replacedBy == ImportedLinksOf(txs.Keys, cached, links, parent, trees)
    && replacesMap == ImportedListsOf(txs.Keys, cached, lists, trees)
  }

  lemma RebuiltStep(
    txs: Txs, cached: set<TxId>, links: Links, lists: Kids, parent: TxId, trees: seq<RbfTree>, i: nat,
    kids: seq<RbfTree>, replacedBy: Links, replacesMap: Kids)
    requires i < |trees|
    requires Rebuilt(txs, cached, links, lists, parent, trees[..i], kids, replacedBy, replacesMap)
    ensures var replaced := Imported(txs, cached, trees[i]);
      var linked := ImportedLinks(txs.Keys, cached, replacedBy, trees[i]);
      Rebuilt(txs, cached, links, lists, parent, trees[..i+1],
        if replaced.Some? then kids + [replaced.value] else kids,
        if replaced.Some? then linked[trees[i].Id() := parent] else linked,
        ImportedLists(txs.Keys, cached, replacesMap, trees[i]))
  {
    RestoredStep(txs, cached, trees, i, kids);
    MapsStep(txs.Keys, cached, links, lists, parent, trees, i);
  }

  lemma RestoredStep(txs: Txs, cached: set<TxId>, trees: seq<RbfTree>, i: nat, kids: seq<RbfTree>)
    requires i < |trees| && Elements(NodesOf(PrunedAll(txs.Keys, cached, trees[..i]))) <= txs.Keys
    requires kids == RestoredAll(txs, PrunedAll(txs.Keys, cached, trees[..i]))
    ensures Elements(NodesOf(PrunedAll(txs.Keys, cached, trees[..i+1]))) <= txs.Keys
    ensures RestoredAll(txs, PrunedAll(txs.Keys, cached, trees[..i+1])) ==
      var replaced := Imported(txs, cached, trees[i]);
      if replaced.Some? then kids + [replaced.value] else kids
  {
    PrunedStep(txs.Keys, cached, trees, i);
    if Comes(txs.Keys, cached, trees[i]) {
      PrunedNodes(txs.Keys, cached, trees[i]);
      RestoredMore(txs, PrunedAll(txs.Keys, cached, trees[..i]), Pruned(txs.Keys, cached, trees[i]));
    }
  }

  lemma PrunedStep(known: set<TxId>, cached: set<TxId>, trees: seq<RbfTree>, i: nat)
    requires i < |trees|
    ensures PrunedAll(known, cached, trees[..i+1]) ==
      var before := PrunedAll(known, cached, trees[..i]);
      if Comes(known, cached, trees[i]) then before + [Pruned(known, cached, trees[i])] else before
  {
    var more := trees[..i+1];
    assert more[..|more|-1] == trees[..i] && more[|more|-1] == trees[i];
    assert PrunedAll(known, cached, trees[..i]) + [] == PrunedAll(known, cached, trees[..i]);
  }

  lemma MapsStep(
    known: set<TxId>, cached: set<TxId>, links: Links, lists: Kids, parent: TxId, trees: seq<RbfTree>, i: nat)
    requires i < |trees|
    ensures ImportedLinksOf(known, cached, links, parent, trees[..i+1]) ==
      var linked := ImportedLinks(known, cached, ImportedLinksOf(known, cached, links, parent, trees[..i]), trees[i]);
      if Comes(known, cached, trees[i]) then linked[trees[i].Id() := parent] else linked
    ensures ImportedListsOf(known, cached, lists, trees[..i+1]) ==
      ImportedLists(known, cached, ImportedListsOf(known, cached, lists, trees[..i]), trees[i])
  {
    var more := trees[..i+1];
    assert more[..|more|-1] == trees[..i] && more[|more|-1] == trees[i];
  }

  lemma RestoredMore(txs: Txs, trees: seq<RbfTree>, last: RbfTree)
    requires Elements(NodesOf(trees)) <= txs.Keys && NodeSet(last) <= txs.Keys
    ensures Elements(NodesOf(trees + [last])) <= txs.Keys
    ensures RestoredAll(txs, trees + [last]) == RestoredAll(txs, trees) + [Restored(txs, last)]
  {
    LastOfConcat(trees, [last]);
    assert trees + [last][..0] == trees;
    LastAndBefore(trees + [last]);
  }

  lemma RebuiltAll(
    txs: Txs, cached: set<TxId>, links: Links, lists: Kids, tree: RbfTree, kids: seq<RbfTree>, replacedBy: Links,
    replacesMap: Kids)
    requires tree.Id() !in cached
    requires Rebuilt(txs, cached, links, lists, tree.Id(), tree.replacedTrees, kids, replacedBy, replacesMap)
    ensures replacedBy == ImportedLinks(txs.Keys, cached, links, tree)
    ensures replacesMap[tree.Id() := Ids(kids)] == ImportedLists(txs.Keys, cached, lists, tree)
    ensures Imported(txs, cached, tree) ==
      if tree.Id() !in txs then None
      else Some(RbfTree(RbfTx(tree.Id(), Signals(txs[tree.Id()]), tree.tx.mined, false), tree.time, tree.interval,
                        false, tree.fullRbf, kids))
  {
    ShapesComeBack(txs, PrunedAll(txs.Keys, cached, tree.replacedTrees));
    PrunedNodes(txs.Keys, cached, tree);
  }

  /** Each kid can be imported if the tree can. */
  lemma KidIsImportable(records: Records, root: TxId, tree: RbfTree, i: nat)
    requires Describes(records, tree) && Distinct(Nodes(tree)) && i < |tree.replacedTrees|
    requires root == tree.Id() || root !in Nodes(tree)
    ensures Describes(records, tree.replacedTrees[i]) && Distinct(Nodes(tree.replacedTrees[i]))
    ensures root !in Nodes(tree.replacedTrees[i])
  {
    var kid := tree.replacedTrees[i];
    RecordsOne(records, tree.replacedTrees, i);
    DistinctBelow(tree, i);
    NodesAreIn(tree.replacedTrees, i);
    DistinctParts([tree.Id()], NodesOf(tree.replacedTrees));
    assert tree.Id() in Elements([tree.Id()]);
    RootAndBelow(tree);
    assert NodeSet(kid) <= Elements(NodesOf(tree.replacedTrees));
    assert root in Nodes(kid) ==> root in NodeSet(kid);
  }

  lemma ImportedKeys(known: set<TxId>, cached: set<TxId>, replacedBy: Links, replacesMap: Kids, tree: RbfTree)
    ensures ImportedLinks(known, cached, replacedBy, tree).Keys <=
      replacedBy.Keys + Elements(NodesOf(tree.replacedTrees))
    ensures ImportedLists(known, cached, replacesMap, tree).Keys <= replacesMap.Keys + NodeSet(tree)
  {
    var links, lists := ImportedLinks(known, cached, replacedBy, tree), ImportedLists(known, cached, replacesMap, tree);
    forall x | x in links ensures x in replacedBy.Keys + Elements(NodesOf(tree.replacedTrees)) {
      ImportedFrame(known, cached, replacedBy, replacesMap, tree, x);
      assert x in {x};
    }
    forall x | x in lists ensures x in replacesMap.Keys + NodeSet(tree) {
      ImportedFrame(known, cached, replacedBy, replacesMap, tree, x);
      assert x in {x};
    }
  }

  /** Exported and imported into an empty cache, a tree is stored there whole, with all its
      links: nothing else is. */
  lemma ImportedAlone(txs: Txs, tree: RbfTree, treeMap: Links)
    requires Distinct(Nodes(tree)) && NodeSet(tree) <= txs.Keys
    requires treeMap.Keys == NodeSet(tree) && forall x :: x in treeMap ==> treeMap[x] == tree.Id()
    ensures Describes(ExportTree(tree).records, tree)
    ensures Imported(txs, {}, tree) == Some(Restored(txs, tree))
    ensures Represents(map[tree.Id() := Restored(txs, tree)], ImportedLinks(txs.Keys, {}, map[], tree),
      Lists(ImportedLists(txs.Keys, {}, map[], tree)), treeMap)
  {
    var links, lists := ImportedLinks(txs.Keys, {}, map[], tree), Lists(ImportedLists(txs.Keys, {}, map[], tree));
    ExportDescribes(tree, map[]);
    PrunedWhole(txs.Keys, {}, tree);
    ImportedMirrors(txs.Keys, {}, map[], map[], tree);
    MirrorsRestored(links, lists, txs, tree);
    ShapeComesBack(txs, tree);
    ImportedKeysAlone(txs.Keys, tree);
    Alone(tree.Id(), Restored(txs, tree), links, lists, treeMap);
  }

  lemma ImportedKeysAlone(known: set<TxId>, tree: RbfTree)
    requires Distinct(Nodes(tree))
    ensures ImportedLinks(known, {}, map[], tree).Keys <= NodeSet(tree) - {tree.Id()}
    ensures Lists(ImportedLists(known, {}, map[], tree)).Keys <= NodeSet(tree)
  {
    ImportedKeys(known, {}, map[], map[], tree);
    DistinctParts([tree.Id()], NodesOf(tree.replacedTrees));
    assert tree.Id() in Elements([tree.Id()]);
    RootAndBelow(tree);
  }

  lemma Alone(id: TxId, tree: RbfTree, replacedBy: Links, replacesMap: Kids, treeMap: Links)
    requires tree.Id() == id && Distinct(Nodes(tree)) && Mirrors(replacedBy, replacesMap, tree)
    requires replacedBy.Keys <= NodeSet(tree) - {id} && replacesMap.Keys <= NodeSet(tree)
    requires treeMap.Keys == NodeSet(tree) && forall x :: x in treeMap ==> treeMap[x] == id
    ensures Represents(map[id := tree], replacedBy, replacesMap, treeMap)
  {
    var forest := map[id := tree];
    forall x ensures x in AllNodes(forest) <==> x in NodeSet(tree) {
      if x in NodeSet(tree) {
        assert x in Nodes(forest[id]);
      }
    }
    assert AllNodes(forest) == NodeSet(tree);
    forall other, x | other in forest && x in Nodes(forest[other]) ensures treeMap[x] == other {
      assert x in NodeSet(tree);
    }
  }
}
