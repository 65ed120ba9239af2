/** How the stored trees change, and that the lookup maps can follow. */
module RbfUpdates {
  import opened Basics
  import opened RbfForest

  // ------------------------------------------------------ growing a new tree

  function WithKid(tree: RbfTree, kid: RbfTree): RbfTree {
    tree.(replacedTrees := tree.replacedTrees + [kid])
  }

  lemma NodesWithKid(tree: RbfTree, kid: RbfTree)
    ensures Nodes(WithKid(tree, kid)) == Nodes(tree) + Nodes(kid)
  {
  }

  lemma MirrorsWithKid(replacedBy: Links, replacesMap: Kids, tree: RbfTree, kid: RbfTree)
    requires Mirrors(replacedBy, replacesMap, tree) && Mirrors(replacedBy, replacesMap, kid)
    requires Distinct(Nodes(WithKid(tree, kid)))
    ensures Mirrors(replacedBy[kid.Id() := tree.Id()], replacesMap[tree.Id() := Ids(tree.replacedTrees + [kid])],
      WithKid(tree, kid))
  {
    var kids := tree.replacedTrees + [kid];
    var replacedBy', replacesMap' := replacedBy[kid.Id() := tree.Id()], replacesMap[tree.Id() := Ids(kids)];
    NodesWithKid(tree, kid);
    DistinctParts(Nodes(tree), Nodes(kid));
    DistinctParts([tree.Id()], NodesOf(tree.replacedTrees));
    DistinctParts([kid.Id()], NodesOf(kid.replacedTrees));
    assert tree.Id() in Elements([tree.Id()]) && kid.Id() in Elements([kid.Id()]);
    assert Nodes(tree)[0] == tree.Id() && Nodes(kid)[0] == kid.Id();
    assert tree.Id() in NodeSet(tree) && kid.Id() in NodeSet(kid);
    assert Elements(NodesOf(tree.replacedTrees)) <= NodeSet(tree);
    assert Elements(NodesOf(kid.replacedTrees)) <= NodeSet(kid);
    MirrorsFrame(replacedBy, replacesMap, replacedBy', replacesMap', kid);
    MirrorsAllFrame(replacedBy, replacesMap, replacedBy', replacesMap', tree.Id(), tree.replacedTrees);
    assert kids[..|kids|-1] == tree.replacedTrees;
  }

  lemma AllNodesOfUpdate(forest: Forest, id: TxId, tree: RbfTree)
    requires id in forest && NodeSet(forest[id]) <= NodeSet(tree)
    ensures AllNodes(forest[id := tree]) == AllNodes(forest) + NodeSet(tree)
  {
    var after := forest[id := tree];
    forall x | x in AllNodes(forest) + NodeSet(tree)
      ensures x in AllNodes(after)
    {
      if x in NodeSet(tree) {
        assert x in Nodes(after[id]);
      } else {
        var other :| other in forest && x in Nodes(forest[other]);
        assert other != id by {
          assert x !in NodeSet(forest[id]);
        }
        assert x in Nodes(after[other]);
      }
    }
    forall x | x in AllNodes(after)
      ensures x in AllNodes(forest) + NodeSet(tree)
    {
      var other :| other in after && x in Nodes(after[other]);
      if other != id {
        assert x in Nodes(forest[other]);
      }
    }
  }

  /** A tree that shares nothing with the stored ones goes below the stored root `id`. */
  lemma {:induction false} Attach(forest: Forest, replacedBy: Links, replacesMap: Kids, id: TxId, kid: RbfTree)
    requires Linked(forest, replacedBy, replacesMap) && id in forest
    requires Mirrors(replacedBy, replacesMap, kid) && Distinct(Nodes(kid)) && NodeSet(kid) !! AllNodes(forest)
    ensures var after := forest[id := WithKid(forest[id], kid)];
      && Linked(after, replacedBy[kid.Id() := id], replacesMap[id := Ids(forest[id].replacedTrees + [kid])])
      && AllNodes(after) == AllNodes(forest) + NodeSet(kid)
  {
    var after := forest[id := WithKid(forest[id], kid)];
    var replacedBy', replacesMap' := replacedBy[kid.Id() := id],
        replacesMap[id := Ids(forest[id].replacedTrees + [kid])];
    NodesWithKid(forest[id], kid);
    assert NodeSet(forest[id]) <= AllNodes(forest);
    DistinctConcat(Nodes(forest[id]), Nodes(kid));
    AllNodesOfUpdate(forest, id, WithKid(forest[id], kid));
    assert Mirrors(replacedBy, replacesMap, forest[id]);
    MirrorsWithKid(replacedBy, replacesMap, forest[id], kid);
    assert Nodes(kid)[0] == kid.Id();
    assert kid.Id() in NodeSet(kid);
    AttachKeepsDisjoint(forest, id, kid);
    forall other | other in after
      ensures other !in replacedBy' && Mirrors(replacedBy', replacesMap', after[other])
    {
      RootIsNode(forest, other);
      assert Mirrors(replacedBy, replacesMap, forest[other]);
      if other != id {
        assert NodeSet(forest[other]) <= AllNodes(forest);
        RootIsNode(forest, id);
        assert id !in NodeSet(forest[other]);
        assert Elements(NodesOf(forest[other].replacedTrees)) <= NodeSet(forest[other]);
        MirrorsFrame(replacedBy, replacesMap, replacedBy', replacesMap', forest[other]);
      }
    }
  }

  lemma {:induction false} AttachKeepsDisjoint(forest: Forest, id: TxId, kid: RbfTree)
    requires Disjoint(forest) && id in forest && Distinct(Nodes(kid)) && NodeSet(kid) !! AllNodes(forest)
    ensures Disjoint(forest[id := WithKid(forest[id], kid)])
  {
    var after := forest[id := WithKid(forest[id], kid)];
    NodesWithKid(forest[id], kid);
    assert NodeSet(forest[id]) <= AllNodes(forest);
    DistinctConcat(Nodes(forest[id]), Nodes(kid));
    forall one, two, x | one in after && two in after && x in Nodes(after[one]) && x in Nodes(after[two])
      ensures one == two
    {
      assert x in Nodes(forest[one]) || x in NodeSet(kid);
      assert x in Nodes(forest[two]) || x in NodeSet(kid);
      assert one != id ==> x in AllNodes(forest);
      assert two != id ==> x in AllNodes(forest);
    }
  }

  // ----------------------------------------------------------- taking a tree out

  lemma WithoutTree(forest: Forest, replacedBy: Links, replacesMap: Kids, id: TxId)
    requires Linked(forest, replacedBy, replacesMap) && id in forest
    ensures Linked(forest - {id}, replacedBy, replacesMap)
    ensures AllNodes(forest - {id}) == AllNodes(forest) - NodeSet(forest[id])
    ensures Mirrors(replacedBy, replacesMap, forest[id]) && Distinct(Nodes(forest[id]))
  {
    var after := forest - {id};
    assert Mirrors(replacedBy, replacesMap, forest[id]);
    forall other | other in after
      ensures other !in replacedBy && Mirrors(replacedBy, replacesMap, after[other])
    {
      assert Mirrors(replacedBy, replacesMap, forest[other]);
    }
    forall x | x in AllNodes(forest) - NodeSet(forest[id])
      ensures x in AllNodes(after)
    {
      var other :| other in forest && x in Nodes(forest[other]);
      assert x !in Nodes(forest[id]);
      assert x in Nodes(after[other]);
    }
    forall x | x in AllNodes(after)
      ensures x in AllNodes(forest) - NodeSet(forest[id])
    {
      var other :| other in after && x in Nodes(after[other]);
      assert x in Nodes(forest[other]);
      assert x !in Nodes(forest[id]);
    }
    forall one, two, x | one in after && two in after && x in Nodes(after[one]) && x in Nodes(after[two])
      ensures one == two
    {
      assert x in Nodes(forest[one]) && x in Nodes(forest[two]);
    }
  }

  /** With a whole tree erased from every map, the maps agree with what is left. */
  lemma ErasedTree(forest: Forest, replacedBy: Links, replacesMap: Kids, treeMap: Links, id: TxId)
    requires Represents(forest, replacedBy, replacesMap, treeMap) && id in forest
    ensures var gone := NodeSet(forest[id]);
      Represents(forest - {id}, replacedBy - gone, replacesMap - gone, treeMap - gone)
  {
    var gone := NodeSet(forest[id]);
    var after := forest - {id};
    WithoutTree(forest, replacedBy, replacesMap, id);
    forall other | other in after
      ensures other !in replacedBy - gone && Mirrors(replacedBy - gone, replacesMap - gone, after[other])
    {
      assert Mirrors(replacedBy, replacesMap, after[other]);
      assert NodeSet(after[other]) <= AllNodes(after);
      assert Elements(NodesOf(after[other].replacedTrees)) <= NodeSet(after[other]);
      MirrorsFrame(replacedBy, replacesMap, replacedBy - gone, replacesMap - gone, after[other]);
    }
    forall other, x | other in after && x in Nodes(after[other])
      ensures (treeMap - gone)[x] == other
    {
      assert x in Nodes(forest[other]);
      assert x in AllNodes(after);
    }
  }
}
