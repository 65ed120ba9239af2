/** The flat form of a tree: one record per transaction, with the ids of what it replaced. */
module RbfExport {
  import opened Basics
  import opened RbfForest

  datatype TreeInfo = TreeInfo(
    txMined: bool, time: real, interval: Option<real>, mined: bool, fullRbf: bool, replaced: seq<TxId>)

  type Records = map<TxId, TreeInfo>

  datatype Deflated = Deflated(root: TxId, records: Records)

  function InfoOf(tree: RbfTree): TreeInfo {
    TreeInfo(tree.tx.mined, tree.time, tree.interval, tree.mined, tree.fullRbf, Ids(tree.replacedTrees))
  }

  /** Writes the tree's records over what is there. */
  function ExportInto(tree: RbfTree, records: Records): Records
    decreases tree
  {
    ExportAll(tree.replacedTrees, records[tree.Id() := InfoOf(tree)])
  }

  function ExportAll(trees: seq<RbfTree>, records: Records): Records
    decreases trees
  {
    if trees == [] then records
    else ExportInto(trees[|trees|-1], ExportAll(trees[..|trees|-1], records))
  }

  function ExportTree(tree: RbfTree): Deflated {
    Deflated(tree.Id(), ExportInto(tree, map[]))
  }

  /** The records tell the whole tree. */
  ghost predicate Describes(records: Records, tree: RbfTree)
    decreases tree
  {
    && tree.Id() in records && var info := records[tree.Id()];
    && info.txMined == tree.tx.mined && info.time == tree.time && info.interval == tree.interval
    && info.mined == tree.mined && info.fullRbf == tree.fullRbf && info.replaced == Ids(tree.replacedTrees)
    && RecordsAll(records, tree.replacedTrees)
  }

  ghost predicate RecordsAll(records: Records, trees: seq<RbfTree>)
    decreases trees
  {
    trees == [] || (RecordsAll(records, trees[..|trees|-1]) && Describes(records, trees[|trees|-1]))
  }
}
