/** The relatives of a transaction in the mempool, collected with an explicit stack. */
module RelativesGraph {
  import opened Basics
  import opened Outpoints

  const MAX_RELATIVE_GRAPH_SIZE: nat := 100

  datatype GraphTx = GraphTx(txid: TxId, vsize: nat, weight: nat, depends: seq<TxId>, spentby: seq<TxId>, baseFee: int)

  type Graph = map<TxId, GraphTx>

  function Max(a: nat, b: nat): nat {
    if a > b then a else b
  }

  function Funders(vin: seq<Outpoint>): (ids: seq<TxId>)
    ensures forall id :: id in ids <==> exists p :: p in vin && p.txid == id
  {
    if vin == [] then [] else [vin[0].txid] + Funders(vin[1..])
  }

  /** The spenders of the first `n` outputs. */
  function Spenders(txid: TxId, n: nat, spendMap: SpendMap): (ids: seq<TxId>)
    ensures forall id :: id in ids <==>
      exists i: nat {:trigger Outpoint(txid, i)} :: i < n && Outpoint(txid, i) in spendMap &&
          spendMap[Outpoint(txid, i)].txid == id
  {
    if n == 0 then []
    else
      var output := Outpoint(txid, n - 1);
      Spenders(txid, n - 1, spendMap) + if output in spendMap then [spendMap[output].txid] else []
  }

  function ConvertToGraphTx(tx: SpendingTx, spendMap: SpendMap): GraphTx {
    GraphTx(tx.txid, Max(tx.sigops * 5, (tx.weight + 3) / 4), tx.weight, Funders(tx.vin),
        Spenders(tx.txid, tx.vouts, spendMap), tx.fee)
  }

  /** Where relatives are looked up: what the walk starts from, then the mempool. */
  datatype Source = Source(mempool: TxPool, ancestors: Graph, spendMap: SpendMap) {
    ghost predicate Keyed() {
      Outpoints.Keyed(mempool) && forall id {:trigger ancestors[id]} :: id in ancestors ==> ancestors[id].txid == id
    }

    function Find(id: TxId): Option<GraphTx> {
      if id in ancestors then Some(ancestors[id])
      else if id in mempool then Some(ConvertToGraphTx(mempool[id], spendMap))
      else None
    }

    /** `b` is a relative of `a`, and both can be looked up. */
    ghost predicate Link(a: TxId, b: TxId) {
      Find(a).Some? && Find(b).Some? && b in Find(a).value.depends + Find(a).value.spentby
    }

    ghost predicate Chain(path: seq<TxId>) {
      && path != [] && path[0] in ancestors
      && forall i {:trigger path[i]} :: 0 <= i < |path| - 1 ==> Link(path[i], path[i+1])
    }

    /** Links lead from the start to `id`. */
    ghost predicate Reached(id: TxId) {
      exists path :: Chain(path) && path[|path|-1] == id
    }
  }

  /** Entries of the stack and of the result are as looked up. */
  ghost predicate Genuine(source: Source, entries: seq<GraphTx>) {
    forall i {:trigger entries[i]} :: 0 <= i < |entries| ==>
      source.Find(entries[i].txid) == Some(entries[i]) && source.Reached(entries[i].txid)
  }

  ghost predicate GenuineMap(source: Source, relatives: Graph) {
    forall id {:trigger relatives[id]} :: id in relatives ==>
        source.Find(id) == Some(relatives[id]) && source.Reached(id)
  }

  ghost predicate Waits(stack: seq<GraphTx>, lo: int, id: TxId) {
    exists i {:trigger stack[i]} :: 0 <= i < |stack| && lo <= i && stack[i].txid == id
  }

  /** What is collected or to be collected is closed under links. */
  ghost predicate NothingLost(source: Source, relatives: Graph, stack: seq<GraphTx>) {
    && (forall id :: id in source.ancestors ==> id in relatives || Waits(stack, 0, id))
    && forall a, b {:trigger source.Link(a, b)} :: a in relatives && source.Link(a, b) ==>
        b in relatives || Waits(stack, 0, b)
  }

  /** A collected transaction still on the stack has its relatives collected or above it. */
  ghost predicate Disciplined(source: Source, relatives: Graph, stack: seq<GraphTx>) {
    forall i, b {:trigger source.Link(stack[i].txid, b)} ::
      0 <= i < |stack| && stack[i].txid in relatives && source.Link(stack[i].txid, b) ==>
          b in relatives || Waits(stack, i + 1, b)
  }

  ghost predicate Walking(source: Source, relatives: Graph, stack: seq<GraphTx>) {
    && Genuine(source, stack) && GenuineMap(source, relatives)
    && NothingLost(source, relatives, stack)
    && Disciplined(source, relatives, stack)
  }

  /** The relatives of `ids` not collected yet, in order. */
  function Fresh(source: Source, relatives: Graph, ids: seq<TxId>): (pushed: seq<GraphTx>) {
    if ids == [] then []
    else
      var earlier, id := Fresh(source, relatives, ids[..|ids|-1]), ids[|ids|-1];
      if id !in relatives && source.Find(id).Some? then earlier + [source.Find(id).value] else earlier
  }

  lemma {:induction false} FreshAre(source: Source, relatives: Graph, ids: seq<TxId>)
    requires source.Keyed()
    ensures forall i {:trigger Fresh(source, relatives, ids)[i]} :: 0 <= i < |Fresh(source, relatives, ids)| ==>
      var entry := Fresh(source, relatives, ids)[i];
      source.Find(entry.txid) == Some(entry) && entry.txid !in relatives && entry.txid in ids
    ensures forall id :: id in ids && id !in relatives && source.Find(id).Some? ==>
      Waits(Fresh(source, relatives, ids), 0, id)
  {
    if ids != [] {
      var init, last := ids[..|ids|-1], ids[|ids|-1];
      var earlier, pushed := Fresh(source, relatives, init), Fresh(source, relatives, ids);
      FreshAre(source, relatives, init);
      forall id | id in ids && id !in relatives && source.Find(id).Some?
        ensures Waits(pushed, 0, id)
      {
        if id == last {
          assert pushed[|pushed|-1].txid == id;
        } else {
          assert id in init;
          var i :| 0 <= i < |earlier| && earlier[i].txid == id;
          assert pushed[i].txid == id;
        }
      }
    }
  }

  lemma ReachedMore(source: Source, a: TxId, b: TxId)
    requires source.Reached(a) && source.Link(a, b)
    ensures source.Reached(b)
  {
    var path :| source.Chain(path) && path[|path|-1] == a;
    var longer := path + [b];
    forall i | 0 <= i < |longer| - 1 ensures source.Link(longer[i], longer[i+1]) {
      if i < |path| - 1 {
        assert source.Link(path[i], path[i+1]);
      }
    }
    assert source.Chain(longer);
  }

  /** One turn of the loop: the top is collected and its uncollected relatives go on the
      stack. If it had been collected before there are none. */
  lemma WalkStep(source: Source, relatives: Graph, stack: seq<GraphTx>)
    requires source.Keyed() && Walking(source, relatives, stack) && stack != []
    ensures var top := stack[|stack|-1];
      var relatives' := relatives[top.txid := top];
      var pushed := Fresh(source, relatives', top.depends + top.spentby);
      && Walking(source, relatives', stack[..|stack|-1] + pushed)
      && (top.txid in relatives ==> pushed == [] && relatives' == relatives)
  {
    var top := stack[|stack|-1];
    var relatives' := relatives[top.txid := top];
    var pushed := Fresh(source, relatives', top.depends + top.spentby);
    FreshIsPushed(source, relatives', top);
    StackStaysGenuine(source, stack, pushed);
    StillDisciplined(source, relatives, stack, pushed);
    StillNothingLost(source, relatives, stack, pushed);
    if top.txid in relatives {
      DuplicatePushesNothing(source, relatives, stack, pushed);
    }
  }

  lemma FreshIsPushed(source: Source, relatives: Graph, top: GraphTx)
    requires source.Keyed() && source.Find(top.txid) == Some(top)
    ensures var pushed := Fresh(source, relatives, top.depends + top.spentby);
      PushedFor(source, relatives, top, pushed) && ArePushed(source, top, pushed)
  {
    FreshAre(source, relatives, top.depends + top.spentby);
  }

  ghost predicate ArePushed(source: Source, top: GraphTx, pushed: seq<GraphTx>) {
    forall i {:trigger pushed[i]} :: 0 <= i < |pushed| ==>
      source.Find(pushed[i].txid) == Some(pushed[i]) && pushed[i].txid in top.depends + top.spentby
  }

  lemma DuplicatePushesNothing(
    source: Source, relatives: Graph, stack: seq<GraphTx>, pushed: seq<GraphTx>)
    requires stack != [] && Disciplined(source, relatives, stack) && stack[|stack|-1].txid in relatives
    requires PushedFor(source, relatives[stack[|stack|-1].txid := stack[|stack|-1]], stack[|stack|-1], pushed)
    requires ArePushed(source, stack[|stack|-1], pushed)
    ensures pushed == []
  {
    assert forall b :: !Waits(stack, |stack|, b);
    if pushed != [] {
      assert source.Link(stack[|stack|-1].txid, pushed[0].txid);
      assert false;
    }
  }

  lemma StackStaysGenuine(source: Source, stack: seq<GraphTx>, pushed: seq<GraphTx>)
    requires Genuine(source, stack) && stack != [] && ArePushed(source, stack[|stack|-1], pushed)
    ensures Genuine(source, stack[..|stack|-1] + pushed)
  {
    var top, after := stack[|stack|-1], stack[..|stack|-1] + pushed;
    forall i | 0 <= i < |after|
      ensures source.Find(after[i].txid) == Some(after[i]) && source.Reached(after[i].txid)
    {
      if i >= |stack| - 1 {
        assert after[i] == pushed[i - (|stack| - 1)];
        ReachedMore(source, top.txid, after[i].txid);
      } else {
        assert after[i] == stack[i];
      }
    }
  }

  ghost predicate PushedFor(source: Source, relatives: Graph, top: GraphTx, pushed: seq<GraphTx>) {
    && source.Find(top.txid) == Some(top)
    && (forall i {:trigger pushed[i]} :: 0 <= i < |pushed| ==> pushed[i].txid !in relatives)
    && forall b {:trigger source.Link(top.txid, b)} :: source.Link(top.txid, b) ==>
        b in relatives || Waits(pushed, 0, b)
  }

  lemma WaitsBelow(stack: seq<GraphTx>, pushed: seq<GraphTx>, lo: nat, b: TxId)
    requires stack != []
    ensures Waits(stack, lo, b) && b != stack[|stack|-1].txid ==> Waits(stack[..|stack|-1] + pushed, lo, b)
    ensures Waits(pushed, 0, b) && lo <= |stack| - 1 ==> Waits(stack[..|stack|-1] + pushed, lo, b)
  {
    var after := stack[..|stack|-1] + pushed;
    if Waits(stack, lo, b) && b != stack[|stack|-1].txid {
      var i :| 0 <= i < |stack| && lo <= i && stack[i].txid == b;
      assert after[i].txid == b;
    }
    if Waits(pushed, 0, b) && lo <= |stack| - 1 {
      var i :| 0 <= i < |pushed| && pushed[i].txid == b;
      assert after[|stack| - 1 + i].txid == b;
    }
  }

  lemma StillDisciplined(source: Source, relatives: Graph, stack: seq<GraphTx>, pushed: seq<GraphTx>)
    requires stack != [] && Disciplined(source, relatives, stack)
    requires PushedFor(source, relatives[stack[|stack|-1].txid := stack[|stack|-1]], stack[|stack|-1], pushed)
    ensures Disciplined(source, relatives[stack[|stack|-1].txid := stack[|stack|-1]], stack[..|stack|-1] + pushed)
  {
    var top, after := stack[|stack|-1], stack[..|stack|-1] + pushed;
    var relatives' := relatives[top.txid := top];
    forall i | |stack| - 1 <= i < |after| ensures after[i].txid !in relatives' {
      assert after[i] == pushed[i - (|stack| - 1)];
    }
    forall i, b | 0 <= i < |stack| - 1 && after[i].txid in relatives' && source.Link(after[i].txid, b)
      ensures b in relatives' || Waits(after, i + 1, b)
    {
      assert after[i] == stack[i];
      WaitsBelow(stack, pushed, i + 1, b);
      if stack[i].txid == top.txid {
        assert source.Link(top.txid, b);
      } else {
        assert source.Link(stack[i].txid, b);
      }
    }
  }

  lemma StillNothingLost(source: Source, relatives: Graph, stack: seq<GraphTx>, pushed: seq<GraphTx>)
    requires stack != [] && NothingLost(source, relatives, stack)
    requires PushedFor(source, relatives[stack[|stack|-1].txid := stack[|stack|-1]], stack[|stack|-1], pushed)
    ensures NothingLost(source, relatives[stack[|stack|-1].txid := stack[|stack|-1]], stack[..|stack|-1] + pushed)
  {
    var top, after := stack[|stack|-1], stack[..|stack|-1] + pushed;
    var relatives' := relatives[top.txid := top];
    forall id | id in source.ancestors ensures id in relatives' || Waits(after, 0, id) {
      WaitsBelow(stack, pushed, 0, id);
    }
    forall a, b | a in relatives' && source.Link(a, b) ensures b in relatives' || Waits(after, 0, b) {
      WaitsBelow(stack, pushed, 0, b);
    }
  }

  /** With the stack empty nothing reachable is missing. */
  lemma {:induction false} AllCollected(source: Source, relatives: Graph, path: seq<TxId>)
    requires NothingLost(source, relatives, []) && source.Chain(path)
    ensures path[|path|-1] in relatives
  {
    if |path| > 1 {
      var init := path[..|path|-1];
      assert source.Chain(init) by {
        forall i | 0 <= i < |init| - 1 ensures source.Link(init[i], init[i+1]) {
          assert source.Link(path[i], path[i+1]);
        }
      }
      AllCollected(source, relatives, init);
      var i := |path| - 2;
      assert source.Link(path[i], path[i+1]);
    }
  }

  /** At most 101 relatives; with fewer, exactly what links lead to. */
  method ExpandRelativesGraph(source: Source) returns (relatives: Graph)
    requires source.Keyed()
    ensures |relatives| <= 101
    ensures GenuineMap(source, relatives)
    ensures forall id {:trigger relatives[id]} :: id in relatives ==> IsEntry(source, id, relatives[id])
    ensures |relatives| <= 100 ==> forall id :: id in relatives <==> source.Reached(id)
  {
    relatives := map[];
    var stack := StartStack(source);
    ghost var universe := source.ancestors.Keys + source.mempool.Keys;
    while stack != []
      invariant |relatives| <= MAX_RELATIVE_GRAPH_SIZE + 1
      invariant Walking(source, relatives, stack)
      decreases universe - relatives.Keys, |stack|
    {
      if |relatives| > MAX_RELATIVE_GRAPH_SIZE {
        EntriesAre(source, relatives);
        return;
      }
      var nextTx := stack[|stack|-1];
      WalkStep(source, relatives, stack);
      assert source.Find(nextTx.txid).Some?;
      relatives := relatives[nextTx.txid := nextTx];
      stack := PushFresh(source, relatives, stack[..|stack|-1], nextTx.depends + nextTx.spentby);
    }
    EverythingReached(source, relatives);
    EntriesAre(source, relatives);
  }

  /** The entry is the one the walk started with, or tells of the transaction in the mempool:
      its fee, its weight, the least size that covers the weight and five times the sigops,
      whom it spends from and who spends from it. */
  ghost predicate IsEntry(source: Source, id: TxId, e: GraphTx) {
    if id in source.ancestors then e == source.ancestors[id]
    else
      && id in source.mempool && var tx := source.mempool[id];
      && e.txid == tx.txid && e.weight == tx.weight && e.baseFee == tx.fee
      && e.vsize >= 5 * tx.sigops && 4 * e.vsize >= tx.weight
      && (e.vsize == 5 * tx.sigops || 4 * e.vsize < tx.weight + 4)
      && (forall x :: x in e.depends <==> exists p :: p in tx.vin && p.txid == x)
      && forall x :: x in e.spentby <==>
           exists n: nat {:trigger Outpoint(tx.txid, n)} ::
             n < tx.vouts && Outpoint(tx.txid, n) in source.spendMap && source.spendMap[Outpoint(tx.txid, n)].txid == x
  }

  lemma EntriesAre(source: Source, relatives: Graph)
    requires GenuineMap(source, relatives)
    ensures forall id {:trigger relatives[id]} :: id in relatives ==> IsEntry(source, id, relatives[id])
  {
    forall id | id in relatives ensures IsEntry(source, id, relatives[id]) {
      assert source.Find(id) == Some(relatives[id]);
    }
  }

  lemma EverythingReached(source: Source, relatives: Graph)
    requires NothingLost(source, relatives, [])
    ensures forall id :: source.Reached(id) ==> id in relatives
  {
    forall id | source.Reached(id) ensures id in relatives {
      var path :| source.Chain(path) && path[|path|-1] == id;
      AllCollected(source, relatives, path);
    }
  }

  // ------------------------------------------------------ links go both ways

  /** The walk starts from transactions of the mempool, whose spend index is right. */
  ghost predicate Sound(source: Source) {
    && source.Keyed() && EntriesSpend(source.mempool, source.spendMap) && SpendsEntered(source.mempool, source.spendMap)
    && (forall id {:trigger source.ancestors[id]} :: id in source.ancestors ==>
         id in source.mempool && source.ancestors[id] == ConvertToGraphTx(source.mempool[id], source.spendMap))
    && forall id, p {:trigger p in source.mempool[id].vin} ::
         id in source.mempool && p in source.mempool[id].vin && p.txid in source.mempool ==>
         p.vout < source.mempool[p.txid].vouts
  }

  lemma FoundIsConverted(source: Source, id: TxId)
    requires Sound(source)
    ensures source.Find(id).Some? <==> id in source.mempool
    ensures id in source.mempool ==> source.Find(id) == Some(ConvertToGraphTx(source.mempool[id], source.spendMap))
  {
  }

  /** Whoever funds `b` lists it among its spenders, and the other way round. */
  lemma FundsIffSpends(source: Source, a: TxId, b: TxId)
    requires Sound(source) && a in source.mempool && b in source.mempool
    ensures a in Funders(source.mempool[b].vin) <==> b in Spenders(a, source.mempool[a].vouts, source.spendMap)
  {
  }

  /** Neighbours in the mempool: one spends the other. */
  ghost predicate Related(mempool: TxPool, a: TxId, b: TxId) {
    a in mempool && b in mempool && (a in Funders(mempool[b].vin) || b in Funders(mempool[a].vin))
  }

  ghost predicate RelatedChain(mempool: TxPool, path: seq<TxId>) {
    path != [] && forall i {:trigger path[i]} :: 0 <= i < |path| - 1 ==> Related(mempool, path[i], path[i+1])
  }

  /** `b` is in the connected component of `a`. */
  ghost predicate Connected(mempool: TxPool, a: TxId, b: TxId) {
    exists path :: RelatedChain(mempool, path) && path[0] == a && path[|path|-1] == b
  }

  /** From one transaction of a sound mempool, links lead exactly to its component. */
  lemma ReachedIsComponent(source: Source, start: TxId, id: TxId)
    requires Sound(source) && source.ancestors.Keys == {start}
    ensures source.Reached(id) <==> Connected(source.mempool, start, id)
  {
    forall a, b ensures source.Link(a, b) <==> Related(source.mempool, a, b) {
      FoundIsConverted(source, a);
      FoundIsConverted(source, b);
      if a in source.mempool && b in source.mempool {
        FundsIffSpends(source, a, b);
      }
    }
    if source.Reached(id) {
      var path :| source.Chain(path) && path[|path|-1] == id;
      assert RelatedChain(source.mempool, path);
    }
    if Connected(source.mempool, start, id) {
      var path :| RelatedChain(source.mempool, path) && path[0] == start && path[|path|-1] == id;
      assert source.Chain(path);
    }
  }

  method PushFresh(source: Source, relatives: Graph, stack: seq<GraphTx>, ids: seq<TxId>) returns (stack': seq<GraphTx>)
    ensures stack' == stack + Fresh(source, relatives, ids)
  {
    stack' := stack;
    for i := 0 to |ids|
      invariant stack' == stack + Fresh(source, relatives, ids[..i])
    {
      PrefixStep(ids, i);
      var found := source.Find(ids[i]);
      if ids[i] !in relatives && found.Some? {
        stack' := stack' + [found.value];
      }
    }
    PrefixWhole(ids);
  }

  /** The stack at first: the given transactions, in some order. */
  method StartStack(source: Source) returns (stack: seq<GraphTx>)
    requires source.Keyed()
    ensures Walking(source, map[], stack)
  {
    stack := [];
    var todo := source.ancestors.Keys;
    while todo != {}
      invariant todo <= source.ancestors.Keys
      invariant Genuine(source, stack)
      invariant forall id :: id in source.ancestors ==> id in todo || Waits(stack, 0, id)
      decreases todo
    {
      var id :| id in todo;
      todo := todo - {id};
      ghost var before := stack;
      stack := stack + [source.ancestors[id]];
      assert source.Chain([id]);
      assert stack[|before|].txid == id;
      forall other | Waits(before, 0, other) ensures Waits(stack, 0, other) {
        var i :| 0 <= i < |before| && before[i].txid == other;
        assert stack[i].txid == other;
      }
    }
  }
}
