/** The cache of replacements: trees, lookup maps, transactions, expiry times and the event log. */
module RbfCaches {
  import opened Basics
  import opened RbfForest
  import opened RbfMirror
  import opened RbfUpdates
  import opened RbfGrowth
  import opened RbfMarks
  import opened RbfTimes
  import opened RbfErasure
  import opened RbfExport
  import opened RbfRoundTrip

  /** When a transaction was first seen; 0.0 stands for not known. */
  function TimeOf(tx: MempoolTx, now: real): real {
    if tx.firstSeen != 0.0 then tx.firstSeen else now
  }

  /** What goes below a replacement for the transaction it replaces: the tree stored for it,
      or a new leaf. */
  function KidFor(trees: Forest, tx: MempoolTx, newTime: real, now: real): RbfTree {
    if tx.txid in trees then trees[tx.txid].(interval := Some(newTime - trees[tx.txid].time))
    else Leaf(tx, TimeOf(tx, now), newTime)
  }

  /** One kid for each replaced transaction not replaced before, in order. */
  function KidsOf(trees: Forest, replacedBy: Links, replaced: seq<MempoolTx>, newTime: real, now: real): seq<RbfTree> {
    if replaced == [] then []
    else
      var tx, earlier := replaced[|replaced|-1], KidsOf(trees, replacedBy, replaced[..|replaced|-1], newTime, now);
      if tx.txid in replacedBy || tx.txid in Ids(earlier) then earlier
      else earlier + [KidFor(trees, tx, newTime, now)]
  }

  function NewLinks(replacedBy: Links, kids: seq<RbfTree>, id: TxId): Links {
    if kids == [] then replacedBy else NewLinks(replacedBy, kids[..|kids|-1], id)[kids[|kids|-1].Id() := id]
  }

  lemma {:induction false} NewLinksKeys(replacedBy: Links, kids: seq<RbfTree>, id: TxId)
    ensures NewLinks(replacedBy, kids, id).Keys == replacedBy.Keys + Elements(Ids(kids))
  {
    if kids != [] {
      NewLinksKeys(replacedBy, kids[..|kids|-1], id);
      assert Ids(kids) == Ids(kids[..|kids|-1]) + [kids[|kids|-1].Id()];
    }
  }

  lemma UnknownIsLeaf(
    trees: Forest, txs: Txs, replacedBy: Links, replacesMap: Kids, treeMap: Links, root: RbfTree, r: TxId)
    requires Growing(trees, txs, replacedBy, replacesMap, treeMap, root) && r !in txs
    ensures r !in treeMap && r !in trees
  {
    if r in trees {
      RootIsNode(trees[root.Id() := root], r);
      assert false;
    }
  }

  /** The root with `kid` below it. */
  function Over(root: RbfTree, kid: RbfTree): RbfTree {
    WithKid(root, kid).(fullRbf := root.fullRbf || kid.fullRbf || !kid.tx.rbf)
  }

  /** What the maps say of a transaction not replaced before. */
  predicate Consistent(trees: Forest, txs: Txs, replacedBy: Links, treeMap: Links, id: TxId) {
    id !in replacedBy ==>
      && (id in treeMap <==> id in txs) && (id in trees <==> id in txs)
      && (id in treeMap ==> treeMap[id] == id)
  }

  lemma UnreplacedIsConsistent(
    trees: Forest, txs: Txs, replacedBy: Links, replacesMap: Kids, treeMap: Links, root: RbfTree, id: TxId)
    requires Growing(trees, txs, replacedBy, replacesMap, treeMap, root) && id != root.Id()
    ensures Consistent(trees, txs, replacedBy, treeMap, id)
  {
    if id !in replacedBy {
      if id in txs {
        KnownIsRoot(trees, txs, replacedBy, replacesMap, treeMap, root, id);
      } else {
        UnknownIsLeaf(trees, txs, replacedBy, replacesMap, treeMap, root, id);
      }
    }
  }

  lemma SupersededTree(
    trees: Forest, txs: Txs, replacedBy: Links, replacesMap: Kids, treeMap: Links, root: RbfTree, tx: MempoolTx,
    newTime: real, now: real)
    requires Growing(trees, txs, replacedBy, replacesMap, treeMap, root) && tx.txid in trees
    ensures Growing(trees - {tx.txid}, txs, replacedBy[tx.txid := root.Id()], replacesMap, treeMap,
      Over(root, KidFor(trees, tx, newTime, now)))
  {
    GrowWithTree(trees, txs, replacedBy, replacesMap, treeMap, root, tx.txid, KidFor(trees, tx, newTime, now));
  }

  lemma SupersededLeaf(
    trees: Forest, txs: Txs, replacedBy: Links, replacesMap: Kids, treeMap: Links, root: RbfTree, tx: MempoolTx,
    newTime: real, now: real)
    requires Growing(trees, txs, replacedBy, replacesMap, treeMap, root) && tx.txid !in txs && tx.txid !in trees
    ensures Growing(trees - {tx.txid}, txs[tx.txid := tx], replacedBy[tx.txid := root.Id()], replacesMap, treeMap,
      Over(root, KidFor(trees, tx, newTime, now)))
  {
    GrowWithLeaf(trees, txs, replacedBy, replacesMap, treeMap, root, tx, KidFor(trees, tx, newTime, now));
    RemovingNothing(trees, tx.txid);
  }

  lemma ReplacedIsKnown(
    trees: Forest, txs: Txs, replacedBy: Links, replacesMap: Kids, treeMap: Links, root: RbfTree, id: TxId)
    requires Growing(trees, txs, replacedBy, replacesMap, treeMap, root) && id in replacedBy
    ensures id in txs
  {
  }

  /** One step of `KidsOf`, seen from the maps as they are by then. */
  lemma {:induction false} KidsStep(
    trees: Forest, links: Links, replaced: seq<MempoolTx>, i: nat, newTime: real, now: real, id: TxId,
    kids: seq<RbfTree>, trees': Forest, links': Links)
    requires i < |replaced| && kids == KidsOf(trees, links, replaced[..i], newTime, now)
    requires trees' == trees - Elements(Ids(kids)) && links' == NewLinks(links, kids, id)
    requires forall root {:trigger trees[root]} :: root in trees ==> trees[root].Id() == root
    ensures replaced[i].txid in links' ==> KidsOf(trees, links, replaced[..i+1], newTime, now) == kids
    ensures replaced[i].txid !in links' ==>
      var kid := KidFor(trees', replaced[i], newTime, now);
      && KidsOf(trees, links, replaced[..i+1], newTime, now) == kids + [kid]
      && NewLinks(links, kids + [kid], id) == links'[replaced[i].txid := id]
      && trees' - {replaced[i].txid} == trees - Elements(Ids(kids + [kid]))
      && kid.Id() == replaced[i].txid
  {
    PrefixStep(replaced, i);
    NewLinksKeys(links, kids, id);
    var tx := replaced[i];
    assert tx.txid in links' <==> tx.txid in links || tx.txid in Elements(Ids(kids));
    if tx.txid !in links' {
      SameKid(trees, Elements(Ids(kids)), tx, newTime, now);
      IdsWithKid(kids, KidFor(trees, tx, newTime, now));
      RemovalsAddUp(trees, Elements(Ids(kids)), tx.txid);
    }
  }

  lemma SameKid(trees: Forest, gone: set<TxId>, tx: MempoolTx, newTime: real, now: real)
    requires tx.txid !in gone
    requires forall root {:trigger trees[root]} :: root in trees ==> trees[root].Id() == root
    ensures KidFor(trees - gone, tx, newTime, now) == KidFor(trees, tx, newTime, now)
    ensures KidFor(trees, tx, newTime, now).Id() == tx.txid
  {
  }

  lemma IdsWithKid(kids: seq<RbfTree>, kid: RbfTree)
    ensures (kids + [kid])[..|kids|] == kids
    ensures Elements(Ids(kids + [kid])) == Elements(Ids(kids)) + {kid.Id()}
  {
    assert Ids(kids + [kid]) == Ids(kids) + [kid.Id()];
  }

  lemma NoKidsYet(trees: Forest, links: Links, newTime: real, now: real, id: TxId, bare: RbfTree)
    requires bare.replacedTrees == [] && !bare.fullRbf
    ensures KidsOf(trees, links, [], newTime, now) == [] && NewLinks(links, [], id) == links
    ensures trees - Elements(Ids([])) == trees
    ensures bare.(replacedTrees := [], fullRbf := false) == bare
    ensures !AnySignalless([])
  {
    assert Elements(Ids([])) == {};
  }

  /** Nothing known is forgotten or changed; the replacement and what it replaces are known. */
  ghost predicate Remembers(before: Txs, newTx: MempoolTx, replaced: seq<MempoolTx>, after: Txs) {
    && (forall x {:trigger before[x]} :: x in before ==> x in after && after[x] == before[x])
    && newTx.txid in after && after[newTx.txid] == newTx
    && (forall tx {:trigger tx in replaced} :: tx in replaced ==> tx.txid in after)
    && (forall x {:trigger after[x]} :: x in after ==>
        x in before || x == newTx.txid || (after[x] in replaced && after[x].txid == x))
  }

  lemma RememberStep(
    before: Txs, newTx: MempoolTx, replaced: seq<MempoolTx>, i: nat, after: Txs, after': Txs)
    requires i < |replaced| && Remembers(before, newTx, replaced[..i], after)
    requires replaced[i].txid in after ==> after' == after
    requires replaced[i].txid !in after ==> after' == after[replaced[i].txid := replaced[i]]
    ensures Remembers(before, newTx, replaced[..i+1], after')
  {
    assert replaced[..i+1] == replaced[..i] + [replaced[i]];
  }

  lemma {:induction false} NoKidsNoNews(trees: Forest, links: Links, replaced: seq<MempoolTx>, newTime: real, now: real)
    requires KidsOf(trees, links, replaced, newTime, now) == []
    ensures forall tx :: tx in replaced ==> tx.txid in links
  {
    if replaced != [] {
      NoKidsNoNews(trees, links, replaced[..|replaced|-1], newTime, now);
      assert replaced == replaced[..|replaced|-1] + [replaced[|replaced|-1]];
    }
  }

  predicate AnySignalless(replaced: seq<MempoolTx>) {
    exists tx :: tx in replaced && !Signals(tx)
  }

  lemma SignallessStep(replaced: seq<MempoolTx>, i: nat)
    requires i < |replaced|
    ensures AnySignalless(replaced[..i+1]) == (AnySignalless(replaced[..i]) || !Signals(replaced[i]))
  {
    PrefixStep(replaced, i);
    assert replaced[i] in replaced[..i+1];
  }

  /** The replacement is not listed among what it replaces. */
  predicate NotAmong(replaced: seq<MempoolTx>, newTx: MempoolTx) {
    forall tx :: tx in replaced ==> tx.txid != newTx.txid
  }

  predicate ReplacedByItself(replacedBy: Links, id: TxId) {
    id in replacedBy && replacedBy[id] == id
  }

  /** A link is only set where there is none. */
  function WithLink(replacedBy: Links, id: TxId, newId: TxId): Links {
    if id in replacedBy then replacedBy else replacedBy[id := newId]
  }

  lemma AmongStep(replaced: seq<MempoolTx>, i: nat, newTx: MempoolTx)
    requires i < |replaced|
    ensures NotAmong(replaced[..i+1], newTx) <==> NotAmong(replaced[..i], newTx) && replaced[i].txid != newTx.txid
  {
    PrefixStep(replaced, i);
    assert replaced[i] in replaced[..i+1];
  }

  lemma UnknownIsUnreplaced(s: State, id: TxId)
    requires Kept(s) && id !in s.memory.txs
    ensures id !in s.replacedBy
  {
    if id in s.replacedBy {
      Completeness(s.memory.trees, s.replacedBy, s.replacesMap, s.treeMap, id);
    }
  }

  lemma SelfReplacementIsInvalid(s: State, id: TxId)
    requires ReplacedByItself(s.replacedBy, id)
    ensures !Kept(s)
  {
    if Kept(s) {
      NothingReplacesItself(s.memory.trees, s.replacedBy, s.replacesMap, s.treeMap, id);
    }
  }

  /** The variables of the loop in `Add`. */
  datatype Round = Round(
    trees: Forest, txs: Txs, replacedBy: Links, kids: seq<RbfTree>, txFullRbf: bool, treeFullRbf: bool)

  /** Where the loop stands after `done`, having started from `first` with the bare root. */
  ghost predicate Reached(
    first: Round, replacesMap: Kids, treeMap: Links, bare: RbfTree, newTx: MempoolTx, done: seq<MempoolTx>,
    newTime: real, now: real, r: Round)
  {
    && Growing(r.trees, r.txs, r.replacedBy, replacesMap, treeMap,
        bare.(replacedTrees := r.kids, fullRbf := r.treeFullRbf))
    && r.kids == KidsOf(first.trees, first.replacedBy, done, newTime, now)
    && r.replacedBy == NewLinks(first.replacedBy, r.kids, newTx.txid)
    && r.trees == first.trees - Elements(Ids(r.kids))
    && Remembers(first.txs, newTx, done, r.txs)
    && r.txFullRbf == AnySignalless(done)
  }

  /** The same, unless the replacement was met among what it replaces: it then replaces
      itself, and what else holds does not matter. */
  ghost predicate Underway(
    first: Round, replacesMap: Kids, treeMap: Links, bare: RbfTree, newTx: MempoolTx, done: seq<MempoolTx>,
    newTime: real, now: real, r: Round)
  {
    if NotAmong(done, newTx) then
      Reached(first, replacesMap, treeMap, bare, newTx, done, newTime, now, r) && newTx.txid !in r.replacedBy
    else ReplacedByItself(r.replacedBy, newTx.txid)
  }

  lemma ReachedStart(
    first: Round, replacesMap: Kids, treeMap: Links, bare: RbfTree, newTx: MempoolTx, newTime: real, now: real,
    r: Round)
    requires bare.replacedTrees == [] && !bare.fullRbf
    requires Growing(first.trees, r.txs, first.replacedBy, replacesMap, treeMap, bare)
    requires r == first.(txs := r.txs, kids := [], txFullRbf := false, treeFullRbf := false)
    requires Remembers(first.txs, newTx, [], r.txs)
    ensures Reached(first, replacesMap, treeMap, bare, newTx, [], newTime, now, r)
  {
    NoKidsYet(first.trees, first.replacedBy, newTime, now, newTx.txid, bare);
  }

  /** One round: what `tx` stands for goes below the root, unless it was replaced before. */
  ghost predicate Advances(r: Round, tx: MempoolTx, newId: TxId, newTime: real, now: real, r': Round) {
    if tx.txid in r.replacedBy then r' == r.(txFullRbf := r'.txFullRbf)
    else
      var kid := KidFor(r.trees, tx, newTime, now);
      r' == Round(
        r.trees - {tx.txid}, if tx.txid in r.txs then r.txs else r.txs[tx.txid := tx], r.replacedBy[tx.txid := newId],
        r.kids + [kid], r'.txFullRbf, r.treeFullRbf || kid.fullRbf || !kid.tx.rbf)
  }

  lemma ReachedIsConsistent(
    first: Round, replacesMap: Kids, treeMap: Links, bare: RbfTree, newTx: MempoolTx, done: seq<MempoolTx>,
    newTime: real, now: real, r: Round, id: TxId)
    requires Reached(first, replacesMap, treeMap, bare, newTx, done, newTime, now, r) && id != bare.Id()
    ensures Consistent(r.trees, r.txs, r.replacedBy, treeMap, id)
  {
    var root := bare.(replacedTrees := r.kids, fullRbf := r.treeFullRbf);
    UnreplacedIsConsistent(r.trees, r.txs, r.replacedBy, replacesMap, treeMap, root, id);
  }

  lemma ReachedStep(
    first: Round, replacesMap: Kids, treeMap: Links, bare: RbfTree, newTx: MempoolTx, replaced: seq<MempoolTx>, i: nat,
    newTime: real, now: real,
    r: Round, r': Round)
    requires i < |replaced| && replaced[i].txid != newTx.txid && bare.Id() == newTx.txid
    requires forall id {:trigger first.trees[id]} :: id in first.trees ==> first.trees[id].Id() == id
    requires Reached(first, replacesMap, treeMap, bare, newTx, replaced[..i], newTime, now, r)
    requires Advances(r, replaced[i], newTx.txid, newTime, now, r') &&
      r'.txFullRbf == (r.txFullRbf || !Signals(replaced[i]))
    ensures Reached(first, replacesMap, treeMap, bare, newTx, replaced[..i+1], newTime, now, r')
  {
    GrowingStep(replacesMap, treeMap, bare, replaced[i], newTime, now, r, r');
    KidsStep(first.trees, first.replacedBy, replaced, i, newTime, now, newTx.txid, r.kids, r.trees, r.replacedBy);
    SignallessStep(replaced, i);
    RememberStep(first.txs, newTx, replaced, i, r.txs, r'.txs);
  }

  lemma GrowingStep(
    replacesMap: Kids, treeMap: Links, bare: RbfTree, tx: MempoolTx, newTime: real, now: real, r: Round, r': Round)
    requires tx.txid != bare.Id() && Advances(r, tx, bare.Id(), newTime, now, r')
    requires Growing(r.trees, r.txs, r.replacedBy, replacesMap, treeMap,
      bare.(replacedTrees := r.kids, fullRbf := r.treeFullRbf))
    ensures Growing(r'.trees, r'.txs, r'.replacedBy, replacesMap, treeMap,
      bare.(replacedTrees := r'.kids, fullRbf := r'.treeFullRbf))
    ensures tx.txid in r.replacedBy ==> tx.txid in r.txs
  {
    var root, kid := bare.(replacedTrees := r.kids, fullRbf := r.treeFullRbf), KidFor(r.trees, tx, newTime, now);
    if tx.txid in r.replacedBy {
      ReplacedIsKnown(r.trees, r.txs, r.replacedBy, replacesMap, treeMap, root, tx.txid);
    } else {
      assert bare.(replacedTrees := r'.kids, fullRbf := r'.treeFullRbf) == Over(root, kid);
      if tx.txid in r.txs {
        KnownIsRoot(r.trees, r.txs, r.replacedBy, replacesMap, treeMap, root, tx.txid);
        SupersededTree(r.trees, r.txs, r.replacedBy, replacesMap, treeMap, root, tx, newTime, now);
      } else {
        UnknownIsLeaf(r.trees, r.txs, r.replacedBy, replacesMap, treeMap, root, tx.txid);
        SupersededLeaf(r.trees, r.txs, r.replacedBy, replacesMap, treeMap, root, tx, newTime, now);
      }
    }
  }

  function BareRoot(newTx: MempoolTx, newTime: real, txFullRbf: bool): RbfTree {
    RbfTree(RbfTx(newTx.txid, Signals(newTx), false, txFullRbf), newTime, None, false, false, [])
  }

  /** The trees of what was replaced make way for one tree that has them below its root, and
      leaves for what was not known. */
  ghost predicate Grown(
    trees: Forest, replacedBy: Links, txs: Txs, replaced: seq<MempoolTx>, newTx: MempoolTx, now: real, trees': Forest,
    txs': Txs)
  {
    var newTime := TimeOf(newTx, now);
    var kids := KidsOf(trees, replacedBy, replaced, newTime, now);
    && kids != [] && newTx.txid in trees'
    && trees' == (trees - Elements(Ids(kids)))[newTx.txid :=
         BareRoot(newTx, newTime, AnySignalless(replaced)).(fullRbf := trees'[newTx.txid].fullRbf,
             replacedTrees := kids)]
    && Remembers(txs, newTx, replaced, txs')
  }

  /** Some input of the transaction has a sequence below 0xfffffffe. */
  ghost predicate SignalsBelow(tx: MempoolTx) {
    exists i {:trigger tx.sequences[i]} :: 0 <= i < |tx.sequences| && tx.sequences[i] < 4294967294
  }

  /** A time is the transaction's own where it is known, and otherwise that of the call. */
  ghost predicate SeenAt(tx: MempoolTx, now: real, time: real) {
    if tx.firstSeen == 0.0 then time == now else time == tx.firstSeen
  }

  /** A tree stored before goes on as it was but for how long it stood. */
  ghost predicate SameBelow(before: RbfTree, kid: RbfTree, time: real) {
    && kid.tx == before.tx && kid.time == before.time && kid.mined == before.mined && kid.fullRbf == before.fullRbf
    && kid.replacedTrees == before.replacedTrees && kid.interval == Some(time - before.time)
  }

  /** One of the transactions replaced is new and becomes a leaf. */
  ghost predicate IsNewLeaf(tx: MempoolTx, kid: RbfTree, time: real, now: real) {
    && kid.tx.txid == tx.txid && (kid.tx.rbf <==> SignalsBelow(tx)) && !kid.tx.mined && !kid.tx.fullRbf
    && SeenAt(tx, now, kid.time) && kid.interval == Some(time - kid.time)
    && !kid.mined && (kid.fullRbf <==> !SignalsBelow(tx)) && kid.replacedTrees == []
  }

  /** What the new tree says, told from what was stored and what came in. */
  ghost predicate IsNewTree(trees: Forest, replaced: seq<MempoolTx>, newTx: MempoolTx, now: real, root: RbfTree) {
    && root.tx.txid == newTx.txid && (root.tx.rbf <==> SignalsBelow(newTx)) && !root.tx.mined && !root.mined
    && (root.tx.fullRbf <==> exists tx :: tx in replaced && !SignalsBelow(tx))
    && SeenAt(newTx, now, root.time) && root.interval == None
    && forall i {:trigger root.replacedTrees[i]} :: 0 <= i < |root.replacedTrees| ==>
         IsNewKid(trees, replaced, root.replacedTrees[i], root.time, now)
  }

  ghost predicate IsNewKid(trees: Forest, replaced: seq<MempoolTx>, kid: RbfTree, time: real, now: real) {
    if kid.Id() in trees then SameBelow(trees[kid.Id()], kid, time)
    else exists tx {:trigger tx in replaced} :: tx in replaced && IsNewLeaf(tx, kid, time, now)
  }

  lemma SignalsIs(tx: MempoolTx)
    ensures Signals(tx) <==> SignalsBelow(tx)
  {
    if Signals(tx) {
      var sequence :| sequence in tx.sequences && sequence < 0xfffffffe;
      var i :| 0 <= i < |tx.sequences| && tx.sequences[i] == sequence;
    }
    if SignalsBelow(tx) {
      var i :| 0 <= i < |tx.sequences| && tx.sequences[i] < 4294967294;
      assert tx.sequences[i] in tx.sequences;
    }
  }

  lemma KidTells(trees: Forest, tx: MempoolTx, newTime: real, now: real)
    requires AllTimed(trees) && forall id {:trigger trees[id]} :: id in trees ==> trees[id].Id() == id
    ensures var kid := KidFor(trees, tx, newTime, now);
      Timed(kid, Some(newTime - kid.time)) && IsNewKid(trees, [tx], kid, newTime, now)
  {
    SignalsIs(tx);
    if tx.txid in trees {
      assert Timed(trees[tx.txid], None);
    } else {
      assert tx in [tx] && IsNewLeaf(tx, KidFor(trees, tx, newTime, now), newTime, now);
    }
  }

  lemma {:induction false} KidsTell(
    trees: Forest, links: Links, replaced: seq<MempoolTx>, newTime: real, now: real)
    requires AllTimed(trees) && forall id {:trigger trees[id]} :: id in trees ==> trees[id].Id() == id
    ensures AreNewKids(trees, replaced, KidsOf(trees, links, replaced, newTime, now), newTime, now)
  {
    if replaced != [] {
      var init, tx := replaced[..|replaced|-1], replaced[|replaced|-1];
      KidsTell(trees, links, init, newTime, now);
      SplitLast(replaced);
      var earlier, kid := KidsOf(trees, links, init, newTime, now), KidFor(trees, tx, newTime, now);
      KidTells(trees, tx, newTime, now);
      MoreReplaced(trees, [tx], replaced, kid, newTime, now);
      KidsMore(trees, init, replaced, earlier, kid, newTime, now);
    }
  }

  ghost predicate AreNewKids(
    trees: Forest, replaced: seq<MempoolTx>, kids: seq<RbfTree>, time: real, now: real) {
    && TimedBelow(kids, time)
    && forall i {:trigger kids[i]} :: 0 <= i < |kids| ==> IsNewKid(trees, replaced, kids[i], time, now)
  }

  lemma KidsMore(
    trees: Forest, init: seq<MempoolTx>, replaced: seq<MempoolTx>, kids: seq<RbfTree>, kid: RbfTree, time: real,
    now: real)
    requires AreNewKids(trees, init, kids, time, now) && forall tx :: tx in init ==> tx in replaced
    requires Timed(kid, Some(time - kid.time)) && IsNewKid(trees, replaced, kid, time, now)
    ensures AreNewKids(trees, replaced, kids, time, now) && AreNewKids(trees, replaced, kids + [kid], time, now)
  {
    TimedWithKid(kids, kid, time);
    forall i | 0 <= i < |kids| ensures IsNewKid(trees, replaced, kids[i], time, now) {
      MoreReplaced(trees, init, replaced, kids[i], time, now);
    }
  }

  lemma MoreReplaced(
    trees: Forest, init: seq<MempoolTx>, replaced: seq<MempoolTx>, kid: RbfTree, newTime: real, now: real)
    requires IsNewKid(trees, init, kid, newTime, now) && forall tx :: tx in init ==> tx in replaced
    ensures IsNewKid(trees, replaced, kid, newTime, now)
  {
    if kid.Id() !in trees {
      var tx :| tx in init && IsNewLeaf(tx, kid, newTime, now);
    }
  }

  lemma GrownTells(
    trees: Forest, replacedBy: Links, txs: Txs, replaced: seq<MempoolTx>, newTx: MempoolTx, now: real, trees': Forest,
    txs': Txs)
    requires Grown(trees, replacedBy, txs, replaced, newTx, now, trees', txs') && AllTimed(trees)
    requires forall id {:trigger trees[id]} :: id in trees ==> trees[id].Id() == id
    ensures AllTimed(trees') && IsNewTree(trees, replaced, newTx, now, trees'[newTx.txid])
  {
    var newTime := TimeOf(newTx, now);
    KidsTell(trees, replacedBy, replaced, newTime, now);
    SignalsIs(newTx);
    forall tx | tx in replaced ensures Signals(tx) <==> SignalsBelow(tx) {
      SignalsIs(tx);
    }
  }

  lemma RemembersNew(txs: Txs, newTx: MempoolTx)
    requires newTx.txid !in txs
    ensures Remembers(txs, newTx, [], txs[newTx.txid := newTx])
  {
  }

  lemma KeptByRoot(memory: Memory, replacedBy: Links, replacesMap: Kids, treeMap: Links)
    requires WellKept(memory, replacedBy, replacesMap, treeMap)
    ensures forall id {:trigger memory.trees[id]} :: id in memory.trees ==> memory.trees[id].Id() == id
  {
  }

  lemma AddStarts(
    memory: Memory, replacedBy: Links, replacesMap: Kids, treeMap: Links, newTx: MempoolTx, newTime: real, now: real,
    replaced: seq<MempoolTx>)
    requires WellKept(memory, replacedBy, replacesMap, treeMap) && newTx.txid !in memory.txs
    ensures Reached(Round(memory.trees, memory.txs, replacedBy, [], false, false), replacesMap, treeMap,
      BareRoot(newTx, newTime, AnySignalless(replaced)), newTx, [], newTime, now,
      Round(memory.trees, memory.txs[newTx.txid := newTx], replacedBy, [], false, false))
  {
    var bare := BareRoot(newTx, newTime, AnySignalless(replaced));
    StartGrowing(memory, replacedBy, replacesMap, treeMap, newTx, bare);
    RemembersNew(memory.txs, newTx);
    StartReached(memory.trees, memory.txs, replacedBy, replacesMap, treeMap, bare, newTx, newTime, now);
  }

  lemma StartReached(
    trees: Forest, txs: Txs, replacedBy: Links, replacesMap: Kids, treeMap: Links, bare: RbfTree, newTx: MempoolTx,
    newTime: real, now: real)
    requires bare.replacedTrees == [] && !bare.fullRbf
    requires Growing(trees, txs[newTx.txid := newTx], replacedBy, replacesMap, treeMap, bare)
    requires Remembers(txs, newTx, [], txs[newTx.txid := newTx])
    ensures Reached(Round(trees, txs, replacedBy, [], false, false), replacesMap, treeMap, bare, newTx, [], newTime,
      now,
      Round(trees, txs[newTx.txid := newTx], replacedBy, [], false, false))
  {
    ReachedStart(Round(trees, txs, replacedBy, [], false, false), replacesMap, treeMap, bare, newTx, newTime, now,
      Round(trees, txs[newTx.txid := newTx], replacedBy, [], false, false));
  }

  function RootAfter(newTx: MempoolTx, newTime: real, r: Round): RbfTree {
    BareRoot(newTx, newTime, r.txFullRbf).(fullRbf := r.treeFullRbf, replacedTrees := r.kids)
  }

  lemma AddKeeps(
    first: Round, replacesMap: Kids, treeMap: Links, newTx: MempoolTx, newTime: real, now: real,
    replaced: seq<MempoolTx>,
    r: Round, expiring: map<TxId, int>)
    requires expiring.Keys <= first.txs.Keys && r.kids != []
    requires Reached(first, replacesMap, treeMap, BareRoot(newTx, newTime, AnySignalless(replaced)), newTx, replaced,
      newTime, now, r)
    ensures var root := RootAfter(newTx, newTime, r);
      WellKept(Memory(r.txs, r.trees[root.Id() := root], expiring), r.replacedBy,
        replacesMap[root.Id() := Ids(root.replacedTrees)], Renamed(treeMap, NodeSet(root), root.Id()))
  {
    var root := RootAfter(newTx, newTime, r);
    StillKnown(first.txs, newTx, replaced, r.txs, expiring.Keys);
    assert root == BareRoot(newTx, newTime, AnySignalless(replaced)).(replacedTrees := r.kids,
        fullRbf := r.treeFullRbf);
    StoreRenamed(r.trees, r.txs, r.replacedBy, replacesMap, treeMap, root, expiring);
  }

  lemma StillKnown(
    before: Txs, newTx: MempoolTx, replaced: seq<MempoolTx>, after: Txs, ids: set<TxId>)
    requires Remembers(before, newTx, replaced, after) && ids <= before.Keys
    ensures ids <= after.Keys
  {
    forall x | x in ids ensures x in after {
      assert x in before;
      var known := before[x];
    }
  }

  lemma StoreRenamed(
    trees: Forest, txs: Txs, replacedBy: Links, replacesMap: Kids, treeMap: Links, root: RbfTree, expiring: map<TxId,
    int>)
    requires Growing(trees, txs, replacedBy, replacesMap, treeMap, root)
    requires root.replacedTrees != [] && expiring.Keys <= txs.Keys
    ensures WellKept(Memory(txs, trees[root.Id() := root], expiring), replacedBy,
      replacesMap[root.Id() := Ids(root.replacedTrees)],
      Renamed(treeMap, NodeSet(root), root.Id()))
  {
    RenamedIs(treeMap, NodeSet(root), root.Id());
    StoreRoot(trees, txs, replacedBy, replacesMap, treeMap, root, Renamed(treeMap, NodeSet(root), root.Id()), expiring);
  }

  lemma AddGrows(
    first: Round, replacesMap: Kids, treeMap: Links, newTx: MempoolTx, now: real, replaced: seq<MempoolTx>, r: Round)
    requires exists tx :: tx in replaced && tx.txid !in first.replacedBy
    requires Reached(first, replacesMap, treeMap, BareRoot(newTx, TimeOf(newTx, now), AnySignalless(replaced)), newTx,
      replaced, TimeOf(newTx, now), now, r)
    ensures r.kids != []
    ensures Grown(first.trees, first.replacedBy, first.txs, replaced, newTx, now,
      r.trees[newTx.txid := RootAfter(newTx, TimeOf(newTx, now), r)], r.txs)
  {
    if r.kids == [] {
      NoKidsNoNews(first.trees, first.replacedBy, replaced, TimeOf(newTx, now), now);
      assert false;
    }
  }

  /** Every transaction of `nodes` gets the tree id `id`. */
  function Renamed(treeMap: Links, nodes: set<TxId>, id: TxId): Links {
    map x | x in treeMap.Keys + nodes :: if x in nodes then id else treeMap[x]
  }

  lemma RenamedIs(treeMap: Links, nodes: set<TxId>, id: TxId)
    ensures Renamed(treeMap, nodes, id).Keys == treeMap.Keys + nodes
    ensures forall x :: x in Renamed(treeMap, nodes, id) ==>
      Renamed(treeMap, nodes, id)[x] == if x in nodes then id else treeMap[x]
  {
  }

  lemma RenamedStart(treeMap: Links, tree: RbfTree, id: TxId)
    ensures var start := treeMap[tree.Id() := id];
      && Renamed(start, Elements(NodesOf(tree.replacedTrees[..0])), id) == start
      && Renamed(start, Elements(NodesOf(tree.replacedTrees)), id) == Renamed(treeMap, NodeSet(tree), id)
  {
    assert tree.replacedTrees[..0] == [];
    assert NodeSet(tree) == {tree.Id()} + Elements(NodesOf(tree.replacedTrees));
  }

  lemma RenamedStep(treeMap: Links, trees: seq<RbfTree>, i: nat, id: TxId)
    requires i < |trees|
    ensures Renamed(Renamed(treeMap, Elements(NodesOf(trees[..i])), id), NodeSet(trees[i]), id)
         == Renamed(treeMap, Elements(NodesOf(trees[..i+1])), id)
  {
    PrefixStep(trees, i);
    assert Elements(NodesOf(trees[..i+1])) == Elements(NodesOf(trees[..i])) + NodeSet(trees[i]);
  }

  function OwnTree(treeMap: Links, id: TxId): set<TxId> {
    if id in treeMap && treeMap[id] == id then {id} else {}
  }

  function Expired(expiring: map<TxId, int>, among: set<TxId>, now: int): set<TxId> {
    set x | x in expiring && x in among && expiring[x] < now
  }

  function Marked(s: State, id: TxId, txid: TxId): State
    requires id in s.memory.trees
  {
    s.(memory := s.memory.(trees := s.memory.trees[id := MinedTree(s.memory.trees[id], txid)]))
  }

  lemma MinedIsKept(s: State, txid: TxId)
    requires Kept(s) && txid in s.memory.txs
    ensures txid in s.treeMap && s.treeMap[txid] in s.memory.trees && Kept(Marked(s, s.treeMap[txid], txid))
  {
    UniqueIdAndExistence(s.memory.trees, s.replacedBy, s.replacesMap, s.treeMap, txid);
    MinedKeeps(s.memory.trees, s.memory.txs, s.replacedBy, s.replacesMap, s.treeMap, s.treeMap[txid], txid);
  }

  lemma MinedIsOne(s: State, txid: TxId)
    requires Kept(s) && txid in s.memory.txs && txid in s.treeMap && s.treeMap[txid] in s.memory.trees
    ensures var tree := s.memory.trees[s.treeMap[txid]];
      && MinedIn(MinedTree(tree, txid)) == MinedIn(tree) + {txid}
      && Unmined(MinedTree(tree, txid)) == Unmined(tree).(mined := true)
  {
    UniqueIdAndExistence(s.memory.trees, s.replacedBy, s.replacesMap, s.treeMap, txid);
    MarkSetsOneFlag(s.memory.trees[s.treeMap[txid]], txid);
    MarkSetsFlagsOnly(s.memory.trees[s.treeMap[txid]], txid);
  }

  /** Forgotten: the tree's root, its first `i` kids and all below them. */
  ghost function PartlyErased(s: State, tree: RbfTree, i: nat): State
    requires i <= |tree.replacedTrees|
  {
    var below := Elements(NodesOf(tree.replacedTrees[..i]));
    Erased(s, below, {tree.Id()} + below, OwnTree(s.treeMap, tree.Id()))
  }

  /** Forgotten: the whole tree. */
  ghost function WhollyErased(s: State, tree: RbfTree): State {
    Erased(s, Elements(NodesOf(tree.replacedTrees)), NodeSet(tree), OwnTree(s.treeMap, tree.Id()))
  }

  lemma ListedKids(s: State, tree: RbfTree)
    requires Removable(s, tree)
    ensures (if tree.Id() in s.replacesMap then s.replacesMap[tree.Id()] else []) == Ids(tree.replacedTrees)
  {
  }

  lemma NothingBelowYet(s: State, tree: RbfTree)
    ensures PartlyErased(s, tree, 0) == Erased(s, {}, {tree.Id()}, OwnTree(s.treeMap, tree.Id()))
  {
    assert tree.replacedTrees[..0] == [];
    assert Elements(NodesOf([])) == {};
    assert {tree.Id()} + {} == {tree.Id()};
  }

  lemma EverythingBelow(s: State, tree: RbfTree)
    ensures PartlyErased(s, tree, |tree.replacedTrees|) == WhollyErased(s, tree)
  {
    PrefixWhole(tree.replacedTrees);
    assert NodeSet(tree) == {tree.Id()} + Elements(NodesOf(tree.replacedTrees));
  }

  lemma RemoveStep(s: State, tree: RbfTree, i: nat)
    requires Removable(s, tree) && i < |tree.replacedTrees|
    ensures var kid, now := tree.replacedTrees[i], PartlyErased(s, tree, i);
      var unlinked := now.(replacedBy := now.replacedBy - {kid.Id()});
      Removable(unlinked, kid) && WhollyErased(unlinked, kid) == PartlyErased(s, tree, i + 1)
  {
    var kid, earlier, roots := tree.replacedTrees[i], Elements(NodesOf(tree.replacedTrees[..i])),
        OwnTree(s.treeMap, tree.Id());
    var below := Elements(NodesOf(kid.replacedTrees));
    NextIsRemovable(s, tree, i, roots);
    OneMoreKid(tree.replacedTrees, i);
    TwoRemovals(s.replacedBy, earlier, {kid.Id()});
    ErasedTwice(s, earlier + {kid.Id()}, {tree.Id()} + earlier, roots, below, NodeSet(kid), {});
    assert earlier + {kid.Id()} + below == earlier + NodeSet(kid);
    assert {tree.Id()} + earlier + NodeSet(kid) == {tree.Id()} + (earlier + NodeSet(kid));
    assert roots + {} == roots;
  }

  lemma SweepBegins(s: State, now: int)
    requires Kept(s)
    ensures Swept(s, Expired(s.memory.expiring, {}, now), s)
  {
    assert Expired(s.memory.expiring, {}, now) == {};
    SweepStart(s);
  }

  /** The ids looked at and those still to be looked at. */
  ghost predicate Parted(expiring: map<TxId, int>, todo: set<TxId>, done: set<TxId>) {
    todo + done == expiring.Keys && todo !! done
  }

  lemma PartedNext(expiring: map<TxId, int>, todo: set<TxId>, done: set<TxId>, id: TxId)
    requires Parted(expiring, todo, done) && id in todo
    ensures Parted(expiring, todo - {id}, done + {id}) && id in expiring && id !in done
  {
  }

  lemma PartedAtEnd(expiring: map<TxId, int>, done: set<TxId>)
    requires Parted(expiring, {}, done)
    ensures done == expiring.Keys
  {
  }

  lemma ExpiredMore(expiring: map<TxId, int>, done: set<TxId>, id: TxId, now: int)
    requires id in expiring && id !in done
    ensures id !in Expired(expiring, done, now)
    ensures Expired(expiring, done + {id}, now) ==
      Expired(expiring, done, now) + if expiring[id] < now then {id} else {}
  {
  }

  lemma SweepMore(before: State, done: set<TxId>, s: State, id: TxId, now: int)
    requires id in before.memory.expiring && id !in done
    requires Swept(before, Expired(before.memory.expiring, done, now), s)
    ensures var more := Expired(before.memory.expiring, done + {id}, now);
      if id in s.memory.expiring && s.memory.expiring[id] < now
      then Kept(WithoutExpiry(s, id)) && id in s.memory.txs &&
          Swept(before, more, AfterRemove(WithoutExpiry(s, id), id))
      else Swept(before, more, s)
  {
    var expiring := before.memory.expiring;
    var gone := Expired(expiring, done, now);
    ExpiredMore(expiring, done, id, now);
    assert gone + {} == gone;
    if id in s.memory.expiring {
      if s.memory.expiring[id] < now {
        SweepOne(before, gone, s, id);
      }
    } else if expiring[id] < now {
      SweepNone(before, gone, s, id);
    }
  }

  class RbfCache {
    var replacedBy: Links
    var replacesMap: Kids
    var rbfTrees: Forest
    var treeMap: Links
    var txs: map<TxId, MempoolTx>
    var expiring: map<TxId, int>
    var cacheQueue: seq<CacheEvent>

    ghost function Held(): Memory
      reads this
    {
      Memory(txs, rbfTrees, expiring)
    }

    ghost function State(): State
      reads this
    {
      RbfErasure.State(Held(), replacedBy, replacesMap, treeMap)
    }

    ghost predicate Valid()
      reads this
    {
      Kept(State()) && AllTimed(rbfTrees)
    }

    constructor ()
      ensures Valid()
      ensures Held() == Memory(map[], map[], map[]) && cacheQueue == []
    {
      replacedBy, replacesMap, rbfTrees, treeMap := map[], map[], map[], map[];
      txs, expiring, cacheQueue := map[], map[], [];
    }

    // ----------------------------------------------- low level cache operations

    method AddTx(tx: MempoolTx)
      modifies `txs, `cacheQueue
      ensures txs == old(txs)[tx.txid := tx]
      ensures Logged(old(Held()), old(cacheQueue), Held(), cacheQueue)
    {
      var e := CacheEvent(Op.Add, TxKind, tx.txid, 0);
      OneLogged(Held(), cacheQueue, Held().(txs := txs[tx.txid := tx]), e);
      txs := txs[tx.txid := tx];
      cacheQueue := cacheQueue + [e];
    }

    method AddTree(tree: RbfTree)
      modifies `rbfTrees, `cacheQueue
      ensures rbfTrees == old(rbfTrees)[tree.Id() := tree]
      ensures Logged(old(Held()), old(cacheQueue), Held(), cacheQueue)
    {
      var e := CacheEvent(Op.Add, TreeKind, tree.Id(), 0);
      OneLogged(Held(), cacheQueue, Held().(trees := rbfTrees[tree.Id() := tree]), e);
      rbfTrees := rbfTrees[tree.Id() := tree];
      cacheQueue := cacheQueue + [e];
    }

    method AddExpiration(txid: TxId, expiry: int)
      modifies `expiring, `cacheQueue
      ensures expiring == old(expiring)[txid := expiry]
      ensures Logged(old(Held()), old(cacheQueue), Held(), cacheQueue)
    {
      var e := CacheEvent(Op.Add, ExpKind, txid, expiry);
      OneLogged(Held(), cacheQueue, Held().(expiring := expiring[txid := expiry]), e);
      expiring := expiring[txid := expiry];
      cacheQueue := cacheQueue + [e];
    }

    method RemoveTx(txid: TxId)
      modifies `txs, `cacheQueue
      ensures txs == old(txs) - {txid}
      ensures Logged(old(Held()), old(cacheQueue), Held(), cacheQueue)
    {
      var e := CacheEvent(Op.Remove, TxKind, txid, 0);
      OneLogged(Held(), cacheQueue, Held().(txs := txs - {txid}), e);
      txs := txs - {txid};
      cacheQueue := cacheQueue + [e];
    }

    method RemoveTree(txid: TxId)
      modifies `rbfTrees, `cacheQueue
      ensures rbfTrees == old(rbfTrees) - {txid}
      ensures Logged(old(Held()), old(cacheQueue), Held(), cacheQueue)
    {
      var e := CacheEvent(Op.Remove, TreeKind, txid, 0);
      OneLogged(Held(), cacheQueue, Held().(trees := rbfTrees - {txid}), e);
      rbfTrees := rbfTrees - {txid};
      cacheQueue := cacheQueue + [e];
    }

    method RemoveExpiration(txid: TxId)
      modifies `expiring, `cacheQueue
      ensures expiring == old(expiring) - {txid}
      ensures Logged(old(Held()), old(cacheQueue), Held(), cacheQueue)
    {
      var e := CacheEvent(Op.Remove, ExpKind, txid, 0);
      OneLogged(Held(), cacheQueue, Held().(expiring := expiring - {txid}), e);
      expiring := expiring - {txid};
      cacheQueue := cacheQueue + [e];
    }

    // ------------------------------------------------------------ replacements

    /** One round of the loop in `Add`: whoever `tx` stands for goes below the new root. */
    method Supersede(tx: MempoolTx, newId: TxId, newTime: real, now: real, kids: seq<RbfTree>, treeFullRbf: bool)
      returns (kids': seq<RbfTree>, treeFullRbf': bool)
      modifies `replacedBy, `rbfTrees, `txs, `cacheQueue
      ensures replacedBy == WithLink(old(replacedBy), tx.txid, newId)
      ensures tx.txid in old(replacedBy) ==>
        kids' == kids && treeFullRbf' == treeFullRbf && rbfTrees == old(rbfTrees) && txs == old(txs)
      ensures Consistent(old(rbfTrees), old(txs), old(replacedBy), treeMap, tx.txid) && tx.txid !in old(replacedBy) ==>
        var kid := KidFor(old(rbfTrees), tx, newTime, now);
        && kids' == kids + [kid]
        && treeFullRbf' == (treeFullRbf || kid.fullRbf || !kid.tx.rbf)
        && rbfTrees == old(rbfTrees) - {tx.txid}
        && txs == if tx.txid in old(txs) then old(txs) else old(txs)[tx.txid := tx]
      ensures Logged(old(Held()), old(cacheQueue), Held(), cacheQueue)
    {
      kids', treeFullRbf' := kids, treeFullRbf;
      if tx.txid in replacedBy {
        NothingLogged(Held(), cacheQueue);
        return;
      }
      replacedBy := replacedBy[tx.txid := newId];
      if tx.txid in treeMap {
        var treeId := treeMap[tx.txid];
        if treeId in rbfTrees {
          var tree := rbfTrees[treeId];
          tree := tree.(interval := Some(newTime - tree.time));
          kids' := kids + [tree];
          treeFullRbf' := treeFullRbf || tree.fullRbf || !tree.tx.rbf;
        }
        RemoveTree(treeId);
      } else {
        var leaf := Leaf(tx, TimeOf(tx, now), newTime);
        kids' := kids + [leaf];
        treeFullRbf' := treeFullRbf || !leaf.tx.rbf;
        AddTx(tx);
      }
    }

    ghost function At(kids: seq<RbfTree>, txFullRbf: bool, treeFullRbf: bool): Round
      reads this
    {
      Round(rbfTrees, txs, replacedBy, kids, txFullRbf, treeFullRbf)
    }

    /** The body of the loop in `Add`. */
    method SupersedeNext(
      replaced: seq<MempoolTx>, i: nat, newTx: MempoolTx, newTime: real, now: real, kids: seq<RbfTree>,
      txFullRbf: bool, treeFullRbf: bool,
      ghost first: Round, ghost bare: RbfTree)
      returns (kids': seq<RbfTree>, txFullRbf': bool, treeFullRbf': bool)
      requires i < |replaced| && bare.Id() == newTx.txid
      requires forall id {:trigger first.trees[id]} :: id in first.trees ==> first.trees[id].Id() == id
      requires Underway(first, replacesMap, treeMap, bare, newTx, replaced[..i], newTime, now,
        At(kids, txFullRbf, treeFullRbf))
      modifies `replacedBy, `rbfTrees, `txs, `cacheQueue
      ensures Underway(first, replacesMap, treeMap, bare, newTx, replaced[..i+1], newTime, now,
        At(kids', txFullRbf', treeFullRbf'))
      ensures Logged(old(Held()), old(cacheQueue), Held(), cacheQueue)
    {
      var tx := replaced[i];
      ghost var round := At(kids, txFullRbf, treeFullRbf);
      AmongStep(replaced, i, newTx);
      ghost var apart := NotAmong(replaced[..i+1], newTx);
      if apart {
        ReachedIsConsistent(first, replacesMap, treeMap, bare, newTx, replaced[..i], newTime, now, round, tx.txid);
      }
      txFullRbf' := txFullRbf || !Signals(tx);
      kids', treeFullRbf' := Supersede(tx, newTx.txid, newTime, now, kids, treeFullRbf);
      if apart {
        ReachedStep(first, replacesMap, treeMap, bare, newTx, replaced, i, newTime, now, round,
          At(kids', txFullRbf', treeFullRbf'));
      }
    }

    /** The loop of `Add`: everything in `replaced` goes below the new root, which then has
        kids `kids`. */
    method SupersedeAll(
      replaced: seq<MempoolTx>, newTx: MempoolTx, newTime: real, now: real, ghost first: Round, ghost bare: RbfTree)
      returns (kids: seq<RbfTree>, txFullRbf: bool, treeFullRbf: bool)
      requires Underway(first, replacesMap, treeMap, bare, newTx, [], newTime, now, At([], false, false))
      requires forall id {:trigger first.trees[id]} :: id in first.trees ==> first.trees[id].Id() == id
      requires bare.Id() == newTx.txid
      modifies `replacedBy, `rbfTrees, `txs, `cacheQueue
      ensures Underway(first, replacesMap, treeMap, bare, newTx, replaced, newTime, now,
        At(kids, txFullRbf, treeFullRbf))
      ensures Logged(old(Held()), old(cacheQueue), Held(), cacheQueue)
    {
      kids, txFullRbf, treeFullRbf := [], false, false;
      NothingLogged(Held(), cacheQueue);
      PrefixWhole(replaced);
      for i := 0 to |replaced|
        invariant Underway(first, replacesMap, treeMap, bare, newTx, replaced[..i], newTime, now,
          At(kids, txFullRbf, treeFullRbf))
        invariant Logged(old(Held()), old(cacheQueue), Held(), cacheQueue)
      {
        ghost var held, queue := Held(), cacheQueue;
        kids, txFullRbf, treeFullRbf := SupersedeNext(replaced, i, newTx, newTime, now, kids, txFullRbf, treeFullRbf,
            first, bare);
        LoggedCompose(old(Held()), old(cacheQueue), held, queue, Held(), cacheQueue);
      }
    }

    method UpdateTreeMap(newId: TxId, tree: RbfTree)
      modifies `treeMap
      ensures treeMap == Renamed(old(treeMap), NodeSet(tree), newId)
      decreases tree
    {
      treeMap := treeMap[tree.Id() := newId];
      ghost var start := treeMap;
      RenamedStart(old(treeMap), tree, newId);
      for i := 0 to |tree.replacedTrees|
        invariant treeMap == Renamed(start, Elements(NodesOf(tree.replacedTrees[..i])), newId)
      {
        RenamedStep(start, tree.replacedTrees, i, newId);
        UpdateTreeMap(newId, tree.replacedTrees[i]);
      }
      PrefixWhole(tree.replacedTrees);
    }

    /** The end of `Add`: the new root is stored and entered everywhere. */
    method StoreNewTree(root: RbfTree)
      modifies `rbfTrees, `treeMap, `replacesMap, `cacheQueue
      ensures rbfTrees == old(rbfTrees)[root.Id() := root]
      ensures treeMap == Renamed(old(treeMap), NodeSet(root), root.Id())
      ensures replacesMap == old(replacesMap)[root.Id() := Ids(root.replacedTrees)]
      ensures Logged(old(Held()), old(cacheQueue), Held(), cacheQueue)
    {
      AddTree(root);
      UpdateTreeMap(root.Id(), root);
      replacesMap := replacesMap[root.Id() := Ids(root.replacedTrees)];
    }

    /** Nothing happens for a replacement of nothing, one already known, or one of
        transactions that have all been replaced before. */
    ghost predicate Ignores(replaced: seq<MempoolTx>, newTx: MempoolTx)
      reads this
    {
      replaced == [] || newTx.txid in txs || forall tx :: tx in replaced ==> tx.txid in replacedBy
    }

    method Add(replaced: seq<MempoolTx>, newTx: MempoolTx, now: real)
      requires Valid()
      modifies this
      ensures Valid() <==> old(Ignores(replaced, newTx)) || NotAmong(replaced, newTx)
      ensures expiring == old(expiring)
      ensures old(Ignores(replaced, newTx)) ==> Held() == old(Held()) && cacheQueue == old(cacheQueue)
      ensures !old(Ignores(replaced, newTx)) && NotAmong(replaced, newTx) ==>
        && Grown(old(rbfTrees), old(replacedBy), old(txs), replaced, newTx, now, rbfTrees, txs)
        && IsNewTree(old(rbfTrees), replaced, newTx, now, rbfTrees[newTx.txid])
      ensures Logged(old(Held()), old(cacheQueue), Held(), cacheQueue)
    {
      if replaced == [] || newTx.txid in txs || !(exists tx :: tx in replaced && tx.txid !in replacedBy) {
        NothingLogged(Held(), cacheQueue);
        return;
      }
      AddNew(replaced, newTx, now);
    }

    method AddNew(replaced: seq<MempoolTx>, newTx: MempoolTx, now: real)
      requires Valid() && !Ignores(replaced, newTx)
      modifies this
      ensures (Valid() <==> NotAmong(replaced, newTx)) && expiring == old(expiring)
      ensures NotAmong(replaced, newTx) ==>
        && Grown(old(rbfTrees), old(replacedBy), old(txs), replaced, newTx, now, rbfTrees, txs)
        && IsNewTree(old(rbfTrees), replaced, newTx, now, rbfTrees[newTx.txid])
      ensures Logged(old(Held()), old(cacheQueue), Held(), cacheQueue)
    {
      var newTime := TimeOf(newTx, now);
      ghost var first := At([], false, false);
      AddStarts(Held(), replacedBy, replacesMap, treeMap, newTx, newTime, now, replaced);
      KeptByRoot(Held(), replacedBy, replacesMap, treeMap);
      UnknownIsUnreplaced(State(), newTx.txid);
      ghost var round := AddLinks(replaced, newTx, newTime, now, first,
          BareRoot(newTx, newTime, AnySignalless(replaced)));
      if NotAmong(replaced, newTx) {
        AddGrows(first, old(replacesMap), old(treeMap), newTx, now, replaced, round);
        AddKeeps(first, old(replacesMap), old(treeMap), newTx, newTime, now, replaced, round, expiring);
        GrownTells(old(rbfTrees), old(replacedBy), old(txs), replaced, newTx, now, rbfTrees, txs);
      } else {
        SelfReplacementIsInvalid(State(), newTx.txid);
      }
    }

    /** `Add`, past its checks. */
    method AddLinks(
      replaced: seq<MempoolTx>, newTx: MempoolTx, newTime: real, now: real, ghost first: Round, ghost bare: RbfTree)
      returns (ghost round: Round)
      requires Underway(first, replacesMap, treeMap, bare, newTx, [], newTime, now,
        At([], false, false).(txs := txs[newTx.txid := newTx]))
      requires forall id {:trigger first.trees[id]} :: id in first.trees ==> first.trees[id].Id() == id
      requires bare.Id() == newTx.txid
      modifies `rbfTrees, `treeMap, `replacesMap, `cacheQueue, `replacedBy, `txs
      ensures Underway(first, old(replacesMap), old(treeMap), bare, newTx, replaced, newTime, now, round)
      ensures var root := RootAfter(newTx, newTime, round);
        && txs == round.txs && replacedBy == round.replacedBy && rbfTrees == round.trees[root.Id() := root]
        && treeMap == Renamed(old(treeMap), NodeSet(root), root.Id())
        && replacesMap == old(replacesMap)[root.Id() := Ids(root.replacedTrees)]
      ensures Logged(old(Held()), old(cacheQueue), Held(), cacheQueue)
    {
      AddTx(newTx);
      ghost var held, queue := Held(), cacheQueue;
      var root;
      root, round := AddBelow(replaced, newTx, newTime, now, first, bare);
      LoggedCompose(old(Held()), old(cacheQueue), held, queue, Held(), cacheQueue);
      held, queue := Held(), cacheQueue;
      StoreNewTree(root);
      LoggedCompose(old(Held()), old(cacheQueue), held, queue, Held(), cacheQueue);
    }

    /** `Add` with the replacement itself known: its tree. */
    method AddBelow(
      replaced: seq<MempoolTx>, newTx: MempoolTx, newTime: real, now: real, ghost first: Round, ghost bare: RbfTree)
      returns (root: RbfTree, ghost round: Round)
      requires Underway(first, replacesMap, treeMap, bare, newTx, [], newTime, now, At([], false, false))
      requires forall id {:trigger first.trees[id]} :: id in first.trees ==> first.trees[id].Id() == id
      requires bare.Id() == newTx.txid
      modifies `rbfTrees, `cacheQueue, `replacedBy, `txs
      ensures Underway(first, replacesMap, treeMap, bare, newTx, replaced, newTime, now, round)
      ensures root == RootAfter(newTx, newTime, round)
      ensures txs == round.txs && replacedBy == round.replacedBy && rbfTrees == round.trees
      ensures Logged(old(Held()), old(cacheQueue), Held(), cacheQueue)
    {
      var kids, txFullRbf, treeFullRbf := SupersedeAll(replaced, newTx, newTime, now, first, bare);
      round := At(kids, txFullRbf, treeFullRbf);
      root := BareRoot(newTx, newTime, txFullRbf).(fullRbf := treeFullRbf, replacedTrees := kids);
    }

    // ------------------------------------------------- mined, evicted, forgotten

    method Mined(txid: TxId, now: int)
      requires Valid()
      modifies `rbfTrees, `expiring, `cacheQueue
      ensures Valid()
      ensures txid !in txs ==> Held() == old(Held()) && cacheQueue == old(cacheQueue)
      ensures txid in txs ==>
        && txid in treeMap && treeMap[txid] in old(rbfTrees)
        && rbfTrees == old(rbfTrees)[treeMap[txid] := MinedTree(old(rbfTrees)[treeMap[txid]], txid)]
        && Unmined(rbfTrees[treeMap[txid]]) == Unmined(old(rbfTrees)[treeMap[txid]]).(mined := true)
        && MinedIn(rbfTrees[treeMap[txid]]) == MinedIn(old(rbfTrees)[treeMap[txid]]) + {txid}
        && expiring == if txid in old(expiring) then old(expiring) else old(expiring)[txid := now + 86400000]
      ensures Logged(old(Held()), old(cacheQueue), Held(), cacheQueue)
    {
      if txid !in txs {
        NothingLogged(Held(), cacheQueue);
        return;
      }
      var treeId := treeMap[txid];
      MinedIsKept(State(), txid);
      MinedIsOne(State(), txid);
      MinedKeepsTimes(rbfTrees, treeId, txid);
      MarkTree(treeId, txid);
      ghost var held, queue := Held(), cacheQueue;
      Evict(txid, false, now);
      LoggedCompose(old(Held()), old(cacheQueue), held, queue, Held(), cacheQueue);
    }

    method MarkTree(treeId: TxId, txid: TxId)
      requires treeId in rbfTrees
      modifies `rbfTrees, `cacheQueue
      ensures rbfTrees == old(rbfTrees)[treeId := MinedTree(old(rbfTrees)[treeId], txid)]
      ensures Logged(old(Held()), old(cacheQueue), Held(), cacheQueue)
    {
      var e := CacheEvent(Op.Change, TreeKind, treeId, 0);
      var tree := MarkMined(rbfTrees[treeId], txid).(mined := true);
      OneLogged(Held(), cacheQueue, Held().(trees := rbfTrees[treeId := tree]), e);
      rbfTrees := rbfTrees[treeId := tree];
      cacheQueue := cacheQueue + [e];
    }

    /** The transaction left the mempool: it expires in a day, or in ten minutes. */
    method Evict(txid: TxId, fast: bool, now: int)
      requires Valid()
      modifies `expiring, `cacheQueue
      ensures Valid()
      ensures expiring ==
        if txid in txs && (fast || txid !in old(expiring))
        then old(expiring)[txid := now + if fast then 600000 else 86400000]
        else old(expiring)
      ensures Logged(old(Held()), old(cacheQueue), Held(), cacheQueue)
    {
      NothingLogged(Held(), cacheQueue);
      if txid in txs && (fast || txid !in expiring) {
        var expiryTime := if fast then now + 1000 * 60 * 10 else now + 1000 * 86400;
        ghost var after := State().(memory := Held().(expiring := expiring[txid := expiryTime]));
        ExpiringMore(State(), txid, expiryTime);
        AddExpiration(txid, expiryTime);
        assert State() == after;
      }
    }

    /** Forgets `txid` and everything it replaced, unless a replacement of it is known. */
    method Remove(txid: TxId, ghost tree: RbfTree)
      requires txid !in replacedBy ==> tree.Id() == txid && Removable(State(), tree)
      modifies this
      ensures txid in old(replacedBy) ==> State() == old(State()) && cacheQueue == old(cacheQueue)
      ensures txid !in old(replacedBy) ==> State() == WhollyErased(old(State()), tree)
      ensures Logged(old(Held()), old(cacheQueue), Held(), cacheQueue)
      decreases tree
    {
      NothingLogged(Held(), cacheQueue);
      if txid !in replacedBy {
        ghost var before, log := State(), cacheQueue;
        ListedKids(before, tree);
        NothingBelowYet(before, tree);
        var replaced := RemoveSelf(txid);
        for i := 0 to |replaced|
          invariant replaced == Ids(tree.replacedTrees)
          invariant State() == PartlyErased(before, tree, i)
          invariant Logged(before.memory, log, Held(), cacheQueue)
        {
          ghost var held, queue := Held(), cacheQueue;
          RemoveStep(before, tree, i);
          replacedBy := replacedBy - {replaced[i]};
          Remove(replaced[i], tree.replacedTrees[i]);
          LoggedCompose(before.memory, log, held, queue, Held(), cacheQueue);
        }
        EverythingBelow(before, tree);
      }
    }

    /** The first half of `Remove`: all but what `txid` replaced. */
    method RemoveSelf(txid: TxId) returns (replaced: seq<TxId>)
      modifies `replacesMap, `treeMap, `txs, `expiring, `rbfTrees, `cacheQueue
      ensures State() == Erased(old(State()), {}, {txid}, OwnTree(old(treeMap), txid))
      ensures replaced == if txid in old(replacesMap) then old(replacesMap)[txid] else []
      ensures Logged(old(Held()), old(cacheQueue), Held(), cacheQueue)
    {
      var isRoot := txid in treeMap && treeMap[txid] == txid;
      replaced := if txid in replacesMap then replacesMap[txid] else [];
      replacesMap := replacesMap - {txid};
      treeMap := treeMap - {txid};
      RemoveTx(txid);
      ghost var held, queue := Held(), cacheQueue;
      RemoveExpiration(txid);
      LoggedCompose(old(Held()), old(cacheQueue), held, queue, Held(), cacheQueue);
      if isRoot {
        held, queue := Held(), cacheQueue;
        RemoveTree(txid);
        LoggedCompose(old(Held()), old(cacheQueue), held, queue, Held(), cacheQueue);
      }
      assert replacedBy - {} == replacedBy && (!isRoot ==> rbfTrees - {} == rbfTrees);
    }

    /** Forgets every tree whose root has expired; other expiries merely lapse. */
    method Cleanup(now: int)
      requires Valid()
      modifies this
      ensures Valid()
      ensures Swept(old(State()), Expired(old(expiring), old(expiring).Keys, now), State())
      ensures Logged(old(Held()), old(cacheQueue), Held(), cacheQueue)
    {
      NothingLogged(Held(), cacheQueue);
      ghost var before, log, done := State(), cacheQueue, {};
      SweepBegins(before, now);
      var todo := expiring.Keys;
      while todo != {}
        invariant Parted(before.memory.expiring, todo, done)
        invariant Swept(before, Expired(before.memory.expiring, done, now), State())
        invariant Logged(before.memory, log, Held(), cacheQueue)
        decreases todo
      {
        var txid :| txid in todo;
        PartedNext(before.memory.expiring, todo, done, txid);
        ghost var held, queue := Held(), cacheQueue;
        CleanupNext(txid, now, before, done);
        LoggedCompose(before.memory, log, held, queue, Held(), cacheQueue);
        todo, done := todo - {txid}, done + {txid};
      }
      PartedAtEnd(before.memory.expiring, done);
    }

    method CleanupNext(txid: TxId, now: int, ghost before: State, ghost done: set<TxId>)
      requires txid in before.memory.expiring && txid !in done
      requires Swept(before, Expired(before.memory.expiring, done, now), State())
      modifies this
      ensures Swept(before, Expired(before.memory.expiring, done + {txid}, now), State())
      ensures Logged(old(Held()), old(cacheQueue), Held(), cacheQueue)
    {
      SweepMore(before, done, State(), txid, now);
      if txid in expiring && expiring[txid] < now {
        CleanupOne(txid);
      } else {
        NothingLogged(Held(), cacheQueue);
      }
    }

    method CleanupOne(txid: TxId)
      requires Kept(WithoutExpiry(State(), txid)) && txid in txs
      modifies this
      ensures State() == AfterRemove(WithoutExpiry(old(State()), txid), txid)
      ensures Logged(old(Held()), old(cacheQueue), Held(), cacheQueue)
    {
      RemoveExpiration(txid);
      ghost var held, queue, lapsed := Held(), cacheQueue, State();
      StoredOrReplaced(lapsed, txid);
      if txid in rbfTrees {
        StoredIsRemovable(lapsed, txid);
        Remove(txid, rbfTrees[txid]);
      } else {
        Remove(txid, Leaf(MempoolTx(0, [], 0.0), 0.0, 0.0));
      }
      LoggedCompose(old(Held()), old(cacheQueue), held, queue, Held(), cacheQueue);
    }

    // ------------------------------------------------------------------ restoring

    /** Rebuilds the exported `tree` from the record of its root down: what comes of it. */
    method ImportTree(
      root: TxId, txid: TxId, deflated: Deflated, mined: bool, ghost tree: RbfTree) returns (result: Option<RbfTree>)
      requires Describes(deflated.records, tree) && txid == tree.Id() && Distinct(Nodes(tree))
      requires root == txid || root !in Nodes(tree)
      modifies `replacedBy, `replacesMap, `rbfTrees, `cacheQueue
      ensures root == txid && txid !in txs ==>
        result == None && replacedBy == old(replacedBy) && replacesMap == old(replacesMap)
      ensures (root != txid || txid in txs) && !mined ==>
        && result == Imported(txs, treeMap.Keys, tree)
        && replacedBy == ImportedLinks(txs.Keys, treeMap.Keys, old(replacedBy), tree)
        && replacesMap == ImportedLists(txs.Keys, treeMap.Keys, old(replacesMap), tree)
      ensures rbfTrees == if (root != txid || txid in txs) && treeMap.Keys !! NodeSet(tree) then old(rbfTrees)
        else old(rbfTrees) - {deflated.root}
      ensures (root != txid || txid in txs) && treeMap.Keys !! NodeSet(tree) ==> cacheQueue == old(cacheQueue)
      ensures Logged(old(Held()), old(cacheQueue), Held(), cacheQueue)
      decreases tree, 2
    {
      if root == txid && txid !in txs {
        RemoveTree(deflated.root);
        return None;
      }
      RootAndBelow(tree);
      if txid in treeMap {
        RemoveTree(deflated.root);
        return None;
      }
      var info := deflated.records[txid];
      ghost var links, lists := replacedBy, replacesMap;
      var kids, anyMined := ImportKids(root, txid, deflated, mined, tree);
      if !mined {
        RebuiltAll(txs, treeMap.Keys, links, lists, tree, kids, replacedBy, replacesMap);
      }
      replacesMap := replacesMap[txid := Ids(kids)];
      if txid !in txs {
        return None;
      }
      result := Some(RbfTree(RbfTx(txid, Signals(txs[txid]), info.txMined, false), info.time, info.interval, anyMined,
          info.fullRbf, kids));
    }

    /** Rebuilds what the record of `txid` lists as replaced, and links it to `txid`. */
    method ImportKids(root: TxId, txid: TxId, deflated: Deflated, mined: bool, ghost tree: RbfTree)
      returns (kids: seq<RbfTree>, anyMined: bool)
      requires Describes(deflated.records, tree) && txid == tree.Id() && Distinct(Nodes(tree))
      requires root == txid || root !in Nodes(tree)
      modifies `replacedBy, `replacesMap, `rbfTrees, `cacheQueue
      ensures !mined ==>
        && Rebuilt(txs, treeMap.Keys, old(replacedBy), old(replacesMap), txid, tree.replacedTrees, kids, replacedBy,
                   replacesMap)
        && !anyMined
      ensures rbfTrees == if treeMap.Keys !! Elements(NodesOf(tree.replacedTrees)) then old(rbfTrees)
        else old(rbfTrees) - {deflated.root}
      ensures treeMap.Keys !! Elements(NodesOf(tree.replacedTrees)) ==> cacheQueue == old(cacheQueue)
      ensures Logged(old(Held()), old(cacheQueue), Held(), cacheQueue)
      decreases tree, 1
    {
      kids, anyMined := [], mined;
      ghost var links, lists, trees := replacedBy, replacesMap, tree.replacedTrees;
      PrefixWhole(trees);
      NothingLogged(Held(), cacheQueue);
      for i := 0 to |deflated.records[txid].replaced|
        invariant anyMined == mined
        invariant mined ||
          Rebuilt(txs, treeMap.Keys, links, lists, txid, trees[..i], kids, replacedBy, replacesMap)
        invariant rbfTrees == if treeMap.Keys !! Elements(NodesOf(trees[..i])) then old(rbfTrees)
          else old(rbfTrees) - {deflated.root}
        invariant treeMap.Keys !! Elements(NodesOf(trees[..i])) ==> cacheQueue == old(cacheQueue)
        invariant Logged(old(Held()), old(cacheQueue), Held(), cacheQueue)
      {
        ghost var held, queue := Held(), cacheQueue;
        MoreNodes(trees, i);
        kids, anyMined := ImportKid(root, txid, deflated, mined, i, kids, anyMined, tree, links, lists);
        LoggedCompose(old(Held()), old(cacheQueue), held, queue, Held(), cacheQueue);
      }
    }

    /** The body of that loop. */
    method ImportKid(
      root: TxId, txid: TxId, deflated: Deflated, mined: bool, i: nat, kids: seq<RbfTree>, anyMined: bool,
      ghost tree: RbfTree, ghost links: Links, ghost lists: Kids)
      returns (kids': seq<RbfTree>, anyMined': bool)
      requires Describes(deflated.records, tree) && txid == tree.Id() && Distinct(Nodes(tree))
      requires root == txid || root !in Nodes(tree)
      requires i < |tree.replacedTrees| && anyMined == mined
      requires mined ||
        Rebuilt(txs, treeMap.Keys, links, lists, txid, tree.replacedTrees[..i], kids, replacedBy, replacesMap)
      modifies `replacedBy, `replacesMap, `rbfTrees, `cacheQueue
      ensures anyMined' == mined
      ensures mined ||
        Rebuilt(txs, treeMap.Keys, links, lists, txid, tree.replacedTrees[..i+1], kids', replacedBy, replacesMap)
      ensures rbfTrees == if treeMap.Keys !! NodeSet(tree.replacedTrees[i]) then old(rbfTrees)
        else old(rbfTrees) - {deflated.root}
      ensures treeMap.Keys !! NodeSet(tree.replacedTrees[i]) ==> cacheQueue == old(cacheQueue)
      ensures Logged(old(Held()), old(cacheQueue), Held(), cacheQueue)
      decreases tree, 0
    {
      KidIsImportable(deflated.records, root, tree, i);
      kids', anyMined' := kids, anyMined;
      ghost var kid := tree.replacedTrees[i];
      var replaced := ImportTree(root, deflated.records[txid].replaced[i], deflated, anyMined, kid);
      if replaced.Some? {
        replacedBy := replacedBy[replaced.value.Id() := txid];
        kids' := kids + [replaced.value];
        anyMined' := anyMined || replaced.value.mined;
      }
      if !mined {
        RebuiltStep(txs, treeMap.Keys, links, lists, txid, tree.replacedTrees, i, kids, old(replacedBy),
          old(replacesMap));
      }
    }
  }
}
