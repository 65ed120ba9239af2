/** Walking back along a new chain until it meets the indexed one. */
module Reorg {
  import opened Basics
  import opened BlocksRepositories

  /** How many blocks the cache keeps. */
  function CacheSize(initialBlocksAmount: nat): nat {
    initialBlocksAmount * 4
  }

  ghost predicate HasHeader(headers: Headers, block: Block) {
    block.id in headers && headers[block.id] == Header(block.height, block.previousblockhash)
  }

  ghost predicate AllHaveHeaders(headers: Headers, blocks: seq<Block>) {
    forall i {:trigger blocks[i]} :: 0 <= i < |blocks| ==> HasHeader(headers, blocks[i])
  }

  function Hashes(blocks: seq<Block>): set<Hash> {
    set block | block in blocks :: block.id
  }

  /** Each block of the list points to the one after it. */
  ghost predicate Descending(blocks: seq<Block>) {
    forall i {:trigger blocks[i]} :: 0 <= i < |blocks| - 1 ==>
      blocks[i].previousblockhash == blocks[i+1].id && blocks[i].height == blocks[i+1].height + 1
  }

  // --------------------------------------------------------------- the new chain

  /** The blocks from below `top` on, each the parent of the one before it. */
  ghost predicate Gathered(headers: Headers, top: Block, chain: seq<Block>) {
    Descending([top] + chain) && AllHaveHeaders(headers, [top] + chain)
  }

  /** Where the walk from `top` has come to. */
  function Lowest(top: Block, chain: seq<Block>): Block {
    if chain == [] then top else chain[|chain|-1]
  }

  lemma GatheredMore(headers: Headers, top: Block, chain: seq<Block>, next: Block)
    requires Stacked(headers) && Gathered(headers, top, chain)
    requires HasHeader(headers, next) && next.id == Lowest(top, chain).previousblockhash
    ensures Gathered(headers, top, chain + [next]) && next.height + 1 == Lowest(top, chain).height
  {
    var all, tail := [top] + chain, Lowest(top, chain);
    assert all[|all|-1] == tail && headers[tail.id].previousblockhash in headers;
    assert [top] + (chain + [next]) == all + [next];
  }

  lemma {:induction false} ChainHeights(headers: Headers, top: Block, chain: seq<Block>, i: nat)
    requires Gathered(headers, top, chain) && i < |chain|
    ensures chain[i].height == top.height - 1 - i
  {
    var all := [top] + chain;
    assert all[i].height == all[i+1].height + 1;
    if i > 0 {
      ChainHeights(headers, top, chain, i - 1);
    }
  }

  /** A hash of the new chain is that of a block there, and that block's height tells where. */
  lemma OnChain(headers: Headers, top: Block, chain: seq<Block>, id: Hash) returns (i: nat)
    requires Gathered(headers, top, chain) && id in Hashes(chain)
    ensures i < |chain| && chain[i].id == id && id in headers && headers[id].height == chain[i].height
    ensures chain[i].height == top.height - 1 - i && Lowest(top, chain).height <= chain[i].height < top.height
  {
    var block :| block in chain && block.id == id;
    i :| 0 <= i < |chain| && chain[i] == block;
    assert HasHeader(headers, ([top] + chain)[i+1]);
    ChainHeights(headers, top, chain, i);
    ChainHeights(headers, top, chain, |chain| - 1);
  }

  // ------------------------------------------------------- the table during the walk

  /** Some other block was canonical where `block` goes. */
  ghost predicate Displaces(before: Rows, block: Block) {
    exists id {:trigger Canonical(before, id)} ::
      Canonical(before, id) && before[id].height == block.height && id != block.id
  }

  /** Nothing was rewound without need. */
  ghost predicate AllDisplace(before: Rows, chain: seq<Block>) {
    forall block {:trigger block in chain} :: block in chain ==> Displaces(before, block)
  }

  /** The table once the blocks of `chain` are made canonical: at their heights nothing else
      is, and at other heights it is as it was. */
  ghost predicate Reconnecting(before: Rows, headers: Headers, top: Block, chain: seq<Block>, rows: Rows) {
    && Faithful(before, headers) && Faithful(rows, headers) && Gathered(headers, top, chain)
    && AllDisplace(before, chain)
    && rows.Keys == before.Keys + Hashes(chain)
    && forall id {:trigger Canonical(rows, id)} {:trigger Canonical(before, id)} ::
         Canonical(rows, id) <==>
           id in Hashes(chain) ||
           (Canonical(before, id) && !(Lowest(top, chain).height <= before[id].height < top.height))
  }

  /** The walk has met the indexed chain: the parent of `tail` is canonical, or nothing is at
      that height. */
  ghost predicate Met(rows: Rows, tail: Block) {
    Canonical(rows, tail.previousblockhash) ||
    forall id {:trigger Canonical(rows, id)} :: Canonical(rows, id) ==> rows[id].height != tail.height - 1
  }

  /** The canonical block at a height, as looked up. */
  ghost predicate IsIndexed(rows: Rows, height: int, found: Option<Block>) {
    && (found.Some? ==> Canonical(rows, found.value.id) && rows[found.value.id].height == height)
    && (found.None? ==> forall id {:trigger Canonical(rows, id)} :: Canonical(rows, id) ==> rows[id].height != height)
  }

  /** What becomes of the table in one round: the parent is indexed and made canonical. */
  function Rewound(rows: Rows, parent: Block): Rows {
    WithCanonical(if parent.id in rows then rows else WithBlock(rows, parent), parent.id, parent.height)
  }

  lemma RewoundCanonical(rows: Rows, headers: Headers, parent: Block)
    requires Faithful(rows, headers) && HasHeader(headers, parent)
    ensures Faithful(Rewound(rows, parent), headers) && Rewound(rows, parent).Keys == rows.Keys + {parent.id}
    ensures forall id {:trigger Canonical(Rewound(rows, parent), id)} ::
      Canonical(Rewound(rows, parent), id) <==>
          id == parent.id || (Canonical(rows, id) && rows[id].height != parent.height)
  {
  }

  lemma HashesMore(chain: seq<Block>, next: Block)
    ensures Hashes(chain + [next]) == Hashes(chain) + {next.id}
  {
    var more := chain + [next];
    assert more[|chain|] == next;
    forall id | id in Hashes(chain) ensures id in Hashes(more) {
      var block :| block in chain && block.id == id;
      assert block in more;
    }
  }

  /** Below the new chain the table is as it was. */
  lemma AsBeforeBelow(before: Rows, headers: Headers, top: Block, chain: seq<Block>, rows: Rows, id: Hash)
    requires Reconnecting(before, headers, top, chain, rows)
    ensures Canonical(rows, id) && rows[id].height < Lowest(top, chain).height <==>
      Canonical(before, id) && before[id].height < Lowest(top, chain).height
  {
    if id in Hashes(chain) {
      var i := OnChain(headers, top, chain, id);
    }
  }

  lemma RewindStep(
    before: Rows, headers: Headers, top: Block, chain: seq<Block>, rows: Rows, indexed: Hash, parent: Block)
    requires Stacked(headers) && Reconnecting(before, headers, top, chain, rows)
    requires HasHeader(headers, parent) && parent.id == Lowest(top, chain).previousblockhash
    requires Canonical(rows, indexed) && rows[indexed].height == Lowest(top, chain).height - 1 && indexed != parent.id
    ensures Reconnecting(before, headers, top, chain + [parent], Rewound(rows, parent))
  {
    GatheredMore(headers, top, chain, parent);
    HashesMore(chain, parent);
    RewoundCanonical(rows, headers, parent);
    AsBeforeBelow(before, headers, top, chain, rows, indexed);
    DisplacesToo(before, chain, indexed, parent);
    assert Lowest(top, chain + [parent]) == parent;
    LowestIs(headers, top, chain, 0);
    forall id
      ensures Canonical(Rewound(rows, parent), id) <==>
        (id in Hashes(chain) || id == parent.id ||
          (Canonical(before, id) && !(parent.height <= before[id].height < top.height)))
    {
      if id in Hashes(chain) {
        var i := OnChain(headers, top, chain, id);
      }
      RewoundAt(before, headers, rows, Hashes(chain), Lowest(top, chain).height, top.height, parent, id);
    }
  }

  lemma DisplacesToo(before: Rows, chain: seq<Block>, indexed: Hash, parent: Block)
    requires AllDisplace(before, chain)
    requires Canonical(before, indexed) && before[indexed].height == parent.height && indexed != parent.id
    ensures AllDisplace(before, chain + [parent])
  {
    forall block | block in chain + [parent] ensures Displaces(before, block) {
      assert block in chain || block == parent;
    }
  }

  lemma RewoundAt(
    before: Rows, headers: Headers, rows: Rows, hashes: set<Hash>, low: int, high: int, parent: Block, id: Hash)
    requires Faithful(before, headers) && Faithful(rows, headers) && HasHeader(headers, parent)
    requires before.Keys <= rows.Keys && parent.height + 1 == low <= high
    requires id in hashes ==> id in rows && low <= rows[id].height
    requires Canonical(rows, id) <==>
      (id in hashes || (Canonical(before, id) && !(low <= before[id].height < high)))
    ensures Canonical(Rewound(rows, parent), id) <==>
      (id in hashes || id == parent.id || (Canonical(before, id) && !(parent.height <= before[id].height < high)))
  {
    RewoundCanonical(rows, headers, parent);
    assert Canonical(Rewound(rows, parent), id) <==>
      id == parent.id || (Canonical(rows, id) && rows[id].height != parent.height);
    if id in before {
      assert headers[id] == Header(rows[id].height, rows[id].previousblockhash);
      assert headers[id] == Header(before[id].height, before[id].previousblockhash);
    }
  }

  /** The same can be said of the table before the walk. */
  lemma MetBefore(before: Rows, headers: Headers, top: Block, chain: seq<Block>, rows: Rows)
    requires Stacked(headers) && Reconnecting(before, headers, top, chain, rows)
    ensures Met(rows, Lowest(top, chain)) <==> Met(before, Lowest(top, chain))
  {
    var tail := Lowest(top, chain);
    assert HasHeader(headers, ([top] + chain)[|chain|]);
    forall id ensures Canonical(rows, id) && rows[id].height == tail.height - 1 <==>
      Canonical(before, id) && before[id].height == tail.height - 1
    {
      AsBeforeBelow(before, headers, top, chain, rows, id);
    }
    AsBeforeBelow(before, headers, top, chain, rows, tail.previousblockhash);
  }

  // ----------------------------------------------------------- with the tip on top

  /** The table once the new chain and its tip are canonical. What else was canonical at the
      height of the tip stays so unless the tip was known. */
  ghost predicate Connected(before: Rows, headers: Headers, top: Block, chain: seq<Block>, rows: Rows) {
    && Faithful(before, headers) && Faithful(rows, headers) && Gathered(headers, top, chain)
    && AllDisplace(before, chain) && Met(before, Lowest(top, chain))
    && rows.Keys == before.Keys + Hashes(chain) + {top.id}
    && forall id {:trigger Canonical(rows, id)} {:trigger Canonical(before, id)} ::
         Canonical(rows, id) <==>
           id == top.id || id in Hashes(chain) ||
           (Canonical(before, id) && !(Lowest(top, chain).height <= before[id].height < top.height) &&
            !(top.id in before && before[id].height == top.height))
  }

  lemma SaveOnTop(before: Rows, headers: Headers, top: Block, chain: seq<Block>, rows: Rows)
    requires Reconnecting(before, headers, top, chain, rows) && Met(before, Lowest(top, chain)) && !top.stale
    ensures Connected(before, headers, top, chain, Saved(rows, top))
  {
    assert HasHeader(headers, ([top] + chain)[0]);
    if top.id in Hashes(chain) {
      var i := OnChain(headers, top, chain, top.id);
    }
    var saved := Saved(rows, top);
    forall id
      ensures Canonical(saved, id) <==>
        id == top.id || (Canonical(rows, id) && !(top.id in before && rows[id].height == top.height))
    {
    }
    forall id | id in Hashes(chain) ensures rows[id].height < top.height {
      var i := OnChain(headers, top, chain, id);
    }
  }

  /** Some block is canonical at each of these heights. */
  ghost predicate Filled(rows: Rows, low: int, high: int) {
    forall h {:trigger FilledAt(rows, h)} :: low <= h < high ==> FilledAt(rows, h)
  }

  ghost predicate FilledAt(rows: Rows, h: int) {
    exists id {:trigger Canonical(rows, id)} :: Canonical(rows, id) && rows[id].height == h
  }

  /** Where the indexed chain had no gap, there is none up to the tip. */
  lemma TipIsReached(
    before: Rows, headers: Headers, top: Block, chain: seq<Block>, rows: Rows, low: int)
    requires Connected(before, headers, top, chain, rows) && Filled(before, low, Lowest(top, chain).height)
    ensures Filled(rows, low, top.height + 1)
  {
    assert HasHeader(headers, ([top] + chain)[0]);
    forall h | low <= h < top.height + 1 ensures FilledAt(rows, h) {
      if h == top.height {
        assert Canonical(rows, top.id);
      } else if h >= Lowest(top, chain).height {
        ChainHeights(headers, top, chain, |chain| - 1);
        var i := top.height - 1 - h;
        ChainHeights(headers, top, chain, i);
        assert HasHeader(headers, ([top] + chain)[i+1]) && chain[i] in chain;
        assert chain[i].id in Hashes(chain) && Canonical(rows, chain[i].id);
      } else {
        assert FilledAt(before, h);
        var id :| Canonical(before, id) && before[id].height == h;
        assert Canonical(rows, id);
      }
    }
  }

  /** The new block is higher than whatever was canonical. */
  ghost predicate Overtakes(before: Rows, top: Block) {
    forall id {:trigger Canonical(before, id)} :: Canonical(before, id) ==> before[id].height < top.height
  }

  /** Either the tip was known, or nothing was canonical at its height. */
  ghost predicate HasRoom(before: Rows, top: Block) {
    top.id in before ||
    forall id {:trigger Canonical(before, id)} :: Canonical(before, id) ==> before[id].height != top.height
  }

  /** A canonical block at a height of the new chain is the one of that chain. */
  lemma ChainOrBefore(
    before: Rows, headers: Headers, top: Block, chain: seq<Block>, rows: Rows, id: Hash) returns (i: nat)
    requires Connected(before, headers, top, chain, rows) && Canonical(rows, id)
    requires Lowest(top, chain).height <= rows[id].height < top.height || id == top.id
    ensures i <= |chain| && ([top] + chain)[i].id == id && rows[id].height == top.height - i
    ensures HasHeader(headers, ([top] + chain)[i])
  {
    if id == top.id {
      assert HasHeader(headers, ([top] + chain)[0]);
      i := 0;
    } else {
      i := OnChain(headers, top, chain, id);
      i := i + 1;
    }
  }

  /** There is still at most one canonical block at each height exactly if there is room for
      the tip. */
  lemma OneIsKeptExactly(before: Rows, headers: Headers, top: Block, chain: seq<Block>, rows: Rows)
    requires Connected(before, headers, top, chain, rows) && OnePerHeight(before)
    ensures OnePerHeight(rows) <==> HasRoom(before, top)
  {
    assert HasHeader(headers, ([top] + chain)[0]);
    if HasRoom(before, top) {
      forall a, b | Canonical(rows, a) && Canonical(rows, b) && rows[a].height == rows[b].height ensures a == b {
        OneAt(before, headers, top, chain, rows, a, b);
      }
    } else {
      var id :| Canonical(before, id) && before[id].height == top.height;
      assert Canonical(rows, id) && Canonical(rows, top.id) && rows[id].height == rows[top.id].height;
    }
  }

  lemma OneAt(
    before: Rows, headers: Headers, top: Block, chain: seq<Block>, rows: Rows, a: Hash, b: Hash)
    requires Connected(before, headers, top, chain, rows) && OnePerHeight(before) && HasRoom(before, top)
    requires Canonical(rows, a) && Canonical(rows, b) && rows[a].height == rows[b].height
    ensures a == b
  {
    assert HasHeader(headers, ([top] + chain)[0]);
    var h := rows[a].height;
    if Lowest(top, chain).height <= h < top.height {
      var i := ChainOrBefore(before, headers, top, chain, rows, a);
      var j := ChainOrBefore(before, headers, top, chain, rows, b);
    } else {
      if a in Hashes(chain) {
        var i := OnChain(headers, top, chain, a);
      }
      if b in Hashes(chain) {
        var j := OnChain(headers, top, chain, b);
      }
    }
  }

  /** It is not if the new tip replaces a block of the same parent that is still canonical, as
      after a restart: the walk has nothing to do, and the save adds a second block. */
  lemma ReplacedTipStays(before: Rows, headers: Headers, top: Block, replaced: Hash)
    requires Faithful(before, headers) && HasHeader(headers, top) && !top.stale && top.id !in before
    requires Canonical(before, top.previousblockhash)
    requires Canonical(before, replaced) && before[replaced].height == top.height
    ensures Reconnecting(before, headers, top, [], before) && Met(before, Lowest(top, []))
    ensures Connected(before, headers, top, [], Saved(before, top)) && !OnePerHeight(Saved(before, top))
  {
    assert [top] + [] == [top] && Hashes([]) == {};
    SaveOnTop(before, headers, top, [], before);
    assert Canonical(Saved(before, top), replaced) && Canonical(Saved(before, top), top.id);
  }

  /** A tip one above the indexed chain joins it: what is canonical is one chain still. */
  lemma ChainIsKept(before: Rows, headers: Headers, top: Block, chain: seq<Block>, rows: Rows)
    requires Stacked(headers) && Connected(before, headers, top, chain, rows)
    requires OnePerHeight(before) && Linked(before) && Overtakes(before, top)
    ensures OnePerHeight(rows) && Linked(rows)
    ensures forall id {:trigger Canonical(rows, id)} :: Canonical(rows, id) ==>
      id == top.id || rows[id].height < top.height
  {
    OneIsKeptExactly(before, headers, top, chain, rows);
    forall a, b | Canonical(rows, a) && Canonical(rows, b) && rows[a].height == rows[b].height + 1
      ensures rows[a].previousblockhash == b
    {
      LinkIsKept(before, headers, top, chain, rows, a, b);
    }
    forall id | Canonical(rows, id) ensures id == top.id || rows[id].height < top.height {
      if id in Hashes(chain) {
        var i := OnChain(headers, top, chain, id);
      }
    }
  }

  lemma LinkIsKept(
    before: Rows, headers: Headers, top: Block, chain: seq<Block>, rows: Rows, a: Hash, b: Hash)
    requires Stacked(headers) && Connected(before, headers, top, chain, rows)
    requires OnePerHeight(before) && Linked(before) && Overtakes(before, top)
    requires Canonical(rows, a) && Canonical(rows, b) && rows[a].height == rows[b].height + 1
    ensures rows[a].previousblockhash == b
  {
    var low, all := Lowest(top, chain).height, [top] + chain;
    assert HasHeader(headers, all[0]);
    if rows[a].height < low {
      BelowIsBefore(before, headers, top, chain, rows, a);
      BelowIsBefore(before, headers, top, chain, rows, b);
    } else {
      if a != top.id && a in Hashes(chain) {
        var k := OnChain(headers, top, chain, a);
      }
      var i := ChainOrBefore(before, headers, top, chain, rows, a);
      if rows[b].height >= low {
        var j := ChainOrBefore(before, headers, top, chain, rows, b);
        assert all[i].previousblockhash == all[i+1].id;
      } else {
        BelowIsBefore(before, headers, top, chain, rows, b);
        LowestIs(headers, top, chain, i);
        assert Canonical(before, all[i].previousblockhash);
      }
    }
  }

  lemma BelowIsBefore(before: Rows, headers: Headers, top: Block, chain: seq<Block>, rows: Rows, id: Hash)
    requires Connected(before, headers, top, chain, rows) && Canonical(rows, id)
    requires rows[id].height < Lowest(top, chain).height
    ensures Canonical(before, id)
  {
    assert HasHeader(headers, ([top] + chain)[0]);
    LowestIs(headers, top, chain, 0);
    if id in Hashes(chain) {
      var i := OnChain(headers, top, chain, id);
    }
  }

  lemma LowestIs(headers: Headers, top: Block, chain: seq<Block>, i: nat)
    requires Gathered(headers, top, chain) && i <= |chain|
    ensures Lowest(top, chain).height <= top.height
    ensures top.height - i == Lowest(top, chain).height ==> ([top] + chain)[i] == Lowest(top, chain)
  {
    if chain != [] {
      ChainHeights(headers, top, chain, |chain| - 1);
    }
  }

  // --------------------------------------------------------------- the block cache

  /** Each block of the list is pointed to by the one after it. */
  ghost predicate Ascending(blocks: seq<Block>) {
    forall i {:trigger blocks[i]} :: 0 <= i < |blocks| - 1 ==>
      blocks[i+1].previousblockhash == blocks[i].id && blocks[i+1].height == blocks[i].height + 1
  }

  function ReversedBlocks(blocks: seq<Block>): (r: seq<Block>)
    ensures |r| == |blocks| && forall i :: 0 <= i < |r| ==> r[i] == blocks[|blocks| - 1 - i]
  {
    seq(|blocks|, i requires 0 <= i < |blocks| => blocks[|blocks| - 1 - i])
  }

  function Latest(blocks: seq<Block>, n: nat): seq<Block> {
    if |blocks| > n then blocks[|blocks| - n..] else blocks
  }

  lemma TurnedAround(blocks: seq<Block>, n: nat)
    requires Descending(blocks)
    ensures Ascending(Latest(ReversedBlocks(blocks), n)) && |Latest(ReversedBlocks(blocks), n)| <= n
    ensures n > 0 && blocks != [] ==>
      Latest(ReversedBlocks(blocks), n) != [] &&
          Latest(ReversedBlocks(blocks), n)[|Latest(ReversedBlocks(blocks), n)|-1] == blocks[0]
  {
    var turned := ReversedBlocks(blocks);
    forall i | 0 <= i < |turned| - 1
      ensures turned[i+1].previousblockhash == turned[i].id && turned[i+1].height == turned[i].height + 1
    {
      var k := |blocks| - 2 - i;
      assert blocks[k].previousblockhash == blocks[k+1].id;
    }
  }

  class Blocks {
    const repository: BlocksRepository
    /** The most recent blocks. */
    var blocks: seq<Block>
    const initialBlocksAmount: nat

    constructor (repository: BlocksRepository, initialBlocksAmount: nat)
      ensures this.repository == repository && this.initialBlocksAmount == initialBlocksAmount && blocks == []
    {
      this.repository, this.initialBlocksAmount, blocks := repository, initialBlocksAmount, [];
    }

    /** The block with this hash, from the table or else from the node, and then saved. */
    method IndexBlock(hash: Hash, node: map<Hash, Block>, ghost headers: Headers) returns (block: Option<Block>)
      requires Faithful(repository.rows, headers)
      requires forall id {:trigger node[id]} :: id in node ==> node[id].id == id && HasHeader(headers, node[id])
      modifies repository
      ensures block.None? ==> repository.rows == old(repository.rows)
      ensures block.Some? ==> block.value.id == hash && HasHeader(headers, block.value)
      ensures block.Some? ==>
        repository.rows ==
          if hash in old(repository.rows) then old(repository.rows) else WithBlock(old(repository.rows), block.value)
      ensures block.None? <==> hash !in old(repository.rows) && hash !in node
    {
      block := repository.GetBlockByHash(hash);
      if block.None? {
        if hash !in node {
          return;
        }
        block := Some(node[hash]);
        repository.SaveBlockInDatabase(node[hash]);
      }
    }

    /** Makes the chain below `blockExtended` canonical down to where it meets the indexed
        one, and tells that chain. `ok` tells whether every block on the way could be had. */
    method HandleReorgs(
      blockExtended: Block, node: map<Hash, Block>, ghost headers: Headers)
      returns (ok: bool, ghost chain: seq<Block>)
      requires Stacked(headers) && Faithful(repository.rows, headers) && HasHeader(headers, blockExtended)
      requires forall id {:trigger node[id]} :: id in node ==> node[id].id == id && HasHeader(headers, node[id])
      requires AllHaveHeaders(headers, blocks)
      modifies this, repository
      ensures Reconnecting(old(repository.rows), headers, blockExtended, chain, repository.rows)
      ensures ok <==> Met(old(repository.rows), Lowest(blockExtended, chain))
      ensures !ok ==>
        var missing := Lowest(blockExtended, chain).previousblockhash;
        missing !in repository.rows && missing !in node
      ensures AllHaveHeaders(headers, blocks)
      ensures ok && chain != [] ==>
        Rebuilt(headers, old(blocks), repository.rows, blockExtended, 4 * initialBlocksAmount, blocks)
      ensures ok && chain != [] ==> AllKept(chain, old(blocks), repository.rows, blocks)
      ensures chain == [] || !ok ==> blocks == old(blocks)
    {
      var forkTail := blockExtended;
      chain := [];
      var currentlyIndexed := repository.GetBlockByHeight(forkTail.height - 1);
      ok := true;
      if currentlyIndexed.None? || forkTail.previousblockhash == currentlyIndexed.value.id {
        return;
      }
      var newBlocks;
      ok, newBlocks := WalkBack(blockExtended, currentlyIndexed, node, headers);
      chain := newBlocks;
      MetBefore(old(repository.rows), headers, blockExtended, chain, repository.rows);
      if ok {
        RebuildCache(blockExtended, Lowest(blockExtended, newBlocks), newBlocks, headers);
      }
    }

    /** Walks back along the new chain until it reaches the fork point. */
    method WalkBack(
      blockExtended: Block, indexed: Option<Block>, node: map<Hash, Block>, ghost headers: Headers)
      returns (ok: bool, newBlocks: seq<Block>)
      requires Stacked(headers) && Faithful(repository.rows, headers) && HasHeader(headers, blockExtended)
      requires forall id {:trigger node[id]} :: id in node ==> node[id].id == id && HasHeader(headers, node[id])
      requires indexed.Some? && blockExtended.previousblockhash != indexed.value.id
      requires IsIndexed(repository.rows, blockExtended.height - 1, indexed)
      modifies repository
      ensures Reconnecting(old(repository.rows), headers, blockExtended, newBlocks, repository.rows)
      ensures ok <==> Met(repository.rows, Lowest(blockExtended, newBlocks))
      ensures ok ==> newBlocks != []
      ensures !ok ==>
        var missing := Lowest(blockExtended, newBlocks).previousblockhash;
        missing !in repository.rows && missing !in node
    {
      var forkTail, currentlyIndexed := blockExtended, indexed;
      newBlocks := [];
      while currentlyIndexed.Some? && forkTail.previousblockhash != currentlyIndexed.value.id
        invariant Reconnecting(old(repository.rows), headers, blockExtended, newBlocks, repository.rows)
        invariant forkTail == Lowest(blockExtended, newBlocks)
        invariant IsIndexed(repository.rows, forkTail.height - 1, currentlyIndexed)
        invariant newBlocks == [] ==> currentlyIndexed.Some? && forkTail.previousblockhash != currentlyIndexed.value.id
        decreases forkTail.height
      {
        var newBlock :=
          RewindOne(forkTail, currentlyIndexed.value.id, node, headers, old(repository.rows), blockExtended, newBlocks);
        if newBlock.None? {
          return false, newBlocks;
        }
        newBlocks := newBlocks + [newBlock.value];
        forkTail := newBlock.value;
        currentlyIndexed := repository.GetBlockByHeight(forkTail.height - 1);
      }
      ok := true;
    }

    /** One round of the walk: the parent is indexed and made canonical. */
    method RewindOne(
      forkTail: Block, ghost indexed: Hash, node: map<Hash, Block>, ghost headers: Headers, ghost before: Rows,
      ghost top: Block, ghost chain: seq<Block>)
      returns (newBlock: Option<Block>)
      requires Stacked(headers) && Reconnecting(before, headers, top, chain, repository.rows)
      requires forkTail == Lowest(top, chain) && indexed != forkTail.previousblockhash
      requires Canonical(repository.rows, indexed) && repository.rows[indexed].height == forkTail.height - 1
      requires forall id {:trigger node[id]} :: id in node ==> node[id].id == id && HasHeader(headers, node[id])
      modifies repository
      ensures newBlock.None? ==> repository.rows == old(repository.rows)
      ensures newBlock.None? <==>
        forkTail.previousblockhash !in old(repository.rows) && forkTail.previousblockhash !in node
      ensures newBlock.Some? ==>
        && newBlock.value.id == forkTail.previousblockhash && newBlock.value.height + 1 == forkTail.height
        && Reconnecting(before, headers, top, chain + [newBlock.value], repository.rows)
    {
      newBlock := IndexBlock(forkTail.previousblockhash, node, headers);
      if newBlock.Some? {
        GatheredMore(headers, top, chain, newBlock.value);
        RewindStep(before, headers, top, chain, old(repository.rows), indexed, newBlock.value);
        repository.SetCanonicalBlockAtHeight(newBlock.value.id, newBlock.value.height);
      }
    }

    /** The last of the cached blocks with this hash. */
    method FindCached(id: Hash) returns (found: Option<Block>)
      ensures found.Some? ==>
        found.value.id == id && exists i {:trigger blocks[i]} :: 0 <= i < |blocks| && blocks[i] == found.value
      ensures found.None? ==> !IsCached(blocks, id)
    {
      found := None;
      for i := 0 to |blocks|
        invariant found.Some? ==>
          found.value.id == id && exists k {:trigger blocks[k]} :: 0 <= k < |blocks| && blocks[k] == found.value
        invariant found.None? ==> !IsCached(blocks[..i], id)
      {
        PrefixStep(blocks, i);
        if blocks[i].id == id {
          found := Some(blocks[i]);
        }
      }
      PrefixWhole(blocks);
    }

    /** The block with this hash from the cache, or else from the table. */
    method FindKnown(id: Hash, ghost headers: Headers) returns (found: Option<Block>)
      requires Faithful(repository.rows, headers) && AllHaveHeaders(headers, blocks)
      ensures found.Some? ==> found.value.id == id && HasHeader(headers, found.value)
      ensures found.Some? ==>
        if IsCached(blocks, id) then found.value in blocks else Stored(repository.rows, found.value)
      ensures found.None? ==> !IsCached(blocks, id) && id !in repository.rows
    {
      found := FindCached(id);
      if found.None? {
        found := repository.GetBlockByHash(id);
      }
    }

    /** The block cache from the new chain on, down to what is known. */
    method RebuildCache(blockExtended: Block, forkTail: Block, connected: seq<Block>, ghost headers: Headers)
      requires Stacked(headers) && Faithful(repository.rows, headers) && AllHaveHeaders(headers, blocks)
      requires Gathered(headers, blockExtended, connected) && connected != []
      requires forkTail == Lowest(blockExtended, connected)
      modifies `blocks
      ensures Rebuilt(headers, old(blocks), repository.rows, blockExtended, 4 * initialBlocksAmount, blocks)
      ensures AllKept(connected, old(blocks), repository.rows, blocks)
    {
      var newBlocks, currentBlock := connected, forkTail;
      while currentBlock.height > 0 && |newBlocks| < CacheSize(initialBlocksAmount)
        invariant Gathered(headers, blockExtended, newBlocks) && newBlocks != []
        invariant currentBlock == Lowest(blockExtended, newBlocks) && blocks == old(blocks)
        invariant AllKept(connected, blocks, repository.rows, newBlocks)
        decreases currentBlock.height
      {
        var newBlock := FindKnown(currentBlock.previousblockhash, headers);
        if newBlock.None? {
          break;
        }
        assert KeptFrom(connected, blocks, repository.rows, newBlock.value);
        GatheredMore(headers, blockExtended, newBlocks, newBlock.value);
        OneMoreKept(connected, blocks, repository.rows, newBlocks, newBlock.value);
        newBlocks := newBlocks + [newBlock.value];
        currentBlock := newBlock.value;
      }
      LatestKept(connected, blocks, repository.rows, newBlocks, CacheSize(initialBlocksAmount));
      RebuiltIs(headers, blocks, repository.rows, blockExtended, CacheSize(initialBlocksAmount), newBlocks);
      blocks := Latest(ReversedBlocks(newBlocks), CacheSize(initialBlocksAmount));
    }

    /** A new tip: the reorganisation it brings, and then the tip itself. */
    method ConnectBlock(
      blockExtended: Block, node: map<Hash, Block>, ghost headers: Headers)
      returns (ok: bool, ghost chain: seq<Block>)
      requires Stacked(headers) && Faithful(repository.rows, headers) && HasHeader(headers, blockExtended) &&
        !blockExtended.stale
      requires AllHaveHeaders(headers, blocks)
      requires forall id {:trigger node[id]} :: id in node ==> node[id].id == id && HasHeader(headers, node[id])
      modifies this, repository
      ensures ok <==> Met(old(repository.rows), Lowest(blockExtended, chain))
      ensures !ok ==>
        var missing := Lowest(blockExtended, chain).previousblockhash;
        && missing !in repository.rows && missing !in node
        && Reconnecting(old(repository.rows), headers, blockExtended, chain, repository.rows)
      ensures ok ==>
        && Connected(old(repository.rows), headers, blockExtended, chain, repository.rows)
        && Filled(repository.rows, Lowest(blockExtended, chain).height, blockExtended.height + 1)
      ensures ok && OnePerHeight(old(repository.rows)) ==>
        (OnePerHeight(repository.rows) <==> HasRoom(old(repository.rows), blockExtended))
      ensures
        (ok && OnePerHeight(old(repository.rows)) && Linked(old(repository.rows)) &&
          Overtakes(old(repository.rows), blockExtended)) ==>
          && OnePerHeight(repository.rows) && Linked(repository.rows)
          && forall id {:trigger Canonical(repository.rows, id)} :: Canonical(repository.rows, id) ==>
               id == blockExtended.id || repository.rows[id].height < blockExtended.height
      ensures AllHaveHeaders(headers, blocks)
      ensures ok && chain != [] ==>
        Rebuilt(headers, old(blocks), repository.rows, blockExtended, 4 * initialBlocksAmount, blocks)
      ensures chain == [] || !ok ==> blocks == old(blocks)
    {
      ok, chain := HandleReorgs(blockExtended, node, headers);
      if ok {
        SaveOnTop(old(repository.rows), headers, blockExtended, chain, repository.rows);
        if chain != [] {
          RebuiltWithTop(headers, old(blocks), repository.rows, blockExtended, 4 * initialBlocksAmount, blocks);
        }
        repository.SaveBlockInDatabase(blockExtended);
        TipIsReached(old(repository.rows), headers, blockExtended, chain, repository.rows,
          Lowest(blockExtended, chain).height);
        if OnePerHeight(old(repository.rows)) {
          Joins(old(repository.rows), headers, blockExtended, chain, repository.rows);
        }
      }
    }
  }

  /** What a tip saved on top means for the chain. */
  lemma Joins(before: Rows, headers: Headers, top: Block, chain: seq<Block>, rows: Rows)
    requires Stacked(headers) && Connected(before, headers, top, chain, rows) && OnePerHeight(before)
    ensures OnePerHeight(rows) <==> HasRoom(before, top)
    ensures Linked(before) && Overtakes(before, top) ==>
      && OnePerHeight(rows) && Linked(rows)
      && forall id {:trigger Canonical(rows, id)} :: Canonical(rows, id) ==>
           id == top.id || rows[id].height < top.height
  {
    OneIsKeptExactly(before, headers, top, chain, rows);
    if Linked(before) && Overtakes(before, top) {
      ChainIsKept(before, headers, top, chain, rows);
    }
  }

  ghost predicate IsCached(cached: seq<Block>, id: Hash) {
    exists i {:trigger cached[i]} :: 0 <= i < |cached| && cached[i].id == id
  }

  /** The cache after a reorganisation: hash-linked up to the parent of the new tip, and
      either full or reaching down to the first block or to one whose parent is neither
      indexed nor was cached. */
  ghost predicate Rebuilt(
    headers: Headers, cached: seq<Block>, rows: Rows, top: Block, n: nat, blocks: seq<Block>)
  {
    && Ascending(blocks) && |blocks| <= n && AllHaveHeaders(headers, blocks)
    && (n > 0 ==>
          && blocks != [] && blocks[|blocks|-1].id == top.previousblockhash
          && blocks[|blocks|-1].height + 1 == top.height)
    && (|blocks| < n ==>
          blocks[0].height == 0 ||
          (blocks[0].previousblockhash !in rows && !IsCached(cached, blocks[0].previousblockhash)))
  }

  /** Each cached block is of the new chain, or had been cached, or else is what the table has. */
  ghost predicate AllKept(chain: seq<Block>, cached: seq<Block>, rows: Rows, blocks: seq<Block>) {
    forall b {:trigger KeptFrom(chain, cached, rows, b)} :: b in blocks ==> KeptFrom(chain, cached, rows, b)
  }

  ghost predicate KeptFrom(chain: seq<Block>, cached: seq<Block>, rows: Rows, b: Block) {
    b in chain || (if IsCached(cached, b.id) then b in cached else Stored(rows, b))
  }

  lemma LatestKept(chain: seq<Block>, cached: seq<Block>, rows: Rows, newBlocks: seq<Block>, n: nat)
    requires AllKept(chain, cached, rows, newBlocks)
    ensures AllKept(chain, cached, rows, Latest(ReversedBlocks(newBlocks), n))
  {
    var blocks := Latest(ReversedBlocks(newBlocks), n);
    forall b | b in blocks ensures KeptFrom(chain, cached, rows, b) {
      var i :| 0 <= i < |blocks| && blocks[i] == b;
      assert blocks[i] in newBlocks;
    }
  }

  lemma OneMoreKept(chain: seq<Block>, cached: seq<Block>, rows: Rows, blocks: seq<Block>, b: Block)
    requires AllKept(chain, cached, rows, blocks) && KeptFrom(chain, cached, rows, b)
    ensures AllKept(chain, cached, rows, blocks + [b])
  {
  }

  lemma RebuiltIs(headers: Headers, cached: seq<Block>, rows: Rows, top: Block, n: nat, newBlocks: seq<Block>)
    requires Gathered(headers, top, newBlocks) && newBlocks != []
    requires var last := newBlocks[|newBlocks|-1];
      |newBlocks| >= n || last.height == 0 ||
      (last.previousblockhash !in rows && !IsCached(cached, last.previousblockhash))
    ensures Rebuilt(headers, cached, rows, top, n, Latest(ReversedBlocks(newBlocks), n))
  {
    ChainItself(headers, top, newBlocks);
    TurnedAround(newBlocks, n);
    assert AllHaveHeaders(headers, ReversedBlocks(newBlocks));
  }

  lemma ChainItself(headers: Headers, top: Block, chain: seq<Block>)
    requires Gathered(headers, top, chain) && chain != []
    ensures Descending(chain) && AllHaveHeaders(headers, chain)
    ensures chain[0].id == top.previousblockhash && chain[0].height + 1 == top.height
  {
    var all := [top] + chain;
    assert all[0].previousblockhash == all[1].id;
    forall i | 0 <= i < |chain| ensures HasHeader(headers, chain[i]) {
      assert HasHeader(headers, all[i+1]);
    }
    forall i | 0 <= i < |chain| - 1
      ensures chain[i].previousblockhash == chain[i+1].id && chain[i].height == chain[i+1].height + 1
    {
      assert all[i+1].previousblockhash == all[i+2].id;
    }
  }

  lemma {:induction false} HeightsAscend(blocks: seq<Block>)
    requires Ascending(blocks) && blocks != []
    ensures blocks[0].height + |blocks| - 1 == blocks[|blocks|-1].height
  {
    if |blocks| > 1 {
      HeightsAscend(blocks[..|blocks|-1]);
      assert blocks[|blocks|-2].height + 1 == blocks[|blocks|-1].height by {
        var i := |blocks| - 2;
        assert blocks[i+1].height == blocks[i].height + 1;
      }
    }
  }

  /** The new tip is not the parent that was not known. */
  lemma RebuiltWithTop(headers: Headers, cached: seq<Block>, rows: Rows, top: Block, n: nat, blocks: seq<Block>)
    requires Stacked(headers) && HasHeader(headers, top) && Rebuilt(headers, cached, rows, top, n, blocks)
    ensures Rebuilt(headers, cached, Saved(rows, top), top, n, blocks)
  {
    if 0 < |blocks| < n {
      HeightsAscend(blocks);
      var first := blocks[0];
      assert headers[first.id] == Header(first.height, first.previousblockhash);
      assert first.previousblockhash != top.id;
    }
  }
}
