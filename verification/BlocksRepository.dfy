/** The table of indexed blocks, of which the canonical ones form a chain. */
module BlocksRepositories {
  import opened Basics

  /** Block hashes are only compared. */
  type Hash = nat

  datatype Block = Block(id: Hash, height: nat, previousblockhash: Hash, stale: bool)

  datatype Row = Row(height: nat, previousblockhash: Hash, stale: bool)

  type Rows = map<Hash, Row>

  ghost predicate Canonical(rows: Rows, id: Hash) {
    id in rows && !rows[id].stale
  }

  ghost predicate OnePerHeight(rows: Rows) {
    forall a, b {:trigger Canonical(rows, a), Canonical(rows, b)} ::
      Canonical(rows, a) && Canonical(rows, b) && rows[a].height == rows[b].height ==> a == b
  }

  /** Canonical blocks at adjacent heights are linked by hash, save perhaps from height
      `gap` to the one below. */
  ghost predicate LinkedBut(rows: Rows, gap: int) {
    forall a, b {:trigger Canonical(rows, a), Canonical(rows, b)} ::
      Canonical(rows, a) && Canonical(rows, b) && rows[a].height == rows[b].height + 1 && rows[a].height != gap ==>
        rows[a].previousblockhash == b
  }

  ghost predicate Linked(rows: Rows) {
    LinkedBut(rows, -1)
  }

  /** What the blocks themselves say, whatever the flags. */
  datatype Header = Header(height: nat, previousblockhash: Hash)

  type Headers = map<Hash, Header>

  /** A block is one above the block it points to. */
  ghost predicate Stacked(headers: Headers) {
    forall id {:trigger headers[id]} :: id in headers && headers[id].previousblockhash in headers ==>
      headers[headers[id].previousblockhash].height + 1 == headers[id].height
  }

  ghost predicate Faithful(rows: Rows, headers: Headers) {
    forall id {:trigger rows[id]} :: id in rows ==>
        id in headers && headers[id] == Header(rows[id].height, rows[id].previousblockhash)
  }

  function FromRow(id: Hash, row: Row): Block {
    Block(id, row.height, row.previousblockhash, row.stale)
  }

  /** What a lookup finds is what is stored, flag included. */
  ghost predicate Stored(rows: Rows, block: Block) {
    && block.id in rows && block.height == rows[block.id].height
    && block.previousblockhash == rows[block.id].previousblockhash && block.stale == rows[block.id].stale
  }

  /** The named block becomes canonical and all others at the height stale. */
  function WithCanonical(rows: Rows, id: Hash, height: nat): Rows {
    map x | x in rows ::
      if x == id then rows[x].(stale := false)
      else if rows[x].height == height then rows[x].(stale := true)
      else rows[x]
  }

  function WithBlock(rows: Rows, block: Block): Rows {
    rows[block.id := Row(block.height, block.previousblockhash, block.stale)]
  }

  /** Inserting a known block makes it canonical, unless it is stale. */
  function Saved(rows: Rows, block: Block): Rows {
    if block.id !in rows then WithBlock(rows, block)
    else if !block.stale then WithCanonical(rows, block.id, block.height)
    else rows
  }

  class BlocksRepository {
    var rows: Rows

    constructor ()
      ensures rows == map[]
    {
      rows := map[];
    }

    method SaveBlockInDatabase(block: Block)
      modifies this
      ensures rows == Saved(old(rows), block)
    {
      if block.id !in rows {
        rows := rows[block.id := Row(block.height, block.previousblockhash, block.stale)];
      } else if !block.stale {
        SetCanonicalBlockAtHeight(block.id, block.height);
      }
    }

    /** The canonical block at a height, if there is one. */
    method GetBlockByHeight(height: int) returns (found: Option<Block>)
      ensures found.Some? ==> Canonical(rows, found.value.id) && rows[found.value.id].height == height
      ensures found.Some? ==> Stored(rows, found.value)
      ensures found.Some? ==> found.value == FromRow(found.value.id, rows[found.value.id])
      ensures found.None? ==> forall id {:trigger Canonical(rows, id)} :: Canonical(rows, id) ==>
        rows[id].height != height
    {
      if id :| id in rows && rows[id].height == height && !rows[id].stale {
        found := Some(FromRow(id, rows[id]));
      } else {
        found := None;
      }
    }

    method GetBlockByHash(id: Hash) returns (found: Option<Block>)
      ensures if id in rows then found.Some? && found.value.id == id && Stored(rows, found.value) else found.None?
      ensures found == if id in rows then Some(FromRow(id, rows[id])) else None
    {
      found := if id in rows then Some(FromRow(id, rows[id])) else None;
    }

    method SetCanonicalBlockAtHeight(id: Hash, height: nat)
      modifies this
      ensures rows == WithCanonical(old(rows), id, height)
    {
      if id in rows {
        rows := rows[id := rows[id].(stale := false)];
      }
      rows := map x | x in rows :: if rows[x].height == height && x != id then rows[x].(stale := true) else rows[x];
    }
  }
}
