/** The dependency graph of a transaction pool: which pool transactions each one
    spends from, its transitive ancestors, and the totals of a set of transactions.
    Nothing here mentions how the block builders compute these things. */
module Ancestry {
  import opened Basics

  /** What a package is measured by. `size` is virtual bytes for the template
      builder and weight units for the projected-blocks worker. */
  datatype Totals = Totals(fee: int, size: int, sigops: int) {
    function Plus(other: Totals): Totals {
      Totals(fee + other.fee, size + other.size, sigops + other.sigops)
    }
    function Minus(other: Totals): Totals {
      Totals(fee - other.fee, size - other.size, sigops - other.sigops)
    }
  }

  const NOTHING := Totals(0, 0, 0)

  datatype Tx = Tx(own: Totals, weight: nat, order: nat, inputs: seq<TxId>)

  type Pool = map<TxId, Tx>

  /** Every transaction takes up room, and its weight is covered by its size
      whichever of the two units the size is in. */
  ghost predicate Sized(pool: Pool) {
    forall t :: t in pool ==>
      pool[t].own.size > 0 && pool[t].own.sigops >= 0 && pool[t].weight <= 4 * pool[t].own.size
  }

  /** The in-pool transactions that `t` spends from. */
  function Parents(pool: Pool, t: TxId): set<TxId>
    requires t in pool
  {
    set p | p in pool[t].inputs && p in pool
  }

  /** `rank` grows along every spend; such a rank exists just when no transaction
      spends, directly or not, from itself. */
  ghost predicate Ranks(pool: Pool, rank: map<TxId, nat>) {
    && rank.Keys == pool.Keys
    && forall t, p {:trigger p in Parents(pool, t)} :: t in pool && p in Parents(pool, t) ==> rank[p] < rank[t]
  }

  ghost predicate SpendsFrom(pool: Pool, path: seq<TxId>, i: int) {
    0 < i < |path| && path[i] in pool && path[i-1] in Parents(pool, path[i])
  }

  /** A chain of spends, oldest transaction first. */
  ghost predicate SpendChain(pool: Pool, path: seq<TxId>) {
    forall i :: 0 < i < |path| ==> SpendsFrom(pool, path, i)
  }

  ghost predicate Links(pool: Pool, path: seq<TxId>, a: TxId, t: TxId) {
    SpendChain(pool, path) && |path| >= 2 && path[0] == a && path[|path|-1] == t
  }

  ghost predicate IsAncestor(pool: Pool, a: TxId, t: TxId) {
    exists path :: Links(pool, path, a, t)
  }

  ghost function Ancestors(pool: Pool, t: TxId): set<TxId> {
    set a | a in pool && IsAncestor(pool, a, t)
  }

  lemma ParentIsAncestor(pool: Pool, p: TxId, t: TxId)
    requires t in pool && p in Parents(pool, t)
    ensures p in Ancestors(pool, t)
  {
    assert SpendsFrom(pool, [p, t], 1);
    assert Links(pool, [p, t], p, t);
  }

  lemma AncestorsCompose(pool: Pool, a: TxId, b: TxId, c: TxId)
    requires a in Ancestors(pool, b) && b in Ancestors(pool, c)
    ensures a in Ancestors(pool, c)
  {
    var left :| Links(pool, left, a, b);
    var right :| Links(pool, right, b, c);
    var path := left + right[1..];
    forall i | 0 < i < |path|
      ensures SpendsFrom(pool, path, i)
    {
      if i < |left| {
        assert SpendsFrom(pool, left, i);
      } else {
        assert SpendsFrom(pool, right, i - |left| + 1);
      }
    }
    assert SpendsFrom(pool, path, 1);
    assert Links(pool, path, a, c);
  }

  /** The last link of a chain is a parent, and what precedes it is an ancestor of that parent. */
  lemma AncestorThroughParent(pool: Pool, a: TxId, t: TxId) returns (p: TxId)
    requires a in Ancestors(pool, t)
    ensures t in pool && p in Parents(pool, t) && (a == p || a in Ancestors(pool, p))
  {
    var path :| Links(pool, path, a, t);
    p := path[|path|-2];
    assert SpendsFrom(pool, path, |path| - 1);
    if |path| > 2 {
      var shorter := path[..|path|-1];
      forall i | 0 < i < |shorter|
        ensures SpendsFrom(pool, shorter, i)
      {
        assert SpendsFrom(pool, path, i);
      }
      assert Links(pool, shorter, a, p);
    }
  }

  /** The ancestors of `t` are the members of `ps` and everything above them. */
  ghost function Above(pool: Pool, ps: set<TxId>): set<TxId> {
    ps + set p, a | p in ps && a in Ancestors(pool, p) :: a
  }

  lemma AncestorsAreAboveParents(pool: Pool, t: TxId)
    requires t in pool
    ensures Ancestors(pool, t) == Above(pool, Parents(pool, t))
  {
    forall a | a in Ancestors(pool, t)
      ensures a in Above(pool, Parents(pool, t))
    {
      var p := AncestorThroughParent(pool, a, t);
    }
    forall a | a in Above(pool, Parents(pool, t))
      ensures a in Ancestors(pool, t)
    {
      if a in Parents(pool, t) {
        ParentIsAncestor(pool, a, t);
      } else {
        var p :| p in Parents(pool, t) && a in Ancestors(pool, p);
        ParentIsAncestor(pool, p, t);
        AncestorsCompose(pool, a, p, t);
      }
    }
  }

  lemma AboveIsClosed(pool: Pool, ps: set<TxId>, p: TxId)
    requires p in Above(pool, ps)
    ensures Ancestors(pool, p) <= Above(pool, ps)
  {
    forall a | a in Ancestors(pool, p)
      ensures a in Above(pool, ps)
    {
      if p !in ps {
        var q :| q in ps && p in Ancestors(pool, q);
        AncestorsCompose(pool, a, p, q);
      }
    }
  }

  lemma AboveGrows(pool: Pool, ps: set<TxId>, p: TxId)
    ensures Above(pool, ps + {p}) == Above(pool, ps) + {p} + Ancestors(pool, p)
  {
  }

  lemma AncestorsRankLower(pool: Pool, rank: map<TxId, nat>, a: TxId, t: TxId)
    requires Ranks(pool, rank) && a in Ancestors(pool, t)
    ensures t in pool && rank[a] < rank[t]
    decreases if t in rank then rank[t] else 0
  {
    var p := AncestorThroughParent(pool, a, t);
    if a != p {
      AncestorsRankLower(pool, rank, a, p);
    }
  }

  lemma NotOwnAncestor(pool: Pool, rank: map<TxId, nat>, t: TxId)
    requires Ranks(pool, rank)
    ensures t !in Ancestors(pool, t)
  {
    if t in Ancestors(pool, t) {
      AncestorsRankLower(pool, rank, t, t);
    }
  }

  /** The totals of a set of pool transactions. */
  ghost function TotalOf(pool: Pool, s: set<TxId>): Totals
    requires s <= pool.Keys
  {
    if s == {} then NOTHING
    else
      var x :| x in s;
      pool[x].own.Plus(TotalOf(pool, s - {x}))
  }

  lemma PlusSwaps(x: Totals, y: Totals, z: Totals)
    ensures x.Plus(y.Plus(z)) == y.Plus(x.Plus(z))
  {
  }

  /** Whichever member is taken out first, the total is the same. */
  lemma {:induction false} TotalWithout(pool: Pool, s: set<TxId>, x: TxId)
    requires s <= pool.Keys && x in s
    ensures TotalOf(pool, s) == pool[x].own.Plus(TotalOf(pool, s - {x}))
    decreases |s|
  {
    var y :| y in s && TotalOf(pool, s) == pool[y].own.Plus(TotalOf(pool, s - {y}));
    if y != x {
      TotalWithout(pool, s - {y}, x);
      TotalWithout(pool, s - {x}, y);
      assert s - {y} - {x} == s - {x} - {y};
      var rest := TotalOf(pool, s - {x} - {y});
      PlusSwaps(pool[x].own, pool[y].own, rest);
    }
  }

  lemma {:induction false} TotalsBounds(pool: Pool, s: set<TxId>)
    requires s <= pool.Keys && Sized(pool)
    ensures TotalOf(pool, s).size >= 0 && TotalOf(pool, s).sigops >= 0
    decreases |s|
  {
    if s != {} {
      var x :| x in s;
      TotalWithout(pool, s, x);
      TotalsBounds(pool, s - {x});
    }
  }
}
