/** Packing projected blocks: what has to hold of the queue, the heap, the overflow list and
    the blocks built so far. */
module Packing {
  import opened Basics
  import opened Ancestry
  import opened Packages
  import opened Repairs
  import opened Weights
  import opened Template
  import opened BlockRules

  /** The local variables of the packing loop. `top` is the first array slot not consumed;
      the heap is a bag whose inner order does not matter here; `node` holds those whose
      link into the heap is set. */
  datatype Packing = Packing(
    mempoolArray: seq<TxId>,
    top: nat,
    heap: multiset<TxId>,
    node: set<TxId>,
    isModified: set<TxId>,
    overflow: seq<TxId>,
    transactions: seq<TxId>,
    blockWeight: int,
    failures: nat,
    blocks: seq<seq<TxId>>)

  /** Sizes are weights. */
  ghost predicate WeightIsSize(pool: Pool) {
    forall t :: t in pool ==> pool[t].weight == pool[t].own.size
  }

  lemma {:induction false} WeightIsTotalSize(pool: Pool, s: set<TxId>)
    requires s <= pool.Keys && WeightIsSize(pool)
    ensures WeightOf(pool, s) == TotalOf(pool, s).size
    decreases |s|
  {
    if s != {} {
      var x :| x in s;
      WeightWithout(pool, s, x);
      TotalWithout(pool, s, x);
      WeightIsTotalSize(pool, s - {x});
    }
  }

  // ------------------------------------------------------------- nobody is lost

  /** Everyone still to be placed and not in the overflow list is in a slot not yet
      consumed, or in the heap if it has been repaired. */
  ghost predicate Covered(
    ctx: Context, used: set<TxId>, mempoolArray: seq<TxId>, top: nat, heap: multiset<TxId>,
    node: set<TxId>, isModified: set<TxId>, overflow: set<TxId>)
  {
    && top <= |mempoolArray|
    && (forall t :: t in mempoolArray ==> t in ctx.txs) && overflow <= ctx.txs.Keys
    && (forall t {:trigger heap[t]} :: t in heap ==> t in isModified && t in ctx.txs)
    && (forall t {:trigger t in node} :: t in node ==> t in heap)
    && forall t {:trigger t in isModified} :: t in ctx.txs && t !in used && t !in overflow ==>
         if t in isModified then t in heap else t in mempoolArray[top..]
  }

  lemma SlotConsumed(
    ctx: Context, used: set<TxId>, mempoolArray: seq<TxId>, top: nat, heap: multiset<TxId>,
    node: set<TxId>, isModified: set<TxId>, overflow: set<TxId>)
    requires Covered(ctx, used, mempoolArray, top, heap, node, isModified, overflow)
    requires top < |mempoolArray| && mempoolArray[top] in used + isModified + overflow
    ensures Covered(ctx, used, mempoolArray, top + 1, heap, node, isModified, overflow)
  {
    assert mempoolArray[top..] == [mempoolArray[top]] + mempoolArray[top+1..];
  }

  lemma HeapPopped(
    ctx: Context, used: set<TxId>, mempoolArray: seq<TxId>, top: nat, heap: multiset<TxId>,
    node: set<TxId>, isModified: set<TxId>, overflow: set<TxId>, t: TxId)
    requires Covered(ctx, used, mempoolArray, top, heap, node, isModified, overflow)
    requires t in heap && t in used + overflow
    ensures Covered(ctx, used, mempoolArray, top, heap - multiset{t}, node - {t}, isModified, overflow)
  {
  }

  lemma MoreCovered(
    ctx: Context, used: set<TxId>, used': set<TxId>, mempoolArray: seq<TxId>, top: nat, heap: multiset<TxId>,
    node: set<TxId>, isModified: set<TxId>, overflow: set<TxId>, overflow': set<TxId>)
    requires Covered(ctx, used, mempoolArray, top, heap, node, isModified, overflow)
    requires used <= used' + overflow' && overflow <= overflow' <= ctx.txs.Keys
    ensures Covered(ctx, used', mempoolArray, top, heap, node, isModified, overflow')
  {
  }

  /** A repaired transaction enters the heap unless its link is set already. */
  lemma TouchKeepsCovered(
    ctx: Context, used: set<TxId>, mempoolArray: seq<TxId>, top: nat, heap: multiset<TxId>,
    node: set<TxId>, isModified: set<TxId>, overflow: set<TxId>, t: TxId)
    requires Covered(ctx, used, mempoolArray, top, heap, node, isModified, overflow)
    requires t in ctx.txs
    ensures Covered(ctx, used, mempoolArray, top, heap + multiset{t}, node + {t}, isModified + {t}, overflow)
  {
  }

  // ------------------------------------------- room for the slots given back

  /** How many entries go back into the array. */
  function Unrepaired(overflow: seq<TxId>, isModified: set<TxId>): nat {
    if overflow == [] then 0
    else Unrepaired(overflow[..|overflow|-1], isModified) + if overflow[|overflow|-1] in isModified then 0 else 1
  }

  lemma {:induction false} UnrepairedShrinks(overflow: seq<TxId>, isModified: set<TxId>, more: set<TxId>)
    requires isModified <= more
    ensures Unrepaired(overflow, more) <= Unrepaired(overflow, isModified)
  {
    if overflow != [] {
      UnrepairedShrinks(overflow[..|overflow|-1], isModified, more);
    }
  }

  lemma UnrepairedGrows(overflow: seq<TxId>, isModified: set<TxId>, t: TxId)
    ensures Unrepaired(overflow + [t], isModified) ==
      Unrepaired(overflow, isModified) + if t in isModified then 0 else 1
  {
    assert (overflow + [t])[..|overflow|] == overflow;
  }

  /** An entry of the overflow list goes back into the slot before `top`, which is dead. */
  lemma SlotGivenBack(
    ctx: Context, used: set<TxId>, mempoolArray: seq<TxId>, top: nat, heap: multiset<TxId>,
    node: set<TxId>, isModified: set<TxId>, overflow: set<TxId>, t: TxId)
    requires Covered(ctx, used, mempoolArray, top, heap, node, isModified, overflow + {t})
    requires t in ctx.txs && t !in isModified && top > 0
    ensures Covered(ctx, used, mempoolArray[top-1 := t], top - 1, heap, node, isModified, overflow)
  {
    var more := mempoolArray[top-1 := t];
    assert more[top-1..] == [t] + mempoolArray[top..];
    forall x | x in more
      ensures x in ctx.txs
    {
      var i :| 0 <= i < |more| && more[i] == x;
      assert i != top - 1 ==> mempoolArray[i] == x;
    }
  }

  lemma HeapGivenBack(
    ctx: Context, used: set<TxId>, mempoolArray: seq<TxId>, top: nat, heap: multiset<TxId>,
    node: set<TxId>, isModified: set<TxId>, overflow: set<TxId>, t: TxId)
    requires Covered(ctx, used, mempoolArray, top, heap, node, isModified, overflow + {t})
    requires t in ctx.txs && t in isModified
    ensures Covered(ctx, used, mempoolArray, top, heap + multiset{t}, node + {t}, isModified, overflow)
  {
  }

  // ------------------------------------------------------ the array stays in order

  /** The slots left are in order of first score, and so are the entries set aside that have
      not been repaired, none of which scores less than a slot left. */
  ghost predicate SlotsInOrder(
    ctx: Context, mempoolArray: seq<TxId>, top: nat, isModified: set<TxId>, overflow: seq<TxId>) {
    && top <= |mempoolArray|
    && (forall i, j :: top <= i < j < |mempoolArray| ==>
        FirstScore(ctx, mempoolArray[j]) <= FirstScore(ctx, mempoolArray[i]))
    && (forall i, j :: 0 <= i < j < |overflow| && overflow[i] !in isModified && overflow[j] !in isModified ==>
          FirstScore(ctx, overflow[j]) <= FirstScore(ctx, overflow[i]))
    && (forall i, k :: 0 <= i < |overflow| && top <= k < |mempoolArray| && overflow[i] !in isModified ==>
          FirstScore(ctx, mempoolArray[k]) <= FirstScore(ctx, overflow[i]))
  }

  /** The slot before `top` is set aside. */
  lemma SlotSetAside(
    ctx: Context, mempoolArray: seq<TxId>, top: nat, isModified: set<TxId>, overflow: seq<TxId>)
    requires SlotsInOrder(ctx, mempoolArray, top, isModified, overflow) && top < |mempoolArray|
    ensures SlotsInOrder(ctx, mempoolArray, top + 1, isModified, overflow + [mempoolArray[top]])
  {
  }

  lemma RepairedSetAside(
    ctx: Context, mempoolArray: seq<TxId>, top: nat, isModified: set<TxId>, overflow: seq<TxId>, t: TxId)
    requires SlotsInOrder(ctx, mempoolArray, top, isModified, overflow) && t in isModified
    ensures SlotsInOrder(ctx, mempoolArray, top, isModified, overflow + [t])
  {
  }

  /** The last entry set aside takes the slot before `top`. */
  lemma SlotBackInOrder(
    ctx: Context, mempoolArray: seq<TxId>, top: nat, isModified: set<TxId>, overflow: seq<TxId>, t: TxId)
    requires SlotsInOrder(ctx, mempoolArray, top, isModified, overflow + [t]) && t !in isModified && top > 0
    ensures SlotsInOrder(ctx, mempoolArray[top-1 := t], top - 1, isModified, overflow)
  {
    var all, more := overflow + [t], mempoolArray[top-1 := t];
    assert all[|overflow|] == t;
    forall i, k | 0 <= i < |overflow| && top - 1 <= k < |more| && overflow[i] !in isModified
      ensures FirstScore(ctx, more[k]) <= FirstScore(ctx, overflow[i])
    {
      assert all[i] == overflow[i];
    }
    forall i, j | 0 <= i < j < |overflow| && overflow[i] !in isModified && overflow[j] !in isModified
      ensures FirstScore(ctx, overflow[j]) <= FirstScore(ctx, overflow[i])
    {
      assert all[i] == overflow[i] && all[j] == overflow[j];
    }
  }

  lemma HeapBackInOrder(
    ctx: Context, mempoolArray: seq<TxId>, top: nat, isModified: set<TxId>, overflow: seq<TxId>, t: TxId)
    requires SlotsInOrder(ctx, mempoolArray, top, isModified, overflow + [t])
    ensures SlotsInOrder(ctx, mempoolArray, top, isModified, overflow)
  {
    var all := overflow + [t];
    forall i, j | 0 <= i < j < |overflow| && overflow[i] !in isModified && overflow[j] !in isModified
      ensures FirstScore(ctx, overflow[j]) <= FirstScore(ctx, overflow[i])
    {
      assert all[i] == overflow[i] && all[j] == overflow[j];
    }
    forall i, k | 0 <= i < |overflow| && top <= k < |mempoolArray| && overflow[i] !in isModified
      ensures FirstScore(ctx, mempoolArray[k]) <= FirstScore(ctx, overflow[i])
    {
      assert all[i] == overflow[i];
    }
  }

  /** Whoever is fresh and not set aside waits in a slot, behind none that scores less than it. */
  lemma FreshWaitInSlots(
    ctx: Context, used: set<TxId>, mempoolArray: seq<TxId>, top: nat, heap: multiset<TxId>, node: set<TxId>,
    isModified: set<TxId>, overflow: seq<TxId>, t: TxId)
    requires Covered(ctx, used, mempoolArray, top, heap, node, isModified, Elements(overflow))
    requires SlotsInOrder(ctx, mempoolArray, top, isModified, overflow) && isModified == BelowAny(ctx.txs, used)
    requires Fresh(ctx, used, t) && t !in overflow
    ensures top < |mempoolArray| && FirstScore(ctx, t) <= FirstScore(ctx, mempoolArray[top])
  {
    assert t !in isModified && t !in Elements(overflow);
    assert t in mempoolArray[top..];
    var i :| 0 <= i < |mempoolArray[top..]| && mempoolArray[top..][i] == t;
    assert mempoolArray[top + i] == t;
  }

  // -------------------------------------------------------------------- blocks

  /** The full blocks hold the packages of `filled`, the one being built those of `current`. */
  ghost predicate BlocksBuilt(
    ctx: Context, run: seq<Package>, filled: seq<seq<Package>>, current: seq<Package>, limit: int,
    blocks: seq<seq<TxId>>, transactions: seq<TxId>, blockWeight: int)
  {
    && run == Flat(filled) + current && |blocks| == |filled| <= FULL_BLOCKS && AllFull(ctx, filled, limit)
    && (forall i {:trigger filled[i]} :: 0 <= i < |filled| ==> blocks[i] == Taken(filled[i]))
    && transactions == Taken(current)
    && Used(current) <= ctx.txs.Keys && blockWeight == RESERVED_WEIGHT + WeightOf(ctx.txs, Used(current))
    && (|blocks| < FULL_BLOCKS && current != [] ==> BlockWithin(ctx, current, limit))
    && WellPicked(ctx, Flat(filled), current, limit, |blocks| < FULL_BLOCKS)
  }

  /** Whoever is set aside failed in the block being built, and nobody is set aside after the
      last full block. */
  ghost predicate AsideExplained(
    ctx: Context, filled: seq<seq<Package>>, current: seq<Package>, limit: int, overflow: seq<TxId>)
  {
    && (|filled| == FULL_BLOCKS ==> overflow == [])
    && forall t {:trigger FailedHere(ctx, Flat(filled), current, limit, t)} :: t in overflow ==>
         t in ctx.txs && FailedHere(ctx, Flat(filled), current, limit, t)
  }

  /** Since the last package of this block was taken, so many entries were set aside, none of
      which fits beside what the block holds. The count of an earlier block is forgotten once
      this one has a package. */
  ghost predicate TriesKnown(
    ctx: Context, filled: seq<seq<Package>>, current: seq<Package>, limit: int, overflow: seq<TxId>, failures: nat)
  {
    && (current != [] ==>
          && failures <= |overflow|
          && forall i {:trigger overflow[i]} :: |overflow| - failures <= i < |overflow| ==>
               DoesNotFit(ctx, Flat(filled), current, limit, overflow[i]))
    && (|filled| < FULL_BLOCKS ==>
          exists at :: CountedFrom(ctx, Flat(filled), current, limit, overflow, failures, at))
  }

  /** At first nothing has been tried. */
  lemma NothingTried(ctx: Context, filled: seq<seq<Package>>, limit: int, failures: nat)
    ensures TriesKnown(ctx, filled, [], limit, [], failures)
  {
    assert CountedFrom(ctx, Flat(filled), [], limit, [], failures, []);
  }

  /** Everything was taken in time, and since then no more were tried than are counted. */
  ghost predicate CountedFrom(
    ctx: Context, before: seq<Package>, current: seq<Package>, limit: int, overflow: seq<TxId>, failures: nat,
    at: seq<nat>)
  {
    && TriedInTime(ctx, before, current, limit, overflow, at)
    && |overflow| <= failures + if at == [] then 0 else at[|at|-1]
  }

  lemma CountedOn(
    ctx: Context, before: seq<Package>, current: seq<Package>, limit: int, overflow: seq<TxId>, failures: nat,
    at: seq<nat>, t: TxId)
    requires CountedFrom(ctx, before, current, limit, overflow, failures, at)
    ensures CountedFrom(ctx, before, current, limit, overflow + [t], failures + 1, at)
  {
    var more := overflow + [t];
    forall k | 0 <= k < |current| ensures TriedAt(ctx, before, current, limit, more, at, k) {
      assert TriedAt(ctx, before, current, limit, overflow, at, k);
      assert more[..at[k]] == overflow[..at[k]];
    }
  }

  /** A package is taken in time. */
  lemma CountedAnew(
    ctx: Context, before: seq<Package>, current: seq<Package>, limit: int, overflow: seq<TxId>, failures: nat,
    at: seq<nat>, p: Package)
    requires CountedFrom(ctx, before, current, limit, overflow, failures, at)
    requires TopFresh(ctx, Used(before + current), overflow, p.root)
    requires forall t {:trigger FailedHere(ctx, before, current, limit, t)} :: t in overflow ==>
      FailedHere(ctx, before, current, limit, t)
    requires AlmostFull(ctx, current, limit) ==> failures <= 1000 || (current == [] && overflow == [])
    ensures CountedFrom(ctx, before, current + [p], limit, overflow, 0, at + [|overflow|])
  {
    var more, at' := current + [p], at + [|overflow|];
    forall k | 0 <= k < |more| ensures TriedAt(ctx, before, more, limit, overflow, at', k) {
      if k < |current| {
        assert TriedAt(ctx, before, current, limit, overflow, at, k);
        assert more[..k] == current[..k];
      } else {
        assert more[..k] == current && overflow[..|overflow|] == overflow;
      }
    }
  }

  lemma TriesAnew(
    ctx: Context, filled: seq<seq<Package>>, current: seq<Package>, limit: int, overflow: seq<TxId>, failures: nat,
    p: Package)
    requires TriesKnown(ctx, filled, current, limit, overflow, failures)
    requires AsideExplained(ctx, filled, current, limit, overflow)
    requires TopFresh(ctx, Used(Flat(filled) + current), overflow, p.root)
    requires InTime(ctx, filled, current, limit, overflow, failures)
    ensures TriesKnown(ctx, filled, current + [p], limit, overflow, 0)
  {
    if |filled| < FULL_BLOCKS {
      var at :| CountedFrom(ctx, Flat(filled), current, limit, overflow, failures, at);
      CountedAnew(ctx, Flat(filled), current, limit, overflow, failures, at, p);
    }
  }

  /** The search has not been given up, or begins anew. */
  ghost predicate InTime(
    ctx: Context, filled: seq<seq<Package>>, current: seq<Package>, limit: int, overflow: seq<TxId>, failures: nat)
  {
    |filled| < FULL_BLOCKS && AlmostFull(ctx, current, limit) ==>
      failures <= 1000 || (current == [] && overflow == [])
  }

  lemma TriesClosed(
    ctx: Context, filled: seq<seq<Package>>, current: seq<Package>, limit: int, overflow: seq<TxId>, failures: nat)
    requires TriesKnown(ctx, filled, current, limit, overflow, failures) && |filled| < FULL_BLOCKS && current != []
    ensures ClosedInTime(ctx, Flat(filled), current, limit)
  {
    var at :| CountedFrom(ctx, Flat(filled), current, limit, overflow, failures, at);
    assert TriedInTime(ctx, Flat(filled), current, limit, overflow, at);
  }

  lemma OneMoreTry(
    ctx: Context, filled: seq<seq<Package>>, current: seq<Package>, limit: int, overflow: seq<TxId>, failures: nat,
    t: TxId)
    requires TriesKnown(ctx, filled, current, limit, overflow, failures)
    requires DoesNotFit(ctx, Flat(filled), current, limit, t)
    ensures TriesKnown(ctx, filled, current, limit, overflow + [t], failures + 1)
  {
    if |filled| < FULL_BLOCKS {
      var at :| CountedFrom(ctx, Flat(filled), current, limit, overflow, failures, at);
      CountedOn(ctx, Flat(filled), current, limit, overflow, failures, at, t);
    }
  }

  lemma AsideStaysExplained(
    ctx: Context, filled: seq<seq<Package>>, current: seq<Package>, limit: int, overflow: seq<TxId>, p: Package)
    requires AsideExplained(ctx, filled, current, limit, overflow)
    ensures AsideExplained(ctx, filled, current + [p], limit, overflow)
  {
    forall t | t in overflow ensures t in ctx.txs && FailedHere(ctx, Flat(filled), current + [p], limit, t) {
      assert FailedHere(ctx, Flat(filled), current, limit, t);
      FailedStays(ctx, Flat(filled), current, p, limit, t);
    }
  }

  lemma UsedOfConcat(a: seq<Package>, b: seq<Package>)
    ensures Used(a + b) == Used(a) + Used(b)
  {
    forall t | t in Used(a) + Used(b)
      ensures t in Used(a + b)
    {
      if t in Used(a) {
        var k :| 0 <= k < |a| && t in a[k].cluster;
        assert t in (a + b)[k].cluster;
      } else {
        var k :| 0 <= k < |b| && t in b[k].cluster;
        assert t in (a + b)[|a| + k].cluster;
      }
    }
    forall t | t in Used(a + b)
      ensures t in Used(a) + Used(b)
    {
      var k :| 0 <= k < |a + b| && t in (a + b)[k].cluster;
      if k < |a| {
        assert t in a[k].cluster;
      } else {
        assert t in b[k - |a|].cluster;
      }
    }
  }

  lemma UsedOfOne(p: Package)
    ensures Used([p]) == Members(p)
  {
    forall t | t in p.cluster
      ensures t in Used([p])
    {
      assert t in [p][0].cluster;
    }
  }

  lemma WeightAdded(
    ctx: Context, rank: map<TxId, nat>, run: seq<Package>, full: seq<Package>, current: seq<Package>, p: Package)
    requires WellFormed(ctx) && Ranks(ctx.txs, rank) && WeightIsSize(ctx.txs) && IsRun(ctx, run) && Follows(ctx, run, p)
    requires run == full + current
    ensures Members(p) <= ctx.txs.Keys && Used(current + [p]) <= ctx.txs.Keys && Used(current) <= ctx.txs.Keys
    ensures WeightOf(ctx.txs, Used(current + [p])) == WeightOf(ctx.txs, Used(current)) + WeightOf(ctx.txs, Members(p))
    ensures WeightOf(ctx.txs, Members(p)) == PackageTotals(ctx, Used(run), p.root).size
  {
    TotalsGrow(ctx, rank, run, p);
    WeightIsTotalSize(ctx.txs, Members(p));
    UsedOfConcat(full, current);
    UsedOfConcat(current, [p]);
    UsedOfOne(p);
    assert Used(current) <= Used(run);
    assert Members(p) !! Used(run);
    WeightOfUnion(ctx.txs, Used(current), Members(p));
  }

  lemma PackageAdded(
    ctx: Context, rank: map<TxId, nat>, run: seq<Package>, filled: seq<seq<Package>>, current: seq<Package>, limit: int,
    blocks: seq<seq<TxId>>, transactions: seq<TxId>, blockWeight: int, p: Package)
    requires WellFormed(ctx) && Ranks(ctx.txs, rank) && WeightIsSize(ctx.txs) && IsRun(ctx, run) && Follows(ctx, run, p)
    requires BlocksBuilt(ctx, run, filled, current, limit, blocks, transactions, blockWeight)
    requires |blocks| < FULL_BLOCKS ==> BlockFits(ctx, Flat(filled), current, limit, p.root)
    requires BestFresh(ctx, Flat(filled), current, limit, |blocks| < FULL_BLOCKS, p.root)
    ensures Members(p) <= ctx.txs.Keys
    ensures BlocksBuilt(ctx, run + [p], filled, current + [p], limit, blocks,
                        transactions + Reversed(p.cluster), blockWeight + WeightOf(ctx.txs, Members(p)))
  {
    WeightAdded(ctx, rank, run, Flat(filled), current, p);
    assert (current + [p])[..|current|] == current;
    assert run + [p] == Flat(filled) + (current + [p]);
    WellPickedMore(ctx, Flat(filled), current, limit, |blocks| < FULL_BLOCKS, p);
    if |blocks| < FULL_BLOCKS {
      TotalsGrow(ctx, rank, run, p);
      StaysWithin(ctx, current, limit, p);
    }
  }

  lemma {:induction false} StaysWithin(ctx: Context, current: seq<Package>, limit: int, p: Package)
    requires current != [] ==> BlockWithin(ctx, current, limit)
    requires Used(current + [p]) <= ctx.txs.Keys && RESERVED_WEIGHT + WeightOf(ctx.txs, Used(current + [p])) < limit
    requires FewSigops(ctx, p)
    ensures BlockWithin(ctx, current + [p], limit)
  {
    forall k | 0 <= k < |current + [p]| ensures FewSigops(ctx, (current + [p])[k]) {
      if k < |current| {
        assert FewSigops(ctx, current[k]);
      }
    }
  }

  lemma {:induction false} BlockClosed(
    ctx: Context, run: seq<Package>, filled: seq<seq<Package>>, current: seq<Package>, limit: int,
    blocks: seq<seq<TxId>>, transactions: seq<TxId>, blockWeight: int)
    requires BlocksBuilt(ctx, run, filled, current, limit, blocks, transactions, blockWeight)
    requires |blocks| < FULL_BLOCKS && current != [] && ClosedFull(ctx, Flat(filled), current, limit)
    requires ClosedInTime(ctx, Flat(filled), current, limit)
    ensures BlocksBuilt(ctx, run, filled + [current], [], limit, blocks + [transactions], [], RESERVED_WEIGHT)
  {
    AllFullMore(ctx, filled, limit, current);
    NothingBuilt(ctx, filled + [current], limit);
    forall i | 0 <= i < |filled| + 1 ensures (blocks + [transactions])[i] == Taken((filled + [current])[i]) {
      assert i < |filled| ==> (filled + [current])[i] == filled[i];
    }
    assert Flat(filled + [current]) + [] == run;
  }

  lemma NothingBuilt(ctx: Context, filled: seq<seq<Package>>, limit: int)
    ensures Used([]) == {} && Taken([]) == [] && WeightOf(ctx.txs, Used([])) == 0
    ensures forall bounded :: WellPicked(ctx, Flat(filled), [], limit, bounded)
  {
    assert Used([]) == {};
  }
}
