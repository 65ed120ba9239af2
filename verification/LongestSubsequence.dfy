/** Which transactions of a block stand out of its order by fee rate: a longest
    non-decreasing subsequence by patience search, and the transactions outside it. */
module LongestSubsequence {
  import opened Basics

  datatype BlockTx = BlockTx(txid: TxId, rate: real)

  // ------------------------------------------------------------- specification

  /** Positions of a subsequence that is in rate order. */
  ghost predicate Ordered(xs: seq<BlockTx>, idx: seq<nat>) {
    && (forall j {:trigger idx[j]} :: 0 <= j < |idx| ==> idx[j] < |xs|)
    && (forall j, k {:trigger idx[j], idx[k]} :: 0 <= j < k < |idx| ==>
        idx[j] < idx[k] && xs[idx[j]].rate <= xs[idx[k]].rate)
  }

  ghost predicate Longest(xs: seq<BlockTx>, idx: seq<nat>) {
    && Ordered(xs, idx)
    && forall other {:trigger Ordered(xs, other)} :: Ordered(xs, other) ==> |other| <= |idx|
  }

  /** With the positions in `removed` taken out, the block is in rate order. */
  ghost predicate OrderedWithout(xs: seq<BlockTx>, removed: set<nat>) {
    forall j, k {:trigger xs[j], xs[k]} :: 0 <= j < k < |xs| && j !in removed && k !in removed ==>
        xs[j].rate <= xs[k].rate
  }

  function Positions(n: nat, removed: set<nat>): seq<nat> {
    if n == 0 then [] else if n - 1 in removed then Positions(n - 1, removed) else Positions(n - 1, removed) + [n - 1]
  }

  lemma {:induction false} PositionsAre(n: nat, removed: set<nat>)
    ensures forall j {:trigger Positions(n, removed)[j]} :: 0 <= j < |Positions(n, removed)| ==>
      Positions(n, removed)[j] < n && Positions(n, removed)[j] !in removed
    ensures forall j, k {:trigger Positions(n, removed)[j], Positions(n, removed)[k]} ::
      0 <= j < k < |Positions(n, removed)| ==>
      Positions(n, removed)[j] < Positions(n, removed)[k]
  {
    if n != 0 {
      PositionsAre(n - 1, removed);
    }
  }

  lemma {:induction false} PositionsCount(n: nat, removed: set<nat>)
    ensures |Positions(n, removed)| >= n - |removed|
  {
    if n != 0 {
      if n - 1 in removed {
        PositionsCount(n - 1, removed - {n - 1});
        PositionsIgnore(n - 1, removed, n - 1);
      } else {
        PositionsCount(n - 1, removed);
      }
    }
  }

  lemma {:induction false} PositionsIgnore(n: nat, removed: set<nat>, x: nat)
    requires x >= n
    ensures Positions(n, removed - {x}) == Positions(n, removed)
  {
    if n != 0 {
      PositionsIgnore(n - 1, removed, x);
    }
  }

  /** What is left of an ordered block is an ordered subsequence. */
  lemma KeptIsOrdered(xs: seq<BlockTx>, removed: set<nat>)
    requires OrderedWithout(xs, removed)
    ensures Ordered(xs, Positions(|xs|, removed))
  {
    PositionsAre(|xs|, removed);
  }

  lemma OutsideLeavesOrder(xs: seq<BlockTx>, idx: seq<nat>)
    requires Ordered(xs, idx)
    ensures OrderedWithout(xs, Outside(xs, idx))
  {
    forall j, k | 0 <= j < k < |xs| && j !in Outside(xs, idx) && k !in Outside(xs, idx)
      ensures xs[j].rate <= xs[k].rate
    {
      var a := PositionOf(idx, j);
      var b := PositionOf(idx, k);
      assert idx[a] < idx[b];
    }
  }

  lemma PositionOf(idx: seq<nat>, x: nat) returns (a: nat)
    requires x in idx
    ensures a < |idx| && idx[a] == x
  {
    var j :| 0 <= j < |idx| && idx[j] == x;
    a := j;
  }

  /** What lies outside a longest ordered subsequence is a smallest set whose removal leaves
      the block in rate order. */
  lemma RemovesFewest(xs: seq<BlockTx>, idx: seq<nat>, removed: set<nat>)
    requires Longest(xs, idx) && OrderedWithout(xs, removed)
    ensures |removed| >= |xs| - |idx|
    ensures OrderedWithout(xs, Outside(xs, idx)) && |Outside(xs, idx)| == |xs| - |idx|
  {
    PositionsCount(|xs|, removed);
    KeptIsOrdered(xs, removed);
    OutsideCount(xs, idx);
    OutsideLeavesOrder(xs, idx);
  }

  function Numbers(n: nat): (all: set<nat>)
    ensures forall x: nat :: x in all <==> x < n
    ensures |all| == n
  {
    if n == 0 then {} else Numbers(n - 1) + {n - 1}
  }

  ghost function Inside(idx: seq<nat>): set<nat> {
    set x | x in idx
  }

  ghost function Outside(xs: seq<BlockTx>, idx: seq<nat>): set<nat> {
    Numbers(|xs|) - Inside(idx)
  }

  lemma OutsideCount(xs: seq<BlockTx>, idx: seq<nat>)
    requires Ordered(xs, idx)
    ensures |Outside(xs, idx)| == |xs| - |idx|
  {
    InsideCount(xs, idx);
    var all, inside := Numbers(|xs|), Inside(idx);
    assert inside <= all;
    assert all == Outside(xs, idx) + inside;
  }

  lemma {:induction false} InsideCount(xs: seq<BlockTx>, idx: seq<nat>)
    requires Ordered(xs, idx)
    ensures |Inside(idx)| == |idx|
  {
    if idx == [] {
      assert Inside(idx) == {};
    } else {
      var init, last := idx[..|idx|-1], idx[|idx|-1];
      InsideCount(xs, init);
      assert forall j :: 0 <= j < |init| ==> idx[j] < idx[|idx|-1];
      assert last !in init;
      assert idx == init + [last];
      assert Inside(idx) == Inside(init) + {last};
    }
  }

  // ---------------------------------------------------------------- the search

  /** The tables after the elements that `lens` covers: `lens[k]` is the length of the
      subsequence found to end at `k`, `m[l]` ends the best one of length `l`, `p[k]` is
      the element before `k` in its subsequence. */
  ghost predicate Tables(xs: seq<BlockTx>, m: seq<int>, p: seq<int>, best: nat, lens: seq<nat>) {
    && |lens| <= |xs| == |p| && |m| == |xs| + 1 && best <= |lens|
    && m[0] == -1
    && (best == 0 ==> |lens| == 0)
    && Ends(m, best, lens)
    && TailsSorted(xs, m, best, |lens|)
    && TailsLowest(xs, m, best, lens)
    && Lengthens(xs, lens)
    && Links(xs, p, lens)
  }

  /** Each length up to the best ends where the table says, and no other length occurs. */
  ghost predicate Ends(m: seq<int>, best: nat, lens: seq<nat>)
    requires best < |m|
  {
    && (forall l {:trigger m[l]} :: 1 <= l <= best ==> 0 <= m[l] < |lens| && lens[m[l]] == l)
    && (forall k {:trigger lens[k]} :: 0 <= k < |lens| ==> 1 <= lens[k] <= best)
  }

  lemma EndsStep(m: seq<int>, best: nat, lens: seq<nat>, newL: nat)
    requires best < |m| - 1 && Ends(m, best, lens) && 1 <= newL <= best + 1
    ensures Ends(m[newL := |lens|], if newL > best then newL else best, lens + [newL])
  {
    var m', lens', best' := m[newL := |lens|], lens + [newL], if newL > best then newL else best;
    forall l | 1 <= l <= best' ensures 0 <= m'[l] < |lens'| && lens'[m'[l]] == l {
      if l != newL {
        assert m'[l] == m[l] && lens'[m[l]] == lens[m[l]];
      }
    }
    forall k | 0 <= k < |lens'| ensures 1 <= lens'[k] <= best' {
      if k < |lens| {
        assert lens'[k] == lens[k];
      }
    }
  }

  ghost predicate TailsSorted(xs: seq<BlockTx>, m: seq<int>, best: nat, n: nat)
    requires n <= |xs| && best < |m| && forall l {:trigger m[l]} :: 1 <= l <= best ==> 0 <= m[l] < n
  {
    forall a, b {:trigger m[a], m[b]} :: 1 <= a <= b <= best ==> xs[m[a]].rate <= xs[m[b]].rate
  }

  ghost predicate TailsLowest(xs: seq<BlockTx>, m: seq<int>, best: nat, lens: seq<nat>)
    requires |lens| <= |xs| && best < |m| && forall l {:trigger m[l]} :: 1 <= l <= best ==> 0 <= m[l] < |lens|
    requires forall k {:trigger lens[k]} :: 0 <= k < |lens| ==> 1 <= lens[k] <= best
  {
    forall k {:trigger lens[k]} :: 0 <= k < |lens| ==> xs[m[lens[k]]].rate <= xs[k].rate
  }

  /** An element that can follow another gets a greater length. */
  ghost predicate Lengthens(xs: seq<BlockTx>, lens: seq<nat>)
    requires |lens| <= |xs|
  {
    forall j, k {:trigger lens[j], lens[k]} :: 0 <= j < k < |lens| && xs[j].rate <= xs[k].rate ==> lens[j] < lens[k]
  }

  ghost predicate Links(xs: seq<BlockTx>, p: seq<int>, lens: seq<nat>)
    requires |lens| <= |xs| == |p|
  {
    forall k {:trigger p[k]} :: 0 <= k < |lens| && lens[k] > 1 ==>
      0 <= p[k] < k && lens[p[k]] == lens[k] - 1 && xs[p[k]].rate <= xs[k].rate
  }

  /** Where the search puts an element of rate `rate`. */
  ghost predicate Place(xs: seq<BlockTx>, m: seq<int>, best: nat, rate: real, newL: nat)
    requires best < |m| && forall l {:trigger m[l]} :: 1 <= l <= best ==> 0 <= m[l] < |xs|
  {
    && 1 <= newL <= best + 1
    && (forall l {:trigger m[l]} :: 1 <= l < newL ==> xs[m[l]].rate <= rate)
    && (forall l {:trigger m[l]} :: newL <= l <= best ==> xs[m[l]].rate > rate)
  }

  lemma TablesStep(xs: seq<BlockTx>, m: seq<int>, p: seq<int>, best: nat, lens: seq<nat>, newL: nat)
    requires Tables(xs, m, p, best, lens) && |lens| < |xs|
    requires Place(xs, m, best, xs[|lens|].rate, newL)
    ensures Tables(xs, m[newL := |lens|], p[|lens| := m[newL - 1]], if newL > best then newL else best, lens + [newL])
  {
    var m', lens' := m[newL := |lens|], lens + [newL];
    var best' := if newL > best then newL else best;
    EndsStep(m, best, lens, newL);
    TailsSortedStep(xs, m, best, |lens|, newL);
    TailsLowestStep(xs, m, best, lens, newL);
    LengthensStep(xs, m, best, lens, newL);
    LinksStep(xs, m, p, best, lens, newL);
  }

  lemma TailsSortedStep(xs: seq<BlockTx>, m: seq<int>, best: nat, i: nat, newL: nat)
    requires i < |xs| && best < |m| - 1 && forall l {:trigger m[l]} :: 1 <= l <= best ==> 0 <= m[l] < i
    requires TailsSorted(xs, m, best, i) && Place(xs, m, best, xs[i].rate, newL)
    ensures TailsSorted(xs, m[newL := i], if newL > best then newL else best, i + 1)
  {
    var m', best' := m[newL := i], if newL > best then newL else best;
    forall a, b | 1 <= a <= b <= best' ensures xs[m'[a]].rate <= xs[m'[b]].rate {
      if a != newL && b != newL {
        assert xs[m[a]].rate <= xs[m[b]].rate;
      }
    }
  }

  lemma LinksStep(xs: seq<BlockTx>, m: seq<int>, p: seq<int>, best: nat, lens: seq<nat>, newL: nat)
    requires |lens| < |xs| == |p| && best < |m| - 1
    requires forall l {:trigger m[l]} :: 1 <= l <= best ==> 0 <= m[l] < |lens| && lens[m[l]] == l
    requires Links(xs, p, lens) && Place(xs, m, best, xs[|lens|].rate, newL)
    ensures Links(xs, p[|lens| := m[newL - 1]], lens + [newL])
  {
    var p', lens' := p[|lens| := m[newL - 1]], lens + [newL];
    if newL > 1 {
      assert lens[m[newL - 1]] == newL - 1;
    }
    forall k | 0 <= k < |lens'| && lens'[k] > 1
      ensures 0 <= p'[k] < k && lens'[p'[k]] == lens'[k] - 1 && xs[p'[k]].rate <= xs[k].rate
    {
      if k < |lens| {
        assert lens'[k] == lens[k] && p'[k] == p[k];
      }
    }
  }

  lemma TailsLowestStep(xs: seq<BlockTx>, m: seq<int>, best: nat, lens: seq<nat>, newL: nat)
    requires |lens| < |xs| && best < |m| - 1 && forall l {:trigger m[l]} :: 1 <= l <= best ==> 0 <= m[l] < |lens|
    requires forall k {:trigger lens[k]} :: 0 <= k < |lens| ==> 1 <= lens[k] <= best
    requires TailsLowest(xs, m, best, lens) && Place(xs, m, best, xs[|lens|].rate, newL)
    ensures TailsLowest(xs, m[newL := |lens|], if newL > best then newL else best, lens + [newL])
  {
    var i, m', lens' := |lens|, m[newL := |lens|], lens + [newL];
    forall k | 0 <= k < |lens'| ensures xs[m'[lens'[k]]].rate <= xs[k].rate {
      if k < i {
        assert xs[m[lens[k]]].rate <= xs[k].rate;
      }
    }
  }

  lemma LengthensStep(xs: seq<BlockTx>, m: seq<int>, best: nat, lens: seq<nat>, newL: nat)
    requires |lens| < |xs| && best < |m| - 1 && forall l {:trigger m[l]} :: 1 <= l <= best ==> 0 <= m[l] < |lens|
    requires forall k {:trigger lens[k]} :: 0 <= k < |lens| ==> 1 <= lens[k] <= best
    requires TailsLowest(xs, m, best, lens) && Place(xs, m, best, xs[|lens|].rate, newL) && Lengthens(xs, lens)
    ensures Lengthens(xs, lens + [newL])
  {
    var i, lens' := |lens|, lens + [newL];
    forall j, k | 0 <= j < k < |lens'| && xs[j].rate <= xs[k].rate
      ensures lens'[j] < lens'[k]
    {
      assert lens'[j] == lens[j];
      if k == i {
        assert xs[m[lens[j]]].rate <= xs[j].rate;
      } else {
        assert lens'[k] == lens[k];
      }
    }
  }

  /** Lengths grow along any ordered subsequence. */
  lemma {:induction false} NoneIsLonger(
    xs: seq<BlockTx>, m: seq<int>, p: seq<int>, best: nat, lens: seq<nat>, other: seq<nat>)
    requires Tables(xs, m, p, best, lens) && |lens| == |xs| && Ordered(xs, other)
    ensures |other| <= best
    ensures other != [] ==> lens[other[|other|-1]] >= |other|
  {
    if other != [] {
      var init, last := other[..|other|-1], other[|other|-1];
      assert lens[last] >= 1;
      NoneIsLonger(xs, m, p, best, lens, init);
      if init != [] {
        var before := init[|init|-1];
        assert before == other[|other|-2];
        assert before < last && xs[before].rate <= xs[last].rate;
        assert lens[before] < lens[last];
      }
    }
  }

  // ------------------------------------------------------------------- methods

  /** Binary search for the least length whose tail has a greater rate. */
  method FindPlace(xs: seq<BlockTx>, m: array<int>, best: nat, rate: real) returns (lo: nat)
    requires best < m.Length && forall l {:trigger m[l]} :: 1 <= l <= best ==> 0 <= m[l] < |xs|
    requires forall a, b {:trigger m[a], m[b]} :: 1 <= a <= b <= best ==> xs[m[a]].rate <= xs[m[b]].rate
    ensures Place(xs, m[..], best, rate, lo)
  {
    lo := 1;
    var hi := best + 1;
    while lo < hi
      invariant 1 <= lo <= hi <= best + 1
      invariant forall l {:trigger m[l]} :: 1 <= l < lo ==> xs[m[l]].rate <= rate
      invariant forall l {:trigger m[l]} :: hi <= l <= best ==> xs[m[l]].rate > rate
    {
      var mid := lo + (hi - lo) / 2;
      if xs[m[mid]].rate > rate {
        hi := mid;
      } else {
        lo := mid + 1;
      }
    }
  }

  method FillTables(xs: seq<BlockTx>, m: array<int>, p: array<int>) returns (best: nat, ghost lens: seq<nat>)
    requires m != p && p.Length == |xs| && m.Length == |xs| + 1
    modifies m, p
    ensures Tables(xs, m[..], p[..], best, lens) && |lens| == |xs|
  {
    m[0] := -1;
    best, lens := 0, [];
    for i := 0 to |xs|
      invariant |lens| == i && Tables(xs, m[..], p[..], best, lens)
    {
      TailsInArray(xs, m[..], p[..], best, lens);
      var newL := FindPlace(xs, m, best, xs[i].rate);
      TablesStep(xs, m[..], p[..], best, lens, newL);
      p[i] := m[newL - 1];
      m[newL] := i;
      best, lens := if newL > best then newL else best, lens + [newL];
    }
  }

  lemma TailsInArray(xs: seq<BlockTx>, m: seq<int>, p: seq<int>, best: nat, lens: seq<nat>)
    requires Tables(xs, m, p, best, lens)
    ensures forall l {:trigger m[l]} :: 1 <= l <= best ==> 0 <= m[l] < |xs|
    ensures forall a, b {:trigger m[a], m[b]} :: 1 <= a <= b <= best ==> xs[m[a]].rate <= xs[m[b]].rate
  {
  }

  /** A longest subsequence in rate order, and the positions it takes. */
  method FindLongest(xs: seq<BlockTx>) returns (lis: array<BlockTx>, ghost idx: seq<nat>)
    ensures Longest(xs, idx) && lis.Length == |idx|
    ensures fresh(lis) && forall j {:trigger lis[j]} :: 0 <= j < |idx| ==> lis[j] == xs[idx[j]]
  {
    var p, m := new int[|xs|], new int[|xs| + 1];
    var best: nat, lens := FillTables(xs, m, p);
    forall other | Ordered(xs, other) ensures |other| <= best {
      NoneIsLonger(xs, m[..], p[..], best, lens, other);
    }
    lis, idx := Reconstruct(xs, m, p, best, lens);
  }

  /** Follows the links back from the end of the longest subsequence found. */
  method Reconstruct(xs: seq<BlockTx>, m: array<int>, p: array<int>, best: nat, ghost lens: seq<nat>)
    returns (lis: array<BlockTx>, ghost idx: seq<nat>)
    requires Tables(xs, m[..], p[..], best, lens) && |lens| == |xs|
    ensures Ordered(xs, idx) && |idx| == best && lis.Length == best
    ensures fresh(lis) && forall j {:trigger lis[j]} :: 0 <= j < best ==> lis[j] == xs[idx[j]]
  {
    lis := new BlockTx[best](_ => BlockTx(0, 0.0));
    idx := [];
    ghost var links := p[..];
    var k, j := m[best], best - 1;
    if best > 0 {
      assert m[..][best] == m[best];
    }
    while j >= 0
      invariant -1 <= j < best && |idx| == best - 1 - j
      invariant p[..] == links
      invariant j >= 0 ==> Follows(xs, lens, idx, k, j)
      invariant Ordered(xs, idx)
      invariant forall l {:trigger lis[l]} :: j < l < best ==> lis[l] == xs[idx[l - 1 - j]]
    {
      lis[j] := xs[k];
      FollowsStep(xs, links, lens, idx, k, j);
      idx := [k] + idx;
      k := p[k];
      j := j - 1;
    }
  }

  /** The element `k` at place `j` can precede the subsequence `idx`. */
  ghost predicate Follows(xs: seq<BlockTx>, lens: seq<nat>, idx: seq<nat>, k: int, j: int) {
    && 0 <= k < |xs| && k < |lens| && lens[k] == j + 1
    && (idx != [] ==> idx[0] < |xs| && k < idx[0] && xs[k].rate <= xs[idx[0]].rate)
  }

  lemma FollowsStep(xs: seq<BlockTx>, p: seq<int>, lens: seq<nat>, idx: seq<nat>, k: int, j: int)
    requires |lens| == |xs| == |p| && Links(xs, p, lens) && Ordered(xs, idx) && Follows(xs, lens, idx, k, j) && j >= 0
    ensures Ordered(xs, [k] + idx)
    ensures j > 0 ==> Follows(xs, lens, [k] + idx, p[k], j - 1)
  {
    var more := [k] + idx;
    forall a, b | 0 <= a < b < |more| ensures more[a] < more[b] && xs[more[a]].rate <= xs[more[b]].rate {
      if a > 0 {
        assert idx[a-1] < idx[b-1];
      } else if b > 1 {
        assert idx[0] < idx[b-1];
      }
    }
  }

  // -------------------------------------------------------- flagging outsiders

  /** The block from its end to its start, without the coinbase: blocks are ordered by
      falling rate, so this is by rising rate. */
  function Rising(transactions: seq<BlockTx>): (xs: seq<BlockTx>)
    ensures |xs| == if transactions == [] then 0 else |transactions| - 1
    ensures forall i :: 0 <= i < |xs| ==> xs[i] == transactions[|transactions| - 1 - i]
  {
    if |transactions| <= 1 then [] else [transactions[|transactions|-1]] + Rising(transactions[..|transactions|-1])
  }

  ghost function IdsAt(xs: seq<BlockTx>, idx: seq<nat>): set<TxId>
    requires forall j {:trigger idx[j]} :: 0 <= j < |idx| ==> idx[j] < |xs|
  {
    set j | 0 <= j < |idx| :: xs[idx[j]].txid
  }

  /** The rate of the last transaction before `i` that is in order; at first, that of the
      first transaction. */
  ghost function LastRate(xs: seq<BlockTx>, inOrder: set<TxId>, i: nat): real
    requires i <= |xs| && |xs| > 0
  {
    if i == 0 then xs[0].rate else if xs[i-1].txid in inOrder then xs[i-1].rate else LastRate(xs, inOrder, i - 1)
  }

  predicate Apart(a: real, b: real) {
    a - b >= 0.1 || b - a >= 0.1
  }

  /** Paid clearly less than what comes before it: it was moved up the block. */
  ghost predicate TooLow(xs: seq<BlockTx>, inOrder: set<TxId>, i: nat)
    requires i < |xs|
  {
    xs[i].txid !in inOrder && xs[i].rate + 0.1 <= LastRate(xs, inOrder, i)
  }

  /** Paid clearly more than what comes before it, yet is not in order: it was moved down. */
  ghost predicate TooHigh(xs: seq<BlockTx>, inOrder: set<TxId>, i: nat)
    requires i < |xs|
  {
    xs[i].txid !in inOrder && xs[i].rate >= LastRate(xs, inOrder, i) + 0.1
  }

  /** The ids so flagged among the first `n`, in order. */
  ghost function Lows(xs: seq<BlockTx>, inOrder: set<TxId>, n: nat): seq<TxId>
    requires n <= |xs|
  {
    if n == 0 then [] else Lows(xs, inOrder, n - 1) + if TooLow(xs, inOrder, n - 1) then [xs[n-1].txid] else []
  }

  ghost function Highs(xs: seq<BlockTx>, inOrder: set<TxId>, n: nat): seq<TxId>
    requires n <= |xs|
  {
    if n == 0 then [] else Highs(xs, inOrder, n - 1) + if TooHigh(xs, inOrder, n - 1) then [xs[n-1].txid] else []
  }

  ghost predicate DistinctIds(xs: seq<BlockTx>) {
    forall i, j {:trigger xs[i], xs[j]} :: 0 <= i < j < |xs| ==> xs[i].txid != xs[j].txid
  }

  /** `rate` is that of the last one in order before `i`, or of the very first where there is
      none. */
  ghost predicate PrecededBy(xs: seq<BlockTx>, inOrder: set<TxId>, i: nat, rate: real)
    requires i < |xs|
  {
    || (rate == xs[0].rate && forall j {:trigger xs[j]} :: 0 <= j < i ==> xs[j].txid !in inOrder)
    || exists j: nat {:trigger LastBefore(xs, inOrder, i, j)} :: LastBefore(xs, inOrder, i, j) && rate == xs[j].rate
  }

  ghost predicate LastBefore(xs: seq<BlockTx>, inOrder: set<TxId>, i: nat, j: nat)
    requires i <= |xs|
  {
    && j < i && xs[j].txid in inOrder
    && forall m {:trigger xs[m]} :: j < m < i ==> xs[m].txid !in inOrder
  }

  /** It is out of order and pays at least 0.1 less than the last one in order before it. */
  ghost predicate PaysLess(xs: seq<BlockTx>, inOrder: set<TxId>, i: nat) {
    && i < |xs| && xs[i].txid !in inOrder
    && exists rate {:trigger PrecededBy(xs, inOrder, i, rate)} ::
         PrecededBy(xs, inOrder, i, rate) && xs[i].rate <= rate - 0.1
  }

  /** It is out of order and pays at least 0.1 more. */
  ghost predicate PaysMore(xs: seq<BlockTx>, inOrder: set<TxId>, i: nat) {
    && i < |xs| && xs[i].txid !in inOrder
    && exists rate {:trigger PrecededBy(xs, inOrder, i, rate)} ::
         PrecededBy(xs, inOrder, i, rate) && xs[i].rate >= rate + 0.1
  }

  /** Exactly those are flagged. */
  ghost predicate FlagsAre(
    xs: seq<BlockTx>, inOrder: set<TxId>, prioritized: seq<TxId>, deprioritized: seq<TxId>) {
    && (forall id {:trigger id in prioritized} :: id in prioritized <==>
          exists i: nat {:trigger PaysLess(xs, inOrder, i)} :: PaysLess(xs, inOrder, i) && xs[i].txid == id)
    && (forall id {:trigger id in deprioritized} :: id in deprioritized <==>
          exists i: nat {:trigger PaysMore(xs, inOrder, i)} :: PaysMore(xs, inOrder, i) && xs[i].txid == id)
  }

  lemma {:induction false} LastRatePrecedes(xs: seq<BlockTx>, inOrder: set<TxId>, i: nat)
    requires i < |xs|
    ensures forall rate :: PrecededBy(xs, inOrder, i, rate) <==> rate == LastRate(xs, inOrder, i)
  {
    if i > 0 {
      LastRatePrecedes(xs, inOrder, i - 1);
      var rate := LastRate(xs, inOrder, i);
      if xs[i-1].txid in inOrder {
        assert LastBefore(xs, inOrder, i, i - 1);
        forall j: nat ensures LastBefore(xs, inOrder, i, j) ==> j == i - 1 {
        }
      } else {
        forall j: nat ensures LastBefore(xs, inOrder, i, j) <==> LastBefore(xs, inOrder, i - 1, j) {
          assert j == i - 1 ==> xs[j].txid !in inOrder;
        }
        forall r ensures PrecededBy(xs, inOrder, i, r) <==> PrecededBy(xs, inOrder, i - 1, r) {
          SamePreceded(xs, inOrder, i, r);
        }
      }
    }
  }

  lemma SamePreceded(xs: seq<BlockTx>, inOrder: set<TxId>, i: nat, rate: real)
    requires 0 < i < |xs| && xs[i-1].txid !in inOrder
    requires forall j: nat {:trigger LastBefore(xs, inOrder, i, j)} {:trigger LastBefore(xs, inOrder, i - 1, j)} ::
      LastBefore(xs, inOrder, i, j) <==> LastBefore(xs, inOrder, i - 1, j)
    ensures PrecededBy(xs, inOrder, i, rate) <==> PrecededBy(xs, inOrder, i - 1, rate)
  {
    assert (forall j {:trigger xs[j]} :: 0 <= j < i ==> xs[j].txid !in inOrder) <==>
      (forall j {:trigger xs[j]} :: 0 <= j < i - 1 ==> xs[j].txid !in inOrder);
  }

  lemma FlagsFollow(xs: seq<BlockTx>, inOrder: set<TxId>)
    ensures FlagsAre(xs, inOrder, Lows(xs, inOrder, |xs|), Highs(xs, inOrder, |xs|))
  {
    forall i | 0 <= i < |xs|
      ensures TooLow(xs, inOrder, i) <==> PaysLess(xs, inOrder, i)
      ensures TooHigh(xs, inOrder, i) <==> PaysMore(xs, inOrder, i)
    {
      LastRatePrecedes(xs, inOrder, i);
      assert PrecededBy(xs, inOrder, i, LastRate(xs, inOrder, i));
    }
    forall id
      ensures id in Lows(xs, inOrder, |xs|) <==>
        exists i: nat {:trigger PaysLess(xs, inOrder, i)} :: PaysLess(xs, inOrder, i) && xs[i].txid == id
      ensures id in Highs(xs, inOrder, |xs|) <==>
        exists i: nat {:trigger PaysMore(xs, inOrder, i)} :: PaysMore(xs, inOrder, i) && xs[i].txid == id
    {
      InOrderIsNotFlagged(xs, inOrder, |xs|, id);
    }
  }

  method IdentifyPrioritized(transactions: seq<BlockTx>)
    returns (prioritized: seq<TxId>, deprioritized: seq<TxId>, ghost idx: seq<nat>)
    ensures Longest(Rising(transactions), idx)
    ensures |transactions| < 3 ==> prioritized == [] && deprioritized == []
    ensures |transactions| >= 3 ==>
      var xs := Rising(transactions);
      prioritized == Lows(xs, IdsAt(xs, idx), |xs|) && deprioritized == Highs(xs, IdsAt(xs, idx), |xs|)
    ensures |transactions| >= 3 ==> FlagsAre(Rising(transactions), IdsAt(Rising(transactions), idx), prioritized,
      deprioritized)
  {
    var xs := Rising(transactions);
    prioritized, deprioritized := [], [];
    var lis;
    lis, idx := FindLongest(xs);
    if |xs| < 2 {
      return;
    }
    var lisIds := CollectIds(lis);
    SameIds(xs, idx, lis[..]);
    var lastRate := xs[0].rate;
    for i := 0 to |xs|
      invariant lastRate == LastRate(xs, lisIds, i)
      invariant prioritized == Lows(xs, lisIds, i) && deprioritized == Highs(xs, lisIds, i)
    {
      var tx := xs[i];
      if tx.txid in lisIds {
        lastRate := tx.rate;
      } else if Apart(tx.rate, lastRate) {
        if tx.rate <= lastRate {
          prioritized := prioritized + [tx.txid];
        } else {
          deprioritized := deprioritized + [tx.txid];
        }
      }
    }
    FlagsFollow(xs, lisIds);
  }

  method CollectIds(lis: array<BlockTx>) returns (ids: set<TxId>)
    ensures ids == IdsIn(lis[..])
  {
    ids := {};
    for j := 0 to lis.Length
      invariant ids == IdsIn(lis[..j])
    {
      assert lis[..j+1] == lis[..j] + [lis[j]];
      IdsInMore(lis[..j], lis[j]);
      ids := ids + {lis[j].txid};
    }
    assert lis[..] == lis[..lis.Length];
  }

  ghost function IdsIn(lis: seq<BlockTx>): set<TxId> {
    set j | 0 <= j < |lis| :: lis[j].txid
  }

  lemma IdsInMore(lis: seq<BlockTx>, tx: BlockTx)
    ensures IdsIn(lis + [tx]) == IdsIn(lis) + {tx.txid}
  {
    var more := lis + [tx];
    assert more[|lis|] == tx;
    forall x | x in IdsIn(lis) ensures x in IdsIn(more) {
      var j :| 0 <= j < |lis| && lis[j].txid == x;
      assert more[j] == lis[j];
    }
  }

  lemma SameIds(xs: seq<BlockTx>, idx: seq<nat>, lis: seq<BlockTx>)
    requires Ordered(xs, idx) && |lis| == |idx| && forall j {:trigger lis[j]} :: 0 <= j < |idx| ==> lis[j] == xs[idx[j]]
    ensures IdsIn(lis) == IdsAt(xs, idx)
  {
    forall x | x in IdsAt(xs, idx) ensures x in IdsIn(lis) {
      var j :| 0 <= j < |idx| && xs[idx[j]].txid == x;
      assert lis[j].txid == x;
    }
  }

  /** Nothing in order is ever flagged, and what is flagged is so for its rate. */
  lemma {:induction false} InOrderIsNotFlagged(xs: seq<BlockTx>, inOrder: set<TxId>, n: nat, id: TxId)
    requires n <= |xs|
    ensures id in Lows(xs, inOrder, n) <==>
      exists i {:trigger xs[i]} :: 0 <= i < n && xs[i].txid == id && TooLow(xs, inOrder, i)
    ensures id in Highs(xs, inOrder, n) <==>
      exists i {:trigger xs[i]} :: 0 <= i < n && xs[i].txid == id && TooHigh(xs, inOrder, i)
    ensures id in inOrder ==> id !in Lows(xs, inOrder, n) && id !in Highs(xs, inOrder, n)
  {
    if n > 0 {
      InOrderIsNotFlagged(xs, inOrder, n - 1, id);
      assert xs[n-1] == xs[n-1];
    }
  }

  /** The positions of `idx` before `i`. */
  ghost function Before(idx: seq<nat>, i: nat): (a: nat)
    ensures a <= |idx|
  {
    if idx == [] then 0 else if idx[|idx|-1] < i then |idx| else Before(idx[..|idx|-1], i)
  }

  lemma {:induction false} BeforeSplits(xs: seq<BlockTx>, idx: seq<nat>, i: nat)
    requires Ordered(xs, idx)
    ensures forall j {:trigger idx[j]} :: 0 <= j < |idx| ==> (j < Before(idx, i) <==> idx[j] < i)
  {
    if idx != [] {
      var init := idx[..|idx|-1];
      if idx[|idx|-1] >= i {
        BeforeSplits(xs, init, i);
        assert forall j :: 0 <= j < |init| ==> init[j] == idx[j];
      }
    }
  }

  /** The last rate is that of the last position of the subsequence before `i`. */
  lemma {:induction false} LastRateIs(xs: seq<BlockTx>, idx: seq<nat>, i: nat)
    requires Ordered(xs, idx) && DistinctIds(xs) && |xs| > 0 && i <= |xs|
    ensures var a := Before(idx, i);
      LastRate(xs, IdsAt(xs, idx), i) == if a == 0 then xs[0].rate else xs[idx[a-1]].rate
  {
    var ids := IdsAt(xs, idx);
    BeforeSplits(xs, idx, i);
    if i > 0 {
      BeforeSplits(xs, idx, i - 1);
      LastRateIs(xs, idx, i - 1);
      if xs[i-1].txid in ids {
        var j :| 0 <= j < |idx| && xs[idx[j]].txid == xs[i-1].txid;
        assert idx[j] == i - 1;
        assert j < Before(idx, i) && !(j < Before(idx, i - 1));
        if j + 1 < |idx| {
          assert idx[j] < idx[j+1];
        }
      } else {
        forall j | 0 <= j < |idx| ensures idx[j] != i - 1 {
          assert xs[idx[j]].txid in ids;
        }
        SameBefore(idx, i);
      }
    }
  }

  lemma {:induction false} SameBefore(idx: seq<nat>, i: nat)
    requires i > 0 && forall j {:trigger idx[j]} :: 0 <= j < |idx| ==> idx[j] != i - 1
    ensures Before(idx, i) == Before(idx, i - 1)
  {
    if idx != [] {
      SameBefore(idx[..|idx|-1], i);
    }
  }

  /** Whatever is flagged as moved down has, further up the block, a transaction in order
      that pays less: otherwise it would itself have been in order. */
  lemma HighIsOvertaken(xs: seq<BlockTx>, idx: seq<nat>, i: nat) returns (m: nat)
    requires Longest(xs, idx) && DistinctIds(xs) && i < |xs|
    requires TooHigh(xs, IdsAt(xs, idx), i)
    ensures m < |idx| && idx[m] > i && xs[idx[m]].rate < xs[i].rate
  {
    var a := Before(idx, i);
    BeforeSplits(xs, idx, i);
    LastRateIs(xs, idx, i);
    forall j | 0 <= j < |idx| ensures idx[j] != i {
      assert xs[idx[j]].txid in IdsAt(xs, idx);
    }
    if a == |idx| || xs[i].rate <= xs[idx[a]].rate {
      InsertedIsOrdered(xs, idx, i, a);
      assert false;
    }
    m := a;
  }

  lemma InsertedIsOrdered(xs: seq<BlockTx>, idx: seq<nat>, i: nat, a: nat)
    requires Ordered(xs, idx) && i < |xs| && a <= |idx|
    requires a > 0 ==> idx[a-1] < i && xs[idx[a-1]].rate <= xs[i].rate
    requires a < |idx| ==> i < idx[a] && xs[i].rate <= xs[idx[a]].rate
    ensures Ordered(xs, idx[..a] + [i] + idx[a..])
  {
    var more := idx[..a] + [i] + idx[a..];
    forall j | 0 <= j < |more| ensures more[j] < |xs| {
      InsertedAt(idx, i, a, j);
    }
    forall j, k | 0 <= j < k < |more|
      ensures more[j] < more[k] && xs[more[j]].rate <= xs[more[k]].rate
    {
      InsertedAt(idx, i, a, j);
      InsertedAt(idx, i, a, k);
      if j == a {
        AfterInserted(xs, idx, i, a, k - 1);
      } else if k == a {
        BeforeInserted(xs, idx, i, a, j);
      }
    }
  }

  lemma InsertedAt(idx: seq<nat>, i: nat, a: nat, j: nat)
    requires a <= |idx| && j <= |idx|
    ensures (idx[..a] + [i] + idx[a..])[j] == if j < a then idx[j] else if j == a then i else idx[j-1]
  {
  }

  lemma AfterInserted(xs: seq<BlockTx>, idx: seq<nat>, i: nat, a: nat, k: nat)
    requires Ordered(xs, idx) && i < |xs| && a <= k < |idx| && i < idx[a] && xs[i].rate <= xs[idx[a]].rate
    ensures i < idx[k] && xs[i].rate <= xs[idx[k]].rate
  {
    if a < k {
      assert idx[a] < idx[k];
    }
  }

  lemma BeforeInserted(xs: seq<BlockTx>, idx: seq<nat>, i: nat, a: nat, j: nat)
    requires Ordered(xs, idx) && i < |xs| && j < a <= |idx| && idx[a-1] < i && xs[idx[a-1]].rate <= xs[i].rate
    ensures idx[j] < i && xs[idx[j]].rate <= xs[i].rate
  {
    if j < a - 1 {
      assert idx[j] < idx[a-1];
    }
  }

  /** Whatever is flagged as moved up has, further down the block, a transaction that pays
      at least 0.1 more. */
  lemma LowIsAbove(xs: seq<BlockTx>, idx: seq<nat>, i: nat) returns (j: nat)
    requires Ordered(xs, idx) && DistinctIds(xs) && i < |xs|
    requires TooLow(xs, IdsAt(xs, idx), i)
    ensures j < i && xs[j].rate >= xs[i].rate + 0.1
  {
    var a := Before(idx, i);
    BeforeSplits(xs, idx, i);
    LastRateIs(xs, idx, i);
    j := if a == 0 then 0 else idx[a-1];
  }
}
