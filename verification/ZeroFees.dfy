/** A mempool on which the worker reports a higher rate for a transaction than for the one it
    spends from: the latter pays nothing, and a rate of zero counts as none. */
module ZeroFees {
  import opened Basics
  import opened Ancestry
  import opened Packages
  import opened RateOrder
  import opened Weights
  import opened BlockRules
  import opened SelectionWorker

  /** A filler, a transaction that pays nothing, and a large one that spends from it. */
  const FILLER := CompactTx(2000, 2000, 0, [], 4.0, 4.0)
  const FREE := CompactTx(0, 400, 0, [], 0.0, 0.0)
  const SPENDER := CompactTx(1000, 14000, 0, [2], 0.25, 0.25)

  const LIMIT := 20000

  function ThreeTxs(): Mempool {
    map[1 := FILLER, 2 := FREE, 3 := SPENDER]
  }

  ghost function Three(): Context {
    ContextOf(ThreeTxs())
  }

  lemma ThreeAre()
    ensures Three().txs.Keys == {1, 2, 3}
    ensures Three().txs[1] == TxOf(FILLER, 1) && Three().txs[2] == TxOf(FREE, 2) && Three().txs[3] == TxOf(SPENDER, 3)
    ensures WellFormed(Three()) && FeesSane(ThreeTxs())
  {
  }

  lemma AncestorsAre()
    ensures Ancestors(Three().txs, 1) == {} && Ancestors(Three().txs, 2) == {} && Ancestors(Three().txs, 3) == {2}
  {
    var txs := Three().txs;
    ThreeAre();
    assert Parents(txs, 1) == {} && Parents(txs, 2) == {};
    assert 2 in SPENDER.inputs && Parents(txs, 3) == {2};
    forall a | a in Ancestors(txs, 1) ensures false {
      var p := AncestorThroughParent(txs, a, 1);
    }
    forall a | a in Ancestors(txs, 2) ensures false {
      var p := AncestorThroughParent(txs, a, 2);
    }
    ParentIsAncestor(txs, 2, 3);
    forall a | a in Ancestors(txs, 3) ensures a == 2 {
      var p := AncestorThroughParent(txs, a, 3);
    }
  }

  lemma TotalOfFree(s: set<TxId>)
    requires s <= {2}
    ensures s <= Three().txs.Keys && TotalOf(Three().txs, s).fee == 0 && TotalOf(Three().txs, s).sigops == 0
    ensures TotalOf(Three().txs, s).size == if 2 in s then 400 else 0
  {
    ThreeAre();
    if 2 in s {
      assert s == {2} && s - {2} == {};
      TotalWithout(Three().txs, s, 2);
    } else {
      assert s == {};
    }
  }

  /** What the package of `t` weighs and pays. */
  lemma TotalsAre(used: set<TxId>, t: TxId)
    requires t in {1, 2, 3}
    ensures t in Three().txs && PackageTotals(Three(), used, t).sigops == 0
    ensures PackageTotals(Three(), used, t).fee == if t == 1 then 2000 else if t == 2 then 0 else 1000
    ensures PackageTotals(Three(), used, t).size ==
      if t == 1 then 2000 else if t == 2 then 400 else if 2 in used then 14000 else 14400
  {
    ThreeAre();
    AncestorsAre();
    TotalOfFree(Remaining(Three(), used, t));
  }

  lemma ScoresAre(t: TxId)
    requires t in {1, 2, 3}
    ensures t in Three().txs && (t == 1 ==> Score(Three(), {}, t) == 4.0) && (t != 1 ==> Score(Three(), {}, t) < 4.0)
  {
    TotalsAre({}, t);
    ThreeAre();
    var x := PackageTotals(Three(), {}, t);
    RateOf(x.fee, x.size, x.sigops);
  }

  lemma RateOf(fee: int, size: int, sigops: int)
    ensures fee == 2000 && size == 2000 ==> FeeRate(4.0)(Totals(fee, size, sigops)) == 4.0
    ensures fee == 0 && size == 400 ==> FeeRate(4.0)(Totals(fee, size, sigops)) == 0.0
    ensures fee == 1000 && size == 14400 ==> FeeRate(4.0)(Totals(fee, size, sigops)) < 4.0
  {
  }

  lemma WeightsAre(s: set<TxId>)
    requires s <= {1, 2, 3}
    ensures s <= Three().txs.Keys
    ensures 1 in s && 3 in s ==> WeightOf(Three().txs, s) >= 16000
    ensures s <= {1} ==> WeightOf(Three().txs, s) <= 2000
  {
    ThreeAre();
    var txs := Three().txs;
    if 1 in s {
      WeightWithout(txs, s, 1);
      if 3 in s {
        WeightWithout(txs, s - {1}, 3);
      }
      assert s <= {1} ==> s - {1} == {};
    } else {
      assert s <= {1} ==> s == {};
    }
  }

  /** Beside the filler alone, the filler and the free one fit. */
  lemma SmallOnesFit(packages: seq<Package>, t: TxId)
    requires Used(packages) <= {1} && t in {1, 2}
    ensures BlockFits(Three(), [], packages, LIMIT, t)
  {
    assert [] + packages == packages;
    WeightsAre(Used(packages));
    TotalsAre(Used(packages), t);
  }

  lemma UsedOfPrefix(packages: seq<Package>, j: nat)
    requires j <= |packages|
    ensures Used(packages[..j]) <= Used(packages)
  {
    forall t | t in Used(packages[..j]) ensures t in Used(packages) {
      var k :| 0 <= k < |packages[..j]| && t in packages[..j][k].cluster;
      assert packages[k] == packages[..j][k];
    }
  }

  /** Nobody is too big for a block, so everybody is placed. */
  lemma AllPlaced(run: seq<Package>, blocks: seq<seq<TxId>>)
    requires NobodyForgotten(Three(), run, blocks, LIMIT) && Used(run) <= {1, 2, 3}
    ensures Used(run) == {1, 2, 3}
  {
    ThreeAre();
    forall t | t in {1, 2, 3} ensures t in Used(run) {
      TotalsAre(Used(run), t);
      assert !TooBig(Three(), run, LIMIT, t);
    }
  }

  lemma BestIsFiller(root: TxId)
    requires root in Three().txs && Score(Three(), {}, 1) <= Score(Three(), {}, root)
    ensures root == 1
  {
    ThreeAre();
    ScoresAre(root);
    ScoresAre(1);
  }

  /** The filler goes first: it has the best score of all. */
  lemma FillerIsFirst(packages: seq<Package>)
    requires BlockWithin(Three(), packages, LIMIT) && WellPicked(Three(), [], packages, LIMIT, true) && packages != []
    requires WellFormed(Three()) && Follows(Three(), [], packages[0])
    ensures 1 in Used(packages)
  {
    var used := Used([]);
    ThreeAre();
    AncestorsAre();
    assert used == {} && packages[..0] == [] && [] + packages[..0] == [];
    assert BestFresh(Three(), [], packages[..0], LIMIT, true, packages[0].root);
    SmallOnesFit([], 1);
    forall j: nat ensures !FailedAt(Three(), [], [], LIMIT, 1, j) {
      var none: seq<Package> := [];
      assert j == 0 ==> none[..j] == none;
    }
    assert Fresh(Three(), used, 1);
    assert Score(Three(), {}, 1) <= Score(Three(), {}, packages[0].root);
    BestIsFiller(packages[0].root);
    assert packages[0].root in packages[0].cluster;
  }

  /** The filler leaves no room for the large one, but the free one fits. */
  lemma FirstBlockIs(packages: seq<Package>)
    requires BlockWithin(Three(), packages, LIMIT) && ClosedFull(Three(), [], packages, LIMIT)
    requires Used(packages) <= {1, 2, 3} && 1 in Used(packages)
    ensures Used(packages) == {1, 2}
  {
    ThreeAre();
    WeightsAre(Used(packages));
    assert 3 !in Used(packages);
    if 2 !in Used(packages) {
      assert [] + packages == packages;
      assert FailedHere(Three(), [], packages, LIMIT, 2);
      var j: nat :| FailedAt(Three(), [], packages, LIMIT, 2, j);
      UsedOfPrefix(packages, j);
      SmallOnesFit(packages[..j], 2);
    }
    assert 2 in Used(packages);
  }

  lemma FirstOfAll(parts: seq<seq<Package>>)
    requires parts != [] && parts[0] != []
    ensures Flat(parts) != [] && Flat(parts)[0] == parts[0][0] && |parts[0]| <= |Flat(parts)| &&
      Flat(parts)[..|parts[0]|] == parts[0]
  {
    FlatPrefix(parts, 1);
    var first := parts[..1];
    assert first[..0] == [] && Flat(first) == Flat([]) + parts[0] && Flat([]) == [];
    assert Flat(first) == parts[0];
    assert Flat(parts)[0] == Flat(parts)[..|parts[0]|][0];
  }

  lemma FirstPartIs(run: seq<Package>, parts: seq<seq<Package>>, blocks: seq<seq<TxId>>)
    requires WellFormed(Three()) && IsRun(Three(), run)
    requires BlocksOf(Three(), run, parts, blocks, LIMIT) && Used(run) == {1, 2, 3}
    ensures parts != [] && parts[0] != [] && Used(parts[0]) == {1, 2}
  {
    assert Used([]) == {};
    assert parts != [];
    assert parts[..0] == [] && FullBlock(Three(), Flat(parts[..0]), parts[0], LIMIT);
    FirstPartHolds(run, parts);
  }

  lemma FirstFollows(run: seq<Package>, parts: seq<seq<Package>>)
    requires WellFormed(Three()) && IsRun(Three(), run) && run == Flat(parts) && parts != [] && parts[0] != []
    ensures Follows(Three(), [], parts[0][0])
  {
    FirstOfAll(parts);
    assert FollowsAt(Three(), run, 0) && run[..0] == [];
  }

  lemma FirstPartHolds(run: seq<Package>, parts: seq<seq<Package>>)
    requires WellFormed(Three()) && IsRun(Three(), run) && run == Flat(parts) && Used(run) == {1, 2, 3}
    requires parts != [] && FullBlock(Three(), [], parts[0], LIMIT)
    ensures Used(parts[0]) == {1, 2}
  {
    FirstFollows(run, parts);
    FillerIsFirst(parts[0]);
    forall t | t in Used(parts[0]) ensures t in {1, 2, 3} {
      UsedFlat(parts, 0, t);
    }
    FirstBlockIs(parts[0]);
  }

  /** The free one and the large one are in different packages. */
  lemma Apart(run: seq<Package>, parts: seq<seq<Package>>, blocks: seq<seq<TxId>>, i: nat)
    requires BlocksOf(Three(), run, parts, blocks, LIMIT) && Used(run) == {1, 2, 3}
    requires WellFormed(Three()) && IsRun(Three(), run)
    requires i < |run| && 2 in run[i].cluster
    ensures 3 !in run[i].cluster
  {
    FirstPartIs(run, parts, blocks);
    var first := parts[0];
    FirstOfAll(parts);
    var k :| 0 <= k < |first| && 2 in first[k].cluster;
    assert run[k] == first[k] && 2 in Members(run[k]) && 2 in Members(run[i]);
    if k < i {
      PackagesDisjoint(Three(), run, k, i);
    } else if i < k {
      PackagesDisjoint(Three(), run, i, k);
    }
    assert i == k && 3 !in Used(first) && first[k].cluster == run[i].cluster;
  }

  /** The three are a mempool the worker accepts, but the free one does not keep to itself. */
  lemma ThreeAreAccepted()
    ensures Plausible(ThreeTxs()) && Acyclic(ThreeTxs()) && !FreeAlike(Three())
  {
    ThreeAre();
    AncestorsAre();
    var rank: map<TxId, nat> := map[1 := 0, 2 := 0, 3 := 1];
    forall t, p | t in Three().txs && p in Parents(Three().txs, t) ensures rank[p] < rank[t] {
      ParentIsAncestor(Three().txs, p, t);
    }
    assert Ranks(Three().txs, rank);
    assert PaysBeside(Three(), 2, 3, 3);
  }

  /** Whatever projection the worker makes of the three, the large one is reported at a
      higher rate than the free one it spends from. */
  lemma ZeroRatesDoNotCap(blocks: seq<seq<TxId>>, rates: map<TxId, real>, clusters: map<TxId, seq<TxId>>)
    requires IsProjection(ThreeTxs(), LIMIT, blocks, rates, clusters)
    ensures Plausible(ThreeTxs()) && Acyclic(ThreeTxs()) && FeesSane(ThreeTxs())
    ensures 2 in Ancestors(ContextOf(ThreeTxs()).txs, 3) && !FreeAlike(ContextOf(ThreeTxs()))
    ensures {2, 3} <= Elements(Concat(blocks))
    ensures ReportedRate(ThreeTxs(), rates, 3) > 0.0 == ReportedRate(ThreeTxs(), rates, 2)
  {
    ThreeAreAccepted();
    var run: seq<Package>, parts: seq<seq<Package>> :| Projects(ThreeTxs(), LIMIT, blocks, rates, clusters, run, parts);
    ThreeAre();
    AncestorsAre();
    UsedInPool(Three(), run);
    AllPlaced(run, blocks);
    PlacedOnce(Three(), run, parts, blocks, LIMIT);
    var i :| 0 <= i < |run| && 2 in run[i].cluster;
    var j :| 0 <= j < |run| && 3 in run[j].cluster;
    Apart(run, parts, blocks, i);
    RatesOfTwo(run, i, j);
    ReportedIsRate(ThreeTxs(), run, rates, i, 2);
    ReportedIsRate(ThreeTxs(), run, rates, j, 3);
  }

  lemma RatesOfTwo(run: seq<Package>, i: nat, j: nat)
    requires WellFormed(Three()) && IsRun(Three(), run) && i < |run| && j < |run|
    requires 2 in run[i].cluster && 3 !in run[i].cluster && 3 in run[j].cluster
    ensures run[i].rate == 0.0 < run[j].rate
  {
    ThreeAre();
    AncestorsAre();
    SaneIsNotNegative(ThreeTxs());
    assert 2 in Members(run[i]) && 3 in Members(run[j]) && run[i].root in Members(run[i]) by {
      assert FollowsAt(Three(), run, i);
    }
    MembersAboveRoot(Three(), run, i, 2);
    assert run[i].root == 2 && Members(run[i]) <= {2} by {
      assert FollowsAt(Three(), run, i);
    }
    ZeroRateIsFree(Three(), run, i);
    ZeroRateIsFree(Three(), run, j);
    RatesNotNegative(Three(), run);
  }
}
