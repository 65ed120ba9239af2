/** The block template builder: greedy selection of ancestor packages by fee rate. */
module MiniMiner {
  import opened Basics
  import opened Ancestry
  import opened Packages
  import opened PackageRates
  import opened RateOrder
  import opened Weights

  datatype Candidate = Candidate(txid: TxId, fee: int, weight: nat, sigops: nat, inputs: seq<TxId>, order: nat)

  datatype Acceleration = Acceleration(txid: TxId, maxBid: int)

  /** What the template reports of a chosen transaction. Its `ancestors` list is read off a
      Map as if it were a plain object, so it is always empty. */
  datatype TemplateTx = TemplateTx(
    txid: TxId, cluster: seq<TxId>, effectiveFeePerVsize: real, ancestors: seq<TxId>)

  datatype Limits = Limits(maxBlocks: int, weight: Limit, sigops: Limit) {
    /** Packages are held to the limits only while further blocks may follow. */
    predicate Enforced() { 0 < maxBlocks - 1 }
  }

  // ------------------------------------------------------------ the candidates

  /** Sigop-adjusted virtual size, rounded up. */
  function AdjustedVsize(weight: nat, sigops: nat): nat {
    var vsize := (weight + 3) / 4;
    if vsize < 5 * sigops then 5 * sigops else vsize
  }

  /** The last bid made for `t`. */
  function FeeDelta(accelerations: seq<Acceleration>, t: TxId): int {
    if accelerations == [] then 0
    else if accelerations[|accelerations|-1].txid == t then accelerations[|accelerations|-1].maxBid
    else FeeDelta(accelerations[..|accelerations|-1], t)
  }

  function TxOf(c: Candidate, feeDelta: int): Tx {
    Tx(Totals(c.fee + feeDelta, AdjustedVsize(c.weight, c.sigops), c.sigops), c.weight, c.order, c.inputs)
  }

  predicate Plausible(candidates: seq<Candidate>) {
    && (forall i, j :: 0 <= i < j < |candidates| ==> candidates[i].txid != candidates[j].txid)
    && forall c :: c in candidates ==> c.weight > 0
  }

  function Txids(candidates: seq<Candidate>): seq<TxId> {
    seq(|candidates|, i requires 0 <= i < |candidates| => candidates[i].txid)
  }

  /** `ctx` holds one transaction per candidate, its fee raised by its last bid, scored by
      fee per virtual byte. */
  ghost predicate Describes(ctx: Context, candidates: seq<Candidate>, accelerations: seq<Acceleration>) {
    && ctx.txs.Keys == Elements(Txids(candidates)) == ctx.firstRate.Keys
    && ctx.scoring == FeeRate(1.0)
    && forall c :: c in candidates ==>
         && c.txid in ctx.txs && ctx.txs[c.txid] == TxOf(c, FeeDelta(accelerations, c.txid))
         && c.txid in ctx.firstRate && ctx.firstRate[c.txid] == ctx.scoring(ctx.txs[c.txid].own)
  }

  /** The last bid made for `t`, or nothing. */
  ghost predicate IsLastBid(accelerations: seq<Acceleration>, t: TxId, bid: int) {
    || (bid == 0 && forall a :: a in accelerations ==> a.txid != t)
    || exists k: nat :: BidAt(accelerations, t, bid, k)
  }

  ghost predicate BidAt(accelerations: seq<Acceleration>, t: TxId, bid: int, k: nat) {
    && k < |accelerations| && accelerations[k] == Acceleration(t, bid)
    && forall later {:trigger accelerations[later]} :: k < later < |accelerations| ==> accelerations[later].txid != t
  }

  lemma {:induction false} LastBidIs(accelerations: seq<Acceleration>, t: TxId)
    ensures IsLastBid(accelerations, t, FeeDelta(accelerations, t))
  {
    if accelerations != [] {
      var init, last := accelerations[..|accelerations|-1], accelerations[|accelerations|-1];
      SplitLast(accelerations);
      if last.txid == t {
        assert BidAt(accelerations, t, last.maxBid, |accelerations| - 1);
      } else {
        LastBidIs(init, t);
        var bid := FeeDelta(init, t);
        if k: nat :| BidAt(init, t, bid, k) {
          assert accelerations[k] == init[k];
          forall later | k < later < |accelerations| ensures accelerations[later].txid != t {
            assert later < |init| ==> accelerations[later] == init[later];
          }
          assert BidAt(accelerations, t, bid, k);
        }
      }
    }
  }

  /** The graph is that of the candidates: inputs, weight and order are as they came, the fee is
      raised by the last bid, and the size is the least that covers the weight and five times
      the sigops; packages are scored by fee per size, and so is what each starts from. */
  ghost predicate Shows(ctx: Context, candidates: seq<Candidate>, accelerations: seq<Acceleration>) {
    && ctx.txs.Keys == ctx.firstRate.Keys == Elements(Txids(candidates))
    && (forall c {:trigger c in candidates} :: c in candidates ==>
          c.txid in ctx.txs && c.txid in ctx.firstRate && ShowsOne(ctx, c, accelerations))
    && PerSize(ctx.scoring, 1.0)
  }

  ghost predicate ShowsOne(ctx: Context, c: Candidate, accelerations: seq<Acceleration>)
    requires c.txid in ctx.txs && c.txid in ctx.firstRate
  {
    var tx := ctx.txs[c.txid];
    && tx.inputs == c.inputs && tx.weight == c.weight && tx.order == c.order && tx.own.sigops == c.sigops
    && IsLastBid(accelerations, c.txid, tx.own.fee - c.fee)
    && tx.own.size >= 5 * c.sigops && 4 * tx.own.size >= c.weight
    && (tx.own.size == 5 * c.sigops || 4 * tx.own.size < c.weight + 4)
    && ctx.firstRate[c.txid] * tx.own.size as real == tx.own.fee as real
  }

  lemma DescribedShows(ctx: Context, candidates: seq<Candidate>, accelerations: seq<Acceleration>)
    requires Plausible(candidates) && Describes(ctx, candidates, accelerations)
    ensures Shows(ctx, candidates, accelerations)
  {
    FeeRateIsPerSize(1.0);
    forall c | c in candidates
      ensures c.txid in ctx.txs && c.txid in ctx.firstRate && ShowsOne(ctx, c, accelerations)
    {
      LastBidIs(accelerations, c.txid);
      var own := ctx.txs[c.txid].own;
      assert own.size > 0;
      RateTimesSize(own.fee, own.size, own.sigops, 1.0);
    }
  }

  ghost predicate LoadedUpTo(
    txs: Pool, rates: map<TxId, real>, candidates: seq<Candidate>, n: nat, accelerations: seq<Acceleration>)
    requires n <= |candidates|
  {
    && txs.Keys == rates.Keys == Elements(Txids(candidates[..n]))
    && forall i {:trigger candidates[i]} :: 0 <= i < n ==>
         var c := candidates[i];
         && c.txid in txs && txs[c.txid] == TxOf(c, FeeDelta(accelerations, c.txid))
         && c.txid in rates && rates[c.txid] == FeeRate(1.0)(txs[c.txid].own)
  }

  /** Sets the candidates up, then raises the fees that bids were made for. */
  method LoadCandidates(candidates: seq<Candidate>, accelerations: seq<Acceleration>)
    returns (ctx: Context, mempoolArray: seq<TxId>)
    requires Plausible(candidates)
    ensures Describes(ctx, candidates, accelerations)
    ensures Shows(ctx, candidates, accelerations)
    ensures mempoolArray == Txids(candidates)
  {
    var txs, rates;
    txs, rates, mempoolArray := SetUp(candidates);
    txs, rates := RaiseFees(candidates, accelerations, txs, rates);
    PrefixWhole(candidates);
    ctx := Context(txs, FeeRate(1.0), rates);
    DescribedShows(ctx, candidates, accelerations);
  }

  method SetUp(candidates: seq<Candidate>) returns (txs: Pool, rates: map<TxId, real>, mempoolArray: seq<TxId>)
    requires Plausible(candidates)
    ensures LoadedUpTo(txs, rates, candidates, |candidates|, []) && mempoolArray == Txids(candidates)
  {
    txs, rates, mempoolArray := map[], map[], [];
    for i := 0 to |candidates|
      invariant mempoolArray == Txids(candidates[..i])
      invariant LoadedUpTo(txs, rates, candidates, i, [])
    {
      var c := candidates[i];
      OneMoreLoaded(txs, rates, candidates, i);
      txs, rates := txs[c.txid := TxOf(c, 0)], rates[c.txid := FeeRate(1.0)(TxOf(c, 0).own)];
      mempoolArray := mempoolArray + [c.txid];
    }
    PrefixWhole(candidates);
  }

  lemma OneMoreLoaded(txs: Pool, rates: map<TxId, real>, candidates: seq<Candidate>, i: nat)
    requires Plausible(candidates) && i < |candidates| && LoadedUpTo(txs, rates, candidates, i, [])
    ensures Txids(candidates[..i+1]) == Txids(candidates[..i]) + [candidates[i].txid]
    ensures var c := candidates[i];
      LoadedUpTo(txs[c.txid := TxOf(c, 0)], rates[c.txid := FeeRate(1.0)(TxOf(c, 0).own)], candidates, i + 1, [])
  {
    TxidsMore(candidates, i);
    var c := candidates[i];
    forall n | 0 <= n < i + 1
      ensures FeeDelta([], candidates[n].txid) == 0 &&
        (n < i ==> candidates[n].txid != c.txid && candidates[n].txid in txs)
    {
    }
  }

  lemma TxidsMore(candidates: seq<Candidate>, i: nat)
    requires i < |candidates|
    ensures Txids(candidates[..i+1]) == Txids(candidates[..i]) + [candidates[i].txid]
    ensures Elements(Txids(candidates[..i+1])) == Elements(Txids(candidates[..i])) + {candidates[i].txid}
  {
    assert Txids(candidates[..i+1]) == Txids(candidates[..i]) + [candidates[i].txid];
  }

  method RaiseFees(
    candidates: seq<Candidate>, accelerations: seq<Acceleration>, base: Pool, firstRates: map<TxId, real>)
    returns (txs: Pool, rates: map<TxId, real>)
    requires Plausible(candidates) && LoadedUpTo(base, firstRates, candidates, |candidates|, [])
    ensures LoadedUpTo(txs, rates, candidates, |candidates|, accelerations)
  {
    txs, rates := base, firstRates;
    for k := 0 to |accelerations|
      invariant LoadedUpTo(txs, rates, candidates, |candidates|, accelerations[..k])
    {
      var a := accelerations[k];
      OneMoreBid(base, firstRates, txs, rates, candidates, accelerations, k);
      if a.txid in txs {
        var tx := Raised(base[a.txid], a.maxBid);
        txs, rates := txs[a.txid := tx], rates[a.txid := FeeRate(1.0)(tx.own)];
      }
    }
    PrefixWhole(accelerations);
  }

  function Raised(tx: Tx, bid: int): Tx {
    tx.(own := tx.own.(fee := tx.own.fee + bid))
  }

  lemma OneMoreBid(
    base: Pool, firstRates: map<TxId, real>, txs: Pool, rates: map<TxId, real>,
    candidates: seq<Candidate>, accelerations: seq<Acceleration>, k: nat)
    requires Plausible(candidates) && k < |accelerations|
    requires LoadedUpTo(base, firstRates, candidates, |candidates|, [])
    requires LoadedUpTo(txs, rates, candidates, |candidates|, accelerations[..k])
    ensures var a := accelerations[k];
      if a.txid in txs then
        a.txid in base &&
        LoadedUpTo(txs[a.txid := Raised(base[a.txid], a.maxBid)],
            rates[a.txid := FeeRate(1.0)(Raised(base[a.txid], a.maxBid).own)],
                   candidates, |candidates|, accelerations[..k+1])
      else LoadedUpTo(txs, rates, candidates, |candidates|, accelerations[..k+1])
  {
    var a, upto := accelerations[k], accelerations[..k+1];
    assert upto[..|upto|-1] == accelerations[..k] && upto[|upto|-1] == a;
    forall i | 0 <= i < |candidates|
      ensures FeeDelta(upto, candidates[i].txid) ==
        if candidates[i].txid == a.txid then a.maxBid else FeeDelta(accelerations[..k], candidates[i].txid)
    {
    }
  }

  lemma DescribedIsWellFormed(
    ctx: Context, candidates: seq<Candidate>, accelerations: seq<Acceleration>)
    requires Plausible(candidates) && Describes(ctx, candidates, accelerations)
    ensures WellFormed(ctx)
  {
  }

  /** The fee that counts: the candidate's own and the last bid for it. */
  function ModifiedFee(c: Candidate, accelerations: seq<Acceleration>): int {
    c.fee + FeeDelta(accelerations, c.txid)
  }

  lemma DescribedFees(ctx: Context, candidates: seq<Candidate>, accelerations: seq<Acceleration>)
    requires Plausible(candidates) && Describes(ctx, candidates, accelerations)
    requires forall c :: c in candidates ==> ModifiedFee(c, accelerations) >= 0
    ensures NoNegativeFees(ctx)
  {
    FeeRateScoresByFee(ctx, 1.0);
    forall t | t in ctx.txs
      ensures ctx.txs[t].own.fee >= 0 && ctx.firstRate[t] >= 0.0
    {
      assert t in Elements(Txids(candidates)) && t in Txids(candidates);
      var i :| 0 <= i < |candidates| && Txids(candidates)[i] == t;
      assert candidates[i] in candidates && ctx.txs[t] == TxOf(candidates[i], FeeDelta(accelerations, t));
      var own := ctx.txs[t].own;
      assert own.size > 0 && own.fee >= 0 && ctx.firstRate[t] == ctx.scoring(own);
      assert own.fee > 0 || own.fee == 0;
    }
  }
}
