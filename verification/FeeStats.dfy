/** Average fee rates over bands of weight, computed in one pass over transactions. */
module FeeStats {
  import opened Basics

  /** Rates that are missing are 0.0. */
  datatype FeeTx = FeeTx(weight: real, rate: real, effectiveFeePerVsize: real, feePerVsize: real)

  function RateOf(tx: FeeTx): real {
    if tx.rate != 0.0 then tx.rate
    else if tx.effectiveFeePerVsize != 0.0 then tx.effectiveFeePerVsize
    else tx.feePerVsize
  }

  datatype Bounds = Bounds(left: real, right: real)

  datatype Band = Band(avg: real, min: real, max: real)

  function Min(a: real, b: real): real { if a <= b then a else b }

  function Max(a: real, b: real): real { if a >= b then a else b }

  // ------------------------------------------- the rate as a function of weight

  function Weight(txs: seq<FeeTx>): real {
    if txs == [] then 0.0 else Weight(txs[..|txs|-1]) + txs[|txs|-1].weight
  }

  /** How much of a stretch of weight `w` from `start` lies below `x`. */
  function Part(start: real, w: real, x: real): real {
    if x <= start then 0.0 else if x >= start + w then w else x - start
  }

  /** Products stand on their own, so that no proof needs to look into them unasked. */
  function Cost(rate: real, weight: real): real {
    rate * weight
  }

  function Ratio(fee: real, weight: real): real
    requires weight != 0.0
  {
    fee / weight
  }

  /** The integral from 0 to `x` of the rate of whichever transaction takes up each unit of
      weight. */
  function FeeUpTo(txs: seq<FeeTx>, x: real): real {
    if txs == [] then 0.0
    else FeeUpTo(txs[..|txs|-1], x) + Cost(RateOf(txs[|txs|-1]), Part(Weight(txs[..|txs|-1]), txs[|txs|-1].weight, x))
  }

  function Integral(txs: seq<FeeTx>, a: real, b: real): real {
    FeeUpTo(txs, b) - FeeUpTo(txs, a)
  }

  ghost predicate Weighty(txs: seq<FeeTx>) {
    forall i {:trigger txs[i]} :: 0 <= i < |txs| ==> txs[i].weight >= 0.0
  }

  /** Transaction `i` takes up some of the weight between `a` and `b`. */
  ghost predicate Overlaps(txs: seq<FeeTx>, i: nat, a: real, b: real)
    requires i < |txs|
  {
    Part(Weight(txs[..i]), txs[i].weight, b) > Part(Weight(txs[..i]), txs[i].weight, a)
  }

  ghost predicate IsMin(txs: seq<FeeTx>, a: real, b: real, m: real) {
    && (exists i {:trigger Overlaps(txs, i, a, b)} :: 0 <= i < |txs| && Overlaps(txs, i, a, b) && RateOf(txs[i]) == m)
    && forall i {:trigger Overlaps(txs, i, a, b)} :: 0 <= i < |txs| && Overlaps(txs, i, a, b) ==> m <= RateOf(txs[i])
  }

  /** The greatest rate between `a` and `b`, or 0 if there is none above it. */
  ghost predicate IsMax(txs: seq<FeeTx>, a: real, b: real, m: real) {
    && m >= 0.0
    && (m == 0.0 || exists i {:trigger Overlaps(txs, i, a, b)} ::
          0 <= i < |txs| && Overlaps(txs, i, a, b) && RateOf(txs[i]) == m)
    && forall i {:trigger Overlaps(txs, i, a, b)} :: 0 <= i < |txs| && Overlaps(txs, i, a, b) ==> RateOf(txs[i]) <= m
  }

  lemma {:induction false} WeightIsNonNegative(txs: seq<FeeTx>)
    requires Weighty(txs)
    ensures Weight(txs) >= 0.0
  {
    if txs != [] {
      WeightIsNonNegative(txs[..|txs|-1]);
    }
  }

  /** Up to where `txs` end, more transactions change nothing. */
  lemma OneMoreTx(txs: seq<FeeTx>, tx: FeeTx, x: real)
    ensures Weight(txs + [tx]) == Weight(txs) + tx.weight
    ensures tx.weight >= 0.0 && x <= Weight(txs) ==> FeeUpTo(txs + [tx], x) == FeeUpTo(txs, x)
    ensures Weight(txs) <= x <= Weight(txs) + tx.weight ==>
      FeeUpTo(txs + [tx], x) == FeeUpTo(txs, x) + Cost(RateOf(tx), x - Weight(txs))
  {
  }

  /** The next transaction adds its weight at the first of its rates that is known. */
  lemma PaidByNext(txs: seq<FeeTx>, tx: FeeTx)
    requires Weighty(txs) && tx.weight >= 0.0
    ensures var paid := Integral(txs + [tx], Weight(txs), Weight(txs + [tx]));
      && (tx.rate != 0.0 ==> paid == Cost(tx.rate, tx.weight))
      && (tx.rate == 0.0 && tx.effectiveFeePerVsize != 0.0 ==> paid == Cost(tx.effectiveFeePerVsize, tx.weight))
      && (tx.rate == 0.0 && tx.effectiveFeePerVsize == 0.0 ==> paid == Cost(tx.feePerVsize, tx.weight))
  {
    OneMoreTx(txs, tx, Weight(txs));
    OneMoreTx(txs, tx, Weight(txs) + tx.weight);
    FeePastEnd(txs, Weight(txs) + tx.weight);
    assert Integral(txs + [tx], Weight(txs), Weight(txs + [tx])) == Cost(RateOf(tx), tx.weight);
  }

  /** Past the end of the transactions there is no fee left. */
  lemma {:induction false} FeePastEnd(txs: seq<FeeTx>, x: real)
    requires Weighty(txs) && x >= Weight(txs)
    ensures FeeUpTo(txs, x) == FeeUpTo(txs, Weight(txs))
  {
    if txs != [] {
      var init := txs[..|txs|-1];
      FeePastEnd(init, x);
      FeePastEnd(init, Weight(txs));
    }
  }

  /** How much weight below `x` is taken up. */
  function Covered(txs: seq<FeeTx>, x: real): real {
    if txs == [] then 0.0
    else Covered(txs[..|txs|-1], x) + Part(Weight(txs[..|txs|-1]), txs[|txs|-1].weight, x)
  }

  lemma {:induction false} AllIsCovered(txs: seq<FeeTx>, x: real)
    requires Weighty(txs) && x >= 0.0
    ensures Covered(txs, x) == Min(x, Weight(txs))
  {
    if txs != [] {
      AllIsCovered(txs[..|txs|-1], x);
      WeightIsNonNegative(txs[..|txs|-1]);
    }
  }

  /** A fee between `lo` and `hi` times the weight it is paid for. */
  predicate Within(lo: real, hi: real, ca: real, cb: real, fa: real, fb: real) {
    lo * (cb - ca) <= fb - fa <= hi * (cb - ca)
  }

  /** Bounds on the rates bound the integral. */
  lemma {:induction false} IntegralBounded(txs: seq<FeeTx>, a: real, b: real, lo: real, hi: real)
    requires Weighty(txs) && a <= b
    requires forall i {:trigger Overlaps(txs, i, a, b)} :: 0 <= i < |txs| && Overlaps(txs, i, a, b) ==>
      lo <= RateOf(txs[i]) <= hi
    ensures Within(lo, hi, Covered(txs, a), Covered(txs, b), FeeUpTo(txs, a), FeeUpTo(txs, b))
  {
    if txs != [] {
      var init, last := txs[..|txs|-1], txs[|txs|-1];
      forall i | 0 <= i < |init| && Overlaps(init, i, a, b) ensures lo <= RateOf(init[i]) <= hi {
        assert init[..i] == txs[..i];
        assert Overlaps(txs, i, a, b);
      }
      IntegralBounded(init, a, b, lo, hi);
      var pa, pb := Part(Weight(init), last.weight, a), Part(Weight(init), last.weight, b);
      assert pa <= pb;
      assert pb > pa ==> Overlaps(txs, |init|, a, b);
      OneMoreBounded(lo, RateOf(last), hi, Covered(init, a), Covered(init, b), pa, pb, FeeUpTo(init, a),
          FeeUpTo(init, b));
      ByTheLast(txs, a);
      ByTheLast(txs, b);
    } else {
      assert Within(lo, hi, 0.0, 0.0, 0.0, 0.0);
    }
  }

  lemma ByTheLast(txs: seq<FeeTx>, x: real)
    requires txs != []
    ensures var init, last := txs[..|txs|-1], txs[|txs|-1];
      var part := Part(Weight(init), last.weight, x);
      Covered(txs, x) == Covered(init, x) + part && FeeUpTo(txs, x) == FeeUpTo(init, x) + Cost(RateOf(last), part)
  {
  }

  lemma OneMoreBounded(lo: real, rate: real, hi: real, ca: real, cb: real, pa: real, pb: real, fa: real, fb: real)
    requires pa <= pb && (pb > pa ==> lo <= rate <= hi)
    requires Within(lo, hi, ca, cb, fa, fb)
    ensures Within(lo, hi, ca + pa, cb + pb, fa + Cost(rate, pa), fb + Cost(rate, pb))
  {
  }

  // ------------------------------------------------------------ the bands

  /** Bands rise and do not overlap. */
  ghost predicate Spaced(bands: seq<Bounds>) {
    && (forall k {:trigger bands[k]} :: 0 <= k < |bands| ==> 0.0 <= bands[k].left < bands[k].right)
    && forall j, k {:trigger bands[j], bands[k]} :: 0 <= j < k < |bands| ==> bands[j].right <= bands[k].left
  }

  /** A finished band: its average is the integral over its width, between the extremes. */
  ghost predicate Measured(txs: seq<FeeTx>, b: Bounds, band: Band) {
    && b.left < b.right <= Weight(txs)
    && Cost(band.avg, b.right - b.left) == Integral(txs, b.left, b.right)
    && IsMin(txs, b.left, b.right, band.min) && IsMax(txs, b.left, b.right, band.max)
  }

  /** The accumulators of the calculator. */
  datatype Progress = Progress(
    index: nat, inBand: bool, fee: real, weight: real, min: Option<real>, max: real, done: seq<Band>)

  ghost predicate Finished(bands: seq<Bounds>, txs: seq<FeeTx>, done: seq<Band>) {
    |done| <= |bands| && forall k {:trigger bands[k]} :: 0 <= k < |done| ==>
        Measured(txs, bands[k], done[|done| - 1 - k])
  }

  /** What has been gathered of band `b` once the weight up to `at` is seen. */
  ghost predicate Gathered(txs: seq<FeeTx>, b: Bounds, at: real, p: Progress) {
    && at <= b.right
    && (p.inBand <==> at > b.left)
    && (at <= b.left ==> p.fee == 0.0 && p.weight == 0.0 && p.min == None && p.max == 0.0)
    && (at > b.left ==>
         && p.fee == Integral(txs, b.left, at) && p.weight == at - b.left
         && p.min.Some? && IsMin(txs, b.left, at, p.min.value) && IsMax(txs, b.left, at, p.max))
  }

  /** The calculator after the weight up to `at` of `txs`. */
  ghost predicate Working(bands: seq<Bounds>, txs: seq<FeeTx>, at: real, p: Progress) {
    && Finished(bands, txs, p.done) && p.index == |p.done|
    && (p.index < |bands| ==> at < bands[p.index].right && Gathered(txs, bands[p.index], at, p))
    && (p.index == |bands| ==> !p.inBand && p.weight == 0.0 && p.fee == 0.0)
  }

  lemma {:induction false} SameOverlaps(txs: seq<FeeTx>, tx: FeeTx, a: real, b: real)
    requires tx.weight >= 0.0 && a <= b <= Weight(txs)
    ensures forall i {:trigger Overlaps(txs + [tx], i, a, b)} :: 0 <= i < |txs| + 1 && Overlaps(txs + [tx], i, a, b) ==>
      i < |txs| && Overlaps(txs, i, a, b)
    ensures forall i {:trigger Overlaps(txs, i, a, b)} :: 0 <= i < |txs| && Overlaps(txs, i, a, b) ==>
      Overlaps(txs + [tx], i, a, b)
  {
    var more := txs + [tx];
    forall i | 0 <= i < |txs| ensures Overlaps(more, i, a, b) == Overlaps(txs, i, a, b) {
      assert more[..i] == txs[..i];
    }
    assert more[..|txs|] == txs;
  }

  lemma SameExtremes(txs: seq<FeeTx>, tx: FeeTx, a: real, b: real, m: real)
    requires tx.weight >= 0.0 && a <= b <= Weight(txs)
    ensures IsMin(txs, a, b, m) ==> IsMin(txs + [tx], a, b, m)
    ensures IsMax(txs, a, b, m) ==> IsMax(txs + [tx], a, b, m)
  {
    SameOverlaps(txs, tx, a, b);
    if IsMin(txs, a, b, m) {
      var i :| 0 <= i < |txs| && Overlaps(txs, i, a, b) && RateOf(txs[i]) == m;
      assert Overlaps(txs + [tx], i, a, b);
    }
    if IsMax(txs, a, b, m) && m != 0.0 {
      var i :| 0 <= i < |txs| && Overlaps(txs, i, a, b) && RateOf(txs[i]) == m;
      assert Overlaps(txs + [tx], i, a, b);
    }
  }

  /** A transaction not looked at yet changes nothing. */
  lemma {:induction false} NextTx(bands: seq<Bounds>, txs: seq<FeeTx>, tx: FeeTx, p: Progress)
    requires Spaced(bands) && tx.weight >= 0.0 && Working(bands, txs, Weight(txs), p)
    ensures Working(bands, txs + [tx], Weight(txs), p)
  {
    var more := txs + [tx];
    OneMoreTx(txs, tx, 0.0);
    forall k | 0 <= k < |p.done| ensures Measured(more, bands[k], p.done[|p.done| - 1 - k]) {
      var b := bands[k];
      assert Measured(txs, b, p.done[|p.done| - 1 - k]);
      OneMoreTx(txs, tx, b.left);
      OneMoreTx(txs, tx, b.right);
      SameExtremes(txs, tx, b.left, b.right, p.done[|p.done| - 1 - k].min);
      SameExtremes(txs, tx, b.left, b.right, p.done[|p.done| - 1 - k].max);
    }
    if p.index < |bands| && Weight(txs) > bands[p.index].left {
      var b := bands[p.index];
      OneMoreTx(txs, tx, b.left);
      OneMoreTx(txs, tx, Weight(txs));
      SameExtremes(txs, tx, b.left, Weight(txs), p.min.value);
      SameExtremes(txs, tx, b.left, Weight(txs), p.max);
    }
  }

  // ------------------------------------------------- one stretch of one transaction

  /** The rates between `a` and `c` are those between `a` and `b` and that of the last
      transaction, which takes up everything from `b` on. */
  lemma {:induction false} OverlapsGrow(txs: seq<FeeTx>, a: real, b: real, c: real)
    requires txs != [] && Weighty(txs)
    requires a <= b < c && Weight(txs[..|txs|-1]) <= b && c <= Weight(txs)
    ensures forall i {:trigger Overlaps(txs, i, a, c)} :: 0 <= i < |txs| && Overlaps(txs, i, a, c) ==>
      i == |txs| - 1 || Overlaps(txs, i, a, b)
    ensures forall i {:trigger Overlaps(txs, i, a, b)} :: 0 <= i < |txs| && Overlaps(txs, i, a, b) ==>
      Overlaps(txs, i, a, c)
    ensures Overlaps(txs, |txs| - 1, a, c)
  {
    forall i | 0 <= i < |txs| - 1 ensures Weight(txs[..i]) + txs[i].weight <= b {
      WeightGrows(txs, i, |txs| - 1);
    }
  }

  lemma {:induction false} WeightGrows(txs: seq<FeeTx>, i: nat, n: nat)
    requires Weighty(txs) && i < n <= |txs|
    ensures Weight(txs[..i]) + txs[i].weight <= Weight(txs[..n])
    ensures Weight(txs[..n]) <= Weight(txs)
    decreases |txs| - i
  {
    assert txs[..i+1][..i] == txs[..i];
    if i + 1 < n {
      WeightGrows(txs, i + 1, n);
    } else {
      PrefixWeight(txs, n);
    }
  }

  lemma {:induction false} PrefixWeight(txs: seq<FeeTx>, n: nat)
    requires Weighty(txs) && n <= |txs|
    ensures Weight(txs[..n]) <= Weight(txs)
    decreases |txs| - n
  {
    if n == |txs| {
      assert txs[..n] == txs;
    } else {
      PrefixWeight(txs, n + 1);
      assert txs[..n+1][..n] == txs[..n];
    }
  }

  lemma {:induction false} LeastGrows(txs: seq<FeeTx>, a: real, b: real, c: real, lo: Option<real>)
    requires txs != [] && Weighty(txs)
    requires a <= b < c && Weight(txs[..|txs|-1]) <= b && c <= Weight(txs)
    requires if lo.Some? then IsMin(txs, a, b, lo.value) else a == b
    ensures IsMin(txs, a, c, if lo.Some? then Min(lo.value, RateOf(txs[|txs|-1])) else RateOf(txs[|txs|-1]))
  {
    OverlapsGrow(txs, a, b, c);
    if lo.Some? {
      var i :| 0 <= i < |txs| && Overlaps(txs, i, a, b) && RateOf(txs[i]) == lo.value;
      assert Overlaps(txs, i, a, c);
    }
  }

  lemma {:induction false} GreatestGrows(txs: seq<FeeTx>, a: real, b: real, c: real, hi: real)
    requires txs != [] && Weighty(txs)
    requires a <= b < c && Weight(txs[..|txs|-1]) <= b && c <= Weight(txs)
    requires if a < b then IsMax(txs, a, b, hi) else hi == 0.0
    ensures IsMax(txs, a, c, Max(hi, RateOf(txs[|txs|-1])))
  {
    OverlapsGrow(txs, a, b, c);
    if hi != 0.0 {
      var i :| 0 <= i < |txs| && Overlaps(txs, i, a, b) && RateOf(txs[i]) == hi;
      assert Overlaps(txs, i, a, c);
    }
  }

  lemma ExtremesGrow(txs: seq<FeeTx>, a: real, b: real, c: real, lo: Option<real>, hi: real)
    requires txs != [] && Weighty(txs)
    requires a <= b < c && Weight(txs[..|txs|-1]) <= b && c <= Weight(txs)
    requires if a < b then lo.Some? && IsMin(txs, a, b, lo.value) && IsMax(txs, a, b, hi) else lo == None && hi == 0.0
    ensures var rate := RateOf(txs[|txs|-1]);
      && IsMin(txs, a, c, if lo.Some? then Min(lo.value, rate) else rate)
      && IsMax(txs, a, c, Max(hi, rate))
  {
    LeastGrows(txs, a, b, c, lo);
    GreatestGrows(txs, a, b, c, hi);
  }

  lemma LastTx(txs: seq<FeeTx>, x: real)
    requires txs != [] && Weight(txs[..|txs|-1]) <= x <= Weight(txs)
    ensures FeeUpTo(txs, x) == FeeUpTo(txs[..|txs|-1], x) + Cost(RateOf(txs[|txs|-1]), x - Weight(txs[..|txs|-1]))
  {
  }

  /** The integral grows by the rate times the weight passed. */
  lemma IntegralGrows(txs: seq<FeeTx>, b: real, c: real)
    requires txs != [] && Weighty(txs) && Weight(txs[..|txs|-1]) <= b <= c <= Weight(txs)
    ensures FeeUpTo(txs, c) == FeeUpTo(txs, b) + Cost(RateOf(txs[|txs|-1]), c - b)
  {
    var init := txs[..|txs|-1];
    LastTx(txs, b);
    LastTx(txs, c);
    FeePastEnd(init, b);
    FeePastEnd(init, c);
    Telescopes(FeeUpTo(init, Weight(init)), RateOf(txs[|txs|-1]), Weight(init), b, c);
  }

  lemma Telescopes(base: real, rate: real, start: real, b: real, c: real)
    ensures base + Cost(rate, c - start) == base + Cost(rate, b - start) + Cost(rate, c - b)
  {
  }

  /** The accumulators after the stretch from `left` to `right`, cut to the band. */
  function Gather(b: Bounds, rate: real, left: real, right: real, p: Progress): Progress {
    if right > b.left then
      var weight := Min(right, b.right) - Max(left, b.left);
      p.(inBand := true, fee := p.fee + Cost(rate, weight), weight := p.weight + weight, max := Max(p.max, rate),
         min := Some(if p.min.Some? then Min(p.min.value, rate) else rate))
    else p
  }

  /** A finished band is written down and the next one begun. */
  function Finish(p: Progress): Progress {
    var avg := if p.weight != 0.0 then Ratio(p.fee, p.weight) else 0.0;
    var min := if p.min.Some? then p.min.value else 0.0;
    Progress(p.index + 1, false, 0.0, 0.0, None, 0.0, [Band(avg, min, p.max)] + p.done)
  }

  lemma {:induction false} GatherStep(txs: seq<FeeTx>, b: Bounds, left: real, right: real, p: Progress)
    requires txs != [] && Weighty(txs) && 0.0 <= b.left < b.right
    requires Weight(txs[..|txs|-1]) <= left < right <= Weight(txs) && left < b.right
    requires Gathered(txs, b, left, p)
    ensures Gathered(txs, b, Min(right, b.right), Gather(b, RateOf(txs[|txs|-1]), left, right, p))
  {
    if right > b.left {
      var from, to := Max(left, b.left), Min(right, b.right);
      ExtremesGrow(txs, b.left, from, to, p.min, p.max);
      IntegralGrows(txs, from, to);
    }
  }

  lemma Quotient(fee: real, weight: real)
    requires weight != 0.0
    ensures Cost(Ratio(fee, weight), weight) == fee
  {
  }

  lemma {:induction false} FinishStep(bands: seq<Bounds>, txs: seq<FeeTx>, p: Progress)
    requires Spaced(bands) && p.index == |p.done| < |bands| && Finished(bands, txs, p.done)
    requires Gathered(txs, bands[p.index], bands[p.index].right, p) && bands[p.index].right <= Weight(txs)
    ensures Working(bands, txs, bands[p.index].right, Finish(p))
  {
    var b, after := bands[p.index], Finish(p);
    Quotient(p.fee, p.weight);
    assert Measured(txs, b, after.done[0]);
    forall k | 0 <= k < |after.done| ensures Measured(txs, bands[k], after.done[|after.done| - 1 - k]) {
      if k < |p.done| {
        assert Measured(txs, bands[k], p.done[|p.done| - 1 - k]);
        assert after.done[|after.done| - 1 - k] == p.done[|p.done| - 1 - k];
      }
    }
    if after.index < |bands| {
      assert bands[p.index].right <= bands[after.index].left;
    }
  }

  /** One turn of the loop. */
  function Turn(bands: seq<Bounds>, rate: real, left: real, right: real, p: Progress): (real, Progress) {
    if p.index < |bands| then
      var b, gathered := bands[p.index], Gather(bands[p.index], rate, left, right, p);
      var to := Min(right, b.right);
      (to, if to >= b.right then Finish(gathered) else gathered)
    else (right, p)
  }

  lemma {:induction false} TurnStep(
    bands: seq<Bounds>, txs: seq<FeeTx>, rate: real, left: real, right: real, p: Progress)
    requires Spaced(bands) && txs != [] && Weighty(txs) && rate == RateOf(txs[|txs|-1]) && right == Weight(txs)
    requires Weight(txs[..|txs|-1]) <= left < right && Working(bands, txs, left, p)
    ensures var turned := Turn(bands, rate, left, right, p);
      && left <= turned.0 <= right && Working(bands, txs, turned.0, turned.1)
      && (turned.0 == right || turned.1.index > p.index)
  {
    if p.index < |bands| {
      var b := bands[p.index];
      GatherStep(txs, b, left, right, p);
      var gathered := Gather(b, rate, left, right, p);
      if Min(right, b.right) >= b.right {
        FinishStep(bands, txs, gathered);
      }
    }
  }

  // --------------------------------------------------------- what bands tell

  /** The average of a finished band lies between its extremes. */
  lemma AverageIsBetween(txs: seq<FeeTx>, b: Bounds, band: Band)
    requires Weighty(txs) && b.left >= 0.0 && Measured(txs, b, band)
    ensures band.min <= band.avg <= band.max
  {
    IntegralBounded(txs, b.left, b.right, band.min, band.max);
    AllIsCovered(txs, b.left);
    AllIsCovered(txs, b.right);
    Cancel(band.min, band.avg, band.max, b.left, b.right, FeeUpTo(txs, b.left), FeeUpTo(txs, b.right));
  }

  lemma Cancel(lo: real, avg: real, hi: real, a: real, b: real, fa: real, fb: real)
    requires a < b && Within(lo, hi, a, b, fa, fb) && Cost(avg, b - a) == fb - fa
    ensures lo <= avg <= hi
  {
  }

  /** Transactions come by falling rate. */
  ghost predicate Falling(txs: seq<FeeTx>) {
    && (forall i, j {:trigger txs[i], txs[j]} :: 0 <= i < j < |txs| ==> RateOf(txs[i]) >= RateOf(txs[j]))
    && forall i {:trigger txs[i]} :: 0 <= i < |txs| ==> RateOf(txs[i]) >= 0.0
  }

  /** What overlaps an earlier stretch of weight comes first. */
  lemma OverlapsInOrder(txs: seq<FeeTx>, i: nat, j: nat, a: real, b: real, c: real, d: real)
    requires Weighty(txs) && i < |txs| && j < |txs| && a <= b <= c <= d
    requires Overlaps(txs, i, a, b) && Overlaps(txs, j, c, d)
    ensures i <= j
  {
    if j < i {
      WeightGrows(txs, j, i);
      assert false;
    }
  }

  /** By falling rate, a band further on has no greater rate than one before it. */
  lemma LaterIsLower(txs: seq<FeeTx>, a: real, b: real, c: real, d: real, lo: real, hi: real)
    requires Weighty(txs) && Falling(txs) && a <= b <= c <= d
    requires IsMin(txs, a, b, lo) && IsMax(txs, c, d, hi)
    ensures hi <= lo && lo >= 0.0
  {
    var i :| 0 <= i < |txs| && Overlaps(txs, i, a, b) && RateOf(txs[i]) == lo;
    if hi != 0.0 {
      var j :| 0 <= j < |txs| && Overlaps(txs, j, c, d) && RateOf(txs[j]) == hi;
      OverlapsInOrder(txs, i, j, a, b, c, d);
    }
  }

  /** Averages do not fall along the range, and lie between their extremes. */
  ghost predicate Rising(entries: seq<Band>) {
    && (forall i, j {:trigger entries[i], entries[j]} :: 0 <= i < j < |entries| ==> entries[i].avg <= entries[j].avg)
    && forall i {:trigger entries[i]} :: 0 <= i < |entries| ==>
        0.0 <= entries[i].min <= entries[i].avg <= entries[i].max
  }

  /** Bands of transactions that come by falling rate are written down in rising order. */
  lemma FinishedRises(bands: seq<Bounds>, txs: seq<FeeTx>, done: seq<Band>)
    requires Spaced(bands) && Weighty(txs) && Falling(txs) && Finished(bands, txs, done)
    ensures Rising(done)
  {
    forall i | 0 <= i < |done| ensures 0.0 <= done[i].min <= done[i].avg <= done[i].max {
      var k := |done| - 1 - i;
      assert Measured(txs, bands[k], done[|done| - 1 - k]);
      AverageIsBetween(txs, bands[k], done[i]);
      MinIsNonNegative(txs, bands[k].left, bands[k].right, done[i].min);
    }
    forall i, j | 0 <= i < j < |done| ensures done[i].avg <= done[j].avg {
      var later, earlier := |done| - 1 - i, |done| - 1 - j;
      assert Measured(txs, bands[later], done[|done| - 1 - later]) &&
          Measured(txs, bands[earlier], done[|done| - 1 - earlier]);
      LaterIsLower(txs, bands[earlier].left, bands[earlier].right, bands[later].left, bands[later].right, done[j].min,
          done[i].max);
    }
  }

  lemma MinIsNonNegative(txs: seq<FeeTx>, a: real, b: real, m: real)
    requires Falling(txs) && IsMin(txs, a, b, m)
    ensures m >= 0.0
  {
  }

  /** The band under way, as far as it goes. */
  function Partial(p: Progress): seq<Band> {
    if p.weight > 0.0 then
      [Band(Ratio(p.fee, p.weight), if p.min.Some? then p.min.value else 0.0, p.max)] + p.done
    else p.done
  }

  lemma PartialRises(bands: seq<Bounds>, txs: seq<FeeTx>, p: Progress)
    requires Spaced(bands) && Weighty(txs) && Falling(txs) && Working(bands, txs, Weight(txs), p)
    ensures Rising(Partial(p))
  {
    if p.weight > 0.0 {
      var cut := CutBands(bands, p.index, Weight(txs));
      PartialMeasured(bands, txs, p);
      FinishedRises(cut, txs, Partial(p));
    } else {
      FinishedRises(bands, txs, p.done);
    }
  }

  /** The bands up to the one under way, which is cut short at `at`. */
  ghost function CutBands(bands: seq<Bounds>, k: nat, at: real): seq<Bounds>
    requires k < |bands|
  {
    bands[..k] + [Bounds(bands[k].left, at)]
  }

  /** The part of the open band seen so far is measured as a band of its own. */
  lemma {:induction false} OpenBandMeasured(bands: seq<Bounds>, txs: seq<FeeTx>, p: Progress)
    requires Weighty(txs) && Working(bands, txs, Weight(txs), p) && p.weight > 0.0
    ensures p.index < |bands| && bands[p.index].left < Weight(txs)
    ensures Measured(txs, Bounds(bands[p.index].left, Weight(txs)), Partial(p)[0])
  {
    Quotient(p.fee, p.weight);
  }

  lemma CutIsSpaced(bands: seq<Bounds>, k: nat, at: real)
    requires Spaced(bands) && k < |bands| && bands[k].left < at
    ensures Spaced(CutBands(bands, k, at))
  {
  }

  lemma {:induction false} CutIsFinished(
    bands: seq<Bounds>, txs: seq<FeeTx>, done: seq<Band>, at: real, entry: Band)
    requires Finished(bands, txs, done) && |done| < |bands|
    requires Measured(txs, Bounds(bands[|done|].left, at), entry)
    ensures Finished(CutBands(bands, |done|, at), txs, [entry] + done)
  {
    var k, cut, entries := |done|, CutBands(bands, |done|, at), [entry] + done;
    forall j | 0 <= j < |entries| ensures Measured(txs, cut[j], entries[|entries| - 1 - j]) {
      if j < k {
        assert Measured(txs, bands[j], done[|done| - 1 - j]);
      }
    }
  }

  lemma {:induction false} PartialMeasured(bands: seq<Bounds>, txs: seq<FeeTx>, p: Progress)
    requires Spaced(bands) && Weighty(txs) && Working(bands, txs, Weight(txs), p) && p.weight > 0.0
    ensures p.index < |bands| && Spaced(CutBands(bands, p.index, Weight(txs)))
    ensures Finished(CutBands(bands, p.index, Weight(txs)), txs, Partial(p))
  {
    OpenBandMeasured(bands, txs, p);
    CutIsSpaced(bands, p.index, Weight(txs));
    CutIsFinished(bands, txs, p.done, Weight(txs), Partial(p)[0]);
  }

  lemma PartialFits(bands: seq<Bounds>, txs: seq<FeeTx>, p: Progress)
    requires Working(bands, txs, Weight(txs), p)
    ensures |Partial(p)| <= |bands|
  {
  }

  lemma {:induction false} PaddedFills(entries: seq<Band>, n: nat)
    requires |entries| <= n
    ensures |Padded(entries, n)| == n
    decreases n - |entries|
  {
    if |entries| < n {
      PaddedFills([Band(0.0, 0.0, 0.0)] + entries, n);
    }
  }

  function Padded(entries: seq<Band>, n: nat): seq<Band>
    decreases n - |entries|
  {
    if |entries| < n then Padded([Band(0.0, 0.0, 0.0)] + entries, n) else entries
  }

  lemma {:induction false} PaddedRises(entries: seq<Band>, n: nat)
    requires Rising(entries)
    ensures Rising(Padded(entries, n))
    decreases n - |entries|
  {
    if |entries| < n {
      PaddedRises([Band(0.0, 0.0, 0.0)] + entries, n);
    }
  }

  lemma Appended(txs: seq<FeeTx>, tx: FeeTx)
    requires Weighty(txs) && tx.weight >= 0.0
    ensures var more := txs + [tx];
      more[..|more|-1] == txs && more[|more|-1] == tx && Weight(more) == Weight(txs) + tx.weight && Weighty(more)
  {
  }

  lemma SkipTx(bands: seq<Bounds>, txs: seq<FeeTx>, left: real, right: real, p: Progress)
    requires Working(bands, txs, left, p) && left <= right && !p.inBand
    requires p.index < |bands| ==> right <= bands[p.index].left < bands[p.index].right
    ensures Working(bands, txs, right, p)
  {
  }

  lemma NothingYet(bands: seq<Bounds>)
    requires Spaced(bands) && bands != []
    ensures Working(bands, [], 0.0, Progress(0, false, 0.0, 0.0, None, 0.0, []))
  {
  }

  // ------------------------------------------------------------- the calculator

  /** The bands, given in percent of the greatest weight. */
  function BandsOf(maxWeight: real, percentiles: seq<real>, bandWidth: real): (bands: seq<Bounds>)
    ensures |bands| == |percentiles|
  {
    seq(|percentiles|, k requires 0 <= k < |percentiles| => BandOf(maxWeight, percentiles[k], bandWidth))
  }

  function BandOf(maxWeight: real, percentile: real, bandWidth: real): Bounds {
    var left := Cost(percentile / 100.0, maxWeight) - bandWidth / 2.0;
    Bounds(left, left + bandWidth)
  }

  /** The percentiles asked for, with one more at each end of the range. */
  function WithEnds(percentiles: seq<real>, widthPercent: real): seq<real> {
    var between := if percentiles == [] then [10.0, 25.0, 50.0, 75.0, 90.0] else percentiles;
    [widthPercent / 2.0] + between + [100.0 - widthPercent / 2.0]
  }

  /** Percentiles far enough apart, and from the start, for bands of that width. */
  predicate Apart(percentiles: seq<real>, widthPercent: real) {
    && (forall k {:trigger percentiles[k]} :: 0 <= k < |percentiles| ==> widthPercent / 2.0 <= percentiles[k])
    && forall j, k {:trigger percentiles[j], percentiles[k]} :: 0 <= j < k < |percentiles| ==>
         percentiles[j] + widthPercent <= percentiles[k]
  }

  lemma ScaledBand(maxWeight: real, percentile: real, widthPercent: real)
    ensures var b, unit := BandOf(maxWeight, percentile, Cost(maxWeight, widthPercent / 100.0)), maxWeight / 100.0;
      && b.left == Cost(unit, percentile - widthPercent / 2.0)
      && b.right == Cost(unit, percentile + widthPercent / 2.0)
  {
  }

  lemma ScalingKeepsOrder(unit: real, x: real, y: real)
    requires unit > 0.0
    ensures Cost(unit, x) <= Cost(unit, y) <==> x <= y
    ensures Cost(unit, 0.0) == 0.0
  {
    if x < y {
      assert unit * (y - x) > 0.0;
    } else if y < x {
      assert unit * (x - y) > 0.0;
    }
  }

  /** Bands rise and do not overlap exactly if their width is positive and the percentiles,
      those at the ends included, are apart. */
  lemma BandsAreSpacedExactly(maxWeight: real, percentiles: seq<real>, widthPercent: real)
    requires maxWeight > 0.0
    ensures Spaced(BandsOf(maxWeight, WithEnds(percentiles, widthPercent), Cost(maxWeight, widthPercent / 100.0))) <==>
      widthPercent > 0.0 && Apart(WithEnds(percentiles, widthPercent), widthPercent)
  {
    var all := WithEnds(percentiles, widthPercent);
    var bandWidth, unit := Cost(maxWeight, widthPercent / 100.0), maxWeight / 100.0;
    var bands := BandsOf(maxWeight, all, bandWidth);
    forall k | 0 <= k < |all|
      ensures 0.0 <= bands[k].left <==> widthPercent / 2.0 <= all[k]
      ensures bands[k].left < bands[k].right <==> widthPercent > 0.0
    {
      ScaledBand(maxWeight, all[k], widthPercent);
      ScalingKeepsOrder(unit, 0.0, all[k] - widthPercent / 2.0);
      ScalingKeepsOrder(unit, all[k] + widthPercent / 2.0, all[k] - widthPercent / 2.0);
    }
    forall j, k | 0 <= j < k < |all|
      ensures bands[j].right <= bands[k].left <==> all[j] + widthPercent <= all[k]
    {
      ScaledBand(maxWeight, all[j], widthPercent);
      ScaledBand(maxWeight, all[k], widthPercent);
      ScalingKeepsOrder(unit, all[j] + widthPercent / 2.0, all[k] - widthPercent / 2.0);
    }
    assert bands[0] == BandOf(maxWeight, all[0], bandWidth);
  }

  ghost predicate NextApart(percentiles: seq<real>, widthPercent: real, k: int) {
    0 < k < |percentiles| && percentiles[k-1] + widthPercent <= percentiles[k]
  }

  lemma {:induction false} FarApart(percentiles: seq<real>, widthPercent: real, j: nat, k: nat)
    requires widthPercent > 0.0 && j < k < |percentiles|
    requires forall n {:trigger NextApart(percentiles, widthPercent, n)} :: 0 < n < |percentiles| ==>
      NextApart(percentiles, widthPercent, n)
    ensures percentiles[j] + widthPercent <= percentiles[k]
    decreases k
  {
    assert NextApart(percentiles, widthPercent, k);
    if j < k - 1 {
      FarApart(percentiles, widthPercent, j, k - 1);
    }
  }

  lemma NeighboursApart(percentiles: seq<real>, widthPercent: real)
    requires widthPercent > 0.0 && percentiles != [] && widthPercent / 2.0 <= percentiles[0]
    requires forall k {:trigger NextApart(percentiles, widthPercent, k)} :: 0 < k < |percentiles| ==>
      NextApart(percentiles, widthPercent, k)
    ensures Apart(percentiles, widthPercent)
  {
    forall j, k | 0 <= j < k < |percentiles| ensures percentiles[j] + widthPercent <= percentiles[k] {
      FarApart(percentiles, widthPercent, j, k);
    }
  }

  /** The bands used unless others are asked for. */
  lemma DefaultBandsAreSpaced(maxWeight: real)
    requires maxWeight > 0.0
    ensures Spaced(BandsOf(maxWeight, WithEnds([], 2.0), Cost(maxWeight, 2.0 / 100.0)))
  {
    assert WithEnds([], 2.0) == [1.0, 10.0, 25.0, 50.0, 75.0, 90.0, 99.0];
    NeighboursApart(WithEnds([], 2.0), 2.0);
    BandsAreSpacedExactly(maxWeight, [], 2.0);
  }

  const TENTHS := [10.0, 20.0, 30.0, 40.0, 50.0, 60.0, 70.0, 80.0, 90.0]

  /** The bands asked for when the last of the projected blocks is a stack. */
  lemma StackBandsAreSpaced(maxWeight: real)
    requires maxWeight > 0.0
    ensures Spaced(BandsOf(maxWeight, WithEnds(TENTHS, 0.5), Cost(maxWeight, 0.5 / 100.0)))
  {
    var all := WithEnds(TENTHS, 0.5);
    assert |TENTHS| == 9 && forall k :: 0 <= k < 9 ==> TENTHS[k] == (10 * k + 10) as real;
    assert |all| == 11 && all[0] == 0.25 && all[10] == 99.75;
    forall k | 0 < k < 11 ensures NextApart(all, 0.5, k) {
      assert 1 <= k < 10 ==> all[k] == TENTHS[k-1];
      assert 2 <= k < 11 ==> all[k-1] == TENTHS[k-2];
    }
    NeighboursApart(all, 0.5);
    BandsAreSpacedExactly(maxWeight, TENTHS, 0.5);
  }

  datatype RawStats = RawStats(minFee: real, medianFee: real, maxFee: real, feeRange: seq<real>)

  class OnlineFeeStatsCalculator {
    const maxWeight: real
    const percentiles: seq<real>
    const bandWidth: real
    var bandIndex: nat
    var leftBound: Option<real>
    var rightBound: Option<real>
    var inBand: bool
    var totalBandFee: real
    var totalBandWeight: real
    var minBandRate: Option<real>
    var maxBandRate: real
    var feeRange: seq<Band>
    var totalWeight: real
    ghost var seen: seq<FeeTx>

    ghost function Bands(): seq<Bounds> {
      BandsOf(maxWeight, percentiles, bandWidth)
    }

    ghost function Now(): Progress
      reads this
    {
      Progress(bandIndex, inBand, totalBandFee, totalBandWeight, minBandRate, maxBandRate, feeRange)
    }

    /** The bounds are those of the band under way; past the last they are infinite. */
    ghost predicate BoundsSet()
      reads this
    {
      if bandIndex < |percentiles| then
        leftBound == Some(Bands()[bandIndex].left) && rightBound == Some(Bands()[bandIndex].right)
      else leftBound == None && rightBound == None
    }

    ghost predicate Valid()
      reads this
    {
      && |percentiles| >= 2 && Spaced(Bands()) && Weighty(seen) && totalWeight == Weight(seen)
      && BoundsSet() && Working(Bands(), seen, totalWeight, Now())
    }

    constructor (maxWeight: real, percentileBandWidth: Option<real>, percentiles: seq<real>)
      requires var width := if percentileBandWidth.Some? then percentileBandWidth.value else 2.0;
        Spaced(BandsOf(maxWeight, WithEnds(percentiles, width), Cost(maxWeight, width / 100.0)))
      ensures Valid() && seen == []
      ensures var width := if percentileBandWidth.Some? then percentileBandWidth.value else 2.0;
        Bands() == BandsOf(maxWeight, WithEnds(percentiles, width), Cost(maxWeight, width / 100.0))
    {
      var width := if percentileBandWidth.Some? then percentileBandWidth.value else 2.0;
      this.maxWeight := maxWeight;
      this.percentiles := WithEnds(percentiles, width);
      this.bandWidth := Cost(maxWeight, width / 100.0);
      bandIndex, inBand, totalBandFee, totalBandWeight, minBandRate, maxBandRate := 0, false, 0.0, 0.0, None, 0.0;
      feeRange, totalWeight, seen := [], 0.0, [];
      new;
      NothingYet(Bands());
      SetNextBounds();
    }

    method SetNextBounds()
      modifies `leftBound, `rightBound
      ensures BoundsSet()
    {
      if bandIndex < |percentiles| {
        var left := Cost(percentiles[bandIndex] / 100.0, maxWeight) - bandWidth / 2.0;
        leftBound, rightBound := Some(left), Some(left + bandWidth);
      } else {
        leftBound, rightBound := None, None;
      }
    }

    method ProcessNext(tx: FeeTx)
      requires Valid() && tx.weight >= 0.0
      modifies this
      ensures Valid() && seen == old(seen) + [tx]
      ensures var paid := Integral(seen, Weight(old(seen)), Weight(seen));
        && (tx.rate != 0.0 ==> paid == Cost(tx.rate, tx.weight))
        && (tx.rate == 0.0 && tx.effectiveFeePerVsize != 0.0 ==> paid == Cost(tx.effectiveFeePerVsize, tx.weight))
        && (tx.rate == 0.0 && tx.effectiveFeePerVsize == 0.0 ==> paid == Cost(tx.feePerVsize, tx.weight))
    {
      PaidByNext(seen, tx);
      var left, right := totalWeight, totalWeight + tx.weight;
      NextTx(Bands(), seen, tx, Now());
      Appended(seen, tx);
      seen := seen + [tx];
      if !inBand && (leftBound == None || right <= leftBound.value) {
        SkipTx(Bands(), seen, left, right, Now());
        totalWeight := totalWeight + tx.weight;
        return;
      }
      Traverse(RateOf(tx), left, right);
      totalWeight := totalWeight + tx.weight;
    }

    /** The loop of `ProcessNext`: the stretch of weight the last transaction takes up. */
    method Traverse(txRate: real, from: real, right: real)
      requires Spaced(Bands()) && Weighty(seen) && seen != [] && txRate == RateOf(seen[|seen|-1]) &&
        right == Weight(seen)
      requires Weight(seen[..|seen|-1]) <= from <= right
      requires BoundsSet() && Working(Bands(), seen, from, Now())
      modifies `inBand, `totalBandFee, `totalBandWeight, `minBandRate, `maxBandRate, `feeRange, `bandIndex, `leftBound,
          `rightBound
      ensures BoundsSet() && Working(Bands(), seen, right, Now())
    {
      var left := from;
      while left < right
        invariant from <= left <= right
        invariant bandIndex <= |percentiles| && BoundsSet() && Working(Bands(), seen, left, Now())
        decreases |percentiles| - bandIndex, left < right
      {
        TurnStep(Bands(), seen, txRate, left, right, Now());
        left := Advance(txRate, left, right);
      }
    }

    /** The body of the loop in `ProcessNext`. */
    method Advance(txRate: real, left: real, right: real) returns (left': real)
      requires left < right && BoundsSet() && bandIndex <= |percentiles|
      modifies `inBand, `totalBandFee, `totalBandWeight, `minBandRate, `maxBandRate, `feeRange, `bandIndex, `leftBound,
          `rightBound
      ensures BoundsSet()
      ensures left' == Turn(Bands(), txRate, left, right, old(Now())).0
      ensures Now() == Turn(Bands(), txRate, left, right, old(Now())).1
    {
      if leftBound.Some? && right > leftBound.value {
        Accumulate(txRate, left, right);
      }
      left' := if rightBound.Some? then Min(right, rightBound.value) else right;
      if rightBound.Some? && left' >= rightBound.value {
        FinishBand();
      }
    }

    method Accumulate(txRate: real, left: real, right: real)
      requires leftBound.Some? && rightBound.Some? && right > leftBound.value
      modifies `inBand, `totalBandFee, `totalBandWeight, `minBandRate, `maxBandRate
      ensures Now() == Gather(Bounds(leftBound.value, rightBound.value), txRate, left, right, old(Now()))
    {
      inBand := true;
      var weight := Min(right, rightBound.value) - Max(left, leftBound.value);
      totalBandFee := totalBandFee + Cost(txRate, weight);
      totalBandWeight := totalBandWeight + weight;
      maxBandRate := Max(maxBandRate, txRate);
      minBandRate := Some(if minBandRate.Some? then Min(minBandRate.value, txRate) else txRate);
    }

    method FinishBand()
      modifies `inBand, `totalBandFee, `totalBandWeight, `minBandRate, `maxBandRate, `feeRange, `bandIndex, `leftBound,
          `rightBound
      ensures BoundsSet() && Now() == Finish(old(Now()))
    {
      inBand := false;
      var avg := if totalBandWeight != 0.0 then Ratio(totalBandFee, totalBandWeight) else 0.0;
      var min := if minBandRate.Some? then minBandRate.value else 0.0;
      feeRange := [Band(avg, min, maxBandRate)] + feeRange;
      bandIndex := bandIndex + 1;
      SetNextBounds();
      totalBandFee, totalBandWeight, minBandRate, maxBandRate := 0.0, 0.0, None, 0.0;
    }

    method GetRawFeeStats() returns (stats: RawStats)
      requires Valid()
      modifies `feeRange
      ensures feeRange == Padded(Partial(old(Now())), |percentiles|) && |feeRange| >= 2
      ensures stats == RawStats(feeRange[0].min, feeRange[|feeRange| / 2].avg, feeRange[|feeRange|-1].max,
        Averages(feeRange))
    {
      if totalBandWeight > 0.0 {
        var min := if minBandRate.Some? then minBandRate.value else 0.0;
        feeRange := [Band(Ratio(totalBandFee, totalBandWeight), min, maxBandRate)] + feeRange;
      }
      while |feeRange| < |percentiles|
        invariant Padded(feeRange, |percentiles|) == Padded(Partial(old(Now())), |percentiles|)
      {
        feeRange := [Band(0.0, 0.0, 0.0)] + feeRange;
      }
      stats := RawStats(feeRange[0].min, feeRange[|feeRange| / 2].avg, feeRange[|feeRange|-1].max, Averages(feeRange));
    }

    method GetFeeStats() returns (stats: RawStats)
      requires Valid()
      modifies `feeRange
      ensures feeRange == Padded(Partial(old(Now())), |percentiles|) && |feeRange| == |percentiles| >= 2
      ensures |stats.feeRange| == |percentiles| && stats.feeRange == Reported(feeRange)
      ensures stats.minFee == feeRange[0].min && stats.maxFee == feeRange[|feeRange|-1].max
      ensures stats.medianFee == feeRange[|feeRange| / 2].avg
      ensures Falling(seen) ==> RisingRates(stats.feeRange)
      ensures stats.feeRange[0] == stats.minFee && stats.feeRange[|percentiles|-1] == stats.maxFee
    {
      FinalRange(Bands(), seen, Now());
      stats := GetRawFeeStats();
      ReportedEnds(feeRange, stats);
      stats := stats.(feeRange := stats.feeRange[0 := stats.minFee][|stats.feeRange|-1 := stats.maxFee]);
    }
  }

  /** The range as it is reported, its ends replaced by the extremes. */
  function Reported(entries: seq<Band>): seq<real>
    requires entries != []
  {
    Averages(entries)[0 := entries[0].min][|entries|-1 := entries[|entries|-1].max]
  }

  lemma ReportedEnds(entries: seq<Band>, raw: RawStats)
    requires |entries| >= 2 && raw.feeRange == Averages(entries)
    requires raw.minFee == entries[0].min && raw.maxFee == entries[|entries|-1].max
    ensures var reported := raw.feeRange[0 := raw.minFee][|raw.feeRange|-1 := raw.maxFee];
      && reported == Reported(entries) && |reported| == |entries|
      && reported[0] == raw.minFee && reported[|entries|-1] == raw.maxFee
  {
  }

  lemma FinalRange(bands: seq<Bounds>, txs: seq<FeeTx>, p: Progress)
    requires |bands| >= 2 && Spaced(bands) && Weighty(txs) && Working(bands, txs, Weight(txs), p)
    ensures |Padded(Partial(p), |bands|)| == |bands|
    ensures Falling(txs) ==> RisingRates(Reported(Padded(Partial(p), |bands|)))
  {
    PartialFits(bands, txs, p);
    PaddedFills(Partial(p), |bands|);
    if Falling(txs) {
      PartialRises(bands, txs, p);
      PaddedRises(Partial(p), |bands|);
      EndsRise(Padded(Partial(p), |bands|));
    }
  }

  lemma EndsRise(entries: seq<Band>)
    requires Rising(entries) && |entries| >= 2
    ensures RisingRates(Reported(entries))
  {
  }

  function Averages(entries: seq<Band>): (averages: seq<real>)
    ensures |averages| == |entries| && forall i :: 0 <= i < |entries| ==> averages[i] == entries[i].avg
  {
    if entries == [] then [] else [entries[0].avg] + Averages(entries[1..])
  }

  ghost predicate RisingRates(rates: seq<real>) {
    forall i, j {:trigger rates[i], rates[j]} :: 0 <= i < j < |rates| ==> rates[i] <= rates[j]
  }
}
