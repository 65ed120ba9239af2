/** Which deleted transactions were replaced by which added ones, by comparing all with all
    or by looking spent outpoints up in a table. */
module RbfDetection {
  import opened Basics
  import opened Outpoints
  import opened SpendMaps

  datatype Match = Match(replaced: seq<SpendingTx>, replacedBy: SpendingTx)

  type Found = map<TxId, Match>

  /** A replacement pays more, both in all and by size. */
  predicate Outbids(tx: SpendingTx, replaced: SpendingTx) {
    tx.fee > replaced.fee && tx.adjustedFeePerVsize > replaced.adjustedFeePerVsize
  }

  predicate SharesInput(a: SpendingTx, b: SpendingTx) {
    exists p :: p in a.vin && p in b.vin
  }

  /** All deleted transactions that `tx` can have replaced. */
  ghost function Replaced(tx: SpendingTx, deleted: seq<SpendingTx>): set<SpendingTx> {
    set d | d in deleted && tx.fee > d.fee && tx.adjustedFeePerVsize > d.adjustedFeePerVsize &&
      exists p :: p in d.vin && p in tx.vin
  }

  /** The deleted transaction is, for some input of `tx`, the last one to spend it. */
  ghost predicate LastForSome(tx: SpendingTx, deleted: seq<SpendingTx>, d: SpendingTx) {
    exists i, p {:trigger LastToSpend(deleted, i, p)} :: 0 <= i < |deleted| && p in tx.vin &&
        LastToSpend(deleted, i, p) && deleted[i] == d
  }

  /** Those the table leads to. */
  ghost function ReplacedByTable(tx: SpendingTx, deleted: seq<SpendingTx>): set<SpendingTx> {
    set d | d in deleted && d.txid != tx.txid && tx.fee > d.fee && tx.adjustedFeePerVsize > d.adjustedFeePerVsize &&
      LastForSome(tx, deleted, d)
  }

  /** The result lists `wanted(tx)` for each added transaction, if there is anything to list. */
  ghost predicate Lists(found: Found, added: seq<SpendingTx>, wanted: SpendingTx -> set<SpendingTx>) {
    && (forall tx {:trigger tx in added} :: tx in added && wanted(tx) != {} ==>
         tx.txid in found && found[tx.txid].replacedBy == tx && Members(found[tx.txid].replaced) == wanted(tx))
    && (forall id {:trigger found[id]} :: id in found ==>
         exists tx {:trigger tx in added} :: tx in added && tx.txid == id && wanted(tx) != {})
    && (forall id {:trigger found[id]} :: id in found ==> NoRepeats(found[id].replaced))
  }

  ghost predicate NoRepeats(txs: seq<SpendingTx>) {
    forall i, j {:trigger txs[i], txs[j]} :: 0 <= i < j < |txs| ==> txs[i] != txs[j]
  }

  ghost predicate DistinctIds(txs: seq<SpendingTx>) {
    forall i, j {:trigger txs[i], txs[j]} :: 0 <= i < j < |txs| ==> txs[i].txid != txs[j].txid
  }

  lemma ListsMore(
    found: Found, added: seq<SpendingTx>, n: nat, replaced: seq<SpendingTx>, wanted: SpendingTx -> set<SpendingTx>)
    requires n < |added| && DistinctIds(added) && Lists(found, added[..n], wanted)
    requires Members(replaced) == wanted(added[n]) && NoRepeats(replaced)
    ensures Lists(
      if replaced == [] then found else found[added[n].txid := Match(replaced, added[n])], added[..n+1], wanted)
  {
    var tx := added[n];
    var found' := if replaced == [] then found else found[tx.txid := Match(replaced, tx)];
    PrefixStep(added, n);
    if replaced == [] {
      assert Members(replaced) == {};
    } else {
      assert replaced[0] in Members(replaced);
    }
    forall a | a in added[..n] ensures a.txid != tx.txid {
      var k :| 0 <= k < n && added[k] == a;
      assert added[k].txid != added[n].txid;
    }
    forall id | id in found'
      ensures exists a {:trigger a in added[..n+1]} :: a in added[..n+1] && a.txid == id && wanted(a) != {}
    {
      if id == tx.txid && replaced != [] {
        assert tx in added[..n+1];
      } else {
        var m := found[id];
        var a :| a in added[..n] && a.txid == id && wanted(a) != {};
        assert a in added[..n+1];
      }
    }
  }

  method FindRbfTransactions(
    added: seq<SpendingTx>, deleted: seq<SpendingTx>, forceScalable: bool) returns (found: Found)
    requires DistinctIds(added)
    ensures if |added| < 1000 && |deleted| < 50 && !forceScalable
      then Lists(found, added, tx => Replaced(tx, deleted))
      else Lists(found, added, tx => ReplacedByTable(tx, deleted))
  {
    if |added| < 1000 && |deleted| < 50 && !forceScalable {
      found := CompareAll(added, deleted);
    } else {
      found := LookUp(added, deleted);
    }
  }

  method CompareAll(added: seq<SpendingTx>, deleted: seq<SpendingTx>) returns (found: Found)
    requires DistinctIds(added)
    ensures Lists(found, added, tx => Replaced(tx, deleted))
  {
    found := map[];
    ghost var wanted := (tx: SpendingTx) => Replaced(tx, deleted);
    for i := 0 to |added|
      invariant Lists(found, added[..i], wanted)
    {
      var replaced := FilterReplaced(added[i], deleted);
      ListsMore(found, added, i, replaced, wanted);
      if replaced != [] {
        found := found[added[i].txid := Match(replaced, added[i])];
      }
    }
    PrefixWhole(added);
  }

  method FilterReplaced(tx: SpendingTx, deleted: seq<SpendingTx>) returns (replaced: seq<SpendingTx>)
    ensures Members(replaced) == Replaced(tx, deleted) && NoRepeats(replaced)
  {
    replaced := [];
    for i := 0 to |deleted|
      invariant Members(replaced) == Replaced(tx, deleted[..i]) && NoRepeats(replaced)
    {
      ReplacedMore(tx, deleted, i);
      var d := deleted[i];
      if Outbids(tx, d) && SharesInput(tx, d) && d !in replaced {
        MembersMore(replaced, d);
        replaced := replaced + [d];
      }
    }
    PrefixWhole(deleted);
  }

  lemma ReplacedMore(tx: SpendingTx, deleted: seq<SpendingTx>, i: nat)
    requires i < |deleted|
    ensures Replaced(tx, deleted[..i+1]) ==
      Replaced(tx, deleted[..i]) + if Outbids(tx, deleted[i]) && SharesInput(tx, deleted[i]) then {deleted[i]} else {}
  {
    PrefixStep(deleted, i);
  }

  lemma MembersMore(txs: seq<SpendingTx>, tx: SpendingTx)
    requires NoRepeats(txs) && tx !in txs
    ensures Members(txs + [tx]) == Members(txs) + {tx} && NoRepeats(txs + [tx])
  {
  }

  method LookUp(added: seq<SpendingTx>, deleted: seq<SpendingTx>) returns (found: Found)
    requires DistinctIds(added)
    ensures Lists(found, added, tx => ReplacedByTable(tx, deleted))
  {
    var deletedSpendMap := AddToSpendMap(map[], deleted);
    found := map[];
    ghost var wanted := (tx: SpendingTx) => ReplacedByTable(tx, deleted);
    for i := 0 to |added|
      invariant Lists(found, added[..i], wanted)
    {
      var replaced := FollowTable(added[i], deletedSpendMap, deleted);
      ListsMore(found, added, i, replaced, wanted);
      if replaced != [] {
        found := found[added[i].txid := Match(replaced, added[i])];
      }
    }
    PrefixWhole(added);
  }

  /** Found through the first inputs of `tx`. */
  ghost predicate Through(tx: SpendingTx, vin: seq<Outpoint>, table: SpendMap, d: SpendingTx) {
    d.txid != tx.txid && Outbids(tx, d) && exists p {:trigger p in vin} :: p in vin && p in table && table[p] == d
  }

  method FollowTable(
    tx: SpendingTx, table: SpendMap, ghost deleted: seq<SpendingTx>) returns (replaced: seq<SpendingTx>)
    requires table == EnteredAll(map[], deleted)
    ensures Members(replaced) == ReplacedByTable(tx, deleted) && NoRepeats(replaced)
  {
    replaced := [];
    for i := 0 to |tx.vin|
      invariant forall d {:trigger Through(tx, tx.vin[..i], table, d)} :: d in replaced <==>
        Through(tx, tx.vin[..i], table, d)
      invariant NoRepeats(replaced)
    {
      ThroughMore(tx, i, table);
      ghost var before := replaced;
      var key := tx.vin[i];
      if key in table {
        var d := table[key];
        if d.txid != tx.txid && Outbids(tx, d) && d !in replaced {
          MembersMore(replaced, d);
          replaced := replaced + [d];
        }
      }
      forall d ensures d in replaced <==> Through(tx, tx.vin[..i+1], table, d) {
        assert d in before <==> Through(tx, tx.vin[..i], table, d);
      }
    }
    PrefixWhole(tx.vin);
    forall d ensures d in replaced <==> d in ReplacedByTable(tx, deleted) {
      ThroughIsLast(tx, table, deleted, d);
    }
  }

  lemma ThroughMore(tx: SpendingTx, i: nat, table: SpendMap)
    requires i < |tx.vin|
    ensures forall d {:trigger Through(tx, tx.vin[..i+1], table, d)} ::
      Through(tx, tx.vin[..i+1], table, d) <==>
        Through(tx, tx.vin[..i], table, d) ||
            (d.txid != tx.txid && Outbids(tx, d) && tx.vin[i] in table && table[tx.vin[i]] == d)
  {
    PrefixStep(tx.vin, i);
    forall d ensures Through(tx, tx.vin[..i+1], table, d) <==>
      Through(tx, tx.vin[..i], table, d) ||
          (d.txid != tx.txid && Outbids(tx, d) && tx.vin[i] in table && table[tx.vin[i]] == d)
    {
      if Through(tx, tx.vin[..i], table, d) {
        var p :| p in tx.vin[..i] && p in table && table[p] == d;
        assert p in tx.vin[..i+1];
      }
      if tx.vin[i] in table && table[tx.vin[i]] == d {
        assert tx.vin[i] in tx.vin[..i+1];
      }
      if Through(tx, tx.vin[..i+1], table, d) {
        var p :| p in tx.vin[..i+1] && p in table && table[p] == d;
        assert p in tx.vin[..i] || p == tx.vin[i];
      }
    }
  }

  lemma ThroughIsLast(tx: SpendingTx, table: SpendMap, deleted: seq<SpendingTx>, d: SpendingTx)
    requires table == EnteredAll(map[], deleted)
    ensures Through(tx, tx.vin, table, d) <==> d in ReplacedByTable(tx, deleted)
  {
    if Through(tx, tx.vin, table, d) {
      var p :| p in tx.vin && p in table && table[p] == d;
      var last := EnteredAre(map[], deleted, p);
      assert LastToSpend(deleted, last.value, p);
    }
    if d in ReplacedByTable(tx, deleted) {
      var i, p :| 0 <= i < |deleted| && p in tx.vin && LastToSpend(deleted, i, p) && deleted[i] == d;
      var last := EnteredAre(map[], deleted, p);
      assert last == Some(i);
    }
  }

  // ------------------------------------------------------ how the two forms compare

  /** The table finds exactly those replaced transactions that are the last deleted one to
      spend some input of the replacement. */
  lemma TableFinds(tx: SpendingTx, deleted: seq<SpendingTx>, d: SpendingTx)
    ensures d in ReplacedByTable(tx, deleted) <==>
      d in Replaced(tx, deleted) && d.txid != tx.txid && LastForSome(tx, deleted, d)
  {
    if d in ReplacedByTable(tx, deleted) {
      var i, p :| 0 <= i < |deleted| && p in tx.vin && LastToSpend(deleted, i, p) && deleted[i] == d;
      assert p in tx.vin && p in d.vin;
    }
  }

  /** Deleted transactions that share no outpoint with one another. */
  ghost predicate Apart(deleted: seq<SpendingTx>) {
    forall i, j, p {:trigger p in deleted[i].vin, p in deleted[j].vin} ::
      0 <= i < |deleted| && 0 <= j < |deleted| && p in deleted[i].vin && p in deleted[j].vin ==>
          deleted[i] == deleted[j]
  }

  /** The table form is sound, and finds the same when no two deleted transactions share an
      outpoint. */
  lemma TableAgrees(tx: SpendingTx, deleted: seq<SpendingTx>)
    requires forall d {:trigger d in deleted} :: d in deleted && d.txid == tx.txid ==> d.fee == tx.fee
    ensures ReplacedByTable(tx, deleted) <= Replaced(tx, deleted)
    ensures Apart(deleted) ==> ReplacedByTable(tx, deleted) == Replaced(tx, deleted)
  {
    forall d | d in ReplacedByTable(tx, deleted) ensures d in Replaced(tx, deleted) {
      TableFinds(tx, deleted, d);
    }
    if Apart(deleted) {
      forall d | d in Replaced(tx, deleted) ensures d in ReplacedByTable(tx, deleted) {
        var p :| p in tx.vin && p in d.vin;
        var k :| 0 <= k < |deleted| && deleted[k] == d;
        var i := SomeLast(deleted, p, k);
        assert deleted[i] == deleted[k];
        TableFinds(tx, deleted, d);
      }
    }
  }

  lemma {:induction false} SomeLast(txs: seq<SpendingTx>, p: Outpoint, k: nat) returns (i: nat)
    requires k < |txs| && p in txs[k].vin
    ensures k <= i < |txs| && LastToSpend(txs, i, p)
    decreases |txs| - k
  {
    if j :| k < j < |txs| && p in txs[j].vin {
      i := SomeLast(txs, p, j);
    } else {
      i := k;
    }
  }

  /** With two deleted transactions that spend the same outpoint only the later is found. */
  lemma SharedOutpointHidesOne(tx: SpendingTx, first: SpendingTx, second: SpendingTx)
    requires tx.vin == first.vin == second.vin == [Outpoint(0, 0)]
    requires tx.txid != first.txid && first != second && Outbids(tx, first) && Outbids(tx, second)
    ensures first in Replaced(tx, [first, second]) && first !in ReplacedByTable(tx, [first, second])
  {
    var deleted := [first, second];
    assert Outpoint(0, 0) in tx.vin && Outpoint(0, 0) in first.vin;
    forall i, p | 0 <= i < |deleted| && p in tx.vin && LastToSpend(deleted, i, p) ensures deleted[i] != first {
      assert p in deleted[1].vin;
    }
  }
}
