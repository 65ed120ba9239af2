/** Keeping the index from outpoints to spenders, and finding what mined transactions replace. */
module SpendMaps {
  import opened Basics
  import opened Outpoints

  function Points(vin: seq<Outpoint>): set<Outpoint> {
    set p | p in vin
  }

  function VinSet(tx: SpendingTx): set<Outpoint> {
    Points(tx.vin)
  }

  ghost function Members(txs: seq<SpendingTx>): set<SpendingTx> {
    set tx | tx in txs
  }

  /** Every input of `tx` gets an entry for it. */
  function Entered(spendMap: SpendMap, tx: SpendingTx): SpendMap {
    map p | p in spendMap.Keys + VinSet(tx) :: if p in tx.vin then tx else spendMap[p]
  }

  function EnteredAll(spendMap: SpendMap, txs: seq<SpendingTx>): SpendMap {
    if txs == [] then spendMap else Entered(EnteredAll(spendMap, txs[..|txs|-1]), txs[|txs|-1])
  }

  /** The entries for `tx` are deleted. */
  function Cleared(spendMap: SpendMap, tx: SpendingTx): SpendMap {
    map p | p in spendMap && !(p in tx.vin && spendMap[p].txid == tx.txid) :: spendMap[p]
  }

  function ClearedAll(spendMap: SpendMap, txs: seq<SpendingTx>): SpendMap {
    if txs == [] then spendMap else Cleared(ClearedAll(spendMap, txs[..|txs|-1]), txs[|txs|-1])
  }

  method AddToSpendMap(spendMap: SpendMap, transactions: seq<SpendingTx>) returns (after: SpendMap)
    ensures after == EnteredAll(spendMap, transactions)
  {
    after := spendMap;
    for i := 0 to |transactions|
      invariant after == EnteredAll(spendMap, transactions[..i])
    {
      var tx := transactions[i];
      ghost var before := after;
      for j := 0 to |tx.vin|
        invariant forall p {:trigger p in after} :: p in after <==> p in before || p in tx.vin[..j]
        invariant forall p {:trigger after[p]} :: p in after ==> after[p] == if p in tx.vin[..j] then tx else before[p]
      {
        PrefixStep(tx.vin, j);
        after := after[tx.vin[j] := tx];
      }
      PrefixWhole(tx.vin);
      assert after == Entered(before, tx);
      PrefixStep(transactions, i);
    }
    PrefixWhole(transactions);
  }

  method RemoveFromSpendMap(spendMap: SpendMap, transactions: seq<SpendingTx>) returns (after: SpendMap)
    ensures after == ClearedAll(spendMap, transactions)
  {
    after := spendMap;
    for i := 0 to |transactions|
      invariant after == ClearedAll(spendMap, transactions[..i])
    {
      var tx := transactions[i];
      ghost var before := after;
      for j := 0 to |tx.vin|
        invariant forall p {:trigger p in after} ::
          p in after <==> p in before && !(p in tx.vin[..j] && before[p].txid == tx.txid)
        invariant forall p {:trigger after[p]} :: p in after ==> after[p] == before[p]
      {
        PrefixStep(tx.vin, j);
        var key := tx.vin[j];
        if key in after && after[key].txid == tx.txid {
          after := after - {key};
        }
      }
      PrefixWhole(tx.vin);
      assert after == Cleared(before, tx);
      PrefixStep(transactions, i);
    }
    PrefixWhole(transactions);
  }

  lemma {:induction false} ClearedAre(spendMap: SpendMap, txs: seq<SpendingTx>)
    ensures forall p {:trigger p in ClearedAll(spendMap, txs)} ::
      p in ClearedAll(spendMap, txs) <==>
        p in spendMap && forall i {:trigger txs[i]} :: 0 <= i < |txs| ==>
            !(p in txs[i].vin && spendMap[p].txid == txs[i].txid)
    ensures forall p {:trigger ClearedAll(spendMap, txs)[p]} :: p in ClearedAll(spendMap, txs) ==>
      ClearedAll(spendMap, txs)[p] == spendMap[p]
  {
    if txs != [] {
      ClearedAre(spendMap, txs[..|txs|-1]);
    }
  }

  /** `tx` is the last of `txs` to spend `p`. */
  ghost predicate LastToSpend(txs: seq<SpendingTx>, i: nat, p: Outpoint) {
    i < |txs| && p in txs[i].vin && forall j {:trigger txs[j]} :: i < j < |txs| ==> p !in txs[j].vin
  }

  lemma {:induction false} EnteredAre(spendMap: SpendMap, txs: seq<SpendingTx>, p: Outpoint) returns (last: Option<nat>)
    ensures last.Some? ==>
      LastToSpend(txs, last.value, p) && p in EnteredAll(spendMap, txs) &&
          EnteredAll(spendMap, txs)[p] == txs[last.value]
    ensures last.None? ==>
      && (forall i {:trigger txs[i]} :: 0 <= i < |txs| ==> p !in txs[i].vin)
      && (p in EnteredAll(spendMap, txs) <==> p in spendMap)
      && (p in spendMap ==> EnteredAll(spendMap, txs)[p] == spendMap[p])
  {
    if txs == [] {
      last := None;
    } else if p in txs[|txs|-1].vin {
      last := Some(|txs| - 1);
    } else {
      last := EnteredAre(spendMap, txs[..|txs|-1], p);
    }
  }

  // ------------------------------------------------ what mined transactions replace

  type Matches = map<TxId, seq<SpendingTx>>

  /** All transactions listed. */
  ghost function Listed(matches: Matches): set<SpendingTx> {
    set id, tx | id in matches && tx in matches[id] :: tx
  }

  /** Nothing is listed twice. */
  ghost predicate ListedOnce(matches: Matches) {
    && (forall id, i, j {:trigger matches[id][i], matches[id][j]} :: id in matches && 0 <= i < j < |matches[id]| ==>
        matches[id][i] != matches[id][j])
    && (forall one, two, tx {:trigger tx in matches[one], tx in matches[two]} ::
         one in matches && two in matches && tx in matches[one] && tx in matches[two] ==> one == two)
  }

  /** `tx` had an entry for an outpoint that the mined transaction spends, and is another. */
  ghost predicate Conflicts(before: SpendMap, mined: SpendingTx, tx: SpendingTx) {
    tx.txid != mined.txid && exists p {:trigger p in mined.vin} :: p in mined.vin && p in before && before[p] == tx
  }

  ghost predicate Sublist(before: SpendMap, after: SpendMap) {
    forall p {:trigger after[p]} {:trigger p in after} :: p in after ==> p in before && after[p] == before[p]
  }

  /** Entries lead to transactions that spend the outpoint. */
  ghost predicate Spending(spendMap: SpendMap) {
    forall p {:trigger spendMap[p]} :: p in spendMap ==> p in spendMap[p].vin
  }

  /** Some listed transaction spends `p`. */
  ghost predicate Covered(listed: set<SpendingTx>, p: Outpoint) {
    exists tx {:trigger tx in listed} :: tx in listed && p in tx.vin
  }

  /** The state of the search: `listed` has been found, and has no entries any more; of the
      outpoints in `spent` none is left, and an entry was deleted for a listed transaction
      that spends the outpoint or because its transaction is mined itself. */
  ghost predicate Searching(
    before: SpendMap, listed: set<SpendingTx>, spent: set<Outpoint>, minedIds: set<TxId>, now: SpendMap) {
    && Sublist(before, now)
    && (forall p {:trigger now[p]} :: p in now ==> now[p] !in listed && p !in spent)
    && (forall p {:trigger before[p]} :: p in before && p !in now ==>
         Covered(listed, p) || (p in spent && before[p].txid in minedIds))
  }

  function WithoutInputs(spendMap: SpendMap, tx: SpendingTx): SpendMap {
    spendMap - VinSet(tx)
  }

  lemma CoveredMore(listed: set<SpendingTx>, tx: SpendingTx)
    ensures forall p {:trigger Covered(listed + {tx}, p)} :: Covered(listed, p) || p in tx.vin ==>
      Covered(listed + {tx}, p)
  {
    forall p | Covered(listed, p) || p in tx.vin ensures Covered(listed + {tx}, p) {
      if Covered(listed, p) {
        var other :| other in listed && p in other.vin;
        assert other in listed + {tx};
      } else {
        assert tx in listed + {tx};
      }
    }
  }

  /** An entry for another transaction at an outpoint the mined one spends. */
  lemma SearchMatch(
    before: SpendMap, listed: set<SpendingTx>, spent: set<Outpoint>, minedIds: set<TxId>, now: SpendMap, p: Outpoint)
    requires Spending(before) && Searching(before, listed, spent, minedIds, now) && p in now
    ensures now[p] !in listed
    ensures Searching(before, listed + {now[p]}, spent + {p}, minedIds, WithoutInputs(now, now[p]) - {p})
  {
    var tx := now[p];
    var after := WithoutInputs(now, tx) - {p};
    CoveredMore(listed, tx);
    forall q | q in after ensures after[q] !in listed + {tx} && q !in spent + {p} {
      assert before[q] == now[q] == after[q];
    }
    forall q | q in before && q !in after ensures Covered(listed + {tx}, q) ||
        (q in spent + {p} && before[q].txid in minedIds) {
      if q in now {
        assert before[p] == now[p];
        assert q in VinSet(tx) || q == p;
      }
    }
  }

  /** No entry, or one for the mined transaction itself. */
  lemma SearchOther(
    before: SpendMap, listed: set<SpendingTx>, spent: set<Outpoint>, minedIds: set<TxId>, now: SpendMap, p: Outpoint)
    requires Searching(before, listed, spent, minedIds, now)
    requires p in now ==> now[p].txid in minedIds
    ensures Searching(before, listed, spent + {p}, minedIds, now - {p})
  {
    var after := now - {p};
    forall q | q in before && q !in after ensures Covered(listed, q) ||
        (q in spent + {p} && before[q].txid in minedIds) {
      if q in now {
        assert before[q] == now[q];
      }
    }
  }

  ghost function SpentBy(mined: seq<SpendingTx>): set<Outpoint> {
    set tx, p | tx in mined && p in tx.vin :: p
  }

  ghost function IdsOf(txs: seq<SpendingTx>): set<TxId> {
    set tx | tx in txs :: tx.txid
  }

  method DeleteInputs(spendMap: SpendMap, tx: SpendingTx) returns (after: SpendMap)
    ensures after == WithoutInputs(spendMap, tx)
  {
    after := spendMap;
    for i := 0 to |tx.vin|
      invariant after == spendMap - Points(tx.vin[..i])
    {
      PrefixStep(tx.vin, i);
      assert Points(tx.vin[..i+1]) == Points(tx.vin[..i]) + {tx.vin[i]};
      after := after - {tx.vin[i]};
    }
    PrefixWhole(tx.vin);
  }

  /** What one mined transaction has replaced so far. */
  ghost predicate Replacing(
    before: SpendMap, listed: set<SpendingTx>, spent: set<Outpoint>, minedIds: set<TxId>, tx: SpendingTx, n: nat,
    now: SpendMap, replaced: seq<SpendingTx>)
    requires n <= |tx.vin|
  {
    && Searching(before, listed + Members(replaced), spent + Points(tx.vin[..n]), minedIds, now)
    && (forall k, j {:trigger replaced[k], replaced[j]} :: 0 <= k < j < |replaced| ==> replaced[k] != replaced[j])
    && (forall t {:trigger t in replaced} :: t in replaced ==> t !in listed && Conflicts(before, tx, t))
  }

  lemma ReplacingStep(
    before: SpendMap, listed: set<SpendingTx>, spent: set<Outpoint>, minedIds: set<TxId>, tx: SpendingTx, n: nat,
    now: SpendMap, replaced: seq<SpendingTx>)
    requires n < |tx.vin| && Spending(before) && tx.txid in minedIds
    requires Replacing(before, listed, spent, minedIds, tx, n, now, replaced)
    ensures var key := tx.vin[n];
      if key in now && now[key].txid != tx.txid
      then Replacing(before, listed, spent, minedIds, tx, n + 1, WithoutInputs(now, now[key]) - {key},
          replaced + [now[key]])
      else Replacing(before, listed, spent, minedIds, tx, n + 1, now - {key}, replaced)
  {
    var key, found, seen := tx.vin[n], Members(replaced), Points(tx.vin[..n]);
    PrefixStep(tx.vin, n);
    assert Points(tx.vin[..n+1]) == seen + {key};
    assert spent + Points(tx.vin[..n+1]) == spent + seen + {key};
    if key in now && now[key].txid != tx.txid {
      var match' := now[key];
      SearchMatch(before, listed + found, spent + seen, minedIds, now, key);
      assert Members(replaced + [match']) == found + {match'};
      assert listed + Members(replaced + [match']) == listed + found + {match'};
      assert before[key] == match' && key in tx.vin;
    } else {
      SearchOther(before, listed + found, spent + seen, minedIds, now, key);
    }
  }

  /** What one mined transaction replaces. */
  method FindReplaced(
    spendMap: SpendMap, tx: SpendingTx, ghost before: SpendMap, ghost listed: set<SpendingTx>,
    ghost spent: set<Outpoint>, ghost minedIds: set<TxId>)
    returns (after: SpendMap, replaced: seq<SpendingTx>)
    requires Spending(before) && Searching(before, listed, spent, minedIds, spendMap) && tx.txid in minedIds
    ensures Replacing(before, listed, spent, minedIds, tx, |tx.vin|, after, replaced)
  {
    after, replaced := spendMap, [];
    assert listed + Members(replaced) == listed && spent + Points(tx.vin[..0]) == spent;
    for i := 0 to |tx.vin|
      invariant Replacing(before, listed, spent, minedIds, tx, i, after, replaced)
    {
      var key := tx.vin[i];
      ReplacingStep(before, listed, spent, minedIds, tx, i, after, replaced);
      if key in after && after[key].txid != tx.txid {
        var replacedTx := after[key];
        replaced := replaced + [replacedTx];
        after := DeleteInputs(after, replacedTx);
      }
      after := after - {key};
    }
  }

  /** What the search has found for the mined transactions `done`. */
  ghost predicate Found(before: SpendMap, done: seq<SpendingTx>, minedIds: set<TxId>, now: SpendMap, matches: Matches) {
    && Searching(before, Listed(matches), SpentBy(done), minedIds, now)
    && ListedOnce(matches)
    && (forall id {:trigger matches[id]} :: id in matches ==> matches[id] != [])
    && AllConflict(before, done, matches)
  }

  lemma FoundStep(
    before: SpendMap, mined: seq<SpendingTx>, n: nat, minedIds: set<TxId>, now: SpendMap, matches: Matches,
    now': SpendMap, replaced: seq<SpendingTx>)
    requires n < |mined| &&
      (forall i, j {:trigger mined[i], mined[j]} :: 0 <= i < j < |mined| ==> mined[i].txid != mined[j].txid)
    requires Found(before, mined[..n], minedIds, now, matches)
    requires Replacing(before, Listed(matches), SpentBy(mined[..n]), minedIds, mined[n], |mined[n].vin|, now', replaced)
    ensures Found(before, mined[..n+1], minedIds, now',
                  if replaced == [] then matches else matches[mined[n].txid := replaced])
  {
    var tx := mined[n];
    PrefixStep(mined, n);
    PrefixWhole(tx.vin);
    NotMatchedYet(before, mined, n, minedIds, now, matches);
    assert SpentBy(mined[..n+1]) == SpentBy(mined[..n]) + Points(tx.vin);
    if replaced == [] {
      assert Listed(matches) + Members(replaced) == Listed(matches);
    } else {
      ListedMore(matches, tx.txid, replaced);
    }
    MatchesConflict(before, mined, n, matches, replaced);
  }

  lemma NotMatchedYet(
    before: SpendMap, mined: seq<SpendingTx>, n: nat, minedIds: set<TxId>, now: SpendMap, matches: Matches)
    requires n < |mined| &&
      (forall i, j {:trigger mined[i], mined[j]} :: 0 <= i < j < |mined| ==> mined[i].txid != mined[j].txid)
    requires Found(before, mined[..n], minedIds, now, matches)
    ensures mined[n].txid !in matches
  {
    forall id | id in matches ensures id != mined[n].txid {
      assert matches[id][0] in matches[id];
      var m :| m in mined[..n] && m.txid == id;
      var k :| 0 <= k < n && mined[k] == m;
      assert mined[k].txid != mined[n].txid;
    }
  }

  lemma ListedMore(matches: Matches, id: TxId, replaced: seq<SpendingTx>)
    requires id !in matches
    ensures Listed(matches[id := replaced]) == Listed(matches) + Members(replaced)
    ensures ListedOnce(matches) && (forall t {:trigger t in replaced} :: t in replaced ==> t !in Listed(matches))
      && (forall k, j {:trigger replaced[k], replaced[j]} :: 0 <= k < j < |replaced| ==> replaced[k] != replaced[j])
      ==> ListedOnce(matches[id := replaced])
  {
    var matches' := matches[id := replaced];
    forall t | t in Listed(matches) + Members(replaced) ensures t in Listed(matches') {
      if t in replaced {
        assert t in matches'[id];
      } else {
        var other :| other in matches && t in matches[other];
        assert t in matches'[other];
      }
    }
    forall t | t in Listed(matches') ensures t in Listed(matches) + Members(replaced) {
      var other :| other in matches' && t in matches'[other];
      if other != id {
        assert t in matches[other];
      }
    }
    if ListedOnce(matches) && forall t {:trigger t in replaced} :: t in replaced ==> t !in Listed(matches) {
      forall one, two, t | one in matches' && two in matches' && t in matches'[one] &&
          t in matches'[two] ensures one == two {
        assert one != id ==> t in matches[one] && t in Listed(matches);
        assert two != id ==> t in matches[two] && t in Listed(matches);
      }
    }
  }

  ghost predicate AllConflict(before: SpendMap, done: seq<SpendingTx>, matches: Matches) {
    forall id, tx {:trigger tx in matches[id]} :: id in matches && tx in matches[id] ==>
      exists m {:trigger m in done} :: m in done && m.txid == id && Conflicts(before, m, tx)
  }

  lemma MatchesConflict(
    before: SpendMap, mined: seq<SpendingTx>, n: nat, matches: Matches, replaced: seq<SpendingTx>)
    requires n < |mined| && AllConflict(before, mined[..n], matches)
    requires forall t {:trigger t in replaced} :: t in replaced ==> Conflicts(before, mined[n], t)
    ensures AllConflict(before, mined[..n+1], if replaced == [] then matches else matches[mined[n].txid := replaced])
  {
    var tx := mined[n];
    var matches' := if replaced == [] then matches else matches[tx.txid := replaced];
    PrefixStep(mined, n);
    forall id, t | id in matches' && t in matches'[id]
      ensures exists m {:trigger m in mined[..n+1]} :: m in mined[..n+1] && m.txid == id && Conflicts(before, m, t)
    {
      if id == tx.txid && replaced != [] {
        assert tx in mined[..n+1];
      } else {
        assert t in matches[id];
        var m :| m in mined[..n] && m.txid == id && Conflicts(before, m, t);
        assert m in mined[..n+1];
      }
    }
  }

  /** For each mined transaction the other transactions that had an entry for an outpoint it
      spends. */
  method FindMinedRbfTransactions(
    mined: seq<SpendingTx>, spendMap: SpendMap) returns (matches: Matches, after: SpendMap)
    requires Spending(spendMap)
    requires forall i, j {:trigger mined[i], mined[j]} :: 0 <= i < j < |mined| ==> mined[i].txid != mined[j].txid
    ensures Found(spendMap, mined, IdsOf(mined), after, matches)
  {
    matches, after := map[], spendMap;
    ghost var ids := IdsOf(mined);
    assert Listed(matches) == {} && SpentBy([]) == {};
    PrefixWhole(mined);
    for i := 0 to |mined|
      invariant Found(spendMap, mined[..i], ids, after, matches)
    {
      var replaced;
      ghost var before := after;
      after, replaced := FindReplaced(after, mined[i], spendMap, Listed(matches), SpentBy(mined[..i]), ids);
      FoundStep(spendMap, mined, i, ids, before, matches, after, replaced);
      if replaced != [] {
        matches := matches[mined[i].txid := replaced];
      }
    }
  }
}
