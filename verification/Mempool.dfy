/** The cached mempool: following the node's list, and the index of what is spent. */
module Mempools {
  import opened Basics
  import opened Outpoints
  import opened SpendMaps

  function Ids(txs: seq<SpendingTx>): seq<TxId> {
    seq(|txs|, i requires 0 <= i < |txs| => txs[i].txid)
  }

  /** The cache with `txs` added. */
  function Cached(cache: TxPool, txs: seq<SpendingTx>): TxPool {
    if txs == [] then cache else Cached(cache, txs[..|txs|-1])[txs[|txs|-1].txid := txs[|txs|-1]]
  }

  lemma {:induction false} CachedIs(cache: TxPool, txs: seq<SpendingTx>)
    ensures Cached(cache, txs).Keys == cache.Keys + Elements(Ids(txs))
    ensures Keyed(cache) ==> Keyed(Cached(cache, txs))
  {
    if txs != [] {
      var init, last := txs[..|txs|-1], txs[|txs|-1];
      CachedIs(cache, init);
      assert Ids(txs) == Ids(init) + [last.txid];
    }
  }

  /** New to the cache, each once. */
  ghost predicate New(cache: TxPool, txs: seq<SpendingTx>) {
    && Distinct(Ids(txs))
    && forall i {:trigger txs[i]} :: 0 <= i < |txs| ==> txs[i].txid !in cache
  }

  lemma NewInit(cache: TxPool, txs: seq<SpendingTx>)
    requires New(cache, txs) && txs != []
    ensures New(cache, txs[..|txs|-1]) && txs[|txs|-1].txid !in Cached(cache, txs[..|txs|-1])
  {
    var init, last := txs[..|txs|-1], txs[|txs|-1];
    assert Ids(txs) == Ids(init) + [last.txid];
    DistinctParts(Ids(init), last.txid);
    CachedIs(cache, init);
  }

  lemma DistinctParts(init: seq<TxId>, last: TxId)
    requires Distinct(init + [last])
    ensures Distinct(init) && last !in Elements(init)
  {
    forall a, b | 0 <= a < b < |init| ensures init[a] != init[b] {
      assert (init + [last])[a] != (init + [last])[b];
    }
    forall k | 0 <= k < |init| ensures init[k] != last {
      assert (init + [last])[k] != (init + [last])[|init|];
    }
  }

  lemma {:induction false} CachedNew(cache: TxPool, txs: seq<SpendingTx>, i: nat)
    requires New(cache, txs)
    ensures |Cached(cache, txs)| == |cache| + |txs|
    ensures forall id {:trigger Cached(cache, txs)[id]} {:trigger cache[id]} :: id in cache ==>
      id in Cached(cache, txs) && Cached(cache, txs)[id] == cache[id]
    ensures i < |txs| ==> txs[i].txid in Cached(cache, txs) && Cached(cache, txs)[txs[i].txid] == txs[i]
  {
    if txs != [] {
      var init := txs[..|txs|-1];
      NewInit(cache, txs);
      CachedNew(cache, init, i);
      assert Cached(cache, txs) == Cached(cache, init)[txs[|txs|-1].txid := txs[|txs|-1]];
    }
  }

  /** The cache with everything dropped that the node does not list. */
  function Kept(cache: TxPool, listed: set<TxId>): TxPool {
    map id | id in cache && id in listed :: cache[id]
  }

  /** The last of the new transactions to spend an outpoint is one that the node lists. */
  ghost predicate NewestListed(added: seq<SpendingTx>, listed: set<TxId>) {
    forall i, p {:trigger LastToSpend(added, i, p)} :: 0 <= i < |added| && LastToSpend(added, i, p) ==>
        added[i].txid in listed
  }

  /** What the callback does to the index of spent outpoints. */
  function Respent(spendMap: SpendMap, removed: seq<SpendingTx>, added: seq<SpendingTx>): SpendMap {
    EnteredAll(ClearedAll(spendMap, removed), added)
  }

  /** Entries name cached transactions again exactly when no outpoint was spent last by a
      transaction that was fetched although the node does not list it. */
  lemma EntriesAfterUpdate(
    cache: TxPool, spendMap: SpendMap, added: seq<SpendingTx>, listed: set<TxId>, removed: seq<SpendingTx>)
    requires Keyed(cache) && EntriesSpend(cache, spendMap) && New(cache, added)
    requires AreUnlisted(Cached(cache, added), listed, removed)
    ensures EntriesSpend(Kept(Cached(cache, added), listed), Respent(spendMap, removed, added)) <==>
      NewestListed(added, listed)
  {
    var full := Cached(cache, added);
    var kept, cleared, after := Kept(full, listed), ClearedAll(spendMap, removed), Respent(spendMap, removed, added);
    ClearedAre(spendMap, removed);
    if NewestListed(added, listed) {
      forall p | p in after
        ensures p in after[p].vin && after[p].txid in kept && kept[after[p].txid] == after[p]
      {
        EntryAfterUpdate(cache, spendMap, added, listed, removed, p);
      }
    }
    if EntriesSpend(kept, after) {
      forall i, p | 0 <= i < |added| && LastToSpend(added, i, p) ensures added[i].txid in listed {
        var last := EnteredAre(cleared, added, p);
        OneLast(added, i, last, p);
        assert after[p] == added[i];
      }
    }
  }

  lemma OneLast(txs: seq<SpendingTx>, i: nat, last: Option<nat>, p: Outpoint)
    requires LastToSpend(txs, i, p)
    requires last.Some? ==> LastToSpend(txs, last.value, p)
    requires last.None? ==> forall k {:trigger txs[k]} :: 0 <= k < |txs| ==> p !in txs[k].vin
    ensures last == Some(i)
  {
  }

  lemma EntryAfterUpdate(
    cache: TxPool, spendMap: SpendMap, added: seq<SpendingTx>, listed: set<TxId>, removed: seq<SpendingTx>, p: Outpoint)
    requires Keyed(cache) && EntriesSpend(cache, spendMap) && New(cache, added) && NewestListed(added, listed)
    requires AreUnlisted(Cached(cache, added), listed, removed)
    requires p in Respent(spendMap, removed, added)
    ensures var kept, after := Kept(Cached(cache, added), listed), Respent(spendMap, removed, added);
      p in after[p].vin && after[p].txid in kept && kept[after[p].txid] == after[p]
  {
    var full := Cached(cache, added);
    var cleared, after := ClearedAll(spendMap, removed), Respent(spendMap, removed, added);
    var last := EnteredAre(cleared, added, p);
    ClearedAre(spendMap, removed);
    if last.Some? {
      CachedNew(cache, added, last.value);
    } else {
      var tx := spendMap[p];
      CachedNew(cache, added, 0);
      CachedIs(cache, added);
      assert cache[tx.txid] == tx && full[tx.txid] == tx;
      forall k | 0 <= k < |removed| ensures removed[k] != tx {
        var other := removed[k];
      }
      assert tx !in removed;
    }
  }

  /** With as many cached as listed, the two sets are the same exactly when nothing is
      cached that is not listed. */
  lemma SameSize(cached: set<TxId>, transactions: seq<TxId>)
    requires Distinct(transactions) && |cached| == |transactions|
    ensures cached == Elements(transactions) <==> cached <= Elements(transactions)
  {
    DistinctCount(transactions);
    if cached <= Elements(transactions) && cached != Elements(transactions) {
      ProperSubsetIsSmaller(cached, Elements(transactions));
      assert false;
    }
  }

  lemma {:induction false} DistinctCount(s: seq<TxId>)
    requires Distinct(s)
    ensures |Elements(s)| == |s|
  {
    if s == [] {
      assert Elements(s) == {};
    } else {
      var init, last := s[..|s|-1], s[|s|-1];
      DistinctCount(init);
      assert s == init + [last];
      assert last !in init by {
        forall k | 0 <= k < |init| ensures init[k] != last {
          assert s[k] != s[|s|-1];
        }
      }
      assert Elements(s) == Elements(init) + {last};
    }
  }

  /** What is new of a bulk answer: the first record of each transaction not cached yet. */
  function Unseen(cache: TxPool, bulk: seq<SpendingTx>): (unseen: seq<SpendingTx>) {
    if bulk == [] then []
    else
      var init, last := Unseen(cache, bulk[..|bulk|-1]), bulk[|bulk|-1];
      if last.txid in Cached(cache, init) then init else init + [last]
  }

  /** They are new, come from the bulk answer, and leave nothing of it uncached. */
  lemma {:induction false} UnseenAre(cache: TxPool, bulk: seq<SpendingTx>)
    ensures New(cache, Unseen(cache, bulk))
    ensures forall tx :: tx in Unseen(cache, bulk) ==> tx in bulk
    ensures forall tx {:trigger tx in bulk} :: tx in bulk ==> tx.txid in Cached(cache, Unseen(cache, bulk))
  {
    if bulk != [] {
      var init, last := Unseen(cache, bulk[..|bulk|-1]), bulk[|bulk|-1];
      UnseenAre(cache, bulk[..|bulk|-1]);
      SplitLast(bulk);
      if last.txid !in Cached(cache, init) {
        NewMore(cache, init, last);
      }
    }
  }

  /** How the cache is protected from a node that suddenly lists much less. */
  datatype Protection = Off | On | Ended

  class Mempool {
    var mempoolCache: TxPool
    var spendMap: SpendMap
    var inSync: bool
    var mempoolProtection: Protection

    ghost predicate Valid()
      reads this
    {
      Keyed(mempoolCache) && EntriesSpend(mempoolCache, spendMap)
    }

    constructor ()
      ensures Valid() && mempoolCache == map[] && spendMap == map[] && !inSync && mempoolProtection == Off
    {
      mempoolCache, spendMap, inSync, mempoolProtection := map[], map[], false, Off;
    }

    /** The timer that was set when the protection began. */
    method EndProtection()
      modifies `mempoolProtection
      ensures mempoolProtection == Ended
    {
      mempoolProtection := Ended;
    }

    /** Everything a bulk request returned that is not cached yet. */
    method ReloadMempool(bulk: seq<SpendingTx>) returns (newTransactions: seq<SpendingTx>)
      modifies `mempoolCache
      ensures newTransactions == Unseen(old(mempoolCache), bulk)
      ensures mempoolCache == Cached(old(mempoolCache), newTransactions)
    {
      newTransactions := [];
      ghost var cache := mempoolCache;
      for i := 0 to |bulk|
        invariant newTransactions == Unseen(cache, bulk[..i]) && mempoolCache == Cached(cache, newTransactions)
      {
        PrefixStep(bulk, i);
        var tx := bulk[i];
        if tx.txid !in mempoolCache {
          CachedMore(cache, newTransactions, tx);
          mempoolCache := mempoolCache[tx.txid := tx];
          newTransactions := newTransactions + [tx];
        }
      }
      PrefixWhole(bulk);
    }

    /** The transactions fetched one by one. */
    method CacheFetched(fetched: seq<SpendingTx>) returns (newTransactions: seq<SpendingTx>)
      requires New(mempoolCache, fetched)
      modifies `mempoolCache
      ensures newTransactions == fetched && mempoolCache == Cached(old(mempoolCache), fetched)
    {
      newTransactions := [];
      ghost var cache := mempoolCache;
      for i := 0 to |fetched|
        invariant newTransactions == fetched[..i] && mempoolCache == Cached(cache, fetched[..i])
      {
        PrefixStep(fetched, i);
        mempoolCache := mempoolCache[fetched[i].txid := fetched[i]];
        newTransactions := newTransactions + [fetched[i]];
      }
      PrefixWhole(fetched);
    }

    /** Drops what the node does not list. */
    method DeleteUnlisted(transactions: seq<TxId>) returns (deletedTransactions: seq<SpendingTx>)
      requires Keyed(mempoolCache)
      modifies `mempoolCache
      ensures mempoolCache == Kept(old(mempoolCache), Elements(transactions))
      ensures AreUnlisted(old(mempoolCache), Elements(transactions), deletedTransactions)
      ensures |deletedTransactions| == |old(mempoolCache)| - |mempoolCache|
    {
      var listed := set id | id in transactions;
      deletedTransactions := CollectUnlisted(mempoolCache, listed);
      KeptCount(mempoolCache, listed);
      mempoolCache := map id | id in mempoolCache && id in listed :: mempoolCache[id];
    }

    /** One update. `bulk` is what a bulk request would return, `fetched` what could be
        fetched of the listed transactions that are not cached. */
    method UpdateMempool(transactions: seq<TxId>, esplora: bool, bulk: seq<SpendingTx>, fetched: seq<SpendingTx>)
      returns (newTransactions: seq<SpendingTx>, deletedTransactions: seq<SpendingTx>)
      requires Keyed(mempoolCache)
      requires New(mempoolCache, fetched) && forall tx :: tx in fetched ==> tx.txid in transactions
      modifies this
      ensures newTransactions ==
        if esplora && |transactions| > 20000 && 2 * |old(mempoolCache)| < |transactions|
        then Unseen(old(mempoolCache), bulk) else fetched
      ensures mempoolProtection == On <==>
        || old(mempoolProtection) == On
        || (old(mempoolProtection) == Off && |old(mempoolCache)| > 20000
            && 5 * |transactions| <= 4 * |old(mempoolCache)|)
      ensures mempoolProtection != On ==> mempoolProtection == Off && mempoolCache.Keys <= Elements(transactions)
      ensures old(mempoolProtection) == Ended ==> mempoolProtection == Off
      ensures mempoolProtection == Protected(old(mempoolProtection), |old(mempoolCache)|, |transactions|)
      ensures mempoolCache ==
        After(Cached(old(mempoolCache), newTransactions), mempoolProtection, Elements(transactions))
      ensures if mempoolProtection == On then deletedTransactions == []
        else AreUnlisted(Cached(old(mempoolCache), newTransactions), Elements(transactions), deletedTransactions)
      ensures spendMap == Respent(old(spendMap), deletedTransactions, newTransactions)
      ensures Keyed(mempoolCache)
      ensures old(EntriesSpend(mempoolCache, spendMap)) ==>
        (EntriesSpend(mempoolCache, spendMap) <==>
          || mempoolProtection == On
          || !(esplora && |transactions| > 20000 && 2 * |old(mempoolCache)| < |transactions|)
          || NewestListed(Unseen(old(mempoolCache), bulk), Elements(transactions)))
      ensures inSync <==>
        || |transactions| == |mempoolCache|
        || (old(inSync) && !(esplora && |transactions| > 20000 && 2 * |old(mempoolCache)| < |transactions|)
            && (mempoolProtection == On ==> old(mempoolProtection) == On))
      ensures Distinct(transactions) && |transactions| == |mempoolCache| ==>
        InSyncMeans(transactions, mempoolCache, mempoolProtection, Cached(old(mempoolCache), newTransactions))
    {
      newTransactions, deletedTransactions := UpdateCache(transactions, esplora, bulk, fetched);
      if EntriesSpend(old(mempoolCache), spendMap) {
        UpdateEntries(old(mempoolCache), spendMap, newTransactions, Elements(transactions), deletedTransactions,
            mempoolProtection);
      }
      HandleChange(newTransactions, deletedTransactions);
    }

    /** The update but for the index of spent outpoints. */
    method UpdateCache(transactions: seq<TxId>, esplora: bool, bulk: seq<SpendingTx>, fetched: seq<SpendingTx>)
      returns (newTransactions: seq<SpendingTx>, deletedTransactions: seq<SpendingTx>)
      requires Keyed(mempoolCache) && New(mempoolCache, fetched)
      modifies `mempoolCache, `inSync, `mempoolProtection
      ensures newTransactions ==
        if Reloads(esplora, |old(mempoolCache)|, |transactions|) then Unseen(old(mempoolCache), bulk) else fetched
      ensures New(old(mempoolCache), newTransactions) && Keyed(mempoolCache)
      ensures mempoolProtection == Protected(old(mempoolProtection), |old(mempoolCache)|, |transactions|)
      ensures mempoolCache ==
        After(Cached(old(mempoolCache), newTransactions), mempoolProtection, Elements(transactions))
      ensures if mempoolProtection == On then deletedTransactions == []
        else AreUnlisted(Cached(old(mempoolCache), newTransactions), Elements(transactions), deletedTransactions)
      ensures inSync <==>
        || |transactions| == |mempoolCache|
        || (old(inSync) && !Reloads(esplora, |old(mempoolCache)|, |transactions|)
            && !Triggers(old(mempoolProtection), |old(mempoolCache)|, |transactions|))
      ensures Distinct(transactions) && |transactions| == |mempoolCache| ==>
        InSyncMeans(transactions, mempoolCache, mempoolProtection, Cached(old(mempoolCache), newTransactions))
    {
      var currentMempoolSize := |mempoolCache|;
      newTransactions := FetchNew(transactions, esplora, bulk, fetched);
      deletedTransactions := DropUnlisted(currentMempoolSize, transactions);
      CachedIs(old(mempoolCache), newTransactions);
      UpdateCounts(old(mempoolCache), newTransactions, transactions, deletedTransactions, mempoolProtection);
      var newMempoolSize := currentMempoolSize + |newTransactions| - |deletedTransactions|;
      if !inSync && |transactions| == newMempoolSize {
        inSync := true;
      }
    }

    /** Two updates with the timer running out between them, whatever was protected before:
        nothing survives that the node no longer lists. `fetch` tells what could be fetched
        beside a given cache. */
    method UpdateAroundTimer(
      first: seq<TxId>, second: seq<TxId>, esplora: bool, bulk: seq<SpendingTx>,
      fetch: (TxPool, seq<TxId>) -> seq<SpendingTx>)
      requires Keyed(mempoolCache)
      requires forall cache, ids :: New(cache, fetch(cache, ids))
      requires forall cache, ids, tx {:trigger tx in fetch(cache, ids)} :: tx in fetch(cache, ids) ==> tx.txid in ids
      modifies this
      ensures mempoolProtection == Off && Keyed(mempoolCache) && mempoolCache.Keys <= Elements(second)
    {
      var added, removed := UpdateMempool(first, esplora, bulk, fetch(mempoolCache, first));
      EndProtection();
      added, removed := UpdateMempool(second, esplora, bulk, fetch(mempoolCache, second));
    }

    /** The first part of an update: what is new is cached. */
    method FetchNew(transactions: seq<TxId>, esplora: bool, bulk: seq<SpendingTx>, fetched: seq<SpendingTx>)
      returns (newTransactions: seq<SpendingTx>)
      requires Keyed(mempoolCache) && New(mempoolCache, fetched)
      modifies `mempoolCache, `inSync
      ensures New(old(mempoolCache), newTransactions) && mempoolCache == Cached(old(mempoolCache), newTransactions)
      ensures Keyed(mempoolCache)
      ensures if Reloads(esplora, |old(mempoolCache)|, |transactions|)
        then !inSync && newTransactions == Unseen(old(mempoolCache), bulk)
        else inSync == old(inSync) && newTransactions == fetched
    {
      if Reloads(esplora, |mempoolCache|, |transactions|) {
        inSync := false;
        UnseenAre(mempoolCache, bulk);
        newTransactions := ReloadMempool(bulk);
      } else {
        newTransactions := CacheFetched(fetched);
      }
      CachedIs(old(mempoolCache), newTransactions);
    }

    /** The second part: what the node does not list is dropped, unless that is too much. */
    method DropUnlisted(currentMempoolSize: nat, transactions: seq<TxId>) returns (deletedTransactions: seq<SpendingTx>)
      requires Keyed(mempoolCache)
      modifies `mempoolCache, `inSync, `mempoolProtection
      ensures mempoolProtection == Protected(old(mempoolProtection), currentMempoolSize, |transactions|)
      ensures inSync == (old(inSync) && !Triggers(old(mempoolProtection), currentMempoolSize, |transactions|))
      ensures mempoolCache == After(old(mempoolCache), mempoolProtection, Elements(transactions))
      ensures if mempoolProtection == On then deletedTransactions == []
        else AreUnlisted(old(mempoolCache), Elements(transactions), deletedTransactions)
             && |deletedTransactions| == |old(mempoolCache)| - |mempoolCache|
    {
      if Triggers(mempoolProtection, currentMempoolSize, |transactions|) {
        mempoolProtection := On;
        inSync := false;
      }
      deletedTransactions := [];
      if mempoolProtection != On {
        mempoolProtection := Off;
        deletedTransactions := DeleteUnlisted(transactions);
      }
    }

    /** What is told of the change: the index of spent outpoints follows. */
    method HandleChange(newTransactions: seq<SpendingTx>, deletedTransactions: seq<SpendingTx>)
      modifies `spendMap
      ensures spendMap == Respent(old(spendMap), deletedTransactions, newTransactions)
    {
      spendMap := RemoveFromSpendMap(spendMap, deletedTransactions);
      spendMap := AddToSpendMap(spendMap, newTransactions);
    }

    /** A new block: what it replaces is found, and what it mined leaves the mempool. */
    method HandleNewBlock(mined: seq<SpendingTx>) returns (matches: Matches)
      requires Valid()
      requires forall i, j {:trigger mined[i], mined[j]} :: 0 <= i < j < |mined| ==> mined[i].txid != mined[j].txid
      requires forall tx {:trigger tx in mined} :: tx in mined && tx.txid in mempoolCache ==>
        mempoolCache[tx.txid].vin == tx.vin
      modifies this
      ensures Valid() && inSync == old(inSync) && mempoolProtection == old(mempoolProtection)
      ensures mempoolCache == old(mempoolCache) - IdsOf(mined)
      ensures Found(old(spendMap), mined, IdsOf(mined), spendMap, matches)
    {
      matches, spendMap := FindMinedRbfTransactions(mined, spendMap);
      NothingLeftToClear(old(spendMap), mined, spendMap, matches);
      BlockKeepsEntries(mempoolCache, old(spendMap), mined, spendMap, matches);
      spendMap := RemoveFromSpendMap(spendMap, mined);
      var ids := set tx | tx in mined :: tx.txid;
      mempoolCache := mempoolCache - ids;
    }
  }

  predicate Reloads(esplora: bool, cached: nat, listed: nat) {
    esplora && 2 * cached < listed && listed > 20000
  }

  /** The node lists no more than four fifths of a large mempool. */
  predicate Triggers(protection: Protection, cached: nat, listed: nat) {
    protection == Off && cached > 20000 && 5 * listed <= 4 * cached
  }

  function Protected(protection: Protection, cached: nat, listed: nat): Protection {
    if Triggers(protection, cached, listed) || protection == On then On else Off
  }

  function After(full: TxPool, protection: Protection, listed: set<TxId>): TxPool {
    if protection == On then full else Kept(full, listed)
  }

  /** With as many cached as listed, they are the same transactions, except that under
      protection nothing unlisted must have been cached either. */
  ghost predicate InSyncMeans(transactions: seq<TxId>, cache: TxPool, protection: Protection, full: TxPool) {
    cache.Keys == Elements(transactions) <==> (protection != On || full.Keys <= Elements(transactions))
  }

  lemma UpdateCounts(
    cache: TxPool, added: seq<SpendingTx>, transactions: seq<TxId>, removed: seq<SpendingTx>, protection: Protection)
    requires New(cache, added)
    requires protection == On ==> removed == []
    requires protection != On ==>
      |removed| == |Cached(cache, added)| - |Kept(Cached(cache, added), Elements(transactions))|
    ensures var after := After(Cached(cache, added), protection, Elements(transactions));
      && |cache| + |added| - |removed| == |after|
      && (Distinct(transactions) && |transactions| == |after| ==>
          InSyncMeans(transactions, after, protection, Cached(cache, added)))
  {
    var full := Cached(cache, added);
    var after := After(full, protection, Elements(transactions));
    CachedNew(cache, added, 0);
    assert |after| == |after.Keys|;
    if Distinct(transactions) && |transactions| == |after| {
      SameSize(after.Keys, transactions);
    }
  }

  lemma UpdateEntries(
    cache: TxPool, spendMap: SpendMap, added: seq<SpendingTx>, listed: set<TxId>, removed: seq<SpendingTx>,
    protection: Protection)
    requires Keyed(cache) && EntriesSpend(cache, spendMap) && New(cache, added)
    requires if protection == On then removed == [] else AreUnlisted(Cached(cache, added), listed, removed)
    ensures Keyed(After(Cached(cache, added), protection, listed))
    ensures EntriesSpend(After(Cached(cache, added), protection, listed), Respent(spendMap, removed, added))
      <==> protection == On || NewestListed(added, listed)
  {
    var full := Cached(cache, added);
    CachedIs(cache, added);
    if protection == On {
      assert Kept(full, full.Keys) == full;
      EntriesAfterUpdate(cache, spendMap, added, full.Keys, removed);
      forall i, p | 0 <= i < |added| && LastToSpend(added, i, p) ensures added[i].txid in full.Keys {
        CachedNew(cache, added, i);
      }
    } else {
      EntriesAfterUpdate(cache, spendMap, added, listed, removed);
    }
  }

  lemma NothingLeftToClear(before: SpendMap, mined: seq<SpendingTx>, now: SpendMap, matches: Matches)
    requires Found(before, mined, IdsOf(mined), now, matches)
    ensures ClearedAll(now, mined) == now
  {
    ClearedAre(now, mined);
    forall p | p in now ensures p in ClearedAll(now, mined) {
      var entry := now[p];
      forall i | 0 <= i < |mined| ensures p !in mined[i].vin {
        assert mined[i] in mined;
        assert p in mined[i].vin ==> p in SpentBy(mined);
      }
    }
  }

  lemma BlockKeepsEntries(
    cache: TxPool, before: SpendMap, mined: seq<SpendingTx>, now: SpendMap, matches: Matches)
    requires Keyed(cache) && EntriesSpend(cache, before) && Found(before, mined, IdsOf(mined), now, matches)
    requires forall tx {:trigger tx in mined} :: tx in mined && tx.txid in cache ==> cache[tx.txid].vin == tx.vin
    ensures EntriesSpend(cache - IdsOf(mined), now)
  {
  }

  // --------------------------------------------------------------- what can go wrong

  /** Under protection as many may be cached as are listed although they are not the same:
      one that is no longer listed stands in for one that could not be fetched. */
  lemma ProtectedCountsCanMislead(
    cache: TxPool, transactions: seq<TxId>, fetched: seq<SpendingTx>, stale: TxId, missing: TxId)
    requires Distinct(transactions) && New(cache, fetched) && missing in transactions && stale !in transactions
    requires Cached(cache, fetched).Keys == Elements(transactions) - {missing} + {stale}
    ensures |transactions| == |After(Cached(cache, fetched), On, Elements(transactions))|
    ensures After(Cached(cache, fetched), On, Elements(transactions)).Keys != Elements(transactions)
  {
    DistinctCount(transactions);
    assert missing in Elements(transactions) && stale !in Elements(transactions);
    assert |Cached(cache, fetched)| == |Cached(cache, fetched).Keys|;
  }

  /** A transaction that a bulk request returns although the node's list lacks it leaves
      its entries behind when it is dropped. */
  lemma UnlistedLeavesEntries(tx: SpendingTx, transactions: seq<TxId>)
    requires |transactions| > 20000 && tx.txid !in transactions && tx.vin != []
    ensures Reloads(true, 0, |transactions|) && Unseen(map[], [tx]) == [tx]
    ensures !NewestListed([tx], Elements(transactions))
    ensures !EntriesSpend(Kept(Cached(map[], [tx]), Elements(transactions)), Respent(map[], [tx], [tx]))
  {
    var p := tx.vin[0];
    assert LastToSpend([tx], 0, p);
    assert ClearedAll(map[], []) == map[];
    assert [tx][..0] == [];
    assert p in Respent(map[], [tx], [tx]);
  }

  /** Exactly the cached transactions that the node does not list. */
  ghost predicate AreUnlisted(cache: TxPool, listed: set<TxId>, txs: seq<SpendingTx>) {
    forall tx {:trigger tx in txs} :: tx in txs <==> tx.txid in cache && tx.txid !in listed && cache[tx.txid] == tx
  }

  method CollectUnlisted(cache: TxPool, listed: set<TxId>) returns (unlisted: seq<SpendingTx>)
    requires Keyed(cache)
    ensures AreUnlisted(cache, listed, unlisted) && |unlisted| == |cache.Keys - listed|
  {
    var todo := cache.Keys - listed;
    unlisted := [];
    ghost var gone := {};
    while todo != {}
      invariant todo + gone == cache.Keys - listed && todo !! gone && |unlisted| == |gone|
      invariant forall tx {:trigger tx in unlisted} :: tx in unlisted <==> tx.txid in gone && cache[tx.txid] == tx
      decreases todo
    {
      var id :| id in todo;
      todo := todo - {id};
      gone := gone + {id};
      unlisted := unlisted + [cache[id]];
    }
  }

  lemma KeptCount(cache: TxPool, listed: set<TxId>)
    ensures |Kept(cache, listed)| == |cache| - |cache.Keys - listed|
  {
    var kept, gone := Kept(cache, listed).Keys, cache.Keys - listed;
    assert cache.Keys == kept + gone;
    assert |cache| == |cache.Keys| && |Kept(cache, listed)| == |kept|;
  }

  lemma CachedMore(cache: TxPool, txs: seq<SpendingTx>, tx: SpendingTx)
    ensures Cached(cache, txs + [tx]) == Cached(cache, txs)[tx.txid := tx]
  {
    LastOfConcat(txs, [tx]);
    assert txs + [tx][..0] == txs;
  }

  lemma NewMore(cache: TxPool, txs: seq<SpendingTx>, tx: SpendingTx)
    requires New(cache, txs) && tx.txid !in Cached(cache, txs)
    ensures New(cache, txs + [tx]) && Cached(cache, txs + [tx]) == Cached(cache, txs)[tx.txid := tx]
  {
    var more := txs + [tx];
    CachedIs(cache, txs);
    assert more[..|more|-1] == txs;
    forall a, b | 0 <= a < b < |more| ensures Ids(more)[a] != Ids(more)[b] {
      if b < |txs| {
        assert Ids(txs)[a] != Ids(txs)[b];
      } else {
        assert Ids(txs)[a] in Elements(Ids(txs));
      }
    }
  }
}
