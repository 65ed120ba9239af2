/** Transactions as spenders of outpoints, and the index from outpoints to spenders. */
module Outpoints {
  import opened Basics

  datatype Outpoint = Outpoint(txid: TxId, vout: nat)

  /** A mempool transaction: what it spends, how many outputs it has, and what it pays. */
  datatype SpendingTx = SpendingTx(
    txid: TxId, vin: seq<Outpoint>, vouts: nat, weight: nat, sigops: nat, fee: int, adjustedFeePerVsize: real)

  type SpendMap = map<Outpoint, SpendingTx>
  type TxPool = map<TxId, SpendingTx>

  ghost predicate Keyed(pool: TxPool) {
    forall id {:trigger pool[id]} :: id in pool ==> pool[id].txid == id
  }

  /** Each entry names a known transaction that spends the outpoint. */
  ghost predicate EntriesSpend(pool: TxPool, spendMap: SpendMap) {
    forall p {:trigger spendMap[p]} :: p in spendMap ==>
      p in spendMap[p].vin && spendMap[p].txid in pool && pool[spendMap[p].txid] == spendMap[p]
  }

  /** Each outpoint a known transaction spends has an entry for it. */
  ghost predicate SpendsEntered(pool: TxPool, spendMap: SpendMap) {
    forall id, p {:trigger p in pool[id].vin} :: id in pool && p in pool[id].vin ==>
        p in spendMap && spendMap[p] == pool[id]
  }
}
