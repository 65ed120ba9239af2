/** Relatives of the transactions of a mined block, read off a template of the whole block. */
module BlockCpfp {
  import opened Basics
  import opened Ancestry
  import opened Packages
  import opened RateOrder
  import opened Weights
  import opened PackageRates
  import opened MiniMiner
  import opened Template
  import opened BlockOrder

  datatype Ancestor = Ancestor(txid: TxId, fee: int, weight: nat)

  /** A block transaction and the relatives data kept with it. */
  datatype BlockTx = BlockTx(
    candidate: Candidate,
    adjustedVsize: nat,
    effectiveFeePerVsize: real,
    ancestors: Option<seq<Ancestor>>,
    descendants: Option<seq<Ancestor>>,
    cpfpChecked: bool,
    cpfpDirty: bool)

  datatype CpfpCluster = CpfpCluster(root: TxId, height: nat, txs: seq<Ancestor>, effectiveFeePerVsize: real)

  type TxMap = map<TxId, BlockTx>

  /** How a relative is listed. */
  function Listed(txMap: TxMap, t: TxId): Ancestor
    requires t in txMap
  {
    var tx := txMap[t];
    Ancestor(t, tx.candidate.fee, if tx.adjustedVsize != 0 then tx.adjustedVsize * 4 else tx.candidate.weight)
  }

  predicate AllKnown(txMap: TxMap, cluster: seq<TxId>) {
    forall t :: t in cluster ==> t in txMap
  }

  function ListedAll(txMap: TxMap, cluster: seq<TxId>): seq<Ancestor>
    requires AllKnown(txMap, cluster)
  {
    seq(|cluster|, i requires 0 <= i < |cluster| => Listed(txMap, cluster[i]))
  }

  function Ids(listed: seq<Ancestor>): seq<TxId> {
    seq(|listed|, i requires 0 <= i < |listed| => listed[i].txid)
  }

  // ------------------------------------------------------- finding the clusters

  predicate Big(p: Package) { |p.cluster| > 1 }

  /** The packages of more than one transaction. */
  ghost function BigOnes(run: seq<Package>): seq<Package> {
    if run == [] then []
    else BigOnes(run[..|run|-1]) + if Big(run[|run|-1]) then [run[|run|-1]] else []
  }

  ghost function Clusters(run: seq<Package>): seq<seq<TxId>> {
    seq(|run|, i requires 0 <= i < |run| => run[i].cluster)
  }

  lemma {:induction false} TakenSplits(run: seq<Package>, k: nat, j: nat)
    requires k < |run| && j < |run[k].cluster|
    ensures |Taken(run[..k])| + |run[k].cluster| == |Taken(run[..k+1])| <= |Taken(run)|
    ensures Taken(run)[|Taken(run[..k])| + j] == Reversed(run[k].cluster)[j]
  {
    ReversedIsSame(run[k].cluster);
    var before := run[..|run|-1];
    if k < |before| {
      TakenSplits(before, k, j);
      assert before[..k] == run[..k] && before[..k+1] == run[..k+1];
    } else {
      assert run[..k] == before && run[..k+1] == run;
    }
  }

  lemma {:induction false} BigOnesAreDistinct(ctx: Context, run: seq<Package>)
    requires WellFormed(ctx) && IsRun(ctx, run)
    ensures forall i :: 0 <= i < |BigOnes(run)| ==> BigOnes(run)[i] in run && Big(BigOnes(run)[i])
    ensures forall k :: 0 <= k < |run| && Big(run[k]) ==> run[k] in BigOnes(run)
    ensures forall i, j :: 0 <= i < j < |BigOnes(run)| ==>
      Members(BigOnes(run)[i]) !! Members(BigOnes(run)[j]) && BigOnes(run)[i].root != BigOnes(run)[j].root
  {
    if run != [] {
      var before, last := run[..|run|-1], run[|run|-1];
      RunPrefix(ctx, run, |run| - 1);
      BigOnesAreDistinct(ctx, before);
      assert run == before + [last];
      forall i | 0 <= i < |BigOnes(before)|
        ensures Members(BigOnes(before)[i]) !! Members(last) && BigOnes(before)[i].root != last.root
      {
        var k :| 0 <= k < |before| && before[k] == BigOnes(before)[i];
        PackagesDisjoint(ctx, run, k, |run| - 1);
        RootIsMember(ctx, run, k);
        RootIsMember(ctx, run, |run| - 1);
      }
    }
  }

  lemma RootIsMember(ctx: Context, run: seq<Package>, k: nat)
    requires WellFormed(ctx) && IsRun(ctx, run) && k < |run|
    ensures run[k].root in Members(run[k]) && run[k].cluster != []
    ensures run[k].cluster[|run[k].cluster|-1] == run[k].root
    ensures Members(run[k]) <= ctx.txs.Keys && Distinct(run[k].cluster)
  {
    assert FollowsAt(ctx, run, k);
  }

  /** Is there a cluster with this root already? */
  predicate HasRoot(clusters: seq<seq<TxId>>, root: TxId) {
    exists i :: 0 <= i < |clusters| && clusters[i] != [] && clusters[i][|clusters[i]|-1] == root
  }

  /** The packages whose first template entry has been read. */
  ghost function Begun(run: seq<Package>, k: nat, j: nat): seq<Package>
    requires k <= |run|
  {
    if k < |run| && j > 0 then run[..k+1] else run[..k]
  }

  /** Reading the template stands at entry `j` of package `k`. */
  ghost predicate At(run: seq<Package>, k: nat, j: nat, i: nat) {
    && k <= |run| && i == |Taken(run[..k])| + j
    && (if k < |run| then j < |run[k].cluster| else j == 0)
  }

  lemma BigOnesOfPrefix(ctx: Context, run: seq<Package>, k: nat)
    requires WellFormed(ctx) && IsRun(ctx, run) && k < |run|
    ensures BigOnes(run[..k+1]) == BigOnes(run[..k]) + if Big(run[k]) then [run[k]] else []
    ensures !HasRoot(Clusters(BigOnes(run[..k])), run[k].root)
    ensures Big(run[k]) ==> HasRoot(Clusters(BigOnes(run[..k+1])), run[k].root)
  {
    var before := run[..k];
    assert run[..k+1][..k] == before;
    RunPrefix(ctx, run, k);
    BigOnesAreDistinct(ctx, before);
    RootIsMember(ctx, run, k);
    if HasRoot(Clusters(BigOnes(before)), run[k].root) {
      var big := BigOnes(before);
      var i :| 0 <= i < |big| && big[i].cluster != [] && big[i].cluster[|big[i].cluster|-1] == run[k].root;
      var m :| 0 <= m < |before| && before[m] == big[i];
      RootIsMember(ctx, run, m);
      assert run[k].root in Members(run[m]);
      PackagesDisjoint(ctx, run, m, k);
    }
    if Big(run[k]) {
      var more := BigOnes(run[..k+1]);
      assert more[|more|-1] == run[k];
      assert Clusters(more)[|more|-1] == run[k].cluster;
    }
  }

  lemma {:induction false} EntryIsOfPackage(run: seq<Package>, template: seq<TemplateTx>, k: nat, j: nat, i: nat)
    requires Reports(run, template) && At(run, k, j, i) && i < |template|
    ensures k < |run| && template[i].txid == Taken(run)[i] && template[i].txid in run[k].cluster
    ensures template[i].cluster == run[k].cluster
  {
    assert run[..|run|] == run;
    TakenSplits(run, k, j);
    ReversedIsSame(run[k].cluster);
    assert Reversed(run[k].cluster)[j] in run[k].cluster;
  }

  /** One template entry: a package of several transactions is listed when its first entry
      comes by, and not again. */
  lemma EntryLists(ctx: Context, run: seq<Package>, k: nat, j: nat)
    requires WellFormed(ctx) && IsRun(ctx, run) && k < |run|
    ensures run[k].cluster != [] && run[k].cluster[|run[k].cluster|-1] == run[k].root
    ensures Clusters(BigOnes(run[..k+1])) == WithCluster(Clusters(BigOnes(Begun(run, k, j))), run[k].cluster)
  {
    RootIsMember(ctx, run, k);
    BigOnesOfPrefix(ctx, run, k);
  }

  function Advance(run: seq<Package>, k: nat, j: nat): (nat, nat)
    requires k < |run|
  {
    if j + 1 == |run[k].cluster| then (k + 1, 0) else (k, j + 1)
  }

  lemma EntryAdvances(ctx: Context, run: seq<Package>, k: nat, j: nat, i: nat)
    requires WellFormed(ctx) && IsRun(ctx, run) && At(run, k, j, i) && k < |run|
    ensures var (k', j') := Advance(run, k, j); At(run, k', j', i + 1) && Begun(run, k', j') == run[..k+1]
  {
    TakenSplits(run, k, j);
    if k + 1 < |run| {
      RootIsMember(ctx, run, k + 1);
    }
  }

  ghost predicate RatesSet(before: TxMap, after: TxMap, template: seq<TemplateTx>, n: nat)
    requires n <= |template|
  {
    && after.Keys == before.Keys
    && (forall i {:trigger template[i]} :: 0 <= i < n && template[i].txid in before ==>
          after[template[i].txid] ==
              before[template[i].txid].(effectiveFeePerVsize := template[i].effectiveFeePerVsize))
    && forall t {:trigger after[t]} :: t in before ==>
         after[t] == before[t].(effectiveFeePerVsize := after[t].effectiveFeePerVsize)
  }

  /** Reads the clusters off the template, and the effective rates. */
  method CollectClusters(txMap: TxMap, template: seq<TemplateTx>, ghost ctx: Context, ghost run: seq<Package>)
    returns (clusters: seq<seq<TxId>>, txMap': TxMap)
    requires WellFormed(ctx) && IsRun(ctx, run) && Reports(run, template)
    requires txMap.Keys == ctx.txs.Keys
    ensures clusters == Clusters(BigOnes(run))
    ensures RatesSet(txMap, txMap', template, |template|)
  {
    clusters, txMap' := [], txMap;
    ghost var k, j := 0, 0;
    TemplateEntries(ctx, run, template);
    if run != [] {
      RootIsMember(ctx, run, 0);
    }
    for i := 0 to |template|
      invariant Collected(run, k, j, i, clusters)
      invariant RatesSet(txMap, txMap', template, i)
    {
      EntryStep(ctx, run, template, k, j, i, clusters);
      RateStep(txMap, txMap', template, i);
      clusters := WithCluster(clusters, template[i].cluster);
      txMap' := WithRate(txMap', template[i]);
      k, j := Advance(run, k, j).0, Advance(run, k, j).1;
    }
    AllBegun(run, k, j, |template|);
  }

  /** A cluster of several transactions is added unless one with its root is there. */
  function WithCluster(clusters: seq<seq<TxId>>, cluster: seq<TxId>): seq<seq<TxId>> {
    if |cluster| > 1 && !HasRoot(clusters, cluster[|cluster|-1]) then clusters + [cluster] else clusters
  }

  ghost predicate Collected(run: seq<Package>, k: nat, j: nat, i: nat, clusters: seq<seq<TxId>>) {
    At(run, k, j, i) && clusters == Clusters(BigOnes(Begun(run, k, j)))
  }

  lemma EntryStep(
    ctx: Context, run: seq<Package>, template: seq<TemplateTx>, k: nat, j: nat, i: nat, clusters: seq<seq<TxId>>)
    requires WellFormed(ctx) && IsRun(ctx, run) && Reports(run, template)
    requires Collected(run, k, j, i, clusters) && i < |template|
    ensures k < |run|
    ensures Collected(run, Advance(run, k, j).0, Advance(run, k, j).1, i + 1,
                      WithCluster(clusters, template[i].cluster))
  {
    EntryIsOfPackage(run, template, k, j, i);
    EntryLists(ctx, run, k, j);
    EntryAdvances(ctx, run, k, j, i);
  }

  lemma AllBegun(run: seq<Package>, k: nat, j: nat, i: nat)
    requires At(run, k, j, i) && i == |Taken(run)|
    ensures Begun(run, k, j) == run
  {
    if k < |run| {
      TakenSplits(run, k, j);
    }
    assert run[..|run|] == run;
  }

  lemma TemplateEntries(ctx: Context, run: seq<Package>, template: seq<TemplateTx>)
    requires WellFormed(ctx) && IsRun(ctx, run) && Reports(run, template)
    ensures forall m :: 0 <= m < |template| ==> template[m].txid == Taken(run)[m] && template[m].txid in ctx.txs
    ensures forall m, n :: 0 <= m < n < |template| ==> template[m].txid != template[n].txid
  {
    TakenIsUsed(ctx, run);
    UsedInPool(ctx, run);
    forall m | 0 <= m < |template|
      ensures template[m].txid == Taken(run)[m] && template[m].txid in ctx.txs
    {
      var t := Taken(run)[m];
      assert t in Elements(Taken(run));
      var k :| 0 <= k < |run| && t in run[k].cluster;
    }
  }

  lemma RateStep(before: TxMap, after: TxMap, template: seq<TemplateTx>, i: nat)
    requires i < |template| && RatesSet(before, after, template, i)
    requires forall m :: 0 <= m < |template| ==> template[m].txid in before
    requires forall m, n :: 0 <= m < n < |template| ==> template[m].txid != template[n].txid
    ensures RatesSet(before, WithRate(after, template[i]), template, i + 1)
  {
  }

  function WithRate(txMap: TxMap, tx: TemplateTx): TxMap
    requires tx.txid in txMap
  {
    txMap[tx.txid := txMap[tx.txid].(effectiveFeePerVsize := tx.effectiveFeePerVsize)]
  }

  // ---------------------------------------------------- relatives of each member

  /** Fee and weight data, which nothing here changes. */
  ghost predicate SameTxs(before: TxMap, after: TxMap) {
    && after.Keys == before.Keys
    && forall t {:trigger after[t]} :: t in before ==>
         after[t].candidate == before[t].candidate && after[t].adjustedVsize == before[t].adjustedVsize
         && after[t].effectiveFeePerVsize == before[t].effectiveFeePerVsize
  }

  /** Lists the members before and after `cluster[p]`. */
  method SplitAround(txMap: TxMap, cluster: seq<TxId>, txid: TxId, ghost p: nat)
    returns (ancestors: seq<Ancestor>, descendants: seq<Ancestor>)
    requires AllKnown(txMap, cluster) && Distinct(cluster) && p < |cluster| && cluster[p] == txid
    ensures ancestors == ListedAll(txMap, cluster[..p])
    ensures descendants == ListedAll(txMap, cluster[p+1..])
  {
    ancestors, descendants := [], [];
    var matched := false;
    for i := 0 to |cluster|
      invariant matched <==> p < i
      invariant ancestors == ListedAll(txMap, cluster[..if i < p then i else p])
      invariant descendants == if p < i then ListedAll(txMap, cluster[p+1..i]) else []
    {
      if cluster[i] == txid {
        matched := true;
      } else if matched {
        assert cluster[p+1..i+1] == cluster[p+1..i] + [cluster[i]];
        descendants := descendants + [Listed(txMap, cluster[i])];
      } else {
        assert cluster[..i+1] == cluster[..i] + [cluster[i]];
        ancestors := ancestors + [Listed(txMap, cluster[i])];
      }
    }
    assert cluster[..|cluster|] == cluster;
  }

  function Length(listed: Option<seq<Ancestor>>): int {
    if listed.Some? then |listed.value| else -1
  }

  /** The record of a cluster member after its relatives have been attached. */
  function Attached(tx: BlockTx, ancestors: seq<Ancestor>, descendants: seq<Ancestor>): BlockTx {
    tx.(ancestors := Some(ancestors), descendants := Some(descendants), cpfpChecked := true,
        cpfpDirty := tx.cpfpDirty || Length(tx.ancestors) != |ancestors| || Length(tx.descendants) != |descendants|)
  }

  ghost predicate AttachedAt(before: TxMap, after: TxMap, cluster: seq<TxId>, p: int)
    requires 0 <= p < |cluster| && AllKnown(before, cluster)
  {
    && cluster[p] in after
    && after[cluster[p]] ==
       Attached(before[cluster[p]], ListedAll(before, cluster[..p]), ListedAll(before, cluster[p+1..]))
  }

  /** Exactly the first `n` members of the cluster have got their relatives. */
  ghost predicate AttachedUpTo(before: TxMap, after: TxMap, cluster: seq<TxId>, n: nat)
    requires n <= |cluster| && AllKnown(before, cluster)
  {
    && after.Keys == before.Keys
    && (forall p {:trigger AttachedAt(before, after, cluster, p)} :: 0 <= p < n ==>
        AttachedAt(before, after, cluster, p))
    && forall t {:trigger after[t]} :: t in before && t !in cluster[..n] ==> after[t] == before[t]
  }

  lemma ListedDependsOn(before: TxMap, after: TxMap, cluster: seq<TxId>)
    requires SameTxs(before, after) && AllKnown(before, cluster)
    ensures AllKnown(after, cluster) && ListedAll(after, cluster) == ListedAll(before, cluster)
  {
  }

  lemma AttachedIsSameTxs(before: TxMap, after: TxMap, cluster: seq<TxId>, n: nat)
    requires n <= |cluster| && AllKnown(before, cluster) && AttachedUpTo(before, after, cluster, n)
    ensures SameTxs(before, after)
  {
    forall t | t in before
      ensures after[t].candidate == before[t].candidate && after[t].adjustedVsize == before[t].adjustedVsize
      ensures after[t].effectiveFeePerVsize == before[t].effectiveFeePerVsize
    {
      if t in cluster[..n] {
        var p :| 0 <= p < n && cluster[p] == t;
        assert AttachedAt(before, after, cluster, p);
      }
    }
  }

  lemma AttachStep(before: TxMap, after: TxMap, cluster: seq<TxId>, n: nat)
    requires n < |cluster| && AllKnown(before, cluster) && Distinct(cluster) && AttachedUpTo(before, after, cluster, n)
    ensures cluster[n] in after
    ensures AttachedUpTo(before, after[cluster[n] := Attached(after[cluster[n]],
              ListedAll(before, cluster[..n]), ListedAll(before, cluster[n+1..]))], cluster, n + 1)
  {
    NotAmongEarlier(cluster, n);
    assert cluster[..n+1] == cluster[..n] + [cluster[n]];
    var after' := after[cluster[n] := Attached(after[cluster[n]],
                    ListedAll(before, cluster[..n]), ListedAll(before, cluster[n+1..]))];
    forall p | 0 <= p < n + 1
      ensures AttachedAt(before, after', cluster, p)
    {
      if p < n {
        assert AttachedAt(before, after, cluster, p);
      }
    }
  }

  lemma NotAmongEarlier(s: seq<TxId>, n: nat)
    requires Distinct(s) && n < |s|
    ensures s[n] !in s[..n]
  {
  }

  method AttachRelatives(txMap: TxMap, cluster: seq<TxId>) returns (txMap': TxMap)
    requires AllKnown(txMap, cluster) && Distinct(cluster)
    ensures AttachedUpTo(txMap, txMap', cluster, |cluster|)
  {
    txMap' := txMap;
    for p := 0 to |cluster|
      invariant AttachedUpTo(txMap, txMap', cluster, p)
    {
      AttachedIsSameTxs(txMap, txMap', cluster, p);
      ListedDependsOn(txMap, txMap', cluster);
      ListedDependsOn(txMap, txMap', cluster[..p]);
      ListedDependsOn(txMap, txMap', cluster[p+1..]);
      var ancestors, descendants := SplitAround(txMap', cluster, cluster[p], p);
      AttachStep(txMap, txMap', cluster, p);
      txMap' := txMap'[cluster[p] := Attached(txMap'[cluster[p]], ancestors, descendants)];
    }
  }

  // ---------------------------------------------------------------- all clusters

  /** The clusters are made of known transactions and share none. */
  ghost predicate Separate(txMap: TxMap, clusters: seq<seq<TxId>>) {
    && (forall c {:trigger clusters[c]} :: 0 <= c < |clusters| ==>
          AllKnown(txMap, clusters[c]) && Distinct(clusters[c]) && clusters[c] != [])
    && forall c, d {:trigger clusters[c], clusters[d]} :: 0 <= c < d < |clusters| ==>
         Elements(clusters[c]) !! Elements(clusters[d])
  }

  ghost predicate ClusterAttached(before: TxMap, after: TxMap, cluster: seq<TxId>)
  {
    && AllKnown(before, cluster)
    && forall p {:trigger AttachedAt(before, after, cluster, p)} :: 0 <= p < |cluster| ==>
         AttachedAt(before, after, cluster, p)
  }

  ghost predicate InSome(clusters: seq<seq<TxId>>, t: TxId) {
    exists c :: 0 <= c < |clusters| && t in clusters[c]
  }

  /** Every member of the listed clusters has got its relatives, and nobody else. */
  ghost predicate AllAttached(before: TxMap, after: TxMap, clusters: seq<seq<TxId>>) {
    && SameTxs(before, after)
    && (forall c {:trigger clusters[c]} :: 0 <= c < |clusters| ==> ClusterAttached(before, after, clusters[c]))
    && forall t {:trigger after[t]} :: t in before && !InSome(clusters, t) ==> after[t] == before[t]
  }

  lemma AttachCluster(before: TxMap, mid: TxMap, after: TxMap, clusters: seq<seq<TxId>>, n: nat)
    requires Separate(before, clusters) && n < |clusters| && AllAttached(before, mid, clusters[..n])
    requires AllKnown(mid, clusters[n]) && AttachedUpTo(mid, after, clusters[n], |clusters[n]|)
    ensures AllAttached(before, after, clusters[..n+1])
  {
    var cluster := clusters[n];
    AttachedIsSameTxs(mid, after, cluster, |cluster|);
    assert clusters[..n+1] == clusters[..n] + [cluster];
    forall t | t in cluster
      ensures !InSome(clusters[..n], t) && mid[t] == before[t]
    {
      forall c | 0 <= c < n
        ensures t !in clusters[..n][c]
      {
        assert t in Elements(cluster) && t !in Elements(clusters[c]);
      }
    }
    ThisOneAttached(before, mid, after, cluster);
    forall c | 0 <= c < n
      ensures ClusterAttached(before, after, clusters[c])
    {
      assert clusters[..n][c] == clusters[c];
      assert Elements(clusters[c]) !! Elements(cluster);
      EarlierStaysAttached(before, mid, after, clusters[c], cluster);
    }
    forall t | t in before && !InSome(clusters[..n+1], t)
      ensures after[t] == before[t]
    {
      assert clusters[..n+1][n] == cluster;
      assert cluster[..|cluster|] == cluster;
      NotInFewer(clusters, n, t);
    }
  }

  lemma NotInFewer(clusters: seq<seq<TxId>>, n: nat, t: TxId)
    requires n < |clusters| && !InSome(clusters[..n+1], t)
    ensures !InSome(clusters[..n], t)
  {
  }

  lemma ThisOneAttached(before: TxMap, mid: TxMap, after: TxMap, cluster: seq<TxId>)
    requires SameTxs(before, mid) && AllKnown(before, cluster) && AllKnown(mid, cluster)
    requires AttachedUpTo(mid, after, cluster, |cluster|)
    requires forall t :: t in cluster ==> mid[t] == before[t]
    ensures ClusterAttached(before, after, cluster)
  {
    forall p | 0 <= p < |cluster|
      ensures AttachedAt(before, after, cluster, p)
    {
      assert AttachedAt(mid, after, cluster, p);
      ListedDependsOn(before, mid, cluster[..p]);
      ListedDependsOn(before, mid, cluster[p+1..]);
    }
  }

  lemma EarlierStaysAttached(
    before: TxMap, mid: TxMap, after: TxMap, earlier: seq<TxId>, cluster: seq<TxId>)
    requires ClusterAttached(before, mid, earlier) && Elements(earlier) !! Elements(cluster)
    requires AllKnown(mid, cluster) && AttachedUpTo(mid, after, cluster, |cluster|)
    ensures ClusterAttached(before, after, earlier)
  {
    forall p | 0 <= p < |earlier|
      ensures AttachedAt(before, after, earlier, p)
    {
      assert AttachedAt(before, mid, earlier, p);
      assert earlier[p] in Elements(earlier) && earlier[p] !in Elements(cluster);
      assert earlier[p] !in cluster[..|cluster|];
    }
  }

  function Summary(txMap: TxMap, height: nat, cluster: seq<TxId>): CpfpCluster
    requires AllKnown(txMap, cluster) && cluster != []
  {
    ReversedIsSame(cluster);
    assert forall t :: t in Reversed(cluster) ==> t in Elements(Reversed(cluster));
    var root := cluster[|cluster|-1];
    CpfpCluster(root, height, ListedAll(txMap, Reversed(cluster)), txMap[root].effectiveFeePerVsize)
  }

  function CandidatesOf(transactions: seq<BlockTx>): (candidates: seq<Candidate>)
    ensures |candidates| == |transactions|
    ensures forall i :: 0 <= i < |transactions| ==> candidates[i] == transactions[i].candidate
  {
    seq(|transactions|, i requires 0 <= i < |transactions| => transactions[i].candidate)
  }

  lemma BigOnesAreSeparate(ctx: Context, run: seq<Package>, txMap: TxMap)
    requires WellFormed(ctx) && IsRun(ctx, run) && txMap.Keys == ctx.txs.Keys
    ensures Separate(txMap, Clusters(BigOnes(run)))
  {
    BigOnesAreDistinct(ctx, run);
    var big := BigOnes(run);
    forall c | 0 <= c < |big|
      ensures AllKnown(txMap, big[c].cluster) && Distinct(big[c].cluster) && big[c].cluster != []
    {
      var k :| 0 <= k < |run| && run[k] == big[c];
      RootIsMember(ctx, run, k);
      assert forall t :: t in run[k].cluster ==> t in Members(run[k]);
    }
    forall c, d | 0 <= c < d < |big|
      ensures Elements(big[c].cluster) !! Elements(big[d].cluster)
    {
      assert Members(big[c]) !! Members(big[d]);
      assert Elements(big[c].cluster) == Members(big[c]) && Elements(big[d].cluster) == Members(big[d]);
    }
  }

  method MapOf(transactions: seq<BlockTx>) returns (txMap: TxMap)
    requires Plausible(CandidatesOf(transactions))
    ensures txMap.Keys == Elements(Txids(CandidatesOf(transactions)))
    ensures forall i :: 0 <= i < |transactions| ==>
      transactions[i].candidate.txid in txMap && txMap[transactions[i].candidate.txid] == transactions[i]
  {
    txMap := map[];
    ghost var ids := Txids(CandidatesOf(transactions));
    IdsAreDistinct(transactions);
    for i := 0 to |transactions|
      invariant txMap.Keys == Elements(ids[..i])
      invariant forall j {:trigger ids[j]} :: 0 <= j < i ==> ids[j] in txMap && txMap[ids[j]] == transactions[j]
    {
      assert ids[..i+1] == ids[..i] + [ids[i]];
      txMap := txMap[transactions[i].candidate.txid := transactions[i]];
    }
    assert ids[..|ids|] == ids;
    forall i | 0 <= i < |transactions|
      ensures transactions[i].candidate.txid in txMap && txMap[transactions[i].candidate.txid] == transactions[i]
    {
      assert ids[i] in txMap;
    }
  }

  lemma IdsAreDistinct(transactions: seq<BlockTx>)
    requires Plausible(CandidatesOf(transactions))
    ensures Distinct(Txids(CandidatesOf(transactions)))
    ensures forall i {:trigger Txids(CandidatesOf(transactions))[i]} :: 0 <= i < |transactions| ==>
      Txids(CandidatesOf(transactions))[i] == transactions[i].candidate.txid
  {
  }

  /** The summaries of the first clusters. */
  ghost predicate Summarised(txMap: TxMap, height: nat, clusters: seq<seq<TxId>>, clusterArray: seq<CpfpCluster>)
    requires Separate(txMap, clusters)
  {
    |clusterArray| <= |clusters| &&
    forall c {:trigger clusterArray[c]} :: 0 <= c < |clusterArray| ==>
        clusterArray[c] == Summary(txMap, height, clusters[c])
  }

  lemma SummarisedMore(
    txMap: TxMap, height: nat, clusters: seq<seq<TxId>>, clusterArray: seq<CpfpCluster>, more: CpfpCluster)
    requires Separate(txMap, clusters) && Summarised(txMap, height, clusters, clusterArray)
    requires |clusterArray| < |clusters| && more == Summary(txMap, height, clusters[|clusterArray|])
    ensures Summarised(txMap, height, clusters, clusterArray + [more])
  {
  }

  /** Attaches relatives to the members of every cluster and summarises the clusters. */
  method AttachAll(txMap: TxMap, height: nat, clusters: seq<seq<TxId>>)
    returns (txMap': TxMap, clusterArray: seq<CpfpCluster>)
    requires Separate(txMap, clusters)
    ensures AllAttached(txMap, txMap', clusters)
    ensures |clusterArray| == |clusters| && Summarised(txMap, height, clusters, clusterArray)
  {
    txMap', clusterArray := txMap, [];
    for n := 0 to |clusters|
      invariant AllAttached(txMap, txMap', clusters[..n])
      invariant |clusterArray| == n && Summarised(txMap, height, clusters, clusterArray)
    {
      ghost var mid := txMap';
      assert AllKnown(txMap', clusters[n]);
      txMap' := AttachRelatives(txMap', clusters[n]);
      AttachedIsSameTxs(mid, txMap', clusters[n], |clusters[n]|);
      AttachCluster(txMap, mid, txMap', clusters, n);
      SummaryDependsOn(txMap, txMap', height, clusters[n]);
      SummarisedMore(txMap, height, clusters, clusterArray, Summary(txMap', height, clusters[n]));
      clusterArray := clusterArray + [Summary(txMap', height, clusters[n])];
    }
    PrefixWhole(clusters);
  }

  lemma SummaryDependsOn(before: TxMap, after: TxMap, height: nat, cluster: seq<TxId>)
    requires SameTxs(before, after) && AllKnown(before, cluster) && cluster != []
    ensures AllKnown(after, cluster) && Summary(after, height, cluster) == Summary(before, height, cluster)
  {
    ReversedIsSame(cluster);
    assert forall t :: t in Reversed(cluster) ==> t in Elements(Reversed(cluster));
    ListedDependsOn(before, after, Reversed(cluster));
  }

  /** Where the CPFP data come from: a greedy template of the whole block, whose packages of
      several transactions are the clusters. */
  ghost predicate ReadOffRun(
    height: nat, transactions: seq<BlockTx>, accelerations: seq<Acceleration>, txMap: TxMap,
    clusterArray: seq<CpfpCluster>,
    ctx: Context, run: seq<Package>, rated: TxMap)
  {
    && RatedRun(transactions, accelerations, ctx, run, rated)
    && AllAttached(rated, txMap, Clusters(BigOnes(run)))
    && |clusterArray| == |Clusters(BigOnes(run))|
    && forall c {:trigger clusterArray[c]} :: 0 <= c < |clusterArray| ==>
         clusterArray[c] == Summary(rated, height, Clusters(BigOnes(run))[c])
  }

  /** The block as it is when the rates have been read off the template. */
  ghost predicate RatedRun(
    transactions: seq<BlockTx>, accelerations: seq<Acceleration>, ctx: Context, run: seq<Package>, rated: TxMap)
  {
    && Describes(ctx, CandidatesOf(transactions), accelerations) && WellFormed(ctx)
    && IsRun(ctx, run) && Used(run) == ctx.txs.Keys
    && (forall i {:trigger transactions[i]} :: 0 <= i < |transactions| ==>
         && transactions[i].candidate.txid in rated
         && rated[transactions[i].candidate.txid] ==
            transactions[i].(effectiveFeePerVsize := rated[transactions[i].candidate.txid].effectiveFeePerVsize))
    && RatesAside(transactions, rated)
    && (forall k, t {:trigger t in run[k].cluster} :: 0 <= k < |run| && t in run[k].cluster ==>
         t in rated && rated[t].effectiveFeePerVsize == run[k].rate)
    && Separate(rated, Clusters(BigOnes(run)))
  }

  /** The summary lists the cluster from its root back, and each member has those before it
      as ancestors, those after it as descendants, and the rate of the cluster. */
  ghost predicate ToldByMembers(txMap: TxMap, cluster: CpfpCluster) {
    var order := Reversed(Ids(cluster.txs));
    && Distinct(order) && order != [] && cluster.root == order[|order|-1]
    && forall p {:trigger order[p]} :: 0 <= p < |order| ==>
         && order[p] in txMap && txMap[order[p]].effectiveFeePerVsize == cluster.effectiveFeePerVsize
         && txMap[order[p]].ancestors.Some? && Ids(txMap[order[p]].ancestors.value) == order[..p]
         && txMap[order[p]].descendants.Some? && Ids(txMap[order[p]].descendants.value) == order[p+1..]
  }

  lemma ReversedTwice(s: seq<TxId>)
    ensures Reversed(Reversed(s)) == s
  {
    ReversedIsSame(s);
    ReversedIsSame(Reversed(s));
  }

  lemma SummaryIds(txMap: TxMap, height: nat, cluster: seq<TxId>)
    requires AllKnown(txMap, cluster) && cluster != []
    ensures Reversed(Ids(Summary(txMap, height, cluster).txs)) == cluster
  {
    ReversedIsSame(cluster);
    assert forall t :: t in Reversed(cluster) ==> t in Elements(Reversed(cluster));
    assert Ids(ListedAll(txMap, Reversed(cluster))) == Reversed(cluster);
    ReversedTwice(cluster);
  }

  lemma MembersTell(rated: TxMap, txMap: TxMap, height: nat, cluster: seq<TxId>, rate: real)
    requires SameTxs(rated, txMap) && ClusterAttached(rated, txMap, cluster) && Distinct(cluster) && cluster != []
    requires forall t {:trigger t in cluster} :: t in cluster ==> t in rated && rated[t].effectiveFeePerVsize == rate
    ensures ToldByMembers(txMap, Summary(rated, height, cluster))
  {
    SummaryIds(rated, height, cluster);
    forall p | 0 <= p < |cluster|
      ensures cluster[p] in txMap && txMap[cluster[p]].effectiveFeePerVsize == rate
      ensures txMap[cluster[p]].ancestors.Some? && Ids(txMap[cluster[p]].ancestors.value) == cluster[..p]
      ensures txMap[cluster[p]].descendants.Some? && Ids(txMap[cluster[p]].descendants.value) == cluster[p+1..]
    {
      assert AttachedAt(rated, txMap, cluster, p);
      assert cluster[p] in cluster;
      assert Ids(ListedAll(rated, cluster[..p])) == cluster[..p];
      assert Ids(ListedAll(rated, cluster[p+1..])) == cluster[p+1..];
    }
  }

  lemma ClustersTell(
    height: nat, transactions: seq<BlockTx>, accelerations: seq<Acceleration>, txMap: TxMap,
    clusterArray: seq<CpfpCluster>,
    ctx: Context, run: seq<Package>, rated: TxMap, c: nat)
    requires ReadOffRun(height, transactions, accelerations, txMap, clusterArray, ctx, run, rated) && c < |clusterArray|
    ensures ToldByMembers(txMap, clusterArray[c])
  {
    var cluster := Clusters(BigOnes(run))[c];
    BigOnesAreDistinct(ctx, run);
    var k :| 0 <= k < |run| && run[k] == BigOnes(run)[c];
    assert ClusterAttached(rated, txMap, Clusters(BigOnes(run))[c]);
    assert clusterArray[c] == Summary(rated, height, cluster);
    MembersTell(rated, txMap, height, cluster, run[k].rate);
  }

  /** What is listed of a relative is what the block has of it: its fee, and four times its
      adjusted size, or its weight where there is no such size. */
  ghost predicate TellsOf(transactions: seq<BlockTx>, e: Ancestor) {
    exists n {:trigger transactions[n]} ::
      && 0 <= n < |transactions| && transactions[n].candidate.txid == e.txid
      && e.fee == transactions[n].candidate.fee
      && (transactions[n].adjustedVsize != 0 ==> e.weight == 4 * transactions[n].adjustedVsize)
      && (transactions[n].adjustedVsize == 0 ==> e.weight == transactions[n].candidate.weight)
  }

  ghost predicate AllTell(transactions: seq<BlockTx>, listed: seq<Ancestor>) {
    forall i {:trigger listed[i]} :: 0 <= i < |listed| ==> TellsOf(transactions, listed[i])
  }

  /** A member is checked, and dirty if it was or if the number of its relatives changed. */
  ghost predicate MemberInFull(transactions: seq<BlockTx>, txMap: TxMap, t: TxId) {
    exists n :: MemberFrom(transactions, txMap, t, n)
  }

  ghost predicate MemberFrom(transactions: seq<BlockTx>, txMap: TxMap, t: TxId, n: int) {
    && 0 <= n < |transactions| && transactions[n].candidate.txid == t && t in txMap
    && var before, after := transactions[n], txMap[t];
      && after.candidate == before.candidate && after.adjustedVsize == before.adjustedVsize && after.cpfpChecked
      && after.ancestors.Some? && AllTell(transactions, after.ancestors.value)
      && after.descendants.Some? && AllTell(transactions, after.descendants.value)
      && (after.cpfpDirty <==>
           || before.cpfpDirty || before.ancestors.None? || before.descendants.None?
           || |before.ancestors.value| != |after.ancestors.value|
           || |before.descendants.value| != |after.descendants.value|)
  }

  ghost predicate InFull(height: nat, transactions: seq<BlockTx>, txMap: TxMap, cluster: CpfpCluster) {
    && cluster.height == height && AllTell(transactions, cluster.txs)
    && forall i {:trigger cluster.txs[i]} :: 0 <= i < |cluster.txs| ==>
         MemberInFull(transactions, txMap, cluster.txs[i].txid)
  }

  /** The map agrees with the block but for rates. */
  ghost predicate RatesAside(transactions: seq<BlockTx>, rated: TxMap) {
    forall t {:trigger t in rated} :: t in rated ==> exists n :: RatedFrom(transactions, rated, t, n)
  }

  ghost predicate RatedFrom(transactions: seq<BlockTx>, rated: TxMap, t: TxId, n: int) {
    && 0 <= n < |transactions| && transactions[n].candidate.txid == t && t in rated
    && rated[t] == transactions[n].(effectiveFeePerVsize := rated[t].effectiveFeePerVsize)
  }

  lemma ListedTells(transactions: seq<BlockTx>, rated: TxMap, ids: seq<TxId>)
    requires RatesAside(transactions, rated) && AllKnown(rated, ids)
    ensures AllTell(transactions, ListedAll(rated, ids))
  {
    forall i | 0 <= i < |ids| ensures TellsOf(transactions, ListedAll(rated, ids)[i]) {
      assert ids[i] in rated;
      var n :| RatedFrom(transactions, rated, ids[i], n);
    }
  }

  lemma AttachedInFull(transactions: seq<BlockTx>, rated: TxMap, txMap: TxMap, cluster: seq<TxId>, p: nat)
    requires RatesAside(transactions, rated) && p < |cluster| && AllKnown(rated, cluster)
    requires AttachedAt(rated, txMap, cluster, p)
    ensures MemberInFull(transactions, txMap, cluster[p])
  {
    var t := cluster[p];
    ListedTells(transactions, rated, cluster[..p]);
    ListedTells(transactions, rated, cluster[p+1..]);
    var n :| RatedFrom(transactions, rated, t, n);
    assert MemberFrom(transactions, txMap, t, n);
  }

  lemma ClustersInFull(
    height: nat, transactions: seq<BlockTx>, accelerations: seq<Acceleration>, txMap: TxMap,
    clusterArray: seq<CpfpCluster>,
    ctx: Context, run: seq<Package>, rated: TxMap, c: nat)
    requires ReadOffRun(height, transactions, accelerations, txMap, clusterArray, ctx, run, rated) && c < |clusterArray|
    requires Plausible(CandidatesOf(transactions))
    ensures InFull(height, transactions, txMap, clusterArray[c])
  {
    var cluster := Clusters(BigOnes(run))[c];
    assert ClusterAttached(rated, txMap, Clusters(BigOnes(run))[c]);
    assert clusterArray[c] == Summary(rated, height, cluster);
    assert Separate(rated, Clusters(BigOnes(run))) && cluster != [];
    ClusterInFull(height, transactions, rated, txMap, cluster);
  }

  lemma ClusterInFull(height: nat, transactions: seq<BlockTx>, rated: TxMap, txMap: TxMap, cluster: seq<TxId>)
    requires RatesAside(transactions, rated) && ClusterAttached(rated, txMap, cluster) && cluster != []
    ensures InFull(height, transactions, txMap, Summary(rated, height, cluster))
  {
    var summary := Summary(rated, height, cluster);
    ReversedIsSame(cluster);
    assert forall t :: t in Reversed(cluster) ==> t in Elements(Reversed(cluster));
    ListedTells(transactions, rated, Reversed(cluster));
    forall i | 0 <= i < |cluster| ensures MemberInFull(transactions, txMap, summary.txs[i].txid) {
      var p := |cluster| - 1 - i;
      assert AttachedAt(rated, txMap, cluster, p);
      AttachedInFull(transactions, rated, txMap, cluster, p);
      assert Reversed(cluster)[i] == cluster[p];
    }
  }

  /** No package goes at more than its members pay for their size. */
  ghost predicate AllPaid(ctx: Context, run: seq<Package>) {
    forall k {:trigger run[k]} :: 0 <= k < |run| ==> PaysFor(ctx, run[k], 1.0)
  }

  /** The CPFP data of a mined block: every transaction gets the rate of its package, and
      every member of a package of several gets the members before it as ancestors and
      those after it as descendants. */
  method CalculateGoodBlockCpfp(height: nat, transactions: seq<BlockTx>, accelerations: seq<Acceleration>)
    returns (txMap: TxMap, clusterArray: seq<CpfpCluster>,
             ghost ctx: Context, ghost run: seq<Package>, ghost rated: TxMap)
    requires Plausible(CandidatesOf(transactions)) && Acyclic(CandidatesOf(transactions))
    ensures ReadOffRun(height, transactions, accelerations, txMap, clusterArray, ctx, run, rated) &&
      AlwaysBest(ctx, run)
    ensures forall c {:trigger clusterArray[c]} :: 0 <= c < |clusterArray| ==> ToldByMembers(txMap, clusterArray[c])
    ensures forall c {:trigger clusterArray[c]} :: 0 <= c < |clusterArray| ==>
      InFull(height, transactions, txMap, clusterArray[c])
    ensures Shows(ctx, CandidatesOf(transactions), accelerations)
    ensures RatedByPackage(run, txMap) && AllFair(ctx, run)
    ensures AllPaid(ctx, run)
    ensures FeesNotNegative(CandidatesOf(transactions), accelerations) ==> MapRatesFollow(ctx, txMap)
  {
    txMap, clusterArray, ctx, run, rated := ReadOffTemplate(height, transactions, accelerations);
    RatedAfterwards(height, transactions, accelerations, txMap, clusterArray, ctx, run, rated);
    if FeesNotNegative(CandidatesOf(transactions), accelerations) {
      DescribedFees(ctx, CandidatesOf(transactions), accelerations);
      GreedyRatesFollow(ctx, run);
      MapIsOrdered(ctx, run, txMap);
    }
    forall c | 0 <= c < |clusterArray| ensures ToldByMembers(txMap, clusterArray[c]) {
      ClustersTell(height, transactions, accelerations, txMap, clusterArray, ctx, run, rated, c);
    }
    forall c | 0 <= c < |clusterArray| ensures InFull(height, transactions, txMap, clusterArray[c]) {
      ClustersInFull(height, transactions, accelerations, txMap, clusterArray, ctx, run, rated, c);
    }
  }

  /** Nobody in the block has a higher rate than a transaction it depends on. */
  ghost predicate MapRatesFollow(ctx: Context, txMap: TxMap) {
    forall a, t {:trigger txMap[a], txMap[t]} :: a in txMap && t in txMap && a in Ancestors(ctx.txs, t) ==>
      txMap[t].effectiveFeePerVsize <= txMap[a].effectiveFeePerVsize
  }

  /** Every transaction has the rate of its package. */
  ghost predicate RatedByPackage(run: seq<Package>, txMap: TxMap) {
    forall k, t {:trigger t in run[k].cluster} :: 0 <= k < |run| && t in run[k].cluster ==>
      t in txMap && txMap[t].effectiveFeePerVsize == run[k].rate
  }

  lemma MapIsOrdered(ctx: Context, run: seq<Package>, txMap: TxMap)
    requires WellFormed(ctx) && IsRun(ctx, run) && RatesFollow(ctx, run)
    requires Used(run) == ctx.txs.Keys && RatedByPackage(run, txMap)
    ensures MapRatesFollow(ctx, txMap)
  {
    forall a, t | a in txMap && t in txMap && a in Ancestors(ctx.txs, t)
      ensures txMap[t].effectiveFeePerVsize <= txMap[a].effectiveFeePerVsize
    {
      OnlyPoolHasAncestors(ctx, a, t);
      var i := PackageWith(run, a);
      var j := PackageWith(run, t);
    }
  }

  lemma RatedAfterwards(
    height: nat, transactions: seq<BlockTx>, accelerations: seq<Acceleration>, txMap: TxMap,
    clusterArray: seq<CpfpCluster>, ctx: Context, run: seq<Package>, rated: TxMap)
    requires ReadOffRun(height, transactions, accelerations, txMap, clusterArray, ctx, run, rated)
    ensures RatedByPackage(run, txMap)
  {
    assert SameTxs(rated, txMap);
    forall k, t | 0 <= k < |run| && t in run[k].cluster
      ensures t in txMap && txMap[t].effectiveFeePerVsize == run[k].rate
    {
      assert t in rated && rated[t].effectiveFeePerVsize == run[k].rate;
    }
  }

  lemma OnlyPoolHasAncestors(ctx: Context, a: TxId, t: TxId)
    requires a in Ancestors(ctx.txs, t)
    ensures a in ctx.txs && t in ctx.txs
  {
    var p := AncestorThroughParent(ctx.txs, a, t);
  }

  lemma PackageWith(run: seq<Package>, t: TxId) returns (k: nat)
    requires t in Used(run)
    ensures k < |run| && t in run[k].cluster
  {
    k :| 0 <= k < |run| && t in run[k].cluster;
  }

  method ReadOffTemplate(height: nat, transactions: seq<BlockTx>, accelerations: seq<Acceleration>)
    returns (txMap: TxMap, clusterArray: seq<CpfpCluster>,
             ghost ctx: Context, ghost run: seq<Package>, ghost rated: TxMap)
    requires Plausible(CandidatesOf(transactions)) && Acyclic(CandidatesOf(transactions))
    ensures ReadOffRun(height, transactions, accelerations, txMap, clusterArray, ctx, run, rated) &&
      AlwaysBest(ctx, run)
    ensures Shows(ctx, CandidatesOf(transactions), accelerations) && AllFair(ctx, run)
    ensures AllPaid(ctx, run)
  {
    var clusters;
    txMap, clusters, ctx, run := ReadOffRates(transactions, accelerations);
    rated := txMap;
    txMap, clusterArray := AttachAll(txMap, height, clusters);
  }

  method ReadOffRates(transactions: seq<BlockTx>, accelerations: seq<Acceleration>)
    returns (rated: TxMap, clusters: seq<seq<TxId>>, ghost ctx: Context, ghost run: seq<Package>)
    requires Plausible(CandidatesOf(transactions)) && Acyclic(CandidatesOf(transactions))
    ensures RatedRun(transactions, accelerations, ctx, run, rated) && AlwaysBest(ctx, run)
    ensures clusters == Clusters(BigOnes(run))
    ensures Shows(ctx, CandidatesOf(transactions), accelerations) && AllFair(ctx, run)
    ensures AllPaid(ctx, run)
  {
    var txMap := MapOf(transactions);
    ghost var passedOver;
    var template;
    template, ctx, run, passedOver := MakeBlockTemplate(CandidatesOf(transactions), accelerations,
        Limits(1, Unlimited, Unlimited));
    GreedyIsAlwaysBest(ctx, run, Limits(1, Unlimited, Unlimited), passedOver);
    clusters, rated := CollectClusters(txMap, template, ctx, run);
    RatesReadOff(transactions, accelerations, txMap, rated, template, ctx, run);
  }

  lemma RatesReadOff(
    transactions: seq<BlockTx>, accelerations: seq<Acceleration>, start: TxMap, rated: TxMap,
    template: seq<TemplateTx>, ctx: Context, run: seq<Package>)
    requires Plausible(CandidatesOf(transactions)) && Describes(ctx, CandidatesOf(transactions), accelerations)
    requires WellFormed(ctx) && IsRun(ctx, run) && Used(run) == ctx.txs.Keys == start.Keys
    requires start.Keys == Elements(Txids(CandidatesOf(transactions)))
    requires forall i :: 0 <= i < |transactions| ==>
      transactions[i].candidate.txid in start && start[transactions[i].candidate.txid] == transactions[i]
    requires Reports(run, template) && EntriesPay(ctx, template) && RatesSet(start, rated, template, |template|)
    ensures RatedRun(transactions, accelerations, ctx, run, rated) && AllPaid(ctx, run)
  {
    RatesAreThePackages(ctx, run, template, start, rated);
    BigOnesAreSeparate(ctx, run, rated);
    RatedAside(transactions, start, rated, template);
    AllPaidByMembers(ctx, run, template);
  }

  lemma AllPaidByMembers(ctx: Context, run: seq<Package>, template: seq<TemplateTx>)
    requires WellFormed(ctx) && IsRun(ctx, run) && Reports(run, template) && EntriesPay(ctx, template)
    ensures AllPaid(ctx, run)
  {
    forall k | 0 <= k < |run| ensures PaysFor(ctx, run[k], 1.0) {
      PaidByMembers(ctx, run, template, k);
    }
  }

  /** Nothing but the rates of the block was changed. */
  lemma RatedAside(transactions: seq<BlockTx>, start: TxMap, rated: TxMap, template: seq<TemplateTx>)
    requires Plausible(CandidatesOf(transactions))
    requires start.Keys == Elements(Txids(CandidatesOf(transactions)))
    requires forall i :: 0 <= i < |transactions| ==>
      transactions[i].candidate.txid in start && start[transactions[i].candidate.txid] == transactions[i]
    requires RatesSet(start, rated, template, |template|)
    ensures RatesAside(transactions, rated)
  {
    forall t | t in rated
      ensures exists n :: RatedFrom(transactions, rated, t, n)
    {
      var ids := Txids(CandidatesOf(transactions));
      assert t in ids;
      var n :| 0 <= n < |ids| && ids[n] == t;
      assert RatedFrom(transactions, rated, t, n);
    }
  }

  /** Each package is reported by the entry of its root. */
  lemma PaidByMembers(ctx: Context, run: seq<Package>, template: seq<TemplateTx>, k: nat)
    requires WellFormed(ctx) && IsRun(ctx, run) && Reports(run, template) && EntriesPay(ctx, template) && k < |run|
    ensures PaysFor(ctx, run[k], 1.0)
  {
    RootIsMember(ctx, run, k);
    assert run[k].root in run[k].cluster;
    TakenHas(run, k, run[k].root);
    var i :| 0 <= i < |Taken(run)| && Taken(run)[i] == run[k].root;
    assert template[i] == TemplateTx(run[k].root, run[k].cluster, run[k].rate, []);
    assert Pays(ctx, template[i].cluster, template[i].effectiveFeePerVsize);
    PaidByEntry(ctx, run[k]);
  }

  lemma PaidByEntry(ctx: Context, p: Package)
    requires Pays(ctx, p.cluster, p.rate)
    ensures PaysFor(ctx, p, 1.0)
  {
  }

  lemma RatesAreThePackages(
    ctx: Context, run: seq<Package>, template: seq<TemplateTx>, before: TxMap, after: TxMap)
    requires WellFormed(ctx) && IsRun(ctx, run) && Reports(run, template) && before.Keys == ctx.txs.Keys
    requires RatesSet(before, after, template, |template|)
    ensures forall k, t {:trigger t in run[k].cluster} :: 0 <= k < |run| && t in run[k].cluster ==>
      t in after && after[t].effectiveFeePerVsize == run[k].rate
  {
    TakenIsUsed(ctx, run);
    TemplateEntries(ctx, run, template);
    forall k, t | 0 <= k < |run| && t in run[k].cluster
      ensures t in after && after[t].effectiveFeePerVsize == run[k].rate
    {
      assert t in Used(run);
      assert t in Elements(Taken(run));
      var i :| 0 <= i < |Taken(run)| && Taken(run)[i] == t;
      assert template[i] == TemplateTx(t, run[k].cluster, run[k].rate, []);
    }
  }

  /** Ancestors, the transaction itself and descendants put the cluster back together. */
  lemma RelativesRebuildCluster(before: TxMap, after: TxMap, cluster: seq<TxId>, p: nat)
    requires ClusterAttached(before, after, cluster) && p < |cluster|
    ensures cluster[p] in after && after[cluster[p]].ancestors.Some? && after[cluster[p]].descendants.Some?
    ensures Ids(after[cluster[p]].ancestors.value) + [cluster[p]] + Ids(after[cluster[p]].descendants.value) == cluster
  {
    assert AttachedAt(before, after, cluster, p);
    assert Ids(ListedAll(before, cluster[..p])) == cluster[..p];
    assert Ids(ListedAll(before, cluster[p+1..])) == cluster[p+1..];
  }

  /** A transaction's listed ancestors hold every true ancestor it shares a package with,
      and its listed descendants hold none. */
  lemma ListedAncestorsAreComplete(
    ctx: Context, rank: map<TxId, nat>, run: seq<Package>, k: nat, before: TxMap, after: TxMap, p: nat, a: TxId)
    requires WellFormed(ctx) && IsRun(ctx, run) && Ranks(ctx.txs, rank) && k < |run| && p < |run[k].cluster|
    requires ClusterAttached(before, after, run[k].cluster)
    requires a in run[k].cluster && a in Ancestors(ctx.txs, run[k].cluster[p])
    ensures run[k].cluster[p] in after && after[run[k].cluster[p]].ancestors.Some? &&
      after[run[k].cluster[p]].descendants.Some?
    ensures a in Ids(after[run[k].cluster[p]].ancestors.value)
    ensures a !in Ids(after[run[k].cluster[p]].descendants.value)
  {
    var cluster := run[k].cluster;
    assert FollowsAt(ctx, run, k);
    assert AttachedAt(before, after, cluster, p);
    var i :| 0 <= i < |cluster| && cluster[i] == a;
    RunPrefix(ctx, run, k);
    ClusterIsTopological(ctx, rank, Used(run[..k]), run[k], i, p);
    assert Ids(ListedAll(before, cluster[..p])) == cluster[..p];
    assert Ids(ListedAll(before, cluster[p+1..])) == cluster[p+1..];
    assert cluster[..p][i] == a;
    assert forall j :: p < j < |cluster| ==> cluster[j] != a;
  }
}
