/** The event log of the cache and the store it is replayed into. Values are not logged (save
    for expiry times): a replayed event writes what the cache holds by then. */
module RbfMirror {
  import opened Basics
  import opened RbfForest
  import opened RbfExport

  /** A mempool transaction: the sequence numbers of its inputs, and when it was first seen
      (0.0 if that is not known). */
  datatype MempoolTx = MempoolTx(txid: TxId, sequences: seq<nat>, firstSeen: real)

  /** What the cache holds and the store mirrors. */
  datatype Memory = Memory(txs: map<TxId, MempoolTx>, trees: Forest, expiring: map<TxId, int>)

  datatype Kind = TxKind | TreeKind | ExpKind

  datatype Op = Remove | Add | Change

  datatype CacheEvent = CacheEvent(op: Op, kind: Kind, txid: TxId, expiry: int)

  /** What a store keeps under a kind and an id. */
  datatype Entry = TxEntry(tx: MempoolTx) | TreeEntry(tree: Deflated) | ExpEntry(expiry: int)

  function Get(memory: Memory, kind: Kind, id: TxId): Option<Entry> {
    match kind
    case TxKind => if id in memory.txs then Some(TxEntry(memory.txs[id])) else None
    case TreeKind => if id in memory.trees then Some(TreeEntry(ExportTree(memory.trees[id]))) else None
    case ExpKind => if id in memory.expiring then Some(ExpEntry(memory.expiring[id])) else None
  }

  type Store = map<(Kind, TxId), Entry>

  function Read(store: Store, kind: Kind, id: TxId): Option<Entry> {
    if (kind, id) in store then Some(store[(kind, id)]) else None
  }

  function LastEvent(events: seq<CacheEvent>, kind: Kind, id: TxId): Option<CacheEvent> {
    if events == [] then None
    else
      var last := events[|events|-1];
      if last.kind == kind && last.txid == id then Some(last) else LastEvent(events[..|events|-1], kind, id)
  }

  lemma {:induction false} LastOfConcat(a: seq<CacheEvent>, b: seq<CacheEvent>, kind: Kind, id: TxId)
    ensures LastEvent(a + b, kind, id) ==
      if LastEvent(b, kind, id).Some? then LastEvent(b, kind, id) else LastEvent(a, kind, id)
  {
    if b == [] {
      assert a + b == a;
    } else {
      LastOfConcat(a, b[..|b|-1], kind, id);
      assert (a + b)[..|a + b|-1] == a + b[..|b|-1];
    }
  }

  /** With `before` what was held of one entry and `after` what is held now, the last event
      logged for it accounts for the difference. */
  ghost predicate Accounts(before: Option<Entry>, last: Option<CacheEvent>, after: Option<Entry>) {
    match last
    case None => after == before
    case Some(e) =>
      if e.op == Remove then after.None?
      else after.Some? && (e.kind == ExpKind ==> after == Some(ExpEntry(e.expiry)))
  }

  ghost predicate AccountsAt(before: Memory, events: seq<CacheEvent>, after: Memory, kind: Kind, id: TxId) {
    Accounts(Get(before, kind, id), LastEvent(events, kind, id), Get(after, kind, id))
  }

  /** The log from `queue` to `queue'` accounts for every change of memory. */
  ghost predicate Logged(before: Memory, queue: seq<CacheEvent>, after: Memory, queue': seq<CacheEvent>) {
    && queue <= queue'
    && forall kind, id {:trigger AccountsAt(before, queue'[|queue|..], after, kind, id)} ::
         AccountsAt(before, queue'[|queue|..], after, kind, id)
  }

  lemma LoggedCompose(
    one: Memory, queue: seq<CacheEvent>, two: Memory, queue': seq<CacheEvent>, three: Memory, queue'': seq<CacheEvent>)
    requires Logged(one, queue, two, queue') && Logged(two, queue', three, queue'')
    ensures Logged(one, queue, three, queue'')
  {
    var a, b := queue'[|queue|..], queue''[|queue'|..];
    assert queue''[|queue|..] == a + b;
    forall kind, id
      ensures AccountsAt(one, queue''[|queue|..], three, kind, id)
    {
      assert AccountsAt(one, a, two, kind, id) && AccountsAt(two, b, three, kind, id);
      LastOfConcat(a, b, kind, id);
      if LastEvent(b, kind, id).Some? {
        LastEventMatches(b, kind, id);
      }
    }
  }

  lemma {:induction false} LastEventMatches(events: seq<CacheEvent>, kind: Kind, id: TxId)
    requires LastEvent(events, kind, id).Some?
    ensures LastEvent(events, kind, id).value.kind == kind && LastEvent(events, kind, id).value.txid == id
  {
    if !(events[|events|-1].kind == kind && events[|events|-1].txid == id) {
      LastEventMatches(events[..|events|-1], kind, id);
    }
  }

  lemma NothingLogged(memory: Memory, queue: seq<CacheEvent>)
    ensures Logged(memory, queue, memory, queue)
  {
    assert queue[|queue|..] == [];
  }

  /** One entry changes and one event says so. */
  lemma OneLogged(before: Memory, queue: seq<CacheEvent>, after: Memory, e: CacheEvent)
    requires forall kind, id :: kind != e.kind || id != e.txid ==> Get(after, kind, id) == Get(before, kind, id)
    requires e.op == Remove ==> Get(after, e.kind, e.txid).None?
    requires e.op != Remove ==> Get(after, e.kind, e.txid).Some?
    requires e.op != Remove && e.kind == ExpKind ==> Get(after, e.kind, e.txid) == Some(ExpEntry(e.expiry))
    ensures Logged(before, queue, after, queue + [e])
  {
    var events := (queue + [e])[|queue|..];
    assert events == [e] && events[..|events|-1] == [];
    forall kind, id
      ensures AccountsAt(before, events, after, kind, id)
    {
      assert LastEvent([], kind, id) == None;
    }
  }

  // ------------------------------------------------------ replaying into a store

  /** A store write that has been started but need not have happened yet. */
  datatype Write = Set(kind: Kind, id: TxId, entry: Entry) | Delete(kind: Kind, id: TxId) | Skip

  function Apply(store: Store, w: Write): Store {
    match w
    case Set(kind, id, entry) => store[(kind, id) := entry]
    case Delete(kind, id) => store - {(kind, id)}
    case Skip => store
  }

  /** What replaying event `e` writes while the cache holds `memory`. */
  function WriteFor(memory: Memory, e: CacheEvent): Write {
    if e.op == Remove then Delete(e.kind, e.txid)
    else if e.kind == ExpKind then Set(ExpKind, e.txid, ExpEntry(e.expiry))
    else
      match Get(memory, e.kind, e.txid)
      case Some(entry) => Set(e.kind, e.txid, entry)
      case None => Skip
  }

  /** The cache, its log, how much of the log has been replayed, the write under way, and
      the store. */
  datatype Sync = Sync(memory: Memory, queue: seq<CacheEvent>, next: nat, pending: Write, store: Store)

  /** The cache changed, between two awaits or during one, and logged what it changed. */
  ghost predicate CacheStep(s: Sync, s': Sync) {
    && s' == s.(memory := s'.memory, queue := s'.queue)
    && Logged(s.memory, s.queue, s'.memory, s'.queue)
  }

  /** The replay reads the next event and the value it stands for, and starts the write. */
  ghost predicate ReplayStep(s: Sync, s': Sync) {
    && s.pending == Skip && s.next < |s.queue|
    && s' == s.(next := s.next + 1, pending := WriteFor(s.memory, s.queue[s.next]))
  }

  /** The store carries out the write under way. */
  ghost predicate StoreStep(s: Sync, s': Sync) {
    s' == s.(pending := Skip, store := Apply(s.store, s.pending))
  }

  /** With the whole log replayed it is thrown away. */
  ghost predicate DrainStep(s: Sync, s': Sync) {
    && s.pending == Skip && s.next == |s.queue|
    && s' == s.(queue := [], next := 0)
  }

  ghost predicate Step(s: Sync, s': Sync) {
    CacheStep(s, s') || ReplayStep(s, s') || StoreStep(s, s') || DrainStep(s, s')
  }

  /** Finishing the write under way and accounting for the events not yet replayed leads
      from the store to the cache. */
  ghost predicate CatchesUpAt(s: Sync, kind: Kind, id: TxId)
    requires s.next <= |s.queue|
  {
    Accounts(Read(Apply(s.store, s.pending), kind, id), LastEvent(s.queue[s.next..], kind, id), Get(s.memory, kind, id))
  }

  ghost predicate CatchesUp(s: Sync) {
    && s.next <= |s.queue|
    && forall kind, id {:trigger CatchesUpAt(s, kind, id)} :: CatchesUpAt(s, kind, id)
  }

  lemma CacheStepCatchesUp(s: Sync, s': Sync)
    requires CatchesUp(s) && CacheStep(s, s')
    ensures CatchesUp(s')
  {
    var more := s'.queue[|s.queue|..];
    assert s'.queue[s.next..] == s.queue[s.next..] + more;
    forall kind, id
      ensures CatchesUpAt(s', kind, id)
    {
      assert CatchesUpAt(s, kind, id) && AccountsAt(s.memory, more, s'.memory, kind, id);
      LastOfConcat(s.queue[s.next..], more, kind, id);
    }
  }

  lemma ReplayStepCatchesUp(s: Sync, s': Sync)
    requires CatchesUp(s) && ReplayStep(s, s')
    ensures CatchesUp(s')
  {
    var e := s.queue[s.next];
    assert s.queue[s.next..] == [e] + s'.queue[s'.next..];
    forall kind, id
      ensures CatchesUpAt(s', kind, id)
    {
      assert CatchesUpAt(s, kind, id);
      LastOfConcat([e], s'.queue[s'.next..], kind, id);
      assert [e][..0] == [];
      assert LastEvent([], kind, id) == None;
    }
  }

  lemma StepCatchesUp(s: Sync, s': Sync)
    requires CatchesUp(s) && Step(s, s')
    ensures CatchesUp(s')
  {
    if CacheStep(s, s') {
      CacheStepCatchesUp(s, s');
    } else if ReplayStep(s, s') {
      ReplayStepCatchesUp(s, s');
    } else {
      assert s.queue[|s.queue|..] == [];
      forall kind, id
        ensures CatchesUpAt(s', kind, id)
      {
        assert CatchesUpAt(s, kind, id);
      }
    }
  }

  /** A run of the cache and its replay, in any interleaving. */
  ghost predicate Runs(states: seq<Sync>) {
    && states != []
    && forall i {:trigger Step(states[i], states[i+1])} :: 0 <= i < |states| - 1 ==> Step(states[i], states[i+1])
  }

  /** The store holds what the cache holds, entry by entry. */
  ghost predicate Mirrored(memory: Memory, store: Store) {
    forall kind, id {:trigger Get(memory, kind, id)} :: Read(store, kind, id) == Get(memory, kind, id)
  }

  /** Whatever happens between the awaits, once the log has been replayed to its end the
      store mirrors the cache. */
  lemma {:induction false} DrainedStoreMirrors(states: seq<Sync>)
    requires Runs(states)
    requires states[0].queue == [] && states[0].next == 0 && states[0].pending == Skip
    requires Mirrored(states[0].memory, states[0].store)
    ensures CatchesUp(states[|states|-1])
    ensures var last := states[|states|-1];
      last.next == |last.queue| && last.pending == Skip ==> Mirrored(last.memory, last.store)
  {
    var last := states[|states|-1];
    if |states| == 1 {
      forall kind, id
        ensures CatchesUpAt(last, kind, id)
      {
        assert Get(last.memory, kind, id) == Read(last.store, kind, id);
      }
    } else {
      var before := states[..|states|-1];
      forall i {:trigger Step(before[i], before[i+1])} | 0 <= i < |before| - 1
        ensures Step(before[i], before[i+1])
      {
        assert before[i] == states[i] && before[i+1] == states[i+1];
        assert Step(states[i], states[i+1]);
      }
      DrainedStoreMirrors(before);
      var k := |states| - 2;
      assert Step(states[k], states[k+1]);
      StepCatchesUp(states[k], last);
    }
    if last.next == |last.queue| && last.pending == Skip {
      assert last.queue[last.next..] == [];
      forall kind, id
        ensures Read(last.store, kind, id) == Get(last.memory, kind, id)
      {
        assert CatchesUpAt(last, kind, id);
      }
    }
  }
}
