/** The two queues a template is picked from: the array sorted once by first score, and the
    list of repaired transactions that is re-sorted by current score. */
module Queues {
  import opened Basics
  import opened Packages
  import opened Relatives
  import opened Repairs
  import opened Commits

  /** Who stands before whom: higher score first, then lower txid order. */
  predicate Precedes(ctx: Context, book: Book, x: TxId, y: TxId)
    requires x in book && y in book && x in ctx.txs && y in ctx.txs
  {
    book[x].score > book[y].score || (book[x].score == book[y].score && ctx.txs[x].order <= ctx.txs[y].order)
  }

  predicate AllIn(ctx: Context, book: Book, s: seq<TxId>) {
    forall x :: x in s ==> x in book && x in ctx.txs
  }

  predicate PrioritySorted(ctx: Context, book: Book, s: seq<TxId>)
    requires AllIn(ctx, book, s)
  {
    forall i, j :: 0 <= i < j < |s| ==>
      book[s[i]].score >= book[s[j]].score &&
      (book[s[i]].score == book[s[j]].score ==> ctx.txs[s[i]].order <= ctx.txs[s[j]].order)
  }

  /** Sorting by priority, as the library's sort does with the comparator. */
  method SortByPriority(ctx: Context, book: Book, s: seq<TxId>) returns (sorted: seq<TxId>)
    requires AllIn(ctx, book, s)
    ensures multiset(sorted) == multiset(s) && AllIn(ctx, book, sorted)
    ensures PrioritySorted(ctx, book, sorted)
  {
    sorted := [];
    for i := 0 to |s|
      invariant AllIn(ctx, book, sorted) && multiset(sorted) == multiset(s[..i])
      invariant PrioritySorted(ctx, book, sorted)
    {
      assert s[..i+1] == s[..i] + [s[i]];
      sorted := InsertByPriority(ctx, book, sorted, s[i]);
    }
    assert s[..|s|] == s;
    forall x | x in sorted
      ensures x in s
    {
      assert x in multiset(sorted);
    }
  }

  method InsertByPriority(ctx: Context, book: Book, s: seq<TxId>, x: TxId) returns (sorted: seq<TxId>)
    requires AllIn(ctx, book, s) && x in book && x in ctx.txs && PrioritySorted(ctx, book, s)
    ensures multiset(sorted) == multiset(s) + multiset{x} && AllIn(ctx, book, sorted)
    ensures PrioritySorted(ctx, book, sorted)
  {
    var k := 0;
    while k < |s| && Precedes(ctx, book, s[k], x)
      invariant 0 <= k <= |s|
      invariant forall i :: 0 <= i < k ==> Precedes(ctx, book, s[i], x)
    {
      k := k + 1;
    }
    sorted := Inserted(s, k, x);
    InsertedHolds(s, k, x);
    forall y | y in sorted
      ensures y in book && y in ctx.txs
    {
      assert y in multiset(sorted);
    }
    InsertedIsSorted(ctx, book, s, k, x);
  }

  function Inserted(s: seq<TxId>, k: nat, x: TxId): seq<TxId>
    requires k <= |s|
  {
    s[..k] + [x] + s[k..]
  }

  lemma InsertedHolds(s: seq<TxId>, k: nat, x: TxId)
    requires k <= |s|
    ensures multiset(Inserted(s, k, x)) == multiset(s) + multiset{x}
    ensures |Inserted(s, k, x)| == |s| + 1
    ensures forall i :: 0 <= i <= |s| ==>
      Inserted(s, k, x)[i] == if i < k then s[i] else if i == k then x else s[i-1]
  {
    assert s == s[..k] + s[k..];
  }

  lemma PrecedesOrder(ctx: Context, book: Book, x: TxId, y: TxId, z: TxId)
    requires AllIn(ctx, book, [x, y, z])
    ensures !Precedes(ctx, book, y, x) && Precedes(ctx, book, y, z) ==> Precedes(ctx, book, x, z)
    ensures !Precedes(ctx, book, y, x) ==> Precedes(ctx, book, x, y)
  {
    assert x in [x, y, z] && y in [x, y, z] && z in [x, y, z];
  }

  lemma InsertedIsSorted(ctx: Context, book: Book, s: seq<TxId>, k: nat, x: TxId)
    requires AllIn(ctx, book, s) && x in book && x in ctx.txs && PrioritySorted(ctx, book, s) && k <= |s|
    requires forall i :: 0 <= i < k ==> Precedes(ctx, book, s[i], x)
    requires k < |s| ==> !Precedes(ctx, book, s[k], x)
    requires AllIn(ctx, book, Inserted(s, k, x))
    ensures PrioritySorted(ctx, book, Inserted(s, k, x))
  {
    var sorted := Inserted(s, k, x);
    InsertedHolds(s, k, x);
    forall i, j | 0 <= i < j < |sorted|
      ensures Precedes(ctx, book, sorted[i], sorted[j])
    {
      if i == k {
        PrecedesOrder(ctx, book, x, s[k], s[j-1]);
      }
    }
  }

  // ------------------------------------------------------------- the invariant

  /** Everyone still to be placed and not set aside waits in one of the two queues, and
      both queues are in order of score. */
  ghost predicate Waiting(
    ctx: Context, book: Book, used: set<TxId>, firstScore: map<TxId, real>,
    mempoolArray: seq<TxId>, modified: seq<TxId>, isModified: set<TxId>, overflow: set<TxId>)
  {
    && book.Keys == ctx.txs.Keys == firstScore.Keys
    && AllIn(ctx, book, mempoolArray) && AllIn(ctx, book, modified)
    && (forall t {:trigger t in isModified} :: t in ctx.txs && t !in used && t !in overflow ==>
          if t in isModified then t in modified else t in mempoolArray)
    && (forall t {:trigger firstScore[t]} :: t in ctx.txs && t !in isModified ==> book[t].score == firstScore[t])
    && (forall i, j :: 0 <= i < j < |mempoolArray| ==> firstScore[mempoolArray[j]] <= firstScore[mempoolArray[i]])
    && (forall i, j :: 0 <= i < j < |modified| ==> book[modified[j]].score <= book[modified[i]].score)
  }

  /** Who can still be picked from the queues: an array entry that has been flagged is skipped. */
  function Queued(mempoolArray: seq<TxId>, modified: seq<TxId>, isModified: set<TxId>): set<TxId> {
    Elements(modified) + (Elements(mempoolArray) - isModified)
  }

  /** Who was set aside and has not been queued again since. */
  ghost function LeftAside(
    used: set<TxId>, mempoolArray: seq<TxId>, modified: seq<TxId>, isModified: set<TxId>,
    overflow: set<TxId>): set<TxId>
  {
    overflow - Queued(mempoolArray, modified, isModified) - used
  }

  /** No waiting transaction scores better than `next`. */
  ghost predicate TopScore(ctx: Context, book: Book, used: set<TxId>, overflow: set<TxId>, next: TxId) {
    && next in book && book.Keys == ctx.txs.Keys
    && forall t {:trigger book[t].score} :: t in ctx.txs && t !in used && t !in overflow ==>
        book[t].score <= book[next].score
  }

  lemma TopOfPool(
    ctx: Context, book: Book, used: set<TxId>, firstScore: map<TxId, real>,
    mempoolArray: seq<TxId>, modified: seq<TxId>, isModified: set<TxId>, overflow: set<TxId>)
    requires Waiting(ctx, book, used, firstScore, mempoolArray, modified, isModified, overflow)
    requires mempoolArray != [] && mempoolArray[0] !in isModified
    requires modified == [] || book[mempoolArray[0]].score > book[modified[0]].score
    ensures TopScore(ctx, book, used, LeftAside(used, mempoolArray, modified, isModified, overflow), mempoolArray[0])
  {
    var next := mempoolArray[0];
    assert firstScore[next] == book[next].score;
    var aside := LeftAside(used, mempoolArray, modified, isModified, overflow);
    forall t | t in ctx.txs && t !in used && t !in aside
      ensures book[t].score <= book[next].score
    {
      var repaired := t in isModified;
      if t in modified {
        var i :| 0 <= i < |modified| && modified[i] == t;
      } else {
        var i :| 0 <= i < |mempoolArray| && mempoolArray[i] == t;
        assert firstScore[t] == book[t].score;
      }
    }
  }

  lemma TopOfModified(
    ctx: Context, book: Book, used: set<TxId>, firstScore: map<TxId, real>,
    mempoolArray: seq<TxId>, modified: seq<TxId>, isModified: set<TxId>, overflow: set<TxId>)
    requires Waiting(ctx, book, used, firstScore, mempoolArray, modified, isModified, overflow)
    requires modified != [] && (mempoolArray == [] || mempoolArray[0] !in isModified)
    requires mempoolArray == [] || book[mempoolArray[0]].score <= book[modified[0]].score
    ensures TopScore(ctx, book, used, LeftAside(used, mempoolArray, modified, isModified, overflow), modified[0])
  {
    var next := modified[0];
    var aside := LeftAside(used, mempoolArray, modified, isModified, overflow);
    forall t | t in ctx.txs && t !in used && t !in aside
      ensures book[t].score <= book[next].score
    {
      var repaired := t in isModified;
      if t in modified {
        var i :| 0 <= i < |modified| && modified[i] == t;
      } else {
        var i :| 0 <= i < |mempoolArray| && mempoolArray[i] == t;
        assert firstScore[t] == book[t].score;
        assert firstScore[mempoolArray[0]] == book[mempoolArray[0]].score;
      }
    }
  }

  /** The best score kept is the best score there is. */
  lemma TopScoreIsBest(ctx: Context, book: Book, run: seq<Package>, overflow: set<TxId>, next: TxId)
    requires Settled(ctx, book, run) && next in ctx.txs && TopScore(ctx, book, Used(run), overflow, next)
    ensures Best(ctx, Used(run), overflow, next)
  {
    forall t | t in ctx.txs && t !in Used(run) && t !in overflow
      ensures Score(ctx, Used(run), t) <= Score(ctx, Used(run), next)
    {
      assert AccountedAt(ctx, book[t], Used(run), t);
      assert AccountedAt(ctx, book[next], Used(run), next);
    }
  }

  /** The head of the array may go once it is used, set aside or in the other queue. */
  lemma PoolHeadGoes(
    ctx: Context, book: Book, used: set<TxId>, firstScore: map<TxId, real>,
    mempoolArray: seq<TxId>, modified: seq<TxId>, isModified: set<TxId>, overflow: set<TxId>)
    requires Waiting(ctx, book, used, firstScore, mempoolArray, modified, isModified, overflow)
    requires mempoolArray != []
    requires mempoolArray[0] in used + overflow + isModified
    ensures Waiting(ctx, book, used, firstScore, mempoolArray[1..], modified, isModified, overflow)
  {
    var rest := mempoolArray[1..];
    assert mempoolArray == [mempoolArray[0]] + rest;
    forall i, j | 0 <= i < j < |rest|
      ensures firstScore[rest[j]] <= firstScore[rest[i]]
    {
      assert rest[i] == mempoolArray[i+1] && rest[j] == mempoolArray[j+1];
    }
  }

  lemma ModifiedHeadGoes(
    ctx: Context, book: Book, used: set<TxId>, firstScore: map<TxId, real>,
    mempoolArray: seq<TxId>, modified: seq<TxId>, isModified: set<TxId>, overflow: set<TxId>)
    requires Waiting(ctx, book, used, firstScore, mempoolArray, modified, isModified, overflow)
    requires modified != []
    requires modified[0] in used + overflow
    ensures Waiting(ctx, book, used, firstScore, mempoolArray, modified[1..], isModified, overflow)
  {
    var rest := modified[1..];
    assert modified == [modified[0]] + rest;
    forall i, j | 0 <= i < j < |rest|
      ensures book[rest[j]].score <= book[rest[i]].score
    {
      assert rest[i] == modified[i+1] && rest[j] == modified[j+1];
    }
  }

  lemma MoreAside(
    ctx: Context, book: Book, used: set<TxId>, used': set<TxId>, firstScore: map<TxId, real>,
    mempoolArray: seq<TxId>, modified: seq<TxId>, isModified: set<TxId>, overflow: set<TxId>, overflow': set<TxId>)
    requires Waiting(ctx, book, used, firstScore, mempoolArray, modified, isModified, overflow)
    requires used <= used' && overflow <= overflow'
    ensures Waiting(ctx, book, used', firstScore, mempoolArray, modified, isModified, overflow')
  {
  }

  /** Only what lies below the taken package can have changed score. */
  lemma OthersKeepScore(ctx: Context, before: Book, after: Book, used: set<TxId>, taken: set<TxId>, t: TxId)
    requires Accounted(ctx, before, used) && Accounted(ctx, after, used + taken)
    requires t in ctx.txs && t !in BelowAny(ctx.txs, taken)
    ensures after[t].score == before[t].score
  {
    assert AccountedAt(ctx, before[t], used, t);
    assert AccountedAt(ctx, after[t], used + taken, t);
    assert Remaining(ctx, used + taken, t) == Remaining(ctx, used, t);
  }

  /** After a commit, with everyone touched flagged and the flagged list sorted again. */
  lemma CommitKeepsWaiting(
    ctx: Context, before: Book, after: Book, used: set<TxId>, taken: set<TxId>, firstScore: map<TxId, real>,
    mempoolArray: seq<TxId>, modified: seq<TxId>, isModified: set<TxId>, overflow: set<TxId>,
    modified': seq<TxId>, isModified': set<TxId>)
    requires Waiting(ctx, before, used + taken, firstScore, mempoolArray, modified, isModified, overflow)
    requires Accounted(ctx, before, used) && Accounted(ctx, after, used + taken)
    requires isModified' == isModified + BelowAny(ctx.txs, taken)
    requires Elements(modified') == Elements(modified) + (BelowAny(ctx.txs, taken) - isModified)
    requires AllIn(ctx, after, modified') && PrioritySorted(ctx, after, modified')
    ensures Waiting(ctx, after, used + taken, firstScore, mempoolArray, modified', isModified', overflow)
  {
    forall t | t in ctx.txs && t !in isModified'
      ensures after[t].score == firstScore[t]
    {
      OthersKeepScore(ctx, before, after, used, taken, t);
      assert before[t].score == firstScore[t];
    }
    forall t | t in ctx.txs && t !in used + taken && t !in overflow
      ensures if t in isModified' then t in modified' else t in mempoolArray
    {
      if t in isModified {
        assert t in Elements(modified);
      }
      assert t in Elements(modified') <==> t in modified';
    }
    forall i, j | 0 <= i < j < |modified'|
      ensures after[modified'[j]].score <= after[modified'[i]].score
    {
      assert Precedes(ctx, after, modified'[i], modified'[j]);
    }
  }
}
