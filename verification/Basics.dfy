/** Ids, lists of ids, and a few facts about sets that several modules need. */
module Basics {

  /** Transaction ids are only ever compared, so a number stands for one. */
  type TxId = nat

  datatype Option<T> = None | Some(value: T)

  function Elements(s: seq<TxId>): set<TxId> {
    set x | x in s
  }

  predicate Distinct(s: seq<TxId>) {
    forall i, j :: 0 <= i < j < |s| ==> s[i] != s[j]
  }

  lemma DistinctConcat(s: seq<TxId>, t: seq<TxId>)
    requires Distinct(s) && Distinct(t) && Elements(s) !! Elements(t)
    ensures Distinct(s + t) && Elements(s + t) == Elements(s) + Elements(t)
  {
    forall i, j | 0 <= i < j < |s + t|
      ensures (s + t)[i] != (s + t)[j]
    {
      if i < |s| <= j {
        assert s[i] in Elements(s) && t[j - |s|] in Elements(t);
      }
    }
  }

  function Reversed(s: seq<TxId>): (r: seq<TxId>)
    ensures |r| == |s|
  {
    if s == [] then [] else [s[|s|-1]] + Reversed(s[..|s|-1])
  }

  lemma {:induction false} ReversedIsSame(s: seq<TxId>)
    ensures Elements(Reversed(s)) == Elements(s)
    ensures forall i :: 0 <= i < |s| ==> Reversed(s)[i] == s[|s| - 1 - i]
  {
    if s != [] {
      var init := s[..|s|-1];
      ReversedIsSame(init);
      assert s == init + [s[|s|-1]];
      assert Elements(s) == Elements(init) + {s[|s|-1]};
    }
  }

  lemma ReversedIsDistinct(s: seq<TxId>)
    requires Distinct(s)
    ensures Distinct(Reversed(s)) && Elements(Reversed(s)) == Elements(s)
  {
    ReversedIsSame(s);
  }

  /** Adds up an amount over a list. */
  ghost function Sum(ids: seq<TxId>, amount: TxId -> int): int {
    if ids == [] then 0 else Sum(ids[..|ids|-1], amount) + amount(ids[|ids|-1])
  }

  lemma {:induction false} SumOfSame(ids: seq<TxId>, f: TxId -> int, g: TxId -> int)
    requires forall t :: t in ids ==> f(t) == g(t)
    ensures Sum(ids, f) == Sum(ids, g)
  {
    if ids != [] {
      SumOfSame(ids[..|ids|-1], f, g);
    }
  }

  /** Somewhere in the list `a` stands before `b`. */
  ghost predicate Before(ids: seq<TxId>, a: TxId, b: TxId) {
    exists x, y {:trigger ids[x], ids[y]} :: 0 <= x < y < |ids| && ids[x] == a && ids[y] == b
  }

  lemma BeforeStays(ids: seq<TxId>, more: seq<TxId>, a: TxId, b: TxId)
    requires Before(ids, a, b)
    ensures Before(ids + more, a, b)
  {
    var x, y :| 0 <= x < y < |ids| && ids[x] == a && ids[y] == b;
    assert (ids + more)[x] == a && (ids + more)[y] == b;
  }

  lemma BeforeAcross(ids: seq<TxId>, more: seq<TxId>, a: TxId, b: TxId)
    requires a in ids && b in more
    ensures Before(ids + more, a, b)
  {
    var x :| 0 <= x < |ids| && ids[x] == a;
    var y :| 0 <= y < |more| && more[y] == b;
    assert (ids + more)[x] == a && (ids + more)[|ids| + y] == b;
  }

  lemma ProperSubsetIsSmaller<T>(small: set<T>, big: set<T>)
    requires small < big
    ensures |small| < |big|
  {
    var extra := big - small;
    assert big == small + extra;
    assert extra != {};
  }

  lemma LastWriteWins<K, V>(m: map<K, V>, k: K, a: V, b: V)
    ensures m[k := a][k := b] == m[k := b]
  {
  }

  lemma RemovalBesideWrite<K, V>(m: map<K, V>, k: K, a: V, gone: K)
    requires gone != k
    ensures m[k := a] - {gone} == (m - {gone})[k := a]
  {
  }

  lemma RemovingNothing<K, V>(m: map<K, V>, k: K)
    requires k !in m
    ensures m - {k} == m
  {
  }

  lemma PrefixStep<T>(s: seq<T>, i: nat)
    requires i < |s|
    ensures s[..i+1] == s[..i] + [s[i]]
    ensures s[..i+1][..i] == s[..i] && s[..i+1][i] == s[i]
  {
  }

  lemma RemovalsAddUp<K, V>(m: map<K, V>, gone: set<K>, k: K)
    ensures m - gone - {k} == m - (gone + {k})
  {
  }

  lemma ElementsStep(s: seq<TxId>, i: nat)
    requires i < |s|
    ensures s[..i+1] == s[..i] + [s[i]]
    ensures Elements(s[..i+1]) == Elements(s[..i]) + {s[i]}
  {
  }

  lemma PrefixWhole<T>(s: seq<T>)
    ensures s[..|s|] == s && s[..0] == []
  {
  }

  lemma SplitLast<T>(s: seq<T>)
    requires s != []
    ensures s == s[..|s|-1] + [s[|s|-1]]
  {
  }

  lemma LastOfConcat<T>(a: seq<T>, b: seq<T>)
    requires b != []
    ensures (a + b)[..|a + b|-1] == a + b[..|b|-1] && (a + b)[|a + b|-1] == b[|b|-1]
  {
  }

  lemma ConcatThrice<T>(a: seq<T>, b: seq<T>, c: seq<T>)
    ensures (a + b) + c == a + (b + c)
  {
  }
}
