/**
 The pandas aggregations the page uses, on one column at a time:
 `groupby(key)[col].sum()` (missing keys dropped, groups in ascending key
 order), `value_counts()` (a group sum of ones) and `nlargest(n)` (a stable
 sort by value, largest first, cut to `n` entries).
 */
module Grouping {
  import opened Wrappers
  import opened Text

  /** One row seen through two columns: its group key (None for a missing cell) and what it adds to its group. */
  datatype Weighted = Weighted(key: Option<string>, weight: real)

  /** One row of an aggregated Series: a group key and the group's aggregate. */
  datatype Entry = Entry(key: string, value: real)

  predicate HasKey(ws: seq<Weighted>, k: string) {
    exists i :: 0 <= i < |ws| && ws[i].key == Some(k)
  }

  /** The present keys of `ws`, in row order, repetitions kept. */
  function KeyList(ws: seq<Weighted>): (ks: seq<string>)
    ensures forall k :: k in ks <==> HasKey(ws, k)
  {
    var column := seq(|ws|, i requires 0 <= i < |ws| => ws[i].key);
    assert forall k :: Some(k) in column <==> HasKey(ws, k) by {
      forall k ensures Some(k) in column <==> HasKey(ws, k) {
        if Some(k) in column {
          var i :| 0 <= i < |column| && column[i] == Some(k);
          assert ws[i].key == Some(k);
        }
        if HasKey(ws, k) {
          var i :| 0 <= i < |ws| && ws[i].key == Some(k);
          assert column[i] == Some(k);
        }
      }
    }
    DropMissing(column)
  }

  /** The sum of the weights of the rows whose key is `k`. */
  function SumFor(ws: seq<Weighted>, k: string): real {
    if ws == [] then 0.0
    else (if ws[0].key == Some(k) then ws[0].weight else 0.0) + SumFor(ws[1..], k)
  }

  /** The sum of the weights of the rows that have a key. */
  function KeyedTotal(ws: seq<Weighted>): real {
    if ws == [] then 0.0
    else (if ws[0].key.Some? then ws[0].weight else 0.0) + KeyedTotal(ws[1..])
  }

  function Keys(es: seq<Entry>): (ks: seq<string>)
    ensures |ks| == |es|
  {
    seq(|es|, i requires 0 <= i < |es| => es[i].key)
  }

  function Values(es: seq<Entry>): real {
    if es == [] then 0.0 else es[0].value + Values(es[1..])
  }

  /** The entry of each key in `ks`, in the order of `ks`. */
  function Totals(ws: seq<Weighted>, ks: seq<string>): (es: seq<Entry>)
    ensures |es| == |ks|
    ensures forall i :: 0 <= i < |ks| ==> es[i] == Entry(ks[i], SumFor(ws, ks[i]))
  {
    if ks == [] then [] else [Entry(ks[0], SumFor(ws, ks[0]))] + Totals(ws, ks[1..])
  }

  /** `groupby(key)[col].sum()`: one entry per present key, keys ascending, each the sum of its rows. */
  function GroupSum(ws: seq<Weighted>): (g: seq<Entry>)
    ensures StrictlyAscending(Keys(g))
    ensures forall k :: k in Keys(g) <==> HasKey(ws, k)
    ensures forall i :: 0 <= i < |g| ==> g[i].value == SumFor(ws, g[i].key)
  {
    var ks := SortedDistinct(KeyList(ws));
    var g := Totals(ws, ks);
    assert Keys(g) == ks;
    g
  }

  // The group sums add up to the whole keyed column.

  function HeadShare(w: Weighted, ks: seq<string>): real {
    if ks == [] then 0.0
    else (if w.key == Some(ks[0]) then w.weight else 0.0) + HeadShare(w, ks[1..])
  }

  lemma {:induction false} TotalsSplit(ws: seq<Weighted>, ks: seq<string>)
    requires ws != []
    ensures Values(Totals(ws, ks)) == HeadShare(ws[0], ks) + Values(Totals(ws[1..], ks))
  {
    if ks != [] {
      TotalsSplit(ws, ks[1..]);
    }
  }

  lemma {:induction false} HeadShareOnce(w: Weighted, ks: seq<string>)
    requires StrictlyAscending(ks)
    requires w.key.Some? ==> w.key.value in ks
    ensures HeadShare(w, ks) == if w.key.Some? then w.weight else 0.0
  {
    if ks != [] {
      if w.key == Some(ks[0]) {
        forall j | 0 <= j < |ks[1..]| ensures ks[1..][j] != ks[0] {
          assert Less(ks[0], ks[j + 1]);
          LessIrreflexive(ks[0]);
        }
        HeadShareAbsent(w, ks[1..]);
      } else {
        assert forall i, j :: 0 <= i < j < |ks[1..]| ==> ks[1..][i] == ks[i + 1] && ks[1..][j] == ks[j + 1];
        HeadShareOnce(w, ks[1..]);
      }
    }
  }

  lemma {:induction false} HeadShareAbsent(w: Weighted, ks: seq<string>)
    requires w.key.Some? && w.key.value !in ks
    ensures HeadShare(w, ks) == 0.0
  {
    if ks != [] {
      HeadShareAbsent(w, ks[1..]);
    }
  }

  lemma {:induction false} TotalsPartition(ws: seq<Weighted>, ks: seq<string>)
    requires StrictlyAscending(ks)
    requires forall k :: HasKey(ws, k) ==> k in ks
    ensures Values(Totals(ws, ks)) == KeyedTotal(ws)
  {
    if ws == [] {
      ZeroTotals(ks);
    } else {
      TotalsSplit(ws, ks);
      assert ws[0].key.Some? ==> HasKey(ws, ws[0].key.value);
      HeadShareOnce(ws[0], ks);
      forall k | HasKey(ws[1..], k) ensures k in ks {
        var i :| 0 <= i < |ws[1..]| && ws[1..][i].key == Some(k);
        assert ws[i + 1] == ws[1..][i];
      }
      TotalsPartition(ws[1..], ks);
    }
  }

  lemma {:induction false} ZeroTotals(ks: seq<string>)
    ensures Values(Totals([], ks)) == 0.0
  {
    if ks != [] {
      ZeroTotals(ks[1..]);
    }
  }

  /** The groups of `groupby(...).sum()` together hold every keyed row's weight exactly once. */
  lemma GroupSumTotal(ws: seq<Weighted>)
    ensures Values(GroupSum(ws)) == KeyedTotal(ws)
  {
    TotalsPartition(ws, SortedDistinct(KeyList(ws)));
  }

  // Ranking: `nlargest(n)` sorts by value, largest first, keeping the earlier
  // entry first among equal values; pandas feeds it groups in ascending key
  // order, so equal values end up in ascending key order.

  /** `a` comes before `b` in a ranking: a larger value, or an equal value and a smaller key. */
  predicate RankedBefore(a: Entry, b: Entry) {
    a.value > b.value || (a.value == b.value && Less(a.key, b.key))
  }

  predicate RankSorted(es: seq<Entry>) {
    forall i, j :: 0 <= i < j < |es| ==> RankedBefore(es[i], es[j])
  }

  /** Inserts `e` after every entry whose value is at least `e`'s (a stable insertion). */
  function InsertDesc(sorted: seq<Entry>, e: Entry): (r: seq<Entry>)
    ensures multiset(r) == multiset(sorted) + multiset{e}
  {
    if sorted == [] then [e]
    else if e.value > sorted[0].value then [e] + sorted
    else
      assert sorted == [sorted[0]] + sorted[1..];
      [sorted[0]] + InsertDesc(sorted[1..], e)
  }

  /** A stable sort by value, largest first. */
  function SortDesc(es: seq<Entry>): (r: seq<Entry>)
    ensures multiset(r) == multiset(es)
  {
    if es == [] then []
    else
      assert es == es[..|es| - 1] + [es[|es| - 1]];
      InsertDesc(SortDesc(es[..|es| - 1]), es[|es| - 1])
  }

  lemma RankedCons(x: Entry, s: seq<Entry>)
    requires RankSorted(s)
    requires forall y :: y in s ==> RankedBefore(x, y)
    ensures RankSorted([x] + s)
  {
    forall i, j | 0 <= i < j < |[x] + s|
      ensures RankedBefore(([x] + s)[i], ([x] + s)[j])
    {
      if i > 0 {
        assert ([x] + s)[i] == s[i - 1] && ([x] + s)[j] == s[j - 1];
      } else {
        assert ([x] + s)[j] in s;
      }
    }
  }

  lemma {:induction false} InsertDescRanked(sorted: seq<Entry>, e: Entry)
    requires RankSorted(sorted)
    requires forall x :: x in sorted ==> Less(x.key, e.key)
    ensures RankSorted(InsertDesc(sorted, e))
  {
    if sorted == [] {
    } else if e.value > sorted[0].value {
      forall y | y in sorted ensures RankedBefore(e, y) {
        var j :| 0 <= j < |sorted| && sorted[j] == y;
        assert j > 0 ==> RankedBefore(sorted[0], sorted[j]);
      }
      RankedCons(e, sorted);
    } else {
      var tail := sorted[1..];
      assert forall i, j :: 0 <= i < j < |tail| ==> tail[i] == sorted[i + 1] && tail[j] == sorted[j + 1];
      InsertDescRanked(tail, e);
      var rest := InsertDesc(tail, e);
      forall y | y in rest ensures RankedBefore(sorted[0], y) {
        assert y in multiset(rest);
        if y != e {
          assert y in tail;
          var j :| 0 <= j < |tail| && tail[j] == y;
          assert sorted[j + 1] == y;
        }
      }
      RankedCons(sorted[0], rest);
    }
  }

  /** On groups in ascending key order, the stable sort orders by value, then by key. */
  lemma {:induction false} SortDescRanked(es: seq<Entry>)
    requires StrictlyAscending(Keys(es))
    ensures RankSorted(SortDesc(es))
  {
    if es != [] {
      var init, last := es[..|es| - 1], es[|es| - 1];
      assert forall i :: 0 <= i < |init| ==> Keys(init)[i] == Keys(es)[i];
      SortDescRanked(init);
      forall x | x in SortDesc(init) ensures Less(x.key, last.key) {
        assert x in multiset(SortDesc(init));
        var i :| 0 <= i < |init| && init[i] == x;
        assert Keys(es)[i] == x.key && Keys(es)[|es| - 1] == last.key;
      }
      InsertDescRanked(SortDesc(init), last);
    }
  }

  function Min(a: nat, b: nat): nat {
    if a < b then a else b
  }

  /** `nlargest(n)`: the first `n` entries of the stable sort, largest value first. */
  function NLargest(es: seq<Entry>, n: nat): (r: seq<Entry>)
    ensures |r| == Min(|es|, n)
    ensures multiset(r) <= multiset(es)
    ensures |es| <= n ==> multiset(r) == multiset(es)
  {
    var sorted := SortDesc(es);
    assert |sorted| == |es| by {
      assert |multiset(sorted)| == |multiset(es)|;
    }
    var r := sorted[..Min(|es|, n)];
    assert sorted == r + sorted[|r|..];
    assert multiset(sorted) == multiset(r) + multiset(sorted[|r|..]);
    r
  }

  /** On a Series in ascending key order, `nlargest(n)` is ranked, and any entry it drops ranks after all it keeps. */
  lemma NLargestRanked(es: seq<Entry>, n: nat)
    requires StrictlyAscending(Keys(es))
    ensures RankSorted(NLargest(es, n))
    ensures n > 0 ==> forall x :: x in es && x !in NLargest(es, n) ==>
      |NLargest(es, n)| == n && RankedBefore(NLargest(es, n)[n - 1], x)
  {
    var sorted, r := SortDesc(es), NLargest(es, n);
    assert |sorted| == |es| by {
      assert |multiset(sorted)| == |multiset(es)|;
    }
    assert r == sorted[..|r|];
    SortDescRanked(es);
    forall x | n > 0 && x in es && x !in r ensures |r| == n && RankedBefore(r[n - 1], x) {
      assert x in multiset(sorted);
      var p :| 0 <= p < |sorted| && sorted[p] == x;
      assert p >= |r|;
      assert r[n - 1] == sorted[n - 1];
    }
  }


  /** Grouping two rows with keys `a < b` gives the groups `a` and `b`, in that order, with their sums. */
  lemma TwoGroups(ws: seq<Weighted>, a: string, b: string)
    requires |ws| == 2 && ws[0].key == Some(a) && ws[1].key == Some(b) && Less(a, b)
    ensures GroupSum(ws) == [Entry(a, SumFor(ws, a)), Entry(b, SumFor(ws, b))]
  {
    var g := GroupSum(ws);
    forall k ensures k in Keys(g) <==> k in [a, b] {
      if HasKey(ws, k) {
        var i :| 0 <= i < |ws| && ws[i].key == Some(k);
        assert i == 0 || i == 1;
      }
    }
    AscendingUnique(Keys(g), [a, b]);
    assert Keys(g)[0] == g[0].key && Keys(g)[1] == g[1].key;
  }

  /** Grouping two rows with the same key `a` gives the one group `a`, with its sum. */
  lemma OneGroup(ws: seq<Weighted>, a: string)
    requires |ws| == 2 && ws[0].key == Some(a) && ws[1].key == Some(a)
    ensures GroupSum(ws) == [Entry(a, SumFor(ws, a))]
  {
    var g := GroupSum(ws);
    forall k ensures k in Keys(g) <==> k in [a] {
      if HasKey(ws, k) {
        var i :| 0 <= i < |ws| && ws[i].key == Some(k);
        assert i == 0 || i == 1;
      }
    }
    AscendingUnique(Keys(g), [a]);
    assert Keys(g)[0] == g[0].key;
  }

  /** The head of a ranking has the largest value. */
  lemma RankedHead(r: seq<Entry>, j: nat)
    requires RankSorted(r) && j < |r|
    ensures r[0].value >= r[j].value
  {
    if j > 0 {
      assert RankedBefore(r[0], r[j]);
    }
  }

  /** A ranked arrangement of two entries, one ranked before the other, is that order. */
  lemma TwoRanked(r: seq<Entry>, a: Entry, b: Entry)
    requires |r| == 2 && multiset(r) == multiset([a, b]) && RankSorted(r) && RankedBefore(a, b)
    ensures r == [a, b]
  {
    assert r == [r[0], r[1]];
    LessIrreflexive(a.key);
    if Less(a.key, b.key) {
      LessAsymmetric(a.key, b.key);
    }
    assert a != b && !RankedBefore(b, a);
    assert a in multiset(r) && b in multiset(r);
    assert RankedBefore(r[0], r[1]);
  }

  lemma KeyOfMember(es: seq<Entry>, x: Entry)
    ensures x in es ==> x.key in Keys(es)
  {
    if x in es {
      var p :| 0 <= p < |es| && es[p] == x;
      assert Keys(es)[p] == x.key;
    }
  }

  lemma TopGroupsSums(ws: seq<Weighted>, n: nat)
    ensures var r := NLargest(GroupSum(ws), n);
      forall i :: 0 <= i < |r| ==> HasKey(ws, r[i].key) && r[i].value == SumFor(ws, r[i].key)
  {
    var g := GroupSum(ws);
    var r := NLargest(g, n);
    forall i | 0 <= i < |r| ensures HasKey(ws, r[i].key) && r[i].value == SumFor(ws, r[i].key) {
      assert r[i] in multiset(g);
      var j :| 0 <= j < |g| && g[j] == r[i];
      assert Keys(g)[j] == r[i].key;
    }
  }

  lemma TopGroupsExcluded(ws: seq<Weighted>, n: nat, k: string)
    requires n > 0 && HasKey(ws, k) && k !in Keys(NLargest(GroupSum(ws), n))
    ensures var r := NLargest(GroupSum(ws), n);
      |r| == n && RankedBefore(r[n - 1], Entry(k, SumFor(ws, k)))
  {
    var g := GroupSum(ws);
    NLargestRanked(g, n);
    assert k in Keys(g);
    var j :| 0 <= j < |g| && Keys(g)[j] == k;
    assert g[j] == Entry(k, SumFor(ws, k));
    KeyOfMember(NLargest(g, n), g[j]);
  }

  lemma TopGroupsEmpty(ws: seq<Weighted>, n: nat)
    requires n > 0
    ensures NLargest(GroupSum(ws), n) == [] <==> forall i :: 0 <= i < |ws| ==> ws[i].key.None?
  {
    var g := GroupSum(ws);
    if exists i :: 0 <= i < |ws| && ws[i].key.Some? {
      var i :| 0 <= i < |ws| && ws[i].key.Some?;
      assert HasKey(ws, ws[i].key.value);
      assert ws[i].key.value in Keys(g);
    }
    if g != [] {
      assert HasKey(ws, Keys(g)[0]);
    }
  }

  /**
   `groupby(key)[col].sum().nlargest(n)`: at most `n` groups, each with its
   true sum, ranked, and every group left out ranks after the last one kept.
   This is the generic statement; the dashboard's two rankings specialise it
   clause by clause from `TopGroupsSums`, `TopGroupsExcluded` and
   `TopGroupsEmpty`, which keeps each of their proofs small.
   */
  lemma TopGroups(ws: seq<Weighted>, n: nat)
    requires n > 0
    ensures var r := NLargest(GroupSum(ws), n);
      && |r| <= n
      && RankSorted(r)
      && (forall i :: 0 <= i < |r| ==> HasKey(ws, r[i].key) && r[i].value == SumFor(ws, r[i].key))
      && (forall i, j :: 0 <= i < j < |r| ==> r[i].key != r[j].key)
      && (forall k :: HasKey(ws, k) && k !in Keys(r) ==>
            |r| == n && RankedBefore(r[n - 1], Entry(k, SumFor(ws, k))))
      && (r == [] <==> forall i :: 0 <= i < |ws| ==> ws[i].key.None?)
  {
    var r := NLargest(GroupSum(ws), n);
    NLargestRanked(GroupSum(ws), n);
    TopGroupsSums(ws, n);
    forall i, j | 0 <= i < j < |r| ensures r[i].key != r[j].key {
      LessIrreflexive(r[i].key);
    }
    forall k | HasKey(ws, k) && k !in Keys(r)
      ensures |r| == n && RankedBefore(r[n - 1], Entry(k, SumFor(ws, k)))
    {
      TopGroupsExcluded(ws, n, k);
    }
    TopGroupsEmpty(ws, n);
  }

}
