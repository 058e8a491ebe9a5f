/** Stable sorting of keys by time stamp, and the choice of the oldest ones as victims. */
module Oldest {

  /** Stable insertion by stamp. */
  function InsertByStamp<K>(stamps: map<K, int>, k: K, ks: seq<K>): (r: seq<K>)
    requires k in stamps && forall x <- ks :: x in stamps
    ensures multiset(r) == multiset(ks) + multiset{k}
  {
    if ks == [] || stamps[k] <= stamps[ks[0]] then [k] + ks
    else
      assert ks == [ks[0]] + ks[1..];
      [ks[0]] + InsertByStamp(stamps, k, ks[1..])
  }

  /** sorted(keys, key=stamp): stable, oldest first. */
  function SortByStamp<K>(stamps: map<K, int>, ks: seq<K>): (r: seq<K>)
    requires forall x <- ks :: x in stamps
    ensures multiset(r) == multiset(ks)
    ensures forall x <- r :: x in stamps
  {
    if ks == [] then []
    else
      assert ks == [ks[0]] + ks[1..];
      var r := InsertByStamp(stamps, ks[0], SortByStamp(stamps, ks[1..]));
      assert forall x <- r :: x in multiset(r);
      r
  }

  ghost predicate Sorted<K>(stamps: map<K, int>, ks: seq<K>) {
    && (forall k <- ks :: k in stamps)
    && (forall i, j :: 0 <= i < j < |ks| ==> stamps[ks[i]] <= stamps[ks[j]])
  }

  lemma SortedCons<K>(stamps: map<K, int>, k: K, ks: seq<K>)
    requires k in stamps && Sorted(stamps, ks) && forall x <- ks :: stamps[k] <= stamps[x]
    ensures Sorted(stamps, [k] + ks)
  {
  }

  lemma {:induction false} InsertIsSorted<K>(stamps: map<K, int>, k: K, ks: seq<K>)
    requires k in stamps && Sorted(stamps, ks)
    ensures Sorted(stamps, InsertByStamp(stamps, k, ks))
    ensures forall x <- InsertByStamp(stamps, k, ks) :: x == k || x in ks
  {
    hide Sorted;
    HeadIsOldest(stamps, ks);
    if ks == [] || stamps[k] <= stamps[ks[0]] {
      SortedCons(stamps, k, ks);
    } else {
      InsertIsSorted(stamps, k, ks[1..]);
      SortedCons(stamps, ks[0], InsertByStamp(stamps, k, ks[1..]));
    }
  }

  lemma HeadIsOldest<K>(stamps: map<K, int>, ks: seq<K>)
    requires Sorted(stamps, ks)
    ensures forall x <- ks :: x in stamps && stamps[ks[0]] <= stamps[x]
    ensures ks != [] ==> Sorted(stamps, ks[1..])
  {
  }

  lemma PrefixIsOlder<K>(stamps: map<K, int>, ks: seq<K>, n: nat)
    requires Sorted(stamps, ks) && n <= |ks|
    ensures forall v, k :: v in ks[..n] && k in ks[n..] ==> v in stamps && k in stamps && stamps[v] <= stamps[k]
  {
    forall v, k | v in ks[..n] && k in ks[n..]
      ensures v in stamps && k in stamps && stamps[v] <= stamps[k]
    {
      var i :| 0 <= i < n && ks[..n][i] == v;
      var j :| 0 <= j < |ks| - n && ks[n..][j] == k;
      assert ks[i] == v && ks[n + j] == k;
    }
  }

  lemma {:induction false} SortIsSorted<K>(stamps: map<K, int>, ks: seq<K>)
    requires forall x <- ks :: x in stamps
    ensures Sorted(stamps, SortByStamp(stamps, ks))
  {
    if ks != [] {
      SortIsSorted(stamps, ks[1..]);
      InsertIsSorted(stamps, ks[0], SortByStamp(stamps, ks[1..]));
    }
  }

  lemma {:induction false} DistinctSize<K>(order: seq<K>, ks: set<K>)
    requires forall i, j :: 0 <= i < j < |order| ==> order[i] != order[j]
    requires forall k :: k in order <==> k in ks
    ensures |order| == |ks|
  {
    if order == [] {
      assert ks == {};
    } else {
      var front, last := order[..|order| - 1], order[|order| - 1];
      DistinctSize(front, ks - {last});
    }
  }

  lemma SortedKeysAreDistinct<K>(order: seq<K>, sorted: seq<K>)
    requires multiset(order) == multiset(sorted)
    requires forall i, j :: 0 <= i < j < |order| ==> order[i] != order[j]
    ensures forall i, j :: 0 <= i < j < |sorted| ==> sorted[i] != sorted[j]
    ensures |order| == |sorted| && forall k :: k in order <==> k in sorted
  {
    assert |multiset(order)| == |multiset(sorted)|;
    forall k
      ensures k in order <==> k in sorted
    {
      assert k in multiset(order) <==> k in multiset(sorted);
    }
    forall i, j | 0 <= i < j < |sorted|
      ensures sorted[i] != sorted[j]
    {
      OnceEach(order, sorted[i]);
      OnceMeansDistinct(sorted, i, j);
    }
  }

  lemma OnceMeansDistinct<K>(ks: seq<K>, i: nat, j: nat)
    requires i < j < |ks| && multiset(ks)[ks[i]] <= 1
    ensures ks[i] != ks[j]
  {
    assert ks == ks[..j] + [ks[j]] + ks[j + 1..];
    assert ks[i] in multiset(ks[..j]) by { assert ks[..j][i] == ks[i]; }
  }

  lemma {:induction false} OnceEach<K>(order: seq<K>, k: K)
    requires forall i, j :: 0 <= i < j < |order| ==> order[i] != order[j]
    ensures multiset(order)[k] <= 1
  {
    if order != [] {
      var front, last := order[..|order| - 1], order[|order| - 1];
      assert order == front + [last];
      OnceEach(front, k);
      if last == k { assert k !in front; }
    }
  }

  lemma PrefixAndRest<K>(ks: seq<K>, n: nat, all: set<K>)
    requires n <= |ks| && (forall i, j :: 0 <= i < j < |ks| ==> ks[i] != ks[j])
    requires forall k :: k in ks <==> k in all
    ensures var gone := set k | k in ks[..n];
            && gone <= all && |all - gone| == |ks| - n
            && (forall k :: k in all && k !in gone <==> k in ks[n..])
  {
    var gone := set k | k in ks[..n];
    assert ks == ks[..n] + ks[n..];
    forall k
      ensures k in all && k !in gone <==> k in ks[n..]
    {
      if k in ks[n..] { assert k !in ks[..n]; }
    }
    DistinctSize(ks[n..], all - gone);
  }

  /** The victims are known keys, and none is younger than any key that is not a victim. */
  ghost predicate AreOldest<K>(stamps: map<K, int>, victims: set<K>) {
    && victims <= stamps.Keys
    && forall v, k :: v in victims && k in stamps && k !in victims ==> stamps[v] <= stamps[k]
  }

  lemma PrefixIsOldest<K>(stamps: map<K, int>, sorted: seq<K>, n: nat)
    requires Sorted(stamps, sorted) && n <= |sorted|
    requires (forall i, j :: 0 <= i < j < |sorted| ==> sorted[i] != sorted[j])
    requires forall k :: k in sorted <==> k in stamps.Keys
    ensures var gone := set k | k in sorted[..n]; AreOldest(stamps, gone) && |stamps.Keys - gone| == |sorted| - n
  {
    hide Sorted;
    PrefixAndRest(sorted, n, stamps.Keys);
    PrefixIsOlder(stamps, sorted, n);
  }

  /** Sorting all keys lists each of them once, oldest first. */
  lemma AllByStamp<K>(stamps: map<K, int>, ks: seq<K>)
    requires forall i, j :: 0 <= i < j < |ks| ==> ks[i] != ks[j]
    requires forall k :: k in ks <==> k in stamps.Keys
    ensures var sorted := SortByStamp(stamps, ks);
            && Sorted(stamps, sorted) && |sorted| == |stamps|
            && (forall k :: k in sorted <==> k in stamps.Keys)
            && (forall i, j :: 0 <= i < j < |sorted| ==> sorted[i] != sorted[j])
  {
    hide SortByStamp, Sorted;
    SortIsSorted(stamps, ks);
    SortedKeysAreDistinct(ks, SortByStamp(stamps, ks));
    DistinctSize(ks, stamps.Keys);
  }
}
