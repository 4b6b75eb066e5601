/** Putting header entries in index order and checking that the indices run
    0, 1, ..., N-1 without gaps or repeats. */
module HeaderOrder {
  import opened Wrappers

  /** One header property as the decoder sees it: the index parsed from its
      key, the key itself and the token stored under it. */
  datatype Entry = Entry(index: nat, key: string, token: string)

  function Indices(es: seq<Entry>): seq<int>
  {
    seq(|es|, i requires 0 <= i < |es| => es[i].index)
  }

  function Range(n: nat): (r: seq<int>)
    ensures |r| == n && forall i :: 0 <= i < n ==> r[i] == i
  {
    if n == 0 then [] else Range(n - 1) + [n - 1]
  }

  predicate Sorted(s: seq<int>)
  {
    forall i, j :: 0 <= i < j < |s| ==> s[i] <= s[j]
  }

  predicate Distinct(s: seq<int>)
  {
    forall i, j :: 0 <= i < j < |s| ==> s[i] != s[j]
  }

  predicate SortedByIndex(es: seq<Entry>)
  {
    forall i, j :: 0 <= i < j < |es| ==> es[i].index <= es[j].index
  }

  /** The indices of N entries are exactly 0..N-1, each once. */
  predicate Contiguous(es: seq<Entry>)
  {
    multiset(Indices(es)) == multiset(Range(|es|))
  }

  lemma IndicesAppend(a: seq<Entry>, b: seq<Entry>)
    ensures Indices(a + b) == Indices(a) + Indices(b)
  {
  }

  // ------------------------------------------------------------ stable sort

  /** Inserts e before the first entry whose index is not smaller. */
  function Insert(e: Entry, s: seq<Entry>): (r: seq<Entry>)
    ensures |r| == |s| + 1
    ensures multiset(r) == multiset(s) + multiset{e}
  {
    if s == [] || e.index <= s[0].index then
      [e] + s
    else
      assert s == [s[0]] + s[1..];
      [s[0]] + Insert(e, s[1..])
  }

  /** Inserting into a sorted sequence keeps it sorted. */
  lemma {:induction false} InsertKeepsSorted(e: Entry, s: seq<Entry>)
    requires SortedByIndex(s)
    ensures SortedByIndex(Insert(e, s))
  {
    if s != [] && e.index > s[0].index {
      var rest := Insert(e, s[1..]);
      InsertKeepsSorted(e, s[1..]);
      assert forall k :: 0 <= k < |s| - 1 ==> s[0].index <= s[1..][k].index;
      BoundOverPermutation(s[0].index, s[1..], e, rest);
      assert Insert(e, s) == [s[0]] + rest;
    }
  }

  /** A lower bound on the indices of some entries and of one more entry
      bounds every arrangement of them. */
  lemma BoundOverPermutation(b: int, t: seq<Entry>, e: Entry, r: seq<Entry>)
    requires multiset(r) == multiset(t) + multiset{e}
    requires b <= e.index && forall k :: 0 <= k < |t| ==> b <= t[k].index
    ensures forall j :: 0 <= j < |r| ==> b <= r[j].index
  {
    forall j | 0 <= j < |r| ensures b <= r[j].index {
      assert r[j] in multiset(r);
      if r[j] != e {
        assert r[j] in multiset(t);
      }
    }
  }

  /** Orders entries by index; entries with equal indices keep their order. */
  function SortByIndex(es: seq<Entry>): (r: seq<Entry>)
    ensures |r| == |es|
    ensures multiset(r) == multiset(es)
  {
    if es == [] then []
    else
      assert es == [es[0]] + es[1..];
      Insert(es[0], SortByIndex(es[1..]))
  }

  lemma {:induction false} SortByIndexSorted(es: seq<Entry>)
    ensures SortedByIndex(SortByIndex(es))
  {
    if es != [] {
      SortByIndexSorted(es[1..]);
      InsertKeepsSorted(es[0], SortByIndex(es[1..]));
    }
  }

  /** Sorting moves entries around, so it moves their indices around too. */
  lemma SortByIndexIndices(es: seq<Entry>)
    ensures multiset(Indices(SortByIndex(es))) == multiset(Indices(es))
  {
    IndicesPermutation(SortByIndex(es), es);
  }

  /** The first position, from `from` on, whose entry does not carry the
      position as its index. */
  function FirstOutOfSequence(s: seq<Entry>, from: nat): (r: Option<nat>)
    requires from <= |s|
    ensures r.None? <==> forall i :: from <= i < |s| ==> s[i].index == i
    ensures r.Some? ==> from <= r.value < |s| && s[r.value].index != r.value
    ensures r.Some? ==> forall j :: from <= j < r.value ==> s[j].index == j
    decreases |s| - from
  {
    if from == |s| then None
    else if s[from].index != from then Some(from)
    else FirstOutOfSequence(s, from + 1)
  }

  // ------------------------------------------------------------------ laws

  /** The head of a sorted sequence is its least element. */
  lemma HeadIsLeast(s: seq<int>, x: int)
    requires Sorted(s) && x in multiset(s)
    ensures s != [] && s[0] <= x
  {
    assert x in s;
    var j :| 0 <= j < |s| && s[j] == x;
  }

  /** Sorted sequences with the same elements start alike. */
  lemma SortedHeadsEqual(a: seq<int>, b: seq<int>)
    requires Sorted(a) && Sorted(b) && multiset(a) == multiset(b) && a != []
    ensures b != [] && a[0] == b[0]
  {
    assert a[0] in multiset(a);
    HeadIsLeast(b, a[0]);
    assert b[0] in multiset(b);
    HeadIsLeast(a, b[0]);
  }

  /** Removing equal heads leaves equal multisets. */
  lemma TailsSameElements(a: seq<int>, b: seq<int>)
    requires a != [] && b != [] && a[0] == b[0] && multiset(a) == multiset(b)
    ensures multiset(a[1..]) == multiset(b[1..])
  {
    assert a == [a[0]] + a[1..] && b == [b[0]] + b[1..];
    assert multiset(a[1..]) == multiset(a) - multiset{a[0]};
    assert multiset(b[1..]) == multiset(b) - multiset{b[0]};
  }

  lemma SortedTail(s: seq<int>)
    requires Sorted(s) && s != []
    ensures Sorted(s[1..])
  {
  }

  /** Two sorted sequences with the same elements are equal. */
  lemma {:induction false} SortedUnique(a: seq<int>, b: seq<int>)
    requires Sorted(a) && Sorted(b) && multiset(a) == multiset(b)
    ensures a == b
  {
    if a == [] {
      assert |multiset(b)| == |b|;
    } else {
      SortedHeadsEqual(a, b);
      TailsSameElements(a, b);
      SortedTail(a);
      SortedTail(b);
      SortedUnique(a[1..], b[1..]);
      assert a == [a[0]] + a[1..] && b == [b[0]] + b[1..];
    }
  }

  /** A sequence is free of repeats exactly when no value occurs twice in it. */
  lemma {:induction false} DistinctIffSingleOccurrences(s: seq<int>)
    ensures Distinct(s) <==> forall v :: multiset(s)[v] <= 1
  {
    if s != [] {
      DistinctIffSingleOccurrences(s[1..]);
      assert s == [s[0]] + s[1..];
      assert multiset(s) == multiset{s[0]} + multiset(s[1..]);
      if Distinct(s) {
        assert s[0] !in s[1..];
      }
      if forall v :: multiset(s)[v] <= 1 {
        assert multiset(s)[s[0]] <= 1;
        assert multiset(s[1..])[s[0]] == 0;
        forall v ensures multiset(s[1..])[v] <= 1 {
          assert multiset(s)[v] <= 1;
        }
        forall i, j | 0 <= i < j < |s| ensures s[i] != s[j] {
          if i == 0 {
            assert s[j] in s[1..];
          } else {
            assert s[1..][i - 1] == s[i] && s[1..][j - 1] == s[j];
          }
        }
      }
    }
  }

  /** Contiguous indices are pairwise distinct. */
  lemma ContiguousIndicesDistinct(es: seq<Entry>)
    requires Contiguous(es)
    ensures Distinct(Indices(es))
  {
    DistinctIffSingleOccurrences(Range(|es|));
    DistinctIffSingleOccurrences(Indices(es));
  }

  /** Sorted entries pass the sequence check exactly when their indices are
      0..N-1, each once, whatever order they came in. */
  lemma SequenceCheckIff(es: seq<Entry>)
    ensures FirstOutOfSequence(SortByIndex(es), 0).None? <==> Contiguous(es)
  {
    if Contiguous(es) {
      ContiguousPassesCheck(es);
    }
    if FirstOutOfSequence(SortByIndex(es), 0).None? {
      PassingCheckIsContiguous(es);
    }
  }

  lemma ContiguousPassesCheck(es: seq<Entry>)
    requires Contiguous(es)
    ensures FirstOutOfSequence(SortByIndex(es), 0).None?
  {
    var s := SortByIndex(es);
    SortByIndexSorted(es);
    SortByIndexIndices(es);
    assert Sorted(Indices(s));
    assert Sorted(Range(|s|));
    SortedUnique(Indices(s), Range(|s|));
    assert forall i :: 0 <= i < |s| ==> s[i].index == Indices(s)[i] == i;
  }

  lemma PassingCheckIsContiguous(es: seq<Entry>)
    requires FirstOutOfSequence(SortByIndex(es), 0).None?
    ensures Contiguous(es)
  {
    var s := SortByIndex(es);
    assert Indices(s) == Range(|es|) by {
      assert forall i :: 0 <= i < |s| ==> Indices(s)[i] == s[i].index == i;
    }
    SortByIndexIndices(es);
  }

  /** Sorted indices free of repeats strictly increase. */
  lemma StrictlyIncreasing(s: seq<Entry>)
    requires SortedByIndex(s) && Distinct(Indices(s))
    ensures forall i, j :: 0 <= i < j < |s| ==> s[i].index < s[j].index
  {
    forall i, j | 0 <= i < j < |s| ensures s[i].index < s[j].index {
      assert Indices(s)[i] != Indices(s)[j];
    }
  }

  /** In a strictly increasing sequence holding every index below g, the
      first g positions hold 0..g-1. */
  lemma PrefixIsRange(s: seq<Entry>, g: nat)
    requires forall i, j :: 0 <= i < j < |s| ==> s[i].index < s[j].index
    requires forall k :: 0 <= k < g ==> k in Indices(s)
    ensures g <= |s|
    ensures forall m :: 0 <= m < g ==> s[m].index == m
  {
    var i := 0;
    while i < g
      invariant 0 <= i <= g && i <= |s|
      invariant forall m :: 0 <= m < i ==> s[m].index == m
    {
      assert i in Indices(s);
      var p :| 0 <= p < |s| && Indices(s)[p] == i;
      assert s[p].index == i;
      assert forall m :: 0 <= m < i ==> s[m].index != i;
      assert p >= i;
      assert s[i].index >= i by {
        if i > 0 { assert s[i - 1].index < s[i].index; }
      }
      i := i + 1;
    }
  }

  /** In a strictly increasing sequence that holds 0..g-1 but not g and has
      some index above g, position g holds the smallest index above g. */
  lemma GapInSorted(s: seq<Entry>, g: nat)
    requires forall i, j :: 0 <= i < j < |s| ==> s[i].index < s[j].index
    requires forall k :: 0 <= k < g ==> k in Indices(s)
    requires g !in Indices(s)
    requires exists p :: 0 <= p < |s| && s[p].index > g
    ensures g < |s| && s[g].index > g
    ensures forall m :: 0 <= m < g ==> s[m].index == m
    ensures forall p :: 0 <= p < |s| && s[p].index > g ==> p >= g
  {
    PrefixIsRange(s, g);
    var p0 :| 0 <= p0 < |s| && s[p0].index > g;
    assert p0 >= g;
    assert Indices(s)[g] != g;
    assert g == 0 || s[g - 1].index < s[g].index;
  }

  /** The check stops at the first position that does not hold its own index. */
  lemma {:induction false} CheckStopsAt(s: seq<Entry>, from: nat, g: nat)
    requires from <= g < |s|
    requires forall m :: from <= m < g ==> s[m].index == m
    requires s[g].index != g
    ensures FirstOutOfSequence(s, from) == Some(g)
    decreases g - from
  {
    if from < g {
      CheckStopsAt(s, from + 1, g);
    }
  }

  /** Sorting keeps the entries, and so keeps which indices occur and whether they repeat. */
  lemma SortKeepsIndexFacts(es: seq<Entry>, g: nat)
    requires Distinct(Indices(es))
    requires forall k :: 0 <= k < g ==> k in Indices(es)
    requires g !in Indices(es)
    requires exists j :: 0 <= j < |es| && es[j].index > g
    ensures var s := SortByIndex(es);
      && Distinct(Indices(s))
      && (forall k :: 0 <= k < g ==> k in Indices(s))
      && g !in Indices(s)
      && exists p :: 0 <= p < |s| && s[p].index > g
  {
    var s := SortByIndex(es);
    SortByIndexIndices(es);
    DistinctIffSingleOccurrences(Indices(es));
    DistinctIffSingleOccurrences(Indices(s));
    forall k | 0 <= k < g ensures k in Indices(s) {
      assert k in Indices(es);
      assert k in multiset(Indices(es));
    }
    assert g !in multiset(Indices(s));
    var j0 :| 0 <= j0 < |es| && es[j0].index > g;
    assert es[j0] in multiset(s);
  }

  /** When indices 0..g-1 are present, g is missing and some index lies above
      g, the sequence check stops at position g, on the entry with the
      smallest index above g. */
  lemma FirstGapFound(es: seq<Entry>, g: nat)
    requires Distinct(Indices(es))
    requires forall k :: 0 <= k < g ==> k in Indices(es)
    requires g !in Indices(es)
    requires exists j :: 0 <= j < |es| && es[j].index > g
    ensures var s := SortByIndex(es);
      && g < |s|
      && FirstOutOfSequence(s, 0) == Some(g)
      && s[g] in es && s[g].index > g
      && forall j :: 0 <= j < |es| && es[j].index > g ==> s[g].index <= es[j].index
  {
    var s := SortByIndex(es);
    assert g < |s| && s[g].index > g && FirstOutOfSequence(s, 0) == Some(g)
      && forall p :: 0 <= p < |s| && s[p].index > g ==> p >= g
    by {
      SortByIndexSorted(es);
      SortKeepsIndexFacts(es, g);
      StrictlyIncreasing(s);
      GapInSorted(s, g);
      CheckStopsAt(s, 0, g);
    }
    assert s[g] in es by {
      assert s[g] in multiset(s);
    }
    SortByIndexSorted(es);
    LeastAboveGap(s, es, g);
  }

  /** In a sorted permutation whose entries above g all sit at g or later,
      position g holds an index no larger than any entry's index above g. */
  lemma LeastAboveGap(s: seq<Entry>, es: seq<Entry>, g: nat)
    requires multiset(s) == multiset(es) && SortedByIndex(s) && g < |s|
    requires forall p :: 0 <= p < |s| && s[p].index > g ==> p >= g
    ensures forall j :: 0 <= j < |es| && es[j].index > g ==> s[g].index <= es[j].index
  {
    forall j | 0 <= j < |es| && es[j].index > g ensures s[g].index <= es[j].index {
      assert es[j] in multiset(s);
      var p :| 0 <= p < |s| && s[p] == es[j];
      assert p >= g;
    }
  }

  /** Removing the element at k removes it from the multiset. */
  lemma RemoveAt<T>(b: seq<T>, k: nat)
    requires k < |b|
    ensures multiset(b) == multiset(b[..k] + b[k + 1..]) + multiset{b[k]}
  {
    assert b == b[..k] + [b[k]] + b[k + 1..];
  }

  /** Removing the entry at k removes its index from the indices. */
  lemma IndicesRemoveAt(b: seq<Entry>, k: nat)
    requires k < |b|
    ensures multiset(Indices(b)) == multiset(Indices(b[..k] + b[k + 1..])) + multiset{b[k].index}
  {
    assert b == b[..k] + [b[k]] + b[k + 1..];
    IndicesAppend(b[..k], [b[k]]);
    IndicesAppend(b[..k] + [b[k]], b[k + 1..]);
    IndicesAppend(b[..k], b[k + 1..]);
  }

  lemma CancelOne<T>(x: multiset<T>, y: multiset<T>, e: T)
    requires x + multiset{e} == y + multiset{e}
    ensures x == y
  {
    assert forall v :: x[v] == (x + multiset{e})[v] - multiset{e}[v];
    assert forall v :: y[v] == (y + multiset{e})[v] - multiset{e}[v];
  }

  /** The head of a sequence occurs in every permutation of it. */
  lemma HeadInPermutation<T>(a: seq<T>, b: seq<T>)
    requires multiset(a) == multiset(b) && a != []
    ensures exists k :: 0 <= k < |b| && b[k] == a[0]
  {
    assert a[0] in multiset(a);
    assert a[0] in b;
  }

  /** Taking the head off one sequence and the same element off a
      permutation of it leaves permutations. */
  lemma TailPermutation<T>(a: seq<T>, b: seq<T>, k: nat)
    requires multiset(a) == multiset(b) && a != [] && k < |b| && b[k] == a[0]
    ensures multiset(a[1..]) == multiset(b[..k] + b[k + 1..])
  {
    assert a[..0] + a[1..] == a[1..];
    RemoveAt(a, 0);
    RemoveAt(b, k);
    CancelOne(multiset(a[1..]), multiset(b[..k] + b[k + 1..]), a[0]);
  }

  /** Taking the head off removes its index from the indices. */
  lemma IndicesRemoveHead(a: seq<Entry>)
    requires a != []
    ensures multiset(Indices(a)) == multiset(Indices(a[1..])) + multiset{a[0].index}
  {
    assert a == [a[0]] + a[1..];
    IndicesAppend([a[0]], a[1..]);
  }

  /** Putting the same entry back on both sides keeps the indices permuted. */
  lemma IndicesPermutationStep(a: seq<Entry>, b: seq<Entry>, k: nat)
    requires a != [] && k < |b| && b[k] == a[0]
    requires multiset(Indices(a[1..])) == multiset(Indices(b[..k] + b[k + 1..]))
    ensures multiset(Indices(a)) == multiset(Indices(b))
  {
    var ib := Indices(b[..k] + b[k + 1..]);
    assert multiset(Indices(a)) == multiset(ib) + multiset{a[0].index} by {
      IndicesRemoveHead(a);
    }
    assert multiset(Indices(b)) == multiset(ib) + multiset{a[0].index} by {
      IndicesRemoveAt(b, k);
    }
  }

  /** Entries that are a permutation of each other have permuted indices. */
  lemma {:induction false} IndicesPermutation(a: seq<Entry>, b: seq<Entry>)
    requires multiset(a) == multiset(b)
    ensures multiset(Indices(a)) == multiset(Indices(b))
    decreases |a|
  {
    if a == [] {
      assert |multiset(b)| == |b|;
    } else {
      HeadInPermutation(a, b);
      var k :| 0 <= k < |b| && b[k] == a[0];
      TailPermutation(a, b, k);
      IndicesPermutation(a[1..], b[..k] + b[k + 1..]);
      IndicesPermutationStep(a, b, k);
    }
  }

  /** Once the indices are contiguous, the sorted entries depend only on which
      entries there are, not on the order they arrived in. */
  lemma SortDeterminedByEntries(a: seq<Entry>, b: seq<Entry>)
    requires multiset(a) == multiset(b) && Contiguous(a)
    ensures SortByIndex(a) == SortByIndex(b)
  {
    var sa, sb := SortByIndex(a), SortByIndex(b);
    assert |b| == |a| by {
      assert |multiset(a)| == |a| && |multiset(b)| == |b|;
    }
    assert Contiguous(b) by { IndicesPermutation(a, b); }
    ContiguousPassesCheck(a);
    ContiguousPassesCheck(b);
    ContiguousIndicesDistinct(a);
    SameIndicesSameEntries(a, sa, sb);
  }

  /** Two arrangements of entries with distinct indices that both hold index
      i at position i are the same sequence. */
  lemma SameIndicesSameEntries(a: seq<Entry>, sa: seq<Entry>, sb: seq<Entry>)
    requires Distinct(Indices(a))
    requires multiset(sa) == multiset(a) && multiset(sb) == multiset(a) && |sa| == |sb|
    requires forall i :: 0 <= i < |sa| ==> sa[i].index == i
    requires forall i :: 0 <= i < |sb| ==> sb[i].index == i
    ensures sa == sb
  {
    forall i | 0 <= i < |sa| ensures sa[i] == sb[i] {
      assert sa[i] in multiset(a) && sb[i] in multiset(a);
      SameIndexSameEntry(a, sa[i], sb[i]);
    }
  }

  /** Entries of a sequence free of repeated indices are told apart by their index. */
  lemma SameIndexSameEntry(a: seq<Entry>, x: Entry, y: Entry)
    requires Distinct(Indices(a)) && x in multiset(a) && y in multiset(a) && x.index == y.index
    ensures x == y
  {
    var p :| 0 <= p < |a| && a[p] == x;
    var q :| 0 <= q < |a| && a[q] == y;
    assert Indices(a)[p] == Indices(a)[q];
  }
}
