/** Ascending sequences of numbers: the order qsort leaves behind, in-place
    removal of duplicates, and the one strictly ascending listing of a set. */
module Ordering {

  ghost predicate Ascending(s: seq<int>) {
    forall i, j :: 0 <= i < j < |s| ==> s[i] <= s[j]
  }

  ghost predicate StrictlyAscending(s: seq<int>) {
    forall i, j :: 0 <= i < j < |s| ==> s[i] < s[j]
  }

  ghost function Elements(s: seq<int>): set<int> {
    set x | x in s
  }

  /** `s` lists exactly the members of `m`, each once, in ascending order. */
  ghost predicate Lists(s: seq<int>, m: set<int>) {
    StrictlyAscending(s) && Elements(s) == m
  }

  function Insert(x: int, s: seq<int>): (r: seq<int>) {
    if s == [] then [x]
    else if x <= s[0] then [x] + s
    else [s[0]] + Insert(x, s[1..])
  }

  /** What qsort with an ascending comparison leaves in the array. */
  function Sort(s: seq<int>): (r: seq<int>) {
    if s == [] then [] else Insert(s[0], Sort(s[1..]))
  }

  lemma {:induction false} InsertAdds(x: int, s: seq<int>)
    ensures multiset(Insert(x, s)) == multiset{x} + multiset(s)
  {
    if s != [] && x > s[0] {
      InsertAdds(x, s[1..]);
      assert s == [s[0]] + s[1..];
    }
  }

  lemma InsertMembers(x: int, s: seq<int>, y: int)
    ensures y in Insert(x, s) <==> y == x || y in s
  {
    InsertAdds(x, s);
    assert y in Insert(x, s) <==> y in multiset(Insert(x, s));
    assert y in s <==> y in multiset(s);
  }

  lemma {:induction false} InsertSorted(x: int, s: seq<int>)
    requires Ascending(s)
    ensures Ascending(Insert(x, s))
  {
    if s != [] && x > s[0] {
      InsertSorted(x, s[1..]);
      var rest := Insert(x, s[1..]);
      forall i | 0 <= i < |rest| ensures s[0] <= rest[i] {
        InsertMembers(x, s[1..], rest[i]);
      }
    }
  }

  lemma {:induction false} SortPermutes(s: seq<int>)
    ensures multiset(Sort(s)) == multiset(s)
  {
    if s != [] {
      SortPermutes(s[1..]);
      InsertAdds(s[0], Sort(s[1..]));
      assert s == [s[0]] + s[1..];
    }
  }

  lemma SamePermutation(s: seq<int>, t: seq<int>)
    requires multiset(s) == multiset(t)
    ensures |s| == |t| && Elements(s) == Elements(t)
  {
    assert |multiset(s)| == |s| && |multiset(t)| == |t|;
    forall x ensures x in s <==> x in t {
      assert x in s <==> x in multiset(s);
      assert x in t <==> x in multiset(t);
    }
  }

  lemma {:induction false} SortSorts(s: seq<int>)
    ensures Ascending(Sort(s))
    ensures |Sort(s)| == |s| && Elements(Sort(s)) == Elements(s)
  {
    SortPermutes(s);
    SamePermutation(Sort(s), s);
    if s != [] {
      SortSorts(s[1..]);
      InsertSorted(s[0], Sort(s[1..]));
    }
  }

  /** A set of numbers has only one strictly ascending listing. */
  lemma {:induction false} ListingUnique(s: seq<int>, t: seq<int>)
    requires StrictlyAscending(s) && StrictlyAscending(t)
    requires Elements(s) == Elements(t)
    ensures s == t
  {
    if s != [] { assert s[0] in Elements(s); }
    if t != [] { assert t[0] in Elements(t); }
    if s != [] && t != [] {
      assert s[0] in Elements(t) && t[0] in Elements(s);
      var i :| 0 <= i < |t| && t[i] == s[0];
      var j :| 0 <= j < |s| && s[j] == t[0];
      assert s[0] == t[0];
      forall x ensures x in s[1..] <==> x in t[1..] {
        if x in s[1..] { assert x in Elements(t); }
        if x in t[1..] { assert x in Elements(s); }
      }
      ListingUnique(s[1..], t[1..]);
    }
  }

  function Dedup(s: seq<int>): (r: seq<int>) {
    if |s| < 2 then s
    else if s[0] == s[1] then Dedup(s[1..])
    else [s[0]] + Dedup(s[1..])
  }

  lemma {:induction false} DedupElements(s: seq<int>)
    ensures Elements(Dedup(s)) == Elements(s)
    ensures s != [] ==> Dedup(s) != [] && Dedup(s)[0] == s[0]
  {
    if |s| >= 2 {
      DedupElements(s[1..]);
      assert Elements(s) == {s[0]} + Elements(s[1..]);
      assert Elements([s[0]] + Dedup(s[1..])) == {s[0]} + Elements(Dedup(s[1..]));
    }
  }

  lemma {:induction false} DedupLists(s: seq<int>)
    requires Ascending(s)
    ensures Lists(Dedup(s), Elements(s))
  {
    DedupElements(s);
    if |s| >= 2 {
      DedupLists(s[1..]);
      if s[0] != s[1] {
        var rest := Dedup(s[1..]);
        forall i | 0 <= i < |rest| ensures s[0] < rest[i] {
          assert rest[i] in Elements(s[1..]);
        }
      }
    }
  }

  /** The ascending listing of the values occurring in `s`. */
  function SortUniq(s: seq<int>): (r: seq<int>)
  {
    Dedup(Sort(s))
  }

  lemma {:induction false} SortUniqLists(s: seq<int>)
    ensures Lists(SortUniq(s), Elements(s))
    ensures s != [] ==> SortUniq(s) != []
    ensures |SortUniq(s)| <= |s|
  {
    SortSorts(s);
    DedupLists(Sort(s));
    DedupElements(Sort(s));
    DedupShrinks(Sort(s));
  }

  lemma {:induction false} DedupShrinks(s: seq<int>)
    ensures |Dedup(s)| <= |s|
  {
    if |s| >= 2 { DedupShrinks(s[1..]); }
  }

  lemma SortUniqFixed(s: seq<int>)
    requires StrictlyAscending(s)
    ensures SortUniq(s) == s
  {
    SortUniqLists(s);
    ListingUnique(SortUniq(s), s);
  }

  /** Equal value sets have equal sorted listings. */
  lemma SortUniqCanonical(s: seq<int>, t: seq<int>)
    ensures SortUniq(s) == SortUniq(t) <==> Elements(s) == Elements(t)
  {
    SortUniqLists(s);
    SortUniqLists(t);
    if Elements(s) == Elements(t) { ListingUnique(SortUniq(s), SortUniq(t)); }
  }
}
