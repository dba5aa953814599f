/** Community lists: the canonical form, the one-pass match, text, and filtering by a list. */
module Communities {
  import opened Ordering
  import opened Sequences

  // ----- canonical form

  /** Drops repeated values, then sorts. */
  method UniqSort(values: seq<int>) returns (r: seq<int>)
    ensures StrictlyAscending(r) && Elements(r) == Elements(values)
    ensures r == SortUniq(values)
  {
    var once: seq<int> := [];
    for i := 0 to |values|
      invariant NoRepeats(once) && Elements(once) == Elements(values[..i])
    {
      assert values[..i + 1] == values[..i] + [values[i]];
      assert Elements(values[..i + 1]) == Elements(values[..i]) + {values[i]};
      if values[i] !in once {
        assert Elements(once + [values[i]]) == Elements(once) + {values[i]};
        once := once + [values[i]];
      }
    }
    assert values[..|values|] == values;
    r := Sort(once);
    SortDistinct(once);
    SortUniqLists(values);
    ListingUnique(r, SortUniq(values));
  }

  lemma SortDistinct(s: seq<int>)
    requires NoRepeats(s)
    ensures StrictlyAscending(Sort(s)) && Elements(Sort(s)) == Elements(s)
  {
    SortSorts(s);
    SortPermutes(s);
    var t := Sort(s);
    DistinctCount(s);
    forall i, j | 0 <= i < j < |t| ensures t[i] < t[j] {
      if t[i] == t[j] {
        TwiceCounts(t, i, j);
        assert false;
      }
    }
  }

  lemma TwiceCounts(t: seq<int>, i: nat, j: nat)
    requires i < j < |t| && t[i] == t[j]
    ensures multiset(t)[t[i]] >= 2
  {
    assert t == t[..i] + [t[i]] + t[i + 1..j] + [t[j]] + t[j + 1..];
  }

  lemma {:induction false} DistinctCount(s: seq<int>)
    requires NoRepeats(s)
    ensures forall x :: multiset(s)[x] <= 1
    decreases |s|
  {
    if s != [] {
      DistinctCount(s[1..]);
      assert s == [s[0]] + s[1..];
      assert forall i :: 0 <= i < |s[1..]| ==> s[1..][i] == s[i + 1];
      assert s[0] !in s[1..];
      assert multiset(s[1..])[s[0]] == 0;
    }
  }

  // ----- matching

  lemma {:induction false} AscendingSize(s: seq<int>)
    requires StrictlyAscending(s)
    ensures |Elements(s)| == |s|
    decreases |s|
  {
    if s != [] {
      AscendingSize(s[1..]);
      assert s == [s[0]] + s[1..];
      assert forall i :: 0 <= i < |s[1..]| ==> s[1..][i] == s[i + 1] && s[i + 1] > s[0];
      assert Elements(s) == {s[0]} + Elements(s[1..]);
    }
  }

  lemma SubsetSize(a: set<int>, b: set<int>)
    requires b <= a
    ensures |b| <= |a|
    decreases |a|
  {
    if x :| x in a {
      SubsetSize(a - {x}, b - {x});
      if x in b { assert b == (b - {x}) + {x}; } else { assert b == b - {x}; }
    } else {
      assert forall y :: y !in a && y !in b;
      assert b == {};
    }
  }

  /** One pass over two canonical lists finds whether the second is contained in the first. */
  method Match(a: seq<int>, b: seq<int>) returns (r: bool)
    requires StrictlyAscending(a) && StrictlyAscending(b)
    ensures r <==> Elements(b) <= Elements(a)
  {
    if |a| < |b| {
      AscendingSize(a);
      AscendingSize(b);
      if Elements(b) <= Elements(a) { SubsetSize(Elements(a), Elements(b)); }
      return false;
    }
    var i, j := 0, 0;
    while i < |a| && j < |b|
      invariant i <= |a| && j <= |b|
      invariant forall k :: 0 <= k < j ==> b[k] in a
      invariant j < |b| ==> b[j] !in a[..i]
    {
      assert a[..i + 1] == a[..i] + [a[i]];
      if a[i] == b[j] {
        j := j + 1;
      }
      i := i + 1;
    }
    assert a[..|a|] == a;
    r := j == |b|;
    if j < |b| {
      assert b[j] in Elements(b) && b[j] !in a;
    }
  }

  // ----- large communities: sorted insertion and deletion

  datatype Entry = Entry(any: bool, permit: bool, values: seq<int>)

  predicate Hits(e: Entry, v: int) { e.any || v in e.values }

  /** The first entry that speaks of the value permits it. */
  predicate Permitted(list: seq<Entry>, v: int) {
    if list == [] then false
    else if Hits(list[0], v) then list[0].permit
    else Permitted(list[1..], v)
  }

  /** The values that stay. */
  function Kept(s: seq<int>, list: seq<Entry>): seq<int> {
    if s == [] then []
    else if Permitted(list, s[0]) then Kept(s[1..], list)
    else [s[0]] + Kept(s[1..], list)
  }

  lemma {:induction false} KeptMembers(s: seq<int>, list: seq<Entry>)
    ensures forall v :: v in Kept(s, list) <==> v in s && !Permitted(list, v)
    ensures StrictlyAscending(s) ==> StrictlyAscending(Kept(s, list))
    decreases |s|
  {
    if s != [] {
      KeptMembers(s[1..], list);
      assert s == [s[0]] + s[1..];
      var rest := Kept(s[1..], list);
      if StrictlyAscending(s) {
        assert forall i :: 0 <= i < |s[1..]| ==> s[1..][i] == s[i + 1] && s[0] < s[i + 1];
        forall i | 0 <= i < |rest| ensures s[0] < rest[i] {
          assert rest[i] in rest;
        }
      }
    }
  }

  lemma {:induction false} KeptConcat(s: seq<int>, t: seq<int>, list: seq<Entry>)
    ensures Kept(s + t, list) == Kept(s, list) + Kept(t, list)
    decreases |s|
  {
    hide Permitted;
    if s == [] {
      assert s + t == t;
    } else {
      assert (s + t)[1..] == s[1..] + t;
      KeptConcat(s[1..], t, list);
    }
  }

  lemma {:induction false} KeptAll(s: seq<int>, list: seq<Entry>)
    requires forall i :: 0 <= i < |s| ==> !Permitted(list, s[i])
    ensures Kept(s, list) == s
    decreases |s|
  {
    hide Permitted;
    if s != [] {
      assert forall i :: 0 <= i < |s[1..]| ==> s[1..][i] == s[i + 1];
      KeptAll(s[1..], list);
    }
  }

  /** The large communities of a route: their values in ascending order, each once. */
  class LargeCommunity {
    var val: seq<int>

    constructor ()
      ensures val == []
    {
      val := [];
    }

    /** Inserts a value at its place unless it is there. */
    method AddVal(v: int) returns (added: bool)
      requires StrictlyAscending(val)
      modifies this
      ensures StrictlyAscending(val) && Elements(val) == old(Elements(val)) + {v}
      ensures added <==> v !in old(val)
    {
      var c := 0;
      while c < |val| && val[c] <= v
        invariant 0 <= c <= |val| && val == old(val) && StrictlyAscending(val)
        invariant forall k :: 0 <= k < c ==> val[k] < v
      {
        if val[c] == v {
          assert v in val;
          assert Elements(val) == Elements(val) + {v};
          return false;
        }
        c := c + 1;
      }
      assert forall k :: c <= k < |val| ==> v < val[k];
      InsertAt(val, c, v);
      val := val[..c] + [v] + val[c..];
      return true;
    }

    /** Inserts all of `values`, one after the other. */
    method UniqSortFrom(values: seq<int>)
      modifies this
      ensures val == SortUniq(values)
    {
      val := [];
      for i := 0 to |values|
        invariant StrictlyAscending(val) && Elements(val) == Elements(values[..i])
      {
        assert values[..i + 1] == values[..i] + [values[i]];
        assert Elements(values[..i + 1]) == Elements(values[..i]) + {values[i]};
        var added := AddVal(values[i]);
      }
      assert values[..|values|] == values;
      SortUniqLists(values);
      ListingUnique(val, SortUniq(values));
    }

    /** Deletes the first value equal to `v`. */
    method DelVal(v: int)
      modifies this
      ensures val == Without(old(val), v)
    {
      var i := 0;
      while i < |val|
        invariant 0 <= i <= |val| && val == old(val)
        invariant v !in val[..i]
      {
        if val[i] == v {
          assert val == val[..i] + [v] + val[i + 1..];
          WithoutAt(val[..i], v, val[i + 1..]);
          val := val[..i] + val[i + 1..];
          return;
        }
        assert val[..i + 1] == val[..i] + [val[i]];
        i := i + 1;
      }
      assert val[..|val|] == val;
      WithoutAbsent(val, v);
    }

    /** Deletes every value the list permits.  Values are collected by position and deleted by
        value, from the last position down, so the right ones go exactly if no value that stays
        lies between two equal ones that go. */
    method MatchDelete(list: seq<Entry>)
      modifies this
      ensures val == Deleted(old(val), Flagged(old(val), list))
      ensures val == Kept(old(val), list) <==> Separated(old(val), list)
      ensures NoRepeats(old(val)) ==> val == Kept(old(val), list)
      ensures StrictlyAscending(old(val)) ==> StrictlyAscending(val)
      ensures StrictlyAscending(old(val)) ==> forall v :: v in val <==> v in old(val) && !Permitted(list, v)
    {
      hide *;
      AscendingNoRepeats(val);
      KeptMembers(val, list);
      DeletesRight(val, list);
      DistinctSeparated(val, list);
      DeletedRightIs(val, list);
      var doomed := Doomed(val, list);
      ghost var goal := Deleted(val, doomed);
      var i := |doomed|;
      assert doomed[..i] == doomed;
      FlaggedWithin(val, list);
      while i > 0
        invariant 0 <= i <= |doomed|
        invariant Descending(doomed[..i], |val|) && Deleted(val, doomed[..i]) == goal
      {
        i := i - 1;
        assert doomed[..i + 1][..i] == doomed[..i];
        DescendingStep(doomed[..i + 1], |val|);
        DeletedStep(val, doomed[..i + 1]);
        DelVal(val[doomed[i]]);
      }
      DeletedNone(val);
    }
  }

  lemma AscendingNoRepeats(s: seq<int>)
    ensures StrictlyAscending(s) ==> NoRepeats(s)
  {
  }

  lemma InsertAt(s: seq<int>, c: nat, v: int)
    requires StrictlyAscending(s) && c <= |s|
    requires (forall k :: 0 <= k < c ==> s[k] < v) && (forall k :: c <= k < |s| ==> v < s[k])
    ensures StrictlyAscending(s[..c] + [v] + s[c..])
    ensures Elements(s[..c] + [v] + s[c..]) == Elements(s) + {v} && v !in s
  {
    InsertedElements(s, c, v);
    hide Elements;
    var t := s[..c] + [v] + s[c..];
    forall i, j | 0 <= i < j < |t|
      ensures t[i] < t[j]
    {
      assert t[i] == if i < c then s[i] else if i == c then v else s[i - 1];
      assert t[j] == if j < c then s[j] else if j == c then v else s[j - 1];
    }
  }

  lemma InsertedElements(s: seq<int>, c: nat, v: int)
    requires c <= |s|
    ensures Elements(s[..c] + [v] + s[c..]) == Elements(s) + {v}
  {
    assert s == s[..c] + s[c..];
  }

  /** The positions below `n` of permitted values, in order. */
  function FlaggedTo(s: seq<int>, list: seq<Entry>, n: nat): (r: seq<nat>)
    requires n <= |s|
  {
    if n == 0 then []
    else FlaggedTo(s, list, n - 1) + (if Permitted(list, s[n - 1]) then [n - 1] else [])
  }

  function Flagged(s: seq<int>, list: seq<Entry>): seq<nat> { FlaggedTo(s, list, |s|) }

  /** Deletes the value at each position, from the last position down, by value. */
  function Deleted(cur: seq<int>, positions: seq<nat>): seq<int>
    decreases |positions|
  {
    if positions == [] then cur
    else
      var last := positions[|positions| - 1];
      if last >= |cur| then cur
      else Deleted(Without(cur, cur[last]), positions[..|positions| - 1])
  }

  /** No value that stays lies between two equal ones that go. */
  ghost predicate Separated(l: seq<int>, list: seq<Entry>) {
    forall i, u, j :: 0 <= i < u < j < |l| && l[i] == l[j] && Permitted(list, l[i]) ==> Permitted(list, l[u])
  }

  method Doomed(s: seq<int>, list: seq<Entry>) returns (doomed: seq<nat>)
    ensures doomed == Flagged(s, list)
  {
    doomed := [];
    for i := 0 to |s|
      invariant doomed == FlaggedTo(s, list, i)
    {
      var permitted := FirstMatch(list, s[i]);
      if permitted {
        doomed := doomed + [i];
      } else {
        assert doomed == doomed + [];
      }
    }
  }

  /** Increasing positions that all stay valid while the list loses one value for each. */
  predicate Descending(positions: seq<nat>, size: nat) {
    && (forall i, j :: 0 <= i < j < |positions| ==> positions[i] < positions[j])
    && (forall i :: 0 <= i < |positions| ==> positions[i] < size)
  }

  lemma DescendingStep(positions: seq<nat>, size: nat)
    requires positions != [] && Descending(positions, size)
    ensures size > 0 && positions[|positions| - 1] < size
    ensures Descending(positions[..|positions| - 1], size - 1)
  {
  }

  lemma DeletedStep(cur: seq<int>, positions: seq<nat>)
    requires positions != [] && positions[|positions| - 1] < |cur|
    ensures var next := Without(cur, cur[positions[|positions| - 1]]);
      && |next| == |cur| - 1
      && Deleted(cur, positions) == Deleted(next, positions[..|positions| - 1])
  {
    RemoveLength(cur, cur[positions[|positions| - 1]]);
  }

  lemma DeletedNone(cur: seq<int>)
    ensures Deleted(cur, []) == cur
  {
  }

  lemma {:induction false} RemoveLength(s: seq<int>, v: int)
    requires v in s
    ensures |Without(s, v)| == |s| - 1
    decreases |s|
  {
    if s[0] != v { RemoveLength(s[1..], v); }
  }

  lemma {:induction false} FlaggedDescends(s: seq<int>, list: seq<Entry>, n: nat)
    requires n <= |s|
    ensures Descending(FlaggedTo(s, list, n), n)
    decreases n
  {
    hide Permitted;
    if n > 0 { FlaggedDescends(s, list, n - 1); }
  }

  /** The values that go and those that stay make up the list, and as many values that stay lie
      before a position as it is ahead of its rank. */
  lemma {:induction false} FlaggedCounts(s: seq<int>, list: seq<Entry>, n: nat)
    requires n <= |s|
    ensures |FlaggedTo(s, list, n)| + |Kept(s[..n], list)| == n
    ensures var f := FlaggedTo(s, list, n);
      f != [] ==> f[|f| - 1] <= |f| - 1 + |Kept(s[..n], list)|
    decreases n
  {
    hide Permitted, Kept;
    if n > 0 {
      FlaggedCounts(s, list, n - 1);
      KeptSnoc(s[..n - 1], s[n - 1], list);
      assert s[..n] == s[..n - 1] + [s[n - 1]];
    } else {
      KeptNone(list);
      assert s[..0] == [];
    }
  }

  lemma KeptNone(list: seq<Entry>)
    ensures Kept([], list) == []
  {
  }

  lemma KeptSnoc(front: seq<int>, z: int, list: seq<Entry>)
    ensures Kept(front + [z], list) == Kept(front, list) + (if Permitted(list, z) then [] else [z])
  {
    hide Permitted;
    KeptConcat(front, [z], list);
    assert [z][1..] == [];
  }

  lemma FlaggedWithin(s: seq<int>, list: seq<Entry>)
    ensures Descending(Flagged(s, list), |s|)
  {
    FlaggedDescends(s, list, |s|);
  }

  lemma {:induction false} FlaggedSame(s: seq<int>, t: seq<int>, list: seq<Entry>, n: nat)
    requires n <= |s| && n <= |t|
    requires forall i :: 0 <= i < n ==> Permitted(list, s[i]) == Permitted(list, t[i])
    ensures FlaggedTo(s, list, n) == FlaggedTo(t, list, n)
    decreases n
  {
    hide Permitted;
    if n > 0 { FlaggedSame(s, t, list, n - 1); }
  }

  lemma {:induction false} FlaggedPrefix(s: seq<int>, list: seq<Entry>, n: nat, m: nat)
    requires n <= m <= |s|
    ensures FlaggedTo(s, list, n) <= FlaggedTo(s, list, m)
    decreases m
  {
    hide Permitted;
    if n < m { FlaggedPrefix(s, list, n, m - 1); }
  }

  // ----- a value that should stay is lost

  /** Where the first `v` is. */
  lemma FirstAt(s: seq<int>, v: int) returns (d: nat)
    requires v in s
    ensures d < |s| && s[d] == v && (forall k :: 0 <= k < d ==> s[k] != v)
    ensures Without(s, v) == s[..d] + s[d + 1..]
  {
    hide Without;
    d := 0;
    while s[d] != v
      invariant d < |s| && forall k :: 0 <= k < d ==> s[k] != v
      decreases |s| - d
    {
      d := d + 1;
    }
    WithoutAt(s[..d], v, s[d + 1..]);
    assert s == s[..d] + [v] + s[d + 1..];
  }

  lemma KeptWithout(s: seq<int>, list: seq<Entry>, d: nat)
    requires d < |s|
    ensures |Kept(s[..d] + s[d + 1..], list)| == |Kept(s, list)| - (if Permitted(list, s[d]) then 0 else 1)
    ensures Permitted(list, s[d]) ==> Kept(s[..d] + s[d + 1..], list) == Kept(s, list)
  {
    hide Permitted;
    KeptConcat(s[..d], s[d + 1..], list);
    KeptConcat(s[..d], s[d..], list);
    assert s == s[..d] + s[d..] && s[d..][1..] == s[d + 1..];
  }

  lemma {:induction false} KeptNeverGrows(cur: seq<int>, positions: seq<nat>, list: seq<Entry>)
    ensures |Kept(Deleted(cur, positions), list)| <= |Kept(cur, list)|
    decreases |positions|
  {
    hide Permitted, Kept;
    if positions != [] {
      var last := positions[|positions| - 1];
      if last < |cur| {
        var d := FirstAt(cur, cur[last]);
        KeptWithout(cur, list, d);
        KeptNeverGrows(Without(cur, cur[last]), positions[..|positions| - 1], list);
      }
    }
  }

  /** More of the positions, the first `r`, point at or before the value at `u`, which stays, than
      there are values before it that go. */
  ghost predicate Overrun(cur: seq<int>, positions: seq<nat>, r: nat, u: nat, list: seq<Entry>) {
    && 0 < r <= |positions| && u < |cur| && !Permitted(list, cur[u])
    && r > u - |Kept(cur[..u], list)|
    && positions[r - 1] <= |Kept(cur[..u], list)| + r - 1
  }

  /** Then deleting loses a value that stays. */
  lemma {:induction false} Loses(cur: seq<int>, positions: seq<nat>, r: nat, u: nat, list: seq<Entry>)
    requires positions != [] && Descending(positions, |cur|) && Overrun(cur, positions, r, u, list)
    ensures |Kept(Deleted(cur, positions), list)| < |Kept(cur, list)|
    decreases |positions|
  {
    hide Permitted, Kept, Overrun, Without;
    DescendingStep(positions, |cur|);
    var m := |positions|;
    var v := cur[positions[m - 1]];
    var next, rest := Without(cur, v), positions[..m - 1];
    assert Deleted(cur, positions) == Deleted(next, rest);
    hide Descending, Deleted;
    var d := FirstAt(cur, v);
    KeptWithout(cur, list, d);
    if !Permitted(list, v) {
      KeptNeverGrows(next, rest, list);
    } else {
      LosesStep(cur, positions, r, u, d, list);
      Loses(next, rest, if r == m then r - 1 else r, if d < u then u - 1 else u, list);
    }
  }

  lemma LosesStep(cur: seq<int>, positions: seq<nat>, r: nat, u: nat, d: nat, list: seq<Entry>)
    requires Descending(positions, |cur|) && Overrun(cur, positions, r, u, list)
    requires d <= positions[|positions| - 1] && Permitted(list, cur[d])
    ensures var r', u' := if r == |positions| then r - 1 else r, if d < u then u - 1 else u;
      && |positions| > 1 && r' > 0 && u' >= 0
      && Overrun(cur[..d] + cur[d + 1..], positions[..|positions| - 1], r', u', list)
  {
    var next := cur[..d] + cur[d + 1..];
    hide Permitted, Kept;
    FewKept(cur[..u], list);
    if d < u {
      assert next[..u - 1] == cur[..u][..d] + cur[..u][d + 1..];
      KeptWithout(cur[..u], list, d);
      FewKept(next[..u - 1], list);
    } else {
      assert next[..u] == cur[..u];
    }
  }

  lemma {:induction false} FewKept(s: seq<int>, list: seq<Entry>)
    ensures |Kept(s, list)| <= |s|
    decreases |s|
  {
    if s != [] { FewKept(s[1..], list); }
  }

  /** Walks the entries up to the first that speaks of the value. */
  method FirstMatch(list: seq<Entry>, v: int) returns (permit: bool)
    ensures permit == Permitted(list, v)
  {
    var e := 0;
    assert list[0..] == list;
    while e < |list|
      invariant e <= |list| && Permitted(list[e..], v) == Permitted(list, v)
    {
      assert list[e..][0] == list[e] && list[e..][1..] == list[e + 1..];
      if list[e].any {
        return list[e].permit;
      } else if v in list[e].values {
        return list[e].permit;
      }
      e := e + 1;
    }
    return false;
  }

  /** The limit of deleting by value: on a list with a repeated value, which no canonical list has,
      the wrong one goes.  Here 2 should stay. */
  lemma RepeatsMislead()
    ensures var list := [Entry(false, true, [1])];
      var l := [1, 2, 1];
      Kept(l, list) == [2] && Deleted(l, Flagged(l, list)) == [1] && !Separated(l, list)
  {
    var list := [Entry(false, true, [1])];
    var l := [1, 2, 1];
    assert list[1..] == [] && Permitted(list, 1) && !Permitted(list, 2);
    NotSeparated(l, 0, 1, 2, list);
    hide Permitted, Separated;
    MisleadKept(l, list);
    MisleadDeleted(l, list);
  }

  lemma MisleadKept(l: seq<int>, list: seq<Entry>)
    requires l == [1, 2, 1] && Permitted(list, 1) && !Permitted(list, 2)
    ensures Kept(l, list) == [2]
  {
    hide Permitted;
    hide Kept;
    KeptNone(list);
    KeptSnoc([], 1, list);
    KeptSnoc([1], 2, list);
    KeptSnoc([1, 2], 1, list);
    assert [] + [1] == [1] && [1] + [2] == [1, 2] && [1, 2] + [1] == l;
  }

  lemma MisleadDeleted(l: seq<int>, list: seq<Entry>)
    requires l == [1, 2, 1] && Permitted(list, 1) && !Permitted(list, 2)
    ensures Deleted(l, Flagged(l, list)) == [1]
  {
    hide Permitted;
    assert FlaggedTo(l, list, 0) == [] && FlaggedTo(l, list, 1) == [0] && FlaggedTo(l, list, 2) == [0];
    var f := Flagged(l, list);
    assert f == [0, 2] && f[..1] == [0] && [0][..0] == [];
    assert Without(l, 1) == [2, 1] && Without([2, 1], 2) == [1];
    assert Deleted([1], []) == [1] && Deleted([2, 1], [0]) == [1];
  }

  // ----- when the right values go

  /** What follows the positions is not touched. */
  lemma {:induction false} TailStays(cur: seq<int>, z: int, positions: seq<nat>)
    requires Descending(positions, |cur|)
    ensures Deleted(cur + [z], positions) == Deleted(cur, positions) + [z]
    decreases |positions|
  {
    if positions != [] {
      var last := positions[|positions| - 1];
      var v := cur[last];
      var rest := positions[..|positions| - 1];
      assert (cur + [z])[last] == v;
      var d := FirstAt(cur, v);
      var e := FirstAt(cur + [z], v);
      assert d == e by { assert (cur + [z])[d] == v; }
      assert Without(cur + [z], v) == Without(cur, v) + [z];
      DescendingStep(positions, |cur|);
      hide Without;
      TailStays(Without(cur, v), z, rest);
    }
  }

  lemma FlaggedSnoc(front: seq<int>, z: int, list: seq<Entry>)
    ensures !Permitted(list, z) ==> Flagged(front + [z], list) == Flagged(front, list)
    ensures Permitted(list, z) ==> Flagged(front + [z], list) == Flagged(front, list) + [|front|]
  {
    hide Permitted;
    var l, n := front + [z], |front|;
    FlaggedSame(l, front, list, n);
    assert FlaggedTo(l, list, n) + [] == FlaggedTo(l, list, n) && l[n] == z;
  }

  /** A last value that stays changes nothing. */
  lemma StayingLast(front: seq<int>, z: int, list: seq<Entry>)
    requires !Permitted(list, z)
    ensures var l := front + [z];
      Deleted(l, Flagged(l, list)) == Deleted(front, Flagged(front, list)) + [z]
    ensures Kept(front + [z], list) == Kept(front, list) + [z]
    ensures Separated(front + [z], list) <==> Separated(front, list)
  {
    hide *;
    FlaggedSnoc(front, z, list);
    FlaggedWithin(front, list);
    KeptSnoc(front, z, list);
    TailStays(front, z, Flagged(front, list));
    SeparatedExtends(front, z, list);
  }

  lemma SeparatedExtends(front: seq<int>, z: int, list: seq<Entry>)
    requires Permitted(list, z) ==> z !in front
    ensures Separated(front + [z], list) <==> Separated(front, list)
  {
    hide Permitted;
    var l := front + [z];
    if Separated(l, list) {
      forall i, u, j | 0 <= i < u < j < |front| && front[i] == front[j] && Permitted(list, front[i])
        ensures Permitted(list, front[u])
      {
        assert l[i] == front[i] && l[u] == front[u] && l[j] == front[j];
      }
    }
  }

  /** A last value that goes is deleted first, at its first place. */
  lemma GoingLast(front: seq<int>, z: int, list: seq<Entry>)
    requires Permitted(list, z)
    ensures var l := front + [z];
      Deleted(l, Flagged(l, list)) == Deleted(Without(l, z), Flagged(front, list))
    ensures Kept(front + [z], list) == Kept(front, list)
  {
    hide Permitted, Flagged, Without, Kept;
    var l, n := front + [z], |front|;
    FlaggedSnoc(front, z, list);
    KeptSnoc(front, z, list);
    var f := Flagged(l, list);
    assert f[..|f| - 1] == Flagged(front, list) && f[|f| - 1] == n && l[n] == z;
    assert Kept(front, list) + [] == Kept(front, list);
  }

  lemma Absent(front: seq<int>, z: int)
    requires z !in front
    ensures Without(front + [z], z) == front
  {
    var d := FirstAt(front + [z], z);
    assert d == |front|;
  }

  /** The values from `f` on all go: the list without position `f` is deleted alike. */
  lemma RunShrinks(front: seq<int>, z: int, f: nat, list: seq<Entry>)
    requires f < |front| && front[f] == z
    requires forall k :: f <= k < |front| ==> Permitted(list, front[k])
    ensures var c := front[..f] + front[f + 1..] + [z];
      && Flagged(c, list) == Flagged(front, list)
      && (Separated(c, list) <==> Separated(front + [z], list))
  {
    hide Permitted;
    var c := front[..f] + front[f + 1..] + [z];
    assert forall k :: 0 <= k < |c| ==> Permitted(list, c[k]) == Permitted(list, front[k]);
    FlaggedSame(c, front, list, |c|);
    RunSeparated(front, z, f, list);
  }

  lemma RunSeparated(front: seq<int>, z: int, f: nat, list: seq<Entry>)
    requires f < |front| && front[f] == z
    requires forall k :: f <= k < |front| ==> Permitted(list, front[k])
    ensures Separated(front[..f] + front[f + 1..] + [z], list) <==> Separated(front + [z], list)
  {
    hide Permitted;
    var c, l := front[..f] + front[f + 1..] + [z], front + [z];
    assert forall k :: 0 <= k < f ==> c[k] == l[k];
    assert forall k :: f <= k < |c| ==> c[k] == l[k + 1] && Permitted(list, c[k]);
    assert forall k :: f <= k < |l| ==> Permitted(list, l[k]);
    if Separated(l, list) {
      forall i, u, j | 0 <= i < u < j < |c| && c[i] == c[j] && Permitted(list, c[i])
        ensures Permitted(list, c[u])
      {
        var j' := if j < f then j else j + 1;
        if u < f { assert l[i] == c[i] && l[u] == c[u] && l[j'] == c[j]; }
      }
    }
    if Separated(c, list) {
      forall i, u, j | 0 <= i < u < j < |l| && l[i] == l[j] && Permitted(list, l[i])
        ensures Permitted(list, l[u])
      {
        var j' := if j < f then j else if j == f then |c| - 1 else j - 1;
        if u < f { assert l[i] == c[i] && l[u] == c[u] && l[j] == c[j']; }
      }
    }
  }

  /** A value that stays at `u`, between the first `z`, at `f`, and a last one: a value that stays
      is lost. */
  lemma StrandedLost(front: seq<int>, z: int, f: nat, u: nat, list: seq<Entry>)
    requires f < u < |front| && front[f] == z && Permitted(list, z) && !Permitted(list, front[u])
    ensures var c := front[..f] + front[f + 1..] + [z];
      |Kept(Deleted(c, Flagged(front, list)), list)| < |Kept(c, list)|
  {
    hide Permitted, Kept, Deleted;
    var c := front[..f] + front[f + 1..] + [z];
    var all, part := Flagged(front, list), FlaggedTo(front, list, u);
    FlaggedWithin(front, list);
    FlaggedPrefix(front, list, u, |front|);
    FlaggedCounts(front, list, u);
    KeptWithout(front[..u], list, f);
    assert c[..u - 1] == front[..u][..f] + front[..u][f + 1..];
    FewKept(c[..u - 1], list);
    var r := |part|;
    assert r > 0 && all[r - 1] == part[r - 1];
    assert c[u - 1] == front[u];
    Loses(c, all, r, u - 1, list);
  }

  lemma {:induction false} KeptTwice(s: seq<int>, list: seq<Entry>)
    ensures Kept(Kept(s, list), list) == Kept(s, list)
    decreases |s|
  {
    hide Permitted;
    if s != [] {
      KeptTwice(s[1..], list);
      KeptConcat([s[0]], Kept(s[1..], list), list);
      assert [s[0]][1..] == [];
    }
  }

  /** Deleting by value is right exactly on separated lists. */
  lemma {:induction false} DeletesRight(l: seq<int>, list: seq<Entry>)
    ensures DeletedRight(l, list) <==> Separated(l, list)
    decreases |l|
  {
    if l != [] {
      hide *;
      var n := |l| - 1;
      var front, z := l[..n], l[n];
      assert l == front + [z];
      if !Permitted(list, z) || z !in front {
        LastDecides(front, z, list);
        DeletesRight(front, list);
      } else {
        var f := FirstAt(l, z);
        FirstInFront(front, z, f);
        DeletesRight(front[..f] + front[f + 1..] + [z], list);
        RepeatedDecides(front, z, f, list);
      }
    }
  }

  ghost predicate DeletedRight(l: seq<int>, list: seq<Entry>) {
    Deleted(l, Flagged(l, list)) == Kept(l, list)
  }

  lemma DeletedRightIs(l: seq<int>, list: seq<Entry>)
    ensures DeletedRight(l, list) <==> Deleted(l, Flagged(l, list)) == Kept(l, list)
  {
  }

  lemma LastDecides(front: seq<int>, z: int, list: seq<Entry>)
    requires !Permitted(list, z) || z !in front
    ensures DeletedRight(front + [z], list) <==> DeletedRight(front, list)
    ensures Separated(front + [z], list) <==> Separated(front, list)
  {
    hide Permitted, Deleted, Flagged, Kept, Without, Separated;
    if !Permitted(list, z) {
      StayingLast(front, z, list);
      var d, k := Deleted(front, Flagged(front, list)), Kept(front, list);
      assert (d + [z])[..|d + [z]| - 1] == d && (k + [z])[..|k + [z]| - 1] == k;
    } else {
      GoingLast(front, z, list);
      Absent(front, z);
      SeparatedExtends(front, z, list);
    }
  }

  lemma RepeatedDecides(front: seq<int>, z: int, f: nat, list: seq<Entry>)
    requires Permitted(list, z) && f < |front| && front[f] == z
    requires Without(front + [z], z) == front[..f] + front[f + 1..] + [z]
    requires var c := front[..f] + front[f + 1..] + [z]; DeletedRight(c, list) <==> Separated(c, list)
    ensures DeletedRight(front + [z], list) <==> Separated(front + [z], list)
  {
    hide Permitted, Deleted, Flagged, Kept, Without, Separated;
    var l, n := front + [z], |front|;
    var c := front[..f] + front[f + 1..] + [z];
    assert c == l[..f] + l[f + 1..] && l[f] == z;
    GoingLast(front, z, list);
    KeptWithout(l, list, f);
    if exists u :: f < u < n && !Permitted(list, front[u]) {
      var u :| f < u < n && !Permitted(list, front[u]);
      StrandedLost(front, z, f, u, list);
      KeptTwice(l, list);
      assert l[u] == front[u] && l[n] == z;
      NotSeparated(l, f, u, n, list);
    } else {
      RunShrinks(front, z, f, list);
    }
  }

  lemma FirstInFront(front: seq<int>, z: int, f: nat)
    requires z in front && f <= |front| && forall k :: 0 <= k < f ==> (front + [z])[k] != z
    ensures f < |front|
    ensures (front + [z])[..f] + (front + [z])[f + 1..] == front[..f] + front[f + 1..] + [z]
  {
    var k :| 0 <= k < |front| && front[k] == z;
    assert (front + [z])[k] == z;
  }

  lemma DistinctSeparated(l: seq<int>, list: seq<Entry>)
    ensures NoRepeats(l) ==> Separated(l, list)
  {
  }

  lemma NotSeparated(l: seq<int>, i: nat, u: nat, j: nat, list: seq<Entry>)
    requires i < u < j < |l| && l[i] == l[j] && Permitted(list, l[i]) && !Permitted(list, l[u])
    ensures !Separated(l, list)
  {
  }
}
