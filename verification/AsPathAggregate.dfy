/** Aggregating two AS paths: into a common head plus an AS_SET (section 9.2.2.2 of
    RFC 4271), and position by position for multipath routes. */
module AsPathAggregate {
  import opened AsPath
  import opened AsPathWire
  import opened Options
  import opened Ordering
  import opened Wire

  function Lcp(a: seq<int>, b: seq<int>): (k: nat)
    ensures k <= |a| && k <= |b|
    ensures a[..k] == b[..k]
    ensures k < |a| && k < |b| ==> a[k] != b[k]
  {
    if a == [] || b == [] || a[0] != b[0] then 0
    else
      var k := Lcp(a[1..], b[1..]);
      assert a[..k + 1] == [a[0]] + a[1..][..k];
      assert b[..k + 1] == [b[0]] + b[1..][..k];
      k + 1
  }

  method MatchLength(a: seq<int>, b: seq<int>) returns (match_: nat)
    ensures match_ == Lcp(a, b)
  {
    var minlen := if |a| < |b| then |a| else |b|;
    match_ := 0;
    while match_ < minlen && a[match_] == b[match_]
      invariant match_ <= minlen
      invariant a[..match_] == b[..match_]
    {
      match_ := match_ + 1;
    }
    LcpUnique(a, b, match_);
  }

  lemma LcpUnique(a: seq<int>, b: seq<int>, k: nat)
    requires k <= |a| && k <= |b| && a[..k] == b[..k]
    requires k < |a| && k < |b| ==> a[k] != b[k]
    ensures k == Lcp(a, b)
  {
    var l := Lcp(a, b);
    assert forall i :: 0 <= i < l ==> a[..l][i] == a[i] && b[..l][i] == b[i];
    assert forall i :: 0 <= i < k ==> a[..k][i] == a[i] && b[..k][i] == b[i];
  }

  lemma LcpCommutes(a: seq<int>, b: seq<int>)
    ensures Lcp(a, b) == Lcp(b, a)
  {
    LcpUnique(b, a, Lcp(a, b));
  }

  /** Do the two segments agree entirely, so that comparison moves on to the next pair? */
  predicate SameRun(s: Segment, t: Segment) {
    Lcp(s.asns, t.asns) == |s.asns| == |t.asns|
  }

  function Head(s: Segment, t: Segment): Path {
    var k := Lcp(s.asns, t.asns);
    if k > 0 then [Segment(s.kind, s.asns[..k])] else []
  }

  /** The common leading segments. */
  function Common(p: Path, q: Path): Path {
    if p == [] || q == [] || p[0].kind != q[0].kind then []
    else Head(p[0], q[0]) + if SameRun(p[0], q[0]) then Common(p[1..], q[1..]) else []
  }

  function Flat(p: Path): seq<int> {
    if p == [] then [] else p[0].asns + Flat(p[1..])
  }

  /** What is left of either path behind the common head. */
  function Rest(p: Path, q: Path): (seq<int>, seq<int>) {
    if p == [] || q == [] || p[0].kind != q[0].kind then (Flat(p), Flat(q))
    else if SameRun(p[0], q[0]) then Rest(p[1..], q[1..])
    else
      var k := Lcp(p[0].asns, q[0].asns);
      (p[0].asns[k..] + Flat(p[1..]), q[0].asns[k..] + Flat(q[1..]))
  }

  function SetOfRest(rest: seq<int>): Path {
    if rest == [] then [] else [Segment(AsSet, rest)]
  }

  function Aggregated(p: Path, q: Path): Path {
    var (r, s) := Rest(p, q);
    Norm(Common(p, q) + SetOfRest(r + s))
  }

  // ----- laws

  lemma {:induction false} FlatAsns(p: Path)
    ensures Elements(Flat(p)) == AsnSet(p)
  {
    if p != [] {
      FlatAsns(p[1..]);
      AsnSetConcat([p[0]], p[1..]);
      AsnSetSingle(p[0]);
      assert p == [p[0]] + p[1..];
      ElementsConcat(p[0].asns, Flat(p[1..]));
    }
  }

  lemma ElementsConcat(a: seq<int>, b: seq<int>)
    ensures Elements(a + b) == Elements(a) + Elements(b)
  {
  }

  /** Common head and leftovers of a side together hold exactly that side's numbers. */
  lemma {:induction false} SplitKeepsAsns(p: Path, q: Path)
    ensures AsnSet(Common(p, q)) + Elements(Rest(p, q).0) == AsnSet(p)
  {
    if p != [] && q != [] && p[0].kind == q[0].kind {
      var s, t := p[0], q[0];
      HeadSplit(s, t, p[1..]);
      assert p == [s] + p[1..];
      if SameRun(s, t) {
        SplitKeepsAsns(p[1..], q[1..]);
        AsnSetConcat(Head(s, t), Common(p[1..], q[1..]));
      } else {
        assert Common(p, q) == Head(s, t);
        RestElements(s.asns[Lcp(s.asns, t.asns)..], p[1..]);
      }
    } else {
      FlatAsns(p);
    }
  }

  lemma RestElements(a: seq<int>, p: Path)
    ensures Elements(a + Flat(p)) == Elements(a) + AsnSet(p)
  {
    FlatAsns(p);
    ElementsConcat(a, Flat(p));
  }

  lemma HeadSplit(s: Segment, t: Segment, rest: Path)
    ensures AsnSet([s] + rest) == AsnSet(Head(s, t)) + Elements(s.asns[Lcp(s.asns, t.asns)..]) + AsnSet(rest)
  {
    var k := Lcp(s.asns, t.asns);
    AsnSetConcat([s], rest);
    AsnSetSingle(s);
    AsnSetSingle(Segment(s.kind, s.asns[..k]));
    ElementsConcat(s.asns[..k], s.asns[k..]);
    assert s.asns == s.asns[..k] + s.asns[k..];
  }

  /** The aggregate holds exactly the AS numbers of either input. */
  lemma AggregateIsUnion(p: Path, q: Path)
    ensures AsnSet(Aggregated(p, q)) == AsnSet(p) + AsnSet(q)
  {
    var (r, s) := Rest(p, q);
    SplitKeepsAsns(p, q);
    SplitKeepsAsns(q, p);
    CommonCommutes(p, q);
    NormKeepsAsns(Common(p, q) + SetOfRest(r + s));
    AsnSetConcat(Common(p, q), SetOfRest(r + s));
    ElementsConcat(r, s);
    AsnSetSingle(Segment(AsSet, r + s));
  }

  lemma {:induction false} CommonCommutes(p: Path, q: Path)
    ensures Common(p, q) == Common(q, p)
    ensures Rest(q, p) == (Rest(p, q).1, Rest(p, q).0)
  {
    if p != [] && q != [] && p[0].kind == q[0].kind {
      LcpCommutes(p[0].asns, q[0].asns);
      if SameRun(p[0], q[0]) { CommonCommutes(p[1..], q[1..]); }
    }
  }

  lemma {:induction false} NormSetTail(c: Path, a: seq<int>, b: seq<int>)
    requires Elements(a) == Elements(b)
    ensures Norm(c + SetOfRest(a)) == Norm(c + SetOfRest(b))
  {
    SortUniqCanonical(a, b);
    if a != [] { assert a[0] in Elements(a); }
    if b != [] { assert b[0] in Elements(b); }
    if c == [] {
      assert c + SetOfRest(a) == SetOfRest(a) && c + SetOfRest(b) == SetOfRest(b);
    } else {
      NormSetTail(c[1..], a, b);
      assert (c + SetOfRest(a))[1..] == c[1..] + SetOfRest(a);
      assert (c + SetOfRest(b))[1..] == c[1..] + SetOfRest(b);
    }
  }

  /** The order of the inputs does not matter. */
  lemma AggregateCommutes(p: Path, q: Path)
    ensures Aggregated(p, q) == Aggregated(q, p)
  {
    CommonCommutes(p, q);
    var (r, s) := Rest(p, q);
    ElementsConcat(r, s);
    ElementsConcat(s, r);
    NormSetTail(Common(p, q), r + s, s + r);
  }

  lemma {:induction false} CommonOfSame(p: Path)
    requires NoEmptySegment(p)
    ensures Common(p, p) == p && Rest(p, p) == ([], [])
  {
    if p != [] {
      LcpUnique(p[0].asns, p[0].asns, |p[0].asns|);
      CommonOfSame(p[1..]);
      assert p[0].asns[..|p[0].asns|] == p[0].asns;
      assert p == [p[0]] + p[1..];
    }
  }

  /** Aggregating a path with itself changes nothing but its normal form. */
  lemma AggregateIdempotent(p: Path)
    requires NoEmptySegment(p)
    ensures Aggregated(p, p) == Norm(p)
  {
    CommonOfSame(p);
    assert p + [] == p;
  }

  lemma SingleSplit(s: Segment, t: Segment)
    requires s.kind == t.kind
    ensures Common([s], [t]) == Head(s, t)
    ensures Rest([s], [t]) == (s.asns[Lcp(s.asns, t.asns)..], t.asns[Lcp(s.asns, t.asns)..])
  {
    assert [s][1..] == [] && [t][1..] == [];
    var k := Lcp(s.asns, t.asns);
    assert s.asns[k..] + Flat([]) == s.asns[k..] && t.asns[k..] + Flat([]) == t.asns[k..];
    assert Head(s, t) + Common([], []) == Head(s, t);
    assert Head(s, t) + [] == Head(s, t);
  }

  lemma LcpLeavesNothing(a: seq<int>, b: seq<int>)
    ensures a[Lcp(a, b)..] + b[Lcp(a, b)..] == [] <==> a == b
  {
    var k := Lcp(a, b);
    assert a == a[..k] + a[k..] && b == b[..k] + b[k..];
    if a == b { LcpUnique(a, b, |a|); }
  }

  ghost predicate SequencesOnly(p: Path) {
    forall i :: 0 <= i < |p| ==> p[i].kind.AsSequence?
  }

  lemma {:induction false} FlatHops(p: Path)
    requires SequencesOnly(p)
    ensures HopCount(p) == |Flat(p)|
  {
    if p != [] { FlatHops(p[1..]); }
  }

  /** Of paths of plain sequences, however they are cut into segments, the head and what is left
      make up either path. */
  lemma {:induction false} SequencesSplit(p: Path, q: Path)
    requires SequencesOnly(p) && SequencesOnly(q)
    ensures SequencesOnly(Common(p, q))
    ensures Flat(p) == Flat(Common(p, q)) + Rest(p, q).0
    ensures Flat(q) == Flat(Common(p, q)) + Rest(p, q).1
  {
    if p != [] && q != [] {
      var s, t := p[0], q[0];
      var h := Head(s, t);
      HeadFlat(s, t);
      HeadSequence(s, t);
      SplitStep(p, q);
      LcpSplits(s.asns, t.asns);
      hide Lcp, Head, Common, Rest;
      if SameRun(s, t) {
        SameRunAgrees(s, t);
        hide SameRun;
        SequencesSplit(p[1..], q[1..]);
        var c := Common(p[1..], q[1..]);
        FlatConcat(h, c);
        Associate(Flat(h), Flat(c), Rest(p[1..], q[1..]).0);
        Associate(Flat(h), Flat(c), Rest(p[1..], q[1..]).1);
      } else {
        hide SameRun;
        var k := Lcp(s.asns, t.asns);
        Associate(Flat(h), s.asns[k..], Flat(p[1..]));
        Associate(Flat(h), t.asns[k..], Flat(q[1..]));
      }
    }
  }

  lemma Associate(a: seq<int>, b: seq<int>, c: seq<int>)
    ensures (a + b) + c == a + (b + c)
  {
  }

  lemma SplitStep(p: Path, q: Path)
    requires p != [] && q != [] && p[0].kind == q[0].kind
    ensures SameRun(p[0], q[0]) ==>
      Common(p, q) == Head(p[0], q[0]) + Common(p[1..], q[1..]) && Rest(p, q) == Rest(p[1..], q[1..])
    ensures !SameRun(p[0], q[0]) ==>
      var k := Lcp(p[0].asns, q[0].asns);
      && Common(p, q) == Head(p[0], q[0])
      && Rest(p, q) == (p[0].asns[k..] + Flat(p[1..]), q[0].asns[k..] + Flat(q[1..]))
  {
    hide Lcp, SameRun, Head, Flat;
    assert Head(p[0], q[0]) + [] == Head(p[0], q[0]);
  }

  lemma SameRunAgrees(s: Segment, t: Segment)
    requires SameRun(s, t)
    ensures s.asns == t.asns == s.asns[..Lcp(s.asns, t.asns)]
  {
    var k := Lcp(s.asns, t.asns);
    assert s.asns[..k] == s.asns && t.asns[..k] == t.asns;
  }

  lemma LcpSplits(a: seq<int>, b: seq<int>)
    ensures a == a[..Lcp(a, b)] + a[Lcp(a, b)..] && b == a[..Lcp(a, b)] + b[Lcp(a, b)..]
  {
  }

  lemma HeadSequence(s: Segment, t: Segment)
    requires s.kind.AsSequence?
    ensures SequencesOnly(Head(s, t))
  {
  }

  lemma HeadFlat(s: Segment, t: Segment)
    ensures Flat(Head(s, t)) == s.asns[..Lcp(s.asns, t.asns)]
  {
    var h := Head(s, t);
    if h != [] { assert h[1..] == [] && h[0].asns + [] == h[0].asns; }
  }

  lemma {:induction false} FlatConcat(p: Path, q: Path)
    ensures Flat(p + q) == Flat(p) + Flat(q)
  {
    if p == [] {
      assert p + q == q;
    } else {
      assert (p + q)[1..] == p[1..] + q;
      FlatConcat(p[1..], q);
    }
  }

  /** The aggregate of paths of plain sequences, however cut and including the empty path, has no
      more hops than the longer one. */
  lemma AggregateHops(p: Path, q: Path)
    requires SequencesOnly(p) && SequencesOnly(q)
    ensures HopCount(Aggregated(p, q)) <= if HopCount(p) >= HopCount(q) then HopCount(p) else HopCount(q)
  {
    var (r, s) := Rest(p, q);
    var tail := SetOfRest(r + s);
    SequencesSplit(p, q);
    FlatHops(p);
    FlatHops(q);
    FlatHops(Common(p, q));
    NormKeepsHops(Common(p, q) + tail);
    HopCountConcat(Common(p, q), tail);
    if tail != [] { assert tail[1..] == []; }
  }

  /** Sets are the limit: here two paths of one hop aggregate to two hops. */
  lemma AggregateSetsGrow()
    ensures var p, q := [Segment(AsSet, [1, 2])], [Segment(AsSet, [1, 3])];
      HopCount(p) == HopCount(q) == 1 && HopCount(Aggregated(p, q)) == 2
  {
    var s, t := Segment(AsSet, [1, 2]), Segment(AsSet, [1, 3]);
    LcpUnique([1, 2], [1, 3], 1);
    SingleSplit(s, t);
    var head, tail := Head(s, t), SetOfRest([2] + [3]);
    assert [s][1..] == [] && [t][1..] == [] && head[1..] == [] && tail[1..] == [];
    NormKeepsHops(head + tail);
    HopCountConcat(head, tail);
  }

  /** The number that follows a segment is missing or not `x`. */
  predicate Differs(later: Path, x: int) { Flat(later) == [] || Flat(later)[0] != x }

  /** The first loop ended with a path, or stopped inside both segments, or at the end of one whose
      next number is not the other's. */
  predicate AtLongest(p: Path, q: Path, i: nat, k: nat) {
    i >= |p| || i >= |q|
    || (if k < |q[i].asns| then k < |p[i].asns| || Differs(p[i + 1..], q[i].asns[k])
        else k < |p[i].asns| && Differs(q[i + 1..], p[i].asns[k]))
  }

  /** Of paths of plain sequences the common head is a common prefix, and the longest exactly if the
      first loop stops so. */
  lemma CommonIsLongest(p: Path, q: Path)
    requires SequencesOnly(p) && SequencesOnly(q)
    ensures Flat(Common(p, q)) <= Flat(p) && Flat(Common(p, q)) <= Flat(q)
    ensures var (i, k) := StopFrom(p, q, true, 0, 0);
      |Flat(Common(p, q))| == Lcp(Flat(p), Flat(q)) <==> AtLongest(p, q, i, k)
  {
    var (i, k) := StopFrom(p, q, true, 0, 0);
    RestFromStop(p, q, 0);
    StopsAtPair(p, q, 0);
    assert p[0..] == p && q[0..] == q;
    hide Common, StopFrom, Rest, Flat, Lcp, AtLongest, Tail;
    SequencesSplit(p, q);
    LongestIs(Flat(Common(p, q)), Tail(p, i, k), Tail(q, i, k));
    TailsDiffer(p, q, i, k);
  }

  lemma TailsDiffer(p: Path, q: Path, i: nat, k: nat)
    requires i <= |p| && i <= |q| && (i < |p| ==> k <= |p[i].asns|) && (i < |q| ==> k <= |q[i].asns|)
    requires i < |p| && i < |q| ==> k < |p[i].asns| || k < |q[i].asns|
    requires i < |p| && i < |q| && k < |p[i].asns| && k < |q[i].asns| ==> p[i].asns[k] != q[i].asns[k]
    ensures var r, s := Tail(p, i, k), Tail(q, i, k); r == [] || s == [] || r[0] != s[0] <==> AtLongest(p, q, i, k)
  {
    hide Flat;
    if i < |p| && i < |q| {
      assert k == |p[i].asns| ==> Tail(p, i, k) == Flat(p[i + 1..]);
      assert k == |q[i].asns| ==> Tail(q, i, k) == Flat(q[i + 1..]);
    }
  }

  lemma LongestIs(c: seq<int>, r: seq<int>, s: seq<int>)
    ensures |c| == Lcp(c + r, c + s) <==> r == [] || s == [] || r[0] != s[0]
  {
    var a, b := c + r, c + s;
    assert a[..|c|] == c && b[..|c|] == c;
    if r == [] || s == [] || r[0] != s[0] {
      LcpUnique(a, b, |c|);
    } else {
      assert a[|c|] == r[0] && b[|c|] == s[0];
    }
  }

  /** Within both paths the first loop stops at a pair of one kind only with its match length, and
      not both used up. */
  lemma {:induction false} StopsAtPair(p: Path, q: Path, i: nat)
    requires i <= |p| && i <= |q|
    ensures var (j, k) := StopFrom(p, q, true, i, 0);
      && i <= j <= |p| && j <= |q|
      && (j < |p| && j < |q| && p[j].kind == q[j].kind ==>
            k == Lcp(p[j].asns, q[j].asns) && (k < |p[j].asns| || k < |q[j].asns|)
            && (k < |p[j].asns| && k < |q[j].asns| ==> p[j].asns[k] != q[j].asns[k]))
    decreases |p| - i
  {
    if i < |p| && i < |q| && p[i].kind == q[i].kind && SameRun(p[i], q[i]) {
      StopsAtPair(p, q, i + 1);
    }
  }

  /** Cut differently, the same numbers do not match: a path must be in normal form. */
  lemma CommonStopsAtCut()
    ensures var p, q := [Segment(AsSequence, [1]), Segment(AsSequence, [2])], [Segment(AsSequence, [1, 2])];
      Flat(p) == Flat(q) && Flat(Common(p, q)) == [1]
  {
    var p, q := [Segment(AsSequence, [1]), Segment(AsSequence, [2])], [Segment(AsSequence, [1, 2])];
    LcpUnique([1], [1, 2], 1);
    assert p[1..] == [Segment(AsSequence, [2])] && p[1..][1..] == [] && q[1..] == [];
    assert Common(p, q) == Head(p[0], q[0]) + [] == Head(p[0], q[0]);
    HeadFlat(p[0], q[0]);
  }

  /** A path of plain sequences in normal form: at most one segment. */
  function Plain(a: seq<int>): Path { if a == [] then [] else [Segment(AsSequence, a)] }

  /** Two plain sequences, either of which may be empty: the longest common prefix leads, and one
      set holds the rest. */
  lemma AggregateSequences(a: seq<int>, b: seq<int>)
    ensures var k := Lcp(a, b);
      Aggregated(Plain(a), Plain(b))
        == Plain(a[..k]) + (if a == b then [] else [Segment(AsSet, SortUniq(a[k..] + b[k..]))])
  {
    var k := Lcp(a, b);
    var head, rest := Plain(a[..k]), a[k..] + b[k..];
    LcpLeavesNothing(a, b);
    PlainSplit(a, b);
    if a == b {
      assert head + [] == head;
      NormFixedHead(head);
    } else {
      NormOfHeadAndSet(head, rest);
    }
  }

  lemma PlainSplit(a: seq<int>, b: seq<int>)
    ensures Common(Plain(a), Plain(b)) == Plain(a[..Lcp(a, b)])
    ensures Rest(Plain(a), Plain(b)) == (a[Lcp(a, b)..], b[Lcp(a, b)..])
  {
    if a != [] && b != [] {
      SingleSplit(Segment(AsSequence, a), Segment(AsSequence, b));
    } else {
      PlainFlat(a);
      PlainFlat(b);
      assert a[..0] == [] && b[..0] == [] && a[0..] == a && b[0..] == b;
    }
  }

  lemma PlainFlat(a: seq<int>)
    ensures Flat(Plain(a)) == a
  {
    if a != [] { assert Plain(a)[1..] == [] && a + [] == a; }
  }

  /** The normal paths of plain sequences are exactly these. */
  lemma PlainIsNormal(p: Path)
    requires SequencesOnly(p) && IsNormal(p) && NoEmptySegment(p)
    ensures p == Plain(Flat(p))
  {
    assert |p| > 1 ==> Packable(p[0], p[1]);
    if p != [] {
      assert p == [p[0]] && p[1..] == [] && p[0].asns + [] == p[0].asns;
    }
  }

  lemma NormFixedHead(h: Path)
    requires h == [] || (|h| == 1 && h[0].kind.AsSequence?)
    ensures Norm(h) == h
    ensures HopCount(h) == if h == [] then 0 else |h[0].asns|
  {
    if h != [] { assert h[1..] == [] && h == [h[0]] + []; }
  }

  lemma NormOfHeadAndSet(h: Path, rest: seq<int>)
    requires h == [] || (|h| == 1 && h[0].kind.AsSequence?)
    ensures Norm(h + [Segment(AsSet, rest)]) == h + [Segment(AsSet, SortUniq(rest))]
    ensures HopCount(h + [Segment(AsSet, SortUniq(rest))]) == 1 + if h == [] then 0 else |h[0].asns|
  {
    var raw, sorted := Segment(AsSet, rest), Segment(AsSet, SortUniq(rest));
    NormStep(raw, []);
    assert [raw] + [] == [raw] && [sorted] + Norm([]) == [sorted];
    HopCountConcat(h, [sorted]);
    NormFixedHead(h);
    assert [sorted][1..] == [];
    if h == [] {
      assert h + [raw] == [raw] && h + [sorted] == [sorted];
    } else {
      NormStep(h[0], [raw]);
      assert h == [h[0]];
    }
  }

  // ----- the code

  /** Adds a number to the set collected so far unless it is already there. */
  method AsSetAdd(set_: seq<int>, asn: int) returns (r: seq<int>)
    ensures Elements(r) == Elements(set_) + {asn}
    ensures |r| <= |set_| + 1 && (asn in set_ ==> r == set_) && (asn !in set_ ==> r == set_ + [asn])
  {
    var i := 0;
    while i < |set_|
      invariant i <= |set_|
      invariant asn !in set_[..i]
    {
      if set_[i] == asn {
        return set_;
      }
      i := i + 1;
    }
    assert set_[..i] == set_;
    r := set_ + [asn];
  }

  method CollectSegment(asns: seq<int>, from: nat, start: seq<int>) returns (r: seq<int>)
    requires from <= |asns|
    ensures Elements(r) == Elements(start) + Elements(asns[from..])
  {
    r := start;
    var k := from;
    while k < |asns|
      invariant from <= k <= |asns|
      invariant Elements(r) == Elements(start) + Elements(asns[from..k])
    {
      r := AsSetAdd(r, asns[k]);
      assert asns[from..k + 1] == asns[from..k] + [asns[k]];
      ElementsConcat(asns[from..k], [asns[k]]);
      k := k + 1;
    }
    assert asns[from..k] == asns[from..];
  }

  /** Collects everything from position (i, from) of `p` on. */
  method CollectRest(p: Path, i: nat, from: nat, start: seq<int>) returns (r: seq<int>)
    requires i <= |p| && (i < |p| ==> from <= |p[i].asns|)
    ensures Elements(r) == Elements(start) + Elements(Tail(p, i, from))
  {
    r := start;
    var j: nat, f: nat := i, from;
    ghost var wanted, left := Elements(start) + Elements(Tail(p, i, from)), Elements(Tail(p, i, from));
    while j < |p|
      invariant j <= |p| && (j < |p| ==> f <= |p[j].asns|)
      invariant left == Elements(Tail(p, j, f))
      invariant Elements(r) + left == wanted
      decreases |p| - j
    {
      r := CollectSegment(p[j].asns, f, r);
      TailElements(p, j, f);
      left := Elements(Tail(p, j + 1, 0));
      j, f := j + 1, 0;
    }
  }

  function Tail(p: Path, i: nat, from: nat): seq<int>
    requires i <= |p| && (i < |p| ==> from <= |p[i].asns|)
  {
    if i == |p| then [] else p[i].asns[from..] + Flat(p[i + 1..])
  }

  lemma TailNext(p: Path, i: nat)
    requires i <= |p|
    ensures Tail(p, i, 0) == Flat(p[i..])
  {
    if i < |p| {
      assert p[i..][1..] == p[i + 1..];
      assert p[i].asns[0..] == p[i].asns;
    }
  }

  lemma TailElements(p: Path, i: nat, from: nat)
    requires i < |p| && from <= |p[i].asns|
    ensures Elements(Tail(p, i, from)) == Elements(p[i].asns[from..]) + Elements(Tail(p, i + 1, 0))
  {
    TailNext(p, i + 1);
    ElementsConcat(p[i].asns[from..], Flat(p[i + 1..]));
  }

  /** `Common` of the suffixes from segment `i` on, by position. */
  function CommonFrom(p: Path, q: Path, i: nat): Path
    requires i <= |p| && i <= |q|
    decreases |p| - i
  {
    if i == |p| || i == |q| || p[i].kind != q[i].kind then []
    else Head(p[i], q[i]) + if SameRun(p[i], q[i]) then CommonFrom(p, q, i + 1) else []
  }

  /** Where the first loop leaves off: the segment it stopped at, and the match length it
      carries on with.  `reset` says whether the length is cleared when a pair of segments
      agrees entirely; plain aggregation clears it, multipath aggregation does not. */
  function StopFrom(p: Path, q: Path, reset: bool, i: nat, covered: nat): (nat, nat)
    requires i <= |p| && i <= |q|
    decreases |p| - i
  {
    if i == |p| || i == |q| || p[i].kind != q[i].kind then (i, covered)
    else
      var k := Lcp(p[i].asns, q[i].asns);
      if SameRun(p[i], q[i]) then StopFrom(p, q, reset, i + 1, if reset then 0 else k) else (i, k)
  }

  lemma {:induction false} CommonFromSuffix(p: Path, q: Path, i: nat)
    requires i <= |p| && i <= |q|
    ensures CommonFrom(p, q, i) == Common(p[i..], q[i..])
    decreases |p| - i
  {
    if i < |p| && i < |q| {
      assert p[i..][1..] == p[i + 1..] && q[i..][1..] == q[i + 1..];
      CommonFromSuffix(p, q, i + 1);
    }
  }

  lemma {:induction false} RestFromStop(p: Path, q: Path, i: nat)
    requires i <= |p| && i <= |q|
    ensures var (j, k) := StopFrom(p, q, true, i, 0);
      i <= j <= |p| && j <= |q|
      && (j < |p| ==> k <= |p[j].asns|) && (j < |q| ==> k <= |q[j].asns|)
      && Rest(p[i..], q[i..]) == (Tail(p, j, k), Tail(q, j, k))
    decreases |p| - i
  {
    TailNext(p, i);
    TailNext(q, i);
    if i < |p| && i < |q| {
      assert p[i..][1..] == p[i + 1..] && q[i..][1..] == q[i + 1..];
      RestFromStop(p, q, i + 1);
    }
  }

  method CompareSegments(s: Segment, t: Segment) returns (matched: Path, covered: nat, same: bool)
    ensures matched == Head(s, t)
    ensures covered == Lcp(s.asns, t.asns)
    ensures same <==> SameRun(s, t)
  {
    covered := MatchLength(s.asns, t.asns);
    matched := if covered > 0 then [Segment(s.kind, s.asns[..covered])] else [];
    same := covered == |s.asns| && |s.asns| == |t.asns|;
  }

  /** The first loop: common leading segments, and where it stopped. */
  method CommonHead(p: Path, q: Path, reset: bool) returns (head: Path, i: nat, covered: nat)
    ensures head == CommonFrom(p, q, 0)
    ensures (i, covered) == StopFrom(p, q, reset, 0, 0)
  {
    hide Lcp, Head, SameRun;
    head, i, covered := [], 0, 0;
    ghost var later := CommonFrom(p, q, 0);
    while i < |p| && i < |q| && p[i].kind == q[i].kind
      invariant i <= |p| && i <= |q|
      invariant later == CommonFrom(p, q, i)
      invariant head + later == CommonFrom(p, q, 0)
      invariant StopFrom(p, q, reset, i, covered) == StopFrom(p, q, reset, 0, 0)
    {
      var matched, same;
      matched, covered, same := CompareSegments(p[i], q[i]);
      later := if same then CommonFrom(p, q, i + 1) else [];
      ConcatAssociates(head, matched, later);
      head := head + matched;
      if !same {
        return;
      }
      covered := if reset then 0 else covered;
      i := i + 1;
    }
    assert later == [];
  }

  /** The aggregate of two paths. */
  method Aggregate(p: Path, q: Path) returns (r: Path)
    ensures r == Aggregated(p, q)
  {
    var head, i, covered := CommonHead(p, q, true);
    CommonFromSuffix(p, q, 0);
    RestFromStop(p, q, 0);
    assert p[0..] == p && q[0..] == q;
    var asset := CollectRest(p, i, covered, []);
    asset := CollectRest(q, i, covered, asset);
    var (x, y) := Rest(p, q);
    ElementsConcat(x, y);
    NormSetTail(head, asset, x + y);
    r := Normalise(head + SetOfRest(asset));
  }

  // ----- aggregation for multipath, which keeps the path length

  function AddOne(set_: seq<int>, asn: int): seq<int> {
    if asn in set_ then set_ else set_ + [asn]
  }

  function AddAll(set_: seq<int>, asns: seq<int>): seq<int>
    decreases |asns|
  {
    if asns == [] then set_ else AddAll(AddOne(set_, asns[0]), asns[1..])
  }

  datatype Cursor = Cursor(seg: nat, from: nat)

  /** What one side contributes to a round: one number of a sequence, all that is left of
      any other segment.  None is a read past the end of the segment. */
  function Contribution(p: Path, c: Cursor): Option<seq<int>> {
    if c.seg >= |p| then Some([])
    else if p[c.seg].kind.AsSequence? then
      if c.from < |p[c.seg].asns| then Some([p[c.seg].asns[c.from]]) else None
    else Some(if c.from <= |p[c.seg].asns| then p[c.seg].asns[c.from..] else [])
  }

  function Advance(p: Path, c: Cursor): Cursor {
    if c.seg >= |p| then c
    else if p[c.seg].kind.AsSequence? && c.from + 1 < |p[c.seg].asns| then Cursor(c.seg, c.from + 1)
    else Cursor(c.seg + 1, 0)
  }

  function Left(p: Path, c: Cursor): nat {
    if c.seg < |p| && c.from < |p[c.seg].asns| then |p[c.seg].asns| - c.from else 0
  }

  function SegmentsLeft(p: Path, c: Cursor): nat {
    if c.seg < |p| then |p| - c.seg else 0
  }

  function RoundSegment(asset: seq<int>): Segment {
    Segment(if |asset| == 1 then AsSequence else AsSet, asset)
  }

  /** The second loop.  None is undefined behaviour: a read past a segment, or a round that
      collects nothing and then dereferences the missing set. */
  function Rounds(p: Path, c: Cursor, q: Path, d: Cursor): Option<Path>
    decreases SegmentsLeft(p, c) + SegmentsLeft(q, d), Left(p, c) + Left(q, d)
  {
    if c.seg >= |p| && d.seg >= |q| then Some([])
    else
      var x, y := Contribution(p, c), Contribution(q, d);
      if x.None? || y.None? then None
      else
        var asset := AddAll(AddAll([], x.value), y.value);
        if asset == [] then None
        else Join([RoundSegment(asset)], Rounds(p, Advance(p, c), q, Advance(q, d)))
  }

  function MpathAggregated(p: Path, q: Path): Option<Path> {
    var (i, covered) := StopFrom(p, q, false, 0, 0);
    match Rounds(p, Cursor(i, covered), q, Cursor(i, covered))
    case None => None
    case Some(tail) => Some(Norm(Common(p, q) + tail))
  }

  /** Item `i` of the multipath aggregate of two sequences. */
  ghost function ZipItem(a: seq<int>, b: seq<int>, i: nat): Item
    requires i < |a| || i < |b|
  {
    if i >= |a| then Hop(b[i])
    else if i >= |b| || a[i] == b[i] then Hop(a[i])
    else SetOf({a[i], b[i]})
  }

  ghost function Max(x: nat, y: nat): nat { if x < y then y else x }

  ghost function ZipFrom(a: seq<int>, b: seq<int>, k: nat): (r: seq<Item>)
    decreases Max(|a|, |b|) - k
    ensures |r| == if k < Max(|a|, |b|) then Max(|a|, |b|) - k else 0
    ensures forall i :: 0 <= i < |r| ==> r[i] == ZipItem(a, b, k + i)
  {
    if k >= Max(|a|, |b|) then [] else [ZipItem(a, b, k)] + ZipFrom(a, b, k + 1)
  }

  function At1(a: seq<int>, k: nat): Cursor {
    if k < |a| then Cursor(0, k) else Cursor(1, 0)
  }

  lemma {:induction false} RoundsOfSequences(a: seq<int>, b: seq<int>, k: nat)
    requires a != [] && b != []
    ensures var p, q := [Segment(AsSequence, a)], [Segment(AsSequence, b)];
      var r := Rounds(p, At1(a, k), q, At1(b, k));
      r.Some? && Meaning(r.value) == ZipFrom(a, b, k)
    decreases Max(|a|, |b|) - k
  {
    var p, q := [Segment(AsSequence, a)], [Segment(AsSequence, b)];
    if k < Max(|a|, |b|) {
      RoundsOfSequences(a, b, k + 1);
      assert Advance(p, At1(a, k)) == At1(a, k + 1);
      assert Advance(q, At1(b, k)) == At1(b, k + 1);
      RoundItem(a, b, k);
      var x, y := Contribution(p, At1(a, k)).value, Contribution(q, At1(b, k)).value;
      var seg := RoundSegment(AddAll(AddAll([], x), y));
      var rest := Rounds(p, At1(a, k + 1), q, At1(b, k + 1)).value;
      assert ([seg] + rest)[1..] == rest;
    }
  }

  lemma RoundItem(a: seq<int>, b: seq<int>, k: nat)
    requires a != [] && b != [] && k < Max(|a|, |b|)
    ensures var p, q := [Segment(AsSequence, a)], [Segment(AsSequence, b)];
      var x, y := Contribution(p, At1(a, k)), Contribution(q, At1(b, k));
      x.Some? && y.Some?
      && AddAll(AddAll([], x.value), y.value) != []
      && SegmentMeaning(RoundSegment(AddAll(AddAll([], x.value), y.value))) == [ZipItem(a, b, k)]
  {
    var x: seq<int> := if k < |a| then [a[k]] else [];
    var y: seq<int> := if k < |b| then [b[k]] else [];
    assert AddAll([], x) == x by { if k < |a| { assert x[1..] == [] && AddOne([], a[k]) == [a[k]]; } }
    if k < |b| {
      assert y[1..] == [];
      assert AddAll(x, y) == AddOne(x, b[k]);
      if k < |a| && a[k] != b[k] {
        assert AddOne(x, b[k]) == [a[k], b[k]];
        assert Elements([a[k], b[k]]) == {a[k], b[k]};
      }
    }
  }

  ghost predicate ProperPrefix(a: seq<int>, b: seq<int>) {
    |a| < |b| && a == b[..|a|]
  }

  lemma LcpIsPrefix(a: seq<int>, b: seq<int>)
    ensures Lcp(a, b) == |a| < |b| <==> ProperPrefix(a, b)
  {
    if ProperPrefix(a, b) {
      assert a[..|a|] == a;
      LcpUnique(a, b, |a|);
    }
    assert a[..|a|] == a;
  }

  /** Two plain sequences: position i of the result is the common number or the set of both,
      so the length of the longer one is kept.  The code is defined exactly when neither
      sequence is a proper prefix of the other. */
  lemma MpathSequences(a: seq<int>, b: seq<int>)
    requires a != [] && b != []
    ensures var r := MpathAggregated([Segment(AsSequence, a)], [Segment(AsSequence, b)]);
      (r.Some? <==> !ProperPrefix(a, b) && !ProperPrefix(b, a))
      && (r.Some? ==> Meaning(r.value) == ZipFrom(a, b, 0) && HopCount(r.value) == Max(|a|, |b|))
  {
    var s, t := Segment(AsSequence, a), Segment(AsSequence, b);
    var p, q := [s], [t];
    var k := Lcp(a, b);
    SingleSplit(s, t);
    LcpIsPrefix(a, b);
    LcpIsPrefix(b, a);
    LcpCommutes(a, b);
    if SameRun(s, t) {
      assert StopFrom(p, q, false, 0, 0) == (1, k);
      assert Rounds(p, Cursor(1, k), q, Cursor(1, k)) == Some([]);
      MpathMeaning(a, b, []);
    } else {
      assert StopFrom(p, q, false, 0, 0) == (0, k);
      if k < |a| && k < |b| {
        RoundsOfSequences(a, b, k);
        MpathMeaning(a, b, Rounds(p, Cursor(0, k), q, Cursor(0, k)).value);
      }
    }
  }

  lemma MpathMeaning(a: seq<int>, b: seq<int>, tail: Path)
    requires a != [] && b != [] && Meaning(tail) == ZipFrom(a, b, Lcp(a, b))
    ensures var r := Norm(Head(Segment(AsSequence, a), Segment(AsSequence, b)) + tail);
      Meaning(r) == ZipFrom(a, b, 0) && HopCount(r) == Max(|a|, |b|)
  {
    var k := Lcp(a, b);
    var head := Head(Segment(AsSequence, a), Segment(AsSequence, b));
    var r := Norm(head + tail);
    NormMeaning(head + tail);
    MeaningConcat(head, tail);
    assert Meaning(head) == Hops(a[..k]) by {
      if head != [] { assert head[1..] == [] && Hops(a[..k]) + [] == Hops(a[..k]); }
    }
    ZipCommon(a, b);
    HopCountIsMeaning(r);
    ZipHops(ZipFrom(a, b, 0));
  }

  lemma ZipCommon(a: seq<int>, b: seq<int>)
    ensures Hops(a[..Lcp(a, b)]) + ZipFrom(a, b, Lcp(a, b)) == ZipFrom(a, b, 0)
  {
    var k := Lcp(a, b);
    assert forall i :: 0 <= i < k ==> a[i] == a[..k][i] == b[..k][i] == b[i];
    var z, w := ZipFrom(a, b, 0), Hops(a[..k]) + ZipFrom(a, b, k);
    forall i | 0 <= i < |z| ensures z[i] == w[i] {
      if i >= k { assert w[i] == ZipFrom(a, b, k)[i - k]; }
    }
  }

  lemma {:induction false} ZipHops(m: seq<Item>)
    requires forall i :: 0 <= i < |m| ==> m[i].Hop? || m[i].SetOf?
    ensures ItemHops(m) == |m|
  {
    if m != [] { ZipHops(m[1..]); }
  }

  /** Paths of equal hop count are not enough: here the first sequence of one path is a proper
      prefix of the other's, and the code reads past its end. */
  lemma MpathReadsPastEnd()
    ensures var p, q := [Segment(AsSequence, [1, 2])], [Segment(AsSequence, [1]), Segment(AsSet, [3, 4])];
      HopCount(p) == HopCount(q) && MpathAggregated(p, q) == None
  {
    var p, q := [Segment(AsSequence, [1, 2])], [Segment(AsSequence, [1]), Segment(AsSet, [3, 4])];
    assert p[1..] == [] && q[1..] == [Segment(AsSet, [3, 4])] && q[1..][1..] == [];
    LcpUnique([1, 2], [1], 1);
    assert StopFrom(p, q, false, 0, 0) == (0, 1);
    assert Contribution(q, Cursor(0, 1)) == None;
  }

  /** The multipath aggregate, round by round. */
  method AggregateMpath(p: Path, q: Path) returns (r: Option<Path>)
    ensures r == MpathAggregated(p, q)
  {
    var head, i, covered := CommonHead(p, q, false);
    CommonFromSuffix(p, q, 0);
    assert p[0..] == p && q[0..] == q;
    var tail := RunRounds(p, Cursor(i, covered), q, Cursor(i, covered));
    if tail.None? {
      return None;
    }
    var norm := Normalise(head + tail.value);
    r := Some(norm);
  }

  /** The second loop. */
  method RunRounds(p: Path, c0: Cursor, q: Path, d0: Cursor) returns (r: Option<Path>)
    ensures r == Rounds(p, c0, q, d0)
  {
    var c, d := c0, d0;
    var tail: Path := [];
    ghost var all := Rounds(p, c, q, d);
    assert all.Some? ==> tail + all.value == all.value;
    while c.seg < |p| || d.seg < |q|
      invariant all == Join(tail, Rounds(p, c, q, d))
      decreases SegmentsLeft(p, c) + SegmentsLeft(q, d), Left(p, c) + Left(q, d)
    {
      var x, y := Contribution(p, c), Contribution(q, d);
      if x.None? || y.None? {
        return None;
      }
      var asset := AddAll(AddAll([], x.value), y.value);
      if asset == [] {
        return None;
      }
      JoinAssociates(tail, [RoundSegment(asset)], Rounds(p, Advance(p, c), q, Advance(q, d)));
      tail := tail + [RoundSegment(asset)];
      c, d := Advance(p, c), Advance(q, d);
    }
    assert tail + [] == tail;
    r := Some(tail);
  }
}
