/** Multipath aggregation of arbitrary paths: when it is defined, what it keeps and how long the
    result is. */
module AsPathMpath {
  import opened AsPath
  import opened AsPathWire
  import opened AsPathAggregate
  import opened AsPathAs4
  import opened Options
  import opened Ordering

  // ----- when the code is defined

  /** The cursor is past the path, or at a number. */
  predicate Ready(p: Path, c: Cursor) {
    c.seg >= |p| || c.from < |p[c.seg].asns|
  }

  lemma AdvanceReady(p: Path, c: Cursor)
    requires NoEmptySegment(p)
    ensures Ready(p, Advance(p, c))
  {
  }

  lemma {:induction false} AddAllAdds(set_: seq<int>, asns: seq<int>)
    ensures Elements(AddAll(set_, asns)) == Elements(set_) + Elements(asns)
    decreases |asns|
  {
    if asns != [] {
      AddAllAdds(AddOne(set_, asns[0]), asns[1..]);
      assert asns == [asns[0]] + asns[1..];
      assert Elements(AddOne(set_, asns[0])) == Elements(set_) + {asns[0]};
    }
  }

  lemma RoundIsEmpty(x: seq<int>, y: seq<int>)
    ensures Elements(AddAll(AddAll([], x), y)) == Elements(x) + Elements(y)
    ensures AddAll(AddAll([], x), y) == [] <==> x == [] && y == []
  {
    AddAllAdds([], x);
    AddAllAdds(AddAll([], x), y);
    var r := AddAll(AddAll([], x), y);
    if r != [] { assert r[0] in Elements(r); }
    if x != [] { assert x[0] in Elements(r); }
    if y != [] { assert y[0] in Elements(r); }
  }

  /** From cursors at numbers every round is defined. */
  lemma {:induction false} ReadyRuns(p: Path, c: Cursor, q: Path, d: Cursor)
    requires NoEmptySegment(p) && NoEmptySegment(q) && Ready(p, c) && Ready(q, d)
    ensures Rounds(p, c, q, d).Some?
    decreases SegmentsLeft(p, c) + SegmentsLeft(q, d), Left(p, c) + Left(q, d)
  {
    if c.seg < |p| || d.seg < |q| {
      AdvanceReady(p, c);
      AdvanceReady(q, d);
      var x, y := Contribution(p, c), Contribution(q, d);
      RoundIsEmpty(x.value, y.value);
      ReadyRuns(p, Advance(p, c), q, Advance(q, d));
    }
  }

  /** The first read of the second loop stays within the segment. */
  predicate Readable(p: Path, i: nat, k: nat) {
    i < |p| && p[i].kind.AsSequence? ==> k < |p[i].asns|
  }

  /** The first round finds a number. */
  predicate Finds(p: Path, i: nat, k: nat) {
    i < |p| && k < |p[i].asns|
  }

  /** The code is defined on two paths of non-empty segments exactly if both agree to the end, or
      the first round reads within both segments and finds a number. */
  lemma MpathDefined(p: Path, q: Path)
    requires NoEmptySegment(p) && NoEmptySegment(q)
    ensures var (i, k) := StopFrom(p, q, false, 0, 0);
      MpathAggregated(p, q).Some? <==>
      (i >= |p| && i >= |q|) || (Readable(p, i, k) && Readable(q, i, k) && (Finds(p, i, k) || Finds(q, i, k)))
  {
    var (i, k) := StopFrom(p, q, false, 0, 0);
    var c := Cursor(i, k);
    if i < |p| || i < |q| {
      var x, y := Contribution(p, c), Contribution(q, c);
      if x.Some? && y.Some? {
        RoundIsEmpty(x.value, y.value);
        AdvanceReady(p, c);
        AdvanceReady(q, c);
        ReadyRuns(p, Advance(p, c), q, Advance(q, c));
      }
    }
  }

  // ----- which AS numbers it keeps

  /** What the second loop goes through from a cursor on. */
  function Ahead(p: Path, c: Cursor): seq<int> {
    if c.seg >= |p| then []
    else (if c.from <= |p[c.seg].asns| then p[c.seg].asns[c.from..] else []) + Flat(p[c.seg + 1..])
  }

  /** What it passes over: the numbers of the segment it starts in before the cursor. */
  function Passed(p: Path, c: Cursor): seq<int> {
    if c.seg >= |p| then []
    else if c.from <= |p[c.seg].asns| then p[c.seg].asns[..c.from] else p[c.seg].asns
  }

  lemma ContributionAndRest(p: Path, c: Cursor)
    requires Contribution(p, c).Some?
    ensures Elements(Ahead(p, c)) == Elements(Contribution(p, c).value) + Elements(Ahead(p, Advance(p, c)))
  {
    if c.seg < |p| {
      var asns := p[c.seg].asns;
      var later := Flat(p[c.seg + 1..]);
      if c.seg + 1 < |p| { assert p[c.seg + 1..][0] == p[c.seg + 1] && p[c.seg + 1..][1..] == p[c.seg + 2..]; }
      assert Ahead(p, Cursor(c.seg + 1, 0)) == later by {
        if c.seg + 1 < |p| { assert p[c.seg + 1].asns[0..] == p[c.seg + 1].asns; }
      }
      if p[c.seg].kind.AsSequence? {
        assert asns[c.from..] == [asns[c.from]] + asns[c.from + 1..];
        Associate([asns[c.from]], asns[c.from + 1..], later);
        ElementsConcat([asns[c.from]], asns[c.from + 1..] + later);
        if c.from + 1 == |asns| { assert asns[c.from + 1..] + later == later; }
      } else {
        ElementsConcat(Contribution(p, c).value, later);
      }
    }
  }

  lemma {:induction false} RoundsKeep(p: Path, c: Cursor, q: Path, d: Cursor)
    ensures var r := Rounds(p, c, q, d);
      r.Some? ==> AsnSet(r.value) == Elements(Ahead(p, c)) + Elements(Ahead(q, d))
    decreases SegmentsLeft(p, c) + SegmentsLeft(q, d), Left(p, c) + Left(q, d)
  {
    if (c.seg < |p| || d.seg < |q|) && Rounds(p, c, q, d).Some? {
      var x, y := Contribution(p, c).value, Contribution(q, d).value;
      ContributionAndRest(p, c);
      ContributionAndRest(q, d);
      RoundIsEmpty(x, y);
      RoundsKeep(p, Advance(p, c), q, Advance(q, d));
      var seg := RoundSegment(AddAll(AddAll([], x), y));
      AsnSetSingle(seg);
      AsnSetConcat([seg], Rounds(p, Advance(p, c), q, Advance(q, d)).value);
    }
  }

  /** The result holds the numbers of the common head and of what follows the cursor. */
  lemma MpathKeeps(p: Path, q: Path)
    requires MpathAggregated(p, q).Some?
    ensures var (i, k) := StopFrom(p, q, false, 0, 0);
      AsnSet(MpathAggregated(p, q).value)
        == AsnSet(Common(p, q)) + Elements(Ahead(p, Cursor(i, k))) + Elements(Ahead(q, Cursor(i, k)))
  {
    var (i, k) := StopFrom(p, q, false, 0, 0);
    var c := Cursor(i, k);
    RoundsKeep(p, c, q, c);
    var tail := Rounds(p, c, q, c).value;
    NormKeepsAsns(Common(p, q) + tail);
    AsnSetConcat(Common(p, q), tail);
  }

  /** The first loop stopped at a pair it compared, not at segments it has not looked into. */
  predicate Compared(p: Path, q: Path, i: nat) {
    i < |p| && i < |q| && p[i].kind == q[i].kind
  }

  lemma {:induction false} StopsAlike(p: Path, q: Path, i: nat, covered: nat)
    requires i <= |p| && i <= |q|
    ensures var (j, k) := StopFrom(p, q, false, i, covered);
      && StopFrom(p, q, true, i, 0) == (j, if Compared(p, q, j) then k else 0)
      && i <= j <= |p| && j <= |q|
      && (Compared(p, q, j) ==> k == Lcp(p[j].asns, q[j].asns) && !SameRun(p[j], q[j]))
    decreases |p| - i
  {
    if i < |p| && i < |q| && p[i].kind == q[i].kind && SameRun(p[i], q[i]) {
      StopsAlike(p, q, i + 1, Lcp(p[i].asns, q[i].asns));
    }
  }

  lemma SplitElements(asns: seq<int>, k: nat, later: seq<int>)
    ensures Elements(asns + later) ==
      Elements(if k <= |asns| then asns[..k] else asns) + Elements((if k <= |asns| then asns[k..] else []) + later)
  {
    if k <= |asns| {
      assert asns == asns[..k] + asns[k..];
      Associate(asns[..k], asns[k..], later);
      ElementsConcat(asns[..k], asns[k..] + later);
    } else {
      assert [] + later == later;
      ElementsConcat(asns, later);
    }
  }

  lemma PassedAndAhead(p: Path, i: nat, k: nat)
    requires i <= |p|
    ensures Elements(Tail(p, i, 0)) == Elements(Passed(p, Cursor(i, k))) + Elements(Ahead(p, Cursor(i, k)))
  {
    hide Elements, Flat;
    if i < |p| {
      var asns, later := p[i].asns, Flat(p[i + 1..]);
      SplitElements(asns, k, later);
      assert asns[0..] == asns;
      assert Tail(p, i, 0) == asns + later;
    } else {
      var none: set<int> := Elements([]);
      assert none + none == none;
    }
  }

  /** The AS numbers of both paths are kept exactly if the first loop stopped at a pair it
      compared, or every number it passed over stands elsewhere as well. */
  lemma MpathUnion(p: Path, q: Path)
    requires MpathAggregated(p, q).Some?
    ensures var (i, k) := StopFrom(p, q, false, 0, 0);
      var c := Cursor(i, k);
      AsnSet(MpathAggregated(p, q).value) == AsnSet(p) + AsnSet(q) <==>
      Compared(p, q, i)
      || Elements(Passed(p, c)) + Elements(Passed(q, c))
         <= AsnSet(Common(p, q)) + Elements(Ahead(p, c)) + Elements(Ahead(q, c))
  {
    var (i, k) := StopFrom(p, q, false, 0, 0);
    var c := Cursor(i, k);
    MpathKeeps(p, q);
    SidesSplit(p, q);
    hide StopFrom, Common, MpathAggregated, AsnSet, Elements, Passed, Ahead;
    SetsAgree(AsnSet(Common(p, q)), Elements(Passed(p, c)), Elements(Ahead(p, c)),
              Elements(Passed(q, c)), Elements(Ahead(q, c)));
  }

  lemma SetsAgree(c: set<int>, a: set<int>, b: set<int>, x: set<int>, y: set<int>)
    ensures c + b + y == (c + (a + b)) + (c + (x + y)) <==> a + x <= c + b + y
    ensures (c + b) + (c + y) == c + b + y
  {
  }

  /** Either path is the common head, what is passed over and what follows. */
  lemma SidesSplit(p: Path, q: Path)
    ensures var (i, k) := StopFrom(p, q, false, 0, 0);
      var c := Cursor(i, k);
      var head, x, y := AsnSet(Common(p, q)), Elements(Ahead(p, c)), Elements(Ahead(q, c));
      if Compared(p, q, i) then AsnSet(p) == head + x && AsnSet(q) == head + y
      else AsnSet(p) == head + (Elements(Passed(p, c)) + x) && AsnSet(q) == head + (Elements(Passed(q, c)) + y)
  {
    var (i, k) := StopFrom(p, q, false, 0, 0);
    StopsAlike(p, q, 0, 0);
    RestFromStop(p, q, 0);
    SplitKeepsAsns(p, q);
    SplitKeepsAsns(q, p);
    CommonCommutes(p, q);
    assert p[0..] == p && q[0..] == q;
    hide StopFrom, Common, AsnSet, Elements, Rest, Lcp, SameRun, Flat;
    if !Compared(p, q, i) {
      PassedAndAhead(p, i, k);
      PassedAndAhead(q, i, k);
    }
  }

  /** The match count carried over from a pair that agreed makes the code pass over the first
      number of a set it never compared. */
  lemma MpathLosesNumber()
    ensures var p, q := [Segment(AsSequence, [1])], [Segment(AsSequence, [1]), Segment(AsSet, [5, 6])];
      var r := MpathAggregated(p, q);
      r.Some? && 5 in AsnSet(q) && 5 !in AsnSet(r.value)
  {
    var p, q := [Segment(AsSequence, [1])], [Segment(AsSequence, [1]), Segment(AsSet, [5, 6])];
    LcpUnique([1], [1], 1);
    assert StopFrom(p, q, false, 0, 0) == (1, 1);
    MpathDefined(p, q);
    MpathKeeps(p, q);
    assert p[1..] == [] && Common(p[1..], q[1..]) == [];
    assert Common(p, q) == Head(p[0], q[0]) + [] == [Segment(AsSequence, [1][..1])];
    AsnSetSingle(Segment(AsSequence, [1][..1]));
    assert q[2..] == [] && Ahead(q, Cursor(1, 1)) == [6] && Ahead(p, Cursor(1, 1)) == [];
    assert 5 in q[1].asns;
  }

  // ----- how long the result is

  /** How many rounds one side takes part in. */
  function RoundsLeft(p: Path, c: Cursor): nat
    decreases SegmentsLeft(p, c), Left(p, c)
  {
    if c.seg >= |p| then 0 else 1 + RoundsLeft(p, Advance(p, c))
  }

  lemma {:induction false} RoundsHops(p: Path, c: Cursor, q: Path, d: Cursor)
    ensures var r := Rounds(p, c, q, d); r.Some? ==> HopCount(r.value) == Max(RoundsLeft(p, c), RoundsLeft(q, d))
    decreases SegmentsLeft(p, c) + SegmentsLeft(q, d), Left(p, c) + Left(q, d)
  {
    if (c.seg < |p| || d.seg < |q|) && Rounds(p, c, q, d).Some? {
      var x, y := Contribution(p, c).value, Contribution(q, d).value;
      var rest := Rounds(p, Advance(p, c), q, Advance(q, d)).value;
      RoundsHops(p, Advance(p, c), q, Advance(q, d));
      var seg := RoundSegment(AddAll(AddAll([], x), y));
      assert SegmentHops(seg) == 1;
      hide Contribution, AddAll, Rounds;
      assert ([seg] + rest)[1..] == rest;
    }
  }

  /** Every round adds one hop to the common head. */
  lemma MpathHops(p: Path, q: Path)
    requires MpathAggregated(p, q).Some?
    ensures var (i, k) := StopFrom(p, q, false, 0, 0);
      HopCount(MpathAggregated(p, q).value)
        == HopCount(Common(p, q)) + Max(RoundsLeft(p, Cursor(i, k)), RoundsLeft(q, Cursor(i, k)))
  {
    var (i, k) := StopFrom(p, q, false, 0, 0);
    var c := Cursor(i, k);
    RoundsHops(p, c, q, c);
    var tail := Rounds(p, c, q, c).value;
    NormKeepsHops(Common(p, q) + tail);
    HopCountConcat(Common(p, q), tail);
  }

  function SkippedHops(p: Path, i: nat, k: nat): nat { if i < |p| && p[i].kind.AsSequence? then k else 0 }

  /** Without confederation segments the rounds of one side are the hops that follow the cursor. */
  lemma {:induction false} RoundsAreHops(p: Path, i: nat, k: nat)
    requires i <= |p| && NoEmptySegment(p) && ConfedFree(p) && Readable(p, i, k)
    ensures RoundsLeft(p, Cursor(i, k)) == HopCount(p[i..]) - SkippedHops(p, i, k)
    decreases |p| - i, if i < |p| then |p[i].asns| - k else 0
  {
    if i < |p| {
      assert p[i..][0] == p[i] && p[i..][1..] == p[i + 1..] && !IsConfedKind(p[i].kind);
      if p[i].kind.AsSequence? && k + 1 < |p[i].asns| {
        RoundsAreHops(p, i, k + 1);
      } else {
        RoundsAreHops(p, i + 1, 0);
      }
    }
  }

  lemma StopStep(p: Path, q: Path, i: nat, covered: nat)
    requires i < |p| && i < |q| && p[i].kind == q[i].kind && SameRun(p[i], q[i]) && p[i].asns != []
    ensures StopFrom(p, q, false, i, covered) == StopFrom(p, q, false, i + 1, |p[i].asns|)
    ensures CommonFrom(p, q, i) == [p[i]] + CommonFrom(p, q, i + 1) && p[i] == q[i]
  {
    SameRunAgrees(p[i], q[i]);
    assert Head(p[i], q[i]) == [p[i]];
  }

  /** The common head by position. */
  lemma {:induction false} CommonByPosition(p: Path, q: Path, i: nat, covered: nat)
    requires i <= |p| && i <= |q| && NoEmptySegment(p) && NoEmptySegment(q)
    ensures var (j, k) := StopFrom(p, q, false, i, covered);
      && i <= j <= |p| && j <= |q| && p[i..j] == q[i..j]
      && CommonFrom(p, q, i) == p[i..j] + if Compared(p, q, j) then Head(p[j], q[j]) else []
    decreases |p| - i
  {
    hide Lcp, Head;
    if Compared(p, q, i) && SameRun(p[i], q[i]) {
      StopStep(p, q, i, covered);
      hide StopFrom, CommonFrom, SameRun;
      CommonByPosition(p, q, i + 1, |p[i].asns|);
      var j := StopFrom(p, q, false, i, covered).0;
      assert p[i..j] == [p[i]] + p[i + 1..j] && q[i..j] == [q[i]] + q[i + 1..j];
      var more := if Compared(p, q, j) then Head(p[j], q[j]) else [];
      assert [p[i]] + (p[i + 1..j] + more) == ([p[i]] + p[i + 1..j]) + more;
    } else {
      assert p[i..i] == [] && q[i..i] == [];
      if Compared(p, q, i) { assert Head(p[i], q[i]) + [] == Head(p[i], q[i]); }
    }
  }

  ghost function Longer(p: Path, q: Path): int { if HopCount(p) >= HopCount(q) then HopCount(p) else HopCount(q) }

  /** The result is as long as the longer path: at a compared pair, unless two sets share their
      first numbers; elsewhere, unless the match count of the pair before is carried into the
      longer path and shortens it. */
  predicate KeepsLength(p: Path, q: Path, i: nat, k: nat) {
    k == 0 ||
    if Compared(p, q, i) then p[i].kind.AsSequence?
    else
      && (i < |p| && p[i].kind.AsSequence? ==> HopCount(p) <= HopCount(q))
      && (i < |q| && q[i].kind.AsSequence? ==> HopCount(q) <= HopCount(p))
  }

  lemma MpathLength(p: Path, q: Path)
    requires NoEmptySegment(p) && NoEmptySegment(q) && ConfedFree(p) && ConfedFree(q)
    requires MpathAggregated(p, q).Some?
    ensures var (i, k) := StopFrom(p, q, false, 0, 0);
      HopCount(MpathAggregated(p, q).value) == Longer(p, q) <==> KeepsLength(p, q, i, k)
  {
    var (i, k) := StopFrom(p, q, false, 0, 0);
    MpathHops(p, q);
    MpathDefined(p, q);
    StopsAlike(p, q, 0, 0);
    CommonHops(p, q);
    hide StopFrom, MpathAggregated, Common, SameRun, Lcp, HopCount;
    RoundsAreHops(p, i, k);
    RoundsAreHops(q, i, k);
    HopsAfterStop(p, i);
    HopsAfterStop(q, i);
  }

  /** The hops of either path and of the common head, split where the first loop stopped. */
  lemma CommonHops(p: Path, q: Path)
    requires NoEmptySegment(p) && NoEmptySegment(q) && ConfedFree(p) && ConfedFree(q)
    ensures var (i, k) := StopFrom(p, q, false, 0, 0);
      && i <= |p| && i <= |q|
      && HopCount(p) == HopCount(p[..i]) + HopCount(p[i..]) && HopCount(q) == HopCount(p[..i]) + HopCount(q[i..])
      && HopCount(Common(p, q)) == HopCount(p[..i])
           + if !Compared(p, q, i) || k == 0 then 0 else if p[i].kind.AsSequence? then k else 1
  {
    var (i, k) := StopFrom(p, q, false, 0, 0);
    CommonByPosition(p, q, 0, 0);
    CommonFromSuffix(p, q, 0);
    StopsAlike(p, q, 0, 0);
    HopsSplit(p, i);
    HopsSplit(q, i);
    hide StopFrom, Common, CommonFrom, SameRun, HopCount, Lcp;
    assert p[0..] == p && q[0..] == q && p[0..i] == p[..i] && q[0..i] == q[..i];
    if Compared(p, q, i) {
      assert !IsConfedKind(p[i].kind);
      HopCountConcat(p[..i], Head(p[i], q[i]));
      HeadHops(p[i], q[i]);
    } else {
      assert p[..i] + [] == p[..i];
    }
  }

  lemma HopsSplit(p: Path, i: nat)
    requires i <= |p|
    ensures HopCount(p) == HopCount(p[..i]) + HopCount(p[i..])
  {
    assert p == p[..i] + p[i..];
    HopCountConcat(p[..i], p[i..]);
  }

  lemma HopsAfterStop(p: Path, i: nat)
    requires i <= |p|
    ensures HopCount(p[i..]) >= 0
    ensures i < |p| && p[i].kind.AsSequence? ==> HopCount(p[i..]) >= |p[i].asns|
    decreases |p| - i
  {
    if i < |p| {
      assert p[i..][0] == p[i] && p[i..][1..] == p[i + 1..];
      HopsAfterStop(p, i + 1);
    }
  }

  lemma HeadHops(s: Segment, t: Segment)
    requires !IsConfedKind(s.kind)
    ensures var k := Lcp(s.asns, t.asns);
      HopCount(Head(s, t)) == if s.kind.AsSequence? then k else if k > 0 then 1 else 0
  {
    var h := Head(s, t);
    if h != [] { assert h[1..] == []; }
  }

  /** The carried match count shortens the longer path. */
  lemma MpathShortens()
    ensures var p, q := [Segment(AsSet, [1])], [Segment(AsSet, [1]), Segment(AsSequence, [2, 3])];
      var r := MpathAggregated(p, q);
      r.Some? && HopCount(q) == 3 && HopCount(r.value) != Longer(p, q)
  {
    var p, q := [Segment(AsSet, [1])], [Segment(AsSet, [1]), Segment(AsSequence, [2, 3])];
    LcpUnique([1], [1], 1);
    assert StopFrom(p, q, false, 0, 0) == (1, 1);
    MpathDefined(p, q);
    assert p[1..] == [] && q[1..] == [Segment(AsSequence, [2, 3])] && q[1..][1..] == [];
    MpathLength(p, q);
  }
}
