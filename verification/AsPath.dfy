/** AS paths as chains of segments: normalisation, comparison, hop and loop counts. */
module AsPath {
  import opened Ordering
  import opened Wire

  datatype SegKind = AsSet | AsSequence | ConfedSequence | ConfedSet

  datatype Segment = Segment(kind: SegKind, asns: seq<int>)

  type Path = seq<Segment>

  /** All AS numbers fit in 32 bits. */
  ghost predicate InRange(p: Path) {
    forall i :: 0 <= i < |p| ==> AllU32(p[i].asns)
  }

  predicate IsSetKind(k: SegKind) {
    k.AsSet? || k.ConfedSet?
  }

  /** Only plain sequences are merged with their neighbour. */
  predicate Packable(a: Segment, b: Segment) {
    a.kind.AsSequence? && b.kind.AsSequence?
  }

  // ----- the specification of normalisation

  function SortSegment(s: Segment): (r: Segment) {
    if IsSetKind(s.kind) then s.(asns := SortUniq(s.asns)) else s
  }

  function Attach(s: Segment, rest: Path): (r: Path) {
    if rest != [] && Packable(s, rest[0])
    then [Segment(AsSequence, s.asns + rest[0].asns)] + rest[1..]
    else [s] + rest
  }

  function Norm(p: Path): (r: Path) {
    if p == [] then [] else Attach(SortSegment(p[0]), Norm(p[1..]))
  }

  // ----- the meaning of a path, independent of how it is cut into segments

  datatype Item =
    | Hop(asn: int)
    | SetOf(members: set<int>)
    | ConfedSetOf(members: set<int>)
    | ConfedRun(asns: seq<int>)

  ghost function Hops(asns: seq<int>): (r: seq<Item>)
    ensures |r| == |asns|
    ensures forall i :: 0 <= i < |asns| ==> r[i] == Hop(asns[i])
  {
    seq(|asns|, i requires 0 <= i < |asns| => Hop(asns[i]))
  }

  ghost function SegmentMeaning(s: Segment): seq<Item> {
    match s.kind
    case AsSequence => Hops(s.asns)
    case AsSet => [SetOf(Elements(s.asns))]
    case ConfedSet => [ConfedSetOf(Elements(s.asns))]
    case ConfedSequence => [ConfedRun(s.asns)]
  }

  ghost function Meaning(p: Path): seq<Item> {
    if p == [] then [] else SegmentMeaning(p[0]) + Meaning(p[1..])
  }

  ghost predicate NoEmptySequence(p: Path) {
    forall i :: 0 <= i < |p| ==> p[i].kind.AsSequence? ==> p[i].asns != []
  }

  ghost function Listing(m: set<int>): (s: seq<int>)
    ensures Lists(s, m)
  {
    SetHasListing(m);
    var s :| Lists(s, m);
    s
  }

  lemma {:induction false} SetHasListing(m: set<int>)
    ensures exists s :: Lists(s, m)
  {
    var s := SomeOrder(m);
    SortUniqLists(s);
  }

  lemma SomeOrder(m: set<int>) returns (s: seq<int>)
    ensures Elements(s) == m
    decreases |m|
  {
    if x :| x in m {
      var rest := SomeOrder(m - {x});
      s := [x] + rest;
      assert Elements(s) == {x} + Elements(rest);
    } else {
      s := [];
      assert forall x :: x !in m;
    }
  }

  /** The one normal path with a given meaning. */
  ghost function Rebuild(m: seq<Item>): Path {
    if m == [] then []
    else match m[0]
      case Hop(a) => Attach(Segment(AsSequence, [a]), Rebuild(m[1..]))
      case SetOf(s) => [Segment(AsSet, Listing(s))] + Rebuild(m[1..])
      case ConfedSetOf(s) => [Segment(ConfedSet, Listing(s))] + Rebuild(m[1..])
      case ConfedRun(asns) => [Segment(ConfedSequence, asns)] + Rebuild(m[1..])
  }

  lemma {:induction false} MeaningConcat(p: Path, q: Path)
    ensures Meaning(p + q) == Meaning(p) + Meaning(q)
  {
    if p == [] {
      assert p + q == q;
    } else {
      assert (p + q)[1..] == p[1..] + q;
      MeaningConcat(p[1..], q);
    }
  }

  lemma AttachMeaning(s: Segment, rest: Path)
    ensures Meaning(Attach(s, rest)) == SegmentMeaning(s) + Meaning(rest)
  {
    if rest != [] && Packable(s, rest[0]) {
      assert Hops(s.asns + rest[0].asns) == Hops(s.asns) + Hops(rest[0].asns);
    } else {
      assert ([s] + rest)[1..] == rest;
    }
  }

  /** Normalising never changes what a path means. */
  lemma {:induction false} NormMeaning(p: Path)
    ensures Meaning(Norm(p)) == Meaning(p)
  {
    if p != [] {
      NormMeaning(p[1..]);
      AttachMeaning(SortSegment(p[0]), Norm(p[1..]));
      SortUniqLists(p[0].asns);
    }
  }

  lemma {:induction false} RebuildHops(asns: seq<int>, m: seq<Item>)
    requires asns != []
    ensures Rebuild(Hops(asns) + m) == Attach(Segment(AsSequence, asns), Rebuild(m))
  {
    var all := Hops(asns) + m;
    if |asns| == 1 {
      assert all[1..] == m;
      assert asns == [asns[0]];
    } else {
      assert all[1..] == Hops(asns[1..]) + m;
      RebuildHops(asns[1..], m);
      assert asns == [asns[0]] + asns[1..];
      var tail := Rebuild(m);
      if tail != [] && tail[0].kind.AsSequence? {
        assert [asns[0]] + (asns[1..] + tail[0].asns) == asns + tail[0].asns;
      }
    }
  }

  /** Without empty plain sequences the normal form depends on the meaning alone. */
  lemma {:induction false} NormRebuilds(p: Path)
    requires NoEmptySequence(p)
    ensures Norm(p) == Rebuild(Meaning(p))
  {
    if p != [] {
      NormRebuilds(p[1..]);
      var m := Meaning(p[1..]);
      if p[0].kind.AsSequence? {
        RebuildHops(p[0].asns, m);
      } else {
        assert (SegmentMeaning(p[0]) + m)[1..] == m;
        SortUniqLists(p[0].asns);
        ListingUnique(SortUniq(p[0].asns), Listing(Elements(p[0].asns)));
      }
    }
  }

  /** The numbers of the run of plain sequences a path begins with, and what follows the run. */
  ghost function RunAsns(p: Path): seq<int> {
    if p != [] && p[0].kind.AsSequence? then p[0].asns + RunAsns(p[1..]) else []
  }

  ghost function AfterRun(p: Path): (r: Path)
    ensures |r| <= |p| && (p != [] && p[0].kind.AsSequence? ==> |r| < |p|)
    ensures r == [] || !r[0].kind.AsSequence?
  {
    if p != [] && p[0].kind.AsSequence? then AfterRun(p[1..]) else p
  }

  /** Every run of adjacent plain sequences holds a number. */
  ghost predicate NoEmptyRun(p: Path)
    decreases |p|
  {
    if p == [] then true
    else if p[0].kind.AsSequence? then RunAsns(p) != [] && NoEmptyRun(AfterRun(p))
    else NoEmptyRun(p[1..])
  }

  /** A run is folded into one segment. */
  lemma {:induction false} NormOfRun(p: Path)
    requires p != [] && p[0].kind.AsSequence?
    ensures Norm(p) == [Segment(AsSequence, RunAsns(p))] + Norm(AfterRun(p))
  {
    NormIsNormal(p[1..]);
    if |p| > 1 && p[1].kind.AsSequence? {
      NormOfRun(p[1..]);
    } else {
      assert p[0].asns + [] == p[0].asns && p[0] == Segment(AsSequence, p[0].asns);
    }
  }

  lemma {:induction false} NormNoEmpty(p: Path)
    ensures NoEmptySequence(Norm(p)) <==> NoEmptyRun(p)
    decreases |p|
  {
    if p != [] {
      if p[0].kind.AsSequence? {
        NormOfRun(p);
        NormNoEmpty(AfterRun(p));
        NoEmptyFirst(Segment(AsSequence, RunAsns(p)), Norm(AfterRun(p)));
      } else {
        NormNoEmpty(p[1..]);
        NoEmptyFirst(SortSegment(p[0]), Norm(p[1..]));
      }
    }
  }

  lemma NoEmptyFirst(s: Segment, rest: Path)
    ensures NoEmptySequence([s] + rest) <==> (s.kind.AsSequence? ==> s.asns != []) && NoEmptySequence(rest)
  {
    var p := [s] + rest;
    if NoEmptySequence(p) {
      forall i | 0 <= i < |rest| && rest[i].kind.AsSequence? ensures rest[i].asns != [] {
        assert p[i + 1] == rest[i];
      }
      assert p[0] == s;
    }
  }

  lemma {:induction false} RebuildNoEmpty(m: seq<Item>)
    ensures NoEmptySequence(Rebuild(m))
  {
    if m != [] {
      RebuildNoEmpty(m[1..]);
      var rest := Rebuild(m[1..]);
      if !m[0].Hop? {
        NoEmptyFirst(Rebuild(m)[0], rest);
      } else if rest != [] && rest[0].kind.AsSequence? {
        NoEmptyFirst(rest[0], rest[1..]);
        assert rest == [rest[0]] + rest[1..];
        NoEmptyFirst(Segment(AsSequence, [m[0].asn] + rest[0].asns), rest[1..]);
      } else {
        NoEmptyFirst(Segment(AsSequence, [m[0].asn]), rest);
      }
    }
  }

  /** The normal form is the path rebuilt from the meaning exactly if no run of plain sequences is
      empty. */
  lemma NormIsRebuild(p: Path)
    ensures Norm(p) == Rebuild(Meaning(p)) <==> NoEmptyRun(p)
  {
    NormNoEmpty(p);
    RebuildNoEmpty(Meaning(p));
    if NoEmptyRun(p) {
      NormRebuilds(Norm(p));
      NormIdempotent(p);
      NormMeaning(p);
    }
  }

  lemma NoEmptyHasNoEmptyRun(p: Path)
    requires NoEmptySequence(p)
    ensures NoEmptyRun(p)
  {
    NormRebuilds(p);
    NormIsRebuild(p);
  }

  lemma {:induction false} RebuildMeans(m: seq<Item>)
    ensures Meaning(Rebuild(m)) == m
  {
    if m != [] {
      RebuildMeans(m[1..]);
      var rest := Rebuild(m[1..]);
      assert m == [m[0]] + m[1..];
      if m[0].Hop? {
        AttachMeaning(Segment(AsSequence, [m[0].asn]), rest);
        assert Hops([m[0].asn]) == [m[0]];
      } else {
        assert ([Rebuild(m)[0]] + rest)[1..] == rest;
      }
    }
  }

  /** Two paths mean the same exactly when their normal forms are identical. */
  lemma NormCanonical(p: Path, q: Path)
    requires NoEmptyRun(p) && NoEmptyRun(q)
    ensures Meaning(p) == Meaning(q) <==> Norm(p) == Norm(q)
  {
    NormIsRebuild(p);
    NormIsRebuild(q);
    NormMeaning(p);
    NormMeaning(q);
  }

  /** The condition is exact: a path has the normal form of the paths that mean the same only if
      none of its runs is empty. */
  lemma CanonicalExact(p: Path)
    ensures (forall q :: NoEmptySequence(q) && Meaning(q) == Meaning(p) ==> Norm(q) == Norm(p)) <==> NoEmptyRun(p)
  {
    var q := Rebuild(Meaning(p));
    RebuildNoEmpty(Meaning(p));
    RebuildMeans(Meaning(p));
    NormRebuilds(q);
    NormIsRebuild(p);
    forall r | NoEmptySequence(r) && Meaning(r) == Meaning(p) ensures Norm(r) == q {
      NormRebuilds(r);
    }
  }

  // ----- normal paths

  ghost predicate IsNormal(p: Path) {
    && (forall i :: 0 <= i < |p| ==> IsSetKind(p[i].kind) ==> StrictlyAscending(p[i].asns))
    && (forall i, j :: 0 <= i && j == i + 1 && j < |p| ==> !Packable(p[i], p[j]))
  }

  lemma {:induction false} NormIsNormal(p: Path)
    ensures IsNormal(Norm(p))
    ensures p != [] ==> Norm(p) != [] && Norm(p)[0].kind == p[0].kind
  {
    if p != [] {
      NormIsNormal(p[1..]);
      SortUniqLists(p[0].asns);
    }
  }

  lemma {:induction false} NormFixed(p: Path)
    requires IsNormal(p)
    ensures Norm(p) == p
  {
    if p != [] {
      NormFixed(p[1..]);
      if IsSetKind(p[0].kind) { SortUniqFixed(p[0].asns); }
      if |p| > 1 { assert !Packable(p[0], p[1]); }
      assert p == [p[0]] + p[1..];
    }
  }

  lemma NormIdempotent(p: Path)
    ensures Norm(Norm(p)) == Norm(p)
  {
    NormIsNormal(p);
    NormFixed(Norm(p));
  }

  // ----- hop count

  function SegmentHops(s: Segment): int {
    match s.kind
    case AsSequence => |s.asns|
    case AsSet => 1
    case _ => 0
  }

  function HopCount(p: Path): int {
    if p == [] then 0 else SegmentHops(p[0]) + HopCount(p[1..])
  }

  ghost function ItemHops(m: seq<Item>): int {
    if m == [] then 0
    else (if m[0].Hop? || m[0].SetOf? then 1 else 0) + ItemHops(m[1..])
  }

  lemma {:induction false} ItemHopsOfHops(asns: seq<int>, m: seq<Item>)
    ensures ItemHops(Hops(asns) + m) == |asns| + ItemHops(m)
  {
    if asns == [] {
      assert Hops(asns) + m == m;
    } else {
      assert (Hops(asns) + m)[1..] == Hops(asns[1..]) + m;
      ItemHopsOfHops(asns[1..], m);
    }
  }

  /** The hop count is the number of plain hops and plain sets in the meaning. */
  lemma {:induction false} HopCountIsMeaning(p: Path)
    ensures HopCount(p) == ItemHops(Meaning(p))
  {
    if p != [] {
      HopCountIsMeaning(p[1..]);
      if p[0].kind.AsSequence? {
        ItemHopsOfHops(p[0].asns, Meaning(p[1..]));
      } else {
        assert (SegmentMeaning(p[0]) + Meaning(p[1..]))[1..] == Meaning(p[1..]);
      }
    }
  }

  lemma NormKeepsHops(p: Path)
    ensures HopCount(Norm(p)) == HopCount(p)
  {
    HopCountIsMeaning(p);
    HopCountIsMeaning(Norm(p));
    NormMeaning(p);
  }

  lemma {:induction false} HopCountConcat(p: Path, q: Path)
    ensures HopCount(p + q) == HopCount(p) + HopCount(q)
  {
    if p == [] {
      assert p + q == q;
    } else {
      assert (p + q)[1..] == p[1..] + q;
      HopCountConcat(p[1..], q);
    }
  }

  // ----- the AS numbers found anywhere in a path

  ghost function AsnSet(p: Path): set<int> {
    set i, x | 0 <= i < |p| && x in p[i].asns :: x
  }

  lemma AsnSetConcat(p: Path, q: Path)
    ensures AsnSet(p + q) == AsnSet(p) + AsnSet(q)
  {
    forall x ensures x in AsnSet(p + q) <==> x in AsnSet(p) + AsnSet(q) {
      if x in AsnSet(p) {
        var i :| 0 <= i < |p| && x in p[i].asns;
        assert x in (p + q)[i].asns;
      }
      if x in AsnSet(q) {
        var i :| 0 <= i < |q| && x in q[i].asns;
        assert x in (p + q)[|p| + i].asns;
      }
    }
  }

  lemma AsnSetAttach(s: Segment, rest: Path)
    ensures AsnSet(Attach(s, rest)) == Elements(s.asns) + AsnSet(rest)
  {
    AsnSetSingle(s);
    if rest != [] && Packable(s, rest[0]) {
      var joined := Segment(AsSequence, s.asns + rest[0].asns);
      AsnSetConcat([joined], rest[1..]);
      AsnSetConcat([rest[0]], rest[1..]);
      AsnSetSingle(joined);
      AsnSetSingle(rest[0]);
      assert rest == [rest[0]] + rest[1..];
    } else {
      AsnSetConcat([s], rest);
    }
  }

  lemma AsnSetSingle(s: Segment)
    ensures AsnSet([s]) == Elements(s.asns)
  {
    forall x | x in s.asns ensures x in AsnSet([s]) {
      assert x in [s][0].asns;
    }
  }

  lemma {:induction false} NormKeepsAsns(p: Path)
    ensures AsnSet(Norm(p)) == AsnSet(p)
  {
    if p != [] {
      NormKeepsAsns(p[1..]);
      SortUniqLists(p[0].asns);
      AsnSetAttach(SortSegment(p[0]), Norm(p[1..]));
      AsnSetSingle(p[0]);
      AsnSetConcat([p[0]], p[1..]);
      assert p == [p[0]] + p[1..];
    }
  }

  // ----- the code

  lemma WeedStep(kept: seq<int>, prefix: seq<int>, x: int)
    requires kept != [] && Lists(kept, Elements(prefix))
    requires kept[|kept| - 1] <= x
    ensures kept[|kept| - 1] == x ==> Lists(kept, Elements(prefix + [x]))
    ensures kept[|kept| - 1] != x ==> Lists(kept + [x], Elements(prefix + [x]))
  {
    assert Elements(prefix + [x]) == Elements(prefix) + {x};
    assert Elements(kept + [x]) == Elements(kept) + {x};
    assert kept[|kept| - 1] in Elements(kept);
  }

  /** The loop that weeds duplicates out of a sorted set segment, in place. */
  method WeedDuplicates(a: array<int>) returns (length: nat)
    requires Ascending(a[..])
    modifies a
    ensures length <= a.Length
    ensures Lists(a[..length], Elements(old(a[..])))
  {
    ghost var was := a[..];
    if a.Length == 0 {
      return 0;
    }
    var tail, i := 0, 1;
    assert a[..1] == was[..1] == [was[0]];
    ghost var kept := a[..1];
    while i < a.Length
      invariant 0 <= tail < i <= a.Length
      invariant a[..tail + 1] == kept
      invariant Lists(kept, Elements(was[..i]))
      invariant kept[tail] == was[i - 1]
      invariant forall k :: i <= k < a.Length ==> a[k] == was[k]
    {
      assert a[tail] == a[..tail + 1][tail] == kept[tail];
      assert was[..i + 1] == was[..i] + [was[i]];
      WeedStep(kept, was[..i], was[i]);
      if a[tail] != a[i] {
        tail := tail + 1;
        if tail < i {
          a[tail] := a[i];
        }
        kept := kept + [was[i]];
        assert a[..tail + 1] == kept;
      }
      i := i + 1;
    }
    assert was[..a.Length] == was;
    return tail + 1;
  }

  /** qsort followed by the duplicate-weeding loop. */
  method SortSetSegment(asns: seq<int>) returns (r: seq<int>)
    ensures r == SortUniq(asns)
  {
    var sorted := Sort(asns);
    SortSorts(asns);
    var a := new int[|sorted|](i requires 0 <= i < |sorted| => sorted[i]);
    assert a[..] == sorted;
    var length := WeedDuplicates(a);
    r := a[..length];
    SortUniqLists(asns);
    ListingUnique(r, SortUniq(asns));
  }

  lemma NormStep(s: Segment, rest: Path)
    requires rest == [] || !Packable(s, rest[0])
    ensures Norm([s] + rest) == [SortSegment(s)] + Norm(rest)
  {
    assert ([s] + rest)[1..] == rest;
    NormIsNormal(rest);
  }

  lemma NormMerge(s: Segment, t: Segment, rest: Path)
    requires Packable(s, t)
    ensures Norm([s, t] + rest) == Norm([Segment(AsSequence, s.asns + t.asns)] + rest)
  {
    var m := Segment(AsSequence, s.asns + t.asns);
    assert ([s, t] + rest)[1..] == [t] + rest;
    assert ([t] + rest)[1..] == rest;
    assert ([m] + rest)[1..] == rest;
    var n := Norm(rest);
    if n != [] && n[0].kind.AsSequence? {
      assert s.asns + (t.asns + n[0].asns) == m.asns + n[0].asns;
    }
  }

  /** The read-ahead loop: folds every packable successor of `chain[pin]` into it. */
  method FoldPackable(before: Path, pin: nat) returns (chain: Path)
    requires pin < |before|
    ensures pin < |chain| <= |before|
    ensures chain[..pin] == before[..pin]
    ensures Norm(chain[pin..]) == Norm(before[pin..])
    ensures !before[pin].kind.AsSequence? ==> chain == before
    ensures chain[pin].kind == before[pin].kind
    ensures SortSegment(before[pin]) == before[pin] ==> SortSegment(chain[pin]) == chain[pin]
    ensures pin + 1 < |chain| ==> !Packable(chain[pin], chain[pin + 1])
  {
    chain := before;
    while pin + 1 < |chain| && Packable(chain[pin], chain[pin + 1])
      invariant pin < |chain| <= |before|
      invariant chain[..pin] == before[..pin]
      invariant Norm(chain[pin..]) == Norm(before[pin..])
      invariant !before[pin].kind.AsSequence? ==> chain == before
      invariant chain[pin].kind == before[pin].kind
      decreases |chain|
    {
      var next := chain[pin + 1];
      var merged := Segment(AsSequence, chain[pin].asns + next.asns);
      ghost var rest := chain[pin + 2..];
      assert chain[pin..] == [chain[pin], next] + rest;
      NormMerge(chain[pin], next, rest);
      chain := chain[..pin] + [merged] + chain[pin + 2..];
      assert chain[pin..] == [merged] + rest;
    }
  }

  /** Sorting the pinned segment leaves the normal form of the rest of the chain alone. */
  method SortPinned(before: Path, pin: nat) returns (chain: Path)
    requires pin < |before|
    ensures chain == before[pin := SortSegment(before[pin])]
    ensures Norm(chain[pin..]) == Norm(before[pin..])
    ensures SortSegment(chain[pin]) == chain[pin]
  {
    chain := before;
    var seg := chain[pin];
    if IsSetKind(seg.kind) {
      var sorted := SortSetSegment(seg.asns);
      chain := chain[pin := seg.(asns := sorted)];
      SortUniqLists(seg.asns);
      SortUniqFixed(sorted);
      assert before[pin..] == [seg] + before[pin + 1..];
      assert chain[pin..] == [chain[pin]] + before[pin + 1..];
      NormStep(seg, before[pin + 1..]);
      NormStep(chain[pin], before[pin + 1..]);
    }
  }

  lemma PinDone(chain: Path, pin: nat)
    requires pin < |chain| && SortSegment(chain[pin]) == chain[pin]
    requires pin + 1 < |chain| ==> !Packable(chain[pin], chain[pin + 1])
    ensures chain[..pin] + Norm(chain[pin..]) == chain[..pin + 1] + Norm(chain[pin + 1..])
  {
    var rest := chain[pin + 1..];
    assert chain[pin..] == [chain[pin]] + rest;
    NormStep(chain[pin], rest);
    hide Norm;
    assert chain[..pin] + ([chain[pin]] + Norm(rest)) == chain[..pin + 1] + Norm(rest);
  }

  lemma NormEmpty()
    ensures Norm([]) == []
  {
  }

  /** Walks the chain once: sorts the pinned segment if it is a set, then folds every
      following packable segment into it. */
  method Normalise(head: Path) returns (chain: Path)
    ensures chain == Norm(head)
  {
    chain := head;
    var pin := 0;
    hide Norm, SortSegment, Packable;
    while pin < |chain|
      invariant pin <= |chain|
      invariant chain[..pin] + Norm(chain[pin..]) == Norm(head)
      decreases |chain| - pin
    {
      ghost var done := chain[..pin];
      chain := SortPinned(chain, pin);
      chain := FoldPackable(chain, pin);
      assert chain[..pin] == done;
      PinDone(chain, pin);
      pin := pin + 1;
    }
    assert chain[..pin] == chain && chain[pin..] == [];
    assert Norm([]) == [] by { NormEmpty(); }
  }

  /** Field-by-field comparison of two chains decides equality. */
  method Compare(p: Path, q: Path) returns (same: bool)
    ensures same <==> p == q
  {
    var i := 0;
    while i < |p| || i < |q|
      invariant i <= |p| && i <= |q|
      invariant p[..i] == q[..i]
      decreases |p| + |q| - i
    {
      if i >= |p| || i >= |q| {
        return false;
      }
      if p[i].kind != q[i].kind || |p[i].asns| != |q[i].asns| {
        return false;
      }
      var k := 0;
      while k < |p[i].asns|
        invariant k <= |p[i].asns|
        invariant p[i].asns[..k] == q[i].asns[..k]
      {
        if p[i].asns[k] != q[i].asns[k] {
          return false;
        }
        k := k + 1;
      }
      assert p[i].asns[..k] == p[i].asns && q[i].asns[..k] == q[i].asns;
      i := i + 1;
    }
    assert p[..i] == p && q[..i] == q;
    return true;
  }

  method CountHops(p: Path) returns (count: int)
    ensures count == HopCount(p)
  {
    count := 0;
    var i := 0;
    while i < |p|
      invariant i <= |p|
      invariant count + HopCount(p[i..]) == HopCount(p)
    {
      if p[i].kind.AsSequence? {
        count := count + |p[i].asns|;
      } else if p[i].kind.AsSet? {
        count := count + 1;
      }
      assert p[i..][1..] == p[i + 1..];
      i := i + 1;
    }
  }

  /** How often an AS number occurs in a path. */
  ghost function Occurrences(p: Path, asn: int): nat {
    if p == [] then 0 else multiset(p[0].asns)[asn] + Occurrences(p[1..], asn)
  }

  lemma {:induction false} OccursInSet(p: Path, asn: int)
    ensures Occurrences(p, asn) > 0 <==> asn in AsnSet(p)
    decreases |p|
  {
    if p != [] {
      OccursInSet(p[1..], asn);
      assert p == [p[0]] + p[1..];
      AsnSetConcat([p[0]], p[1..]);
      AsnSetSingle(p[0]);
    }
  }

  /** Loop detection: how often the AS number occurs, so positive exactly when it does. */
  method LoopCheck(p: Path, asn: int) returns (count: nat)
    ensures count == Occurrences(p, asn)
    ensures count > 0 <==> asn in AsnSet(p)
  {
    count := 0;
    var i := 0;
    while i < |p|
      invariant i <= |p|
      invariant count + Occurrences(p[i..], asn) == Occurrences(p, asn)
    {
      var k := 0;
      ghost var before := count;
      while k < |p[i].asns|
        invariant k <= |p[i].asns|
        invariant count == before + multiset(p[i].asns[..k])[asn]
      {
        assert p[i].asns[..k + 1] == p[i].asns[..k] + [p[i].asns[k]];
        if p[i].asns[k] == asn {
          count := count + 1;
        }
        k := k + 1;
      }
      assert p[i].asns[..k] == p[i].asns;
      assert p[i..][1..] == p[i + 1..];
      i := i + 1;
    }
    OccursInSet(p, asn);
  }
}
