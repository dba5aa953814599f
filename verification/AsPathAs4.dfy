/** Four-octet AS numbers across two-octet speakers: AS4_PATH and AS4_AGGREGATOR
    reconciliation (sections 4.2.2 and 4.2.3 of RFC 6793). */
module AsPathAs4 {
  import opened AsPath
  import opened AsPathWire
  import opened Options
  import opened Wire

  predicate IsConfedKind(k: SegKind) {
    k.ConfedSequence? || k.ConfedSet?
  }

  ghost predicate ConfedFree(p: Path) {
    forall i :: 0 <= i < |p| ==> !IsConfedKind(p[i].kind)
  }

  function ConfedCount(p: Path): int {
    if p == [] then 0
    else (match p[0].kind
          case ConfedSequence => |p[0].asns|
          case ConfedSet => 1
          case _ => 0) + ConfedCount(p[1..])
  }

  method CountConfeds(p: Path) returns (count: int)
    ensures count == ConfedCount(p)
  {
    count := 0;
    var i := 0;
    while i < |p|
      invariant i <= |p|
      invariant count + ConfedCount(p[i..]) == ConfedCount(p)
    {
      if p[i].kind.ConfedSequence? {
        count := count + |p[i].asns|;
      } else if p[i].kind.ConfedSet? {
        count := count + 1;
      }
      assert p[i..][1..] == p[i + 1..];
      i := i + 1;
    }
  }

  function Min(a: int, b: int): int { if a < b then a else b }

  /** The hops still owed after a segment has been copied. */
  function HopsAfter(s: Segment, hops: int): int {
    match s.kind
    case AsSequence => hops - |s.asns|
    case ConfedSequence => (if hops < |s.asns| then |s.asns| else hops) - |s.asns|
    case _ => hops - 1
  }

  function CopiedPart(s: Segment, hops: int): (r: Segment)
    requires hops > 0
  {
    if s.kind.AsSequence? then Segment(AsSequence, s.asns[..Min(|s.asns|, hops)]) else s
  }

  /** The leading part of `p` that carries `hops` hops. */
  function TakeHops(p: Path, hops: int): (r: Path) {
    if p == [] || hops <= 0 then []
    else [CopiedPart(p[0], hops)] + TakeHops(p[1..], HopsAfter(p[0], hops))
  }

  function HopsToCopy(aspath: Path, as4path: Path): int {
    var hops := HopCount(aspath) + ConfedCount(aspath) - HopCount(as4path);
    if hops < 0 then HopCount(aspath) else hops
  }

  function Reconciled(aspath: Path, as4path: Path): (r: Path) {
    var hops := HopsToCopy(aspath, as4path);
    if hops == 0 then as4path else Norm(TakeHops(aspath, hops) + as4path)
  }

  /** The copying loop: leading segments of `aspath` until `wanted` hops are covered. */
  method CopyHops(aspath: Path, wanted: int) returns (newpath: Path)
    ensures newpath == TakeHops(aspath, wanted)
  {
    var hops := wanted;
    newpath := [];
    var i := 0;
    while i < |aspath| && hops > 0
      invariant i <= |aspath|
      invariant newpath + TakeHops(aspath[i..], hops) == TakeHops(aspath, wanted)
    {
      var seg := aspath[i];
      var copied;
      ghost var before := hops;
      match seg.kind {
        case AsSet | ConfedSet =>
          hops := hops - 1;
          copied := |seg.asns|;
        case ConfedSequence =>
          if hops < |seg.asns| {
            hops := |seg.asns|;
          }
          copied := Min(|seg.asns|, hops);
          hops := hops - |seg.asns|;
        case AsSequence =>
          copied := Min(|seg.asns|, hops);
          hops := hops - |seg.asns|;
      }
      var newseg := Segment(seg.kind, seg.asns[..copied]);
      assert newseg == CopiedPart(seg, before) && hops == HopsAfter(seg, before);
      assert aspath[i..][0] == seg && aspath[i..][1..] == aspath[i + 1..];
      ConcatAssociates(newpath, [newseg], TakeHops(aspath[i + 1..], hops));
      newpath := newpath + [newseg];
      i := i + 1;
    }
    assert TakeHops(aspath[i..], hops) == [];
  }

  /** Puts the hops AS_PATH has in excess in front of AS4_PATH. */
  method ReconcileAs4(aspath: Path, as4path: Path) returns (merged: Path)
    ensures merged == Reconciled(aspath, as4path)
  {
    var own := CountHops(aspath);
    var confeds := CountConfeds(aspath);
    var as4 := CountHops(as4path);
    var hops := own + confeds - as4;
    if hops < 0 {
      hops := own;
    }
    if hops == 0 {
      return as4path;
    }
    var newpath := CopyHops(aspath, hops);
    merged := Normalise(newpath + as4path);
  }

  // ----- what reconciliation means

  lemma {:induction false} ConfedFreeCounts(p: Path)
    requires ConfedFree(p)
    ensures ConfedCount(p) == 0
    ensures HopCount(p) == |Meaning(p)|
  {
    if p != [] {
      assert !IsConfedKind(p[0].kind);
      ConfedFreeCounts(p[1..]);
    }
  }

  lemma {:induction false} TakeHopsMeaning(p: Path, hops: int)
    requires ConfedFree(p) && 0 <= hops <= |Meaning(p)|
    ensures Meaning(TakeHops(p, hops)) == Meaning(p)[..hops]
  {
    if p != [] && hops > 0 {
      assert !IsConfedKind(p[0].kind);
      var first, rest := SegmentMeaning(p[0]), Meaning(p[1..]);
      var copied := CopiedPart(p[0], hops);
      var left := HopsAfter(p[0], hops);
      assert TakeHops(p, hops)[1..] == TakeHops(p[1..], left);
      if left <= 0 {
        assert SegmentMeaning(copied) == first[..hops];
        assert (first + rest)[..hops] == first[..hops];
        assert TakeHops(p[1..], left) == [];
      } else {
        TakeHopsMeaning(p[1..], left);
        assert SegmentMeaning(copied) == first;
        assert (first + rest)[..hops] == first + rest[..left];
      }
    }
  }

  /** For confederation-free paths the result is: the hops AS_PATH has in excess, then
      AS4_PATH; or all of AS_PATH then AS4_PATH when AS_PATH is the shorter one. */
  lemma ReconciledMeaning(aspath: Path, as4path: Path)
    requires ConfedFree(aspath) && ConfedFree(as4path)
    ensures var a, b := Meaning(aspath), Meaning(as4path);
      Meaning(Reconciled(aspath, as4path)) == (if |a| >= |b| then a[..|a| - |b|] else a) + b
  {
    ConfedFreeCounts(aspath);
    ConfedFreeCounts(as4path);
    var a, b := Meaning(aspath), Meaning(as4path);
    var hops := HopsToCopy(aspath, as4path);
    if hops == 0 {
      assert (if |a| >= |b| then a[..|a| - |b|] else a) == [];
    } else {
      TakeHopsMeaning(aspath, hops);
      MeaningConcat(TakeHops(aspath, hops), as4path);
      NormMeaning(TakeHops(aspath, hops) + as4path);
      assert |a| < |b| ==> a[..hops] == a;
    }
  }

  /** The hop count AS_PATH announced is kept whenever it is at least AS4_PATH's. */
  lemma ReconcileKeepsHops(aspath: Path, as4path: Path)
    requires ConfedFree(aspath) && ConfedFree(as4path)
    ensures HopCount(Reconciled(aspath, as4path))
         == if HopCount(aspath) >= HopCount(as4path) then HopCount(aspath)
            else HopCount(aspath) + HopCount(as4path)
  {
    ConfedFreeCounts(aspath);
    ConfedFreeCounts(as4path);
    ReconciledMeaning(aspath, as4path);
    var r := Reconciled(aspath, as4path);
    HopCountIsMeaning(r);
    AllItemsAreHops(aspath);
    AllItemsAreHops(as4path);
    ItemHopsOfPlain(Meaning(r));
  }

  ghost predicate Plain(m: seq<Item>) {
    forall i :: 0 <= i < |m| ==> m[i].Hop? || m[i].SetOf?
  }

  lemma {:induction false} AllItemsAreHops(p: Path)
    requires ConfedFree(p)
    ensures Plain(Meaning(p))
  {
    if p != [] {
      assert !IsConfedKind(p[0].kind);
      AllItemsAreHops(p[1..]);
    }
  }

  lemma {:induction false} ItemHopsOfPlain(m: seq<Item>)
    requires Plain(m)
    ensures ItemHops(m) == |m|
  {
    if m != [] { ItemHopsOfPlain(m[1..]); }
  }

  /** No AS number of AS4_PATH is lost to loop detection, whatever AS_PATH holds; and when
      AS4_PATH claims more hops than a confederation-free AS_PATH, neither path loses any. */
  lemma ReconcileKeepsAsns(aspath: Path, as4path: Path)
    ensures AsnSet(as4path) <= AsnSet(Reconciled(aspath, as4path)) <= AsnSet(aspath) + AsnSet(as4path)
    ensures ConfedFree(aspath) && HopCount(aspath) < HopCount(as4path)
        ==> AsnSet(Reconciled(aspath, as4path)) == AsnSet(aspath) + AsnSet(as4path)
  {
    var hops := HopsToCopy(aspath, as4path);
    TakeHopsAsns(aspath, hops);
    AsnSetConcat(TakeHops(aspath, hops), as4path);
    NormKeepsAsns(TakeHops(aspath, hops) + as4path);
    if ConfedFree(aspath) && HopCount(aspath) < HopCount(as4path) {
      ConfedFreeCounts(aspath);
      TakeAllHops(aspath, hops);
    }
  }

  lemma {:induction false} TakeHopsAsns(p: Path, hops: int)
    ensures AsnSet(TakeHops(p, hops)) <= AsnSet(p)
  {
    if p != [] && hops > 0 {
      var first := CopiedPart(p[0], hops);
      var rest := TakeHops(p[1..], HopsAfter(p[0], hops));
      TakeHopsAsns(p[1..], HopsAfter(p[0], hops));
      AsnSetConcat([first], rest);
      AsnSetConcat([p[0]], p[1..]);
      AsnSetSingle(first);
      AsnSetSingle(p[0]);
      assert p == [p[0]] + p[1..];
    }
  }

  lemma {:induction false} TakeAllHops(p: Path, hops: int)
    requires ConfedFree(p) && hops == HopCount(p)
    ensures AsnSet(TakeHops(p, hops)) == AsnSet(p)
  {
    if p != [] {
      assert !IsConfedKind(p[0].kind);
      HopCountNonNegative(p[1..]);
      AsnSetConcat([p[0]], p[1..]);
      AsnSetSingle(p[0]);
      assert p == [p[0]] + p[1..];
      TakeAllHops(p[1..], HopCount(p[1..]));
      if hops > 0 {
        assert CopiedPart(p[0], hops).asns == p[0].asns;
        AsnSetConcat([CopiedPart(p[0], hops)], TakeHops(p[1..], HopsAfter(p[0], hops)));
        AsnSetSingle(CopiedPart(p[0], hops));
      }
    }
  }

  lemma {:induction false} HopCountNonNegative(p: Path)
    ensures HopCount(p) >= 0
  {
    if p != [] { HopCountNonNegative(p[1..]); }
  }

  // ----- the two-octet hop

  ghost predicate Narrowable(asns: seq<int>) {
    forall k :: 0 <= k < |asns| ==> asns[k] <= AS_MAX
  }

  ghost predicate NeedsAs4(p: Path) {
    exists i :: 0 <= i < |p| && !Narrowable(p[i].asns)
  }

  /** Does any AS number need four octets? */
  method HasAs4(p: Path) returns (b: bool)
    ensures b <==> NeedsAs4(p)
  {
    var i := 0;
    while i < |p|
      invariant i <= |p|
      invariant forall j :: 0 <= j < i ==> Narrowable(p[j].asns)
    {
      var k := 0;
      while k < |p[i].asns|
        invariant k <= |p[i].asns|
        invariant forall l :: 0 <= l < k ==> p[i].asns[l] <= AS_MAX
      {
        if p[i].asns[k] > AS_MAX {
          assert !Narrowable(p[i].asns);
          return true;
        }
        k := k + 1;
      }
      i := i + 1;
    }
    return false;
  }

  /** What follows the confederation segments a path begins with. */
  function AfterConfeds(p: Path): (r: Path)
    ensures r != [] ==> !IsConfedKind(r[0].kind)
    ensures |r| <= |p| && r == p[|p| - |r|..]
  {
    if p != [] && IsConfedKind(p[0].kind) then AfterConfeds(p[1..]) else p
  }

  /** The path without a leading run of confederation segments that starts with a sequence. */
  function Stripped(p: Path): Path {
    if p == [] || !p[0].kind.ConfedSequence? then p else AfterConfeds(p)
  }

  method DeleteConfedSeq(p: Path) returns (r: Path)
    ensures r == Stripped(p)
    ensures ConfedFree(p) ==> r == p
    ensures exists n :: 0 <= n <= |p| && r == p[n..] && forall i :: 0 <= i < n ==> IsConfedKind(p[i].kind)
  {
    if p == [] || !p[0].kind.ConfedSequence? {
      assert p == p[0..];
      return p;
    }
    var n := 0;
    assert p[0..] == p;
    while n < |p| && IsConfedKind(p[n].kind)
      invariant n <= |p| && AfterConfeds(p[n..]) == AfterConfeds(p)
      invariant forall i :: 0 <= i < n ==> IsConfedKind(p[i].kind)
    {
      assert p[n..][0] == p[n] && p[n..][1..] == p[n + 1..];
      n := n + 1;
    }
    r := p[n..];
  }

  datatype Aggregator = Aggregator(asn: int, addr: int)

  /** The attributes of an UPDATE that carry AS numbers, as octets. */
  datatype AsAttributes = AsAttributes(
    asPath: seq<Byte>,
    as4Path: Option<seq<Byte>>,
    aggregator: Option<Aggregator>,
    as4Aggregator: Option<Aggregator>)

  /** What a sender puts on a session without four-octet support. */
  method EncodeForOldPeer(p: Path, agg: Option<Aggregator>) returns (attrs: AsAttributes, len16: int, len32: int)
    requires InRange(p)
    ensures attrs.asPath == Written(p, false) && (len16 == |attrs.asPath| <==> p == [] || p[0].asns == [] || Short(p))
    ensures IsNormal(p) && NoEmptySegment(p) ==> attrs.asPath == PutPath(p, false)
    ensures attrs.as4Path.Some? <==> NeedsAs4(p)
    ensures attrs.as4Path.Some? ==> InRange(Stripped(p)) && attrs.as4Path.value == Written(Stripped(p), true)
    ensures attrs.as4Path.Some? && ConfedFree(p) && IsNormal(p) && NoEmptySegment(p) ==>
      attrs.as4Path.value == PutPath(p, true)
    ensures ConfedFree(p) && attrs.as4Path.Some? ==>
      p != [] && (len32 == |attrs.as4Path.value| <==> p[0].asns == [] || Short(p))
    ensures attrs.aggregator == if agg.None? then None else Some(agg.value.(asn := Narrow(agg.value.asn, false)))
    ensures attrs.as4Aggregator == if agg.Some? && agg.value.asn > AS_MAX then agg else None
  {
    hide *;
    var s16;
    s16, len16 := Put(p, false);
    EmptyWritten(p, false);
    NonEmptyFirst(p);
    var as4;
    as4, len32 := EncodeAs4(p);
    attrs := AsAttributes(s16, as4,
      if agg.None? then None else Some(agg.value.(asn := if agg.value.asn > AS_MAX then AS_TRANS else agg.value.asn)),
      if agg.Some? && agg.value.asn > AS_MAX then agg else None);
    if agg.Some? { NarrowIs(agg.value.asn); }
  }

  /** AS4_PATH, if a number needs it: the path without leading confederation segments. */
  method EncodeAs4(p: Path) returns (as4: Option<seq<Byte>>, len: int)
    requires InRange(p)
    ensures as4.Some? <==> NeedsAs4(p)
    ensures as4.Some? ==> InRange(Stripped(p)) && as4.value == Written(Stripped(p), true)
    ensures as4.Some? && ConfedFree(p) && IsNormal(p) && NoEmptySegment(p) ==> as4.value == PutPath(p, true)
    ensures as4.Some? && ConfedFree(p) ==> p != [] && (len == |as4.value| <==> p[0].asns == [] || Short(p))
  {
    hide Written, PutPath, Stripped, IsNormal, Short;
    var needed := HasAs4(p);
    if !needed {
      return None, 0;
    }
    var stripped := DeleteConfedSeq(p);
    assert InRange(stripped);
    var s32;
    s32, len := Put(stripped, true);
    as4 := Some(s32);
  }

  lemma NarrowIs(asn: int)
    ensures Narrow(asn, false) == if asn > AS_MAX then AS_TRANS else asn
  {
  }

  lemma NonEmptyFirst(p: Path)
    ensures NoEmptySegment(p) && p != [] ==> p[0].asns != []
  {
  }

  lemma EmptyWritten(p: Path, use32: bool)
    requires InRange(p)
    ensures p == [] ==> Written(p, use32) == PutPath(p, use32)
  {
  }

  /** Merges the four-octet attributes into the two-octet ones.  `as4Peer` says whether the
      sending peer announced four-octet support. */
  method MungeAs4(as4Peer: bool, aspath: Path, as4path: Option<Path>,
                  agg: Option<Aggregator>, as4agg: Option<Aggregator>)
    returns (path: Path, merged: Option<Aggregator>)
    ensures as4Peer ==> path == aspath && merged == agg
    // AGGREGATOR without AS_TRANS outranks both four-octet attributes
    ensures !as4Peer && agg.Some? && as4agg.Some? && agg.value.asn != AS_TRANS
        ==> path == aspath && merged == agg
    ensures !as4Peer && agg.Some? && as4agg.Some? && agg.value.asn == AS_TRANS ==> merged == as4agg
    ensures !as4Peer && agg.None? && as4agg.Some?
        ==> merged.Some? && merged.value.asn == as4agg.value.asn && merged.value.addr == 0
    ensures !as4Peer && as4agg.None? ==> merged == agg
    ensures !as4Peer && (agg.None? || as4agg.None? || agg.value.asn == AS_TRANS)
        ==> path == if as4path.Some? then Reconciled(aspath, as4path.value) else aspath
  {
    path, merged := aspath, agg;
    if as4Peer {
      return;
    }
    var ignore := false;
    if as4agg.Some? {
      if agg.Some? {
        if agg.value.asn != AS_TRANS {
          ignore := true;
        } else {
          merged := as4agg;
        }
      } else {
        // only the number is taken over; the address stays unset
        merged := Some(Aggregator(as4agg.value.asn, 0));
      }
    }
    if !ignore && as4path.Some? {
      path := ReconcileAs4(aspath, as4path.value);
    }
  }

  function Prepend(ks: seq<int>, p: Path): Path {
    if ks == [] then p else Norm([Segment(AsSequence, ks)] + p)
  }

  lemma {:induction false} NarrowKeepsItems(p: Path)
    ensures HopCount(NarrowPath(p, false)) == HopCount(p)
  {
    if p != [] {
      NarrowKeepsItems(p[1..]);
      assert NarrowPath(p, false)[1..] == NarrowPath(p[1..], false);
    }
  }

  lemma {:induction false} NormKeepsConfedFree(p: Path)
    requires ConfedFree(p)
    ensures ConfedFree(Norm(p))
  {
    if p != [] {
      assert !IsConfedKind(p[0].kind);
      NormKeepsConfedFree(p[1..]);
    }
  }

  lemma {:induction false} NormKeepsNonEmpty(p: Path)
    requires NoEmptySequence(p)
    ensures NoEmptySequence(Norm(p))
  {
    if p != [] { NormKeepsNonEmpty(p[1..]); }
  }

  lemma {:induction false} TakeHopsNonEmpty(p: Path, hops: int)
    requires NoEmptySequence(p)
    ensures NoEmptySequence(TakeHops(p, hops))
  {
    if p != [] && hops > 0 { TakeHopsNonEmpty(p[1..], HopsAfter(p[0], hops)); }
  }

  /** Reconciling `ks` prepended to the narrowed path with the wide path gives `ks`
      prepended to the wide path. */
  lemma ReconcileRestores(ks: seq<int>, p: Path)
    requires IsNormal(p) && NoEmptySequence(p) && ConfedFree(p)
    ensures Reconciled(Prepend(ks, Norm(NarrowPath(p, false))), p) == Prepend(ks, p)
  {
    var narrow := NarrowPath(p, false);
    var q := Norm(narrow);
    NormKeepsConfedFree(narrow);
    NormKeepsHops(narrow);
    NormKeepsNonEmpty(narrow);
    NarrowKeepsItems(p);
    ConfedFreeCounts(p);
    ConfedFreeCounts(q);
    if ks != [] {
      var front := [Segment(AsSequence, ks)];
      var a := Prepend(ks, q);
      NormKeepsConfedFree(front + q);
      NormKeepsNonEmpty(front + q);
      NormMeaning(front + q);
      MeaningConcat(front, q);
      MeaningConcat(front, p);
      assert Meaning(front) == Hops(ks) by { assert Hops(ks) + [] == Hops(ks); }
      ConfedFreeCounts(a);
      assert HopsToCopy(a, p) == |ks|;
      TakeHopsMeaning(a, |ks|);
      TakeHopsNonEmpty(a, |ks|);
      MeaningConcat(TakeHops(a, |ks|), p);
      assert (Hops(ks) + Meaning(q))[..|ks|] == Hops(ks);
      NoEmptyHasNoEmptyRun(TakeHops(a, |ks|) + p);
      NoEmptyHasNoEmptyRun(front + p);
      NormCanonical(TakeHops(a, |ks|) + p, front + p);
    }
  }

  /** A path that crosses a two-octet speaker comes out whole.  The speaker sees the
      two-octet AS_PATH, prepends `ks` and forwards any encoding `w` of the result together
      with the four-octet attributes it does not understand. */
  method CrossOldSpeaker(p: Path, agg: Option<Aggregator>, ks: seq<int>, w: seq<Byte>)
    returns (path: Option<Path>, merged: Option<Aggregator>)
    requires InRange(p) && IsNormal(p) && NoEmptySegment(p) && WithinLimits(p) && ConfedFree(p)
    requires agg.Some? ==> IsU32(agg.value.asn)
    requires forall i :: 0 <= i < |ks| ==> 0 <= ks[i] <= AS_MAX
    requires ParseSpec(w, |w|, false) == Some(Prepend(ks, Norm(NarrowPath(p, false))))
    ensures path == Some(Prepend(ks, p))
    ensures merged == agg
  {
    var attrs, len16, len32 := EncodeForOldPeer(p, agg);
    // what the two-octet speaker itself reads
    var seen := Parse(attrs.asPath, len16, false);
    assert Short(p);
    RoundTripShort(p, false);
    RoundTripShort(p, true);
    assert seen == Some(Norm(NarrowPath(p, false)));
    // the receiver behind it
    var received := Parse(w, |w|, false);
    assert NarrowPath(p, true) == p by {
      assert forall i :: 0 <= i < |p| ==> NarrowAll(p[i].asns, true) == p[i].asns;
    }
    NormFixed(p);
    var as4: Option<Path> := None;
    if attrs.as4Path.Some? {
      as4 := Parse(attrs.as4Path.value, len32, true);
      assert as4 == Some(p);
    } else {
      assert NarrowPath(p, false) == p by {
        forall i | 0 <= i < |p| ensures NarrowAll(p[i].asns, false) == p[i].asns {
          assert Narrowable(p[i].asns);
        }
      }
    }
    var joined;
    joined, merged := MungeAs4(false, received.value, as4, attrs.aggregator, attrs.as4Aggregator);
    ReconcileRestores(ks, p);
    path := Some(joined);
  }
}
