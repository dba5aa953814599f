/** The AS_PATH attribute body: writing a path to a stream and reading it back. */
module AsPathWire {
  import opened AsPath
  import opened Options
  import opened Ordering
  import opened Wire

  const AS_SEGMENT_MAX := 255
  const AS_TRANS := 23456
  const AS_MAX := 65535

  function KindCode(k: SegKind): (c: Byte) {
    match k
    case AsSet => 1
    case AsSequence => 2
    case ConfedSequence => 3
    case ConfedSet => 4
  }

  function CodeKind(c: Byte): (k: Option<SegKind>) {
    if c == 1 then Some(AsSet)
    else if c == 2 then Some(AsSequence)
    else if c == 3 then Some(ConfedSequence)
    else if c == 4 then Some(ConfedSet)
    else None
  }

  /** Octets taken by `n` AS numbers. */
  function Octets(n: int, use32: bool): int { if use32 then 4 * n else 2 * n }

  /** A two-octet field cannot hold a large AS number; AS_TRANS stands in for it. */
  function Narrow(asn: int, use32: bool): int {
    if use32 || asn <= AS_MAX then asn else AS_TRANS
  }

  function NarrowAll(asns: seq<int>, use32: bool): (r: seq<int>)
    ensures |r| == |asns|
    ensures forall i :: 0 <= i < |asns| ==> r[i] == Narrow(asns[i], use32)
  {
    seq(|asns|, i requires 0 <= i < |asns| => Narrow(asns[i], use32))
  }

  function NarrowPath(p: Path, use32: bool): (r: Path)
    ensures |r| == |p|
    ensures forall i :: 0 <= i < |p| ==> r[i] == Segment(p[i].kind, NarrowAll(p[i].asns, use32))
  {
    seq(|p|, i requires 0 <= i < |p| => Segment(p[i].kind, NarrowAll(p[i].asns, use32)))
  }

  function PutAsn(asn: int, use32: bool): (r: seq<Byte>)
    requires IsU32(asn)
    ensures |r| == Octets(1, use32)
  {
    if use32 then PutL(asn) else PutW(Narrow(asn, false))
  }

  function Data(asns: seq<int>, use32: bool): (r: seq<Byte>)
    requires AllU32(asns)
    ensures |r| == Octets(|asns|, use32)
  {
    if asns == [] then [] else PutAsn(asns[0], use32) + Data(asns[1..], use32)
  }

  function Chunk(kind: SegKind, asns: seq<int>, use32: bool): (r: seq<Byte>)
    requires |asns| <= AS_SEGMENT_MAX && AllU32(asns)
    ensures |r| == Size(|asns|, use32)
  {
    [KindCode(kind), |asns|] + Data(asns, use32)
  }

  function Size(n: int, use32: bool): int { 2 + Octets(n, use32) }

  // ----- the writer

  /** Output for one segment from `written` on.  Every full chunk repeats the first 255
      numbers of the segment, as the code does. */
  function PutSegment(s: Segment, written: nat, use32: bool): (r: seq<Byte>)
    requires written <= |s.asns| && AllU32(s.asns)
    decreases |s.asns| - written
  {
    if |s.asns| - written > AS_SEGMENT_MAX
    then Chunk(s.kind, s.asns[..AS_SEGMENT_MAX], use32) + PutSegment(s, written + AS_SEGMENT_MAX, use32)
    else Chunk(s.kind, s.asns[written..], use32)
  }

  function PutPath(p: Path, use32: bool): (r: seq<Byte>)
    requires InRange(p)
  {
    if p == [] then []
    else
      PutSegment(p[0], 0, use32) + PutPath(p[1..], use32)
  }

  /** A following sequence goes into the chunk of `p[i]`. */
  predicate PacksWith(p: Path, i: nat, n: nat)
    requires i < |p|
  {
    n < |p| && Packable(p[i], p[n]) && |p[i].asns| + |p[n].asns| <= AS_SEGMENT_MAX
  }

  function PackEnd(p: Path, i: nat, n: nat): (r: nat)
    requires i < |p|
    ensures r >= n && (n <= |p| ==> r <= |p|)
    decreases |p| - n
  {
    if PacksWith(p, i, n) then PackEnd(p, i, n + 1) else n
  }

  /** The numbers of the segments from `n` on that go into the chunk of `p[i]`. */
  function PackedAsns(p: Path, i: nat, n: nat): (r: seq<int>)
    requires i < |p|
    decreases |p| - n
  {
    if PacksWith(p, i, n) then p[n].asns + PackedAsns(p, i, n + 1) else []
  }

  function PackData(p: Path, i: nat, n: nat, use32: bool): (r: seq<Byte>)
    requires i < |p| && InRange(p)
    decreases |p| - n
  {
    if PacksWith(p, i, n) then Data(p[n].asns, use32) + PackData(p, i, n + 1, use32) else []
  }

  /** Output of one turn of the writer.  The length octet counts the first and the last of the
      segments that share the chunk, as the code does. */
  function PutTurn(p: Path, i: nat, use32: bool): (r: seq<Byte>)
    requires i < |p| && InRange(p)
  {
    var end := PackEnd(p, i, i + 1);
    if end == i + 1 then PutSegment(p[i], 0, use32)
    else
      LastPacks(p, i, i + 1);
      (Chunk(p[i].kind, p[i].asns, use32) + PackData(p, i, i + 1, use32))[1 := |p[i].asns| + |p[end - 1].asns|]
  }

  lemma {:induction false} LastPacks(p: Path, i: nat, n: nat)
    requires i < |p|
    ensures PackEnd(p, i, n) > n ==> PacksWith(p, i, n) && PacksWith(p, i, PackEnd(p, i, n) - 1)
    decreases |p| - n
  {
    if PacksWith(p, i, n) { LastPacks(p, i, n + 1); }
  }

  function PutTurns(p: Path, i: nat, use32: bool): (r: seq<Byte>)
    requires InRange(p)
    decreases |p| - i
  {
    if i >= |p| then [] else PutTurn(p, i, use32) + PutTurns(p, PackEnd(p, i, i + 1), use32)
  }

  lemma {:induction false} PackedSplit(p: Path, i: nat, n: nat)
    requires i < |p| && PacksWith(p, i, n)
    ensures |PackedAsns(p, i, n)| >= |p[PackEnd(p, i, n) - 1].asns|
    ensures PackEnd(p, i, n) == n + 1 ==> |PackedAsns(p, i, n)| == |p[n].asns|
    decreases |p| - n
  {
    LastPacks(p, i, n);
    assert n < |p|;
    hide Packable;
    if PacksWith(p, i, n + 1) { PackedSplit(p, i, n + 1); }
  }

  /** The length octet of a shared chunk is right exactly if the segments between the first and
      the last one are empty. */
  lemma PackedLength(p: Path, i: nat, use32: bool)
    requires i < |p| && InRange(p) && PacksWith(p, i, i + 1)
    ensures var end := PackEnd(p, i, i + 1);
      i + 1 < end <= |p| && PutTurn(p, i, use32)[1] <= |p[i].asns| + |PackedAsns(p, i, i + 1)|
      && (PutTurn(p, i, use32)[1] == |p[i].asns| + |PackedAsns(p, i, i + 1)|
          <==> |PackedAsns(p, i, i + 1)| == |p[end - 1].asns|)
  {
    LastPacks(p, i, i + 1);
    PackedSplit(p, i, i + 1);
  }

  /** Three short sequences in a row: three numbers are written under a length of two. */
  lemma PackMiscounts()
    ensures var p := [Segment(AsSequence, [1]), Segment(AsSequence, [2]), Segment(AsSequence, [3])];
      InRange(p) && |PutTurns(p, 0, true)| == 14 && PutTurns(p, 0, true)[1] == 2
  {
    var p := [Segment(AsSequence, [1]), Segment(AsSequence, [2]), Segment(AsSequence, [3])];
    assert PacksWith(p, 0, 1) && PacksWith(p, 0, 2) && !PacksWith(p, 0, 3);
    assert PackEnd(p, 0, 2) == 3 && PackEnd(p, 0, 1) == 3;
    assert PackData(p, 0, 3, true) == [];
    assert PackData(p, 0, 2, true) == Data([3], true) + [];
    assert PackData(p, 0, 1, true) == Data([2], true) + PackData(p, 0, 2, true);
    assert PutTurns(p, 3, true) == [];
  }

  lemma {:induction false} NormalTurns(p: Path, i: nat, use32: bool)
    requires InRange(p) && IsNormal(p) && i <= |p|
    ensures PutTurns(p, i, use32) == PutPath(p[i..], use32)
    decreases |p| - i
  {
    if i < |p| {
      assert i + 1 < |p| ==> !Packable(p[i], p[i + 1]);
      assert PackEnd(p, i, i + 1) == i + 1;
      NormalTurns(p, i + 1, use32);
      assert p[i..][1..] == p[i + 1..];
    }
  }

  ghost predicate Short(p: Path) {
    forall i :: 0 <= i < |p| ==> |p[i].asns| <= 2 * AS_SEGMENT_MAX
  }

  /** The chunk loop for one segment: the bytes it appends, how many numbers precede the
      last chunk, and how far its running byte count overshoots the bytes appended. */
  method PutFullChunks(seg: Segment, use32: bool) returns (s: seq<Byte>, written: nat, bytes: int)
    requires AllU32(seg.asns)
    ensures written <= |seg.asns| && |seg.asns| - written <= AS_SEGMENT_MAX
    ensures written > 0 <==> |seg.asns| > AS_SEGMENT_MAX
    ensures s + Chunk(seg.kind, seg.asns[written..], use32) == PutSegment(seg, 0, use32)
    ensures bytes >= |s|
    ensures bytes == |s| <==> |seg.asns| <= 2 * AS_SEGMENT_MAX
  {
    s, written, bytes := [], 0, 0;
    ghost var later := PutSegment(seg, 0, use32);
    assert s + later == later;
    while |seg.asns| - written > AS_SEGMENT_MAX
      invariant written <= |seg.asns|
      invariant written == 0 || written == AS_SEGMENT_MAX || written >= 2 * AS_SEGMENT_MAX
      invariant written > 0 ==> |seg.asns| > written
      invariant later == PutSegment(seg, written, use32)
      invariant s + later == PutSegment(seg, 0, use32)
      invariant bytes >= |s|
      invariant bytes == |s| <==> written <= AS_SEGMENT_MAX
    {
      var chunk := Chunk(seg.kind, seg.asns[..AS_SEGMENT_MAX], use32);
      later := PutSegment(seg, written + AS_SEGMENT_MAX, use32);
      ConcatAssociates(s, chunk, later);
      s := s + chunk;
      written := written + AS_SEGMENT_MAX;
      bytes := bytes + Size(written, use32);
    }
  }

  /** The packing loop: appends following sequences that fit beside `p[i]` and patches
      the length octet at `lenp`. */
  method PackFollowing(p: Path, i: nat, written: nat, out: seq<Byte>, lenp: nat, use32: bool)
    returns (s: seq<Byte>, next: nat, packed: nat)
    requires i < |p| && InRange(p) && lenp < |out|
    requires written <= |p[i].asns| && (written > 0 ==> |p[i].asns| > AS_SEGMENT_MAX)
    ensures next == PackEnd(p, i, i + 1)
    ensures |s| == |out| + Octets(packed, use32)
    ensures forall j :: i < j < next ==> |p[j].asns| <= AS_SEGMENT_MAX
    ensures next == i + 1 ==> s == out && packed == 0
    ensures next > i + 1 ==> written == 0 && PacksWith(p, i, next - 1)
    ensures next > i + 1 ==> s == (out + PackData(p, i, i + 1, use32))[lenp := |p[i].asns| + |p[next - 1].asns|]
  {
    hide *;
    s, next, packed := out, i + 1, 0;
    ghost var done: seq<Byte>, mark: Byte := [], out[lenp];
    PackingStarts(p, i, written, out, lenp, use32);
    while PacksWith(p, i, next)
      invariant Packing(p, i, next, written, out, lenp, use32, s, packed, done, mark)
      decreases |p| - next
    {
      PackingStep(p, i, next, written, out, lenp, use32, s, packed, done, mark);
      ghost var more := Data(p[next].asns, use32);
      s := s + Data(p[next].asns, use32);
      s := s[lenp := |p[i].asns| - written + |p[next].asns|];
      done, mark := done + more, |p[i].asns| + |p[next].asns|;
      packed := packed + |p[next].asns|;
      next := next + 1;
    }
    PackingEnds(p, i, next, written, out, lenp, use32, s, packed, done, mark);
  }

  /** Up to `next`: `done` has been appended and `mark` stands in the length octet. */
  ghost predicate Packing(p: Path, i: nat, next: nat, written: nat, out: seq<Byte>, lenp: nat, use32: bool,
                          s: seq<Byte>, packed: nat, done: seq<Byte>, mark: Byte)
    requires i < |p| && InRange(p) && lenp < |out|
  {
    && i < next <= |p| && PackEnd(p, i, next) == PackEnd(p, i, i + 1)
    && |s| == |out| + Octets(packed, use32)
    && (forall j :: i < j < next ==> |p[j].asns| <= AS_SEGMENT_MAX)
    && done + PackData(p, i, next, use32) == PackData(p, i, i + 1, use32)
    && s == (out + done)[lenp := mark]
    && (next == i + 1 ==> s == out && packed == 0)
    && (next > i + 1 ==> PacksWith(p, i, next - 1) && written == 0 && mark == |p[i].asns| + |p[next - 1].asns|)
  }

  lemma PackingStarts(p: Path, i: nat, written: nat, out: seq<Byte>, lenp: nat, use32: bool)
    requires i < |p| && InRange(p) && lenp < |out|
    ensures Packing(p, i, i + 1, written, out, lenp, use32, out, 0, [], out[lenp])
  {
    assert [] + PackData(p, i, i + 1, use32) == PackData(p, i, i + 1, use32) && out + [] == out;
  }

  lemma PackingStep(p: Path, i: nat, next: nat, written: nat, out: seq<Byte>, lenp: nat, use32: bool,
                    s: seq<Byte>, packed: nat, done: seq<Byte>, mark: Byte)
    requires i < |p| && InRange(p) && lenp < |out| && PacksWith(p, i, next)
    requires written <= |p[i].asns| && (written > 0 ==> |p[i].asns| > AS_SEGMENT_MAX)
    requires Packing(p, i, next, written, out, lenp, use32, s, packed, done, mark)
    ensures next < |p| && AllU32(p[next].asns) && lenp < |s| && written == 0
    ensures |p[i].asns| + |p[next].asns| < 256
    ensures |p[i].asns| + |p[next].asns| <= AS_SEGMENT_MAX
    ensures var more, total := Data(p[next].asns, use32), |p[i].asns| + |p[next].asns|;
      Packing(p, i, next + 1, written, out, lenp, use32, (s + more)[lenp := total], packed + |p[next].asns|, done + more, total)
  {
    PackNext(p, i, next, done, use32);
    PatchLast(out, done, Data(p[next].asns, use32), lenp, mark, |p[i].asns| + |p[next].asns|);
    hide PackData, Data;
  }

  lemma PackingEnds(p: Path, i: nat, next: nat, written: nat, out: seq<Byte>, lenp: nat, use32: bool,
                    s: seq<Byte>, packed: nat, done: seq<Byte>, mark: Byte)
    requires i < |p| && InRange(p) && lenp < |out| && !PacksWith(p, i, next)
    requires Packing(p, i, next, written, out, lenp, use32, s, packed, done, mark)
    ensures i < next <= |p| && next == PackEnd(p, i, i + 1) && |s| == |out| + Octets(packed, use32)
    ensures forall j :: i < j < next ==> |p[j].asns| <= AS_SEGMENT_MAX
    ensures next == i + 1 ==> s == out && packed == 0
    ensures next > i + 1 ==> written == 0 && PacksWith(p, i, next - 1)
    ensures next > i + 1 ==> s == (out + PackData(p, i, i + 1, use32))[lenp := |p[i].asns| + |p[next - 1].asns|]
  {
    PackStops(p, i, next, done, use32);
    hide PackData, Data;
  }

  lemma PackNext(p: Path, i: nat, n: nat, done: seq<Byte>, use32: bool)
    requires i < |p| && InRange(p) && PacksWith(p, i, n)
    ensures n < |p| && AllU32(p[n].asns) && |p[i].asns| + |p[n].asns| <= AS_SEGMENT_MAX
    ensures done + PackData(p, i, n, use32) == done + Data(p[n].asns, use32) + PackData(p, i, n + 1, use32)
  {
    ConcatAssociates(done, Data(p[n].asns, use32), PackData(p, i, n + 1, use32));
  }

  lemma PackStops(p: Path, i: nat, n: nat, done: seq<Byte>, use32: bool)
    requires i < |p| && InRange(p) && !PacksWith(p, i, n)
    ensures done + PackData(p, i, n, use32) == done
  {
  }

  /** Only the last value patched into a place counts. */
  lemma PatchLast(out: seq<Byte>, done: seq<Byte>, more: seq<Byte>, lenp: nat, u: Byte, v: Byte)
    requires lenp < |out|
    ensures ((out + done)[lenp := u] + more)[lenp := v] == (out + (done + more))[lenp := v]
  {
    ConcatAssociates(out, done, more);
  }

  /** One turn of the writer: segment `i` and whatever is packed behind it. */
  method PutOne(p: Path, i: nat, use32: bool) returns (s: seq<Byte>, bytes: int, next: nat)
    requires i < |p| && InRange(p)
    ensures s == PutTurn(p, i, use32) && next == PackEnd(p, i, i + 1)
    ensures forall j :: i < j < next ==> |p[j].asns| <= AS_SEGMENT_MAX
    ensures bytes >= |s|
    ensures bytes == |s| <==> |p[i].asns| <= 2 * AS_SEGMENT_MAX
  {
    var chunks, written, counted := PutFullChunks(p[i], use32);
    var lenp := |chunks| + 1;
    var last := Chunk(p[i].kind, p[i].asns[written..], use32);
    var packed;
    s, next, packed := PackFollowing(p, i, written, chunks + last, lenp, use32);
    bytes := counted + Size(|p[i].asns| - written + packed, use32);
    if next > i + 1 {
      assert chunks == [] && chunks + last == last && p[i].asns[0..] == p[i].asns;
    }
  }

  ghost predicate ShortUpTo(p: Path, n: nat) {
    forall i :: 0 <= i < n && i < |p| ==> |p[i].asns| <= 2 * AS_SEGMENT_MAX
  }

  /** The octets written for a path: none if it begins with an empty segment. */
  function Written(p: Path, use32: bool): seq<Byte>
    requires InRange(p)
  {
    if p == [] || p[0].asns == [] then [] else PutTurns(p, 0, use32)
  }

  /** Writes the path and returns the byte count it reports to its caller.
      The reported count is the number of bytes written exactly when no segment needs
      more than two chunks. */
  method Put(p: Path, use32: bool) returns (s: seq<Byte>, bytes: int)
    requires InRange(p)
    ensures bytes >= |s|
    ensures bytes == |s| <==> p == [] || p[0].asns == [] || Short(p)
    ensures s == Written(p, use32)
    ensures IsNormal(p) && p != [] && p[0].asns != [] ==> s == PutPath(p, use32)
  {
    s, bytes := [], 0;
    if p == [] || |p[0].asns| == 0 {
      return;
    }
    var i := 0;
    ghost var later := PutTurns(p, 0, use32);
    assert s + later == later;
    while i < |p|
      invariant i <= |p|
      invariant bytes >= |s|
      invariant bytes == |s| <==> ShortUpTo(p, i)
      invariant later == PutTurns(p, i, use32) && s + later == PutTurns(p, 0, use32)
    {
      var out, counted, next := PutOne(p, i, use32);
      later := PutTurns(p, next, use32);
      ConcatAssociates(s, out, later);
      s := s + out;
      bytes := bytes + counted;
      i := next;
    }
    assert s + [] == s;
    if IsNormal(p) {
      NormalTurns(p, 0, use32);
      assert p[0..] == p;
    }
  }

  // ----- the reader

  function ReadAsn(s: seq<Byte>, p: nat, use32: bool): int
    requires p + Octets(1, use32) <= |s|
  {
    if use32 then GetL(s, p) else GetW(s, p)
  }

  function ReadAsns(s: seq<Byte>, p: nat, n: nat, use32: bool): (r: seq<int>)
    requires p + Octets(n, use32) <= |s|
  {
    seq(n, i requires 0 <= i < n => ReadAsn(s, p + Octets(i, use32), use32))
  }

  /** The segment at position `p` of the window ending at `end`, and where it stops. */
  function ReadSegment(s: seq<Byte>, p: nat, end: nat, use32: bool): (r: Option<(Segment, nat)>)
    requires p < end <= |s|
    ensures r.Some? ==> p < r.value.1 <= end
  {
    if end - p <= 2 then None
    else
      var next := p + Size(s[p + 1], use32);
      if next > end || s[p + 1] == 0 || CodeKind(s[p]).None? then None
      else Some((Segment(CodeKind(s[p]).value, ReadAsns(s, p + 2, s[p + 1], use32)), next))
  }

  /** The segments spelled out by the window [p, end) of a stream, before normalisation. */
  function ParseFrom(s: seq<Byte>, p: nat, end: nat, use32: bool): (r: Option<Path>)
    requires p <= end <= |s|
    decreases end - p
  {
    if p == end then Some([])
    else match ReadSegment(s, p, end, use32)
      case None => None
      case Some((seg, next)) => Join([seg], ParseFrom(s, next, end, use32))
  }

  function ParseSpec(s: seq<Byte>, length: nat, use32: bool): (r: Option<Path>) {
    if length == 0 then Some([])
    else if |s| < length || |s| < 2 || length % 2 != 0 then None
    else match ParseFrom(s, 0, length, use32)
      case None => None
      case Some(p) => Some(Norm(p))
  }

  lemma ParseStep(s: seq<Byte>, p: nat, end: nat, use32: bool)
    requires p < end <= |s|
    ensures ReadSegment(s, p, end, use32).None? ==> ParseFrom(s, p, end, use32) == None
    ensures ReadSegment(s, p, end, use32).Some? ==>
      var seg, next := ReadSegment(s, p, end, use32).value.0, ReadSegment(s, p, end, use32).value.1;
      ParseFrom(s, p, end, use32) == Join([seg], ParseFrom(s, next, end, use32))
  {
    hide ReadSegment;
  }

  lemma ParseEnds(s: seq<Byte>, end: nat, use32: bool)
    requires end <= |s|
    ensures ParseFrom(s, end, end, use32) == Some([])
  {
  }

  /** Reads `length` octets of the stream `s` as a chain of segments. */
  method Parse(s: seq<Byte>, length: nat, use32: bool) returns (r: Option<Path>)
    ensures r == ParseSpec(s, length, use32)
  {
    if length == 0 {
      return Some([]);
    }
    if |s| < length || |s| < 2 || length % 2 != 0 {
      return None;
    }
    var head: Path := [];
    var bytes := 0;
    ghost var all := ParseFrom(s, 0, length, use32);
    assert all.Some? ==> head + all.value == all.value;
    hide ParseFrom, ReadAsns;
    while bytes < length
      invariant bytes <= length
      invariant all == Join(head, ParseFrom(s, bytes, length, use32))
    {
      ParseStep(s, bytes, length, use32);
      if length - bytes <= 2 {
        return None;
      }
      var kind, n := CodeKind(s[bytes]), s[bytes + 1];
      var segSize := Size(n, use32);
      if bytes + segSize > length || n == 0 {
        return None;
      }
      if kind.None? {
        return None;
      }
      var seg := Segment(kind.value, ReadAsns(s, bytes + 2, n, use32));
      JoinAssociates(head, [seg], ParseFrom(s, bytes + segSize, length, use32));
      head := head + [seg];
      bytes := bytes + segSize;
    }
    ParseEnds(s, length, use32);
    assert head + [] == head;
    var chain := Normalise(head);
    return Some(chain);
  }

  // ----- the round trip

  lemma {:induction false} DataAt(s: seq<Byte>, p: nat, asns: seq<int>, i: nat, use32: bool)
    requires AllU32(asns) && i < |asns| && At(s, p, Data(asns, use32))
    ensures ReadAsn(s, p + Octets(i, use32), use32) == Narrow(asns[i], use32)
    decreases i
  {
    var first := PutAsn(asns[0], use32);
    AtConcat(s, p, first, Data(asns[1..], use32));
    if i == 0 {
      assert forall k :: 0 <= k < |first| ==> s[p + k] == first[k];
      assert ReadAsn(s, p, use32) == ReadAsn(first, 0, use32);
    } else {
      DataAt(s, p + |first|, asns[1..], i - 1, use32);
    }
  }

  lemma ReadsBack(s: seq<Byte>, p: nat, asns: seq<int>, use32: bool)
    requires AllU32(asns) && At(s, p, Data(asns, use32))
    ensures ReadAsns(s, p, |asns|, use32) == NarrowAll(asns, use32)
  {
    forall i | 0 <= i < |asns|
      ensures ReadAsn(s, p + Octets(i, use32), use32) == Narrow(asns[i], use32)
    {
      DataAt(s, p, asns, i, use32);
    }
  }

  lemma ChunkReadsBack(s: seq<Byte>, p: nat, kind: SegKind, asns: seq<int>, use32: bool)
    requires 0 < |asns| <= AS_SEGMENT_MAX && AllU32(asns)
    requires At(s, p, Chunk(kind, asns, use32))
    ensures ReadSegment(s, p, |s|, use32)
         == Some((Segment(kind, NarrowAll(asns, use32)), p + Size(|asns|, use32)))
  {
    var header := [KindCode(kind), |asns|];
    AtConcat(s, p, header, Data(asns, use32));
    assert s[p + 0] == header[0] && s[p + 1] == header[1];
    ReadsBack(s, p + 2, asns, use32);
  }

  /** How the writer cuts a segment of at most two chunks. */
  function Cut(s: Segment): (r: Path) {
    if |s.asns| <= AS_SEGMENT_MAX then [s]
    else [Segment(s.kind, s.asns[..AS_SEGMENT_MAX]), Segment(s.kind, s.asns[AS_SEGMENT_MAX..])]
  }

  function CutAll(p: Path): (r: Path) {
    if p == [] then [] else Cut(p[0]) + CutAll(p[1..])
  }

  ghost predicate NoEmptySegment(p: Path) {
    forall i :: 0 <= i < |p| ==> p[i].asns != []
  }

  lemma ParseTwo(s: seq<Byte>, p: nat, first: Segment, mid: nat, second: Segment, next: nat, tail: Path, use32: bool)
    requires p < mid < next <= |s|
    requires ReadSegment(s, p, |s|, use32) == Some((first, mid))
    requires ReadSegment(s, mid, |s|, use32) == Some((second, next))
    requires ParseFrom(s, next, |s|, use32) == Some(tail)
    ensures ParseFrom(s, p, |s|, use32) == Some([first, second] + tail)
  {
    assert ParseFrom(s, mid, |s|, use32) == Some([second] + tail);
    assert [first, second] + tail == [first] + ([second] + tail);
  }

  lemma CutNarrow(g: Segment, use32: bool)
    requires AS_SEGMENT_MAX < |g.asns|
    ensures Cut(Segment(g.kind, NarrowAll(g.asns, use32)))
         == [Segment(g.kind, NarrowAll(g.asns[..AS_SEGMENT_MAX], use32)),
             Segment(g.kind, NarrowAll(g.asns[AS_SEGMENT_MAX..], use32))]
  {
    var n := NarrowAll(g.asns, use32);
    assert n[..AS_SEGMENT_MAX] == NarrowAll(g.asns[..AS_SEGMENT_MAX], use32);
    assert n[AS_SEGMENT_MAX..] == NarrowAll(g.asns[AS_SEGMENT_MAX..], use32);
  }

  lemma ParseLong(s: seq<Byte>, p: nat, kind: SegKind, a: seq<int>, b: seq<int>, tail: Path, use32: bool)
    requires 0 < |a| <= AS_SEGMENT_MAX && AllU32(a)
    requires 0 < |b| <= AS_SEGMENT_MAX && AllU32(b)
    requires At(s, p, Chunk(kind, a, use32))
    requires At(s, p + Size(|a|, use32), Chunk(kind, b, use32))
    requires ParseFrom(s, p + Size(|a|, use32) + Size(|b|, use32), |s|, use32) == Some(tail)
    ensures ParseFrom(s, p, |s|, use32)
         == Some([Segment(kind, NarrowAll(a, use32)), Segment(kind, NarrowAll(b, use32))] + tail)
  {
    var mid: nat := p + Size(|a|, use32);
    var next: nat := mid + Size(|b|, use32);
    var first, second := Segment(kind, NarrowAll(a, use32)), Segment(kind, NarrowAll(b, use32));
    assert p < mid < next <= |s|;
    hide At, Chunk, ParseFrom, ReadSegment, NarrowAll, AllU32, Size;
    ChunkReadsBack(s, p, kind, a, use32);
    ChunkReadsBack(s, mid, kind, b, use32);
    ParseTwo(s, p, first, mid, second, next, tail, use32);
  }

  lemma PutLong(g: Segment, use32: bool)
    requires AS_SEGMENT_MAX < |g.asns| <= 2 * AS_SEGMENT_MAX && AllU32(g.asns)
    ensures PutSegment(g, 0, use32)
         == Chunk(g.kind, g.asns[..AS_SEGMENT_MAX], use32) + Chunk(g.kind, g.asns[AS_SEGMENT_MAX..], use32)
  {
    assert PutSegment(g, AS_SEGMENT_MAX, use32) == Chunk(g.kind, g.asns[AS_SEGMENT_MAX..], use32);
  }

  lemma ParseCut(s: seq<Byte>, p: nat, g: Segment, tail: Path, use32: bool)
    requires 0 < |g.asns| <= 2 * AS_SEGMENT_MAX && AllU32(g.asns)
    requires At(s, p, PutSegment(g, 0, use32))
    requires ParseFrom(s, p + |PutSegment(g, 0, use32)|, |s|, use32) == Some(tail)
    ensures ParseFrom(s, p, |s|, use32) == Some(Cut(Segment(g.kind, NarrowAll(g.asns, use32))) + tail)
  {
    if |g.asns| <= AS_SEGMENT_MAX {
      assert g.asns[0..] == g.asns;
      ChunkReadsBack(s, p, g.kind, g.asns, use32);
    } else {
      var a, b := g.asns[..AS_SEGMENT_MAX], g.asns[AS_SEGMENT_MAX..];
      PutLong(g, use32);
      AtConcat(s, p, Chunk(g.kind, a, use32), Chunk(g.kind, b, use32));
      ParseLong(s, p, g.kind, a, b, tail, use32);
      CutNarrow(g, use32);
    }
  }

  lemma {:induction false} PathReadsBack(s: seq<Byte>, at: nat, p: Path, use32: bool)
    requires InRange(p) && NoEmptySegment(p) && Short(p)
    requires At(s, at, PutPath(p, use32)) && at + |PutPath(p, use32)| == |s|
    ensures ParseFrom(s, at, |s|, use32) == Some(CutAll(NarrowPath(p, use32)))
    decreases p
  {
    if p != [] {
      var first := PutSegment(p[0], 0, use32);
      var q := NarrowPath(p, use32);
      assert q[1..] == NarrowPath(p[1..], use32);
      AtConcat(s, at, first, PutPath(p[1..], use32));
      PathReadsBack(s, at + |first|, p[1..], use32);
      ParseCut(s, at, p[0], CutAll(q[1..]), use32);
    }
  }

  ghost predicate WithinLimits(p: Path) {
    forall i :: 0 <= i < |p| ==> SegmentWithinLimits(p[i])
  }

  predicate SegmentWithinLimits(s: Segment) {
    |s.asns| <= if s.kind.AsSequence? then 2 * AS_SEGMENT_MAX else AS_SEGMENT_MAX
  }

  lemma CutSegmentMeaning(s: Segment)
    ensures SegmentWithinLimits(s) ==> Meaning(Cut(s)) == SegmentMeaning(s)
    ensures !SegmentWithinLimits(s) && !s.kind.AsSequence? ==> |Meaning(Cut(s))| == 2
  {
    if |s.asns| <= AS_SEGMENT_MAX {
      assert Meaning([s]) == SegmentMeaning(s) + [];
    } else {
      var a, b := Segment(s.kind, s.asns[..AS_SEGMENT_MAX]), Segment(s.kind, s.asns[AS_SEGMENT_MAX..]);
      assert [a, b][1..] == [b] && [b][1..] == [];
      assert Meaning([b]) == SegmentMeaning(b) + [];
      if s.kind.AsSequence? {
        assert Hops(s.asns) == Hops(a.asns) + Hops(b.asns);
      }
    }
  }

  /** Cutting a sequence is invisible; cutting any other segment adds an item. */
  lemma {:induction false} CutMeaning(p: Path)
    requires Short(p)
    ensures WithinLimits(p) ==> Meaning(CutAll(p)) == Meaning(p)
    ensures |Meaning(CutAll(p))| >= |Meaning(p)|
    ensures !WithinLimits(p) ==> |Meaning(CutAll(p))| > |Meaning(p)|
  {
    if p != [] {
      CutMeaning(p[1..]);
      CutSegmentMeaning(p[0]);
      MeaningConcat(Cut(p[0]), CutAll(p[1..]));
      if SegmentWithinLimits(p[0]) && WithinLimits(p[1..]) {
        forall i | 0 <= i < |p| ensures SegmentWithinLimits(p[i]) {
          if i > 0 { assert p[i] == p[1..][i - 1]; }
        }
      }
    }
  }

  lemma {:induction false} CutKeepsNonEmpty(p: Path)
    requires NoEmptySegment(p) && Short(p)
    ensures NoEmptySequence(CutAll(p))
  {
    if p != [] { CutKeepsNonEmpty(p[1..]); }
  }

  lemma {:induction false} PutPathEven(p: Path, use32: bool)
    requires InRange(p)
    ensures |PutPath(p, use32)| % 2 == 0
    ensures p != [] ==> |PutPath(p, use32)| >= 2
  {
    if p != [] {
      PutPathEven(p[1..], use32);
      PutSegmentEven(p[0], 0, use32);
    }
  }

  lemma {:induction false} PutSegmentEven(s: Segment, written: nat, use32: bool)
    requires written <= |s.asns| && AllU32(s.asns)
    ensures |PutSegment(s, written, use32)| % 2 == 0
    ensures |PutSegment(s, written, use32)| >= 2
    decreases |s.asns| - written
  {
    if |s.asns| - written > AS_SEGMENT_MAX { PutSegmentEven(s, written + AS_SEGMENT_MAX, use32); }
  }

  /** Writing a normal path and reading the result back, with the length the writer
      reports, gives the (narrowed, re-normalised) path exactly when every sequence has at
      most 510 and every other segment at most 255 numbers. */
  method WireRoundTrip(p: Path, use32: bool) returns (r: Option<Path>)
    requires IsNormal(p) && InRange(p) && NoEmptySegment(p)
    ensures r == Some(Norm(NarrowPath(p, use32))) <==> WithinLimits(p)
    ensures use32 ==> Norm(NarrowPath(p, use32)) == p
  {
    var s, bytes := Put(p, use32);
    r := Parse(s, bytes, use32);
    var q := NarrowPath(p, use32);
    if use32 {
      assert forall i :: 0 <= i < |p| ==> NarrowAll(p[i].asns, use32) == p[i].asns;
      assert q == p;
      NormFixed(p);
    }
    if Short(p) {
      RoundTripShort(p, use32);
    }
  }

  /** Normalising the cut pieces restores a path exactly when it is within the limits. */
  lemma NormOfCut(q: Path)
    requires NoEmptySegment(q) && Short(q)
    ensures Norm(CutAll(q)) == Norm(q) <==> WithinLimits(q)
  {
    CutMeaning(q);
    CutKeepsNonEmpty(q);
    NoEmptyHasNoEmptyRun(CutAll(q));
    NoEmptyHasNoEmptyRun(q);
    NormCanonical(CutAll(q), q);
  }

  lemma RoundTripShort(p: Path, use32: bool)
    requires InRange(p) && NoEmptySegment(p) && Short(p)
    ensures var s := PutPath(p, use32);
            ParseSpec(s, |s|, use32) == Some(Norm(NarrowPath(p, use32))) <==> WithinLimits(p)
  {
    var s, q := PutPath(p, use32), NarrowPath(p, use32);
    assert forall i :: 0 <= i < |p| ==> |q[i].asns| == |p[i].asns| && q[i].kind == p[i].kind;
    assert WithinLimits(p) <==> WithinLimits(q);
    NormOfCut(q);
    PathReadsBack(s, 0, p, use32);
    PutPathEven(p, use32);
  }

  // ----- read paths are canonical

  lemma {:induction false} ReadHasNoEmpty(s: seq<Byte>, p: nat, end: nat, use32: bool)
    requires p <= end <= |s|
    ensures var r := ParseFrom(s, p, end, use32); r.Some? ==> NoEmptySegment(r.value)
    decreases end - p
  {
    if p < end {
      ParseStep(s, p, end, use32);
      var step := ReadSegment(s, p, end, use32);
      if step.Some? {
        var (seg, next) := step.value;
        assert seg.asns != [];
        ReadHasNoEmpty(s, next, end, use32);
      }
    }
  }

  /** Whatever the octets, a path that was read is in normal form and no run of it is empty; so two
      read paths mean the same exactly if they are identical. */
  lemma ReadCanonical(s: seq<Byte>, n: nat, sWide: bool, t: seq<Byte>, m: nat, tWide: bool)
    requires ParseSpec(s, n, sWide).Some? && ParseSpec(t, m, tWide).Some?
    ensures var p, q := ParseSpec(s, n, sWide).value, ParseSpec(t, m, tWide).value;
      Meaning(p) == Meaning(q) <==> p == q
  {
    var p := ReadNormal(s, n, sWide);
    var q := ReadNormal(t, m, tWide);
    NormCanonical(p, q);
    NormMeaning(p);
    NormMeaning(q);
  }

  lemma ReadNormal(s: seq<Byte>, n: nat, use32: bool) returns (p: Path)
    requires ParseSpec(s, n, use32).Some?
    ensures ParseSpec(s, n, use32) == Some(Norm(p)) && NoEmptyRun(p)
  {
    p := [];
    if n > 0 {
      p := ParseFrom(s, 0, n, use32).value;
      ReadHasNoEmpty(s, 0, n, use32);
      NoEmptyHasNoEmptyRun(p);
    }
  }
}
