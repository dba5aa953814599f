/** The framing of a path attribute block: type-length-value triples, and nothing else. */
module AttrFrame {
  import opened Options
  import opened Wire

  /** An attribute as it stands on the wire; the flag octet is kept whole. */
  datatype Tlv = Tlv(flags: Byte, code: Byte, value: seq<Byte>)

  predicate IsOptional(flags: Byte) { flags >= 128 }

  predicate IsTransitive(flags: Byte) { flags % 128 >= 64 }

  predicate IsPartial(flags: Byte) { flags % 64 >= 32 }

  predicate HasExtLen(flags: Byte) { flags % 32 >= 16 }

  const ATTR_MIN_LEN := 3

  predicate Fits(t: Tlv) {
    if HasExtLen(t.flags) then |t.value| < 65536 else |t.value| < 256
  }

  function Encode(t: Tlv): (r: seq<Byte>)
    requires Fits(t)
    ensures |r| >= ATTR_MIN_LEN
  {
    [t.flags, t.code] + (if HasExtLen(t.flags) then PutW(|t.value|) else [|t.value|]) + t.value
  }

  ghost predicate AllFit(ts: seq<Tlv>) {
    forall i :: 0 <= i < |ts| ==> Fits(ts[i])
  }

  function EncodeAll(ts: seq<Tlv>): seq<Byte>
    requires AllFit(ts)
  {
    if ts == [] then [] else Encode(ts[0]) + EncodeAll(ts[1..])
  }

  function HeaderLen(flags: Byte): nat { if HasExtLen(flags) then 4 else 3 }

  /** The attribute at position `p` of a block that stops at `end`, and where it stops. */
  function ReadTlv(s: seq<Byte>, p: nat, end: nat): (r: Option<(Tlv, nat)>)
    requires p < end <= |s|
    ensures r.Some? ==> p + ATTR_MIN_LEN <= r.value.1 <= end
  {
    if end - p < ATTR_MIN_LEN then None
    else if end - p < HeaderLen(s[p]) then None
    else
      var body: nat := p + HeaderLen(s[p]);
      var length: nat := if HasExtLen(s[p]) then GetW(s, p + 2) else s[p + 2];
      if body + length > end then None
      else Some((Tlv(s[p], s[p + 1], s[body..body + length]), body + length))
  }

  /** The attributes of the block [p, end), if it is an exact sequence of them. */
  function Frame(s: seq<Byte>, p: nat, end: nat): (r: Option<seq<Tlv>>)
    requires p <= end <= |s|
    decreases end - p
  {
    if p == end then Some([])
    else match ReadTlv(s, p, end)
      case None => None
      case Some((t, next)) =>
        match Frame(s, next, end)
        case None => None
        case Some(ts) => Some([t] + ts)
  }

  lemma ReadTlvWrites(s: seq<Byte>, p: nat, end: nat)
    requires p < end <= |s| && ReadTlv(s, p, end).Some?
    ensures var (t, next) := ReadTlv(s, p, end).value;
      Fits(t) && s[p..next] == Encode(t)
  {
    var (t, next) := ReadTlv(s, p, end).value;
    var body := p + HeaderLen(s[p]);
    if HasExtLen(t.flags) {
      assert PutW(|t.value|) == s[p + 2..p + 4];
    }
    assert s[p..next] == s[p..body] + t.value;
  }

  lemma ReadTlvReads(s: seq<Byte>, p: nat, end: nat, t: Tlv)
    requires Fits(t) && At(s, p, Encode(t)) && p + |Encode(t)| <= end <= |s|
    ensures ReadTlv(s, p, end) == Some((t, p + |Encode(t)|))
  {
    var e := Encode(t);
    var n: nat := HeaderLen(t.flags);
    assert forall k :: 0 <= k < |e| ==> s[p + k] == e[k];
    assert s[p] == e[0] && s[p + 1] == e[1] && s[p + 2] == e[2];
    if HasExtLen(t.flags) {
      assert s[p + 3] == e[3] && e[2..4] == PutW(|t.value|);
    }
    assert e[n..] == t.value;
    var v := s[p + n..p + n + |t.value|];
    assert v == t.value by {
      forall k | 0 <= k < |v| ensures v[k] == t.value[k] {
        assert s[p + (n + k)] == e[n + k];
      }
    }
  }

  /** A block that frames is the concatenation of its attributes. */
  lemma {:induction false} FrameWrites(s: seq<Byte>, p: nat, end: nat)
    requires p <= end <= |s| && Frame(s, p, end).Some?
    ensures var ts := Frame(s, p, end).value; AllFit(ts) && s[p..end] == EncodeAll(ts)
    decreases end - p
  {
    if p < end {
      var (t, next) := ReadTlv(s, p, end).value;
      ReadTlvWrites(s, p, end);
      FrameWrites(s, next, end);
      var ts := Frame(s, p, end).value;
      assert ts[1..] == Frame(s, next, end).value;
      assert s[p..end] == s[p..next] + s[next..end];
    }
  }

  /** The concatenation of any attributes frames as exactly these. */
  lemma {:induction false} FrameReads(s: seq<Byte>, p: nat, ts: seq<Tlv>)
    requires AllFit(ts) && At(s, p, EncodeAll(ts))
    ensures Frame(s, p, p + |EncodeAll(ts)|) == Some(ts)
    decreases |ts|
  {
    if ts != [] {
      var end: nat := p + |EncodeAll(ts)|;
      AtConcat(s, p, Encode(ts[0]), EncodeAll(ts[1..]));
      ReadTlvReads(s, p, end, ts[0]);
      FrameReads(s, p + |Encode(ts[0])|, ts[1..]);
      assert [ts[0]] + ts[1..] == ts;
    }
  }

  /** Framing and writing are inverse to each other on whole blocks. */
  lemma FrameIsExact(block: seq<Byte>, ts: seq<Tlv>)
    ensures Frame(block, 0, |block|) == Some(ts) <==> AllFit(ts) && block == EncodeAll(ts)
  {
    hide Frame, EncodeAll, AllFit;
    if Frame(block, 0, |block|) == Some(ts) {
      FrameWrites(block, 0, |block|);
      assert block[0..|block|] == block;
    }
    if AllFit(ts) && block == EncodeAll(ts) {
      FrameReads(block, 0, ts);
    }
  }
}
