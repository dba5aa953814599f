/** The attribute parser as it reads the input stream.  Every read is inside the window of the
    attribute at hand: the window's end is the reader's limit, and no read may pass it. */
module AttrReader {
  import opened Options
  import opened Wire
  import opened AttrFrame
  import opened AttrParse
  import AsPathWire

  /** The input stream of a peer with its read pointer. */
  class Input {
    const data: seq<Byte>
    var getp: nat
    ghost var limit: nat

    constructor (data: seq<Byte>)
      ensures this.data == data && getp == 0 && limit == |data|
    {
      this.data := data;
      getp, limit := 0, |data|;
    }

    ghost predicate Valid()
      reads this
    {
      getp <= limit <= |data|
    }

    /** What is left of the window. */
    ghost function Rest(): (r: seq<Byte>)
      requires Valid()
      reads this
      ensures |r| == limit - getp
    {
      data[getp..limit]
    }

    method Getc() returns (b: Byte)
      requires Valid() && getp < limit
      modifies this`getp
      ensures Valid() && getp == old(getp) + 1 && b == data[old(getp)]
    {
      b := data[getp];
      getp := getp + 1;
    }

    method Getw() returns (v: int)
      requires Valid() && getp + 2 <= limit
      modifies this`getp
      ensures Valid() && getp == old(getp) + 2 && v == GetW(data, old(getp))
    {
      var high := Getc();
      var low := Getc();
      v := (high as int) * 256 + low as int;
    }

    method Getl() returns (v: int)
      requires Valid() && getp + 4 <= limit
      modifies this`getp
      ensures Valid() && getp == old(getp) + 4 && v == GetL(data, old(getp))
    {
      var b0 := Getc();
      var b1 := Getc();
      var b2 := Getc();
      var b3 := Getc();
      v := (b0 as int) * 0x100_0000 + (b1 as int) * 0x1_0000 + (b2 as int) * 256 + b3 as int;
    }

    /** Copies the next `n` octets. */
    method Get(n: nat) returns (r: seq<Byte>)
      requires Valid() && getp + n <= limit
      modifies this`getp
      ensures Valid() && getp == old(getp) + n && r == data[old(getp)..getp]
    {
      r := data[getp..getp + n];
      getp := getp + n;
    }

    method Forward(n: nat)
      requires Valid() && getp + n <= limit
      modifies this`getp
      ensures Valid() && getp == old(getp) + n
    {
      getp := getp + n;
    }
  }

  lemma GetWithin(s: seq<Byte>, p: nat, q: nat, k: nat)
    requires p <= q <= |s|
    ensures k + 2 <= q - p ==> GetW(s, p + k) == GetW(s[p..q], k)
    ensures k + 4 <= q - p ==> GetL(s, p + k) == GetL(s[p..q], k)
  {
  }

  lemma SliceWithin(s: seq<Byte>, p: nat, q: nat, i: nat, j: nat)
    requires p <= q <= |s| && i <= j <= q - p
    ensures s[p..q][i..j] == s[p + i..p + j]
  {
    var a, b := s[p..q][i..j], s[p + i..p + j];
    forall k | 0 <= k < |a| ensures a[k] == b[k] {
      assert a[k] == s[p..q][i + k] == s[p + (i + k)];
    }
  }

  /** A malformed attribute.  For an external peer the rest of it is skipped, in case the
      message can still be used. */
  method ReportMalformed(inp: Input, peer: Peer, code: Byte, flags: Byte, start: nat, total: nat) returns (v: Verdict)
    requires inp.Valid() && start + total == inp.limit
    modifies inp`getp
    ensures inp.Valid() && v == Malformed(peer, code, flags)
    ensures v == Proceed ==> inp.getp == inp.limit
  {
    if peer.sort != Ebgp {
      return Error;
    }
    inp.getp := start + total;
    if code == AS4_AGGREGATOR || code == AGGREGATOR || code == ATOMIC_AGGREGATE {
      return Proceed;
    }
    if code in {ORIGIN, AS_PATH, NEXT_HOP, MED, LOCAL_PREF, COMMUNITIES, ORIGINATOR_ID, CLUSTER_LIST,
                MP_REACH_NLRI, MP_UNREACH_NLRI, EXT_COMMUNITIES} {
      return Error;
    }
    if IsTransitive(flags) && IsOptional(flags) && IsPartial(flags) {
      return Withdraw;
    }
    return NotifyPlease;
  }

  /** The attribute a handler is called for. */
  datatype Args = Args(peer: Peer, code: Byte, flags: Byte, length: nat, start: nat, total: nat)

  ghost predicate Ready(inp: Input, x: Args)
    reads inp
  {
    inp.Valid() && inp.limit == inp.getp + x.length && x.start + x.total == inp.limit
    && !FlagsInvalid(x.code, x.flags)
  }

  ghost function Subject(inp: Input, x: Args): Tlv
    requires inp.Valid()
    reads inp
  {
    Tlv(x.flags, x.code, inp.Rest())
  }

  /** The handler of `t` answered `v` and left `r`; if the message goes on, all of the
      attribute has been read. */
  ghost predicate Handled(inp: Input, x: Args, t: Tlv, a: Attr, v: Verdict, r: Attr)
    reads inp
  {
    inp.Valid() && v == Handle(x.peer, t)
    && (v == Proceed ==> inp.getp == inp.limit && r == Apply(x.peer, t, a))
  }

  method Malform(inp: Input, x: Args, ghost t: Tlv, a: Attr) returns (v: Verdict, r: Attr)
    requires inp.Valid() && x.start + x.total == inp.limit
    requires t.code == x.code && t.flags == x.flags && !GoodValue(x.peer, t)
    requires t.code !in {MP_REACH_NLRI, MP_UNREACH_NLRI, ENCAP}
    modifies inp`getp
    ensures Handled(inp, x, t, a, v, r)
  {
    hide GoodValue, Marks, FlagsInvalid;
    v := ReportMalformed(inp, x.peer, x.code, x.flags, x.start, x.total);
    r := a;
  }

  method ReadOrigin(inp: Input, x: Args, a: Attr) returns (v: Verdict, r: Attr)
    requires Ready(inp, x) && x.code == ORIGIN
    modifies inp`getp
    ensures Handled(inp, x, old(Subject(inp, x)), a, v, r)
  {
    ghost var t := Subject(inp, x);
    if x.length != 1 {
      v, r := Malform(inp, x, t, a);
      return;
    }
    var origin := inp.Getc();
    if origin != 0 && origin != 1 && origin != 2 {
      v, r := Malform(inp, x, t, a);
      return;
    }
    v, r := Proceed, a.(origin := origin, flag := a.flag + {x.code});
  }

  method ReadAsPath(inp: Input, x: Args, a: Attr) returns (v: Verdict, r: Attr)
    requires Ready(inp, x) && x.code in {AS_PATH, AS4_PATH}
    modifies inp`getp
    ensures Handled(inp, x, old(Subject(inp, x)), a, v, r)
  {
    ghost var t := Subject(inp, x);
    var window := inp.Get(x.length);
    var path := AsPathWire.Parse(window, x.length, x.code == AS4_PATH || x.peer.as4);
    hide AsPathWire.ParseSpec;
    if path.None? {
      v, r := Malform(inp, x, t, a);
    } else if x.code == AS_PATH {
      v, r := Proceed, a.(path := path.value, flag := a.flag + {x.code});
    } else {
      v, r := Proceed, a.(as4Path := path.value, flag := a.flag + {x.code});
    }
  }

  method ReadNextHop(inp: Input, x: Args, a: Attr) returns (v: Verdict, r: Attr)
    requires Ready(inp, x) && x.code == NEXT_HOP
    modifies inp`getp
    ensures Handled(inp, x, old(Subject(inp, x)), a, v, r)
  {
    ghost var t := Subject(inp, x);
    if x.length != 4 {
      v, r := Malform(inp, x, t, a);
      return;
    }
    var hop := inp.Get(4);
    if Martian(hop) && !x.peer.allowMartians {
      v, r := Malform(inp, x, t, a);
      return;
    }
    v, r := Proceed, a.(nexthop := hop, flag := a.flag + {x.code});
  }

  method ReadMed(inp: Input, x: Args, a: Attr) returns (v: Verdict, r: Attr)
    requires Ready(inp, x) && x.code == MED
    modifies inp`getp
    ensures Handled(inp, x, old(Subject(inp, x)), a, v, r)
  {
    ghost var t := Subject(inp, x);
    if x.length != 4 {
      v, r := Malform(inp, x, t, a);
      return;
    }
    GetWithin(inp.data, inp.getp, inp.limit, 0);
    var med := inp.Getl();
    v, r := Proceed, a.(med := med, flag := a.flag + {x.code});
  }

  /** An external peer's LOCAL_PREF is read over and ignored. */
  method ReadLocalPref(inp: Input, x: Args, a: Attr) returns (v: Verdict, r: Attr)
    requires Ready(inp, x) && x.code == LOCAL_PREF
    modifies inp`getp
    ensures Handled(inp, x, old(Subject(inp, x)), a, v, r)
  {
    ghost var t := Subject(inp, x);
    if x.length != 4 {
      v, r := Malform(inp, x, t, a);
      return;
    }
    if x.peer.sort == Ebgp {
      inp.Forward(x.length);
      return Proceed, a;
    }
    GetWithin(inp.data, inp.getp, inp.limit, 0);
    var pref := inp.Getl();
    v, r := Proceed, a.(localPref := pref, flag := a.flag + {x.code});
  }

  method ReadAtomic(inp: Input, x: Args, a: Attr) returns (v: Verdict, r: Attr)
    requires Ready(inp, x) && x.code == ATOMIC_AGGREGATE
    modifies inp`getp
    ensures Handled(inp, x, old(Subject(inp, x)), a, v, r)
  {
    ghost var t := Subject(inp, x);
    if x.length != 0 {
      v, r := Malform(inp, x, t, a);
      return;
    }
    v, r := Proceed, a.(flag := a.flag + {x.code});
  }

  method ReadAggregator(inp: Input, x: Args, a: Attr) returns (v: Verdict, r: Attr)
    requires Ready(inp, x) && x.code == AGGREGATOR
    modifies inp`getp
    ensures Handled(inp, x, old(Subject(inp, x)), a, v, r)
  {
    ghost var t := Subject(inp, x);
    var wanted := if x.peer.as4 then 8 else 6;
    if x.length != wanted {
      v, r := Malform(inp, x, t, a);
      return;
    }
    GetWithin(inp.data, inp.getp, inp.limit, 0);
    var asn;
    if x.peer.as4 {
      asn := inp.Getl();
    } else {
      asn := inp.Getw();
    }
    var addr := inp.Get(4);
    assert addr == t.value[wanted - 4..];
    v, r := Proceed, a.(aggregator := (asn, addr), flag := a.flag + {x.code});
  }

  method ReadAs4Aggregator(inp: Input, x: Args, a: Attr) returns (v: Verdict, r: Attr)
    requires Ready(inp, x) && x.code == AS4_AGGREGATOR
    modifies inp`getp
    ensures Handled(inp, x, old(Subject(inp, x)), a, v, r)
  {
    ghost var t := Subject(inp, x);
    if x.length != 8 {
      v, r := Malform(inp, x, t, a);
      return;
    }
    GetWithin(inp.data, inp.getp, inp.limit, 0);
    var asn := inp.Getl();
    var addr := inp.Get(4);
    assert addr == t.value[4..];
    v, r := Proceed, a.(as4Aggregator := (asn, addr), flag := a.flag + {x.code});
  }

  /** The three kinds of community lists; an empty one clears the list and is not recorded. */
  method ReadCommunities(inp: Input, x: Args, a: Attr) returns (v: Verdict, r: Attr)
    requires Ready(inp, x) && IsCommunityLike(x.code)
    modifies inp`getp
    ensures Handled(inp, x, old(Subject(inp, x)), a, v, r)
  {
    ghost var t := Subject(inp, x);
    var unit := if x.code == COMMUNITIES then 4 else if x.code == EXT_COMMUNITIES then 8 else 12;
    if x.length == 0 {
      assert t.value == [];
      v, r := Proceed, WithCommunities(a, x.code, []);
      return;
    }
    var window := inp.Get(x.length);
    if x.length % unit != 0 {
      v, r := Malform(inp, x, t, a);
      return;
    }
    v, r := Proceed, WithCommunities(a, x.code, window).(flag := a.flag + {x.code});
  }

  function WithCommunities(a: Attr, code: Byte, v: seq<Byte>): Attr {
    if code == COMMUNITIES then a.(community := v)
    else if code == EXT_COMMUNITIES then a.(ecommunity := v)
    else a.(lcommunity := v)
  }

  method ReadOriginatorId(inp: Input, x: Args, a: Attr) returns (v: Verdict, r: Attr)
    requires Ready(inp, x) && x.code == ORIGINATOR_ID
    modifies inp`getp
    ensures Handled(inp, x, old(Subject(inp, x)), a, v, r)
  {
    ghost var t := Subject(inp, x);
    if x.length != 4 {
      v, r := Malform(inp, x, t, a);
      return;
    }
    var id := inp.Get(4);
    v, r := Proceed, a.(originator := id, flag := a.flag + {x.code});
  }

  method ReadClusterList(inp: Input, x: Args, a: Attr) returns (v: Verdict, r: Attr)
    requires Ready(inp, x) && x.code == CLUSTER_LIST
    modifies inp`getp
    ensures Handled(inp, x, old(Subject(inp, x)), a, v, r)
  {
    ghost var t := Subject(inp, x);
    if x.length % 4 != 0 {
      v, r := Malform(inp, x, t, a);
      return;
    }
    var list := inp.Get(x.length);
    v, r := Proceed, a.(cluster := list, flag := a.flag + {x.code});
  }

  /** Reads the next hop field, skipping route distinguishers. */
  method ReadHop(inp: Input, n: nat, was: MpNextHop) returns (r: Option<MpNextHop>)
    requires inp.Valid() && inp.getp + n <= inp.limit
    modifies inp`getp
    ensures inp.Valid() && r == ReadMpNextHop(inp.data[old(inp.getp)..old(inp.getp) + n], was)
    ensures r.Some? ==> inp.getp == old(inp.getp) + n
  {
    if n == 4 {
      var addr := inp.Get(4);
      r := Some(was.(len := 4, globalIn := addr));
    } else if n == 12 {
      SliceWithin(inp.data, inp.getp, inp.getp + n, 8, 12);
      inp.Forward(8);
      var addr := inp.Get(4);
      r := Some(was.(len := 12, globalIn := addr));
    } else if n == 16 || n == 24 {
      SliceWithin(inp.data, inp.getp, inp.getp + n, n - 16, n);
      if n == 24 {
        inp.Forward(8);
      }
      var addr := inp.Get(16);
      r := Some(was.(len := n, global := addr));
    } else if n == 32 || n == 48 {
      r := ReadHopPair(inp, n, was);
    } else {
      r := None;
    }
  }

  method ReadHopPair(inp: Input, n: nat, was: MpNextHop) returns (r: Option<MpNextHop>)
    requires inp.Valid() && inp.getp + n <= inp.limit && (n == 32 || n == 48)
    modifies inp`getp
    ensures inp.Valid() && r == ReadMpNextHop(inp.data[old(inp.getp)..old(inp.getp) + n], was)
    ensures inp.getp == old(inp.getp) + n
  {
    var skip := if n == 48 then 8 else 0;
    SliceWithin(inp.data, inp.getp, inp.getp + n, skip, skip + 16);
    SliceWithin(inp.data, inp.getp, inp.getp + n, n - 16, n);
    if n == 48 {
      inp.Forward(8);
    }
    var global := inp.Get(16);
    if n == 48 {
      inp.Forward(8);
    }
    var local := inp.Get(16);
    r := Some(was.(len := if LinkLocal(local) then n else 16, global := global, local := local));
  }

  method ReadMpReach(inp: Input, x: Args, a: Attr) returns (v: Verdict, r: Attr)
    requires Ready(inp, x) && x.code == MP_REACH_NLRI
    modifies inp`getp
    ensures Handled(inp, x, old(Subject(inp, x)), a, v, r)
  {
    ghost var t := Subject(inp, x);
    if x.length < 5 {
      return NotifyPlease, a;
    }
    GetWithin(inp.data, inp.getp, inp.limit, 0);
    var start := inp.getp;
    var afi := inp.Getw();
    var safi := inp.Getc();
    var n: nat := inp.Getc();
    assert n == t.value[3];
    if x.length - (inp.getp - start) < n {
      return NotifyPlease, a;
    }
    ghost var hop := t.value[4..4 + n];
    SliceWithin(inp.data, start, inp.limit, 4, 4 + n);
    var next := ReadHop(inp, n, a.mpNextHop);
    hide ReadMpNextHop;
    HopSizes(hop, a.mpNextHop);
    if next.None? {
      return NotifyPlease, a;
    }
    if x.length - (inp.getp - start) == 0 {
      return NotifyPlease, a;
    }
    var snpa := inp.Getc();
    var left := x.length - (inp.getp - start);
    if left == 0 {
      return NotifyPlease, a;
    }
    SliceWithin(inp.data, start, inp.limit, 5 + n, x.length);
    var prefixes := inp.Get(left);
    v := Proceed;
    r := a.(mpNextHop := next.value, mpReach := Some(Nlri(afi, safi, prefixes)), flag := a.flag + {x.code});
    if n == 4 && a.nexthop == NO_ADDRESS {
      HopOfFour(hop, a.mpNextHop);
      r := r.(nexthop := next.value.globalIn);
    }
  }

  lemma HopSizes(hop: seq<Byte>, was: MpNextHop)
    ensures ReadMpNextHop(hop, was).Some? <==> |hop| in {4, 12, 16, 24, 32, 48}
  {
  }

  lemma HopOfFour(hop: seq<Byte>, was: MpNextHop)
    requires |hop| == 4
    ensures ReadMpNextHop(hop, was).Some? && ReadMpNextHop(hop, was).value.globalIn == hop
  {
  }

  method ReadMpUnreach(inp: Input, x: Args, a: Attr) returns (v: Verdict, r: Attr)
    requires Ready(inp, x) && x.code == MP_UNREACH_NLRI
    modifies inp`getp
    ensures Handled(inp, x, old(Subject(inp, x)), a, v, r)
  {
    ghost var t := Subject(inp, x);
    if x.length < 3 {
      return NotifyPlease, a;
    }
    GetWithin(inp.data, inp.getp, inp.limit, 0);
    var afi := inp.Getw();
    var safi := inp.Getc();
    var prefixes := inp.Get(x.length - 3);
    assert prefixes == t.value[3..];
    v, r := Proceed, a.(mpUnreach := Some(Nlri(afi, safi, prefixes)), flag := a.flag + {x.code});
  }

  method ReadUnknown(inp: Input, x: Args, a: Attr) returns (v: Verdict, r: Attr)
    requires Ready(inp, x) && RequiredFlags(x.code).None? && x.code != ENCAP
    requires Fits(Subject(inp, x)) && At(inp.data, x.start, Encode(Subject(inp, x)))
    requires x.total == |Encode(Subject(inp, x))|
    modifies inp`getp
    ensures Handled(inp, x, old(Subject(inp, x)), a, v, r)
  {
    ghost var t := Subject(inp, x);
    inp.Forward(x.length);
    if !IsOptional(x.flags) {
      v, r := Malform(inp, x, t, a);
      return;
    }
    if !IsTransitive(x.flags) {
      return Proceed, a;
    }
    var raw := inp.data[x.start..x.start + x.total];
    assert raw == Encode(t);
    raw := raw[0 := SetPartial(raw[0])];
    PartialInPlace(t);
    v, r := Proceed, a.(transit := a.transit + raw);
  }

  lemma PartialInPlace(t: Tlv)
    requires Fits(t)
    ensures Fits(t.(flags := SetPartial(t.flags)))
    ensures Encode(t.(flags := SetPartial(t.flags))) == Encode(t)[0 := SetPartial(t.flags)]
  {
    assert HasExtLen(SetPartial(t.flags)) == HasExtLen(t.flags);
  }

  lemma SubTlvStep(ts: seq<SubTlv>, v: seq<Byte>, p: nat)
    requires p + 4 <= |v|
    ensures var next := p + 2 + v[p + 1];
      if next > |v| then Join(ts, ReadSubTlvs(v, p)).None?
      else Join(ts, ReadSubTlvs(v, p)) == Join(ts + [SubTlv(v[p], v[p + 2..next])], ReadSubTlvs(v, next))
  {
    var next := p + 2 + v[p + 1];
    if next <= |v| {
      var t := SubTlv(v[p], v[p + 2..next]);
      match ReadSubTlvs(v, next)
      case None =>
      case Some(rest) => ConcatAssociates(ts, [t], rest);
    }
  }

  lemma SubTlvEnds(ts: seq<SubTlv>, v: seq<Byte>, p: nat)
    requires p <= |v| < p + 4
    ensures Join(ts, ReadSubTlvs(v, p)) == if p == |v| then Some(ts) else None
  {
    assert ts + [] == ts;
  }

  /** The stream carries `v` at `base`, from position `p` of `v` on. */
  ghost predicate Carries(s: seq<Byte>, base: int, v: seq<Byte>, p: nat) {
    p <= |v| && base + p >= 0 && base + |v| <= |s| && forall k :: p <= k < |v| ==> s[base + k] == v[k]
  }

  method ReadSubTlv(inp: Input, left: nat, ghost base: int, ghost v: seq<Byte>) returns (t: Option<SubTlv>, rest: nat)
    requires inp.Valid() && Carries(inp.data, base, v, 4)
    requires 4 <= left == inp.limit - inp.getp <= |v| - 4 && inp.limit == base + |v|
    modifies inp`getp
    ensures inp.Valid()
    ensures var p := |v| - left;
      var next := p + 2 + v[p + 1];
      if next > |v| then t.None?
      else t == Some(SubTlv(v[p], v[p + 2..next])) && rest == |v| - next == inp.limit - inp.getp
  {
    ghost var p: nat := |v| - left;
    CarriesAt(inp.data, base, v, p);
    var code := inp.Getc();
    var n: nat := inp.Getc();
    rest := left - 2;
    if n > rest {
      return None, rest;
    }
    CarriesSlice(inp.data, base, v, p + 2, p + 2 + n);
    var value := inp.Get(n);
    t, rest := Some(SubTlv(code, value)), rest - n;
  }

  /** The sub-attributes of a tunnel encapsulation attribute. */
  method ReadSubTlvList(inp: Input, length: nat, ghost v: seq<Byte>) returns (ok: bool, ts: seq<SubTlv>)
    requires inp.Valid() && |v| >= 4 && inp.Rest() == v[4..] && length == |v| - 4
    modifies inp`getp
    ensures inp.Valid()
    ensures ok <==> ReadSubTlvs(v, 4).Some?
    ensures ok ==> ts == ReadSubTlvs(v, 4).value && inp.getp == inp.limit
  {
    ghost var base := inp.getp - 4;
    RestCarries(inp, v);
    hide ReadSubTlvs, Join, Carries;
    JoinNothing(ReadSubTlvs(v, 4));
    ts := [];
    var left: nat := length;
    while left >= 4
      invariant inp.Valid() && inp.limit == base + |v|
      invariant left == inp.limit - inp.getp <= |v| - 4
      invariant Join(ts, ReadSubTlvs(v, |v| - left)) == ReadSubTlvs(v, 4)
      decreases left
    {
      ghost var p: nat := |v| - left;
      SubTlvStep(ts, v, p);
      var t;
      t, left := ReadSubTlv(inp, left, base, v);
      if t.None? {
        return false, ts;
      }
      ts := ts + [t.value];
    }
    SubTlvEnds(ts, v, |v| - left);
    ok := left == 0;
  }

  lemma RestCarries(inp: Input, v: seq<Byte>)
    requires inp.Valid() && |v| >= 4 && inp.Rest() == v[4..]
    ensures Carries(inp.data, inp.getp - 4, v, 4) && inp.limit - inp.getp == |v| - 4
  {
    assert |inp.Rest()| == |v| - 4;
    assert forall k :: 4 <= k < |v| ==> inp.Rest()[k - 4] == v[4..][k - 4] == v[k];
  }

  lemma CarriesAt(s: seq<Byte>, base: int, v: seq<Byte>, p: nat)
    requires Carries(s, base, v, 4) && 4 <= p && p + 2 <= |v|
    ensures s[base + p] == v[p] && s[base + p + 1] == v[p + 1]
  {
    assert s[base + (p + 1)] == v[p + 1];
  }

  lemma CarriesSlice(s: seq<Byte>, base: int, v: seq<Byte>, p: nat, q: nat)
    requires Carries(s, base, v, 4) && 4 <= p <= q <= |v|
    ensures s[base + p..base + q] == v[p..q]
  {
    var w := s[base + p..base + q];
    forall k | 0 <= k < |w| ensures w[k] == v[p..q][k] {
      assert s[base + (p + k)] == v[p + k];
    }
  }

  method ReadEncap(inp: Input, x: Args, a: Attr) returns (v: Verdict, r: Attr)
    requires Ready(inp, x) && x.code == ENCAP
    modifies inp`getp
    ensures Handled(inp, x, old(Subject(inp, x)), a, v, r)
  {
    ghost var t := Subject(inp, x);
    if !IsTransitive(x.flags) || !IsOptional(x.flags) {
      return Error, a;
    }
    if x.length < 4 {
      return Error, a;
    }
    GetWithin(inp.data, inp.getp, inp.limit, 0);
    var tunnel := inp.Getw();
    var outer := inp.Getw();
    assert inp.Rest() == t.value[4..];
    var ok, ts := ReadSubTlvList(inp, x.length - 4, t.value);
    hide ReadSubTlvs;
    if !ok {
      return Error, a;
    }
    v, r := Proceed, a;
    if ts != [] {
      r := a.(encap := a.encap + ts, tunnel := tunnel);
    }
  }

  /** Calls the handler of an attribute. */
  method Dispatch(inp: Input, x: Args, a: Attr) returns (v: Verdict, r: Attr)
    requires Ready(inp, x) && Fits(Subject(inp, x)) && At(inp.data, x.start, Encode(Subject(inp, x)))
    requires x.total == |Encode(Subject(inp, x))|
    modifies inp`getp
    ensures Handled(inp, x, old(Subject(inp, x)), a, v, r)
  {
    hide Handled, Encode, Fits;
    if x.code == ORIGIN {
      v, r := ReadOrigin(inp, x, a);
    } else if x.code == AS_PATH || x.code == AS4_PATH {
      v, r := ReadAsPath(inp, x, a);
    } else if x.code == NEXT_HOP {
      v, r := ReadNextHop(inp, x, a);
    } else if x.code == MED {
      v, r := ReadMed(inp, x, a);
    } else if x.code == LOCAL_PREF {
      v, r := ReadLocalPref(inp, x, a);
    } else if x.code == ATOMIC_AGGREGATE {
      v, r := ReadAtomic(inp, x, a);
    } else if x.code == AGGREGATOR {
      v, r := ReadAggregator(inp, x, a);
    } else if x.code == AS4_AGGREGATOR {
      v, r := ReadAs4Aggregator(inp, x, a);
    } else if IsCommunityLike(x.code) {
      v, r := ReadCommunities(inp, x, a);
    } else if x.code == ORIGINATOR_ID {
      v, r := ReadOriginatorId(inp, x, a);
    } else if x.code == CLUSTER_LIST {
      v, r := ReadClusterList(inp, x, a);
    } else if x.code == MP_REACH_NLRI {
      v, r := ReadMpReach(inp, x, a);
    } else if x.code == MP_UNREACH_NLRI {
      v, r := ReadMpUnreach(inp, x, a);
    } else if x.code == ENCAP {
      v, r := ReadEncap(inp, x, a);
    } else {
      v, r := ReadUnknown(inp, x, a);
    }
  }

  ghost function Bounded(s: seq<Byte>, flags: Byte, code: Byte, body: nat, length: nat, end: nat): Option<(Tlv, nat)>
    requires end <= |s|
  {
    if body + length > end then None
    else Some((Tlv(flags, code, s[body..body + length]), body + length))
  }

  /** Reads the header of the next attribute; `None` stands for the length errors. */
  method ReadHeader(inp: Input, end: nat) returns (x: Option<(Byte, Byte, nat)>)
    requires inp.Valid() && inp.limit == end && inp.getp < end
    modifies inp`getp
    ensures inp.Valid()
    ensures x.None? ==> ReadTlv(inp.data, old(inp.getp), end).None?
    ensures x.Some? ==>
      var (flags, code, length) := x.value;
      inp.getp == old(inp.getp) + HeaderLen(flags)
      && flags == inp.data[old(inp.getp)] && code == inp.data[old(inp.getp) + 1]
      && ReadTlv(inp.data, old(inp.getp), end) == Bounded(inp.data, flags, code, inp.getp, length, end)
  {
    ghost var p := inp.getp;
    if end - inp.getp < ATTR_MIN_LEN {
      return None;
    }
    var start := inp.getp;
    var flags := inp.Getc();
    var code := inp.Getc();
    if HasExtLen(flags) && end - start < ATTR_MIN_LEN + 1 {
      return None;
    }
    var length: nat;
    if HasExtLen(flags) {
      length := inp.Getw();
    } else {
      length := inp.Getc();
    }
    x := Some((flags, code, length));
  }

  /** One attribute of the block: checks its flags and runs its handler in its own window. */
  method ReadAttribute(inp: Input, peer: Peer, flags: Byte, code: Byte, start: nat, length: nat, a: Attr)
    returns (v: Verdict, r: Attr)
    requires inp.Valid() && inp.getp + length <= inp.limit && start + HeaderLen(flags) == inp.getp
    requires var t := Tlv(flags, code, inp.data[inp.getp..inp.getp + length]);
      Fits(t) && At(inp.data, start, Encode(t)) && |Encode(t)| == HeaderLen(flags) + length
    modifies inp
    ensures inp.Valid() && inp.limit == old(inp.limit)
    ensures var t := Tlv(flags, code, inp.data[old(inp.getp)..old(inp.getp) + length]);
      v == Judge(peer, t) && (v == Proceed ==> inp.getp == old(inp.getp) + length && r == Apply(peer, t, a))
  {
    ghost var end := inp.limit;
    ghost var t := Tlv(flags, code, inp.data[inp.getp..inp.getp + length]);
    var total := HeaderLen(flags) + length;
    inp.limit := inp.getp + length;
    if FlagsInvalid(code, flags) {
      v := ReportMalformed(inp, peer, code, flags, start, total);
      r := a;
      inp.limit := end;
      hide *;
      return;
    }
    var x := Args(peer, code, flags, length, start, total);
    assert Subject(inp, x) == t;
    v, r := Dispatch(inp, x, a);
    inp.limit := end;
    if v == NotifyPlease {
      v := Error;
    }
  }

  lemma HeaderBytes(s: seq<Byte>, p: nat, end: nat)
    requires p < end <= |s| && ReadTlv(s, p, end).Some?
    ensures var (t, next) := ReadTlv(s, p, end).value;
      Fits(t) && At(s, p, Encode(t)) && |Encode(t)| == HeaderLen(t.flags) + |t.value| && p + |Encode(t)| == next
  {
    ReadTlvWrites(s, p, end);
    var (t, next) := ReadTlv(s, p, end).value;
    var e := s[p..next];
    assert forall k :: 0 <= k < |e| ==> s[p + k] == e[k];
  }

  /** One round of the loop: it ends the parse, or goes on at least three octets further. */
  method NextAttribute(inp: Input, peer: Peer, end: nat, seen: set<Byte>, a: Attr)
    returns (v: Verdict, code: Byte, after: Attr)
    requires inp.Valid() && inp.limit == end && inp.getp < end
    modifies inp
    ensures inp.Valid() && inp.limit == end
    ensures v != Proceed ==> Walk(peer, inp.data, old(inp.getp), end, seen, a).verdict == v
    ensures v == Proceed ==>
      inp.getp >= old(inp.getp) + ATTR_MIN_LEN && code !in seen
      && Walk(peer, inp.data, old(inp.getp), end, seen, a) == Walk(peer, inp.data, inp.getp, end, seen + {code}, after)
  {
    hide Judge, Apply, ReadTlv, Encode, Fits, Walk;
    var start := inp.getp;
    code, after := 0, a;
    WalkStep(peer, inp.data, start, end, seen, a);
    var header := ReadHeader(inp, end);
    if header.None? {
      return Error, code, a;
    }
    var (flags, kind, length) := header.value;
    code := kind;
    if code in seen {
      return Error, code, a;
    }
    if inp.getp + length > end {
      return Error, code, a;
    }
    HeaderBytes(inp.data, start, end);
    v, after := ReadAttribute(inp, peer, flags, code, start, length, a);
  }

  /** The attribute block of an UPDATE message.  Reading never leaves the block, and stops at
      its end if the message goes on. */
  method ParseAttributes(inp: Input, peer: Peer, size: nat) returns (r: Outcome)
    requires inp.Valid() && inp.getp + size == inp.limit
    modifies inp
    ensures inp.getp <= old(inp.getp) + size
    ensures r.verdict == ParseBlock(peer, inp.data, old(inp.getp), old(inp.getp) + size).verdict
    ensures r.verdict == Proceed ==>
      inp.getp == old(inp.getp) + size && r == ParseBlock(peer, inp.data, old(inp.getp), old(inp.getp) + size)
  {
    var end := inp.getp + size;
    var seen: set<Byte>, a := {}, NO_ATTR;
    ghost var whole := Walk(peer, inp.data, inp.getp, end, {}, NO_ATTR);
    hide Walk;
    while inp.getp < end
      invariant inp.Valid() && inp.limit == end
      invariant Walk(peer, inp.data, inp.getp, end, seen, a) == whole
      decreases end - inp.getp
    {
      var v, code, after := NextAttribute(inp, peer, end, seen, a);
      if v != Proceed {
        return Outcome(v, a);
      }
      seen, a := seen + {code}, after;
    }
    WalkEnds(peer, inp.data, end, seen, a);
    if Missing(peer, a.flag) != 0 {
      return Outcome(Error, a);
    }
    return Outcome(Proceed, a);
  }

  lemma WalkStep(peer: Peer, s: seq<Byte>, p: nat, end: nat, seen: set<Byte>, a: Attr)
    requires p < end <= |s|
    ensures ReadTlv(s, p, end).None? ==> Walk(peer, s, p, end, seen, a).verdict == Error
    ensures ReadTlv(s, p, end).Some? ==>
      var t, next := ReadTlv(s, p, end).value.0, ReadTlv(s, p, end).value.1;
      var r := Walk(peer, s, p, end, seen, a);
      && (t.code in seen ==> r.verdict == Error)
      && (t.code !in seen && Judge(peer, t) != Proceed ==> r.verdict == Judge(peer, t))
      && (t.code !in seen && Judge(peer, t) == Proceed ==> r == Walk(peer, s, next, end, seen + {t.code}, Apply(peer, t, a)))
    ensures p + 1 < end && s[p + 1] in seen ==> Walk(peer, s, p, end, seen, a).verdict == Error
  {
    hide Judge, Apply;
  }

  lemma WalkEnds(peer: Peer, s: seq<Byte>, end: nat, seen: set<Byte>, a: Attr)
    requires end <= |s|
    ensures Walk(peer, s, end, end, seen, a) == Outcome(Proceed, a)
  {
  }
}
