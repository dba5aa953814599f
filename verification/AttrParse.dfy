/** Parsing of a path attribute block: what each attribute's handler accepts, what the loop
    over the block returns, and the handlers reading the input stream. */
module AttrParse {
  import opened Options
  import opened Wire
  import opened AttrFrame
  import AsPath
  import AsPathWire

  const ORIGIN := 1
  const AS_PATH := 2
  const NEXT_HOP := 3
  const MED := 4
  const LOCAL_PREF := 5
  const ATOMIC_AGGREGATE := 6
  const AGGREGATOR := 7
  const COMMUNITIES := 8
  const ORIGINATOR_ID := 9
  const CLUSTER_LIST := 10
  const MP_REACH_NLRI := 14
  const MP_UNREACH_NLRI := 15
  const EXT_COMMUNITIES := 16
  const AS4_PATH := 17
  const AS4_AGGREGATOR := 18
  const ENCAP := 23
  const LARGE_COMMUNITIES := 32

  datatype PeerSort = Ibgp | Ebgp | Confed | Internal

  /** What parsing depends on besides the octets. */
  datatype Peer = Peer(sort: PeerSort, as4: bool, restart: bool, allowMartians: bool)

  datatype Verdict = Proceed | Error | Withdraw | NotifyPlease

  datatype Nlri = Nlri(afi: int, safi: int, prefixes: seq<Byte>)

  datatype MpNextHop = MpNextHop(len: int, globalIn: seq<Byte>, global: seq<Byte>, local: seq<Byte>)

  datatype SubTlv = SubTlv(code: int, value: seq<Byte>)

  datatype Attr = Attr(flag: set<int>, origin: int, path: AsPath.Path, as4Path: AsPath.Path,
                       nexthop: seq<Byte>, med: int, localPref: int,
                       aggregator: (int, seq<Byte>), as4Aggregator: (int, seq<Byte>),
                       community: seq<Byte>, ecommunity: seq<Byte>, lcommunity: seq<Byte>,
                       originator: seq<Byte>, cluster: seq<Byte>,
                       mpNextHop: MpNextHop, mpReach: Option<Nlri>, mpUnreach: Option<Nlri>,
                       tunnel: int, encap: seq<SubTlv>, transit: seq<Byte>)

  // ----- flags and malformed attributes

  /** The optional and transitive bits an attribute must have; none for unknown ones. */
  function RequiredFlags(code: Byte): Option<(bool, bool)> {
    if code in {ORIGIN, AS_PATH, NEXT_HOP, LOCAL_PREF, ATOMIC_AGGREGATE} then Some((false, true))
    else if code in {MED, ORIGINATOR_ID, CLUSTER_LIST, MP_REACH_NLRI, MP_UNREACH_NLRI} then Some((true, false))
    else if code in {AGGREGATOR, COMMUNITIES, EXT_COMMUNITIES, AS4_PATH, AS4_AGGREGATOR, LARGE_COMMUNITIES}
    then Some((true, true))
    else None
  }

  predicate FlagsInvalid(code: Byte, flags: Byte) {
    match RequiredFlags(code)
    case None => false
    case Some((optional, transitive)) =>
      if !IsOptional(flags) && !IsTransitive(flags) then true
      else if IsPartial(flags) && !IsOptional(flags) then true
      else if IsPartial(flags) && IsOptional(flags) && !IsTransitive(flags) then true
      else
        var masked := IsOptional(flags) && IsTransitive(flags);
        !(IsOptional(flags) == optional && IsTransitive(flags) == transitive && (IsPartial(flags) ==> masked))
  }

  /** What becomes of the message when an attribute is malformed. */
  function Malformed(peer: Peer, code: Byte, flags: Byte): Verdict {
    if peer.sort != Ebgp then Error
    else if code in {AS4_AGGREGATOR, AGGREGATOR, ATOMIC_AGGREGATE} then Proceed
    else if code in {ORIGIN, AS_PATH, NEXT_HOP, MED, LOCAL_PREF, COMMUNITIES, ORIGINATOR_ID, CLUSTER_LIST,
                     MP_REACH_NLRI, MP_UNREACH_NLRI, EXT_COMMUNITIES} then Error
    else if IsTransitive(flags) && IsOptional(flags) && IsPartial(flags) then Withdraw
    else NotifyPlease
  }

  // ----- attributes with inner structure

  predicate Martian(hop: seq<Byte>)
    requires |hop| == 4
  {
    hop[0] == 0 || hop[0] == 127 || hop[0] >= 224
  }

  predicate LinkLocal(a: seq<Byte>)
    requires |a| == 16
  {
    a[0] == 0xfe && 0x80 <= a[1] < 0xc0
  }

  /** The next hop field of MP_REACH_NLRI: route distinguishers are skipped, and a second
      address that is not link-local is not counted. */
  function ReadMpNextHop(hop: seq<Byte>, was: MpNextHop): (r: Option<MpNextHop>) {
    var n := |hop|;
    if n == 4 then Some(was.(len := 4, globalIn := hop))
    else if n == 12 then Some(was.(len := 12, globalIn := hop[8..]))
    else if n == 16 then Some(was.(len := 16, global := hop))
    else if n == 24 then Some(was.(len := 24, global := hop[8..]))
    else if n == 32 then
      Some(was.(len := if LinkLocal(hop[16..]) then 32 else 16, global := hop[..16], local := hop[16..]))
    else if n == 48 then
      Some(was.(len := if LinkLocal(hop[32..]) then 48 else 16, global := hop[8..24], local := hop[32..]))
    else None
  }

  predicate MpReachFits(v: seq<Byte>) {
    |v| >= 5 && v[3] in {4, 12, 16, 24, 32, 48} && |v| > 5 + v[3]
  }

  /** The sub-attributes of a tunnel encapsulation attribute; a last one may not be shorter
      than its announced length, nor leave one to three octets over. */
  function ReadSubTlvs(v: seq<Byte>, p: nat): (r: Option<seq<SubTlv>>)
    requires p <= |v|
    decreases |v| - p
  {
    if |v| - p < 4 then if p == |v| then Some([]) else None
    else
      var next := p + 2 + v[p + 1];
      if next > |v| then None
      else match ReadSubTlvs(v, next)
        case None => None
        case Some(ts) => Some([SubTlv(v[p], v[p + 2..next])] + ts)
  }

  predicate EncapFits(t: Tlv) {
    IsTransitive(t.flags) && IsOptional(t.flags) && |t.value| >= 4 && ReadSubTlvs(t.value, 4).Some?
  }

  // ----- what a handler answers

  /** The content of an attribute is what its handler wants. */
  predicate GoodValue(peer: Peer, t: Tlv) {
    var n := |t.value|;
    if t.code == ORIGIN then n == 1 && t.value[0] <= 2
    else if t.code == AS_PATH then AsPathWire.ParseSpec(t.value, n, peer.as4).Some?
    else if t.code == AS4_PATH then AsPathWire.ParseSpec(t.value, n, true).Some?
    else if t.code == NEXT_HOP then n == 4 && (!Martian(t.value) || peer.allowMartians)
    else if t.code in {MED, LOCAL_PREF, ORIGINATOR_ID} then n == 4
    else if t.code == ATOMIC_AGGREGATE then n == 0
    else if t.code == AGGREGATOR then n == if peer.as4 then 8 else 6
    else if t.code == AS4_AGGREGATOR then n == 8
    else if t.code in {COMMUNITIES, CLUSTER_LIST} then n % 4 == 0
    else if t.code == EXT_COMMUNITIES then n % 8 == 0
    else if t.code == LARGE_COMMUNITIES then n % 12 == 0
    else if t.code == MP_REACH_NLRI then MpReachFits(t.value)
    else if t.code == MP_UNREACH_NLRI then n >= 3
    else if t.code == ENCAP then EncapFits(t)
    else IsOptional(t.flags)
  }

  function Handle(peer: Peer, t: Tlv): Verdict {
    if GoodValue(peer, t) then Proceed
    else if t.code in {MP_REACH_NLRI, MP_UNREACH_NLRI} then NotifyPlease
    else if t.code == ENCAP then Error
    else Malformed(peer, t.code, t.flags)
  }

  /** The verdict on one attribute.  A handler's request to notify is honoured and turned into
      an error; one that comes from the flag check is returned as it is. */
  function Judge(peer: Peer, t: Tlv): Verdict {
    if FlagsInvalid(t.code, t.flags) then Malformed(peer, t.code, t.flags)
    else if Handle(peer, t) == NotifyPlease then Error
    else Handle(peer, t)
  }

  predicate IsCommunityLike(code: Byte) { code in {COMMUNITIES, EXT_COMMUNITIES, LARGE_COMMUNITIES} }

  /** The attribute is recorded as present. */
  predicate Marks(peer: Peer, t: Tlv) {
    && !FlagsInvalid(t.code, t.flags) && GoodValue(peer, t)
    && RequiredFlags(t.code).Some?
    && !(t.code == LOCAL_PREF && peer.sort == Ebgp)
    && !(IsCommunityLike(t.code) && t.value == [])
  }

  function SetPartial(flags: Byte): Byte { if IsPartial(flags) then flags else flags + 32 }

  /** What an accepted attribute leaves in the result. */
  function Apply(peer: Peer, t: Tlv, a: Attr): Attr {
    var v := t.value;
    if FlagsInvalid(t.code, t.flags) || !GoodValue(peer, t) then a
    else
      var m := if Marks(peer, t) then a.(flag := a.flag + {t.code}) else a;
      if t.code == ORIGIN then m.(origin := v[0])
      else if t.code == AS_PATH then m.(path := AsPathWire.ParseSpec(v, |v|, peer.as4).value)
      else if t.code == AS4_PATH then m.(as4Path := AsPathWire.ParseSpec(v, |v|, true).value)
      else if t.code == NEXT_HOP then m.(nexthop := v)
      else if t.code == MED then m.(med := GetL(v, 0))
      else if t.code == LOCAL_PREF then if peer.sort == Ebgp then m else m.(localPref := GetL(v, 0))
      else if t.code == ATOMIC_AGGREGATE then m
      else if t.code == AGGREGATOR then
        m.(aggregator := if peer.as4 then (GetL(v, 0), v[4..]) else (GetW(v, 0), v[2..]))
      else if t.code == AS4_AGGREGATOR then m.(as4Aggregator := (GetL(v, 0), v[4..]))
      else if t.code == COMMUNITIES then m.(community := v)
      else if t.code == EXT_COMMUNITIES then m.(ecommunity := v)
      else if t.code == LARGE_COMMUNITIES then m.(lcommunity := v)
      else if t.code == ORIGINATOR_ID then m.(originator := v)
      else if t.code == CLUSTER_LIST then m.(cluster := v)
      else if t.code == MP_REACH_NLRI then ApplyMpReach(v, m)
      else if t.code == MP_UNREACH_NLRI then m.(mpUnreach := Some(Nlri(GetW(v, 0), v[2], v[3..])))
      else if t.code == ENCAP then ApplyEncap(v, m)
      else if !IsTransitive(t.flags) || !Fits(t) then m
      else m.(transit := m.transit + Encode(t.(flags := SetPartial(t.flags))))
  }

  const NO_ADDRESS: seq<Byte> := [0, 0, 0, 0]

  function ApplyMpReach(v: seq<Byte>, a: Attr): Attr
    requires MpReachFits(v)
  {
    var hop := v[4..4 + v[3]];
    a.(mpNextHop := ReadMpNextHop(hop, a.mpNextHop).value,
       nexthop := if |hop| == 4 && a.nexthop == NO_ADDRESS then hop else a.nexthop,
       mpReach := Some(Nlri(GetW(v, 0), v[2], v[5 + v[3]..])))
  }

  function ApplyEncap(v: seq<Byte>, a: Attr): Attr
    requires |v| >= 4 && ReadSubTlvs(v, 4).Some?
  {
    var ts := ReadSubTlvs(v, 4).value;
    if ts == [] then a else a.(encap := a.encap + ts, tunnel := GetW(v, 0))
  }

  // ----- the loop over the block

  datatype Outcome = Outcome(verdict: Verdict, attr: Attr)

  function Walk(peer: Peer, s: seq<Byte>, p: nat, end: nat, seen: set<Byte>, a: Attr): Outcome
    requires p <= end <= |s|
    decreases end - p
  {
    if p == end then Outcome(Proceed, a)
    else match ReadTlv(s, p, end)
      case None => Outcome(Error, a)
      case Some((t, next)) =>
        if t.code in seen then Outcome(Error, a)
        else if Judge(peer, t) != Proceed then Outcome(Judge(peer, t), a)
        else Walk(peer, s, next, end, seen + {t.code}, Apply(peer, t, a))
  }

  /** No attribute code occurs twice, nor in `seen`. */
  ghost predicate Unrepeated(ts: seq<Tlv>, seen: set<Byte>) {
    && (forall i :: 0 <= i < |ts| ==> ts[i].code !in seen)
    && (forall i, j :: 0 <= i < j < |ts| ==> ts[i].code != ts[j].code)
  }

  ghost predicate AllAccepted(peer: Peer, ts: seq<Tlv>) {
    forall i :: 0 <= i < |ts| ==> Judge(peer, ts[i]) == Proceed
  }

  function ApplyAll(peer: Peer, ts: seq<Tlv>, a: Attr): Attr {
    if ts == [] then a else ApplyAll(peer, ts[1..], Apply(peer, ts[0], a))
  }

  lemma UnrepeatedCons(t: Tlv, ts: seq<Tlv>, seen: set<Byte>)
    ensures Unrepeated([t] + ts, seen) <==> t.code !in seen && Unrepeated(ts, seen + {t.code})
  {
    var all := [t] + ts;
    assert all[0] == t && forall i :: 0 <= i < |ts| ==> all[i + 1] == ts[i];
    if Unrepeated(all, seen) {
      assert forall i :: 0 <= i < |ts| ==> ts[i].code != t.code && ts[i].code !in seen;
      assert Unrepeated(ts, seen + {t.code});
    }
    if t.code !in seen && Unrepeated(ts, seen + {t.code}) {
      forall i, j | 0 <= i < j < |all| ensures all[i].code != all[j].code {
        assert all[j] == ts[j - 1] && (i > 0 ==> all[i] == ts[i - 1]);
      }
      assert forall i :: 0 <= i < |all| ==> all[i].code !in seen;
    }
  }

  lemma AcceptedCons(peer: Peer, t: Tlv, ts: seq<Tlv>)
    ensures AllAccepted(peer, [t] + ts) <==> Judge(peer, t) == Proceed && AllAccepted(peer, ts)
  {
    hide Judge;
    var all := [t] + ts;
    assert all[0] == t && forall i :: 0 <= i < |ts| ==> all[i + 1] == ts[i];
    if AllAccepted(peer, all) {
      assert Judge(peer, all[0]) == Proceed;
      forall i | 0 <= i < |ts| ensures Judge(peer, ts[i]) == Proceed {
        assert Judge(peer, all[i + 1]) == Proceed;
      }
    }
    if Judge(peer, t) == Proceed && AllAccepted(peer, ts) {
      forall i | 0 <= i < |all| ensures Judge(peer, all[i]) == Proceed {
        assert i > 0 ==> all[i] == ts[i - 1];
      }
    }
  }

  /** The loop accepts a block exactly when it is an exact sequence of attributes with
      pairwise distinct codes, each acceptable on its own; and then it has applied all. */
  lemma {:induction false} WalkAccepts(peer: Peer, s: seq<Byte>, p: nat, end: nat, seen: set<Byte>, a: Attr)
    requires p <= end <= |s|
    ensures var ts := Frame(s, p, end);
      var r := Walk(peer, s, p, end, seen, a);
      && (r.verdict == Proceed <==> ts.Some? && Unrepeated(ts.value, seen) && AllAccepted(peer, ts.value))
      && (r.verdict == Proceed ==> r.attr == ApplyAll(peer, ts.value, a))
    decreases end - p
  {
    hide Judge, Apply, ReadTlv, Unrepeated, AllAccepted;
    if p == end {
      NoneRepeated(peer, seen);
    } else if ReadTlv(s, p, end).Some? {
      var (t, next) := ReadTlv(s, p, end).value;
      WalkAccepts(peer, s, next, end, seen + {t.code}, Apply(peer, t, a));
      match Frame(s, next, end) {
        case None =>
        case Some(ts) =>
          UnrepeatedCons(t, ts, seen);
          AcceptedCons(peer, t, ts);
          assert ([t] + ts)[1..] == ts;
      }
    }
  }

  lemma NoneRepeated(peer: Peer, seen: set<Byte>)
    ensures Unrepeated([], seen) && AllAccepted(peer, [])
  {
  }

  // ----- which attributes are recorded, and the check for mandatory ones

  ghost function Marked(peer: Peer, ts: seq<Tlv>): set<int> {
    set t | t in ts && Marks(peer, t) :: t.code
  }

  lemma ApplyMarks(peer: Peer, t: Tlv, a: Attr)
    ensures Apply(peer, t, a).flag == a.flag + (if Marks(peer, t) then {t.code} else {})
  {
  }

  lemma {:induction false} ApplyAllMarks(peer: Peer, ts: seq<Tlv>, a: Attr)
    ensures ApplyAll(peer, ts, a).flag == a.flag + Marked(peer, ts)
    decreases |ts|
  {
    hide Apply, Marks;
    if ts != [] {
      ApplyMarks(peer, ts[0], a);
      ApplyAllMarks(peer, ts[1..], Apply(peer, ts[0], a));
      assert ts == [ts[0]] + ts[1..];
      assert Marked(peer, ts) == (if Marks(peer, ts[0]) then {ts[0].code as int} else {}) + Marked(peer, ts[1..]);
    }
  }

  /** The well-known attribute whose absence is reported, or zero. */
  function Missing(peer: Peer, flag: set<int>): int {
    if peer.restart && flag == {} then 0
    else if flag == {MP_UNREACH_NLRI} then 0
    else if peer.sort == Ibgp && LOCAL_PREF !in flag then LOCAL_PREF
    else if NEXT_HOP !in flag && MP_REACH_NLRI !in flag then NEXT_HOP
    else if AS_PATH !in flag then AS_PATH
    else if ORIGIN !in flag then ORIGIN
    else 0
  }

  const NO_HOP := MpNextHop(0, [], [], [])

  const NO_ATTR := Attr({}, 0, [], [], NO_ADDRESS, 0, 0, (0, NO_ADDRESS), (0, NO_ADDRESS),
                        [], [], [], NO_ADDRESS, [], NO_HOP, None, None, 0, [], [])

  /** The verdict on a whole block. */
  function ParseBlock(peer: Peer, s: seq<Byte>, p: nat, end: nat): Outcome
    requires p <= end <= |s|
  {
    var r := Walk(peer, s, p, end, {}, NO_ATTR);
    if r.verdict == Proceed && Missing(peer, r.attr.flag) != 0 then r.(verdict := Error) else r
  }

  /** A block is accepted exactly when it is the concatenation of attributes with pairwise
      distinct codes, each acceptable by itself, none of the mandatory ones missing. */
  lemma BlockAccepted(peer: Peer, block: seq<Byte>)
    ensures ParseBlock(peer, block, 0, |block|).verdict == Proceed <==>
      exists ts :: AllFit(ts) && block == EncodeAll(ts) && Unrepeated(ts, {}) && AllAccepted(peer, ts)
        && Missing(peer, Marked(peer, ts)) == 0
  {
    hide Walk, Frame, Unrepeated, AllAccepted, EncodeAll, AllFit, Missing, Marked, ApplyAll;
    WalkAccepts(peer, block, 0, |block|, {}, NO_ATTR);
    var r := Walk(peer, block, 0, |block|, {}, NO_ATTR);
    if r.verdict == Proceed {
      var ts := Frame(block, 0, |block|).value;
      ApplyAllMarks(peer, ts, NO_ATTR);
      assert r.attr.flag == Marked(peer, ts);
      FrameIsExact(block, ts);
      if ParseBlock(peer, block, 0, |block|).verdict == Proceed {
        assert AllFit(ts) && block == EncodeAll(ts) && Unrepeated(ts, {}) && AllAccepted(peer, ts);
      }
    }
    forall ts | AllFit(ts) && block == EncodeAll(ts) && Unrepeated(ts, {}) && AllAccepted(peer, ts)
        && Missing(peer, Marked(peer, ts)) == 0
      ensures ParseBlock(peer, block, 0, |block|).verdict == Proceed
    {
      FrameIsExact(block, ts);
      ApplyAllMarks(peer, ts, NO_ATTR);
    }
  }

  // ----- which verdicts an attribute can draw

  /** A withdrawal is asked for exactly when an external peer sends AS4_PATH or
      LARGE_COMMUNITIES with the partial bit, correct flags and bad contents. */
  lemma WithdrawsWhen(peer: Peer, t: Tlv)
    ensures Judge(peer, t) == Withdraw <==>
      && peer.sort == Ebgp && t.code in {AS4_PATH, LARGE_COMMUNITIES}
      && IsOptional(t.flags) && IsTransitive(t.flags) && IsPartial(t.flags)
      && !GoodValue(peer, t)
  {
  }

  /** The internal verdict gets out to the caller exactly for these two attributes with wrong
      flags from an external peer, although it is meant to be turned into an error. */
  lemma NotifyEscapesWhen(peer: Peer, t: Tlv)
    ensures Judge(peer, t) == NotifyPlease <==>
      && peer.sort == Ebgp && t.code in {AS4_PATH, LARGE_COMMUNITIES}
      && !(IsOptional(t.flags) && IsTransitive(t.flags))
  {
  }

  /** A block of accepted attributes without repeats, then one that draws the verdict. */
  ghost predicate StopsAt(peer: Peer, block: seq<Byte>, ts: seq<Tlv>, t: Tlv, rest: seq<Byte>, v: Verdict) {
    && AllFit(ts) && Fits(t) && block == EncodeAll(ts) + Encode(t) + rest
    && Unrepeated(ts + [t], {}) && AllAccepted(peer, ts) && Judge(peer, t) == v
  }

  lemma {:induction false} WalkStops(peer: Peer, s: seq<Byte>, p: nat, end: nat, seen: set<Byte>, a: Attr)
    returns (ts: seq<Tlv>, t: Tlv, next: nat)
    requires p <= end <= |s| && Walk(peer, s, p, end, seen, a).verdict !in {Proceed, Error}
    ensures p <= next <= end && AllFit(ts) && Fits(t) && s[p..next] == EncodeAll(ts) + Encode(t)
    ensures Unrepeated(ts + [t], seen) && AllAccepted(peer, ts)
    ensures Judge(peer, t) == Walk(peer, s, p, end, seen, a).verdict
    decreases end - p
  {
    hide Judge, Apply, ReadTlv, Unrepeated, AllAccepted, Encode, Fits;
    var first, after := ReadTlv(s, p, end).value.0, ReadTlv(s, p, end).value.1;
    ReadTlvWrites(s, p, end);
    NoneRepeated(peer, seen + {first.code});
    if Judge(peer, first) != Proceed {
      ts, t, next := [], first, after;
      UnrepeatedCons(first, [], seen);
      assert [] + [t] == [t] + [] && EncodeAll([]) + Encode(t) == Encode(t);
      AcceptedNone(peer);
    } else {
      ts, t, next := WalkStops(peer, s, after, end, seen + {first.code}, Apply(peer, first, a));
      UnrepeatedCons(first, ts + [t], seen);
      AcceptedCons(peer, first, ts);
      assert [first] + (ts + [t]) == ([first] + ts) + [t] && ([first] + ts)[1..] == ts;
      assert s[p..next] == s[p..after] + s[after..next];
      assert Encode(first) + (EncodeAll(ts) + Encode(t)) == (Encode(first) + EncodeAll(ts)) + Encode(t);
      ts := [first] + ts;
    }
  }

  lemma AcceptedNone(peer: Peer)
    ensures AllAccepted(peer, [])
  {
  }

  lemma {:induction false} StopsWalk(peer: Peer, s: seq<Byte>, p: nat, end: nat, seen: set<Byte>, a: Attr,
                                     ts: seq<Tlv>, t: Tlv)
    requires AllFit(ts) && Fits(t) && At(s, p, EncodeAll(ts) + Encode(t))
    requires p + |EncodeAll(ts) + Encode(t)| <= end <= |s|
    requires Unrepeated(ts + [t], seen) && AllAccepted(peer, ts) && Judge(peer, t) != Proceed
    ensures Walk(peer, s, p, end, seen, a).verdict == Judge(peer, t)
    decreases |ts|
  {
    hide Judge, Apply, ReadTlv, Unrepeated, AllAccepted, Encode, Fits;
    if ts == [] {
      assert [] + [t] == [t] + [] && EncodeAll([]) + Encode(t) == Encode(t);
      UnrepeatedCons(t, [], seen);
      ReadTlvReads(s, p, end, t);
    } else {
      var first, rest := ts[0], ts[1..];
      var tail := EncodeAll(rest) + Encode(t);
      assert ts == [first] + rest && ts + [t] == [first] + (rest + [t]);
      assert EncodeAll(ts) + Encode(t) == Encode(first) + tail;
      AtConcat(s, p, Encode(first), tail);
      ReadTlvReads(s, p, end, first);
      UnrepeatedCons(first, rest + [t], seen);
      AcceptedCons(peer, first, rest);
      StopsWalk(peer, s, p + |Encode(first)|, end, seen + {first.code}, Apply(peer, first, a), rest, t);
    }
  }

  /** A whole block draws the internal verdict, or a withdrawal, exactly if its first attribute that
      is not accepted does, after accepted attributes without repeats. */
  lemma BlockStops(peer: Peer, block: seq<Byte>, v: Verdict)
    requires v in {Withdraw, NotifyPlease}
    ensures ParseBlock(peer, block, 0, |block|).verdict == v <==>
      exists ts, t, rest :: StopsAt(peer, block, ts, t, rest, v)
  {
    hide Judge, Walk, Unrepeated, AllAccepted, Encode, Fits, EncodeAll, AllFit, Missing;
    if Walk(peer, block, 0, |block|, {}, NO_ATTR).verdict == v {
      var ts, t, next := WalkStops(peer, block, 0, |block|, {}, NO_ATTR);
      assert block == block[0..next] + block[next..];
      assert StopsAt(peer, block, ts, t, block[next..], v);
    }
    forall ts, t, rest | StopsAt(peer, block, ts, t, rest, v)
      ensures Walk(peer, block, 0, |block|, {}, NO_ATTR).verdict == v
    {
      var written := EncodeAll(ts) + Encode(t);
      assert At(block, 0, written) by { assert block[0..|written|] == written; }
      StopsWalk(peer, block, 0, |block|, {}, NO_ATTR, ts, t);
    }
  }

  lemma NotifyEscapes()
    ensures var peer := Peer(Ebgp, true, false, false);
      ParseBlock(peer, [0x40, AS4_PATH, 0], 0, 3).verdict == NotifyPlease
  {
    var peer := Peer(Ebgp, true, false, false);
    var s: seq<Byte> := [0x40, AS4_PATH, 0];
    var t := Tlv(0x40, AS4_PATH, []);
    assert s[3..3] == [];
    assert ReadTlv(s, 0, 3) == Some((t, 3));
    NotifyEscapesWhen(peer, t);
    hide Judge;
    assert Walk(peer, s, 0, 3, {}, NO_ATTR).verdict == NotifyPlease;
  }
}
