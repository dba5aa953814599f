/** The OPEN exchange: what two speakers negotiate, and which of two colliding connections they
    close. */
module Open {
  import opened Options
  import opened PeerStatus
  import opened Wire

  // ----- connection collision

  /** A connection to a neighbour; `accepted` says the neighbour opened it, `restarting` that
      the session survives a graceful restart. */
  datatype Conn = Conn(id: nat, addr: int, status: Status, accepted: bool, restarting: bool)

  datatype Verdict = NoCollision | Refuse | CloseNew | CloseOld(which: nat)

  predicate Negotiating(c: Conn) { c.status == OpenSent || c.status == OpenConfirm }

  /** An OPEN from `remoteId` arrived on `newer`: the connection it collides with decides. */
  function Detect(peers: seq<Conn>, newer: Conn, localId: nat, remoteId: nat): Verdict {
    if peers == [] then NoCollision
    else
      var c := peers[0];
      if c.id == newer.id || c.addr != newer.addr then Detect(peers[1..], newer, localId, remoteId)
      else if c.status == Established then
        if c.restarting then Detect(peers[1..], newer, localId, remoteId) else Refuse
      else if Negotiating(c) then
        var outIsNew := !newer.accepted;
        if localId < remoteId
        then if outIsNew then CloseNew else CloseOld(c.id)
        else if outIsNew then CloseOld(c.id) else CloseNew
      else Detect(peers[1..], newer, localId, remoteId)
  }

  method CollisionDetect(peers: seq<Conn>, newer: Conn, localId: nat, remoteId: nat) returns (v: Verdict)
    ensures v == Detect(peers, newer, localId, remoteId)
  {
    var i := 0;
    assert peers[0..] == peers;
    while i < |peers|
      invariant i <= |peers| && Detect(peers[i..], newer, localId, remoteId) == Detect(peers, newer, localId, remoteId)
    {
      var c := peers[i];
      assert peers[i..][0] == c && peers[i..][1..] == peers[i + 1..];
      i := i + 1;
      if c.id == newer.id {
        continue;
      }
      if c.addr != newer.addr {
        continue;
      }
      if c.status == Established {
        if c.restarting {
          continue;
        }
        return Refuse;
      }
      if c.status == OpenConfirm || c.status == OpenSent {
        var outOld, inNew := CloseOld(c.id), CloseNew;
        if !newer.accepted {
          outOld, inNew := CloseNew, CloseOld(c.id);
        }
        if localId < remoteId {
          return outOld;
        } else {
          return inNew;
        }
      }
    }
    return NoCollision;
  }

  /** The list has one other connection to the neighbour, still negotiating. */
  ghost predicate OneOther(peers: seq<Conn>, newer: Conn, other: Conn) {
    && other in peers && other.id != newer.id && other.addr == newer.addr && Negotiating(other)
    && forall c :: c in peers && c != other ==> c.id == newer.id || c.addr != newer.addr
  }

  lemma {:induction false} DetectsOther(peers: seq<Conn>, newer: Conn, other: Conn, localId: nat, remoteId: nat)
    requires OneOther(peers, newer, other)
    ensures Detect(peers, newer, localId, remoteId) == Detect([other], newer, localId, remoteId)
    decreases |peers|
  {
    assert peers == [peers[0]] + peers[1..];
    if peers[0] != other {
      DetectsOther(peers[1..], newer, other, localId, remoteId);
    }
  }

  /** The connection a verdict closes: the one `ours` or the one `theirs`. */
  ghost function ClosesOurs(v: Verdict, freshIsOurs: bool): bool {
    if v.CloseNew? then freshIsOurs else !freshIsOurs
  }

  /** Whichever OPEN comes first, a speaker closes the connection opened by the lower of the two
      identifiers. */
  lemma ClosesLower(peers: seq<Conn>, ours: Conn, theirs: Conn, oursFirst: bool, localId: nat, remoteId: nat)
    requires localId != remoteId && !ours.accepted && theirs.accepted
    requires var newer, other := if oursFirst then ours else theirs, if oursFirst then theirs else ours;
      OneOther(peers, newer, other)
    ensures var v := Detect(peers, if oursFirst then ours else theirs, localId, remoteId);
      (v.CloseNew? || v.CloseOld?) && (ClosesOurs(v, oursFirst) <==> localId < remoteId)
  {
    var newer, other := if oursFirst then ours else theirs, if oursFirst then theirs else ours;
    DetectsOther(peers, newer, other, localId, remoteId);
  }

  /** Two speakers, two connections: `a` opened one of them and `b` the other.  Both ends close
      the same one, however the OPENs arrive at either end. */
  lemma EndsAgree(peersA: seq<Conn>, oursA: Conn, theirsA: Conn, firstA: bool,
                  peersB: seq<Conn>, oursB: Conn, theirsB: Conn, firstB: bool, a: nat, b: nat)
    requires a != b && !oursA.accepted && theirsA.accepted && !oursB.accepted && theirsB.accepted
    requires OneOther(peersA, if firstA then oursA else theirsA, if firstA then theirsA else oursA)
    requires OneOther(peersB, if firstB then oursB else theirsB, if firstB then theirsB else oursB)
    ensures var vA := Detect(peersA, if firstA then oursA else theirsA, a, b);
      var vB := Detect(peersB, if firstB then oursB else theirsB, b, a);
      // what `a` opened is ours for `a` and theirs for `b`
      && (ClosesOurs(vA, firstA) <==> !ClosesOurs(vB, firstB))
      && (ClosesOurs(vA, firstA) <==> a < b)
  {
    hide Detect, OneOther;
    ClosesLower(peersA, oursA, theirsA, firstA, a, b);
    ClosesLower(peersB, oursB, theirsB, firstB, b, a);
  }

  // ----- capabilities

  /** Address family and subsequent address family. */
  type Family = (int, int)

  const OPT_CAP := 2
  const CAP_MP := 1
  const CAP_REFRESH := 2
  const CAP_ORF := 3
  const CAP_RESTART := 64
  const CAP_AS4 := 65
  const CAP_DYNAMIC := 66
  const CAP_REFRESH_OLD := 128
  const CAP_ORF_OLD := 130
  const SAFI_VPN := 4
  const SAFI_LABELED_VPN := 128

  const FAMILIES: seq<Family> := [(1, 1), (1, 2), (1, 4), (1, 7), (2, 1), (2, 2), (2, 4), (2, 7)]

  predicate IsFamily(f: Family) { f.0 in {1, 2} && f.1 in {1, 2, 4, 7} }

  /** Which families a speaker is configured for, and how it treats capabilities. */
  datatype Speaker = Speaker(afc: set<Family>, ignoresCaps: bool, strict: bool)

  /** What an OPEN has told so far: families offered, families agreed, whether there was a
      multiprotocol capability at all, and the unsupported capabilities. */
  datatype Nego = Nego(recv: set<Family>, nego: set<Family>, mp: bool, unsupported: seq<Byte>)

  const NOTHING := Nego({}, {}, false, [])

  /** The family a capability names; the labelled VPN code is mapped to the internal one. */
  function ValidFamily(afi: int, safi: int): (r: Option<Family>)
    ensures r.Some? ==> IsFamily(r.value)
  {
    if afi != 1 && afi != 2 then None
    else if safi == SAFI_LABELED_VPN then Some((afi, SAFI_VPN))
    else if safi in {1, 2, 4, 7} then Some((afi, safi))
    else None
  }

  function WireSafi(safi: int): int { if safi == SAFI_VPN then SAFI_LABELED_VPN else safi }

  predicate KnownCap(code: Byte) {
    code in {CAP_MP, CAP_REFRESH, CAP_REFRESH_OLD, CAP_ORF, CAP_ORF_OLD, CAP_RESTART, CAP_AS4, CAP_DYNAMIC}
  }

  function MinSize(code: Byte): nat {
    if code == CAP_MP || code == CAP_AS4 then 4
    else if code == CAP_ORF || code == CAP_ORF_OLD then 5
    else if code == CAP_RESTART then 2
    else 0
  }

  function ModSize(code: Byte): nat { if code == CAP_MP || code == CAP_AS4 then 4 else 1 }

  /** A multiprotocol capability for `f`, or for none that is known. */
  function Learn(sp: Speaker, o: Option<Family>, raw: seq<Byte>, st: Nego): Nego {
    match o
    case None => st.(unsupported := st.unsupported + raw)
    case Some(f) =>
      if f in sp.afc then st.(recv := st.recv + {f}, nego := st.nego + {f})
      else st.(recv := st.recv + {f}, unsupported := st.unsupported + raw)
  }

  /** One capability, its header at `p`. */
  function OneCap(sp: Speaker, s: seq<Byte>, p: nat, st: Nego): Option<Nego>
    requires p + 2 <= |s| && p + 2 + s[p + 1] <= |s|
  {
    var code, length, body: nat := s[p], s[p + 1], p + 2;
    var raw := s[p..body + length];
    if KnownCap(code) && (length < MinSize(code) || (length > 0 && length % ModSize(code) != 0)) then None
    else if code == CAP_MP then
      var seen := st.(mp := true);
      if sp.ignoresCaps then Some(seen)
      else Some(Learn(sp, ValidFamily(GetW(s, body), s[body + 3]), raw, seen))
    else if code == CAP_AS4 then
      if length != 4 || GetL(s, body) == 0 then None else Some(st)
    else if KnownCap(code) || code > 128 then Some(st)
    else Some(st.(unsupported := st.unsupported + raw))
  }

  function ParseCaps(sp: Speaker, s: seq<Byte>, p: nat, end: nat, st: Nego): Option<Nego>
    requires p <= end <= |s|
    decreases end - p
  {
    if p == end then Some(st)
    else if p + 2 > end || p + 2 + s[p + 1] > end then None
    else match OneCap(sp, s, p, st)
      case None => None
      case Some(after) => ParseCaps(sp, s, p + 2 + s[p + 1], end, after)
  }

  /** The optional parameters up to `end`; their lengths are checked against the message. */
  function ParseOptions(sp: Speaker, s: seq<Byte>, p: nat, end: nat, st: Nego): Option<Nego>
    requires p <= |s|
    decreases |s| - p
  {
    if p >= end then Some(st)
    else if |s| - p < 2 || |s| - p - 2 < s[p + 1] then None
    else if s[p] != OPT_CAP then None
    else match ParseCaps(sp, s, p + 2, p + 2 + s[p + 1], st)
      case None => None
      case Some(after) => ParseOptions(sp, s, p + 2 + s[p + 1], end, after)
  }

  /** All optional parameters of an OPEN, with the checks at the end. */
  function OptionParse(sp: Speaker, s: seq<Byte>, p: nat, length: nat): Option<Nego>
    requires p <= |s|
  {
    match ParseOptions(sp, s, p, p + length, NOTHING)
    case None => None
    case Some(st) =>
      if Acceptable(sp, st) then Some(st) else None
  }

  /** What a speaker announces. */
  function MpBytes(f: Family): (r: seq<Byte>)
    requires IsFamily(f)
    ensures |r| == 8
  {
    var afi := PutW(f.0);
    [OPT_CAP, 6, CAP_MP, 4, afi[0], afi[1], 0, WireSafi(f.1)]
  }

  function Configured(afc: set<Family>, fs: seq<Family>): (r: seq<Family>)
    ensures forall f :: f in r <==> f in fs && f in afc
  {
    if fs == [] then []
    else
      var rest := Configured(afc, fs[1..]);
      assert forall f :: f in fs <==> f == fs[0] || f in fs[1..];
      if fs[0] in afc then [fs[0]] + rest else rest
  }

  ghost predicate AllFamilies(fs: seq<Family>) { forall i :: 0 <= i < |fs| ==> IsFamily(fs[i]) }

  function MpAll(fs: seq<Family>): seq<Byte>
    requires AllFamilies(fs)
  {
    if fs == [] then [] else MpBytes(fs[0]) + MpAll(fs[1..])
  }

  /** What goes into the capabilities of an OPEN besides the families: the AS number, whether
      capabilities may change later, the restart time with its flag, and whether the families are
      listed again for a graceful restart. */
  datatype Sender = Sender(afc: set<Family>, localAs: int, dynamic: bool, restart: int, graceful: bool)

  predicate Sendable(o: Sender) { IsU32(o.localAs) && IsU16(o.restart) }

  /** Route refresh, old and new, and the four-octet AS number. */
  function FixedCaps(localAs: int): (r: seq<Byte>)
    requires IsU32(localAs)
    ensures |r| == 16
  {
    var l := PutL(localAs);
    [OPT_CAP, 2, CAP_REFRESH_OLD, 0, OPT_CAP, 2, CAP_REFRESH, 0, OPT_CAP, 6, CAP_AS4, 4, l[0], l[1], l[2], l[3]]
  }

  function DynamicCap(dynamic: bool): seq<Byte> { if dynamic then [OPT_CAP, 2, CAP_DYNAMIC, 0] else [] }

  function RestartFamily(f: Family): (r: seq<Byte>)
    requires IsFamily(f)
    ensures |r| == 4
  {
    var afi := PutW(f.0);
    [afi[0], afi[1], f.1, 0]
  }

  function RestartFamilies(fs: seq<Family>): (r: seq<Byte>)
    requires AllFamilies(fs)
    ensures |r| == 4 * |fs|
  {
    if fs == [] then [] else RestartFamily(fs[0]) + RestartFamilies(fs[1..])
  }

  function RestartBody(o: Sender): (r: seq<Byte>)
    requires IsU16(o.restart)
    ensures 2 <= |r| <= 34
  {
    FamiliesOk(o.afc);
    ConfiguredSize(o.afc, FAMILIES);
    PutW(o.restart) + (if o.graceful then RestartFamilies(Configured(o.afc, FAMILIES)) else [])
  }

  /** The graceful restart capability, sent whatever the configuration. */
  function RestartCap(o: Sender): (r: seq<Byte>)
    requires IsU16(o.restart)
    ensures |r| >= 6
  {
    [OPT_CAP, |RestartBody(o)| + 2, CAP_RESTART, |RestartBody(o)|] + RestartBody(o)
  }

  lemma {:induction false} ConfiguredSize(afc: set<Family>, fs: seq<Family>)
    ensures |Configured(afc, fs)| <= |fs|
    decreases |fs|
  {
    if fs != [] { ConfiguredSize(afc, fs[1..]); }
  }

  // ----- what the neighbour learns

  lemma OneMpOption(sp: Speaker, s: seq<Byte>, p: nat, end: nat, f: Family, st: Nego)
    requires !sp.ignoresCaps && IsFamily(f) && At(s, p, MpBytes(f)) && p + 8 <= end
    ensures ParseOptions(sp, s, p, end, st) ==
      ParseOptions(sp, s, p + 8, end, Learn(sp, Some(f), MpBytes(f)[2..], st.(mp := true)))
  {
    var e := MpBytes(f);
    assert forall k :: 0 <= k < 8 ==> s[p + k] == e[k];
    assert s[p] == e[0] && s[p + 1] == e[1] && s[p + 2] == e[2] && s[p + 3] == e[3];
    assert s[p + 4] == e[4] && s[p + 5] == e[5] && s[p + 7] == e[7];
    assert GetW(s, p + 4) == GetW(PutW(f.0), 0) == f.0;
    assert s[p + 2..p + 8] == e[2..];
    var after := Learn(sp, Some(f), e[2..], st.(mp := true));
    assert OneCap(sp, s, p + 2, st) == Some(after);
    hide OneCap;
    assert ParseCaps(sp, s, p + 8, p + 8, after) == Some(after);
    assert ParseCaps(sp, s, p + 2, p + 8, st) == Some(after);
  }

  lemma QuietOption(sp: Speaker, s: seq<Byte>, p: nat, end: nat, st: Nego)
    requires p + 4 <= |s| && p < end && s[p] == OPT_CAP && s[p + 1] == 2 && s[p + 3] == 0
    requires s[p + 2] in {CAP_REFRESH, CAP_REFRESH_OLD, CAP_DYNAMIC}
    ensures ParseOptions(sp, s, p, end, st) == ParseOptions(sp, s, p + 4, end, st)
  {
    assert OneCap(sp, s, p + 2, st) == Some(st);
    hide OneCap;
    assert ParseCaps(sp, s, p + 4, p + 4, st) == Some(st);
    assert ParseCaps(sp, s, p + 2, p + 4, st) == Some(st);
  }

  lemma As4Option(sp: Speaker, s: seq<Byte>, p: nat, end: nat, st: Nego)
    requires p + 8 <= |s| && p < end && s[p] == OPT_CAP && s[p + 1] == 6 && s[p + 2] == CAP_AS4 && s[p + 3] == 4
    requires GetL(s, p + 4) != 0
    ensures ParseOptions(sp, s, p, end, st) == ParseOptions(sp, s, p + 8, end, st)
  {
    assert OneCap(sp, s, p + 2, st) == Some(st);
    hide OneCap;
    assert ParseCaps(sp, s, p + 8, p + 8, st) == Some(st);
    assert ParseCaps(sp, s, p + 2, p + 8, st) == Some(st);
  }

  lemma RestartOption(sp: Speaker, s: seq<Byte>, p: nat, end: nat, o: Sender, st: Nego)
    requires IsU16(o.restart) && At(s, p, RestartCap(o)) && p < end
    ensures p + |RestartCap(o)| <= |s|
    ensures ParseOptions(sp, s, p, end, st) == ParseOptions(sp, s, p + |RestartCap(o)|, end, st)
  {
    var e, n: nat := RestartCap(o), |RestartBody(o)|;
    assert s[p] == e[0] && s[p + 1] == e[1] && s[p + 2] == e[2] && s[p + 3] == e[3] by {
      assert forall k :: 0 <= k < |e| ==> s[p + k] == e[k];
      assert s[p + 0] == e[0];
    }
    assert OneCap(sp, s, p + 2, st) == Some(st);
    hide OneCap, RestartBody;
    assert ParseCaps(sp, s, p + 4 + n, p + 4 + n, st) == Some(st);
    assert ParseCaps(sp, s, p + 2, p + 4 + n, st) == Some(st);
  }

  lemma FixedOptions(sp: Speaker, s: seq<Byte>, p: nat, end: nat, localAs: int, st: Nego)
    requires IsU32(localAs) && localAs != 0 && At(s, p, FixedCaps(localAs)) && p + 16 <= end
    ensures ParseOptions(sp, s, p, end, st) == ParseOptions(sp, s, p + 16, end, st)
  {
    var e := FixedCaps(localAs);
    assert forall k :: 0 <= k < 16 ==> s[p + k] == e[k];
    assert s[p] == e[0] && s[p + 1] == e[1] && s[p + 2] == e[2] && s[p + 3] == e[3];
    assert s[p + 4] == e[4] && s[p + 5] == e[5] && s[p + 6] == e[6] && s[p + 7] == e[7];
    assert s[p + 8] == e[8] && s[p + 9] == e[9] && s[p + 10] == e[10] && s[p + 11] == e[11];
    assert s[p + 12] == e[12] && s[p + 13] == e[13] && s[p + 14] == e[14] && s[p + 15] == e[15];
    assert GetL(s, p + 12) == GetL(PutL(localAs), 0) == localAs;
    hide ParseCaps;
    QuietOption(sp, s, p, end, st);
    QuietOption(sp, s, p + 4, end, st);
    As4Option(sp, s, p + 8, end, st);
  }

  lemma DynamicOption(sp: Speaker, s: seq<Byte>, p: nat, end: nat, dynamic: bool, st: Nego)
    requires At(s, p, DynamicCap(dynamic)) && p + |DynamicCap(dynamic)| <= end
    ensures ParseOptions(sp, s, p, end, st) == ParseOptions(sp, s, p + |DynamicCap(dynamic)|, end, st)
  {
    if dynamic {
      var e := DynamicCap(dynamic);
      assert s[p + 0] == e[0] && s[p + 1] == e[1] && s[p + 2] == e[2] && s[p + 3] == e[3];
      QuietOption(sp, s, p, end, st);
    }
  }

  /** None of what follows the families touches them. */
  lemma RestOptions(sp: Speaker, s: seq<Byte>, p: nat, o: Sender, st: Nego)
    requires Sendable(o) && o.localAs != 0 && At(s, p, RestCaps(o)) && p + |RestCaps(o)| == |s|
    ensures ParseOptions(sp, s, p, |s|, st) == Some(st)
  {
    var fixed, dynamic, restart := FixedCaps(o.localAs), DynamicCap(o.dynamic), RestartCap(o);
    hide FixedCaps, DynamicCap, RestartCap;
    AtConcat(s, p, fixed + dynamic, restart);
    AtConcat(s, p, fixed, dynamic);
    var q := p + 16 + |dynamic|;
    FixedOptions(sp, s, p, |s|, o.localAs, st);
    DynamicOption(sp, s, p + 16, |s|, o.dynamic, st);
    RestartOption(sp, s, q, |s|, o, st);
    assert ParseOptions(sp, s, |s|, |s|, st) == Some(st);
  }

  function RestCaps(o: Sender): seq<Byte>
    requires Sendable(o)
  {
    FixedCaps(o.localAs) + DynamicCap(o.dynamic) + RestartCap(o)
  }

  /** The families of `fs` announced one after the other. */
  ghost function LearnAll(sp: Speaker, fs: seq<Family>, st: Nego): Nego
    requires AllFamilies(fs)
  {
    if fs == [] then st
    else LearnAll(sp, fs[1..], Learn(sp, Some(fs[0]), MpBytes(fs[0])[2..], st.(mp := true)))
  }

  lemma {:induction false} LearnAllResult(sp: Speaker, fs: seq<Family>, st: Nego)
    requires AllFamilies(fs)
    ensures var r := LearnAll(sp, fs, st);
      && r.recv == st.recv + (set f | f in fs) && r.nego == st.nego + (set f | f in fs && f in sp.afc)
      && r.mp == (st.mp || fs != [])
    decreases |fs|
  {
    if fs != [] {
      var next := Learn(sp, Some(fs[0]), MpBytes(fs[0])[2..], st.(mp := true));
      LearnAllResult(sp, fs[1..], next);
      assert fs == [fs[0]] + fs[1..];
    }
  }

  lemma {:induction false} MpAllLength(fs: seq<Family>)
    requires AllFamilies(fs)
    ensures |MpAll(fs)| == 8 * |fs|
    decreases |fs|
  {
    if fs != [] { MpAllLength(fs[1..]); }
  }

  lemma {:induction false} MpOptions(sp: Speaker, s: seq<Byte>, p: nat, end: nat, fs: seq<Family>, st: Nego)
    requires !sp.ignoresCaps && AllFamilies(fs) && At(s, p, MpAll(fs)) && p + 8 * |fs| <= end
    ensures p + 8 * |fs| <= |s|
    ensures ParseOptions(sp, s, p, end, st) == ParseOptions(sp, s, p + 8 * |fs|, end, LearnAll(sp, fs, st))
    decreases |fs|
  {
    MpAllLength(fs);
    hide ParseOptions, MpBytes, Learn;
    if fs != [] {
      AtConcat(s, p, MpBytes(fs[0]), MpAll(fs[1..]));
      OneMpOption(sp, s, p, end, fs[0], st);
      MpOptions(sp, s, p + 8, end, fs[1..], Learn(sp, Some(fs[0]), MpBytes(fs[0])[2..], st.(mp := true)));
    }
  }

  /** What a speaker sends. */
  function OpenCapability(o: Sender): seq<Byte>
    requires Sendable(o)
  {
    FamiliesOk(o.afc);
    MpAll(Configured(o.afc, FAMILIES)) + RestCaps(o)
  }

  lemma FamiliesOk(afc: set<Family>)
    ensures AllFamilies(Configured(afc, FAMILIES))
  {
    var c := Configured(afc, FAMILIES);
    forall i | 0 <= i < |c| ensures IsFamily(c[i]) {
      assert c[i] in FAMILIES;
    }
  }

  ghost predicate ProperConfig(afc: set<Family>) { forall f :: f in afc ==> f in FAMILIES }

  lemma AnnouncedTell(sp: Speaker, fs: seq<Family>, o: Sender)
    requires !sp.ignoresCaps && Sendable(o) && o.localAs != 0 && AllFamilies(fs)
    ensures var s := MpAll(fs) + RestCaps(o);
      var r := ParseOptions(sp, s, 0, |s|, NOTHING);
      r.Some? && r.value.recv == (set f | f in fs) && r.value.nego == (set f | f in fs && f in sp.afc)
      && r.value.mp == (fs != [])
  {
    hide ParseOptions, RestCaps, MpAll, LearnAll;
    var s := MpAll(fs) + RestCaps(o);
    MpAllLength(fs);
    AtConcat(s, 0, MpAll(fs), RestCaps(o));
    MpOptions(sp, s, 0, |s|, fs, NOTHING);
    RestOptions(sp, s, |MpAll(fs)|, o, LearnAll(sp, fs, NOTHING));
    LearnAllResult(sp, fs, NOTHING);
  }

  lemma ConfiguredSet(afc: set<Family>, mine: set<Family>)
    requires ProperConfig(afc)
    ensures var fs := Configured(afc, FAMILIES);
      (set f | f in fs) == afc && (set f | f in fs && f in mine) == afc * mine && (fs == [] <==> afc == {})
  {
    var fs := Configured(afc, FAMILIES);
    hide Configured;
    assert forall f :: f in afc ==> f in fs;
    if fs != [] { assert fs[0] in fs; }
  }

  /** The receiver learns exactly the sender's families and agrees on those it has itself. */
  lemma OptionsTell(sp: Speaker, o: Sender)
    requires !sp.ignoresCaps && Sendable(o) && o.localAs != 0 && ProperConfig(o.afc)
    ensures var s := OpenCapability(o);
      var r := ParseOptions(sp, s, 0, |s|, NOTHING);
      r.Some? && r.value.recv == o.afc && r.value.nego == o.afc * sp.afc && r.value.mp == (o.afc != {})
  {
    hide ParseOptions, RestCaps, MpAll, Configured;
    FamiliesOk(o.afc);
    ConfiguredSet(o.afc, sp.afc);
    AnnouncedTell(sp, Configured(o.afc, FAMILIES), o);
  }

  // ----- the rest of the OPEN

  const BASIC: set<Family> := {(1, 1), (1, 2), (2, 1), (2, 2)}

  /** What is settled by an OPEN: hold time, keepalive time and families. */
  datatype Agreed = Agreed(hold: nat, keepalive: nat, families: set<Family>)

  function ReceiveOpen(sp: Speaker, configHold: nat, hold: nat, s: seq<Byte>): Option<Agreed> {
    if hold < 3 && hold != 0 then None
    else
      var time := if hold < configHold then hold else configHold;
      var parsed := if |s| != 0 then OptionParse(sp, s, 0, |s|) else Some(NOTHING);
      match parsed
      case None => None
      case Some(st) =>
        var families := if !st.mp || sp.ignoresCaps then (st.nego - BASIC) + (sp.afc * BASIC) else st.nego;
        Some(Agreed(time, time / 3, families))
  }

  lemma NotEmptyOpen(o: Sender)
    requires Sendable(o)
    ensures |OpenCapability(o)| > 0
  {
    hide MpAll, FixedCaps, RestartCap;
  }

  /** Two speakers exchange OPENs: each accepts exactly when the other's hold time is not one or
      two seconds and their families meet, and two that accept have settled the same. */
  lemma ExchangeAgrees(a: Speaker, b: Speaker, holdA: nat, holdB: nat, sentA: Sender, sentB: Sender)
    requires !a.ignoresCaps && !b.ignoresCaps && !a.strict && !b.strict
    requires ProperConfig(a.afc) && ProperConfig(b.afc) && a.afc != {} && b.afc != {}
    requires Sendable(sentA) && sentA.localAs != 0 && sentA.afc == a.afc
    requires Sendable(sentB) && sentB.localAs != 0 && sentB.afc == b.afc
    ensures var atA := ReceiveOpen(a, holdA, holdB, OpenCapability(sentB));
      var atB := ReceiveOpen(b, holdB, holdA, OpenCapability(sentA));
      && (atA.Some? <==> holdB !in {1, 2} && a.afc * b.afc != {})
      && (atB.Some? <==> holdA !in {1, 2} && a.afc * b.afc != {})
      && (atA.Some? && atB.Some? ==> atA == atB && atA.value.families == a.afc * b.afc)
      && (atA.Some? && atB.Some? ==> atA.value.hold == if holdA < holdB then holdA else holdB)
  {
    hide ParseOptions, OpenCapability, ProperConfig;
    NotEmptyOpen(sentA);
    NotEmptyOpen(sentB);
    OptionsTell(a, sentB);
    OptionsTell(b, sentA);
    assert a.afc * b.afc == b.afc * a.afc;
  }

  // ----- writing and reading the OPEN message

  /** Announces one family if it is configured. */
  method PutFamily(s: seq<Byte>, afc: set<Family>, k: nat) returns (r: seq<Byte>)
    requires k < |FAMILIES| && s == Announced(afc, k)
    ensures r == Announced(afc, k + 1)
  {
    r := s;
    var f := FAMILIES[k];
    assert IsFamily(f);
    if f in afc {
      var afi := PutW(f.0);
      r := r + [OPT_CAP, 6, CAP_MP, 4, afi[0], afi[1], 0, WireSafi(f.1)];
    }
    AnnouncedStep(afc, k);
  }

  /** The announcements of the first `k` families. */
  ghost function Announced(afc: set<Family>, k: nat): seq<Byte>
    requires k <= |FAMILIES|
  {
    PrefixFamilies(afc, k);
    MpAll(Configured(afc, FAMILIES[..k]))
  }

  lemma PrefixFamilies(afc: set<Family>, k: nat)
    requires k <= |FAMILIES|
    ensures AllFamilies(Configured(afc, FAMILIES[..k]))
  {
    var c := Configured(afc, FAMILIES[..k]);
    forall i | 0 <= i < |c| ensures IsFamily(c[i]) {
      assert c[i] in FAMILIES[..k] && c[i] in FAMILIES;
    }
  }

  lemma {:induction false} ConfiguredSnoc(afc: set<Family>, fs: seq<Family>, f: Family)
    ensures Configured(afc, fs + [f]) == Configured(afc, fs) + (if f in afc then [f] else [])
    decreases |fs|
  {
    if fs == [] {
      assert fs + [f] == [f] && [f][1..] == [];
    } else {
      assert (fs + [f])[1..] == fs[1..] + [f];
      ConfiguredSnoc(afc, fs[1..], f);
    }
  }

  lemma FamiliesSnoc(fs: seq<Family>, f: Family)
    requires AllFamilies(fs) && IsFamily(f)
    ensures AllFamilies(fs + [f]) && (fs != [] ==> AllFamilies(fs[1..]))
  {
  }

  lemma {:induction false} MpAllSnoc(fs: seq<Family>, f: Family)
    requires AllFamilies(fs) && IsFamily(f)
    ensures AllFamilies(fs + [f]) && MpAll(fs + [f]) == MpAll(fs) + MpBytes(f)
    decreases |fs|
  {
    FamiliesSnoc(fs, f);
    hide MpBytes, IsFamily;
    if fs == [] {
      assert fs + [f] == [f] && [f][1..] == [];
    } else {
      assert (fs + [f])[1..] == fs[1..] + [f];
      MpAllSnoc(fs[1..], f);
      assert MpBytes(fs[0]) + (MpAll(fs[1..]) + MpBytes(f)) == MpAll(fs) + MpBytes(f);
    }
  }

  lemma AnnouncedStep(afc: set<Family>, k: nat)
    requires k < |FAMILIES|
    ensures IsFamily(FAMILIES[k])
    ensures Announced(afc, k + 1) == Announced(afc, k) + (if FAMILIES[k] in afc then MpBytes(FAMILIES[k]) else [])
  {
    var f, before := FAMILIES[k], Configured(afc, FAMILIES[..k]);
    assert IsFamily(f);
    assert FAMILIES[..k + 1] == FAMILIES[..k] + [f];
    PrefixFamilies(afc, k);
    hide MpBytes, MpAll;
    ConfiguredSnoc(afc, FAMILIES[..k], f);
    MpAllSnoc(before, f);
    assert before + [] == before;
  }

  /** Writes the capabilities: family by family, then the others. */
  method WriteCapabilities(o: Sender) returns (s: seq<Byte>)
    requires Sendable(o)
    ensures s == OpenCapability(o)
  {
    s := WriteFamilies(o.afc);
    WholeAnnounced(o.afc);
    hide Announced, MpAll, FixedCaps, RestartCap;
    var start := s;
    s := s + FixedCaps(o.localAs);
    if o.dynamic {
      s := s + [OPT_CAP, 2, CAP_DYNAMIC, 0];
    }
    assert s == start + (FixedCaps(o.localAs) + DynamicCap(o.dynamic));
    var more := WriteRestart(s, o);
    assert start + (FixedCaps(o.localAs) + DynamicCap(o.dynamic)) + RestartCap(o) == start + RestCaps(o);
    s := more;
  }

  method WriteFamilies(afc: set<Family>) returns (s: seq<Byte>)
    ensures s == Announced(afc, 8)
  {
    assert FAMILIES[..0] == [] && FAMILIES[..8] == FAMILIES;
    s := [];
    assert s == Announced(afc, 0);
    hide Announced, MpAll;
    s := PutFamily(s, afc, 0);
    s := PutFamily(s, afc, 1);
    s := PutFamily(s, afc, 2);
    s := PutFamily(s, afc, 3);
    s := PutFamily(s, afc, 4);
    s := PutFamily(s, afc, 5);
    s := PutFamily(s, afc, 6);
    s := PutFamily(s, afc, 7);
  }

  /** Writes the restart capability; both lengths are filled in at the end. */
  method WriteRestart(start: seq<Byte>, o: Sender) returns (s: seq<Byte>)
    requires Sendable(o)
    ensures s == start + RestartCap(o)
  {
    hide RestartBody;
    var capp := |start| + 1;
    var rcapp := |start| + 3;
    s := WriteRestartBody(start + [OPT_CAP, 0, CAP_RESTART, 0], o);
    PatchedHeader(start, RestartBody(o));
    s := s[rcapp := |s| - rcapp - 1];
    s := s[capp := |s| - capp - 1];
  }

  method WriteRestartBody(start: seq<Byte>, o: Sender) returns (s: seq<Byte>)
    requires Sendable(o)
    ensures s == start + RestartBody(o)
  {
    FamiliesOk(o.afc);
    hide AllFamilies, Configured, RestartFamilies, PutW;
    s := start + PutW(o.restart);
    if o.graceful {
      s := WriteRestartFamilies(s, o.afc);
    }
  }

  lemma PatchedHeader(start: seq<Byte>, body: seq<Byte>)
    requires |body| <= 253
    ensures var s := start + [OPT_CAP, 0, CAP_RESTART, 0] + body;
      s[|start| + 3 := |body|][|start| + 1 := |body| + 2] == start + ([OPT_CAP, |body| + 2, CAP_RESTART, |body|] + body)
  {
  }

  method WriteRestartFamilies(start: seq<Byte>, afc: set<Family>) returns (s: seq<Byte>)
    requires AllFamilies(Configured(afc, FAMILIES))
    ensures s == start + RestartFamilies(Configured(afc, FAMILIES))
  {
    s := start;
    RestartedEnds(afc);
    hide *;
    for k := 0 to |FAMILIES|
      invariant s == start + Restarted(afc, k)
    {
      RestartedStep(afc, k);
      ghost var before := Restarted(afc, k);
      s := PutRestartFamily(s, FAMILIES[k], FAMILIES[k] in afc);
      ConcatAssociates(start, before, if FAMILIES[k] in afc then RestartFamily(FAMILIES[k]) else []);
    }
  }

  method PutRestartFamily(s: seq<Byte>, f: Family, configured: bool) returns (r: seq<Byte>)
    requires IsFamily(f)
    ensures r == s + if configured then RestartFamily(f) else []
  {
    r := s;
    if configured {
      var afi := PutW(f.0);
      r := r + [afi[0], afi[1], f.1, 0];
    }
  }

  /** The first `k` families as the restart capability lists them. */
  ghost function Restarted(afc: set<Family>, k: nat): seq<Byte>
    requires k <= |FAMILIES|
  {
    PrefixFamilies(afc, k);
    RestartFamilies(Configured(afc, FAMILIES[..k]))
  }

  lemma RestartedEnds(afc: set<Family>)
    requires AllFamilies(Configured(afc, FAMILIES))
    ensures Restarted(afc, 0) == [] && Restarted(afc, |FAMILIES|) == RestartFamilies(Configured(afc, FAMILIES))
  {
    assert FAMILIES[..0] == [] && FAMILIES[..|FAMILIES|] == FAMILIES;
  }

  lemma RestartedStep(afc: set<Family>, k: nat)
    requires k < |FAMILIES|
    ensures IsFamily(FAMILIES[k])
    ensures var f := FAMILIES[k];
      Restarted(afc, k + 1) == Restarted(afc, k) + (if f in afc then RestartFamily(f) else [])
  {
    var f, before := FAMILIES[k], Configured(afc, FAMILIES[..k]);
    assert IsFamily(f);
    assert FAMILIES[..k + 1] == FAMILIES[..k] + [f];
    PrefixFamilies(afc, k);
    hide RestartFamily, RestartFamilies;
    ConfiguredSnoc(afc, FAMILIES[..k], f);
    RestartFamiliesSnoc(before, f);
    assert before + [] == before;
  }

  lemma {:induction false} RestartFamiliesSnoc(fs: seq<Family>, f: Family)
    requires AllFamilies(fs) && IsFamily(f)
    ensures AllFamilies(fs + [f]) && RestartFamilies(fs + [f]) == RestartFamilies(fs) + RestartFamily(f)
    decreases |fs|
  {
    FamiliesSnoc(fs, f);
    hide RestartFamily, IsFamily;
    if fs == [] {
      assert fs + [f] == [f] && [f][1..] == [];
    } else {
      assert (fs + [f])[1..] == fs[1..] + [f];
      RestartFamiliesSnoc(fs[1..], f);
      assert RestartFamily(fs[0]) + (RestartFamilies(fs[1..]) + RestartFamily(f)) == RestartFamilies(fs) + RestartFamily(f);
    }
  }

  lemma WholeAnnounced(afc: set<Family>)
    ensures AllFamilies(Configured(afc, FAMILIES)) && Announced(afc, 8) == MpAll(Configured(afc, FAMILIES))
  {
    FamiliesOk(afc);
    assert FAMILIES[..8] == FAMILIES;
  }

  /** The receiving side of an OPEN: the message, the read pointer and what has been learnt. */
  class Receiver {
    const sp: Speaker
    const data: seq<Byte>
    var getp: nat
    var recv: set<Family>
    var nego: set<Family>
    var mp: bool
    var unsupported: seq<Byte>

    constructor (sp: Speaker, data: seq<Byte>)
      ensures this.sp == sp && this.data == data && getp == 0 && View() == NOTHING
    {
      this.sp, this.data := sp, data;
      getp, recv, nego, mp, unsupported := 0, {}, {}, false, [];
    }

    function View(): Nego
      reads this
    {
      Nego(recv, nego, mp, unsupported)
    }

    /** A multiprotocol capability: an unknown family, or one not configured, is unsupported. */
    method CapabilityMp() returns (ok: bool)
      requires getp + 4 <= |data|
      modifies this`getp, this`recv, this`nego
      ensures var o := ValidFamily(GetW(data, old(getp)), data[old(getp) + 3]);
        && (ok <==> o.Some? && o.value in sp.afc)
        && recv == old(recv) + (if o.Some? then {o.value} else {})
        && nego == old(nego) + (if ok then {o.value} else {})
    {
      var afi, safi := GetW(data, getp), data[getp + 3];
      getp := getp + 4;
      var family := ValidFamily(afi, safi);
      if family.None? {
        return false;
      }
      recv := recv + {family.value};
      if family.value in sp.afc {
        nego := nego + {family.value};
        return true;
      }
      return false;
    }

    /** One capability whose header is at the read pointer. */
    method Capability() returns (ok: bool)
      requires getp + 2 <= |data| && getp + 2 + data[getp + 1] <= |data|
      modifies this
      ensures ok <==> OneCap(sp, data, old(getp), old(View())).Some?
      ensures ok ==> View() == OneCap(sp, data, old(getp), old(View())).value && getp == old(getp) + 2 + data[old(getp) + 1]
    {
      var header := getp;
      var code, length := data[getp], data[getp + 1];
      getp := getp + 2;
      var start := getp;
      if KnownCap(code) {
        if length < MinSize(code) {
          return false;
        }
        if length != 0 && length % ModSize(code) != 0 {
          return false;
        }
      }
      if code == CAP_MP {
        mp := true;
        if !sp.ignoresCaps {
          var supported := CapabilityMp();
          if !supported {
            unsupported := unsupported + data[header..start + length];
          }
        }
      } else if code == CAP_AS4 {
        if length != 4 || GetL(data, start) == 0 {
          return false;
        }
      } else if !KnownCap(code) && code <= 128 {
        unsupported := unsupported + data[header..start + length];
      }
      getp := start + length;
      return true;
    }

    method CapabilityParse(length: nat) returns (ok: bool)
      requires getp + length <= |data|
      modifies this
      ensures ok <==> ParseCaps(sp, data, old(getp), old(getp) + length, old(View())).Some?
      ensures ok ==> View() == ParseCaps(sp, data, old(getp), old(getp) + length, old(View())).value
      ensures ok ==> getp == old(getp) + length
    {
      var end := getp + length;
      ghost var goal := ParseCaps(sp, data, getp, end, View());
      hide OneCap;
      while getp < end
        invariant getp <= end <= |data| && ParseCaps(sp, data, getp, end, View()) == goal
        decreases end - getp
      {
        if getp + 2 > end {
          return false;
        }
        if getp + 2 + data[getp + 1] > end {
          return false;
        }
        var good := Capability();
        if !good {
          return false;
        }
      }
      return true;
    }

    /** The optional parameters of the OPEN. */
    method OpenOptionParse(length: nat) returns (ok: bool)
      requires getp <= |data|
      modifies this
      ensures var all := ParseOptions(sp, data, old(getp), old(getp) + length, old(View()));
        (ok <==> all.Some? && Acceptable(sp, all.value)) && (ok ==> View() == all.value)
    {
      var end := getp + length;
      ghost var goal := ParseOptions(sp, data, getp, end, View());
      hide ParseCaps;
      while getp < end
        invariant getp <= |data| && ParseOptions(sp, data, getp, end, View()) == goal
        decreases |data| - getp
      {
        if |data| - getp < 2 {
          return false;
        }
        var kind, size := data[getp], data[getp + 1];
        if |data| - getp - 2 < size {
          return false;
        }
        if kind != OPT_CAP {
          return false;
        }
        getp := getp + 2;
        var good := CapabilityParse(size);
        if !good {
          return false;
        }
      }
      ok := Acceptable(sp, View());
    }
  }

  /** The checks after the last parameter. */
  predicate Acceptable(sp: Speaker, st: Nego) {
    && (sp.strict ==> st.unsupported == [] && sp.afc == st.nego)
    && (st.mp && !sp.ignoresCaps ==> st.nego != {})
  }
}
