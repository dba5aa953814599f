/** Adj-RIB-Out synchronisation for one peer and one address family: requests overwrite
    pending advertisements, two FIFOs drain into UPDATE messages, and the neighbour's table
    converges to the last requests (sections 9.1.3 and 9.2 of RFC 4271). */
module AdjRibOut {

  import opened Options
  import opened Sequences

  datatype Prefix = Prefix(bits: int, length: int)

  datatype Attr = Attr(value: int)

  /** A pending advertisement; without an advertise attribute it is a withdrawal. */
  datatype Adv = Adv(baa: Option<Attr>)

  /** What has been sent for a prefix, and what is pending. */
  datatype Adj = Adj(attr: Option<Attr>, adv: Option<Adv>)

  /** The advertise attribute groups all pending advertisements of one attribute. */
  datatype Baa = Baa(advs: seq<Prefix>, refcnt: int)

  datatype Message = Update(attr: Attr, nlri: seq<Prefix>) | Withdraw(routes: seq<Prefix>)

  /** The synchronisation state, with its history: the messages sent so far, the state last
      requested for every prefix, and the prefixes whose request was dropped because its
      attributes left no room in a packet. */
  datatype State = State(
    adj: map<Prefix, Adj>,
    update: seq<Prefix>, updateCount: int,
    withdraw: seq<Prefix>, withdrawCount: int,
    baas: map<Attr, Baa>,
    scount: int,
    wire: seq<Message>,
    requested: map<Prefix, Attr>,
    lost: set<Prefix>)

  // ----- the neighbour

  function Override(table: map<Prefix, Attr>, ps: seq<Prefix>, a: Attr): map<Prefix, Attr> {
    table + (map p | p in ps :: a)
  }

  function Minus(table: map<Prefix, Attr>, ps: seq<Prefix>): map<Prefix, Attr> {
    table - (set p | p in ps)
  }

  lemma OverrideStep(table: map<Prefix, Attr>, p: Prefix, more: seq<Prefix>, a: Attr)
    ensures Override(table, [], a) == table
    ensures Override(table[p := a], more, a) == Override(table, [p] + more, a)
  {
  }

  lemma MinusStep(table: map<Prefix, Attr>, p: Prefix, more: seq<Prefix>)
    ensures Minus(table, []) == table
    ensures Minus(table - {p}, more) == Minus(table, [p] + more)
  {
  }

  function Applied(table: map<Prefix, Attr>, m: Message): map<Prefix, Attr> {
    match m
    case Update(a, nlri) => Override(table, nlri, a)
    case Withdraw(routes) => Minus(table, routes)
  }

  /** The table a neighbour builds from the messages, in order, starting empty. */
  function TableOf(wire: seq<Message>): map<Prefix, Attr> {
    if wire == [] then map[] else Applied(TableOf(wire[..|wire| - 1]), wire[|wire| - 1])
  }

  lemma TableOfAppend(wire: seq<Message>, m: Message)
    ensures TableOf(wire + [m]) == Applied(TableOf(wire), m)
  {
    assert (wire + [m])[..|wire|] == wire;
  }

  // ----- the operations, on states

  predicate HasUpdate(s: State, p: Prefix) {
    p in s.adj && s.adj[p].adv.Some? && s.adj[p].adv.value.baa.Some?
  }

  /** The group a pending advertisement belongs to. */
  function GroupOf(s: State, p: Prefix): Attr
    requires HasUpdate(s, p)
  {
    s.adj[p].adv.value.baa.value
  }

  predicate HasWithdraw(s: State, p: Prefix) {
    p in s.adj && s.adj[p].adv.Some? && s.adj[p].adv.value.baa.None?
  }

  function Interned(baas: map<Attr, Baa>, a: Attr): Baa {
    if a in baas then baas[a] else Baa([], 0)
  }

  /** Drops one reference; the group disappears with its last reference. */
  function Released(baas: map<Attr, Baa>, a: Attr, advs: seq<Prefix>): map<Attr, Baa>
    requires a in baas
  {
    if baas[a].refcnt - 1 > 0 then baas[a := Baa(advs, baas[a].refcnt - 1)] else baas - {a}
  }

  /** Unlinks the pending advertisement of `p` from its group and its FIFO. */
  function Clean(s: State, p: Prefix): State
    requires p in s.adj && s.adj[p].adv.Some?
    requires HasUpdate(s, p) ==> GroupOf(s, p) in s.baas
  {
    var idle := s.adj[p := s.adj[p].(adv := None)];
    match s.adj[p].adv.value.baa
    case Some(a) =>
      s.(adj := idle,
         baas := Released(s.baas, a, Without(s.baas[a].advs, p)),
         update := Without(s.update, p), updateCount := s.updateCount - 1)
    case None =>
      s.(adj := idle, withdraw := Without(s.withdraw, p), withdrawCount := s.withdrawCount - 1)
  }

  function Cleaned(s: State, p: Prefix): State
    requires HasUpdate(s, p) ==> GroupOf(s, p) in s.baas
  {
    if p in s.adj && s.adj[p].adv.Some? then Clean(s, p) else s
  }

  function Queue(s: State, p: Prefix, a: Attr): State {
    var sent := if p in s.adj then s.adj[p].attr else None;
    var b := Interned(s.baas, a);
    s.(adj := s.adj[p := Adj(sent, Some(Adv(Some(a))))],
       baas := s.baas[a := Baa([p] + b.advs, b.refcnt + 1)],
       update := s.update + [p], updateCount := s.updateCount + 1)
  }

  function SetRequest(s: State, p: Prefix, a: Attr): State
    requires Core(s)
  {
    Queue(Cleaned(s, p), p, a).(requested := s.requested[p := a], lost := s.lost - {p})
  }

  function Forget(s: State, p: Prefix): State {
    s.(adj := s.adj - {p})
  }

  function QueueWithdraw(s: State, p: Prefix): State
    requires p in s.adj
  {
    s.(adj := s.adj[p := s.adj[p].(adv := Some(Adv(None)))],
       withdraw := s.withdraw + [p], withdrawCount := s.withdrawCount + 1)
  }

  function UnsetRequest(s: State, p: Prefix): State
    requires Core(s)
  {
    if p !in s.adj then s.(requested := s.requested - {p}, lost := s.lost - {p})
    else
      UnsetIdle(Cleaned(s, p), p).(requested := s.requested - {p}, lost := s.lost - {p})
  }

  /** Records the attribute as sent and retires the advertisement. */
  function Announce(s: State, p: Prefix): State
    requires Core(s) && HasUpdate(s, p)
  {
    var a := GroupOf(s, p);
    Clean(s.(scount := if s.adj[p].attr.Some? then s.scount else s.scount + 1,
             adj := s.adj[p := s.adj[p].(attr := Some(a))]), p)
  }

  /** The advertisement the packet builder takes next: the head of the same group. */
  function NextInGroup(s: State, a: Attr): Option<Prefix> {
    if a in s.baas && s.baas[a].advs != [] then Some(s.baas[a].advs[0]) else None
  }

  /** Removes an adjacency whose withdrawal has been written. */
  function Retract(s: State, p: Prefix): State
    requires Core(s) && HasWithdraw(s, p)
  {
    Forget(Clean(s.(scount := s.scount - 1, adj := s.adj[p := s.adj[p].(attr := None)]), p), p)
  }

  /** Frees an adjacency together with whatever is pending for it. */
  function Removed(s: State, p: Prefix): State
    requires p in s.adj && (HasUpdate(s, p) ==> GroupOf(s, p) in s.baas)
  {
    Forget(Cleaned(s.(adj := s.adj[p := s.adj[p].(attr := None)]), p), p)
  }

  // ----- the invariant

  ghost predicate FifosMatch(s: State) {
    && NoRepeats(s.update) && NoRepeats(s.withdraw)
    && (forall p :: p in s.update <==> HasUpdate(s, p))
    && (forall p :: p in s.withdraw <==> HasWithdraw(s, p))
    && s.updateCount == |s.update| && s.withdrawCount == |s.withdraw|
  }

  ghost predicate GroupOk(s: State, a: Attr)
    requires a in s.baas
  {
    && NoRepeats(s.baas[a].advs) && s.baas[a].advs != []
    && s.baas[a].refcnt == |s.baas[a].advs|
    && (forall p :: p in s.baas[a].advs <==> HasUpdate(s, p) && GroupOf(s, p) == a)
  }

  ghost predicate GroupsMatch(s: State) {
    && (forall a :: a in s.baas ==> GroupOk(s, a))
    && (forall p :: HasUpdate(s, p) ==> GroupOf(s, p) in s.baas)
  }

  function Sent(s: State): map<Prefix, Attr> {
    map p | p in s.adj && s.adj[p].attr.Some? :: s.adj[p].attr.value
  }

  /** Every pending advertisement is on exactly one FIFO, the update FIFO exactly when it
      has a group; reference counts, FIFO counts and scount are exact; only sent prefixes
      are withdrawn. */
  ghost predicate Core(s: State) {
    && FifosMatch(s) && GroupsMatch(s)
    && (forall p :: HasWithdraw(s, p) ==> s.adj[p].attr.Some?)
    && s.scount == |Sent(s)|
  }

  /** What the neighbour will hold for `p` once everything pending is written. */
  function Wanted(s: State, p: Prefix): Option<Attr> {
    if p !in s.adj then None
    else if s.adj[p].adv.Some? then s.adj[p].adv.value.baa
    else s.adj[p].attr
  }

  function Requested(s: State, p: Prefix): Option<Attr> {
    if p in s.requested then Some(s.requested[p]) else None
  }

  ghost predicate Tracks(s: State) {
    forall p :: p !in s.lost ==> Wanted(s, p) == Requested(s, p)
  }

  ghost predicate Inv(s: State) {
    Core(s) && Tracks(s) && TableOf(s.wire) == Sent(s)
  }

  const Init := State(map[], [], 0, [], 0, map[], 0, [], map[], {})

  lemma InitInv()
    ensures Inv(Init)
  {
  }

  // ----- one operation at a time

  /** Queues and groups stay in order while the same advertisements are pending. */
  lemma QueuesSame(s: State, t: State)
    requires FifosMatch(s) && GroupsMatch(s)
    requires t == s.(adj := t.adj, scount := t.scount, wire := t.wire, requested := t.requested, lost := t.lost)
    requires forall q :: HasUpdate(t, q) == HasUpdate(s, q) && HasWithdraw(t, q) == HasWithdraw(s, q)
    requires forall q :: HasUpdate(s, q) ==> GroupOf(t, q) == GroupOf(s, q)
    ensures FifosMatch(t) && GroupsMatch(t)
  {
    hide NoRepeats, HasWithdraw, HasUpdate, GroupOf;
    assert FifosMatch(t);
    forall b | b in t.baas ensures GroupOk(t, b) {
      assert GroupOk(s, b);
    }
  }

  lemma CleanUpdateCore(s: State, p: Prefix)
    requires Core(s) && HasUpdate(s, p)
    ensures Core(Clean(s, p))
    ensures !HasUpdate(Clean(s, p), p) && !HasWithdraw(Clean(s, p), p)
    ensures |Clean(s, p).update| == |s.update| - 1
  {
    CleanUpdateFifos(s, p);
    CleanUpdateGroups(s, p);
    hide FifosMatch, GroupsMatch;
    assert Sent(Clean(s, p)) == Sent(s);
  }

  lemma CleanUpdateFifos(s: State, p: Prefix)
    requires FifosMatch(s) && HasUpdate(s, p) && GroupOf(s, p) in s.baas
    ensures FifosMatch(Clean(s, p)) && |Clean(s, p).update| == |s.update| - 1
  {
    hide Without;
    WithoutRemoves(s.update, p);
  }

  lemma CleanUpdateGroups(s: State, p: Prefix)
    requires GroupsMatch(s) && HasUpdate(s, p)
    ensures GroupsMatch(Clean(s, p))
  {
    hide Without;
    var t, a := Clean(s, p), GroupOf(s, p);
    assert GroupOk(s, a);
    WithoutRemoves(s.baas[a].advs, p);
    forall b | b in t.baas ensures GroupOk(t, b) {
      assert GroupOk(s, b);
    }
    forall q | HasUpdate(t, q) ensures GroupOf(t, q) in t.baas {
      assert HasUpdate(s, q) && q != p;
      assert GroupOk(s, GroupOf(s, q));
      if GroupOf(s, q) == a {
        assert q in Without(s.baas[a].advs, p);
      }
    }
  }

  lemma CleanWithdrawCore(s: State, p: Prefix)
    requires Core(s) && HasWithdraw(s, p)
    ensures Core(Clean(s, p))
    ensures !HasUpdate(Clean(s, p), p) && !HasWithdraw(Clean(s, p), p)
  {
    var t := Clean(s, p);
    WithoutRemoves(s.withdraw, p);
    assert Sent(t) == Sent(s);
    assert FifosMatch(t);
    forall b | b in t.baas ensures GroupOk(t, b) {
      assert GroupOk(s, b);
    }
  }

  lemma CleanedCore(s: State, p: Prefix)
    requires Core(s)
    ensures Core(Cleaned(s, p))
    ensures !HasUpdate(Cleaned(s, p), p) && !HasWithdraw(Cleaned(s, p), p)
    ensures Sent(Cleaned(s, p)) == Sent(s)
    ensures Cleaned(s, p).adj.Keys == s.adj.Keys
    ensures Cleaned(s, p).wire == s.wire && Cleaned(s, p).requested == s.requested && Cleaned(s, p).lost == s.lost
    ensures forall q :: q != p ==> Wanted(Cleaned(s, p), q) == Wanted(s, q)
  {
    if HasUpdate(s, p) { CleanUpdateCore(s, p); }
    if HasWithdraw(s, p) { CleanWithdrawCore(s, p); }
  }

  lemma QueueCore(s: State, p: Prefix, a: Attr)
    requires Core(s) && !HasUpdate(s, p) && !HasWithdraw(s, p)
    ensures Core(Queue(s, p, a))
    ensures Sent(Queue(s, p, a)) == Sent(s)
  {
    QueueFifos(s, p, a);
    QueueGroups(s, p, a);
    hide FifosMatch, GroupsMatch;
    assert Sent(Queue(s, p, a)) == Sent(s);
  }

  lemma QueueFifos(s: State, p: Prefix, a: Attr)
    requires FifosMatch(s) && !HasUpdate(s, p) && !HasWithdraw(s, p)
    ensures FifosMatch(Queue(s, p, a))
  {
  }

  lemma QueueGroups(s: State, p: Prefix, a: Attr)
    requires GroupsMatch(s) && !HasUpdate(s, p) && !HasWithdraw(s, p)
    ensures GroupsMatch(Queue(s, p, a))
  {
    var t := Queue(s, p, a);
    assert HasUpdate(t, p) && GroupOf(t, p) == a;
    assert forall q :: q != p ==> HasUpdate(t, q) == HasUpdate(s, q);
    assert forall q :: q != p && HasUpdate(s, q) ==> GroupOf(t, q) == GroupOf(s, q);
    forall b | b in t.baas ensures GroupOk(t, b) {
      if b in s.baas { assert GroupOk(s, b); }
    }
  }

  lemma QueueWithdrawCore(s: State, p: Prefix)
    requires Core(s) && !HasUpdate(s, p) && !HasWithdraw(s, p)
    requires p in s.adj && s.adj[p].attr.Some?
    ensures Core(QueueWithdraw(s, p))
    ensures Sent(QueueWithdraw(s, p)) == Sent(s)
  {
    var t := QueueWithdraw(s, p);
    assert Sent(t) == Sent(s);
    assert FifosMatch(t);
    forall b | b in t.baas ensures GroupOk(t, b) {
      assert GroupOk(s, b);
    }
  }

  lemma ForgetCore(s: State, p: Prefix)
    requires Core(s) && !HasUpdate(s, p) && !HasWithdraw(s, p)
    requires p in s.adj ==> s.adj[p].attr.None?
    ensures Core(Forget(s, p))
    ensures Sent(Forget(s, p)) == Sent(s)
  {
    QueuesSame(s, Forget(s, p));
    hide FifosMatch, GroupsMatch;
    assert Sent(Forget(s, p)) == Sent(s);
  }

  /** An advertisement is pending for `p`, and if it has a group, the group is in order. */
  ghost predicate Pending(s: State, p: Prefix) {
    && p in s.adj && s.adj[p].adv.Some?
    && (HasUpdate(s, p) ==> GroupOf(s, p) in s.baas && GroupOk(s, GroupOf(s, p)))
  }

  lemma CorePending(s: State, p: Prefix)
    requires Core(s) && p in s.adj && s.adj[p].adv.Some?
    ensures Pending(s, p)
  {
  }

  /** What is sent and how much of it plays no part in what is pending. */
  lemma PendingIgnoresSent(s: State, t: State, p: Prefix)
    requires Pending(s, p)
    requires t == s.(scount := t.scount, adj := s.adj[p := s.adj[p].(attr := None)])
    ensures Pending(t, p)
  {
  }

  /** The history fields play no part in the structural invariant. */
  lemma CoreIgnoresHistory(s: State, t: State)
    requires Core(s)
    requires t == s.(wire := t.wire, requested := t.requested, lost := t.lost)
    ensures Core(t) && Sent(t) == Sent(s)
    ensures forall q :: Wanted(t, q) == Wanted(s, q)
  {
    QueuesSame(s, t);
    hide FifosMatch, GroupsMatch;
    assert Sent(t) == Sent(s);
  }

  /** A request for one prefix leaves every other prefix on track. */
  lemma TracksOthers(s: State, t: State, p: Prefix)
    requires Tracks(s)
    requires forall q :: q != p ==> Wanted(t, q) == Wanted(s, q)
    requires forall q :: q != p ==> Requested(t, q) == Requested(s, q)
    requires t.lost == s.lost - {p} && Wanted(t, p) == Requested(t, p)
    ensures Tracks(t)
  {
  }

  lemma SetCore(s: State, p: Prefix, a: Attr)
    requires Core(s)
    ensures var t := SetRequest(s, p, a);
      Core(t) && Sent(t) == Sent(s) && t.wire == s.wire && t.lost == s.lost - {p}
      && Wanted(t, p) == Some(a) == Requested(t, p)
      && (forall q :: q != p ==> Wanted(t, q) == Wanted(s, q))
      && (forall q :: q != p ==> Requested(t, q) == Requested(s, q))
  {
    var c := Cleaned(s, p);
    hide Core, Sent, Cleaned;
    CleanedCore(s, p);
    QueueCore(c, p, a);
    CoreIgnoresHistory(Queue(c, p, a), SetRequest(s, p, a));
    forall q | q != p ensures Wanted(SetRequest(s, p, a), q) == Wanted(s, q) {
      assert Wanted(SetRequest(s, p, a), q) == Wanted(c, q);
    }
  }

  /** A request to announce replaces whatever was pending for the prefix. */
  lemma SetInv(s: State, p: Prefix, a: Attr)
    requires Inv(s)
    ensures Inv(SetRequest(s, p, a))
    ensures Wanted(SetRequest(s, p, a), p) == Some(a)
  {
    hide Core;
    SetCore(s, p, a);
    TracksOthers(s, SetRequest(s, p, a), p);
  }

  lemma UnsetCore(s: State, p: Prefix)
    requires Core(s)
    ensures var t := UnsetRequest(s, p);
      Core(t) && Sent(t) == Sent(s) && t.wire == s.wire && t.lost == s.lost - {p}
      && Wanted(t, p) == None == Requested(t, p)
      && (forall q :: q != p ==> Wanted(t, q) == Wanted(s, q))
      && (forall q :: q != p ==> Requested(t, q) == Requested(s, q))
  {
    var t, c := UnsetRequest(s, p), Cleaned(s, p);
    hide Core, Sent, Cleaned, UnsetIdle, HasUpdate, HasWithdraw;
    if p !in s.adj {
      CoreIgnoresHistory(s, t);
    } else {
      CleanedCore(s, p);
      UnsetIdleCore(c, p);
      CoreIgnoresHistory(UnsetIdle(c, p), t);
    }
  }

  /** What happens to the adjacency once nothing is pending for it. */
  function UnsetIdle(s: State, p: Prefix): State
    requires p in s.adj
  {
    if s.adj[p].attr.Some? then QueueWithdraw(s, p) else Forget(s, p)
  }

  lemma UnsetIdleCore(s: State, p: Prefix)
    requires Core(s) && !HasUpdate(s, p) && !HasWithdraw(s, p) && p in s.adj
    ensures var t := UnsetIdle(s, p);
      Core(t) && Sent(t) == Sent(s) && Wanted(t, p) == None
      && t.wire == s.wire && t.requested == s.requested && t.lost == s.lost
      && (forall q :: q != p ==> Wanted(t, q) == Wanted(s, q))
  {
    hide Core, Sent;
    if s.adj[p].attr.Some? { QueueWithdrawCore(s, p); } else { ForgetCore(s, p); }
  }

  lemma UnsetInv(s: State, p: Prefix)
    requires Inv(s)
    ensures Inv(UnsetRequest(s, p))
    ensures Wanted(UnsetRequest(s, p), p) == None
  {
    hide Core;
    UnsetCore(s, p);
    TracksOthers(s, UnsetRequest(s, p), p);
  }

  lemma AnnounceCore(s: State, p: Prefix)
    requires Core(s) && HasUpdate(s, p)
    ensures var a, t := GroupOf(s, p), Announce(s, p);
      Core(t) && Sent(t) == Sent(s)[p := a] && |t.update| == |s.update| - 1
      && t == s.(adj := t.adj, baas := t.baas, update := t.update, updateCount := t.updateCount, scount := t.scount)
      && (forall q :: HasUpdate(t, q) ==> HasUpdate(s, q) && GroupOf(t, q) == GroupOf(s, q))
      && (forall q :: Wanted(t, q) == Wanted(s, q))
  {
    var a := GroupOf(s, p);
    var m := s.(scount := if s.adj[p].attr.Some? then s.scount else s.scount + 1,
                adj := s.adj[p := s.adj[p].(attr := Some(a))]);
    AnnouncedCore(s, p);
    assert Sent(m) == Sent(s)[p := a];
    CleanUpdateCore(m, p);
    CleanedCore(m, p);
    var t := Announce(s, p);
    forall q ensures Wanted(t, q) == Wanted(s, q) {
      if q != p { assert Wanted(t, q) == Wanted(m, q); }
    }
  }

  /** Removing an idle adjacency takes its prefix out of what counts as sent. */
  lemma DropSentCore(s: State, p: Prefix)
    requires Core(s) && !HasUpdate(s, p) && !HasWithdraw(s, p)
    requires p in s.adj && s.adj[p].attr.Some?
    ensures var t := s.(scount := s.scount - 1, adj := s.adj - {p});
      Core(t) && Sent(t) == Sent(s) - {p} && (forall q :: q != p ==> Wanted(t, q) == Wanted(s, q))
  {
    var t := s.(scount := s.scount - 1, adj := s.adj - {p});
    QueuesSame(s, t);
    hide FifosMatch, GroupsMatch;
    assert Sent(t) == Sent(s) - {p};
    assert Sent(s) == Sent(t)[p := Sent(s)[p]];
  }

  lemma RetractCore(s: State, p: Prefix)
    requires Core(s) && HasWithdraw(s, p)
    ensures var t := Retract(s, p);
      Core(t) && Sent(t) == Sent(s) - {p} && t.withdraw == Without(s.withdraw, p)
      && t == s.(adj := t.adj, withdraw := t.withdraw, withdrawCount := t.withdrawCount, scount := t.scount)
      && (forall q :: Wanted(t, q) == Wanted(s, q))
  {
    // dropping the record of what was sent commutes with unlinking the advertisement
    var c := Clean(s, p);
    SentWhenWithdrawn(s, p);
    hide Core;
    CleanWithdrawCore(s, p);
    CleanedCore(s, p);
    DropSentCore(c, p);
    assert Retract(s, p) == c.(scount := c.scount - 1, adj := c.adj - {p});
    assert Wanted(Retract(s, p), p) == None == Wanted(s, p);
  }

  lemma SentWhenWithdrawn(s: State, p: Prefix)
    requires Core(s) && HasWithdraw(s, p)
    ensures s.adj[p].attr.Some?
  {
  }

  // ----- building packets

  /** Packs up to `room` prefixes of one group, starting with `p`. */
  function Drain(s: State, p: Prefix, room: nat): (State, seq<Prefix>)
    requires Core(s) && HasUpdate(s, p)
    decreases room
  {
    if room == 0 then (s, [])
    else
      AnnounceCore(s, p);
      var t := Announce(s, p);
      match NextInGroup(t, GroupOf(s, p))
      case None => (t, [p])
      case Some(q) =>
        NextPending(t, GroupOf(s, p));
        var (u, more) := Drain(t, q, room - 1);
        (u, [p] + more)
  }

  lemma NextPending(s: State, a: Attr)
    requires Core(s) && NextInGroup(s, a).Some?
    ensures var q := NextInGroup(s, a).value; HasUpdate(s, q) && GroupOf(s, q) == a
  {
    assert GroupOk(s, a);
    assert s.baas[a].advs[0] in s.baas[a].advs;
  }

  /** Drops every advertisement of one group without sending it. */
  function Flush(s: State, p: Prefix): State
    requires Core(s) && HasUpdate(s, p)
    decreases |s.update|
  {
    CleanUpdateCore(s, p);
    var a := GroupOf(s, p);
    var t := Clean(s, p).(lost := s.lost + {p});
    CoreIgnoresHistory(Clean(s, p), t);
    match NextInGroup(t, a)
    case None => t
    case Some(q) => NextPending(t, a); Flush(t, q)
  }

  /** How much of the FIFO a packet takes: `Fits(n)` leaves room for `n` prefixes, and
      `AttrsTooLong` is the case where the attributes leave room for none. */
  datatype Room = Fits(n: nat) | AttrsTooLong

  function SendUpdate(s: State, room: Room): State
    requires Core(s)
  {
    if s.update == [] || room == Fits(0) then s
    else
      assert s.update[0] in s.update;
      var p := s.update[0];
      match room
      case AttrsTooLong => Flush(s, p)
      case Fits(n) =>
        var (t, packed) := Drain(s, p, n);
        t.(wire := t.wire + [Update(GroupOf(s, p), packed)])
  }

  /** Takes up to `room` withdrawals from the head of the FIFO. */
  function DrainWithdraw(s: State, room: nat): (State, seq<Prefix>)
    requires Core(s)
    decreases room
  {
    if room == 0 || s.withdraw == [] then (s, [])
    else
      var p := s.withdraw[0];
      assert p in s.withdraw;
      RetractCore(s, p);
      var (t, more) := DrainWithdraw(Retract(s, p), room - 1);
      (t, [p] + more)
  }

  function SendWithdraw(s: State, room: nat): State
    requires Core(s)
  {
    var (t, packed) := DrainWithdraw(s, room);
    if packed == [] then t else t.(wire := t.wire + [Withdraw(packed)])
  }

  lemma DrainUnrolls(s: State, p: Prefix, room: nat)
    requires Core(s) && HasUpdate(s, p) && room > 0
    ensures var a, t := GroupOf(s, p), Announce(s, p);
      Core(t) && match NextInGroup(t, a)
        case None => Drain(s, p, room) == (t, [p])
        case Some(q) =>
          HasUpdate(t, q) && GroupOf(t, q) == a
          && Drain(s, p, room) == (Drain(t, q, room - 1).0, [p] + Drain(t, q, room - 1).1)
  {
    hide Core;
    AnnounceCore(s, p);
    var a, t := GroupOf(s, p), Announce(s, p);
    if NextInGroup(t, a).Some? { NextPending(t, a); }
  }

  lemma DrainsNothing(s: State, p: Prefix)
    requires Core(s) && HasUpdate(s, p)
    ensures Drain(s, p, 0) == (s, [])
  {
  }

  /** One UPDATE: every prefix in it was pending with the attribute it carries. */
  lemma {:induction false} DrainCore(s: State, p: Prefix, room: nat)
    requires Core(s) && HasUpdate(s, p)
    ensures var a, (t, packed) := GroupOf(s, p), Drain(s, p, room);
      Core(t)
      && (forall q :: q in packed ==> HasUpdate(s, q) && GroupOf(s, q) == a)
      && Sent(t) == Override(Sent(s), packed, a)
      && |t.update| == |s.update| - |packed| && (room > 0 ==> packed != [])
      && t == s.(adj := t.adj, baas := t.baas, update := t.update, updateCount := t.updateCount, scount := t.scount)
      && (forall q :: Wanted(t, q) == Wanted(s, q))
    decreases room
  {
    hide *;
    if room == 0 {
      DrainsNothing(s, p);
      OverrideStep(Sent(s), p, [], GroupOf(s, p));
    } else {
      var a, t := GroupOf(s, p), Announce(s, p);
      DrainUnrolls(s, p, room);
      AnnounceCore(s, p);
      match NextInGroup(t, a)
      case None =>
        OverrideStep(Sent(s), p, [], a);
        OverrideStep(Sent(s)[p := a], p, [], a);
        assert [p] + [] == [p];
      case Some(n) =>
        DrainCore(t, n, room - 1);
        OverrideStep(Sent(s), p, Drain(t, n, room - 1).1, a);
    }
  }

  lemma {:induction false} FlushCore(s: State, p: Prefix)
    requires Core(s) && HasUpdate(s, p)
    ensures var t := Flush(s, p);
      Core(t) && Sent(t) == Sent(s) && |t.update| < |s.update| && t.withdraw == s.withdraw
      && t.wire == s.wire && t.requested == s.requested && s.lost <= t.lost
      && (forall q :: q !in t.lost ==> Wanted(t, q) == Wanted(s, q))
    decreases |s.update|
  {
    var a := GroupOf(s, p);
    var c := Clean(s, p);
    var t := c.(lost := s.lost + {p});
    CleanUpdateCore(s, p);
    CleanedCore(s, p);
    CoreIgnoresHistory(c, t);
    if NextInGroup(t, a).Some? {
      NextPending(t, a);
      FlushCore(t, NextInGroup(t, a).value);
    }
  }

  lemma SendUpdateInv(s: State, room: Room)
    requires Inv(s)
    ensures Inv(SendUpdate(s, room))
    ensures s.update != [] && room != Fits(0) ==> |SendUpdate(s, room).update| < |s.update|
    ensures SendUpdate(s, room).withdraw == s.withdraw
    ensures room.Fits? ==> SendUpdate(s, room).lost == s.lost
  {
    if s.update != [] && room != Fits(0) {
      var p := s.update[0];
      assert p in s.update;
      var t := SendUpdate(s, room);
      if room.AttrsTooLong? {
        FlushCore(s, p);
      } else {
        var (d, packed) := Drain(s, p, room.n);
        DrainCore(s, p, room.n);
        CoreIgnoresHistory(d, t);
        TableOfAppend(s.wire, Update(GroupOf(s, p), packed));
      }
    }
  }

  lemma DrainWithdrawStops(s: State, room: nat)
    requires Core(s) && (room == 0 || s.withdraw == [])
    ensures DrainWithdraw(s, room) == (s, [])
  {
  }

  lemma DrainWithdrawUnrolls(s: State, room: nat)
    requires Core(s) && room > 0 && s.withdraw != []
    ensures var p := s.withdraw[0];
      HasWithdraw(s, p) && Core(Retract(s, p)) && Retract(s, p).withdraw == s.withdraw[1..]
      && DrainWithdraw(s, room)
         == (DrainWithdraw(Retract(s, p), room - 1).0, [p] + DrainWithdraw(Retract(s, p), room - 1).1)
  {
    var p := s.withdraw[0];
    assert p in s.withdraw;
    RetractCore(s, p);
  }

  lemma {:induction false} DrainWithdrawCore(s: State, room: nat)
    requires Core(s)
    ensures var (t, packed) := DrainWithdraw(s, room);
      Core(t)
      && s.withdraw == packed + t.withdraw
      && (room > 0 && s.withdraw != [] ==> packed != [])
      && Sent(t) == Minus(Sent(s), packed)
      && t == s.(adj := t.adj, withdraw := t.withdraw, withdrawCount := t.withdrawCount, scount := t.scount)
      && (forall q :: Wanted(t, q) == Wanted(s, q))
    decreases room
  {
    hide *;
    if room == 0 || s.withdraw == [] {
      DrainWithdrawStops(s, room);
      MinusStep(Sent(s), Prefix(0, 0), []);
    } else {
      var p := s.withdraw[0];
      DrainWithdrawUnrolls(s, room);
      RetractCore(s, p);
      var t := Retract(s, p);
      DrainWithdrawCore(t, room - 1);
      MinusStep(Sent(s), p, DrainWithdraw(t, room - 1).1);
      assert s.withdraw == [p] + s.withdraw[1..];
    }
  }

  lemma SendWithdrawInv(s: State, room: nat)
    requires Inv(s)
    ensures Inv(SendWithdraw(s, room))
    ensures s.withdraw != [] && room > 0 ==> |SendWithdraw(s, room).withdraw| < |s.withdraw|
    ensures SendWithdraw(s, room).update == s.update
    ensures SendWithdraw(s, room).lost == s.lost
  {
    hide Core, DrainWithdraw;
    var (d, packed) := DrainWithdraw(s, room);
    DrainWithdrawCore(s, room);
    if packed != [] {
      CoreIgnoresHistory(d, SendWithdraw(s, room));
      TableOfAppend(s.wire, Withdraw(packed));
    }
  }

  // ----- whole runs

  datatype Step =
    | Set(p: Prefix, a: Attr)
    | Unset(p: Prefix)
    | WriteUpdate(room: Room)
    | WriteWithdraw(n: nat)

  function Exec(s: State, step: Step): State
    requires Core(s)
  {
    match step
    case Set(p, a) => SetRequest(s, p, a)
    case Unset(p) => UnsetRequest(s, p)
    case WriteUpdate(room) => SendUpdate(s, room)
    case WriteWithdraw(n) => SendWithdraw(s, n)
  }

  lemma ExecInv(s: State, step: Step)
    requires Inv(s)
    ensures Inv(Exec(s, step))
    ensures !(step.WriteUpdate? && step.room.AttrsTooLong?) ==> Exec(s, step).lost <= s.lost
  {
    match step
    case Set(p, a) => SetInv(s, p, a);
    case Unset(p) => UnsetInv(s, p);
    case WriteUpdate(room) => SendUpdateInv(s, room);
    case WriteWithdraw(n) => SendWithdrawInv(s, n);
  }

  /** The state after a run, from the empty state. */
  function Run(steps: seq<Step>): (s: State)
    ensures Inv(s)
  {
    if steps == [] then InitInv(); Init
    else
      var before := Run(steps[..|steps| - 1]);
      ExecInv(before, steps[|steps| - 1]);
      Exec(before, steps[|steps| - 1])
  }

  /** The last request of the run for a prefix. */
  ghost function LastRequest(steps: seq<Step>, p: Prefix): Option<Attr> {
    if steps == [] then None
    else match steps[|steps| - 1]
      case Set(q, a) => if q == p then Some(a) else LastRequest(steps[..|steps| - 1], p)
      case Unset(q) => if q == p then None else LastRequest(steps[..|steps| - 1], p)
      case _ => LastRequest(steps[..|steps| - 1], p)
  }

  ghost predicate NeverFlushes(steps: seq<Step>) {
    forall i :: 0 <= i < |steps| ==> steps[i] != WriteUpdate(AttrsTooLong)
  }

  lemma ExecRequested(s: State, step: Step, p: Prefix)
    requires Inv(s)
    ensures Requested(Exec(s, step), p) == match step
      case Set(q, a) => if q == p then Some(a) else Requested(s, p)
      case Unset(q) => if q == p then None else Requested(s, p)
      case _ => Requested(s, p)
  {
    hide Core, Drain, Flush, DrainWithdraw, Sent;
    match step
    case Set(q, a) => SetCore(s, q, a);
    case Unset(q) => UnsetCore(s, q);
    case WriteUpdate(room) => RequestsUntouched(s, room);
    case WriteWithdraw(n) => DrainWithdrawCore(s, n);
  }

  lemma RunStep(steps: seq<Step>)
    requires steps != []
    ensures Run(steps) == Exec(Run(steps[..|steps| - 1]), steps[|steps| - 1])
  {
  }

  lemma {:induction false} HistoryIsLastRequest(steps: seq<Step>, p: Prefix)
    ensures Requested(Run(steps), p) == LastRequest(steps, p)
    ensures NeverFlushes(steps) ==> Run(steps).lost == {}
  {
    hide Core, Inv, Exec, Requested;
    if steps == [] {
      assert Run(steps) == Init;
      NothingRequested(p);
    } else {
      var init, last := steps[..|steps| - 1], steps[|steps| - 1];
      HistoryIsLastRequest(init, p);
      RunStep(steps);
      ExecRequested(Run(init), last, p);
      ExecInv(Run(init), last);
      if NeverFlushes(steps) {
        assert NeverFlushes(init);
      }
    }
  }

  lemma NothingRequested(p: Prefix)
    ensures Requested(Init, p) == None
  {
  }

  lemma RequestsUntouched(s: State, room: Room)
    requires Core(s)
    ensures SendUpdate(s, room).requested == s.requested
  {
    if s.update != [] {
      assert s.update[0] in s.update;
      match room
      case Fits(n) => DrainCore(s, s.update[0], n);
      case AttrsTooLong => FlushCore(s, s.update[0]);
    }
  }

  /** In every run, applying the messages sent so far to an empty table gives exactly what
      the adjacencies record as sent; and whenever both FIFOs are empty, a run that never had
      to flush has given the neighbour the last requested state of every prefix. */
  lemma Convergence(steps: seq<Step>)
    ensures var s := Run(steps); TableOf(s.wire) == Sent(s) && s.scount == |TableOf(s.wire)|
    ensures var s := Run(steps);
      s.update == [] && s.withdraw == [] && NeverFlushes(steps) ==>
        forall p :: LastRequest(steps, p) == if p in TableOf(s.wire) then Some(TableOf(s.wire)[p]) else None
  {
    var s := Run(steps);
    if s.update == [] && s.withdraw == [] && NeverFlushes(steps) {
      IdleIsConverged(s);
      forall p
        ensures LastRequest(steps, p) == if p in TableOf(s.wire) then Some(TableOf(s.wire)[p]) else None
      {
        HistoryIsLastRequest(steps, p);
      }
    }
  }

  // ----- requests that were lost

  /** A lost prefix was requested, and nothing is pending for it. */
  ghost predicate Stale(s: State) {
    forall p :: p in s.lost ==> Requested(s, p).Some? && !HasUpdate(s, p) && !HasWithdraw(s, p)
  }

  predicate SameAdj(s: State, t: State, x: Prefix) {
    (x in t.adj <==> x in s.adj) && (x in s.adj ==> t.adj[x] == s.adj[x])
  }

  lemma RequestOthers(s: State, p: Prefix, a: Attr, x: Prefix)
    requires Core(s) && x != p
    ensures SameAdj(s, SetRequest(s, p, a), x) && SameAdj(s, UnsetRequest(s, p), x)
  {
    hide Without;
  }

  lemma {:induction false} DrainOthers(s: State, p: Prefix, room: nat, x: Prefix)
    requires Core(s) && HasUpdate(s, p) && !HasUpdate(s, x)
    ensures SameAdj(s, Drain(s, p, room).0, x)
    decreases room
  {
    hide Core, Drain;
    if room == 0 {
      DrainsNothing(s, p);
    } else {
      DrainUnrolls(s, p, room);
      var t, a := Announce(s, p), GroupOf(s, p);
      assert SameAdj(s, t, x);
      hide Announce;
      if NextInGroup(t, a).Some? { DrainOthers(t, NextInGroup(t, a).value, room - 1, x); }
    }
  }

  lemma {:induction false} DrainWithdrawOthers(s: State, room: nat, x: Prefix)
    requires Core(s) && !HasWithdraw(s, x)
    ensures SameAdj(s, DrainWithdraw(s, room).0, x)
    decreases room
  {
    hide Core, DrainWithdraw;
    if room == 0 || s.withdraw == [] {
      DrainWithdrawStops(s, room);
    } else {
      DrainWithdrawUnrolls(s, room);
      var t := Retract(s, s.withdraw[0]);
      assert SameAdj(s, t, x);
      hide Retract;
      DrainWithdrawOthers(t, room - 1, x);
    }
  }

  /** A flush changes a prefix only by dropping its announcement, and records exactly these. */
  lemma {:induction false} FlushOne(s: State, p: Prefix, x: Prefix)
    requires Core(s) && HasUpdate(s, p)
    ensures var t := Flush(s, p);
      && (x in t.lost <==> x in s.lost || (HasUpdate(s, x) && !HasUpdate(t, x)))
      && (HasUpdate(t, x) || !HasUpdate(s, x) ==> SameAdj(s, t, x))
      && (HasUpdate(s, x) && !HasUpdate(t, x) ==> x in t.adj && t.adj[x] == s.adj[x].(adv := None))
    decreases |s.update|
  {
    var a, c := GroupOf(s, p), Clean(s, p);
    var t := c.(lost := s.lost + {p});
    CleanUpdateCore(s, p);
    CoreIgnoresHistory(c, t);
    assert SameAdj(s, t, x) || (x == p && t.adj[x] == s.adj[x].(adv := None));
    hide Core, Clean;
    if NextInGroup(t, a).Some? {
      NextPending(t, a);
      FlushOne(t, NextInGroup(t, a).value, x);
    }
  }

  function Held(s: State, p: Prefix): Option<Attr> {
    var table := TableOf(s.wire);
    if p in table then Some(table[p]) else None
  }

  predicate Requests(step: Step, p: Prefix) { (step.Set? || step.Unset?) && step.p == p }

  lemma ExecOthers(s: State, step: Step, x: Prefix)
    requires Inv(s) && Stale(s) && x in s.lost && !Requests(step, x)
    ensures SameAdj(s, Exec(s, step), x) && x in Exec(s, step).lost
  {
    hide Core, Drain, DrainWithdraw, Flush, TableOf, Tracks;
    match step
    case Set(p, a) =>
      RequestOthers(s, p, a, x);
      SetCore(s, p, a);
    case Unset(p) =>
      RequestOthers(s, p, Attr(0), x);
      UnsetCore(s, p);
    case WriteUpdate(room) =>
      if s.update != [] && room != Fits(0) {
        FirstPending(s);
        match room
        case Fits(n) =>
          DrainOthers(s, s.update[0], n, x);
          DrainCore(s, s.update[0], n);
        case AttrsTooLong => FlushOne(s, s.update[0], x);
      }
    case WriteWithdraw(n) =>
      DrainWithdrawOthers(s, n, x);
      DrainWithdrawCore(s, n);
  }

  lemma FirstPending(s: State)
    requires Core(s) && s.update != []
    ensures HasUpdate(s, s.update[0])
  {
    assert s.update[0] in s.update;
  }

  /** Only a flush loses a prefix, and then it was asked for. */
  lemma NewlyLost(s: State, step: Step, x: Prefix)
    requires Inv(s) && x !in s.lost && x in Exec(s, step).lost
    ensures step == WriteUpdate(AttrsTooLong) && HasUpdate(s, x) && Requested(s, x) == Some(GroupOf(s, x))
    ensures var t := Exec(s, step); x in t.adj && t.adj[x] == s.adj[x].(adv := None)
  {
    ExecInv(s, step);
    FirstPendingIf(s);
    assert Wanted(s, x) == Requested(s, x);
    hide Core, Flush, TableOf;
    if step == WriteUpdate(AttrsTooLong) && s.update != [] { FlushOne(s, s.update[0], x); }
  }

  lemma FirstPendingIf(s: State)
    requires Core(s)
    ensures s.update != [] ==> HasUpdate(s, s.update[0])
  {
    if s.update != [] { FirstPending(s); }
  }

  lemma ExecStale(s: State, step: Step)
    requires Inv(s) && Stale(s)
    ensures Stale(Exec(s, step))
  {
    var t := Exec(s, step);
    hide Inv, Exec;
    forall x | x in t.lost ensures Requested(t, x).Some? && !HasUpdate(t, x) && !HasWithdraw(t, x) {
      ExecRequested(s, step, x);
      if x in s.lost {
        if !Requests(step, x) { ExecOthers(s, step, x); } else { AskedIsNotLost(s, step, x); }
      } else {
        NewlyLost(s, step, x);
      }
    }
  }

  lemma AskedIsNotLost(s: State, step: Step, x: Prefix)
    requires Inv(s) && Requests(step, x)
    ensures x !in Exec(s, step).lost
  {
    hide Core;
    match step
    case Set(p, a) => SetCore(s, p, a);
    case Unset(p) => UnsetCore(s, p);
    case _ =>
  }

  lemma {:induction false} RunStale(steps: seq<Step>)
    ensures Stale(Run(steps))
  {
    hide Inv, Stale, Exec;
    if steps == [] {
      assert Run(steps) == Init;
      NoneStale();
    } else {
      RunStale(steps[..|steps| - 1]);
      RunStep(steps);
      ExecStale(Run(steps[..|steps| - 1]), steps[|steps| - 1]);
    }
  }

  lemma NoneStale()
    ensures Stale(Init)
  {
  }

  lemma HeldIsSent(s: State, p: Prefix)
    requires Inv(s)
    ensures Held(s, p) == if p in s.adj then s.adj[p].attr else None
  {
  }

  ghost predicate NoneFor(steps: seq<Step>, p: Prefix) { forall i :: 0 <= i < |steps| ==> !Requests(steps[i], p) }

  /** Until it is requested again, a lost prefix stays lost and the neighbour keeps what it holds. */
  lemma {:induction false} LostStays(before: seq<Step>, more: seq<Step>, p: Prefix)
    requires p in Run(before).lost && NoneFor(more, p)
    ensures var s, t := Run(before), Run(before + more);
      p in t.lost && Held(t, p) == Held(s, p) && LastRequest(before + more, p) == LastRequest(before, p)
    decreases |more|
  {
    hide Inv, Exec, Held, Stale, SameAdj;
    if more == [] {
      assert before + more == before;
    } else {
      var init, last := more[..|more| - 1], more[|more| - 1];
      var all := before + more;
      assert all[..|all| - 1] == before + init && all[|all| - 1] == last;
      LostStays(before, init, p);
      RunStep(all);
      RunStale(before + init);
      ExecOthers(Run(before + init), last, p);
      SameHeld(Run(before + init), Run(all), p);
    }
  }

  lemma SameHeld(s: State, t: State, p: Prefix)
    requires Inv(s) && Inv(t) && SameAdj(s, t, p)
    ensures Held(t, p) == Held(s, p)
  {
    hide Inv, Held;
    HeldIsSent(s, p);
    HeldIsSent(t, p);
  }

  /** A request that is flushed is met all the same exactly if the neighbour already held its
      attribute then, however the run goes on until the prefix is requested again. */
  lemma LostExact(before: seq<Step>, more: seq<Step>, p: Prefix)
    requires var s := Run(before); HasUpdate(s, p) && p in Exec(s, WriteUpdate(AttrsTooLong)).lost
    requires NoneFor(more, p)
    ensures var s, all := Run(before), before + [WriteUpdate(AttrsTooLong)] + more;
      && LastRequest(all, p) == Some(GroupOf(s, p))
      && (Held(Run(all), p) == LastRequest(all, p) <==> Held(s, p) == Some(GroupOf(s, p)))
  {
    var flush := WriteUpdate(AttrsTooLong);
    var s, mid := Run(before), before + [flush];
    var t := Run(mid);
    assert mid[..|mid| - 1] == before && mid[|mid| - 1] == flush;
    RunStep(mid);
    RunStale(before);
    HistoryIsLastRequest(before, p);
    assert p !in s.lost;
    hide Inv, Exec, Held, Stale;
    NewlyLost(s, flush, p);
    HeldIsSent(s, p);
    HeldIsSent(t, p);
    LostStays(mid, more, p);
  }

  /** One turn of the packet writer: withdrawals go first. */
  function WritePacket(s: State, n: nat): (t: State)
    requires Inv(s)
    ensures Inv(t)
  {
    SendWithdrawInv(s, n);
    SendUpdateInv(s, Fits(n));
    if s.withdraw != [] then SendWithdraw(s, n) else SendUpdate(s, Fits(n))
  }

  function WriteAll(s: State, rooms: seq<nat>): (t: State)
    requires Inv(s)
    ensures Inv(t)
    decreases |rooms|
  {
    if rooms == [] then s else WriteAll(WritePacket(s, rooms[0]), rooms[1..])
  }

  lemma WritePacketProgress(s: State, n: nat)
    requires Inv(s) && n > 0
    ensures var t := WritePacket(s, n);
      t.lost == s.lost && t.requested == s.requested
      && (|s.update| + |s.withdraw| > 0 ==> |t.update| + |t.withdraw| < |s.update| + |s.withdraw|)
      && (|s.update| + |s.withdraw| == 0 ==> |t.update| + |t.withdraw| == 0)
  {
    SendWithdrawInv(s, n);
    SendUpdateInv(s, Fits(n));
    RequestsUntouched(s, Fits(n));
    DrainWithdrawCore(s, n);
  }

  /** Left alone, the writer empties both FIFOs within as many packets as there were entries,
      whatever room each packet has, and the neighbour then holds exactly what was requested. */
  lemma {:induction false} WriterConverges(s: State, rooms: seq<nat>)
    requires Inv(s)
    requires forall i :: 0 <= i < |rooms| ==> rooms[i] > 0
    requires |rooms| >= |s.update| + |s.withdraw|
    ensures var t := WriteAll(s, rooms);
      t.update == [] && t.withdraw == []
      && (forall p :: p !in s.lost ==>
            Requested(s, p) == if p in TableOf(t.wire) then Some(TableOf(t.wire)[p]) else None)
    decreases |rooms|
  {
    hide *;
    if rooms == [] {
      IdleIsConverged(s);
      WriteNone(s);
    } else {
      WriteAllStep(s, rooms);
      WritePacketProgress(s, rooms[0]);
      WriterConverges(WritePacket(s, rooms[0]), rooms[1..]);
      SameRequests(s, WritePacket(s, rooms[0]));
    }
  }

  lemma SameRequests(s: State, t: State)
    requires s.requested == t.requested
    ensures forall p :: Requested(s, p) == Requested(t, p)
  {
  }

  lemma WriteNone(s: State)
    requires Inv(s)
    ensures WriteAll(s, []) == s
  {
  }

  lemma WriteAllStep(s: State, rooms: seq<nat>)
    requires Inv(s) && rooms != []
    ensures WriteAll(s, rooms) == WriteAll(WritePacket(s, rooms[0]), rooms[1..])
  {
  }

  lemma IdleIsConverged(s: State)
    requires Inv(s) && s.update == [] && s.withdraw == []
    ensures forall p :: p !in s.lost ==>
      Requested(s, p) == if p in TableOf(s.wire) then Some(TableOf(s.wire)[p]) else None
  {
    forall p | p !in s.lost
      ensures Requested(s, p) == if p in TableOf(s.wire) then Some(TableOf(s.wire)[p]) else None
    {
      assert !HasUpdate(s, p) && !HasWithdraw(s, p);
      assert Wanted(s, p) == Requested(s, p);
    }
  }

  // ----- the code

  /** The per-peer structures the code updates in place. */
  class Synchronizer {
    var adj: map<Prefix, Adj>
    var update: seq<Prefix>
    var updateCount: int
    var withdraw: seq<Prefix>
    var withdrawCount: int
    var baas: map<Attr, Baa>
    var scount: int
    var wire: seq<Message>
    ghost var requested: map<Prefix, Attr>
    ghost var lost: set<Prefix>

    ghost function View(): State
      reads this
    {
      State(adj, update, updateCount, withdraw, withdrawCount, baas, scount, wire, requested, lost)
    }

    constructor ()
      ensures View() == Init && Inv(View())
    {
      adj, update, updateCount, withdraw, withdrawCount := map[], [], 0, [], 0;
      baas, scount, wire, requested, lost := map[], 0, [], map[], {};
      new;
      InitInv();
    }

    /** Unlinks the pending advertisement from its group and FIFO and frees it; returns the
        next advertisement of the same group. */
    method AdvertiseClean(p: Prefix) returns (next: Option<Prefix>)
      requires Pending(View(), p)
      modifies `adj, `baas, `update, `updateCount, `withdraw, `withdrawCount
      ensures View() == Clean(old(View()), p)
      ensures HasUpdate(old(View()), p) ==> next == NextInGroup(View(), GroupOf(old(View()), p))
      ensures !HasUpdate(old(View()), p) ==> next == None
    {
      var adv := adj[p].adv.value;
      next := None;
      if adv.baa.Some? {
        var a := adv.baa.value;
        assert HasUpdate(View(), p);
        var b := baas[a];
        WithoutRemoves(b.advs, p);
        var advs := Without(b.advs, p);
        if advs != [] {
          next := Some(advs[0]);
        }
        if b.refcnt - 1 > 0 {
          baas := baas[a := Baa(advs, b.refcnt - 1)];
        } else {
          baas := baas - {a};
        }
        update := Without(update, p);
        updateCount := updateCount - 1;
      } else {
        withdraw := Without(withdraw, p);
        withdrawCount := withdrawCount - 1;
      }
      adj := adj[p := adj[p].(adv := None)];
    }

    method CancelPending(p: Prefix)
      requires Core(View())
      modifies `adj, `baas, `update, `updateCount, `withdraw, `withdrawCount
      ensures View() == Cleaned(old(View()), p)
      ensures Core(View())
    {
      CleanedCore(View(), p);
      if p in adj && adj[p].adv.Some? {
        CorePending(View(), p);
        var _ := AdvertiseClean(p);
      }
    }

    method Enqueue(p: Prefix, a: Attr)
      modifies `adj, `baas, `update, `updateCount
      ensures View() == Queue(old(View()), p, a)
    {
      if p !in adj {
        adj := adj[p := Adj(None, None)];
      }
      adj := adj[p := adj[p].(adv := Some(Adv(Some(a))))];
      var b := if a in baas then baas[a] else Baa([], 0);
      baas := baas[a := Baa([p] + b.advs, b.refcnt + 1)];
      update := update + [p];
      updateCount := updateCount + 1;
    }

    /** Queues an announcement, replacing anything pending for the prefix. */
    method AdjOutSet(p: Prefix, a: Attr)
      requires Inv(View())
      modifies this
      ensures View() == SetRequest(old(View()), p, a)
      ensures Inv(View())
    {
      SetInv(View(), p, a);
      hide Core, Sent, Tracks, Cleaned, Queue;
      CancelPending(p);
      Enqueue(p, a);
      requested, lost := requested[p := a], lost - {p};
    }

    method WithdrawOrForget(p: Prefix)
      requires p in adj
      modifies `adj, `withdraw, `withdrawCount
      ensures View() == UnsetIdle(old(View()), p)
    {
      if adj[p].attr.Some? {
        adj := adj[p := adj[p].(adv := Some(Adv(None)))];
        withdraw := withdraw + [p];
        withdrawCount := withdrawCount + 1;
      } else {
        adj := adj - {p};
      }
    }

    /** Cancels whatever is pending; queues a withdrawal only if something was sent. */
    method AdjOutUnset(p: Prefix)
      requires Inv(View())
      modifies this
      ensures View() == UnsetRequest(old(View()), p)
      ensures Inv(View())
    {
      UnsetInv(View(), p);
      hide Core, Sent, Tracks, Cleaned, UnsetIdle;
      if p !in adj {
        requested, lost := requested - {p}, lost - {p};
        return;
      }
      CleanedCore(View(), p);
      CancelPending(p);
      WithdrawOrForget(p);
      requested, lost := requested - {p}, lost - {p};
    }

    /** Is the prefix announced, counting what is still pending? */
    method AdjOutLookup(p: Prefix) returns (announced: bool)
      ensures announced <==> Wanted(View(), p).Some?
      ensures Inv(View()) && p !in lost ==> (announced <==> p in requested)
    {
      if p !in adj {
        return false;
      }
      return if adj[p].adv.Some? then adj[p].adv.value.baa.Some? else adj[p].attr.Some?;
    }

    /** Builds one UPDATE from the group of the oldest pending announcement. */
    method UpdatePacket(room: Room)
      requires Inv(View())
      modifies this
      ensures View() == SendUpdate(old(View()), room)
      ensures Inv(View())
    {
      SendUpdateInv(View(), room);
      if update == [] || room == Fits(0) {
        return;
      }
      var p := update[0];
      assert p in update;
      var header := adj[p].adv.value.baa.value;
      if room.AttrsTooLong? {
        FlushGroup(p);
      } else {
        var packed := PackGroup(p, room.n);
        wire := wire + [Update(header, packed)];
      }
    }

    /** Records a prefix as sent and retires its advertisement; the answer is the next of its group. */
    method AnnounceOne(p: Prefix) returns (next: Option<Prefix>)
      requires Core(View()) && HasUpdate(View(), p)
      modifies `adj, `baas, `update, `updateCount, `withdraw, `withdrawCount, `scount
      ensures View() == Announce(old(View()), p) && next == NextInGroup(View(), GroupOf(old(View()), p))
    {
      hide Core, Sent;
      ghost var before := View();
      var a := adj[p].adv.value.baa.value;
      if adj[p].attr.None? {
        scount := scount + 1;
      }
      adj := adj[p := adj[p].(attr := Some(a))];
      AnnouncedCore(before, p);
      CorePending(View(), p);
      next := AdvertiseClean(p);
    }

    /** The packing loop. */
    method PackGroup(first: Prefix, room: nat) returns (packed: seq<Prefix>)
      requires Core(View()) && HasUpdate(View(), first)
      modifies `adj, `baas, `update, `updateCount, `withdraw, `withdrawCount, `scount
      ensures (View(), packed) == Drain(old(View()), first, room)
    {
      hide Core, Sent, Drain;
      packed := [];
      ghost var start := View();
      var adv, left := Some(first), room;
      assert packed + Drain(start, first, room).1 == Drain(start, first, room).1;
      while adv.Some? && left > 0
        invariant Core(View())
        invariant adv.Some? ==> HasUpdate(View(), adv.value)
        invariant adv.Some? ==>
          Drain(start, first, room) == (Drain(View(), adv.value, left).0, packed + Drain(View(), adv.value, left).1)
        invariant adv.None? ==> Drain(start, first, room) == (View(), packed)
        decreases left
      {
        var p := adv.value;
        ghost var before := View();
        DrainUnrolls(before, p, left);
        adv := AnnounceOne(p);
        if adv.Some? {
          ghost var more := Drain(View(), adv.value, left - 1).1;
          assert packed + ([p] + more) == packed + [p] + more;
        }
        packed := packed + [p];
        left := left - 1;
      }
      if adv.Some? {
        DrainsNothing(View(), adv.value);
        assert packed + [] == packed;
      }
    }

    /** The no-room loop: the whole group is dropped unsent. */
    method FlushGroup(first: Prefix)
      requires Core(View()) && HasUpdate(View(), first)
      modifies `adj, `baas, `update, `updateCount, `withdraw, `withdrawCount, `lost
      ensures View() == Flush(old(View()), first)
    {
      ghost var start := View();
      var adv := Some(first);
      while adv.Some?
        invariant Core(View())
        invariant adv.Some? ==> HasUpdate(View(), adv.value) && Flush(start, first) == Flush(View(), adv.value)
        invariant adv.None? ==> Flush(start, first) == View()
        decreases |update| + if adv.Some? then 1 else 0
      {
        var p := adv.value;
        ghost var before := View();
        CleanUpdateCore(before, p);
        CorePending(View(), p);
        adv := AdvertiseClean(p);
        lost := lost + {p};
        CoreIgnoresHistory(Clean(before, p), View());
        if adv.Some? {
          NextPending(View(), GroupOf(before, p));
        }
      }
    }

    /** Builds one withdrawal message from the head of the withdraw FIFO. */
    method WithdrawPacket(room: nat)
      requires Inv(View())
      modifies this
      ensures View() == SendWithdraw(old(View()), room)
      ensures Inv(View())
    {
      SendWithdrawInv(View(), room);
      var packed := PackWithdrawals(room);
      if packed != [] {
        wire := wire + [Withdraw(packed)];
      }
    }

    method PackWithdrawals(room: nat) returns (packed: seq<Prefix>)
      requires Core(View())
      modifies `adj, `baas, `update, `updateCount, `withdraw, `withdrawCount, `scount
      ensures (View(), packed) == DrainWithdraw(old(View()), room)
    {
      hide Core, Sent, DrainWithdraw;
      packed := [];
      ghost var start := View();
      var left := room;
      assert packed + DrainWithdraw(start, room).1 == DrainWithdraw(start, room).1;
      while withdraw != [] && left > 0
        invariant Core(View())
        invariant DrainWithdraw(start, room)
               == (DrainWithdraw(View(), left).0, packed + DrainWithdraw(View(), left).1)
        decreases left
      {
        var p := withdraw[0];
        ghost var before := View();
        DrainWithdrawUnrolls(before, left);
        scount := scount - 1;
        RetractIsRemoved(before, p);
        AdjOutRemove(p);
        ghost var more := DrainWithdraw(View(), left - 1).1;
        assert packed + ([p] + more) == packed + [p] + more;
        packed := packed + [p];
        left := left - 1;
      }
      DrainWithdrawStops(View(), left);
      assert packed + [] == packed;
    }

    /** Frees the adjacency together with whatever is pending for it. */
    method AdjOutRemove(p: Prefix)
      requires p in adj && (adj[p].adv.Some? ==> Pending(View(), p))
      modifies `adj, `baas, `update, `updateCount, `withdraw, `withdrawCount
      ensures View() == Removed(old(View()), p)
    {
      ghost var before := View();
      adj := adj[p := adj[p].(attr := None)];
      if adj[p].adv.Some? {
        PendingIgnoresSent(before, View(), p);
        hide Pending;
        var _ := AdvertiseClean(p);
      }
      adj := adj - {p};
    }
  }

  /** Removing any adjacency keeps queues and groups in order; only the neighbour's table is then
      ahead by what had been sent. */
  lemma RemovedKeepsQueues(s: State, p: Prefix)
    requires Core(s) && p in s.adj
    ensures var t := Removed(s, p);
      && FifosMatch(t) && GroupsMatch(t) && p !in t.adj && Sent(t) == Sent(s) - {p}
      && (forall q :: q != p ==> Wanted(t, q) == Wanted(s, q))
  {
    RemovedIs(s, p);
    CleanedCore(s, p);
    hide Cleaned, Removed, Core;
    DropKeepsQueues(Cleaned(s, p), p);
  }

  lemma RemovedIs(s: State, p: Prefix)
    requires p in s.adj && (HasUpdate(s, p) ==> GroupOf(s, p) in s.baas)
    ensures Removed(s, p) == Cleaned(s, p).(adj := Cleaned(s, p).adj - {p})
  {
  }

  lemma DropKeepsQueues(s: State, p: Prefix)
    requires Core(s) && !HasUpdate(s, p) && !HasWithdraw(s, p)
    ensures var t := s.(adj := s.adj - {p});
      && FifosMatch(t) && GroupsMatch(t) && Sent(t) == Sent(s) - {p}
      && (forall q :: q != p ==> Wanted(t, q) == Wanted(s, q))
  {
    QueuesSame(s, s.(adj := s.adj - {p}));
    hide FifosMatch, GroupsMatch;
  }

  /** Sending a withdrawal removes the adjacency and counts one prefix less. */
  lemma RetractIsRemoved(s: State, p: Prefix)
    requires Core(s) && HasWithdraw(s, p)
    ensures Retract(s, p) == Removed(s.(scount := s.scount - 1), p) && Pending(s.(scount := s.scount - 1), p)
  {
  }

  lemma AnnouncedCore(s: State, p: Prefix)
    requires Core(s) && HasUpdate(s, p)
    ensures Core(s.(scount := if s.adj[p].attr.Some? then s.scount else s.scount + 1,
                    adj := s.adj[p := s.adj[p].(attr := Some(GroupOf(s, p)))]))
  {
    var a := GroupOf(s, p);
    var m := s.(scount := if s.adj[p].attr.Some? then s.scount else s.scount + 1,
                adj := s.adj[p := s.adj[p].(attr := Some(a))]);
    assert Sent(m) == Sent(s)[p := a];
    assert FifosMatch(m);
    forall b | b in m.baas ensures GroupOk(m, b) {
      assert GroupOk(s, b);
    }
  }
}
