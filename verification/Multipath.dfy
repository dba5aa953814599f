/** The multipath list of a route: an incremental walk over the old chain and the new
    candidate list that must leave exactly the greedy selection linked behind the best path. */
module Multipath {
  import opened Options
  import opened Sequences

  datatype MpNextHop = MpNextHop(len: int, globalIn: int, global: int, local: int)

  datatype NextHop = NextHop(v4: int, extra: Option<MpNextHop>)

  function Compare(a: int, b: int): int {
    if a < b then -1 else if a > b then 1 else 0
  }

  /** Ordering of next hops; zero means the same next hop. */
  function NextHopCmp(a: NextHop, b: NextHop): int {
    var c := Compare(a.v4, b.v4);
    if c != 0 || a.extra.None? || b.extra.None? then c
    else
      var x, y := a.extra.value, b.extra.value;
      if x.len == y.len then
        if x.len == 4 || x.len == 12 then Compare(x.globalIn, y.globalIn)
        else if x.len == 16 then Compare(x.global, y.global)
        else if x.len == 32 then
          if Compare(x.global, y.global) != 0 then Compare(x.global, y.global)
          else Compare(x.local, y.local)
        else 0
      else if x.len == 16 || x.len == 32 then
        if Compare(x.global, y.global) != 0 then Compare(x.global, y.global)
        else if x.len < y.len then -1 else 1
      else 0
  }

  /** Exactly one of two multiprotocol next hops of different lengths is an IPv6 one. */
  predicate MixedFamilies(a: NextHop, b: NextHop) {
    a.v4 == b.v4 && a.extra.Some? && b.extra.Some? && a.extra.value.len != b.extra.value.len
    && (a.extra.value.len in {16, 32}) != (b.extra.value.len in {16, 32})
  }

  /** The comparison turns round with its arguments except across address families, where it
      calls two next hops the same in one direction and different in the other. */
  lemma NextHopCmpTurnsRound(a: NextHop, b: NextHop)
    ensures NextHopCmp(a, b) == -NextHopCmp(b, a) <==> !MixedFamilies(a, b)
    ensures MixedFamilies(a, b) ==> (NextHopCmp(a, b) == 0) != (NextHopCmp(b, a) == 0)
  {
  }

  /** Next hops the comparison can order: with different IPv4 addresses, both without an extra
      part, or with extra parts of one length or both IPv6. */
  predicate Uniform(a: NextHop, b: NextHop) {
    a.v4 != b.v4
    || (a.extra.None? && b.extra.None?)
    || (a.extra.Some? && b.extra.Some?
        && (a.extra.value.len == b.extra.value.len || (a.extra.value.len in {16, 32} && b.extra.value.len in {16, 32})))
  }

  ghost predicate WeakOrder(s: set<NextHop>) {
    && (forall x, y :: x in s && y in s ==> NextHopCmp(x, y) == -NextHopCmp(y, x))
    && (forall x, y, z :: x in s && y in s && z in s && NextHopCmp(x, y) <= 0 && NextHopCmp(y, z) <= 0 ==>
          NextHopCmp(x, z) <= 0)
  }

  /** On uniform next hops the comparison is a weak order. */
  lemma NextHopCmpOrders(s: set<NextHop>)
    requires forall x, y :: x in s && y in s ==> Uniform(x, y)
    ensures WeakOrder(s)
  {
    forall x, y | x in s && y in s ensures NextHopCmp(x, y) == -NextHopCmp(y, x) {
      NextHopCmpTurnsRound(x, y);
      assert Uniform(x, y);
    }
    forall x, y, z | x in s && y in s && z in s && NextHopCmp(x, y) <= 0 && NextHopCmp(y, z) <= 0
      ensures NextHopCmp(x, z) <= 0
    {
      assert Uniform(x, y) && Uniform(y, z) && Uniform(x, z);
    }
  }

  /** No wider condition will do: two next hops that are not uniform fall into a contradiction
      with a third, be it that they are called the same as two that differ. */
  lemma NextHopCmpMisleads(a: NextHop, b: NextHop) returns (c: NextHop)
    requires !Uniform(a, b)
    ensures !WeakOrder({a, b, c})
  {
    var (u, v) := if a.extra.None? || (b.extra.Some? && b.extra.value.len in {4, 12}) then (a, b) else (b, a);
    var x := v.extra.value;
    if MixedFamilies(a, b) {
      c := a;
      NextHopCmpTurnsRound(a, b);
    } else if x.len in {4, 12} {
      c := v.(extra := Some(x.(globalIn := x.globalIn + 1)));
      assert NextHopCmp(c, u) == 0 && NextHopCmp(u, v) == 0 && NextHopCmp(c, v) == 1;
    } else if x.len in {16, 32} {
      c := v.(extra := Some(x.(global := x.global + 1)));
      assert NextHopCmp(c, u) == 0 && NextHopCmp(u, v) == 0 && NextHopCmp(c, v) == 1;
    } else {
      c := v.(extra := Some(x.(len := 16)));
      NextHopCmpTurnsRound(v, c);
    }
  }

  /** A path, with its links in the multipath chain. */
  class Info {
    const nexthop: NextHop
    const peer: int
    var next: Info?
    var prev: Info?
    var count: int
    var multipath: bool
    var changed: bool

    constructor (nexthop: NextHop, peer: int)
      ensures this.nexthop == nexthop && this.peer == peer
      ensures next == null && prev == null && count == 0 && !multipath && !changed
    {
      this.nexthop, this.peer := nexthop, peer;
      next, prev, count, multipath, changed := null, null, 0, false, false;
    }
  }

  /** Candidate order: next hop first, then peer address. */
  function MpathCmp(a: Info, b: Info): int {
    if NextHopCmp(a.nexthop, b.nexthop) != 0 then NextHopCmp(a.nexthop, b.nexthop)
    else Compare(a.peer, b.peer)
  }

  // ----- the reference selection

  /** From scratch, left to right: skip the best path, skip a candidate with the next hop of
      the previous pick, stop at `max` paths. */
  function Greedy(best: Info, mp: seq<Info>, prev: Info, count: int, max: int): seq<Info> {
    if mp == [] || count >= max then []
    else if mp[0] != best && NextHopCmp(prev.nexthop, mp[0].nexthop) != 0
    then [mp[0]] + Greedy(best, mp[1..], mp[0], count + 1, max)
    else Greedy(best, mp[1..], prev, count, max)
  }

  // ----- chains

  ghost function After(s: seq<Info>, i: nat): Info? {
    if i + 1 < |s| then s[i + 1] else null
  }

  ghost function Before(s: seq<Info>, i: nat): Info?
    requires i <= |s|
  {
    if i > 0 then s[i - 1] else null
  }

  ghost predicate Linked(s: seq<Info>)
    reads s`next, s`prev
  {
    forall i :: 0 <= i < |s| ==> s[i].next == After(s, i) && s[i].prev == Before(s, i)
  }

  ghost predicate Isolated(x: Info)
    reads x`next, x`prev
  {
    x.next == null && x.prev == null
  }

  /** `s` without the node at index `k`; a negative index stands for a node not in `s`. */
  ghost function Drop(s: seq<Info>, k: int): seq<Info>
    requires k < |s|
  {
    if k < 0 then s else s[..k] + s[k + 1..]
  }

  lemma DropIndex(s: seq<Info>, k: int)
    requires NoRepeats(s) && -1 <= k < |s|
    ensures var d := Drop(s, k);
      |d| == |s| - (if k < 0 then 0 else 1)
      && (forall i :: 0 <= i < |d| ==> d[i] == s[if 0 <= k <= i then i + 1 else i])
      && NoRepeats(d)
      && (forall y :: y in d ==> y in s && (k >= 0 ==> y != s[k]))
      && (forall y :: y in s && (k >= 0 ==> y != s[k]) ==> y in d)
  {
    if k >= 0 {
      var d := Drop(s, k);
      forall y | y in s && y != s[k] ensures y in d {
        var i :| 0 <= i < |s| && s[i] == y;
        assert d[if i < k then i else i - 1] == y;
      }
    }
  }

  ghost function One(x: Info?): set<Info> {
    if x == null then {} else {x}
  }

  /** Removes a node from whatever chain it is in. */
  method Dequeue(x: Info)
    requires x.prev != x && x.next != x && (x.prev != null ==> x.prev != x.next)
    modifies x`next, x`prev, x`multipath, One(x.prev)`next, One(x.next)`prev
    ensures Isolated(x) && !x.multipath
    ensures old(x.prev) != null ==> old(x.prev).next == old(x.next)
    ensures old(x.next) != null ==> old(x.next).prev == old(x.prev)
  {
    if x.prev != null {
      x.prev.next := x.next;
    }
    if x.next != null {
      x.next.prev := x.prev;
    }
    x.next, x.prev := null, null;
    x.multipath := false;
  }

  /** Inserts `x` behind `prev`. */
  method Enqueue(prev: Info, x: Info)
    requires x != prev && prev.next != prev && prev.next != x
    modifies prev`next, x`next, x`prev, x`multipath, One(prev.next)`prev
    ensures prev.next == x && x.prev == prev && x.next == old(prev.next) && x.multipath
    ensures old(prev.next) != null ==> old(prev.next).prev == x
  {
    x.next := prev.next;
    x.prev := prev;
    if prev.next != null {
      prev.next.prev := x;
    }
    prev.next := x;
    x.multipath := true;
  }

  lemma DropLinked(chain: seq<Info>, k: nat)
    requires NoRepeats(chain) && k < |chain|
    requires forall i :: 0 <= i < |chain| && i != k ==>
      chain[i].next == (if i == k - 1 then After(chain, k) else After(chain, i))
      && chain[i].prev == (if i == k + 1 then Before(chain, k) else Before(chain, i))
    ensures Linked(Drop(chain, k))
  {
    DropIndex(chain, k);
    var d := Drop(chain, k);
    forall i | 0 <= i < |d| ensures d[i].next == After(d, i) && d[i].prev == Before(d, i) {
      assert d[i] == chain[if k <= i then i + 1 else i];
    }
  }

  lemma LinksAt(chain: seq<Info>, k: nat)
    requires Linked(chain) && NoRepeats(chain) && k < |chain|
    ensures chain[k].next == After(chain, k) && chain[k].prev == Before(chain, k)
    ensures chain[k].next != chain[k] && chain[k].prev != chain[k]
    ensures chain[k].prev != null ==> chain[k].prev != chain[k].next
  {
  }

  /** Dequeueing seen from the chain the node is in. */
  method DequeueFrom(x: Info, ghost b: seq<Info>, ghost k: int)
    requires NoRepeats(b) && Linked(b) && -1 <= k < |b|
    requires if k < 0 then Isolated(x) && x !in b else b[k] == x
    modifies x`next, x`prev, x`multipath, One(x.prev)`next, One(x.next)`prev
    ensures Linked(Drop(b, k))
    ensures Isolated(x) && !x.multipath
  {
    if k >= 0 {
      LinksAt(b, k);
    }
    Dequeue(x);
    if k >= 0 {
      forall i | 0 <= i < |b| && i != k
        ensures b[i].next == (if i == k - 1 then After(b, k) else After(b, i))
        ensures b[i].prev == (if i == k + 1 then Before(b, k) else Before(b, i))
      {
        assert old(b[i].next) == After(b, i) && old(b[i].prev) == Before(b, i);
      }
      DropLinked(b, k);
    }
  }

  // ----- all paths of one route: the new chain, what is left of the old one, the rest alone

  ghost predicate Layout(all: set<Info>, a: seq<Info>, b: seq<Info>)
    reads all`next, all`prev
  {
    && (forall x :: x in a ==> x in all) && (forall x :: x in b ==> x in all)
    && NoRepeats(a) && NoRepeats(b)
    && (forall x :: x in a ==> x !in b)
    && Linked(a) && Linked(b)
    && (forall x :: x in all && x !in a && x !in b ==> Isolated(x))
  }

  /** Takes a path out of the old chain; `k` is its index there, negative if it is alone. */
  method Remove(x: Info, ghost all: set<Info>, ghost a: seq<Info>, ghost b: seq<Info>, ghost k: int)
    requires Layout(all, a, b) && x in all
    requires -1 <= k < |b|
    requires if k < 0 then x !in a && x !in b else b[k] == x
    modifies all`next, all`prev, x`multipath
    ensures Layout(all, a, Drop(b, k))
    ensures Isolated(x) && !x.multipath
    ensures x !in a && x !in Drop(b, k)
  {
    if k >= 0 {
      LinksAt(b, k);
      assert x in b;
    }
    assert x !in a;
    assert x.prev != null ==> x.prev in b;
    assert x.next != null ==> x.next in b;
    assert forall y :: y in a ==> y != x && y != x.prev && y != x.next;
    DequeueFrom(x, b, k);
    LayoutDrop(x, all, a, b, k);
  }

  lemma LayoutDrop(x: Info, all: set<Info>, a: seq<Info>, b: seq<Info>, k: int)
    requires (forall y :: y in a ==> y in all) && (forall y :: y in b ==> y in all)
    requires NoRepeats(a) && NoRepeats(b) && (forall y :: y in a ==> y !in b)
    requires -1 <= k < |b|
    requires if k < 0 then x !in a && x !in b else b[k] == x
    requires Linked(a) && Linked(Drop(b, k)) && Isolated(x)
    requires forall y :: y in all && y !in a && y !in b ==> Isolated(y)
    ensures Layout(all, a, Drop(b, k))
    ensures x !in a && x !in Drop(b, k)
  {
    DropIndex(b, k);
    if k >= 0 { assert x in b; }
  }

  /** Puts a lone path behind the last one of the new chain. */
  method Append(prev: Info, x: Info, ghost all: set<Info>, ghost a: seq<Info>, ghost b: seq<Info>)
    requires Layout(all, a, b) && x in all && x !in a && x !in b
    requires a != [] && prev == a[|a| - 1]
    modifies all`next, all`prev, x`multipath
    ensures Layout(all, a + [x], b)
    ensures x.multipath
  {
    LinksAt(a, |a| - 1);
    assert prev in a;
    Enqueue(prev, x);
  }

  // ----- telling whether the chain changed

  /** Candidates in list order: no later one sorts before an earlier one. */
  ghost predicate Sorted(mp: seq<Info>) {
    forall i, j :: 0 <= i < j < |mp| ==> MpathCmp(mp[j], mp[i]) >= 0
  }

  /** The chain being built can no longer come out equal to `was`. */
  ghost predicate Diverged(was: seq<Info>, picks: seq<Info>, rest: seq<Info>, mp: seq<Info>) {
    || !(picks <= was)
    || (exists d :: d in was && d !in picks && d !in rest && d !in mp)
  }

  ghost predicate Tracked(was: seq<Info>, picks: seq<Info>, rest: seq<Info>, mp: seq<Info>, changed: bool, sorted: bool) {
    && (!changed ==> picks + rest == was)
    && (changed && sorted ==> Diverged(was, picks, rest, mp))
    && (sorted ==> Sorted(mp))
  }

  lemma TrackKeep(was: seq<Info>, picks: seq<Info>, rest: seq<Info>, mp: seq<Info>, changed: bool, sorted: bool)
    requires Tracked(was, picks, rest, mp, changed, sorted)
    requires rest != [] && mp != [] && rest[0] == mp[0]
    ensures Tracked(was, picks + [rest[0]], rest[1..], mp[1..], changed, sorted)
  {
    assert picks + [rest[0]] + rest[1..] == picks + rest;
    assert rest[0] in rest;
    if picks + [rest[0]] <= was { assert picks <= was; }
  }

  /** Dropping the head of the old chain for good. */
  lemma TrackDrop(was: seq<Info>, picks: seq<Info>, rest: seq<Info>, mp: seq<Info>, later: seq<Info>, changed: bool, sorted: bool)
    requires Tracked(was, picks, rest, mp, changed, sorted)
    requires rest != [] && rest[0] !in picks && rest[0] !in rest[1..]
    requires later == mp || (mp != [] && later == mp[1..])
    requires sorted ==> rest[0] !in later
    ensures Tracked(was, picks, rest[1..], later, true, sorted)
  {
    if sorted {
      assert Sorted(later);
      if changed {
        if picks <= was {
          var d :| d in was && d !in picks && d !in rest && d !in mp;
          assert d !in rest[1..] && d !in later;
        }
      } else {
        assert rest[0] in picks + rest;
      }
    }
  }

  lemma TrackAdd(was: seq<Info>, picks: seq<Info>, rest: seq<Info>, mp: seq<Info>, k: int, changed: bool, sorted: bool)
    requires Tracked(was, picks, rest, mp, changed, sorted)
    requires mp != [] && (rest != [] ==> rest[0] != mp[0])
    requires NoRepeats(rest) && -1 <= k < |rest|
    ensures Tracked(was, picks + [mp[0]], Drop(rest, k), mp[1..], true, sorted)
  {
    DropIndex(rest, k);
    if sorted {
      assert Sorted(mp[1..]);
      if changed {
        if picks <= was {
          var d :| d in was && d !in picks && d !in rest && d !in mp;
          assert mp[0] in mp;
          assert d !in picks + [mp[0]] && d !in Drop(rest, k) && d !in mp[1..];
        } else {
          assert !(picks + [mp[0]] <= was);
        }
      } else {
        assert !(picks + [mp[0]] <= was) by {
          if rest != [] { assert (picks + rest)[|picks|] == rest[0]; }
          assert (picks + [mp[0]])[|picks|] == mp[0];
        }
      }
    }
  }

  lemma TrackSkip(was: seq<Info>, picks: seq<Info>, rest: seq<Info>, mp: seq<Info>, changed: bool, sorted: bool)
    requires Tracked(was, picks, rest, mp, changed, sorted)
    requires mp != []
    ensures Tracked(was, picks, rest, mp[1..], changed, sorted)
  {
  }

  /** In a sorted list, a path that sorts before the head is not in the list. */
  lemma SortedAbsent(x: Info, mp: seq<Info>)
    requires Sorted(mp) && NoRepeats(mp)
    requires mp != [] ==> x != mp[0] && MpathCmp(x, mp[0]) < 0
    ensures x !in mp
  {
  }

  lemma TrackedEnd(was: seq<Info>, picks: seq<Info>, mp: seq<Info>, changed: bool, sorted: bool)
    requires Tracked(was, picks, [], mp, changed, sorted)
    ensures !changed ==> picks == was
    ensures changed && sorted ==> picks != was
  {
    assert picks + [] == picks;
  }

  ghost predicate FlagsOn(all: set<Info>, picks: seq<Info>, rest: seq<Info>)
    reads all`multipath
  {
    forall x :: x in all ==> (x.multipath <==> x in Elems(picks) || x in Elems(rest))
  }

  ghost function Elems(s: seq<Info>): set<Info> {
    set x | x in s
  }

  lemma ElemsDrop(s: seq<Info>, k: int)
    requires NoRepeats(s) && -1 <= k < |s|
    ensures Elems(Drop(s, k)) == if k < 0 then Elems(s) else Elems(s) - {s[k]}
  {
    DropIndex(s, k);
  }

  lemma ElemsAppend(s: seq<Info>, x: Info)
    ensures Elems(s + [x]) == Elems(s) + {x}
  {
  }

  ghost function Chain(best: Info, picks: seq<Info>): seq<Info> {
    [best] + picks
  }

  /** A kept path: out of the old chain and straight onto the new one. */
  method Move(prev: Info, x: Info, ghost all: set<Info>, ghost best: Info, ghost picks: seq<Info>, ghost rest: seq<Info>, ghost k: int)
    requires Layout(all, Chain(best, picks), rest) && x in all
    requires prev == Chain(best, picks)[|picks|]
    requires -1 <= k < |rest|
    requires if k < 0 then x !in Chain(best, picks) && x !in rest else rest[k] == x
    requires FlagsOn(all, picks, rest)
    modifies all`next, all`prev, x`multipath
    ensures Layout(all, Chain(best, picks + [x]), Drop(rest, k))
    ensures FlagsOn(all, picks + [x], Drop(rest, k))
  {
    ghost var a, b := Chain(best, picks), Drop(rest, k);
    assert a != [] && |a| == |picks| + 1;
    assert a + [x] == Chain(best, picks + [x]);
    assert forall y :: y in picks ==> y in a;
    assert x !in picks;
    hide *;
    Release(x, all, a, picks, rest, k);
    Attach(prev, x, all, a, picks, b);
  }

  /** Dequeues a path; the flags stay on the two lists. */
  method Release(x: Info, ghost all: set<Info>, ghost a: seq<Info>, ghost picks: seq<Info>, ghost rest: seq<Info>, ghost k: int)
    requires Layout(all, a, rest) && x in all && -1 <= k < |rest|
    requires if k < 0 then x !in a && x !in rest else rest[k] == x
    requires FlagsOn(all, picks, rest) && forall y :: y in picks ==> y in a
    modifies all`next, all`prev, x`multipath
    ensures Layout(all, a, Drop(rest, k))
    ensures FlagsOn(all, picks, Drop(rest, k))
    ensures x !in a && x !in Drop(rest, k)
  {
    ghost var b := Drop(rest, k);
    ElemsDrop(rest, k);
    assert x !in Elems(picks) && (k < 0 ==> x !in Elems(rest));
    hide Elems;
    hide Layout, Drop;
    Remove(x, all, a, rest, k);
  }

  /** Enqueues a lone path behind the new chain; the flags stay on the two lists. */
  method Attach(prev: Info, x: Info, ghost all: set<Info>, ghost a: seq<Info>, ghost picks: seq<Info>, ghost b: seq<Info>)
    requires Layout(all, a, b) && x in all && x !in a && x !in b && FlagsOn(all, picks, b)
    requires a != [] && prev == a[|a| - 1]
    modifies all`next, all`prev, x`multipath
    ensures Layout(all, a + [x], b)
    ensures FlagsOn(all, picks + [x], b)
  {
    ElemsAppend(picks, x);
    hide Layout, Elems;
    Append(prev, x, all, a, b);
  }

  /** A purged path: out of the old chain. */
  method Purge(x: Info, ghost all: set<Info>, ghost a: seq<Info>, ghost picks: seq<Info>, ghost rest: seq<Info>)
    requires Layout(all, a, rest) && x in all && rest != [] && rest[0] == x
    requires FlagsOn(all, picks, rest) && forall y :: y in picks ==> y in a
    modifies all`next, all`prev, x`multipath
    ensures Layout(all, a, rest[1..])
    ensures FlagsOn(all, picks, rest[1..])
  {
    assert Drop(rest, 0) == rest[1..];
    assert x in rest;
    hide *;
    Release(x, all, a, picks, rest, 0);
  }

  lemma GreedyStops(best: Info, mp: seq<Info>, prev: Info, count: int, max: int)
    requires mp == [] || count >= max
    ensures Greedy(best, mp, prev, count, max) == []
  {
  }

  /** What stays fixed during the walk. */
  datatype Goal = Goal(best: Info, all: set<Info>, max: int, chain: seq<Info>, was: seq<Info>, sorted: bool)

  /** The links and flags while walking. */
  ghost predicate Heap(g: Goal, picks: seq<Info>, rest: seq<Info>)
    reads g.all
  {
    Layout(g.all, Chain(g.best, picks), rest) && FlagsOn(g.all, picks, rest)
  }

  /** The plan while walking: the picks so far, what is left of the old chain, the remaining
      candidates, and whether a change has been noticed. */
  ghost predicate Plan(g: Goal, picks: seq<Info>, rest: seq<Info>, mp: seq<Info>, changed: bool) {
    && picks + Greedy(g.best, mp, Last(g, picks), 1 + |picks|, g.max) == g.chain
    && NoRepeats(mp) && (forall x :: x in mp ==> x in g.all && x !in picks)
    && NoRepeats(rest) && (forall x :: x in rest ==> x in g.all && x !in picks)
    && g.best !in rest && g.best !in picks
    && Tracked(g.was, picks, rest, mp, changed, g.sorted)
  }

  ghost function Last(g: Goal, picks: seq<Info>): Info {
    if picks == [] then g.best else picks[|picks| - 1]
  }

  lemma GreedyPicks(picks: seq<Info>, best: Info, mp: seq<Info>, prev: Info, count: int, max: int)
    requires mp != [] && count < max && mp[0] != best && NextHopCmp(prev.nexthop, mp[0].nexthop) != 0
    ensures picks + Greedy(best, mp, prev, count, max)
         == picks + [mp[0]] + Greedy(best, mp[1..], mp[0], count + 1, max)
  {
  }

  lemma GreedySkips(best: Info, mp: seq<Info>, prev: Info, count: int, max: int)
    requires mp != []
    requires count >= max || mp[0] == best || NextHopCmp(prev.nexthop, mp[0].nexthop) == 0
    ensures Greedy(best, mp, prev, count, max) == Greedy(best, mp[1..], prev, count, max)
  {
  }

  /** The code picks a candidate under exactly this condition. */
  ghost predicate Picked(g: Goal, picks: seq<Info>, x: Info) {
    1 + |picks| < g.max && x != g.best && NextHopCmp(Last(g, picks).nexthop, x.nexthop) != 0
  }

  lemma PlanKeep(g: Goal, picks: seq<Info>, rest: seq<Info>, mp: seq<Info>, changed: bool)
    requires Plan(g, picks, rest, mp, changed)
    requires rest != [] && mp != [] && rest[0] == mp[0] && Picked(g, picks, mp[0])
    ensures Plan(g, picks + [mp[0]], rest[1..], mp[1..], changed)
  {
    TrackKeep(g.was, picks, rest, mp, changed, g.sorted);
    GreedyPicks(picks, g.best, mp, Last(g, picks), 1 + |picks|, g.max);
  }

  lemma PlanDrop(g: Goal, picks: seq<Info>, rest: seq<Info>, mp: seq<Info>, changed: bool)
    requires Plan(g, picks, rest, mp, changed)
    requires rest != [] && mp != [] && rest[0] == mp[0] && !Picked(g, picks, mp[0])
    ensures Plan(g, picks, rest[1..], mp[1..], true)
  {
    assert rest[0] in rest;
    TrackDrop(g.was, picks, rest, mp, mp[1..], changed, g.sorted);
    GreedySkips(g.best, mp, Last(g, picks), 1 + |picks|, g.max);
  }

  lemma PlanPurge(g: Goal, picks: seq<Info>, rest: seq<Info>, mp: seq<Info>, changed: bool)
    requires Plan(g, picks, rest, mp, changed)
    requires rest != [] && (mp != [] ==> rest[0] != mp[0] && MpathCmp(rest[0], mp[0]) < 0)
    ensures Plan(g, picks, rest[1..], mp, true)
  {
    assert rest[0] in rest;
    if g.sorted { SortedAbsent(rest[0], mp); }
    TrackDrop(g.was, picks, rest, mp, mp, changed, g.sorted);
  }

  lemma PlanAdd(g: Goal, picks: seq<Info>, rest: seq<Info>, mp: seq<Info>, changed: bool, k: int)
    requires Plan(g, picks, rest, mp, changed)
    requires mp != [] && (rest != [] ==> rest[0] != mp[0]) && Picked(g, picks, mp[0])
    requires -1 <= k < |rest| && if k < 0 then mp[0] !in rest else rest[k] == mp[0]
    ensures Plan(g, picks + [mp[0]], Drop(rest, k), mp[1..], true)
    ensures rest != [] ==> Drop(rest, k) != [] && Drop(rest, k)[0] == rest[0]
    ensures |Drop(rest, k)| <= |rest|
  {
    DropIndex(rest, k);
    TrackAdd(g.was, picks, rest, mp, k, changed, g.sorted);
    GreedyPicks(picks, g.best, mp, Last(g, picks), 1 + |picks|, g.max);
  }

  lemma PlanSkip(g: Goal, picks: seq<Info>, rest: seq<Info>, mp: seq<Info>, changed: bool)
    requires Plan(g, picks, rest, mp, changed)
    requires mp != [] && !Picked(g, picks, mp[0])
    ensures Plan(g, picks, rest, mp[1..], changed)
  {
    TrackSkip(g.was, picks, rest, mp, changed, g.sorted);
    GreedySkips(g.best, mp, Last(g, picks), 1 + |picks|, g.max);
  }

  /** A candidate joins the new chain, leaving the old one if it is there. */
  method Pick(prev: Info, x: Info, ghost g: Goal, ghost picks: seq<Info>, ghost rest: seq<Info>, ghost k: int)
    requires Heap(g, picks, rest) && prev == Last(g, picks)
    requires x in g.all && x !in picks && x != g.best
    requires -1 <= k < |rest| && if k < 0 then x !in rest else rest[k] == x
    modifies g.all`next, g.all`prev, x`multipath
    ensures Heap(g, picks + [x], Drop(rest, k))
  {
    Move(prev, x, g.all, g.best, picks, rest, k);
  }

  /** A path leaves the old chain for good. */
  method Discard(x: Info, ghost g: Goal, ghost picks: seq<Info>, ghost rest: seq<Info>)
    requires Heap(g, picks, rest) && rest != [] && rest[0] == x
    modifies g.all`next, g.all`prev, x`multipath
    ensures Heap(g, picks, rest[1..])
  {
    assert x in rest;
    Purge(x, g.all, Chain(g.best, picks), picks, rest);
  }

  /** Both lists show the same path: keep it if the limits allow. */
  method StepSame(prev: Info, cur: Info, mp: seq<Info>, count: int, changed: bool,
                  max: int, ghost g: Goal, ghost picks: seq<Info>, ghost rest: seq<Info>)
    returns (prev': Info, count': int, changed': bool, ghost picks': seq<Info>)
    requires Heap(g, picks, rest) && Plan(g, picks, rest, mp, changed)
    requires prev == Last(g, picks) && count == 1 + |picks| && max == g.max
    requires rest != [] && rest[0] == cur && mp != [] && mp[0] == cur
    modifies g.all`next, g.all`prev, cur`multipath
    ensures Heap(g, picks', rest[1..]) && Plan(g, picks', rest[1..], mp[1..], changed')
    ensures prev' == Last(g, picks') && count' == 1 + |picks'|
  {
    PlanHeads(g, picks, rest, mp, changed);
    assert Drop(rest, 0) == rest[1..];
    hide Heap, Plan;
    if count < max && NextHopCmp(prev.nexthop, cur.nexthop) != 0 {
      Pick(prev, cur, g, picks, rest, 0);
      PlanKeep(g, picks, rest, mp, changed);
      prev', count', changed', picks' := cur, count + 1, changed, picks + [cur];
    } else {
      Discard(cur, g, picks, rest);
      PlanDrop(g, picks, rest, mp, changed);
      prev', count', changed', picks' := prev, count, true, picks;
    }
  }

  /** A candidate that is not at the head of the old chain: pick it if the limits allow. */
  method StepNew(prev: Info, x: Info, best: Info, mp: seq<Info>, count: int, changed: bool,
                 max: int, ghost g: Goal, ghost picks: seq<Info>, ghost rest: seq<Info>)
    returns (prev': Info, count': int, changed': bool, ghost picks': seq<Info>, ghost rest': seq<Info>)
    requires Heap(g, picks, rest) && Plan(g, picks, rest, mp, changed)
    requires prev == Last(g, picks) && count == 1 + |picks| && max == g.max && best == g.best
    requires mp != [] && mp[0] == x && (rest != [] ==> rest[0] != x)
    modifies g.all`next, g.all`prev, x`multipath
    ensures Heap(g, picks', rest') && Plan(g, picks', rest', mp[1..], changed')
    ensures prev' == Last(g, picks') && count' == 1 + |picks'|
    ensures |rest'| <= |rest| && (rest != [] ==> rest' != [] && rest'[0] == rest[0])
  {
    PlanHeads(g, picks, rest, mp, changed);
    hide Heap, Plan;
    if count < max && x != best && NextHopCmp(prev.nexthop, x.nexthop) != 0 {
      ghost var k := IndexIn(rest, x);
      Pick(prev, x, g, picks, rest, k);
      PlanAdd(g, picks, rest, mp, changed, k);
      prev', count', changed', picks', rest' := x, count + 1, true, picks + [x], Drop(rest, k);
    } else {
      PlanSkip(g, picks, rest, mp, changed);
      prev', count', changed', picks', rest' := prev, count, changed, picks, rest;
    }
  }

  lemma WalkStarts(g: Goal, mp: seq<Info>)
    requires Layout(g.all, [g.best], g.was) && g.best !in g.was && FlagsOn(g.all, [], g.was)
    requires NoRepeats(mp) && forall x :: x in mp ==> x in g.all
    requires g.chain == Greedy(g.best, mp, g.best, 1, g.max) && (g.sorted ==> Sorted(mp))
    ensures Heap(g, [], g.was) && Plan(g, [], g.was, mp, false)
  {
    hide Layout, FlagsOn, NoRepeats, Greedy, Sorted;
    assert Chain(g.best, []) == [g.best];
    LayoutRest(g.all, [g.best], g.was);
    assert [] + g.was == g.was && [] + g.chain == g.chain;
  }

  lemma LayoutRest(all: set<Info>, a: seq<Info>, b: seq<Info>)
    requires Layout(all, a, b)
    ensures NoRepeats(b) && forall x :: x in b ==> x in all
  {
  }

  /** The ordered walk over both lists.  `was` is the old chain (without the best path). */
  method Walk(best: Info, first: Info?, mpList: seq<Info>, max: int, ghost all: set<Info>, ghost was: seq<Info>)
    returns (count: int, changed: bool)
    requires Layout(all, [best], was) && best !in was
    requires first == if was == [] then null else was[0]
    requires NoRepeats(mpList) && forall x :: x in mpList ==> x in all
    requires FlagsOn(all, [], was)
    modifies all`next, all`prev, all`multipath
    ensures var g := Greedy(best, mpList, best, 1, max);
      Layout(all, Chain(best, g), []) && FlagsOn(all, g, []) && count == 1 + |g|
      && best !in g
      && (!changed ==> g == was)
      && (changed && Sorted(mpList) ==> g != was)
  {
    ghost var g := Goal(best, all, max, Greedy(best, mpList, best, 1, max), was, Sorted(mpList));
    WalkStarts(g, mpList);
    hide *;
    count, changed := 1, false;
    var mp, cur, prev := mpList, first, best;
    ghost var picks: seq<Info>, rest := [], was;
    LastOfNone(g);
    while mp != [] || cur != null
      invariant Heap(g, picks, rest) && Plan(g, picks, rest, mp, changed)
      invariant cur == if rest == [] then null else rest[0]
      invariant prev == Last(g, picks)
      invariant count == 1 + |picks|
      decreases |mp| + |rest|
    {
      if cur == null && count >= max {
        break;
      }
      PlanHeads(g, picks, rest, mp, changed);
      NextInChain(g, picks, rest);
      var next: Info? := if cur != null then cur.next else null;
      if mp != [] && mp[0] == cur {
        prev, count, changed, picks := StepSame(prev, cur, mp, count, changed, max, g, picks, rest);
        rest, mp, cur := rest[1..], mp[1..], next;
      } else if cur != null && (mp == [] || MpathCmp(cur, mp[0]) < 0) {
        PlanPurge(g, picks, rest, mp, changed);
        Discard(cur, g, picks, rest);
        changed := true;
        rest, cur := rest[1..], next;
      } else {
        prev, count, changed, picks, rest := StepNew(prev, mp[0], best, mp, count, changed, max, g, picks, rest);
        mp := mp[1..];
      }
    }
    WalkEnds(g, picks, mp, changed);
  }

  lemma LastOfNone(g: Goal)
    ensures Last(g, []) == g.best
  {
  }

  ghost function IndexIn(s: seq<Info>, x: Info): (k: int)
    ensures -1 <= k < |s| && if k < 0 then x !in s else s[k] == x
  {
    if x in s then var k :| 0 <= k < |s| && s[k] == x; k else -1
  }

  lemma NextInChain(g: Goal, picks: seq<Info>, rest: seq<Info>)
    requires Heap(g, picks, rest)
    ensures rest != [] ==> rest[0].next == if |rest| > 1 then rest[1] else null
  {
    if rest != [] { LinksAt(rest, 0); }
  }

  lemma PlanHeads(g: Goal, picks: seq<Info>, rest: seq<Info>, mp: seq<Info>, changed: bool)
    requires Plan(g, picks, rest, mp, changed)
    ensures rest != [] ==> rest[0] in g.all && rest[0] !in picks && rest[0] != g.best
    ensures mp != [] ==> mp[0] in g.all && mp[0] !in picks
  {
    if rest != [] { assert rest[0] in rest; }
    if mp != [] { assert mp[0] in mp; }
  }

  lemma WalkEnds(g: Goal, picks: seq<Info>, mp: seq<Info>, changed: bool)
    requires Plan(g, picks, [], mp, changed) && Heap(g, picks, [])
    requires mp == [] || 1 + |picks| >= g.max
    ensures picks == g.chain && g.best !in picks
    ensures Layout(g.all, Chain(g.best, picks), []) && FlagsOn(g.all, picks, [])
    ensures !changed ==> picks == g.was
    ensures changed && g.sorted ==> picks != g.was
  {
    GreedyStops(g.best, mp, Last(g, picks), 1 + |picks|, g.max);
    TrackedEnd(g.was, picks, mp, changed, g.sorted);
  }

  // ----- the update of a route's multipath set

  ghost function OldList(oldBest: Info?, oldChain: seq<Info>): seq<Info> {
    if oldBest == null then [] else [oldBest] + oldChain
  }

  /** Before an update: the old best path heads its chain, whose members are flagged. */
  ghost predicate Settled(all: set<Info>, best: Info?, chain: seq<Info>)
    reads all
  {
    && (best == null ==> chain == [])
    && Layout(all, [], OldList(best, chain))
    && FlagsOn(all, chain, [])
    && (best != null ==> best in all && best.count == |chain|)
  }

  /** Takes the new best path out of the old chain if it is there. */
  method DetachNew(newBest: Info, oldBest: Info?, ghost all: set<Info>, ghost oldChain: seq<Info>)
    returns (ghost was: seq<Info>)
    requires Layout(all, [], OldList(oldBest, oldChain)) && FlagsOn(all, oldChain, [])
    requires newBest in all && newBest != oldBest && (oldBest == null ==> oldChain == [])
    modifies all`next, all`prev, newBest`multipath
    ensures Layout(all, [], OldList(oldBest, was)) && FlagsOn(all, was, [])
    ensures oldBest == null ==> was == []
    ensures was == Drop(oldChain, IndexIn(oldChain, newBest))
    ensures newBest !in was && |was| == |oldChain| - (if newBest in oldChain then 1 else 0)
  {
    ghost var list := OldList(oldBest, oldChain);
    ghost var j := IndexIn(oldChain, newBest);
    ghost var k := if j < 0 then -1 else j + 1;
    was := Drop(oldChain, j);
    ChainDistinct(oldBest, oldChain);
    DropIndex(oldChain, j);
    HeadSurvives(oldBest, oldChain, j);
    ElemsDrop(oldChain, j);
    assert Elems([]) == {};
    assert j < 0 ==> newBest !in Elems(oldChain);
    assert k < 0 ==> newBest !in list;
    hide Layout, Drop, Elems, OldList;
    Remove(newBest, all, [], list, k);
  }

  lemma ChainDistinct(oldBest: Info?, oldChain: seq<Info>)
    requires NoRepeats(OldList(oldBest, oldChain)) && (oldBest == null ==> oldChain == [])
    ensures NoRepeats(oldChain) && (oldBest != null ==> oldBest !in oldChain)
    ensures forall y :: y in oldChain ==> y in OldList(oldBest, oldChain)
    ensures forall y :: y in OldList(oldBest, oldChain) ==> y == oldBest || y in oldChain
  {
    if oldBest != null {
      var list := [oldBest] + oldChain;
      assert forall i :: 0 <= i < |oldChain| ==> oldChain[i] == list[i + 1] && list[i + 1] != list[0];
    }
  }

  lemma HeadSurvives(oldBest: Info?, oldChain: seq<Info>, j: int)
    requires -1 <= j < |oldChain| && (oldBest == null ==> oldChain == [])
    ensures var k := if j < 0 then -1 else j + 1;
      k < |OldList(oldBest, oldChain)|
      && (k >= 0 ==> OldList(oldBest, oldChain)[k] == oldChain[j])
      && Drop(OldList(oldBest, oldChain), k) == OldList(oldBest, Drop(oldChain, j))
  {
    if j >= 0 {
      var list := OldList(oldBest, oldChain);
      assert list[..j + 1] == [oldBest] + oldChain[..j];
      assert list[j + 2..] == oldChain[j + 1..];
    }
  }

  /** Takes the old best path off the head of its chain. */
  method DetachOld(oldBest: Info, ghost all: set<Info>, ghost was: seq<Info>)
    returns (cur: Info?, oldCount: int)
    requires Layout(all, [], OldList(oldBest, was)) && FlagsOn(all, was, [])
    modifies all`next, all`prev, oldBest`multipath, oldBest`count
    ensures Layout(all, [], was) && FlagsOn(all, [], was)
    ensures cur == if was == [] then null else was[0]
    ensures oldCount == old(oldBest.count) && oldBest.count == 0
  {
    ghost var list := OldList(oldBest, was);
    ChainDistinct(oldBest, was);
    assert list[0] == oldBest && oldBest in list;
    LinksAt(list, 0);
    cur := oldBest.next;
    oldCount := oldBest.count;
    oldBest.count := 0;
    assert Drop(list, 0) == was;
    hide Layout, Drop;
    Remove(oldBest, all, [], list, 0);
  }

  /** Detaches the new best path and the head of the old chain; `was` is what is left. */
  method Detach(newBest: Info?, oldBest: Info?, ghost all: set<Info>, ghost oldChain: seq<Info>)
    returns (cur: Info?, oldCount: int, ghost was: seq<Info>)
    requires Settled(all, oldBest, oldChain) && (newBest != null ==> newBest in all)
    modifies all`next, all`prev, all`multipath, all`count
    ensures Layout(all, [], was) && FlagsOn(all, [], was)
    ensures cur == if was == [] then null else was[0]
    ensures oldCount == |oldChain| && (oldBest != null ==> oldBest.count == 0)
    ensures newBest != null ==> newBest !in was && LeftOver(newBest, oldChain, was)
  {
    was := oldChain;
    ChainDistinct(oldBest, oldChain);
    if newBest != null && newBest != oldBest {
      was := DetachNew(newBest, oldBest, all, oldChain);
    }
    cur, oldCount := null, 0;
    if oldBest != null {
      cur, oldCount := DetachOld(oldBest, all, was);
    }
  }

  /** `was` is the old chain, or a shorter one if the new best path was in it. */
  ghost predicate LeftOver(newBest: Info, oldChain: seq<Info>, was: seq<Info>) {
    if newBest in oldChain then |was| < |oldChain| else was == oldChain
  }

  lemma Reported(newBest: Info, oldChain: seq<Info>, was: seq<Info>, g: seq<Info>, changed: bool, sorted: bool)
    requires LeftOver(newBest, oldChain, was) && newBest !in g
    requires (!changed ==> g == was) && (changed && sorted ==> g != was)
    ensures var chg := changed || |g| != |oldChain|;
      (!chg ==> g == oldChain) && (chg && sorted ==> g != oldChain)
  {
  }

  lemma Resettled(all: set<Info>, best: Info, g: seq<Info>)
    requires Layout(all, Chain(best, g), []) && FlagsOn(all, g, []) && best in all && best.count == |g|
    ensures Settled(all, best, g)
  {
    assert Chain(best, g) == OldList(best, g);
  }

  /** After an update the multipath set is the greedy selection: linked behind the new best
      path in order, flagged on exactly its members and counted; and a change is reported
      exactly when the chain differs from the old one, given candidates in list order. */
  method MpathUpdate(newBest: Info?, oldBest: Info?, mpList: seq<Info>, maxpaths: int,
                     ghost all: set<Info>, ghost oldChain: seq<Info>)
    returns (chg: bool)
    requires Settled(all, oldBest, oldChain)
    requires newBest != null ==> newBest in all
    requires newBest == null ==> mpList == []
    requires NoRepeats(mpList) && forall x :: x in mpList ==> x in all
    modifies all
    ensures newBest != null ==>
      var g := Greedy(newBest, mpList, newBest, 1, maxpaths);
      Settled(all, newBest, g)
      && newBest.changed == (old(newBest.changed) || chg)
      && (!chg ==> g == oldChain)
      && (chg && Sorted(mpList) ==> g != oldChain)
    ensures newBest == null ==> Layout(all, [], []) && FlagsOn(all, [], [])
    ensures oldBest != null && oldBest != newBest ==> oldBest.count == 0
    ensures forall x :: x in all && x != newBest ==> x.changed == old(x.changed)
  {
    SettledBest(all, oldBest, oldChain);
    hide *;
    chg := false;
    var cur, oldCount, was := Detach(newBest, oldBest, all, oldChain);
    if newBest == null {
      PurgeAll(cur, all, was);
    } else {
      chg := Rebuild(newBest, cur, oldCount, mpList, maxpaths, all, oldChain, was);
    }
  }

  /** Walks both lists, stores the count and raises the change flag. */
  method Rebuild(newBest: Info, cur: Info?, oldCount: int, mpList: seq<Info>, maxpaths: int,
                 ghost all: set<Info>, ghost oldChain: seq<Info>, ghost was: seq<Info>)
    returns (chg: bool)
    requires Layout(all, [], was) && FlagsOn(all, [], was) && newBest in all && newBest !in was
    requires cur == if was == [] then null else was[0]
    requires LeftOver(newBest, oldChain, was) && oldCount == |oldChain|
    requires NoRepeats(mpList) && forall x :: x in mpList ==> x in all
    modifies all`next, all`prev, all`multipath, newBest`count, newBest`changed
    ensures var g := Greedy(newBest, mpList, newBest, 1, maxpaths);
      Settled(all, newBest, g)
      && (!chg ==> g == oldChain)
      && (chg && Sorted(mpList) ==> g != oldChain)
    ensures newBest.changed == (old(newBest.changed) || chg)
  {
    hide *;
    AloneFirst(newBest, all, was);
    ghost var g := Greedy(newBest, mpList, newBest, 1, maxpaths);
    var count, changed := Walk(newBest, cur, mpList, maxpaths, all, was);
    chg := false;
    newBest.count := count - 1;
    if changed || newBest.count != oldCount {
      newBest.changed := true;
      chg := true;
    }
    Reported(newBest, oldChain, was, g, changed, Sorted(mpList));
    Resettled(all, newBest, g);
  }

  lemma SettledBest(all: set<Info>, best: Info?, chain: seq<Info>)
    requires Settled(all, best, chain)
    ensures best != null ==> best in all
  {
  }

  lemma AloneFirst(x: Info, all: set<Info>, was: seq<Info>)
    requires Layout(all, [], was) && x in all && x !in was
    ensures Layout(all, [x], was)
  {
  }

  /** Dequeues every member of a chain that has lost its head. */
  method PurgeAll(first: Info?, ghost all: set<Info>, ghost was: seq<Info>)
    requires Layout(all, [], was) && FlagsOn(all, [], was)
    requires first == if was == [] then null else was[0]
    modifies all`next, all`prev, all`multipath
    ensures Layout(all, [], []) && FlagsOn(all, [], [])
  {
    var cur := first;
    ghost var rest := was;
    while cur != null
      invariant Layout(all, [], rest) && FlagsOn(all, [], rest)
      invariant cur == if rest == [] then null else rest[0]
      decreases |rest|
    {
      assert cur in rest;
      LinksAt(rest, 0);
      var next := cur.next;
      Purge(cur, all, [], [], rest);
      rest, cur := rest[1..], next;
    }
  }

  /** Clears the multipath state of a path that was best within its neighbour AS only. */
  method DmedDeselect(best: Info?, ghost all: set<Info>, ghost chain: seq<Info>)
    requires Settled(all, best, chain)
    modifies all`next, all`prev, all`multipath, One(best)`count, One(best)`changed
    ensures best != null ==> Settled(all, best, []) && !best.changed && best.next == null
  {
    if best == null { return; }
    SettledHead(all, best, chain);
    hide *;
    ClearChain(best, all, chain);
    best.count := 0;
    best.changed := false;
    Emptied(all, best);
  }

  method ClearChain(best: Info, ghost all: set<Info>, ghost chain: seq<Info>)
    requires Layout(all, [], OldList(best, chain)) && FlagsOn(all, chain, []) && best in all
    modifies all`next, all`prev, all`multipath
    ensures Layout(all, [], OldList(best, [])) && FlagsOn(all, [], []) && best.next == null
  {
    hide *;
    FirstLink(all, best, chain);
    var cur := best.next;
    ghost var rest := chain;
    while cur != null
      invariant Layout(all, [], OldList(best, rest)) && FlagsOn(all, rest, [])
      invariant cur == best.next == if rest == [] then null else rest[0]
      decreases |rest|
    {
      SecondLink(all, best, rest);
      var next := cur.next;
      ghost var left := DetachNew(cur, best, all, rest);
      FirstLink(all, best, left);
      rest, cur := left, next;
    }
  }

  lemma SettledHead(all: set<Info>, best: Info, chain: seq<Info>)
    requires Settled(all, best, chain)
    ensures Layout(all, [], OldList(best, chain)) && FlagsOn(all, chain, []) && best in all
  {
  }

  lemma FirstLink(all: set<Info>, best: Info, rest: seq<Info>)
    requires Layout(all, [], OldList(best, rest))
    ensures best.next == if rest == [] then null else rest[0]
  {
    LinksAt(OldList(best, rest), 0);
  }

  lemma SecondLink(all: set<Info>, best: Info, rest: seq<Info>)
    requires Layout(all, [], OldList(best, rest)) && rest != []
    ensures rest[0] in all && rest[0] != best && rest[0] in rest
    ensures IndexIn(rest, rest[0]) == 0 && Drop(rest, 0) == rest[1..]
    ensures rest[0].next == if |rest| > 1 then rest[1] else null
  {
    var list := OldList(best, rest);
    assert list[1] == rest[0] && list[1] in list && list[0] == best;
    ChainDistinct(best, rest);
    LinksAt(list, 1);
  }

  lemma Emptied(all: set<Info>, best: Info)
    requires Layout(all, [], OldList(best, [])) && FlagsOn(all, [], []) && best in all && best.count == 0
    ensures Settled(all, best, [])
  {
  }
}
