/** The doubly linked lists that hold damping records, and what the reuse timer does to them. */
module DampingLinks {
  import opened Options
  import opened Sequences
  import opened Damping

  // ----- links

  /** The list of unsuppressed routes, or one of the ring. */
  datatype Queue = Other | Slot(index: nat)

  datatype Links = Links(next: map<Route, Option<Route>>, prev: map<Route, Option<Route>>,
                         heads: seq<Option<Route>>, other: Option<Route>)

  function Next(l: Links, r: Route): Option<Route> { if r in l.next then l.next[r] else None }

  function Prev(l: Links, r: Route): Option<Route> { if r in l.prev then l.prev[r] else None }

  function Head(l: Links, q: Queue): Option<Route> {
    match q
    case Other => l.other
    case Slot(i) => if i < |l.heads| then l.heads[i] else None
  }

  predicate Exists(l: Links, q: Queue) { q.Slot? ==> q.index < |l.heads| }

  function SetHead(l: Links, q: Queue, o: Option<Route>): Links {
    match q
    case Other => l.(other := o)
    case Slot(i) => if i < |l.heads| then l.(heads := l.heads[i := o]) else l
  }

  /** Insertion at the head. */
  function Push(l: Links, q: Queue, r: Route): Links {
    var h := Head(l, q);
    var prev := l.prev[r := None];
    SetHead(l.(next := l.next[r := h], prev := if h.Some? then prev[h.value := Some(r)] else prev), q, Some(r))
  }

  /** Deletion, which trusts the record's own links. */
  function Unlink(l: Links, q: Queue, r: Route): Links {
    var n, p := Next(l, r), Prev(l, r);
    var m := if n.Some? then l.(prev := l.prev[n.value := p]) else l;
    if p.Some? then m.(next := m.next[p.value := n]) else SetHead(m, q, n)
  }

  // ----- the lists they spell

  type Lists = map<Queue, seq<Route>>

  function At(s: seq<Route>, i: int): Option<Route> { if 0 <= i < |s| then Some(s[i]) else None }

  ghost predicate Chained(l: Links, s: seq<Route>) {
    forall i :: 0 <= i < |s| ==> Next(l, s[i]) == At(s, i + 1) && Prev(l, s[i]) == At(s, i - 1)
  }

  ghost predicate Spells(l: Links, lists: Lists) {
    forall q :: q in lists ==> Exists(l, q) && Head(l, q) == At(lists[q], 0) && Chained(l, lists[q])
  }

  ghost predicate Apart(lists: Lists) {
    && (forall q :: q in lists ==> NoRepeats(lists[q]))
    && (forall q, k, r :: q in lists && k in lists && r in lists[q] && r in lists[k] ==> q == k)
  }

  ghost predicate OnNone(lists: Lists, r: Route) {
    forall q :: q in lists ==> r !in lists[q]
  }

  function Added(lists: Lists, q: Queue, r: Route): Lists
    requires q in lists
  {
    lists[q := [r] + lists[q]]
  }

  lemma PushEffect(l: Links, q: Queue, r: Route)
    requires Exists(l, q)
    ensures var m, h := Push(l, q, r), Head(l, q);
      && (forall x: Route :: Next(m, x) == if x == r then h else Next(l, x))
      && (forall x: Route :: Prev(m, x) == if h == Some(x) then Some(r) else if x == r then None else Prev(l, x))
      && (forall k :: Exists(m, k) == Exists(l, k) && Head(m, k) == if k == q then Some(r) else Head(l, k))
  {
  }

  lemma UnlinkEffect(l: Links, q: Queue, r: Route)
    requires Exists(l, q)
    ensures var m, n, p := Unlink(l, q, r), Next(l, r), Prev(l, r);
      && (forall x: Route :: Next(m, x) == if p == Some(x) then n else Next(l, x))
      && (forall x: Route :: Prev(m, x) == if n == Some(x) then p else Prev(l, x))
      && (forall k :: Exists(m, k) == Exists(l, k) && Head(m, k) == if k == q && p == None then n else Head(l, k))
  {
  }

  lemma PushSpells(l: Links, lists: Lists, q: Queue, r: Route)
    requires Spells(l, lists) && Apart(lists) && q in lists && OnNone(lists, r)
    ensures Spells(Push(l, q, r), Added(lists, q, r)) && Apart(Added(lists, q, r))
  {
    var m, after := Push(l, q, r), Added(lists, q, r);
    PushEffect(l, q, r);
    PushChained(l, lists[q], q, r);
    AddedApart(lists, q, r);
    hide Push, Next, Prev, Head, NoRepeats, Exists;
    forall k | k in after
      ensures Exists(m, k) && Head(m, k) == At(after[k], 0) && Chained(m, after[k])
    {
      if k != q {
        assert lists[q] != [] ==> lists[q][0] in lists[q];
        Untouched(l, m, lists[k]);
      }
    }
  }

  lemma AddedApart(lists: Lists, q: Queue, r: Route)
    requires Apart(lists) && q in lists && OnNone(lists, r)
    ensures Apart(Added(lists, q, r))
  {
    var after := Added(lists, q, r);
    assert forall x :: x in after[q] <==> x == r || x in lists[q];
  }

  lemma Untouched(l: Links, m: Links, s: seq<Route>)
    requires Chained(l, s)
    requires forall x :: x in s ==> Next(m, x) == Next(l, x) && Prev(m, x) == Prev(l, x)
    ensures Chained(m, s)
  {
    hide Next, Prev;
    assert forall i :: 0 <= i < |s| ==> s[i] in s;
  }

  lemma PushChained(l: Links, s: seq<Route>, q: Queue, r: Route)
    requires Chained(l, s) && NoRepeats(s) && r !in s && Head(l, q) == At(s, 0) && Exists(l, q)
    ensures Chained(Push(l, q, r), [r] + s)
  {
    var m, t := Push(l, q, r), [r] + s;
    PushEffect(l, q, r);
    hide Push, Next, Prev, Head;
    forall i | 0 <= i < |t|
      ensures Next(m, t[i]) == At(t, i + 1) && Prev(m, t[i]) == At(t, i - 1)
    {
      if i > 0 { assert t[i] == s[i - 1]; }
    }
  }

  lemma WithoutNth(s: seq<Route>, i: nat)
    requires NoRepeats(s) && i < |s|
    ensures Without(s, s[i]) == s[..i] + s[i + 1..]
  {
    WithoutAt(s[..i], s[i], s[i + 1..]);
    assert s == s[..i] + [s[i]] + s[i + 1..];
  }

  lemma UnlinkChained(l: Links, s: seq<Route>, q: Queue, i: nat)
    requires Chained(l, s) && NoRepeats(s) && i < |s| && Head(l, q) == At(s, 0) && Exists(l, q)
    ensures Chained(Unlink(l, q, s[i]), s[..i] + s[i + 1..])
    ensures Head(Unlink(l, q, s[i]), q) == At(s[..i] + s[i + 1..], 0)
  {
    var m, t := Unlink(l, q, s[i]), s[..i] + s[i + 1..];
    UnlinkEffect(l, q, s[i]);
    hide Unlink, Next, Prev, Head, Exists;
    assert Next(l, s[i]) == At(s, i + 1) && Prev(l, s[i]) == At(s, i - 1);
    forall j | 0 <= j < |t|
      ensures Next(m, t[j]) == At(t, j + 1) && Prev(m, t[j]) == At(t, j - 1)
    {
      var k := if j < i then j else j + 1;
      assert t[j] == s[k];
    }
  }

  lemma RemovedApart(lists: Lists, q: Queue, r: Route)
    requires Apart(lists) && q in lists
    ensures Apart(lists[q := Without(lists[q], r)])
  {
    WithoutRemoves(lists[q], r);
    hide NoRepeats, Without;
  }

  lemma UnlinkSpells(l: Links, lists: Lists, q: Queue, r: Route)
    requires Spells(l, lists) && Apart(lists) && q in lists && r in lists[q]
    ensures Spells(Unlink(l, q, r), lists[q := Without(lists[q], r)])
    ensures Apart(lists[q := Without(lists[q], r)])
  {
    RemovedApart(lists, q, r);
    var s := lists[q];
    var i :| 0 <= i < |s| && s[i] == r;
    WithoutNth(s, i);
    UnlinkChained(l, s, q, i);
    UnlinkEffect(l, q, r);
    var m, after := Unlink(l, q, r), lists[q := Without(s, r)];
    assert Next(l, r) == At(s, i + 1) && Prev(l, r) == At(s, i - 1);
    hide Unlink, Next, Prev, Head, Exists, NoRepeats, Without, Chained;
    forall k | k in after
      ensures Exists(m, k) && Head(m, k) == At(after[k], 0) && Chained(m, after[k])
    {
      if k != q {
        assert forall x :: x in lists[k] ==> At(s, i + 1) != Some(x) && At(s, i - 1) != Some(x);
        Untouched(l, m, lists[k]);
      }
    }
  }

  // ----- what spelled lists rule out

  /** Two records that point to each other's place are neighbours on one list, and distinct. */
  lemma NextIsMutual(l: Links, lists: Lists, q: Queue, a: Route, b: Route)
    requires Spells(l, lists) && Apart(lists) && q in lists && a in lists[q] && Next(l, a) == Some(b)
    ensures b in lists[q] && Prev(l, b) == Some(a) && a != b
  {
    hide Next, Prev, Head, Exists;
    var s := lists[q];
    var i :| 0 <= i < |s| && s[i] == a;
    assert Next(l, s[i]) == At(s, i + 1);
    assert Prev(l, s[i + 1]) == At(s, i);
  }

  lemma PrevIsMutual(l: Links, lists: Lists, q: Queue, a: Route, b: Route)
    requires Spells(l, lists) && Apart(lists) && q in lists && b in lists[q] && Prev(l, b) == Some(a)
    ensures a in lists[q] && Next(l, a) == Some(b) && a != b
  {
    hide Next, Prev, Head, Exists;
    var s := lists[q];
    var i :| 0 <= i < |s| && s[i] == b;
    assert Prev(l, s[i]) == At(s, i - 1);
    assert Next(l, s[i - 1]) == At(s, i);
  }

  // ----- a turn of the timer on the links

  /** What the timer decides for a record from its decayed penalty. */
  datatype Fate = Forget | To(queue: Queue)

  /** The record is off its list already.  Forgetting it deletes it from the list of unsuppressed
      routes all the same. */
  function Settle(l: Links, r: Route, fate: Fate): Links {
    match fate
    case Forget => Unlink(l, Other, r)
    case To(q) => Push(l, q, r)
  }

  function SettleAll(l: Links, chain: seq<Route>, fates: seq<Fate>): Links
    requires |fates| == |chain|
    decreases |chain|
  {
    if chain == [] then l else SettleAll(Settle(l, chain[0], fates[0]), chain[1..], fates[1..])
  }

  function Settled(lists: Lists, r: Route, fate: Fate): Lists {
    if fate.To? && fate.queue in lists then Added(lists, fate.queue, r) else lists
  }

  /** The lists the turn should leave. */
  function SettledAll(lists: Lists, chain: seq<Route>, fates: seq<Fate>): Lists
    requires |fates| == |chain|
    decreases |chain|
  {
    if chain == [] then lists else SettledAll(Settled(lists, chain[0], fates[0]), chain[1..], fates[1..])
  }

  /** The records still to be looked at, in the middle of a turn. */
  ghost predicate Trail(l: Links, rest: seq<Route>) {
    && NoRepeats(rest)
    && (forall i :: 0 <= i < |rest| ==> Next(l, rest[i]) == At(rest, i + 1))
    && (forall i :: 1 <= i < |rest| ==> Prev(l, rest[i]) == Some(rest[i - 1]))
    && (rest != [] && Prev(l, rest[0]).Some? ==> Prev(l, rest[0]).value !in rest)
    && (forall q :: Head(l, q).Some? && rest != [] ==> Head(l, q).value !in rest[1..])
  }

  ghost predicate Targets(l: Links, fates: seq<Fate>) {
    Exists(l, Other) && forall i :: 0 <= i < |fates| && fates[i].To? ==> Exists(l, fates[i].queue)
  }

  ghost predicate Turning(l: Links, chain: seq<Route>, fates: seq<Fate>) {
    |fates| == |chain| && Trail(l, chain) && Targets(l, fates)
  }

  lemma TargetsStep(l: Links, chain: seq<Route>, fates: seq<Fate>)
    requires |fates| == |chain| && chain != [] && Targets(l, fates)
    ensures Targets(Settle(l, chain[0], fates[0]), fates[1..])
  {
    if fates[0].To? { PushEffect(l, fates[0].queue, chain[0]); } else { UnlinkEffect(l, Other, chain[0]); }
    hide Push, Unlink, Exists;
  }

  lemma TrailStep(l: Links, chain: seq<Route>, fates: seq<Fate>)
    requires |fates| == |chain| && chain != [] && Trail(l, chain) && Targets(l, fates)
    ensures Trail(Settle(l, chain[0], fates[0]), chain[1..])
  {
    var r, rest, m := chain[0], chain[1..], Settle(l, chain[0], fates[0]);
    if fates[0].To? { PushEffect(l, fates[0].queue, r); } else { UnlinkEffect(l, Other, r); }
    hide Push, Unlink, Exists, Next, Prev, Head, Settle;
    assert forall i :: 0 <= i < |rest| ==> rest[i] == chain[i + 1] && rest[i] in rest && rest[i] in chain;
    assert forall i :: 0 <= i < |rest| ==> rest[i] != r;
  }

  /** One record settled: what becomes of the links outside the rest of the chain. */
  lemma TurnStep(l: Links, chain: seq<Route>, fates: seq<Fate>) returns (m: Links)
    requires chain != [] && Turning(l, chain, fates)
    ensures m == Settle(l, chain[0], fates[0]) && Turning(m, chain[1..], fates[1..])
    ensures SettleAll(l, chain, fates) == SettleAll(m, chain[1..], fates[1..])
    ensures chain[0] !in chain[1..]
    ensures |chain| > 1 ==> Prev(m, chain[1]) == if fates[0].To? then Some(chain[0]) else Prev(l, chain[0])
  {
    m := Settle(l, chain[0], fates[0]);
    TargetsStep(l, chain, fates);
    TrailStep(l, chain, fates);
    if fates[0].To? { PushEffect(l, fates[0].queue, chain[0]); } else { UnlinkEffect(l, Other, chain[0]); }
    hide Push, Unlink, Exists, Next, Prev, Head;
    if |chain| > 1 { assert chain[1] == chain[1..][0] && Next(l, chain[0]) == Some(chain[1]); }
  }

  /** A forgotten record, seen from the records that are not in the chain. */
  lemma ForgetStep(l: Links, chain: seq<Route>, fates: seq<Fate>)
    requires chain != [] && Turning(l, chain, fates) && fates[0].Forget?
    ensures var m, p := Settle(l, chain[0], fates[0]), Prev(l, chain[0]);
      && (forall x: Route :: Next(m, x) == if p == Some(x) then At(chain, 1) else Next(l, x))
      && (forall x: Route :: x !in chain ==> Prev(m, x) == Prev(l, x))
      && (forall k :: Exists(m, k) == Exists(l, k))
      && (forall k :: Head(m, k) == if k == Other && p == None then At(chain, 1) else Head(l, k))
  {
    UnlinkEffect(l, Other, chain[0]);
    hide Unlink, Exists, Next, Prev, Head;
    assert Next(l, chain[0]) == At(chain, 1);
  }

  lemma {:induction false} NextStays(l: Links, chain: seq<Route>, fates: seq<Fate>, y: Route)
    requires Turning(l, chain, fates) && y !in chain
    requires chain == [] || Prev(l, chain[0]) != Some(y) || fates[0].To?
    ensures Next(SettleAll(l, chain, fates), y) == Next(l, y)
    decreases |chain|
  {
    hide Next, Prev, Head, Turning, Settle;
    if chain != [] {
      TargetExists(l, chain, fates);
      var m := TurnStep(l, chain, fates);
      assert Next(m, y) == Next(l, y) by {
        if fates[0].To? {
          PushEffect(l, fates[0].queue, chain[0]);
          SettleTo(l, chain[0], fates[0]);
        } else {
          ForgetStep(l, chain, fates);
        }
      }
      NextStays(m, chain[1..], fates[1..], y);
    }
  }

  lemma TargetExists(l: Links, chain: seq<Route>, fates: seq<Fate>)
    requires chain != [] && Turning(l, chain, fates)
    ensures |fates| == |chain| && (fates[0].To? ==> Exists(l, fates[0].queue))
  {
  }

  lemma SettleTo(l: Links, r: Route, fate: Fate)
    requires fate.To?
    ensures Settle(l, r, fate) == Push(l, fate.queue, r)
  {
  }

  lemma {:induction false} PrevFrom(l: Links, chain: seq<Route>, fates: seq<Fate>, y: Route)
    requires Turning(l, chain, fates) && y !in chain
    ensures var t := SettleAll(l, chain, fates);
      Prev(t, y) == Prev(l, y) || (Prev(t, y).Some? && Prev(t, y).value in chain)
    decreases |chain|
  {
    hide Next, Prev, Head, Turning, Settle;
    if chain != [] {
      TargetExists(l, chain, fates);
      var m := TurnStep(l, chain, fates);
      assert Prev(m, y) == Prev(l, y) || Prev(m, y) == Some(chain[0]) by {
        if fates[0].To? {
          PushEffect(l, fates[0].queue, chain[0]);
          SettleTo(l, chain[0], fates[0]);
        } else {
          ForgetStep(l, chain, fates);
        }
      }
      PrevFrom(m, chain[1..], fates[1..], y);
    }
  }

  ghost predicate AllForget(fates: seq<Fate>) { forall i :: 0 <= i < |fates| ==> fates[i].Forget? }

  /** If the rest of the chain is forgotten, the record before it becomes the last of its list, or
      the list of unsuppressed routes becomes empty. */
  lemma {:induction false} Forgotten(l: Links, chain: seq<Route>, fates: seq<Fate>)
    requires chain != [] && Turning(l, chain, fates) && AllForget(fates)
    ensures var t, p := SettleAll(l, chain, fates), Prev(l, chain[0]);
      && (forall x: Route :: x !in chain ==> Next(t, x) == if p == Some(x) then None else Next(l, x))
      && (forall x: Route :: x !in chain ==> Prev(t, x) == Prev(l, x))
      && (forall k :: Exists(t, k) == Exists(l, k))
      && (forall k :: Head(t, k) == if k == Other && p == None then None else Head(l, k))
    decreases |chain|
  {
    TargetExists(l, chain, fates);
    hide Next, Prev, Head, Exists, Turning, Settle;
    var m := TurnStep(l, chain, fates);
    ForgetStep(l, chain, fates);
    if |chain| > 1 {
      Forgotten(m, chain[1..], fates[1..]);
    }
  }

  /** If a record is forgotten after a record that is kept, and before another one that is, then
      the first comes to point to the second, which does not point back. */
  lemma {:induction false} Bridged(l: Links, chain: seq<Route>, fates: seq<Fate>, a: Route) returns (b: Route)
    requires chain != [] && Turning(l, chain, fates) && Prev(l, chain[0]) == Some(a)
    requires fates[0].Forget? && !AllForget(fates)
    ensures var t := SettleAll(l, chain, fates); Next(t, a) == Some(b) && Prev(t, b) != Some(a)
    decreases |chain|
  {
    NotBefore(l, chain, fates, a);
    hide Next, Prev, Head, Exists, Turning, Settle;
    var m := TurnStep(l, chain, fates);
    ForgetStep(l, chain, fates);
    b := chain[1];
    assert b == chain[1..][0];
    if fates[1].Forget? {
      b := Bridged(m, chain[1..], fates[1..], a);
    } else {
      var n := TurnStep(m, chain[1..], fates[1..]);
      TargetExists(m, chain[1..], fates[1..]);
      PushEffect(m, fates[1].queue, b);
      SettleTo(m, b, fates[1]);
      NextStays(m, chain[1..], fates[1..], a);
      PrevFrom(n, chain[1..][1..], fates[1..][1..], b);
    }
  }

  lemma NotBefore(l: Links, chain: seq<Route>, fates: seq<Fate>, a: Route)
    requires chain != [] && Turning(l, chain, fates) && Prev(l, chain[0]) == Some(a)
    ensures a !in chain
  {
  }

  // ----- exactly when the lists survive a turn

  /** Kept records are on the list they were put on. */
  ghost predicate Home(lists: Lists, chain: seq<Route>, fates: seq<Fate>)
    requires |fates| == |chain|
  {
    forall i :: 0 <= i < |chain| && fates[i].To? ==> fates[i].queue in lists && chain[i] in lists[fates[i].queue]
  }

  lemma HomeTail(lists: Lists, chain: seq<Route>, fates: seq<Fate>)
    requires |fates| == |chain| && chain != [] && Home(lists, chain, fates)
    ensures Home(lists, chain[1..], fates[1..])
    ensures fates[0].To? ==> fates[0].queue in lists && chain[0] in lists[fates[0].queue]
  {
  }

  lemma HomeFrom(lists: Lists, chain: seq<Route>, fates: seq<Fate>, k: nat)
    requires |fates| == |chain| && k < |chain| && Home(lists, chain, fates)
    ensures Home(lists, chain[k..], fates[k..]) && chain[k..][0] == chain[k] && fates[k..][0] == fates[k]
  {
  }

  /** The list of unsuppressed routes begins with a suppressed one, and records before the rest of
      the chain were kept: no lists fit any more. */
  lemma {:induction false} Stray(l: Links, chain: seq<Route>, fates: seq<Fate>, g: Route, q: Queue, lists: Lists)
    requires Turning(l, chain, fates) && g !in chain && Head(l, Other) == Some(g)
    requires chain != [] ==> Prev(l, chain[0]) != None
    requires Apart(lists) && Home(lists, chain, fates)
    requires q in lists && q != Other && g in lists[q] && Other in lists
    ensures !Spells(SettleAll(l, chain, fates), lists)
    decreases |chain|
  {
    var t := SettleAll(l, chain, fates);
    if chain == [] {
      WrongHead(t, lists, Other, q, g);
    } else {
      TargetExists(l, chain, fates);
      HomeTail(lists, chain, fates);
      hide Next, Prev, Head, Turning, Settle, Spells, Apart, Home;
      var m := TurnStep(l, chain, fates);
      if fates[0].Forget? {
        ForgetStep(l, chain, fates);
        Stray(m, chain[1..], fates[1..], g, q, lists);
      } else {
        PushEffect(l, fates[0].queue, chain[0]);
        SettleTo(l, chain[0], fates[0]);
        if fates[0].queue == Other {
          Entangled(m, chain[1..], fates[1..], chain[0], g, lists, Other, q);
        } else {
          Stray(m, chain[1..], fates[1..], g, q, lists);
        }
      }
    }
  }

  /** A record just put in front of one that is not on its list, or is itself: no lists fit. */
  lemma Entangled(l: Links, chain: seq<Route>, fates: seq<Fate>, a: Route, g: Route, lists: Lists, k: Queue, q: Queue)
    requires Turning(l, chain, fates) && a !in chain && g !in chain
    requires Next(l, a) == Some(g) && Prev(l, g) == Some(a) && (chain != [] ==> Prev(l, chain[0]) == Some(a))
    requires Apart(lists) && k in lists && a in lists[k] && q in lists && g in lists[q] && (k != q || a == g)
    ensures !Spells(SettleAll(l, chain, fates), lists)
  {
    var t := SettleAll(l, chain, fates);
    if Spells(t, lists) {
      NeverInBoth(lists, k, q, g);
      NeverInBoth(lists, q, k, a);
      if chain != [] { TargetExists(l, chain, fates); }
      hide Next, Prev, Head, Turning, Spells, Apart, SettleAll;
      if chain == [] || fates[0].To? {
        NextStays(l, chain, fates, a);
        NextIsMutual(t, lists, k, a, g);
      } else if AllForget(fates) {
        Forgotten(l, chain, fates);
        PrevIsMutual(t, lists, q, a, g);
      } else {
        var b := Bridged(l, chain, fates, a);
        NextIsMutual(t, lists, k, a, b);
      }
    }
  }

  lemma NeverInBoth(lists: Lists, k: Queue, q: Queue, g: Route)
    requires Apart(lists) && k in lists && q in lists && g in lists[q]
    ensures k != q ==> g !in lists[k]
  {
  }

  lemma WrongHead(l: Links, lists: Lists, k: Queue, q: Queue, g: Route)
    requires Apart(lists) && k in lists && q in lists && k != q && g in lists[q] && Head(l, k) == Some(g)
    ensures !Spells(l, lists)
  {
    NeverInBoth(lists, k, q, g);
    assert lists[k] != [] ==> lists[k][0] in lists[k];
  }

  /** Records are forgotten from the first one on, until one is kept. */
  lemma {:induction false} FirstKept(l: Links, chain: seq<Route>, fates: seq<Fate>) returns (k: nat, m: Links)
    requires chain != [] && Turning(l, chain, fates) && Prev(l, chain[0]) == None
    requires fates[0].Forget? && !AllForget(fates)
    ensures k < |chain| && fates[k].To? && Turning(m, chain[k..], fates[k..])
    ensures SettleAll(l, chain, fates) == SettleAll(m, chain[k..], fates[k..])
    ensures Head(m, Other) == Some(chain[k])
    decreases |chain|
  {
    TargetExists(l, chain, fates);
    hide Next, Prev, Head, Turning, Settle;
    m := TurnStep(l, chain, fates);
    ForgetStep(l, chain, fates);
    if fates[1].To? {
      k := 1;
    } else {
      k, m := FirstKept(m, chain[1..], fates[1..]);
      assert chain[1..][k..] == chain[k + 1..] && fates[1..][k..] == fates[k + 1..];
      k := k + 1;
    }
  }

  /** The first record is forgotten and another is kept: no lists fit. */
  lemma NoneFit(l: Links, chain: seq<Route>, fates: seq<Fate>, lists: Lists)
    requires chain != [] && Turning(l, chain, fates) && Prev(l, chain[0]) == None
    requires fates[0].Forget? && !AllForget(fates)
    requires Apart(lists) && Home(lists, chain, fates) && Other in lists
    ensures !Spells(SettleAll(l, chain, fates), lists)
  {
    TargetExists(l, chain, fates);
    hide Next, Prev, Head, Turning, Settle, Spells, Apart, SettleAll, Exists, AllForget;
    var k, m := FirstKept(l, chain, fates);
    var g, q, rest, later := chain[k], fates[k].queue, chain[k..], fates[k..];
    HomeFrom(lists, chain, fates, k);
    hide Home;
    HomeTail(lists, rest, later);
    var n := TurnStep(m, rest, later);
    TargetExists(m, rest, later);
    PushEffect(m, q, g);
    SettleTo(m, g, later[0]);
    if q == Other {
      Entangled(n, rest[1..], later[1..], g, g, lists, Other, Other);
    } else {
      Stray(n, rest[1..], later[1..], g, q, lists);
    }
  }

  lemma {:induction false} SettledMembers(lists: Lists, chain: seq<Route>, fates: seq<Fate>)
    requires |fates| == |chain|
    ensures SettledAll(lists, chain, fates).Keys == lists.Keys
    ensures forall q, x :: q in lists && x in lists[q] ==> x in SettledAll(lists, chain, fates)[q]
    ensures (forall i :: 0 <= i < |fates| && fates[i].To? ==> fates[i].queue in lists)
      ==> Home(SettledAll(lists, chain, fates), chain, fates)
    decreases |chain|
  {
    if chain != [] {
      var after := Settled(lists, chain[0], fates[0]);
      var t := SettledAll(after, chain[1..], fates[1..]);
      SettledMembers(after, chain[1..], fates[1..]);
      assert after.Keys == lists.Keys;
      if forall i :: 0 <= i < |fates| && fates[i].To? ==> fates[i].queue in lists {
        forall i | 0 <= i < |chain| && fates[i].To?
          ensures fates[i].queue in t && chain[i] in t[fates[i].queue]
        {
          if i > 0 { assert chain[i] == chain[1..][i - 1] && fates[i] == fates[1..][i - 1]; }
        }
      }
    }
  }

  // ----- the exact condition

  /** The records that are forgotten are the last of the chain, and where the record before them
      went, or on the list of unsuppressed routes if there is none, no other record is. */
  ghost predicate Clean(lists: Lists, chain: seq<Route>, fates: seq<Fate>, last: Option<Queue>)
    requires |fates| == |chain|
    decreases |fates|
  {
    if fates == [] then true
    else if fates[0].To? then
      Clean(Settled(lists, chain[0], fates[0]), chain[1..], fates[1..], Some(fates[0].queue))
    else
      AllForget(fates) && Roomy(lists, last)
  }

  ghost predicate Roomy(lists: Lists, last: Option<Queue>) {
    match last
    case None => Other in lists && lists[Other] == []
    case Some(q) => q in lists && |lists[q]| == 1
  }

  /** Where the rest of the chain hangs: nowhere, or at the record put on a list just before. */
  ghost predicate Hangs(l: Links, lists: Lists, chain: seq<Route>, last: Option<Queue>) {
    chain != [] ==>
      match last
      case None => Prev(l, chain[0]) == None
      case Some(q) => q in lists && lists[q] != [] && Prev(l, chain[0]) == Some(lists[q][0])
  }

  ghost predicate Loose(lists: Lists, chain: seq<Route>) {
    forall q, r :: q in lists && r in chain ==> r !in lists[q]
  }

  ghost predicate Queues(lists: Lists, fates: seq<Fate>) {
    Other in lists && forall i :: 0 <= i < |fates| && fates[i].To? ==> fates[i].queue in lists
  }

  /** The same records on every list, in any order. */
  ghost predicate Same(a: Lists, b: Lists) {
    a.Keys == b.Keys && forall q, r :: q in a ==> (r in a[q] <==> r in b[q])
  }

  ghost predicate Underway(l: Links, lists: Lists, chain: seq<Route>, fates: seq<Fate>, last: Option<Queue>) {
    && Turning(l, chain, fates) && Spells(l, lists) && Apart(lists) && Queues(lists, fates)
    && Loose(lists, chain) && Hangs(l, lists, chain, last)
  }

  lemma LooseHead(lists: Lists, chain: seq<Route>)
    requires chain != [] && Loose(lists, chain)
    ensures OnNone(lists, chain[0])
  {
    assert chain[0] in chain;
  }

  lemma LooseTail(lists: Lists, chain: seq<Route>, q: Queue)
    requires chain != [] && Loose(lists, chain) && q in lists && chain[0] !in chain[1..]
    ensures Loose(Added(lists, q, chain[0]), chain[1..])
  {
    var after := Added(lists, q, chain[0]);
    assert forall x :: x in after[q] <==> x == chain[0] || x in lists[q];
    assert forall x :: x in chain[1..] ==> x in chain;
  }

  lemma UnderwayStep(l: Links, lists: Lists, chain: seq<Route>, fates: seq<Fate>, last: Option<Queue>)
    requires chain != [] && Underway(l, lists, chain, fates, last) && |fates| == |chain| && fates[0].To?
    ensures Underway(Settle(l, chain[0], fates[0]), Settled(lists, chain[0], fates[0]), chain[1..], fates[1..],
                     Some(fates[0].queue))
  {
    var q := fates[0].queue;
    hide Turning, Spells, Apart, Settle, Push, Prev, Loose, OnNone;
    LooseHead(lists, chain);
    PushSpells(l, lists, q, chain[0]);
    SettleTo(l, chain[0], fates[0]);
    var m := TurnStep(l, chain, fates);
    LooseTail(lists, chain, q);
  }

  /** Some lists with the given members fit the links. */
  ghost predicate Fits(l: Links, any: Lists, goal: Lists) {
    Apart(any) && Same(any, goal) && Spells(l, any)
  }

  /** The turn leaves the lists it should exactly if it is clean, and no others otherwise. */
  lemma {:induction false} TurnExact(l: Links, lists: Lists, chain: seq<Route>, fates: seq<Fate>, last: Option<Queue>,
                                     any: Lists)
    requires Underway(l, lists, chain, fates, last) && |fates| == |chain|
    ensures Clean(lists, chain, fates, last) ==> Spells(SettleAll(l, chain, fates), SettledAll(lists, chain, fates))
    ensures !Clean(lists, chain, fates, last) ==> !Fits(SettleAll(l, chain, fates), any, SettledAll(lists, chain, fates))
    decreases |chain|
  {
    if chain == [] {
      assert Spells(l, lists);
    } else if fates[0].To? {
      hide Underway, Spells, Fits, Settle, Settled, Roomy, AllForget;
      UnderwayStep(l, lists, chain, fates, last);
      TurnExact(Settle(l, chain[0], fates[0]), Settled(lists, chain[0], fates[0]), chain[1..], fates[1..],
                Some(fates[0].queue), any);
    } else {
      hide Underway, Spells, Fits, SettleAll, SettledAll, Roomy, AllForget;
      if !AllForget(fates) {
        Interrupted(l, lists, chain, fates, last, any);
      } else {
        NothingSettled(lists, chain, fates);
        if Roomy(lists, last) {
          ForgottenKeeps(l, lists, chain, fates, last);
        } else {
          ForgottenLoses(l, lists, chain, fates, last, any);
        }
      }
    }
  }

  lemma {:induction false} NothingSettled(lists: Lists, chain: seq<Route>, fates: seq<Fate>)
    requires |fates| == |chain| && AllForget(fates)
    ensures SettledAll(lists, chain, fates) == lists
    decreases |chain|
  {
    if chain != [] { NothingSettled(lists, chain[1..], fates[1..]); }
  }

  lemma ForgottenKeeps(l: Links, lists: Lists, chain: seq<Route>, fates: seq<Fate>, last: Option<Queue>)
    requires Underway(l, lists, chain, fates, last) && chain != [] && AllForget(fates) && Roomy(lists, last)
    ensures |fates| == |chain| && Spells(SettleAll(l, chain, fates), lists)
  {
    TargetExists(l, chain, fates);
    Forgotten(l, chain, fates);
    var t := SettleAll(l, chain, fates);
    LastAlone(l, lists, chain, last);
    hide Turning, SettleAll, Next, Prev, Head, Exists, Chained, Apart;
    forall q | q in lists
      ensures Exists(t, q) && Head(t, q) == At(lists[q], 0) && Chained(t, lists[q])
    {
      assert forall x :: x in lists[q] ==> x !in chain;
      Untouched(l, t, lists[q]);
    }
  }

  lemma LastAlone(l: Links, lists: Lists, chain: seq<Route>, last: Option<Queue>)
    requires chain != [] && Spells(l, lists) && Hangs(l, lists, chain, last) && Roomy(lists, last)
    ensures forall x :: Prev(l, chain[0]) == Some(x) ==> Next(l, x) == None
    ensures Prev(l, chain[0]) == None ==> Head(l, Other) == None
  {
    hide Next, Prev, Head, Exists;
    if last.Some? {
      var s := lists[last.value];
      assert Next(l, s[0]) == At(s, 1);
    }
  }

  lemma ForgottenLoses(l: Links, lists: Lists, chain: seq<Route>, fates: seq<Fate>, last: Option<Queue>, any: Lists)
    requires Underway(l, lists, chain, fates, last) && chain != [] && AllForget(fates) && !Roomy(lists, last)
    ensures |fates| == |chain| && !Fits(SettleAll(l, chain, fates), any, lists)
  {
    TargetExists(l, chain, fates);
    Forgotten(l, chain, fates);
    var t := SettleAll(l, chain, fates);
    hide Turning, SettleAll, Next, Prev, Head, Exists, Apart;
    if Fits(t, any, lists) {
      match last
      case None =>
      case Some(q) =>
        var s := lists[q];
        assert s[1] in s && s[0] in s && Prev(l, s[1]) == At(s, 0);
        hide Spells;
        PrevIsMutual(t, any, q, s[0], s[1]);
    }
  }

  lemma Interrupted(l: Links, lists: Lists, chain: seq<Route>, fates: seq<Fate>, last: Option<Queue>, any: Lists)
    requires Underway(l, lists, chain, fates, last) && chain != [] && |fates| == |chain|
    requires fates[0].Forget? && !AllForget(fates)
    ensures !Fits(SettleAll(l, chain, fates), any, SettledAll(lists, chain, fates))
  {
    var t, goal := SettleAll(l, chain, fates), SettledAll(lists, chain, fates);
    SettledMembers(lists, chain, fates);
    hide Turning, SettleAll, SettledAll, Next, Prev, Head, Exists, Apart, Spells, AllForget;
    if Fits(t, any, goal) {
      assert Home(any, chain, fates);
      hide Home;
      match last
      case None =>
        NoneFit(l, chain, fates, any);
      case Some(q) =>
        var a := lists[q][0];
        assert a in lists[q];
        var b := Bridged(l, chain, fates, a);
        NextIsMutual(t, any, q, a, b);
    }
  }

  // ----- the condition as one can check it before the turn

  /** The first `k` records of the chain are kept and the others forgotten; if any are forgotten,
      the record before them goes to a list where no other record is. */
  ghost predicate CleanAt(lists: Lists, fates: seq<Fate>, last: Option<Queue>, k: nat) {
    && k <= |fates|
    && (forall i :: 0 <= i < k ==> fates[i].To?)
    && (forall i :: k <= i < |fates| ==> fates[i].Forget?)
    && (k < |fates| ==> if k == 0 then Roomy(lists, last) else Lone(lists, fates, k - 1))
  }

  ghost predicate Lone(lists: Lists, fates: seq<Fate>, j: nat)
    requires j < |fates| && fates[j].To?
  {
    fates[j].queue in lists && lists[fates[j].queue] == [] && forall i :: 0 <= i < j ==> fates[i] != fates[j]
  }

  lemma {:induction false} CleanIs(lists: Lists, chain: seq<Route>, fates: seq<Fate>, last: Option<Queue>)
    requires |fates| == |chain| && Queues(lists, fates)
    ensures Clean(lists, chain, fates, last) <==> exists k :: CleanAt(lists, fates, last, k)
    decreases |fates|
  {
    if fates == [] {
      assert CleanAt(lists, fates, last, 0);
    } else if fates[0].Forget? {
      if Clean(lists, chain, fates, last) { assert CleanAt(lists, fates, last, 0); }
    } else {
      var after, last', rest := Settled(lists, chain[0], fates[0]), Some(fates[0].queue), fates[1..];
      assert Queues(after, rest);
      CleanIs(after, chain[1..], rest, last');
      assert Clean(lists, chain, fates, last) == Clean(after, chain[1..], rest, last');
      NotAtOnce(lists, fates, last);
      hide Clean, CleanAt, Settled;
      if k: nat :| CleanAt(after, rest, last', k) {
        CleanShift(lists, chain[0], fates, last, k);
      }
      if k: nat :| CleanAt(lists, fates, last, k) {
        CleanShift(lists, chain[0], fates, last, k - 1);
      }
    }
  }

  lemma NotAtOnce(lists: Lists, fates: seq<Fate>, last: Option<Queue>)
    requires fates != [] && fates[0].To?
    ensures !CleanAt(lists, fates, last, 0)
  {
  }

  lemma CleanShift(lists: Lists, r: Route, fates: seq<Fate>, last: Option<Queue>, k: nat)
    requires fates != [] && fates[0].To? && Queues(lists, fates)
    ensures CleanAt(Settled(lists, r, fates[0]), fates[1..], Some(fates[0].queue), k) <==> CleanAt(lists, fates, last, k + 1)
  {
    var after, rest := Settled(lists, r, fates[0]), fates[1..];
    assert forall i :: 0 <= i < |rest| ==> rest[i] == fates[i + 1];
    if 0 < k < |rest| && rest[k - 1].To? {
      assert Lone(after, rest, k - 1) <==> Lone(lists, fates, k) by {
        LoneShift(lists, r, fates, k - 1);
      }
    }
    hide Lone;
    if CleanAt(after, rest, Some(fates[0].queue), k) {
      assert forall i :: 1 <= i < k + 1 ==> fates[i] == rest[i - 1];
      assert forall i :: k + 1 <= i < |fates| ==> fates[i] == rest[i - 1];
    }
  }

  lemma LoneShift(lists: Lists, r: Route, fates: seq<Fate>, j: nat)
    requires fates != [] && fates[0].To? && Queues(lists, fates) && j + 1 < |fates| && fates[j + 1].To?
    ensures Lone(Settled(lists, r, fates[0]), fates[1..], j) <==> Lone(lists, fates, j + 1)
  {
    var after, rest := Settled(lists, r, fates[0]), fates[1..];
    if Lone(after, rest, j) {
      forall i | 0 <= i < j + 1 ensures fates[i] != fates[j + 1] {
        if i > 0 { assert rest[i - 1] == fates[i]; }
      }
    }
    if Lone(lists, fates, j + 1) {
      assert forall i :: 0 <= i < j ==> rest[i] == fates[i + 1] && fates[i + 1] != fates[j + 1];
    }
  }
}
