/** Damping as coded: records linked into lists, the steps on them, and runs. */
module DampingTable {
  import opened Options
  import opened Sequences
  import opened Damping
  import opened DampingLinks

  datatype Coded = Coded(records: map<Route, Record>, links: Links, offset: nat)

  function ListOf(s: State, q: Queue): seq<Route> {
    match q
    case Other => s.noReuse
    case Slot(i) => if i < |s.reuse| then s.reuse[i] else []
  }

  ghost function QueuesOf(size: nat): set<Queue> { {Other} + set i | 0 <= i < size :: Slot(i) }

  ghost function ListsOf(s: State): Lists {
    map q | q in QueuesOf(|s.reuse|) :: ListOf(s, q)
  }

  /** The links spell the lists of the state. */
  ghost predicate Linked(c: Coded, s: State) {
    && c.records == s.records && c.offset == s.offset
    && |c.links.heads| == |s.reuse| && Spells(c.links, ListsOf(s))
  }

  /** A record is on the list it belongs to and on no other. */
  lemma OnItsList(s: State, loose: set<Route>, q: Queue, r: Route)
    requires Placed(s, loose) && q in ListsOf(s)
    ensures r in ListsOf(s)[q] <==>
      r in s.records && r !in loose
      && if s.records[r].damped then q.Slot? && q.index == s.records[r].index else q == Other
  {
    hide NoRepeats;
    if q.Slot? { assert ListsOf(s)[q] == s.reuse[q.index]; }
  }

  lemma PlacedApart(s: State, loose: set<Route>)
    requires Placed(s, loose)
    ensures Apart(ListsOf(s))
  {
    var lists := ListsOf(s);
    forall q | q in lists ensures NoRepeats(lists[q]) {
      if q.Slot? { assert lists[q] == s.reuse[q.index]; }
    }
    hide NoRepeats, Placed, ListsOf;
    forall q, k, r | q in lists && k in lists && r in lists[q] && r in lists[k] ensures q == k {
      OnItsList(s, loose, q, r);
      OnItsList(s, loose, k, r);
    }
  }

  // ----- the four steps

  /** Puts a record on the reuse list of its penalty. */
  function Ringed(cfg: Config, c: Coded, r: Route): Coded
    requires r in c.records && cfg.size > 0
  {
    var i := SlotOf(cfg, c.offset, c.records[r].penalty);
    Coded(c.records[r := c.records[r].(index := i)], Push(c.links, Slot(i), r), c.offset)
  }

  function Attached(cfg: Config, c: Coded, r: Route): Coded
    requires r in c.records && cfg.size > 0
  {
    if c.records[r].damped then Ringed(cfg, c, r) else c.(links := Push(c.links, Other, r))
  }

  function Detached(c: Coded, r: Route): Coded
    requires r in c.records
  {
    if c.records[r].damped then
      if c.records[r].index >= 0 then c.(links := Unlink(c.links, Slot(c.records[r].index), r)) else c
    else c.(links := Unlink(c.links, Other, r))
  }

  function Kept(c: Coded, r: Route, rec: Record): Coded {
    c.(records := c.records[r := rec])
  }

  function Freed(c: Coded, r: Route): Coded
    requires r in c.records
  {
    var off := Detached(c, r);
    off.(records := off.records - {r})
  }

  function QueueFor(cfg: Config, s: State, r: Route): Queue
    requires r in s.records && cfg.size > 0
  {
    if s.records[r].damped then Slot(SlotOf(cfg, s.offset, s.records[r].penalty)) else Other
  }

  lemma ListsAttach(cfg: Config, s: State, r: Route)
    requires r in s.records && cfg.size > 0 && |s.reuse| == cfg.size
    ensures QueueFor(cfg, s, r) in ListsOf(s)
    ensures ListsOf(Attach(cfg, s, r)) == Added(ListsOf(s), QueueFor(cfg, s, r), r)
  {
  }

  lemma ListsDetach(s: State, r: Route, loose: set<Route>)
    requires Placed(s, loose) && r in s.records && r !in loose
    ensures var q := if s.records[r].damped then Slot(s.records[r].index) else Other;
      q in ListsOf(s) && r in ListsOf(s)[q] && ListsOf(Detach(s, r)) == ListsOf(s)[q := Without(ListsOf(s)[q], r)]
  {
    hide Without, NoRepeats;
  }

  lemma LooseOnNone(s: State, r: Route, loose: set<Route>)
    requires Placed(s, loose) && r in loose
    ensures OnNone(ListsOf(s), r) && r in s.records
  {
    hide NoRepeats;
  }

  lemma AttachLinked(cfg: Config, c: Coded, s: State, r: Route, loose: set<Route>)
    requires Linked(c, s) && Placed(s, loose) && r in loose && cfg.size > 0 && |s.reuse| == cfg.size
    ensures r in s.records && Linked(Attached(cfg, c, r), Attach(cfg, s, r))
  {
    hide Spells, Push, Placed, Apart, OnNone, ListsOf, Added;
    PlacedApart(s, loose);
    LooseOnNone(s, r, loose);
    ListsAttach(cfg, s, r);
    PushSpells(c.links, ListsOf(s), QueueFor(cfg, s, r), r);
    PushSize(c.links, QueueFor(cfg, s, r), r);
  }

  lemma PushSize(l: Links, q: Queue, r: Route)
    ensures |Push(l, q, r).heads| == |l.heads|
  {
  }

  lemma UnlinkSize(l: Links, q: Queue, r: Route)
    ensures |Unlink(l, q, r).heads| == |l.heads|
  {
  }

  lemma DetachLinked(c: Coded, s: State, r: Route, loose: set<Route>)
    requires Linked(c, s) && Placed(s, loose) && r in s.records && r !in loose
    ensures Linked(Detached(c, r), Detach(s, r))
  {
    ListsDetach(s, r, loose);
    PlacedApart(s, loose);
    hide Spells, Unlink, Placed, Apart, Without, ListsOf, Detach;
    var q := if s.records[r].damped then Slot(s.records[r].index) else Other;
    UnlinkSpells(c.links, ListsOf(s), q, r);
    UnlinkSize(c.links, q, r);
    DetachRecords(c, s, r);
  }

  lemma KeptLinked(c: Coded, s: State, r: Route, rec: Record)
    requires Linked(c, s)
    ensures Linked(Kept(c, r, rec), Put(s, r, rec))
  {
    hide Spells;
    assert ListsOf(Put(s, r, rec)) == ListsOf(s);
  }

  lemma FreedLinked(c: Coded, s: State, r: Route)
    requires Linked(c, s) && Placed(s, {}) && r in s.records
    ensures Linked(Freed(c, r), Free(s, r))
  {
    hide Spells, Placed, Detach, Detached;
    DetachLinked(c, s, r, {});
    DetachRecords(c, s, r);
    ListsDrop(Detach(s, r), Detach(s, r).records - {r});
    hide ListsOf;
  }

  lemma ListsDrop(s: State, records: map<Route, Record>)
    ensures ListsOf(s.(records := records)) == ListsOf(s)
  {
  }

  lemma DetachRecords(c: Coded, s: State, r: Route)
    requires r in s.records && r in c.records
    ensures Detach(s, r).records == s.records && Detached(c, r).records == c.records
    ensures Detach(s, r).offset == s.offset && Detached(c, r).offset == c.offset && |Detach(s, r).reuse| == |s.reuse|
  {
  }

  /** A record taken off its list, changed and put back. */
  lemma MoveLinked(cfg: Config, c: Coded, s: State, r: Route, rec: Record)
    requires Shaped(cfg, s) && Linked(c, s) && Placed(s, {}) && r in s.records
    ensures Linked(Attached(cfg, Kept(Detached(c, r), r, rec), r), Attach(cfg, Put(Detach(s, r), r, rec), r))
  {
    DetachLinked(c, s, r, {});
    DetachPlaced(s, r, {});
    DetachRecords(c, s, r);
    hide Spells, Placed, Detach, Detached, Linked, Attach, Attached;
    assert {} + {r} == {r} && {r} + {r} == {r};
    PutLoosePlaced(Detach(s, r), r, rec, {r});
    KeptLinked(Detached(c, r), Detach(s, r), r, rec);
    AttachLinked(cfg, Kept(Detached(c, r), r, rec), Put(Detach(s, r), r, rec), r, {r});
  }

  lemma NewLinked(cfg: Config, c: Coded, s: State, r: Route, rec: Record)
    requires Shaped(cfg, s) && Linked(c, s) && Placed(s, {}) && r !in s.records
    ensures Linked(Attached(cfg, Kept(c, r, rec), r), Attach(cfg, Put(s, r, rec), r))
  {
    hide Spells, Placed, Linked, Attach, Attached;
    assert {} + {r} == {r};
    PutLoosePlaced(s, r, rec, {});
    KeptLinked(c, s, r, rec);
    AttachLinked(cfg, Kept(c, r, rec), Put(s, r, rec), r, {r});
  }

  /** A route becomes unreachable. */
  function CodedWithdraw(cfg: Config, c: Coded, r: Route, now: int, attrChange: bool): (Coded, bool)
    requires ConfigOk(cfg)
  {
    var before := if r in c.records then c else c.(links := Push(c.links, Other, r));
    var rec :=
      if r !in c.records then Record(Amount(attrChange), 1, now, 0, -1, false, true, true)
      else
        var was := c.records[r];
        was.(penalty := Min(Decay(cfg, now - was.updated, was.penalty) + Amount(attrChange), cfg.ceiling),
             flap := was.flap + 1, updated := now, history := true, withdrawn := true);
    if rec.damped then
      if rec.penalty != before.records[r].penalty
      then (Attached(cfg, Kept(Detached(before, r), r, rec), r), true)
      else (Kept(before, r, rec), true)
    else if rec.penalty >= cfg.suppress then
      var off := Detached(Kept(before, r, rec), r);
      (Attached(cfg, Kept(off, r, rec.(damped := true, suppressed := now)), r), false)
    else (Kept(before, r, rec), false)
  }

  /** A route is announced again. */
  function CodedUpdate(cfg: Config, c: Coded, r: Route, now: int): (Coded, bool)
    requires ConfigOk(cfg)
  {
    if r !in c.records then (c, false)
    else
      var was := c.records[r];
      var rec := was.(history := false, withdrawn := false, penalty := Decay(cfg, now - was.updated, was.penalty));
      var released := was.damped && rec.penalty < cfg.reuse;
      var kept := if released
                  then Attached(cfg, Kept(Detached(c, r), r, rec.(damped := false, suppressed := 0)), r)
                  else Kept(c, r, rec);
      var suppressed := !released && !(!was.damped && rec.penalty < cfg.suppress);
      if 2 * rec.penalty > cfg.reuse
      then (Kept(kept, r, kept.records[r].(updated := now)), suppressed)
      else (Freed(kept, r), suppressed)
  }

  function CodedScan(cfg: Config, c: Coded, r: Route, now: int): (Coded, bool)
    requires ConfigOk(cfg) && r in c.records
  {
    var was := c.records[r];
    if was.damped then
      if now - was.suppressed >= cfg.maxSuppress
      then
        (Attached(cfg, Kept(Detached(c, r), r,
                            was.(damped := false, penalty := cfg.reuse, suppressed := 0, updated := now)), r),
         !was.withdrawn)
      else (c, false)
    else
      var rec := was.(penalty := Decay(cfg, now - was.updated, was.penalty));
      if 2 * rec.penalty <= cfg.reuse then (Freed(Kept(c, r, rec), r), false)
      else (Kept(c, r, rec.(updated := now)), false)
  }

  /** A new record is put on the list of unsuppressed routes and, if it is suppressed at once,
      taken off again. */
  lemma NewSuppressedLinked(cfg: Config, c: Coded, s: State, r: Route, rec: Record, after: Record)
    requires Shaped(cfg, s) && Linked(c, s) && Placed(s, {}) && r !in s.records && !rec.damped
    ensures var on := Kept(c.(links := Push(c.links, Other, r)), r, rec);
      Linked(Attached(cfg, Kept(Detached(on, r), r, after), r), Attach(cfg, Put(s, r, after), r))
  {
    var on, s' := Kept(c.(links := Push(c.links, Other, r)), r, rec), Attach(cfg, Put(s, r, rec), r);
    assert on == Attached(cfg, Kept(c, r, rec), r);
    NewLinked(cfg, c, s, r, rec);
    NewPlaced(cfg, s, r, rec);
    MoveLinked(cfg, on, s', r, after);
    assert r !in s.noReuse;
    WithoutFirst(s.noReuse, r);
    Overwrite(s.records, r, rec, after);
    assert Put(Detach(s', r), r, after) == Put(s, r, after);
  }

  lemma Overwrite(m: map<Route, Record>, r: Route, a: Record, b: Record)
    ensures m[r := a][r := b] == m[r := b]
  {
  }

  lemma KnownWithdrawLinked(cfg: Config, c: Coded, s: State, r: Route, now: int, attrChange: bool)
    requires ConfigOk(cfg) && Inv(cfg, s) && Linked(c, s) && r in s.records
    ensures Linked(CodedWithdraw(cfg, c, r, now, attrChange).0, Withdraw(cfg, s, r, now, attrChange).0)
    ensures CodedWithdraw(cfg, c, r, now, attrChange).1 == Withdraw(cfg, s, r, now, attrChange).1
  {
    hide Linked, Placed, Attach, Attached, Detach, Detached, Decay, Min, Amount, SlotOf;
    LinkedRecords(c, s);
    var rec := Flapped(cfg, s, r, now, attrChange);
    var damped := rec.(damped := true, suppressed := now);
    KeptLinked(c, s, r, rec);
    MoveLinked(cfg, c, s, r, rec);
    MoveLinked(cfg, c, s, r, damped);
    DetachSame(c, r, rec, damped);
  }

  lemma NewWithdrawLinked(cfg: Config, c: Coded, s: State, r: Route, now: int, attrChange: bool)
    requires ConfigOk(cfg) && Inv(cfg, s) && Linked(c, s) && r !in s.records
    ensures Linked(CodedWithdraw(cfg, c, r, now, attrChange).0, Withdraw(cfg, s, r, now, attrChange).0)
    ensures CodedWithdraw(cfg, c, r, now, attrChange).1 == Withdraw(cfg, s, r, now, attrChange).1
  {
    hide Linked, Placed, Detach, Detached, Decay, Min, Amount, Attach, Push, SlotOf;
    LinkedRecords(c, s);
    var rec := Flapped(cfg, s, r, now, attrChange);
    NewLinked(cfg, c, s, r, rec);
    NewSuppressedLinked(cfg, c, s, r, rec, rec.(damped := true, suppressed := now));
  }

  lemma WithdrawLinked(cfg: Config, c: Coded, s: State, r: Route, now: int, attrChange: bool)
    requires ConfigOk(cfg) && Inv(cfg, s) && Linked(c, s)
    ensures Linked(CodedWithdraw(cfg, c, r, now, attrChange).0, Withdraw(cfg, s, r, now, attrChange).0)
    ensures CodedWithdraw(cfg, c, r, now, attrChange).1 == Withdraw(cfg, s, r, now, attrChange).1
  {
    hide Linked, CodedWithdraw, Withdraw, ConfigOk;
    if r in s.records {
      KnownWithdrawLinked(cfg, c, s, r, now, attrChange);
    } else {
      NewWithdrawLinked(cfg, c, s, r, now, attrChange);
    }
  }

  lemma LinkedRecords(c: Coded, s: State)
    requires Linked(c, s)
    ensures c.records == s.records && c.offset == s.offset && |c.links.heads| == |s.reuse|
  {
  }

  /** A record that keeps its flag and index is taken off the same list before and after. */
  lemma DetachSame(c: Coded, r: Route, rec: Record, after: Record)
    requires r in c.records && rec.damped == c.records[r].damped && rec.index == c.records[r].index
    ensures Kept(Detached(Kept(c, r, rec), r), r, after) == Kept(Detached(c, r), r, after)
  {
    Overwrite(c.records, r, rec, after);
  }

  lemma UpdateLinked(cfg: Config, c: Coded, s: State, r: Route, now: int)
    requires ConfigOk(cfg) && Inv(cfg, s) && Linked(c, s)
    ensures var (d, answer) := CodedUpdate(cfg, c, r, now);
      var (t, expected) := Update(cfg, s, r, now);
      Linked(d, t) && answer == expected
  {
    hide Linked, Placed, Detach, Detached, Free, Freed, Decay;
    LinkedRecords(c, s);
    if r in s.records {
      var was := s.records[r];
      var rec := was.(history := false, withdrawn := false, penalty := Decay(cfg, now - was.updated, was.penalty));
      var moved := rec.(damped := false, suppressed := 0);
      KeptLinked(c, s, r, rec);
      PutSamePlaced(s, r, rec, {});
      MoveLinked(cfg, c, s, r, moved);
      MovePlaced(cfg, s, r, moved);
      var released := was.damped && rec.penalty < cfg.reuse;
      var kept := if released then Attached(cfg, Kept(Detached(c, r), r, moved), r) else Kept(c, r, rec);
      var s' := if released then Attach(cfg, Put(Detach(s, r), r, moved), r) else Put(s, r, rec);
      LinkedRecords(kept, s');
      KeptLinked(kept, s', r, kept.records[r].(updated := now));
      FreedLinked(kept, s', r);
    }
  }

  lemma ScanLinked(cfg: Config, c: Coded, s: State, r: Route, now: int)
    requires ConfigOk(cfg) && Inv(cfg, s) && Linked(c, s) && r in s.records
    ensures var (d, answer) := CodedScan(cfg, c, r, now);
      var (t, expected) := Scan(cfg, s, r, now);
      Linked(d, t) && answer == expected
  {
    hide Linked, Placed, Detach, Detached, Free, Freed, Attach, Attached, Decay;
    LinkedRecords(c, s);
    var was := s.records[r];
    MoveLinked(cfg, c, s, r, was.(damped := false, penalty := cfg.reuse, suppressed := 0, updated := now));
    var rec := was.(penalty := Decay(cfg, now - was.updated, was.penalty));
    KeptLinked(c, s, r, rec);
    PutSamePlaced(s, r, rec, {});
    KeptLinked(c, s, r, rec.(updated := now));
    FreedLinked(Kept(c, r, rec), Put(s, r, rec), r);
  }

  // ----- the timer

  /** What the decayed penalty of a record decides. */
  function FateOf(cfg: Config, s: State, r: Route, now: int): Fate
    requires ConfigOk(cfg)
  {
    if r !in s.records then Forget
    else
      var penalty := Decay(cfg, now - s.records[r].updated, s.records[r].penalty);
      if penalty >= cfg.reuse then To(Slot(SlotOf(cfg, s.offset, penalty)))
      else if 2 * penalty <= cfg.reuse then Forget
      else To(Other)
  }

  function Fates(cfg: Config, s: State, chain: seq<Route>, now: int): seq<Fate>
    requires ConfigOk(cfg)
  {
    seq(|chain|, i requires 0 <= i < |chain| => FateOf(cfg, s, chain[i], now))
  }

  /** One record of the chain.  Its route is released before the record is freed, so freeing
      deletes it from the list of unsuppressed routes, where it is not. */
  function CodedOne(cfg: Config, c: Coded, r: Route, now: int): Coded
    requires ConfigOk(cfg) && r in c.records
  {
    var was := c.records[r];
    var rec := was.(penalty := Decay(cfg, now - was.updated, was.penalty), updated := now);
    if rec.penalty >= cfg.reuse then
      var i := SlotOf(cfg, c.offset, rec.penalty);
      Coded(c.records[r := rec.(index := i)], Push(c.links, Slot(i), r), c.offset)
    else if 2 * rec.penalty <= cfg.reuse then
      Coded(c.records - {r}, Unlink(c.links, Other, r), c.offset)
    else
      var free := rec.(damped := false, suppressed := 0, history := rec.history && rec.withdrawn);
      Coded(c.records[r := free], Push(c.links, Other, r), c.offset)
  }

  function CodedAll(cfg: Config, c: Coded, chain: seq<Route>, now: int): Coded
    requires ConfigOk(cfg)
    decreases |chain|
  {
    if chain == [] || chain[0] !in c.records then c
    else CodedAll(cfg, CodedOne(cfg, c, chain[0], now), chain[1..], now)
  }

  /** The list whose turn it is taken off the ring. */
  function Begun(cfg: Config, c: Coded): Coded
    requires cfg.size > 0 && c.offset < |c.links.heads|
  {
    Coded(c.records, c.links.(heads := c.links.heads[c.offset := None]), (c.offset + 1) % cfg.size)
  }

  ghost predicate ChainOk(s: State, chain: seq<Route>) {
    NoRepeats(chain) && forall r :: r in chain ==> r in s.records && s.records[r].damped
  }

  lemma OneTurn(cfg: Config, c: Coded, s: State, r: Route, now: int)
    requires ConfigOk(cfg) && Shaped(cfg, s) && c.records == s.records && c.offset == s.offset
    requires r in s.records && s.records[r].damped
    ensures var d, t, fate := CodedOne(cfg, c, r, now), TimerOne(cfg, s, r, now), FateOf(cfg, s, r, now);
      && d.records == t.records && d.offset == t.offset && Shaped(cfg, t)
      && d.links == Settle(c.links, r, fate)
      && ListsOf(t) == Settled(ListsOf(s), r, fate)
  {
    hide Decay, Push, Unlink;
  }

  lemma ChainTail(cfg: Config, s: State, chain: seq<Route>, now: int)
    requires ConfigOk(cfg) && Shaped(cfg, s) && chain != [] && ChainOk(s, chain)
    ensures var t := TimerOne(cfg, s, chain[0], now);
      && chain[0] in s.records && s.records[chain[0]].damped && Shaped(cfg, t) && t.offset == s.offset
      && ChainOk(t, chain[1..])
      && Fates(cfg, s, chain, now) == [FateOf(cfg, s, chain[0], now)] + Fates(cfg, t, chain[1..], now)
  {
    var t := TimerOne(cfg, s, chain[0], now);
    TimerOneRule(cfg, s, chain[0], now);
    MembersTail(chain);
    assert chain[0] in chain && t.offset == s.offset;
    hide TimerOne, RecordRule, NoRepeats, FateOf, Fates, ConfigOk;
    forall r | r in chain[1..] ensures r in t.records && t.records[r] == s.records[r] {
      assert r in Members(chain[1..]) && Get(t, r) == Get(s, r);
    }
    FatesTail(cfg, s, t, chain, now);
  }

  lemma FatesTail(cfg: Config, s: State, t: State, chain: seq<Route>, now: int)
    requires ConfigOk(cfg) && chain != [] && t.offset == s.offset
    requires forall r :: r in chain[1..] ==> r in s.records && r in t.records && t.records[r] == s.records[r]
    ensures Fates(cfg, s, chain, now) == [FateOf(cfg, s, chain[0], now)] + Fates(cfg, t, chain[1..], now)
  {
    var rest := chain[1..];
    forall r | r in rest ensures FateOf(cfg, s, r, now) == FateOf(cfg, t, r, now) { }
    hide FateOf;
    assert forall i :: 0 <= i < |rest| ==> rest[i] == chain[i + 1] && rest[i] in rest;
    var f, g := Fates(cfg, s, chain, now), Fates(cfg, t, rest, now);
    assert forall i :: 0 <= i < |rest| ==> g[i] == f[i + 1];
  }

  /** The turn on records and links against the turn on lists. */
  lemma {:induction false} AllTurns(cfg: Config, c: Coded, s: State, chain: seq<Route>, now: int)
    requires ConfigOk(cfg) && Shaped(cfg, s) && c.records == s.records && c.offset == s.offset && ChainOk(s, chain)
    ensures var d, t, fates := CodedAll(cfg, c, chain, now), TimerAll(cfg, s, chain, now), Fates(cfg, s, chain, now);
      && d.records == t.records && d.offset == t.offset
      && d.links == SettleAll(c.links, chain, fates)
      && ListsOf(t) == SettledAll(ListsOf(s), chain, fates)
    decreases |chain|
  {
    if chain != [] {
      ChainTail(cfg, s, chain, now);
      hide CodedOne, TimerOne, FateOf, ListsOf, ChainOk, Settle, Settled, Shaped, ConfigOk;
      OneTurn(cfg, c, s, chain[0], now);
      var fates := Fates(cfg, s, chain, now);
      var t := TimerOne(cfg, s, chain[0], now);
      assert fates[0] == FateOf(cfg, s, chain[0], now) && fates[1..] == Fates(cfg, t, chain[1..], now);
      hide Fates;
      AllTurns(cfg, CodedOne(cfg, c, chain[0], now), t, chain[1..], now);
    }
  }

  ghost function Chain(s: State): seq<Route>
    requires s.offset < |s.reuse|
  {
    s.reuse[s.offset]
  }

  /** The turn leaves every record on its list: the records that are forgotten are the last of the
      chain, and the record before them goes to a list that is empty; if there is none, the list of
      unsuppressed routes is empty. */
  ghost predicate Harmless(cfg: Config, s: State, now: int)
    requires ConfigOk(cfg) && Shaped(cfg, s)
  {
    var t := Turned(cfg, s);
    exists k: nat :: CleanAt(ListsOf(t), Fates(cfg, t, Chain(s), now), None, k)
  }

  /** No record of the chain has decayed to half the reuse limit. */
  lemma NoneForgotten(cfg: Config, s: State, now: int)
    requires ConfigOk(cfg) && Shaped(cfg, s)
    requires forall r :: r in Chain(s) ==>
      r in s.records && 2 * Decay(cfg, now - s.records[r].updated, s.records[r].penalty) > cfg.reuse
    ensures Harmless(cfg, s, now)
  {
    var t := Turned(cfg, s);
    var fates := Fates(cfg, t, Chain(s), now);
    hide Decay;
    forall i | 0 <= i < |fates| ensures fates[i].To? {
      assert Chain(s)[i] in Chain(s);
    }
    assert CleanAt(ListsOf(t), fates, None, |fates|);
  }

  lemma ListsTurned(cfg: Config, s: State)
    requires Shaped(cfg, s)
    ensures Slot(s.offset) in ListsOf(s) && ListsOf(s)[Slot(s.offset)] == Chain(s)
    ensures ListsOf(Turned(cfg, s)) == ListsOf(s)[Slot(s.offset) := []]
  {
  }

  lemma BegunSpells(cfg: Config, c: Coded, s: State)
    requires Shaped(cfg, s) && Linked(c, s)
    ensures Spells(Begun(cfg, c).links, ListsOf(Turned(cfg, s)))
    ensures Chained(Begun(cfg, c).links, Chain(s))
    ensures forall q :: Head(Begun(cfg, c).links, q) == if q == Slot(s.offset) then None else Head(c.links, q)
  {
    ListsTurned(cfg, s);
    var l, m := c.links, Begun(cfg, c).links;
    var lists, after := ListsOf(s), ListsOf(Turned(cfg, s));
    hide ListsOf, Turned;
    assert forall x: Route :: Next(m, x) == Next(l, x) && Prev(m, x) == Prev(l, x);
    assert forall q :: Exists(m, q) == Exists(l, q);
    hide Next, Prev;
    Untouched(l, m, Chain(s));
    forall q | q in after
      ensures Exists(m, q) && Head(m, q) == At(after[q], 0) && Chained(m, after[q])
    {
      if q != Slot(s.offset) { Untouched(l, m, lists[q]); }
    }
  }

  lemma TurnUnderway(cfg: Config, c: Coded, s: State, now: int)
    requires ConfigOk(cfg) && Inv(cfg, s) && Linked(c, s)
    ensures var t := Turned(cfg, s);
      && t.records == s.records && t.offset == (s.offset + 1) % cfg.size
      && ChainOk(t, Chain(s)) && Shaped(cfg, t)
      && Underway(Begun(cfg, c).links, ListsOf(t), Chain(s), Fates(cfg, t, Chain(s), now), None)
  {
    hide ListsOf, Placed, Spells, Fates, Trail, Targets, Apart, NoRepeats, Next, Prev, Head, Chained, Turned,
         ChainOk, Chain, Loose, Queues, Members, ConfigOk;
    var t, chain, m := Turned(cfg, s), Chain(s), Begun(cfg, c).links;
    TurnedPlaced(cfg, s);
    BegunSpells(cfg, c, s);
    ChainLoose(s);
    ChainTrail(cfg, c, s);
    TurnedChain(cfg, s);
    PlacedApart(t, Members(chain));
    FatesQueues(cfg, t, chain, now);
    FatesTargets(cfg, t, m, chain, now);
    ListsTurned(cfg, s);
    FatesSize(cfg, t, chain, now);
    ChainHangs(m, chain);
    TurnedFields(cfg, s);
  }

  lemma TurnedFields(cfg: Config, s: State)
    requires Shaped(cfg, s)
    ensures Turned(cfg, s).records == s.records && Turned(cfg, s).offset == (s.offset + 1) % cfg.size
  {
  }

  lemma TurnedChain(cfg: Config, s: State)
    requires Shaped(cfg, s) && ChainOk(s, Chain(s))
    ensures ChainOk(Turned(cfg, s), Chain(s)) && Chain(s) == s.reuse[s.offset]
  {
  }

  lemma FatesSize(cfg: Config, s: State, chain: seq<Route>, now: int)
    requires ConfigOk(cfg)
    ensures |Fates(cfg, s, chain, now)| == |chain|
  {
  }

  lemma ChainHangs(m: Links, chain: seq<Route>)
    requires Chained(m, chain)
    ensures chain != [] ==> Prev(m, chain[0]) == None
  {
  }

  lemma ChainLoose(s: State)
    requires Placed(s, {}) && s.offset < |s.reuse|
    ensures Loose(ListsOf(s)[Slot(s.offset) := []], Chain(s)) && ChainOk(s, Chain(s))
  {
    hide NoRepeats;
    var lists := ListsOf(s);
    assert Slot(s.offset) in lists && lists[Slot(s.offset)] == Chain(s);
    forall q, r | q in lists && q != Slot(s.offset) && r in Chain(s) ensures r !in lists[q] {
      if r in lists[q] {
        OnItsList(s, {}, q, r);
        OnItsList(s, {}, Slot(s.offset), r);
      }
    }
  }

  lemma ChainTrail(cfg: Config, c: Coded, s: State)
    requires Shaped(cfg, s) && Linked(c, s) && Placed(s, {})
    ensures Trail(Begun(cfg, c).links, Chain(s))
  {
    BegunSpells(cfg, c, s);
    ChainLoose(s);
    HeadsElsewhere(cfg, c, s);
    hide Begun, ListsOf, Placed, Spells, Linked, Next, Prev, Head, Turned, Loose, Chained, NoRepeats, Chain;
    ChainedTrail(Begun(cfg, c).links, Chain(s));
  }

  lemma ChainedTrail(m: Links, chain: seq<Route>)
    requires Chained(m, chain) && NoRepeats(chain)
    requires forall q :: Head(m, q).Some? ==> Head(m, q).value !in chain
    ensures Trail(m, chain)
  {
    hide Next, Prev, Head;
    assert forall i :: 1 <= i < |chain| ==> Prev(m, chain[i]) == At(chain, i - 1);
    if chain != [] {
      assert Prev(m, chain[0]) == At(chain, -1);
      assert forall x :: x in chain[1..] ==> x in chain;
    }
  }

  lemma HeadsElsewhere(cfg: Config, c: Coded, s: State)
    requires Shaped(cfg, s) && Linked(c, s) && Placed(s, {})
    ensures forall q :: Head(Begun(cfg, c).links, q).Some? ==> Head(Begun(cfg, c).links, q).value !in Chain(s)
  {
    ListsTurned(cfg, s);
    BegunSpells(cfg, c, s);
    ChainLoose(s);
    var m, chain, lists := Begun(cfg, c).links, Chain(s), ListsOf(s);
    hide NoRepeats, Placed, Turned;
    forall q | Head(m, q).Some? ensures Head(m, q).value !in chain {
      assert q != Slot(s.offset) && q in lists && Head(c.links, q) == At(lists[q], 0);
      assert lists[q][0] in lists[q];
    }
  }

  lemma FatesQueues(cfg: Config, t: State, chain: seq<Route>, now: int)
    requires ConfigOk(cfg) && Shaped(cfg, t)
    ensures Queues(ListsOf(t), Fates(cfg, t, chain, now))
  {
    hide Decay;
  }

  lemma FatesTargets(cfg: Config, t: State, m: Links, chain: seq<Route>, now: int)
    requires ConfigOk(cfg) && Shaped(cfg, t) && |m.heads| == cfg.size
    ensures Targets(m, Fates(cfg, t, chain, now))
  {
    hide Decay;
  }

  /** The lists of two placed states with the same records have the same members. */
  lemma PlacedSame(s: State, t: State)
    requires Placed(s, {}) && Placed(t, {}) && s.records == t.records && |s.reuse| == |t.reuse|
    ensures Same(ListsOf(s), ListsOf(t))
  {
    hide NoRepeats;
    var a, b := ListsOf(s), ListsOf(t);
    assert a.Keys == b.Keys;
    hide Placed, ListsOf;
    forall q, r | q in a ensures r in a[q] <==> r in b[q] {
      OnItsList(s, {}, q, r);
      OnItsList(t, {}, q, r);
    }
  }

  ghost function CodedTimer(cfg: Config, c: Coded, s: State, now: int): Coded
    requires ConfigOk(cfg) && Shaped(cfg, s) && |c.links.heads| == cfg.size && c.offset == s.offset
  {
    CodedAll(cfg, Begun(cfg, c), Chain(s), now)
  }

  lemma TimerLinks(cfg: Config, c: Coded, s: State, now: int, any: Lists)
    requires ConfigOk(cfg) && Inv(cfg, s) && Linked(c, s)
    ensures var d, goal := CodedTimer(cfg, c, s, now), Timer(cfg, s, now);
      && d.records == goal.records && d.offset == goal.offset && |d.links.heads| == |goal.reuse| && Shaped(cfg, goal)
      && (Harmless(cfg, s, now) ==> Spells(d.links, ListsOf(goal)))
      && (!Harmless(cfg, s, now) ==> !Fits(d.links, any, ListsOf(goal)))
  {
    assert Chain(s) == s.reuse[s.offset];
    hide Fates, Chain, ListsOf, SettleAll, SettledAll, Underway, CodedAll, TimerAll, Placed, ChainOk, Spells, ConfigOk,
         CleanAt, Clean, Queues, Apart, Turned, Fits;
    var t, chain, b := Turned(cfg, s), Chain(s), Begun(cfg, c);
    var fates := Fates(cfg, t, chain, now);
    TurnUnderway(cfg, c, s, now);
    FatesSize(cfg, t, chain, now);
    AllTurns(cfg, b, t, chain, now);
    SettleSize(b.links, chain, fates);
    UnderwayClean(b.links, ListsOf(t), chain, fates);
    TurnExact(b.links, ListsOf(t), chain, fates, None, any);
    TimerShaped(cfg, s, now);
  }

  /** The turn as coded leaves the state it should exactly if it is harmless; otherwise every
      record's list cannot be told from the links at all. */
  lemma TimerExact(cfg: Config, c: Coded, s: State, now: int, any: State)
    requires ConfigOk(cfg) && Inv(cfg, s) && Linked(c, s)
    ensures Harmless(cfg, s, now) ==> Linked(CodedTimer(cfg, c, s, now), Timer(cfg, s, now))
    ensures !Harmless(cfg, s, now) ==> !(Inv(cfg, any) && Linked(CodedTimer(cfg, c, s, now), any))
  {
    hide Harmless, CodedTimer, Timer, ListsOf, Placed, Spells, Apart, Same, ConfigOk;
    TimerLinks(cfg, c, s, now, ListsOf(any));
    if Inv(cfg, any) && Linked(CodedTimer(cfg, c, s, now), any) {
      TimerPlaced(cfg, s, now);
      PlacedApart(any, {});
      PlacedSame(any, Timer(cfg, s, now));
    }
  }

  lemma UnderwayClean(l: Links, lists: Lists, chain: seq<Route>, fates: seq<Fate>)
    requires Underway(l, lists, chain, fates, None) && |fates| == |chain|
    ensures Clean(lists, chain, fates, None) <==> exists k: nat :: CleanAt(lists, fates, None, k)
  {
    hide CleanAt, Clean;
    CleanIs(lists, chain, fates, None);
  }

  lemma {:induction false} SettleSize(l: Links, chain: seq<Route>, fates: seq<Fate>)
    requires |fates| == |chain|
    ensures |SettleAll(l, chain, fates).heads| == |l.heads|
    decreases |chain|
  {
    if chain != [] { SettleSize(Settle(l, chain[0], fates[0]), chain[1..], fates[1..]); }
  }

  // ----- runs

  /** The records the timer looks at, as it follows the links while it changes them. */
  ghost predicate Visits(cfg: Config, c: Coded, at: Option<Route>, chain: seq<Route>, now: int)
    requires ConfigOk(cfg)
    decreases |chain|
  {
    if chain == [] then at == None
    else
      && at == Some(chain[0]) && chain[0] in c.records
      && Visits(cfg, CodedOne(cfg, c, chain[0], now), Next(c.links, chain[0]), chain[1..], now)
  }

  lemma {:induction false} VisitsUnique(cfg: Config, c: Coded, at: Option<Route>, a: seq<Route>, b: seq<Route>, now: int)
    requires ConfigOk(cfg) && Visits(cfg, c, at, a, now) && Visits(cfg, c, at, b, now)
    ensures a == b
    decreases |a|
  {
    if a != [] && b != [] {
      VisitsUnique(cfg, CodedOne(cfg, c, a[0], now), Next(c.links, a[0]), a[1..], b[1..], now);
      assert a == [a[0]] + a[1..] && b == [b[0]] + b[1..];
    }
  }

  /** The walk over the links meets exactly the chain, whatever it does to it. */
  lemma {:induction false} VisitsChain(cfg: Config, c: Coded, s: State, chain: seq<Route>, now: int)
    requires ConfigOk(cfg) && Shaped(cfg, s) && c.records == s.records && c.offset == s.offset && ChainOk(s, chain)
    requires |Fates(cfg, s, chain, now)| == |chain| && Turning(c.links, chain, Fates(cfg, s, chain, now))
    ensures Visits(cfg, c, At(chain, 0), chain, now)
    decreases |chain|
  {
    if chain != [] {
      ChainTail(cfg, s, chain, now);
      hide CodedOne, TimerOne, FateOf, ListsOf, ChainOk, Settle, Settled, Shaped, ConfigOk;
      OneTurn(cfg, c, s, chain[0], now);
      var fates, t := Fates(cfg, s, chain, now), TimerOne(cfg, s, chain[0], now);
      assert fates[0] == FateOf(cfg, s, chain[0], now) && fates[1..] == Fates(cfg, t, chain[1..], now);
      FatesSize(cfg, t, chain[1..], now);
      assert Next(c.links, chain[0]) == At(chain, 1) == At(chain[1..], 0);
      hide Fates, Turning;
      var m := TurnStep(c.links, chain, fates);
      VisitsChain(cfg, CodedOne(cfg, c, chain[0], now), t, chain[1..], now);
    }
  }

  ghost predicate TimerRuns(cfg: Config, c: Coded, now: int, chain: seq<Route>, d: Coded)
    requires ConfigOk(cfg)
  {
    && c.offset < |c.links.heads|
    && Visits(cfg, Begun(cfg, c), c.links.heads[c.offset], chain, now)
    && d == CodedAll(cfg, Begun(cfg, c), chain, now)
  }

  /** One step as coded. */
  ghost predicate Step(cfg: Config, c: Coded, op: Op, d: Coded)
    requires ConfigOk(cfg)
  {
    match op
    case OnWithdraw(r, now, attrChange) => d == CodedWithdraw(cfg, c, r, now, attrChange).0
    case OnUpdate(r, now) => d == CodedUpdate(cfg, c, r, now).0
    case OnScan(r, now) => d == if r in c.records then CodedScan(cfg, c, r, now).0 else c
    case OnTimer(now) => exists chain :: TimerRuns(cfg, c, now, chain, d)
  }

  lemma TimerStep(cfg: Config, c: Coded, s: State, now: int)
    requires ConfigOk(cfg) && Inv(cfg, s) && Linked(c, s)
    ensures forall d :: Step(cfg, c, OnTimer(now), d) <==> d == CodedTimer(cfg, c, s, now)
  {
    TimerBegins(cfg, c, s, now);
    LinkedIndex(cfg, c, s);
    var b, chain := Begun(cfg, c), Chain(s);
    hide Linked, Inv, Chain, Visits, Begun;
    assert TimerRuns(cfg, c, now, chain, CodedTimer(cfg, c, s, now));
    forall other, d | TimerRuns(cfg, c, now, other, d) ensures d == CodedTimer(cfg, c, s, now) {
      VisitsUnique(cfg, b, c.links.heads[c.offset], chain, other, now);
    }
  }

  lemma StepLinked(cfg: Config, c: Coded, s: State, op: Op, d: Coded)
    requires ConfigOk(cfg) && Inv(cfg, s) && Linked(c, s) && !op.OnTimer? && Step(cfg, c, op, d)
    ensures Linked(d, Exec(cfg, s, op))
  {
    LinkedRecords(c, s);
    hide Linked, Placed, CodedWithdraw, CodedUpdate, CodedScan, Withdraw, Update, Scan, ConfigOk;
    match op
    case OnWithdraw(r, now, attrChange) => WithdrawLinked(cfg, c, s, r, now, attrChange);
    case OnUpdate(r, now) => UpdateLinked(cfg, c, s, r, now);
    case OnScan(r, now) => if r in s.records { ScanLinked(cfg, c, s, r, now); }
  }

  /** Every record is on the list it belongs to, and its links say so. */
  ghost predicate Placeable(cfg: Config, c: Coded) {
    exists s :: Inv(cfg, s) && Linked(c, s)
  }

  /** A run as coded, all of whose states are placed. */
  ghost predicate RunsPlaced(cfg: Config, c: Coded, ops: seq<Op>, d: Coded)
    decreases |ops|
  {
    && Placeable(cfg, c)
    && if ops == [] then d == c
       else ConfigOk(cfg) && exists m :: Step(cfg, c, ops[0], m) && RunsPlaced(cfg, m, ops[1..], d)
  }

  /** All timer turns of the run are harmless. */
  ghost predicate HarmlessRun(cfg: Config, s: State, ops: seq<Op>)
    requires ConfigOk(cfg)
    decreases |ops|
  {
    ops == [] ||
    (Inv(cfg, s) && (ops[0].OnTimer? ==> Harmless(cfg, s, ops[0].now)) && HarmlessRun(cfg, Exec(cfg, s, ops[0]), ops[1..]))
  }

  lemma StepExists(cfg: Config, c: Coded, s: State, op: Op) returns (d: Coded)
    requires ConfigOk(cfg) && Inv(cfg, s) && Linked(c, s)
    ensures Step(cfg, c, op, d)
  {
    match op
    case OnWithdraw(r, now, attrChange) => d := CodedWithdraw(cfg, c, r, now, attrChange).0;
    case OnUpdate(r, now) => d := CodedUpdate(cfg, c, r, now).0;
    case OnScan(r, now) => d := if r in c.records then CodedScan(cfg, c, r, now).0 else c;
    case OnTimer(now) =>
      TimerStep(cfg, c, s, now);
      d := CodedTimer(cfg, c, s, now);
  }

  /** A step keeps the records placed exactly if it is not a harmful turn, and then it does what
      the step on lists does. */
  lemma StepExact(cfg: Config, c: Coded, s: State, op: Op, d: Coded)
    requires ConfigOk(cfg) && Inv(cfg, s) && Linked(c, s) && Step(cfg, c, op, d)
    ensures Inv(cfg, Exec(cfg, s, op))
    ensures Placeable(cfg, d) <==> (op.OnTimer? ==> Harmless(cfg, s, op.now))
    ensures Placeable(cfg, d) ==> Linked(d, Exec(cfg, s, op))
  {
    ExecInv(cfg, s, op);
    if op.OnTimer? {
      hide Inv, Linked, Harmless, Step, Timer;
      TimerStep(cfg, c, s, op.now);
      forall any ensures !Harmless(cfg, s, op.now) ==> !(Inv(cfg, any) && Linked(d, any)) {
        TimerExact(cfg, c, s, op.now, any);
      }
      TimerExact(cfg, c, s, op.now, s);
    } else {
      hide Inv, Linked, Harmless, Exec;
      StepLinked(cfg, c, s, op, d);
    }
  }

  lemma {:induction false} PlacedRunIsHarmless(cfg: Config, c: Coded, s: State, ops: seq<Op>, d: Coded)
    requires ConfigOk(cfg) && Inv(cfg, s) && Linked(c, s) && RunsPlaced(cfg, c, ops, d)
    ensures HarmlessRun(cfg, s, ops) && Linked(d, Run(cfg, s, ops)) && Inv(cfg, Run(cfg, s, ops))
    decreases |ops|
  {
    assert Shaped(cfg, s);
    hide Inv, Linked, Harmless, Step, Exec, ConfigOk, Placeable, Shaped;
    if ops != [] {
      var m :| Step(cfg, c, ops[0], m) && RunsPlaced(cfg, m, ops[1..], d);
      StepExact(cfg, c, s, ops[0], m);
      PlacedRunIsHarmless(cfg, m, Exec(cfg, s, ops[0]), ops[1..], d);
    }
  }

  lemma {:induction false} HarmlessRunIsPlaced(cfg: Config, c: Coded, s: State, ops: seq<Op>) returns (d: Coded)
    requires ConfigOk(cfg) && Inv(cfg, s) && Linked(c, s) && HarmlessRun(cfg, s, ops)
    ensures RunsPlaced(cfg, c, ops, d)
    decreases |ops|
  {
    assert Shaped(cfg, s) && Placeable(cfg, c);
    hide Inv, Linked, Harmless, Step, Exec, ConfigOk, Placeable, Shaped;
    d := c;
    if ops != [] {
      var m := StepExists(cfg, c, s, ops[0]);
      StepExact(cfg, c, s, ops[0], m);
      d := HarmlessRunIsPlaced(cfg, m, Exec(cfg, s, ops[0]), ops[1..]);
    }
  }

  /** Over whole runs: the coded run keeps every record on its list throughout exactly if all its
      timer turns are harmless, and it then ends where the run on lists ends. */
  lemma RunExact(cfg: Config, c: Coded, s: State, ops: seq<Op>)
    requires ConfigOk(cfg) && Inv(cfg, s) && Linked(c, s)
    ensures (exists d :: RunsPlaced(cfg, c, ops, d)) <==> HarmlessRun(cfg, s, ops)
    ensures forall d :: RunsPlaced(cfg, c, ops, d) ==> Linked(d, Run(cfg, s, ops)) && Inv(cfg, Run(cfg, s, ops))
  {
    hide Inv, Linked, RunsPlaced, HarmlessRun, Run, ConfigOk;
    forall d | RunsPlaced(cfg, c, ops, d)
      ensures HarmlessRun(cfg, s, ops) && Linked(d, Run(cfg, s, ops)) && Inv(cfg, Run(cfg, s, ops))
    {
      PlacedRunIsHarmless(cfg, c, s, ops, d);
    }
    if HarmlessRun(cfg, s, ops) {
      var d := HarmlessRunIsPlaced(cfg, c, s, ops);
    }
  }

  // ----- a run that loses a record

  function StartCoded(cfg: Config): Coded {
    Coded(map[], Links(map[], map[], seq(cfg.size, i => None), None), 0)
  }

  lemma StartLinked(cfg: Config)
    requires ConfigOk(cfg)
    ensures Inv(cfg, Start(cfg)) && Linked(StartCoded(cfg), Start(cfg))
  {
    var lists := ListsOf(Start(cfg));
    assert forall q :: q in lists ==> lists[q] == [];
  }

  /** The runs the daemon can make from time `clock` on, its timer due at `due`: time does not run
      back, a route is withdrawn only if it is not withdrawn already, and the timer comes no earlier
      than it is due and is then due again DELTA_REUSE later. */
  ghost predicate Feasible(cfg: Config, s: State, ops: seq<Op>, clock: int, due: int)
    requires ConfigOk(cfg)
    decreases |ops|
  {
    ops == [] ||
    (&& Shaped(cfg, s) && ops[0].now >= clock
     && (ops[0].OnWithdraw? && ops[0].route in s.records ==> !s.records[ops[0].route].history)
     && (ops[0].OnTimer? ==> ops[0].now >= due)
     && Feasible(cfg, Exec(cfg, s, ops[0]), ops[1..], ops[0].now,
                 if ops[0].OnTimer? then ops[0].now + DELTA_REUSE else due))
  }

  /** The timer is never late. */
  ghost predicate Timely(ops: seq<Op>, due: int)
    decreases |ops|
  {
    ops == [] ||
    if ops[0].OnTimer? then ops[0].now == due && Timely(ops[1..], due + DELTA_REUSE)
    else ops[0].now <= due && Timely(ops[1..], due)
  }

  lemma StepFeasible(cfg: Config, s: State, op: Op, ops: seq<Op>, clock: int, due: int)
    requires ConfigOk(cfg) && Inv(cfg, s) && op.now >= clock
    requires op.OnWithdraw? && op.route in s.records ==> !s.records[op.route].history
    requires op.OnTimer? ==> op.now >= due
    ensures Feasible(cfg, s, [op] + ops, clock, due) <==>
      Feasible(cfg, Exec(cfg, s, op), ops, op.now, if op.OnTimer? then op.now + DELTA_REUSE else due)
    ensures HarmlessRun(cfg, s, [op] + ops) <==>
      (op.OnTimer? ==> Harmless(cfg, s, op.now)) && HarmlessRun(cfg, Exec(cfg, s, op), ops)
    ensures Timely([op] + ops, due) <==>
      if op.OnTimer? then op.now == due && Timely(ops, due + DELTA_REUSE) else op.now <= due && Timely(ops, due)
  {
    assert Shaped(cfg, s);
    hide Exec, Harmless, Inv, Shaped, ConfigOk;
    assert ([op] + ops)[1..] == ops;
  }

  /** One suppressed route on list `j`, with the penalty of two flaps, and one unsuppressed route. */
  ghost predicate PairLists(cfg: Config, s: State, j: nat) {
    && j < cfg.size == |s.reuse|
    && (forall i :: 0 <= i < cfg.size ==> s.reuse[i] == if i == j then [0] else [])
    && s.noReuse == [1] && 0 in s.records && s.records[0].updated == 0 && s.records[0].penalty == 2 * DEFAULT_PENALTY
  }

  ghost predicate Pair(cfg: Config, s: State, j: nat) { Inv(cfg, s) && PairLists(cfg, s, j) }

  /** A route is suppressed at its second flap, and one flap is not forgotten at once. */
  ghost predicate Suppressing(cfg: Config) {
    && ConfigOk(cfg) && DEFAULT_PENALTY < cfg.suppress <= 2 * DEFAULT_PENALTY <= cfg.ceiling
    && 0 < cfg.reuse < 2 * DEFAULT_PENALTY
  }

  lemma FirstFlap(cfg: Config)
    requires Suppressing(cfg)
    ensures var t := Withdraw(cfg, Start(cfg), 0, 0, false).0;
      && t.records == map[0 := Record(1000, 1, 0, 0, -1, false, true, true)] && t.reuse == Start(cfg).reuse
      && t.noReuse == [0] && t.offset == 0
  {
    assert [0] + [] == [0];
  }

  lemma BackAgain(cfg: Config, s: State)
    requires Suppressing(cfg) && Shaped(cfg, s)
    requires s.records == map[0 := Record(1000, 1, 0, 0, -1, false, true, true)]
    ensures Update(cfg, s, 0, 0).0 == s.(records := map[0 := Record(1000, 1, 0, 0, -1, false, false, false)])
  {
  }

  lemma SecondFlap(cfg: Config, s: State)
    requires Suppressing(cfg) && Shaped(cfg, s) && s.offset == 0 && s.noReuse == [0] && s.reuse == Start(cfg).reuse
    requires s.records == map[0 := Record(1000, 1, 0, 0, -1, false, false, false)]
    ensures var t, j := Withdraw(cfg, s, 0, 0, false).0, cfg.rank(2 * DEFAULT_PENALTY) % cfg.size;
      && t.records == map[0 := Record(2000, 2, 0, 0, j, true, true, true)]
      && t.reuse == s.reuse[j := [0]] && t.noReuse == [] && t.offset == 0
  {
    assert [0][1..] == [];
    assert Flapped(cfg, s, 0, 0, false) == Record(2000, 2, 0, 0, -1, false, true, true);
    assert s.reuse[cfg.rank(2 * DEFAULT_PENALTY) % cfg.size] == [] && [0] + [] == [0];
  }

  lemma ThirdFlap(cfg: Config, s: State)
    requires Suppressing(cfg) && Shaped(cfg, s) && s.noReuse == [] && 1 !in s.records
    ensures var t := Withdraw(cfg, s, 1, 0, false).0;
      && t.noReuse == [1] && t.reuse == s.reuse && t.offset == s.offset
      && forall r :: r in s.records ==> r in t.records && t.records[r] == s.records[r]
  {
  }

  /** A route is withdrawn, announced and withdrawn again; another is withdrawn. */
  function Flaps(after: seq<Op>): seq<Op> {
    [OnWithdraw(0, 0, false)] + ([OnUpdate(0, 0)] + ([OnWithdraw(0, 0, false)] + ([OnWithdraw(1, 0, false)] + after)))
  }

  /** The list that a penalty of two flaps goes to. */
  function Last(cfg: Config): nat
    requires cfg.size > 0
  {
    cfg.rank(2 * DEFAULT_PENALTY) % cfg.size
  }

  /** The flaps leave the pair, and what follows them decides about the run. */
  lemma FlapsMakePair(cfg: Config, ops: seq<Op>) returns (t: State)
    requires Suppressing(cfg)
    ensures Pair(cfg, t, Last(cfg)) && t.offset == 0
    ensures Feasible(cfg, Start(cfg), Flaps(ops), 0, DELTA_REUSE) <==> Feasible(cfg, t, ops, 0, DELTA_REUSE)
    ensures HarmlessRun(cfg, Start(cfg), Flaps(ops)) <==> HarmlessRun(cfg, t, ops)
    ensures Timely(Flaps(ops), DELTA_REUSE) <==> Timely(ops, DELTA_REUSE)
  {
    var s, flap, back, other := Start(cfg), OnWithdraw(0, 0, false), OnUpdate(0, 0), OnWithdraw(1, 0, false);
    StartLinked(cfg);
    FirstFlap(cfg);
    hide Placed, Withdraw, Update, Rule, HarmlessRun, Feasible, Timely, ConfigOk;
    var a := Exec(cfg, s, flap);
    ExecInv(cfg, s, flap);
    BackAgain(cfg, a);
    var b := Exec(cfg, a, back);
    ExecInv(cfg, a, back);
    SecondFlap(cfg, b);
    var c := Exec(cfg, b, flap);
    ExecInv(cfg, b, flap);
    ThirdFlap(cfg, c);
    t := Exec(cfg, c, other);
    ExecInv(cfg, c, other);
    var r3 := [other] + ops;
    var r2 := [flap] + r3;
    StepFeasible(cfg, c, other, ops, 0, DELTA_REUSE);
    StepFeasible(cfg, b, flap, r3, 0, DELTA_REUSE);
    StepFeasible(cfg, a, back, r2, 0, DELTA_REUSE);
    StepFeasible(cfg, s, flap, [back] + r2, 0, DELTA_REUSE);
  }

  lemma TurnedOffset(cfg: Config, s: State)
    requires Shaped(cfg, s) && s.offset + 1 < cfg.size
    ensures Turned(cfg, s).offset == s.offset + 1
  {
  }

  lemma TurnedPair(cfg: Config, s: State, j: nat, now: int)
    requires ConfigOk(cfg) && Shaped(cfg, s) && PairLists(cfg, s, j) && s.offset < j
    ensures Timer(cfg, s, now) == Turned(cfg, s) && PairLists(cfg, Turned(cfg, s), j)
    ensures Turned(cfg, s).offset == s.offset + 1
  {
    TurnedOffset(cfg, s);
    assert s.reuse[s.offset] == [];
    var t := Turned(cfg, s);
    assert TimerAll(cfg, t, [], now) == t;
    assert t.reuse == s.reuse[s.offset := []] && t.noReuse == s.noReuse && t.records == s.records;
    hide Turned, TimerAll;
    assert forall i :: 0 <= i < cfg.size ==> t.reuse[i] == s.reuse[i];
  }

  lemma EmptyTurn(cfg: Config, s: State, j: nat, now: int)
    requires ConfigOk(cfg) && Pair(cfg, s, j) && s.offset < j
    ensures Pair(cfg, Exec(cfg, s, OnTimer(now)), j) && Exec(cfg, s, OnTimer(now)).offset == s.offset + 1
    ensures Harmless(cfg, s, now)
  {
    assert Shaped(cfg, s) && Chain(s) == [];
    hide Inv, Shaped, PairLists, Placed, Timer, Turned, Rule, RecordRule, ConfigOk, Harmless;
    NoneForgotten(cfg, s, now);
    TurnedPair(cfg, s, j, now);
    ExecInv(cfg, s, OnTimer(now));
  }

  /** The turn of the suppressed route loses the other one exactly if it forgets the first. */
  lemma PairTurn(cfg: Config, s: State, j: nat, now: int)
    requires ConfigOk(cfg) && Pair(cfg, s, j) && s.offset == j && cfg.reuse > 0
    ensures Harmless(cfg, s, now) <==> 2 * Decay(cfg, now, 2 * DEFAULT_PENALTY) > cfg.reuse
  {
    var t := Turned(cfg, s);
    assert Chain(s) == [0] && t.records == s.records;
    var fates := Fates(cfg, t, Chain(s), now);
    hide Decay;
    if 2 * Decay(cfg, now, 2 * DEFAULT_PENALTY) > cfg.reuse {
      NoneForgotten(cfg, s, now);
    } else {
      assert fates == [Forget];
      assert ListsOf(t)[Other] == [1];
      forall k: nat ensures !CleanAt(ListsOf(t), fates, None, k) {
        if k > 0 { assert fates[0].Forget?; }
      }
    }
  }

  /** `n` turns when they are due, the first of them the `k`-th, then one at time `late`. */
  function Turns(k: nat, n: nat, late: int): (ops: seq<Op>)
    ensures |ops| == n + 1
    decreases n
  {
    if n == 0 then [OnTimer(late)] else [OnTimer(DELTA_REUSE * k)] + Turns(k + 1, n - 1, late)
  }

  lemma {:induction false} TurnsDecide(cfg: Config, s: State, j: nat, k: nat, n: nat, late: int)
    requires ConfigOk(cfg) && cfg.reuse > 0 && Pair(cfg, s, j) && s.offset + n == j
    requires k > 0 && late >= DELTA_REUSE * (k + n)
    ensures Feasible(cfg, s, Turns(k, n, late), DELTA_REUSE * (k - 1), DELTA_REUSE * k)
    ensures Timely(Turns(k, n, late), DELTA_REUSE * k) <==> late == DELTA_REUSE * (k + n)
    ensures HarmlessRun(cfg, s, Turns(k, n, late)) <==> 2 * Decay(cfg, late, 2 * DEFAULT_PENALTY) > cfg.reuse
    decreases n
  {
    PairInv(cfg, s, j);
    if n == 0 {
      PairTurn(cfg, s, j, late);
      hide Exec, Pair, Inv, ConfigOk, Harmless, Decay;
      assert [OnTimer(late)] + [] == [OnTimer(late)];
      StepFeasible(cfg, s, OnTimer(late), [], DELTA_REUSE * (k - 1), DELTA_REUSE * k);
    } else {
      hide Exec, Pair, Inv, ConfigOk, Harmless, Decay, Feasible, Timely, HarmlessRun;
      var now := DELTA_REUSE * k;
      EmptyTurn(cfg, s, j, now);
      TurnsDecide(cfg, Exec(cfg, s, OnTimer(now)), j, k + 1, n - 1, late);
      StepFeasible(cfg, s, OnTimer(now), Turns(k + 1, n - 1, late), DELTA_REUSE * (k - 1), now);
    }
  }

  lemma PairInv(cfg: Config, s: State, j: nat)
    requires Pair(cfg, s, j)
    ensures Inv(cfg, s)
  {
  }

  /** The run: the flaps, then turns of the timer up to the one of the suppressed route, at `late`. */
  function PairRun(cfg: Config, late: int): seq<Op>
    requires cfg.size > 0
  {
    Flaps(Turns(1, Last(cfg), late))
  }

  /** Under every configuration that suppresses a route at its second flap: the run is one the
      daemon can make, and it keeps every record on its list exactly if the suppressed route is not
      forgotten when its turn comes. */
  lemma PairRunExact(cfg: Config, late: int)
    requires Suppressing(cfg) && late >= DELTA_REUSE * (Last(cfg) + 1)
    ensures Feasible(cfg, Start(cfg), PairRun(cfg, late), 0, DELTA_REUSE)
    ensures Timely(PairRun(cfg, late), DELTA_REUSE) <==> late == DELTA_REUSE * (Last(cfg) + 1)
    ensures (exists d :: RunsPlaced(cfg, StartCoded(cfg), PairRun(cfg, late), d)) <==>
      2 * Decay(cfg, late, 2 * DEFAULT_PENALTY) > cfg.reuse
  {
    StartLinked(cfg);
    hide Inv, Pair, RunsPlaced, Linked, Feasible, Timely, HarmlessRun, Decay, Flaps, Turns, StartCoded, Start;
    var t := FlapsMakePair(cfg, Turns(1, Last(cfg), late));
    TurnsDecide(cfg, t, Last(cfg), 1, Last(cfg), late);
    RunExact(cfg, StartCoded(cfg), Start(cfg), PairRun(cfg, late));
  }

  /** Such a configuration always has a run that loses a record: one turn of the timer is late. */
  lemma RecordIsLost(cfg: Config) returns (ops: seq<Op>)
    requires Suppressing(cfg)
    ensures Feasible(cfg, Start(cfg), ops, 0, DELTA_REUSE)
    ensures forall d :: !RunsPlaced(cfg, StartCoded(cfg), ops, d)
  {
    var due, gone := DELTA_REUSE * (Last(cfg) + 1), DELTA_T * |cfg.decay|;
    var late := if due < gone then gone else due;
    ops := PairRun(cfg, late);
    assert Decay(cfg, late, 2 * DEFAULT_PENALTY) == 0;
    hide RunsPlaced, Feasible, Timely, Decay, PairRun, Start, StartCoded;
    PairRunExact(cfg, late);
  }

  function CeilDiv(a: nat, b: nat): nat
    requires b > 0
  {
    (a + b - 1) / b
  }

  /** The tables as they are sized for a maximum suppress time of up to 2550 seconds. */
  ghost predicate CodedSizes(cfg: Config, max: nat) {
    0 < max <= 2550 && |cfg.decay| == CeilDiv(max, DELTA_T) && cfg.size == CeilDiv(max, DELTA_REUSE) + 1
  }

  /** With the tables as they are sized, no turn need be late if two flaps go to the last list: when
      its turn comes, nothing is left of the penalty. */
  lemma RecordIsLostInTime(cfg: Config, max: nat)
    requires Suppressing(cfg) && CodedSizes(cfg, max) && Last(cfg) == cfg.size - 1
    ensures var ops := PairRun(cfg, DELTA_REUSE * cfg.size);
      && Feasible(cfg, Start(cfg), ops, 0, DELTA_REUSE) && Timely(ops, DELTA_REUSE)
      && forall d :: !RunsPlaced(cfg, StartCoded(cfg), ops, d)
  {
    var late := DELTA_REUSE * cfg.size;
    assert late >= DELTA_T * |cfg.decay|;
    assert Decay(cfg, late, 2 * DEFAULT_PENALTY) == 0;
    hide RunsPlaced, Feasible, Timely, Decay, PairRun, Start, StartCoded;
    PairRunExact(cfg, late);
  }

  // ----- the tables as they are updated

  ghost predicate Indexed(cfg: Config, c: Coded) {
    |c.links.heads| == cfg.size && forall r :: r in c.records && c.records[r].damped ==> 0 <= c.records[r].index < cfg.size
  }

  lemma LinkedIndex(cfg: Config, c: Coded, s: State)
    requires Inv(cfg, s) && Linked(c, s)
    ensures Shaped(cfg, s) && Indexed(cfg, c) && c.offset == s.offset
  {
  }

  lemma TimerBegins(cfg: Config, c: Coded, s: State, now: int)
    requires ConfigOk(cfg) && Inv(cfg, s) && Linked(c, s)
    ensures Visits(cfg, Begun(cfg, c), c.links.heads[c.offset], Chain(s), now)
  {
    TurnUnderway(cfg, c, s, now);
    var t, chain := Turned(cfg, s), Chain(s);
    FatesSize(cfg, t, chain, now);
    ListsTurned(cfg, s);
    assert c.links.heads[c.offset] == Head(c.links, Slot(s.offset)) == At(chain, 0);
    hide Fates, ListsOf, Linked, ChainOk, Inv, Turned, Chain, Turning;
    VisitsChain(cfg, Begun(cfg, c), t, chain, now);
  }

  lemma VisitsFirst(cfg: Config, c: Coded, at: Option<Route>, chain: seq<Route>, now: int)
    requires ConfigOk(cfg) && at.Some? && Visits(cfg, c, at, chain, now)
    ensures chain != [] && chain[0] == at.value && at.value in c.records
    ensures Visits(cfg, CodedOne(cfg, c, at.value, now), Next(c.links, at.value), chain[1..], now)
    ensures CodedAll(cfg, c, chain, now) == CodedAll(cfg, CodedOne(cfg, c, at.value, now), chain[1..], now)
  {
    hide CodedOne;
  }

  lemma VisitsLast(cfg: Config, c: Coded, chain: seq<Route>, now: int)
    requires ConfigOk(cfg) && Visits(cfg, c, None, chain, now)
    ensures CodedAll(cfg, c, chain, now) == c
  {
  }

  /** The records with their links, and the heads of the lists. */
  class Table {
    const cfg: Config
    var records: map<Route, Record>
    var next: map<Route, Option<Route>>
    var prev: map<Route, Option<Route>>
    var heads: seq<Option<Route>>
    var other: Option<Route>
    var offset: nat

    constructor (cfg: Config)
      requires ConfigOk(cfg)
      ensures this.cfg == cfg && View() == StartCoded(cfg)
    {
      this.cfg := cfg;
      records, next, prev, heads, other, offset := map[], map[], map[], seq(cfg.size, i => None), None, 0;
    }

    ghost function View(): Coded
      reads this
    {
      Coded(records, Links(next, prev, heads, other), offset)
    }

    ghost predicate Shows(s: State)
      reads this
    {
      ConfigOk(cfg) && Inv(cfg, s) && Linked(View(), s)
    }

    method ReuseListAdd(r: Route)
      requires ConfigOk(cfg) && |heads| == cfg.size && r in records
      modifies this
      ensures View() == Ringed(cfg, old(View()), r) && |heads| == cfg.size
    {
      var index := SlotOf(cfg, offset, records[r].penalty);
      records := records[r := records[r].(index := index)];
      prev := prev[r := None];
      next := next[r := heads[index]];
      if heads[index].Some? {
        prev := prev[heads[index].value := Some(r)];
      }
      heads := heads[index := Some(r)];
    }

    method ReuseListDelete(r: Route)
      requires r in records && 0 <= records[r].index < |heads|
      modifies this`next, this`prev, this`heads
      ensures View() == old(View()).(links := Unlink(old(View()).links, Slot(records[r].index), r))
      ensures |heads| == old(|heads|)
    {
      var after := if r in next then next[r] else None;
      if after.Some? {
        prev := prev[after.value := if r in prev then prev[r] else None];
      }
      var before := if r in prev then prev[r] else None;
      if before.Some? {
        next := next[before.value := after];
      } else {
        heads := heads[records[r].index := after];
      }
    }

    method DampListAdd(r: Route)
      modifies this`next, this`prev, this`other
      ensures View() == old(View()).(links := Push(old(View()).links, Other, r))
    {
      prev := prev[r := None];
      next := next[r := other];
      if other.Some? {
        prev := prev[other.value := Some(r)];
      }
      other := Some(r);
    }

    method DampListDelete(r: Route)
      modifies this`next, this`prev, this`other
      ensures View() == old(View()).(links := Unlink(old(View()).links, Other, r))
    {
      var after := if r in next then next[r] else None;
      if after.Some? {
        prev := prev[after.value := if r in prev then prev[r] else None];
      }
      var before := if r in prev then prev[r] else None;
      if before.Some? {
        next := next[before.value := after];
      } else {
        other := after;
      }
    }

    method FreeRecord(r: Route)
      requires r in records && (records[r].damped ==> 0 <= records[r].index < |heads|)
      modifies this
      ensures View() == Freed(old(View()), r) && |heads| == old(|heads|)
    {
      if records[r].damped {
        ReuseListDelete(r);
      } else {
        DampListDelete(r);
      }
      records := records - {r};
    }

    method WithdrawRoute(r: Route, now: int, attrChange: bool, ghost s: State) returns (suppressed: bool)
      requires Shows(s)
      modifies this
      ensures Shows(Withdraw(cfg, s, r, now, attrChange).0) && suppressed == Withdraw(cfg, s, r, now, attrChange).1
    {
      hide Inv, Rule, Withdraw, CodedWithdraw, Linked, ConfigOk;
      LinkedIndex(cfg, View(), s);
      ExecInv(cfg, s, OnWithdraw(r, now, attrChange));
      WithdrawLinked(cfg, View(), s, r, now, attrChange);
      suppressed := Flap(r, now, attrChange);
    }

    method Flap(r: Route, now: int, attrChange: bool) returns (suppressed: bool)
      requires ConfigOk(cfg) && Indexed(cfg, View())
      modifies this
      ensures (View(), suppressed) == CodedWithdraw(cfg, old(View()), r, now, attrChange)
    {
      hide Push, Unlink, Decay;
      var last: nat := 0;
      var rec: Record;
      if r !in records {
        rec := Record(Amount(attrChange), 1, now, 0, -1, false, true, true);
        DampListAdd(r);
      } else {
        rec := records[r];
        last := rec.penalty;
        var penalty := Decay(cfg, now - rec.updated, rec.penalty) + Amount(attrChange);
        if penalty > cfg.ceiling {
          penalty := cfg.ceiling;
        }
        rec := rec.(penalty := penalty, flap := rec.flap + 1, updated := now, history := true, withdrawn := true);
      }
      records := records[r := rec];
      if rec.damped {
        if rec.penalty != last {
          ReuseListDelete(r);
          ReuseListAdd(r);
        }
        return true;
      }
      if rec.penalty >= cfg.suppress {
        records := records[r := rec.(damped := true, suppressed := now)];
        DampListDelete(r);
        Overwrite(old(records), r, rec, records[r]);
        ReuseListAdd(r);
      }
      return false;
    }

    method UpdateRoute(r: Route, now: int, ghost s: State) returns (suppressed: bool)
      requires Shows(s)
      modifies this
      ensures Shows(Update(cfg, s, r, now).0) && suppressed == Update(cfg, s, r, now).1
    {
      hide Inv, Rule, Update, CodedUpdate, Linked, ConfigOk;
      LinkedIndex(cfg, View(), s);
      ExecInv(cfg, s, OnUpdate(r, now));
      UpdateLinked(cfg, View(), s, r, now);
      suppressed := Announce(r, now);
    }

    method Announce(r: Route, now: int) returns (suppressed: bool)
      requires ConfigOk(cfg) && Indexed(cfg, View())
      modifies this
      ensures (View(), suppressed) == CodedUpdate(cfg, old(View()), r, now)
    {
      hide Push, Unlink, Decay;
      if r !in records {
        return false;
      }
      var rec := records[r];
      rec := rec.(history := false, withdrawn := false, penalty := Decay(cfg, now - rec.updated, rec.penalty));
      records := records[r := rec];
      if !rec.damped && rec.penalty < cfg.suppress {
        suppressed := false;
      } else if rec.damped && rec.penalty < cfg.reuse {
        ReuseListDelete(r);
        Overwrite(old(records), r, rec, rec.(damped := false, suppressed := 0));
        rec := rec.(damped := false, suppressed := 0);
        records := records[r := rec];
        DampListAdd(r);
        suppressed := false;
      } else {
        suppressed := true;
      }
      Overwrite(old(records), r, rec, rec.(updated := now));
      if 2 * rec.penalty > cfg.reuse {
        records := records[r := rec.(updated := now)];
      } else {
        FreeRecord(r);
      }
    }

    method ScanRoute(r: Route, now: int, ghost s: State) returns (announce: bool)
      requires Shows(s) && r in s.records
      modifies this
      ensures Shows(Scan(cfg, s, r, now).0) && announce == Scan(cfg, s, r, now).1
    {
      LinkedRecords(View(), s);
      hide Inv, Rule, Scan, CodedScan, Linked, ConfigOk;
      LinkedIndex(cfg, View(), s);
      ExecInv(cfg, s, OnScan(r, now));
      ScanLinked(cfg, View(), s, r, now);
      announce := Inspect(r, now);
    }

    method Inspect(r: Route, now: int) returns (announce: bool)
      requires ConfigOk(cfg) && Indexed(cfg, View()) && r in records
      modifies this
      ensures (View(), announce) == CodedScan(cfg, old(View()), r, now)
    {
      hide Push, Unlink, Decay;
      var rec := records[r];
      if rec.damped {
        if now - rec.suppressed >= cfg.maxSuppress {
          ReuseListDelete(r);
          DampListAdd(r);
          records := records[r := rec.(damped := false, penalty := cfg.reuse, suppressed := 0, updated := now)];
          return !rec.withdrawn;
        }
        return false;
      }
      rec := rec.(penalty := Decay(cfg, now - rec.updated, rec.penalty));
      records := records[r := rec];
      Overwrite(old(records), r, rec, rec.(updated := now));
      if 2 * rec.penalty <= cfg.reuse {
        FreeRecord(r);
        return false;
      }
      records := records[r := rec.(updated := now)];
      return false;
    }

    /** The reuse timer follows the links of the list whose turn it is, relinking as it goes. */
    method ReuseTimer(now: int, ghost s: State)
      requires Shows(s)
      modifies this
      ensures Step(cfg, old(View()), OnTimer(now), View())
      ensures Harmless(cfg, s, now) ==> Shows(Timer(cfg, s, now))
      ensures !Harmless(cfg, s, now) ==> forall any :: !Shows(any)
    {
      LinkedIndex(cfg, View(), s);
      hide Inv, Rule, Timer, Linked, ConfigOk, Harmless, Visits, Step, Exec, CodedOne, CodedAll;
      TimerBegins(cfg, View(), s, now);
      ghost var chain := Chain(s);
      ghost var goal := CodedTimer(cfg, View(), s, now);
      var at := heads[offset];
      heads := heads[offset := None];
      offset := (offset + 1) % cfg.size;
      while at.Some?
        invariant ConfigOk(cfg) && |heads| == cfg.size
        invariant Visits(cfg, View(), at, chain, now) && CodedAll(cfg, View(), chain, now) == goal
        decreases |chain|
      {
        VisitsFirst(cfg, View(), at, chain, now);
        var r := at.value;
        at := if r in next then next[r] else None;
        ReuseOne(r, now);
        chain := chain[1..];
      }
      VisitsLast(cfg, View(), chain, now);
      TimerStep(cfg, old(View()), s, now);
      ExecInv(cfg, s, OnTimer(now));
      StepExact(cfg, old(View()), s, OnTimer(now), View());
    }

    method ReuseOne(r: Route, now: int)
      requires ConfigOk(cfg) && |heads| == cfg.size && r in records
      modifies this
      ensures View() == CodedOne(cfg, old(View()), r, now) && |heads| == cfg.size
    {
      hide Decay, Push, Unlink;
      var rec := records[r];
      rec := rec.(penalty := Decay(cfg, now - rec.updated, rec.penalty), updated := now);
      records := records[r := rec];
      if rec.penalty < cfg.reuse {
        rec := rec.(damped := false, suppressed := 0);
        if !rec.withdrawn {
          rec := rec.(history := false);
        }
        records := records[r := rec];
        if 2 * rec.penalty <= cfg.reuse {
          FreeRecord(r);
        } else {
          DampListAdd(r);
        }
      } else {
        ReuseListAdd(r);
      }
    }
  }
}
