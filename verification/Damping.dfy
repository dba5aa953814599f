/** Route flap damping: penalties that decay, a ring of reuse lists for suppressed routes and a
    list for the others. */
module Damping {
  import opened Options
  import opened Sequences

  type Route = nat

  const DEFAULT_PENALTY := 1000
  const DELTA_T := 5
  const DELTA_REUSE := 10

  /** Configuration and precomputed tables.  `decay[i]` is the factor after `i` ticks and
      `rank` maps a penalty to how many turns of the ring it has to wait. */
  datatype Config = Config(suppress: nat, reuse: nat, maxSuppress: int, ceiling: nat,
                           decay: seq<real>, size: nat, rank: nat -> nat)

  ghost predicate ConfigOk(cfg: Config) {
    && cfg.size > 0 && |cfg.decay| > 0 && cfg.decay[0] == 1.0
    && (forall i :: 0 <= i < |cfg.decay| ==> 0.0 <= cfg.decay[i] <= 1.0)
  }

  /** The damping record of a route, with the route's own two flags. */
  datatype Record = Record(penalty: nat, flap: nat, updated: int, suppressed: int, index: int,
                           damped: bool, history: bool, withdrawn: bool)

  datatype State = State(records: map<Route, Record>, reuse: seq<seq<Route>>, noReuse: seq<Route>, offset: nat)

  // ----- lists

  lemma WithoutFirst(s: seq<Route>, r: Route)
    requires r !in s
    ensures Without([r] + s, r) == s
  {
    assert ([r] + s)[1..] == s;
  }

  /** Every record is on exactly one list: the reuse list of its index if its route is damped,
      the other list if not; those in `loose` are on none. */
  ghost predicate Placed(s: State, loose: set<Route>) {
    && (forall r :: r in loose ==> r in s.records)
    && NoRepeats(s.noReuse)
    && (forall r :: r in s.noReuse <==> r in s.records && !s.records[r].damped && r !in loose)
    && (forall i :: 0 <= i < |s.reuse| ==> NoRepeats(s.reuse[i]))
    && (forall i, r :: 0 <= i < |s.reuse| ==> (r in s.reuse[i] <==>
        r in s.records && s.records[r].damped && s.records[r].index == i && r !in loose))
    && (forall r :: r in s.records && s.records[r].damped && r !in loose ==> 0 <= s.records[r].index < |s.reuse|)
  }

  function Detach(s: State, r: Route): State
    requires r in s.records
  {
    if s.records[r].damped then
      var i := s.records[r].index;
      if 0 <= i < |s.reuse| then s.(reuse := s.reuse[i := Without(s.reuse[i], r)]) else s
    else s.(noReuse := Without(s.noReuse, r))
  }

  function SlotOf(cfg: Config, offset: nat, penalty: nat): nat
    requires cfg.size > 0
  {
    (offset + cfg.rank(penalty)) % cfg.size
  }

  function Attach(cfg: Config, s: State, r: Route): State
    requires r in s.records && cfg.size > 0 && |s.reuse| == cfg.size
  {
    if s.records[r].damped then
      var i := SlotOf(cfg, s.offset, s.records[r].penalty);
      s.(records := s.records[r := s.records[r].(index := i)], reuse := s.reuse[i := [r] + s.reuse[i]])
    else s.(noReuse := [r] + s.noReuse)
  }

  function Put(s: State, r: Route, rec: Record): State {
    s.(records := s.records[r := rec])
  }

  lemma DetachPlaced(s: State, r: Route, loose: set<Route>)
    requires Placed(s, loose) && r in s.records && r !in loose
    ensures Placed(Detach(s, r), loose + {r})
  {
    hide Without;
    WithoutRemoves(if s.records[r].damped then s.reuse[s.records[r].index] else s.noReuse, r);
  }

  lemma AttachPlaced(cfg: Config, s: State, r: Route, loose: set<Route>)
    requires Placed(s, loose) && r in loose && cfg.size > 0 && |s.reuse| == cfg.size
    ensures Placed(Attach(cfg, s, r), loose - {r})
  {
  }

  /** A record on no list can be changed freely. */
  lemma PutLoosePlaced(s: State, r: Route, rec: Record, loose: set<Route>)
    requires Placed(s, loose) && (r in loose || r !in s.records)
    ensures Placed(Put(s, r, rec), loose + {r})
  {
  }

  /** A record that keeps its flag and index stays where it is. */
  lemma PutSamePlaced(s: State, r: Route, rec: Record, loose: set<Route>)
    requires Placed(s, loose) && r in s.records
    requires rec.damped == s.records[r].damped && rec.index == s.records[r].index
    ensures Placed(Put(s, r, rec), loose)
  {
  }

  lemma DropPlaced(s: State, r: Route, loose: set<Route>)
    requires Placed(s, loose) && r in loose
    ensures Placed(s.(records := s.records - {r}), loose - {r})
  {
  }

  // ----- penalties

  /** The penalty after `tdiff` seconds. */
  function Decay(cfg: Config, tdiff: int, penalty: nat): (r: nat)
    requires ConfigOk(cfg)
    ensures r <= penalty
    ensures -DELTA_T < tdiff < DELTA_T ==> r == penalty
  {
    if -DELTA_T < tdiff < DELTA_T then penalty
    else if tdiff < 0 || tdiff / DELTA_T >= |cfg.decay| then 0
    else
      Shrinks(penalty, cfg.decay[tdiff / DELTA_T]);
      (penalty as real * cfg.decay[tdiff / DELTA_T]).Floor
  }

  lemma Shrinks(p: nat, d: real)
    requires 0.0 <= d <= 1.0
    ensures 0 <= (p as real * d).Floor <= p
  {
    var x := p as real * d;
    assert 0.0 <= x <= p as real;
    assert x.Floor as real <= x;
  }

  function Amount(attrChange: bool): nat { if attrChange then DEFAULT_PENALTY / 2 else DEFAULT_PENALTY }

  function Min(a: nat, b: nat): nat { if a < b then a else b }

  // ----- the steps

  /** The record of a withdrawn route, before it is decided where it belongs. */
  function Flapped(cfg: Config, s: State, r: Route, now: int, attrChange: bool): Record
    requires ConfigOk(cfg)
  {
    if r !in s.records then Record(Amount(attrChange), 1, now, 0, -1, false, true, true)
    else
      var was := s.records[r];
      was.(penalty := Min(Decay(cfg, now - was.updated, was.penalty) + Amount(attrChange), cfg.ceiling),
            flap := was.flap + 1, updated := now, history := true, withdrawn := true)
  }

  predicate Shaped(cfg: Config, s: State) { cfg.size > 0 && |s.reuse| == cfg.size && s.offset < cfg.size }

  /** A route becomes unreachable; the answer is whether it was suppressed already. */
  function Withdraw(cfg: Config, s: State, r: Route, now: int, attrChange: bool): (State, bool)
    requires ConfigOk(cfg) && Shaped(cfg, s)
  {
    var rec := Flapped(cfg, s, r, now, attrChange);
    if rec.damped then
      if rec.penalty != s.records[r].penalty then (Attach(cfg, Put(Detach(s, r), r, rec), r), true)
      else (Put(s, r, rec), true)
    else
      var off := if r in s.records then Detach(s, r) else s;
      if rec.penalty >= cfg.suppress
      then (Attach(cfg, Put(off, r, rec.(damped := true, suppressed := now)), r), false)
      else if r in s.records then (Put(s, r, rec), false)
      else (Attach(cfg, Put(s, r, rec), r), false)
  }

  function Free(s: State, r: Route): State
    requires r in s.records
  {
    var off := Detach(s, r);
    off.(records := off.records - {r})
  }

  /** A route is announced again; the answer is whether it stays suppressed. */
  function Update(cfg: Config, s: State, r: Route, now: int): (State, bool)
    requires ConfigOk(cfg) && Shaped(cfg, s)
  {
    if r !in s.records then (s, false)
    else
      var was := s.records[r];
      var rec := was.(history := false, withdrawn := false, penalty := Decay(cfg, now - was.updated, was.penalty));
      var released := was.damped && rec.penalty < cfg.reuse;
      var kept := if released
                  then Attach(cfg, Put(Detach(s, r), r, rec.(damped := false, suppressed := 0)), r)
                  else Put(s, r, rec);
      var suppressed := !released && !(!was.damped && rec.penalty < cfg.suppress);
      if 2 * rec.penalty > cfg.reuse
      then (Put(kept, r, kept.records[r].(updated := now)), suppressed)
      else (Free(kept, r), suppressed)
  }

  /** The periodic scan of a route with a record; the answer is whether to announce it. */
  function Scan(cfg: Config, s: State, r: Route, now: int): (State, bool)
    requires ConfigOk(cfg) && Shaped(cfg, s) && r in s.records
  {
    var was := s.records[r];
    if was.damped then
      if now - was.suppressed >= cfg.maxSuppress
      then
        (Attach(cfg, Put(Detach(s, r), r,
                         was.(damped := false, penalty := cfg.reuse, suppressed := 0, updated := now)), r),
         !was.withdrawn)
      else (s, false)
    else
      var rec := was.(penalty := Decay(cfg, now - was.updated, was.penalty));
      if 2 * rec.penalty <= cfg.reuse then (Free(Put(s, r, rec), r), false)
      else (Put(s, r, rec.(updated := now)), false)
  }

  /** One route of the list whose turn it is. */
  function TimerOne(cfg: Config, s: State, r: Route, now: int): State
    requires ConfigOk(cfg) && Shaped(cfg, s)
  {
    if r !in s.records then s
    else
      var was := s.records[r];
      var rec := was.(penalty := Decay(cfg, now - was.updated, was.penalty), updated := now);
      if rec.penalty >= cfg.reuse then Attach(cfg, Put(s, r, rec), r)
      else if 2 * rec.penalty <= cfg.reuse then s.(records := s.records - {r})
      else
        Attach(cfg, Put(s, r, rec.(damped := false, suppressed := 0, history := rec.history && rec.withdrawn)), r)
  }

  function TimerAll(cfg: Config, s: State, chain: seq<Route>, now: int): (t: State)
    requires ConfigOk(cfg) && Shaped(cfg, s)
    ensures Shaped(cfg, t)
    decreases |chain|
  {
    if chain == [] then s else TimerAll(cfg, TimerOne(cfg, s, chain[0], now), chain[1..], now)
  }

  /** The reuse timer takes the list at the head of the ring and turns the ring. */
  function Turned(cfg: Config, s: State): State
    requires Shaped(cfg, s)
  {
    s.(reuse := s.reuse[s.offset := []], offset := (s.offset + 1) % cfg.size)
  }

  function Timer(cfg: Config, s: State, now: int): State
    requires ConfigOk(cfg) && Shaped(cfg, s)
  {
    TimerAll(cfg, Turned(cfg, s), s.reuse[s.offset], now)
  }

  // ----- the invariant

  ghost predicate Bounded(cfg: Config, s: State) {
    forall r :: r in s.records ==> s.records[r].penalty <= cfg.ceiling
  }

  /** The ceiling is high enough for a first flap and for a release after the longest
      suppression. */
  predicate CeilingOk(cfg: Config) { cfg.ceiling >= DEFAULT_PENALTY && cfg.ceiling >= cfg.reuse }

  lemma MovePlaced(cfg: Config, s: State, r: Route, rec: Record)
    requires Shaped(cfg, s) && Placed(s, {}) && r in s.records
    ensures var t := Attach(cfg, Put(Detach(s, r), r, rec), r); Shaped(cfg, t) && Placed(t, {})
  {
    DetachPlaced(s, r, {});
    hide Placed;
    assert {} + {r} == {r} && {r} + {r} == {r} && {r} - {r} == {};
    PutLoosePlaced(Detach(s, r), r, rec, {r});
    AttachPlaced(cfg, Put(Detach(s, r), r, rec), r, {r});
  }

  lemma NewPlaced(cfg: Config, s: State, r: Route, rec: Record)
    requires Shaped(cfg, s) && Placed(s, {}) && r !in s.records
    ensures var t := Attach(cfg, Put(s, r, rec), r); Shaped(cfg, t) && Placed(t, {})
  {
    hide Placed;
    assert {} + {r} == {r} && {r} - {r} == {};
    PutLoosePlaced(s, r, rec, {});
    AttachPlaced(cfg, Put(s, r, rec), r, {r});
  }

  lemma FreePlaced(cfg: Config, s: State, r: Route)
    requires Shaped(cfg, s) && Placed(s, {}) && r in s.records
    ensures Shaped(cfg, Free(s, r)) && Placed(Free(s, r), {})
  {
    DetachPlaced(s, r, {});
    hide Placed;
    assert {} + {r} == {r} && {r} - {r} == {};
    DropPlaced(Detach(s, r), r, {r});
  }

  lemma WithdrawPlaced(cfg: Config, s: State, r: Route, now: int, attrChange: bool)
    requires ConfigOk(cfg) && Shaped(cfg, s) && Placed(s, {})
    ensures var t := Withdraw(cfg, s, r, now, attrChange).0; Shaped(cfg, t) && Placed(t, {})
  {
    var rec := Flapped(cfg, s, r, now, attrChange);
    hide Placed, Attach, Detach;
    if r in s.records {
      PutSamePlaced(s, r, rec, {});
      MovePlaced(cfg, s, r, rec);
      MovePlaced(cfg, s, r, rec.(damped := true, suppressed := now));
    } else {
      NewPlaced(cfg, s, r, rec);
      NewPlaced(cfg, s, r, rec.(damped := true, suppressed := now));
    }
  }

  lemma UpdatePlaced(cfg: Config, s: State, r: Route, now: int)
    requires ConfigOk(cfg) && Shaped(cfg, s) && Placed(s, {})
    ensures var t := Update(cfg, s, r, now).0; Shaped(cfg, t) && Placed(t, {})
  {
    hide Placed, Detach, Free;
    if r in s.records {
      var was := s.records[r];
      var rec := was.(history := false, withdrawn := false, penalty := Decay(cfg, now - was.updated, was.penalty));
      PutSamePlaced(s, r, rec, {});
      var moved := rec.(damped := false, suppressed := 0);
      MovePlaced(cfg, s, r, moved);
      var kept := if was.damped && rec.penalty < cfg.reuse then Attach(cfg, Put(Detach(s, r), r, moved), r) else Put(s, r, rec);
      PutSamePlaced(kept, r, kept.records[r].(updated := now), {});
      FreePlaced(cfg, kept, r);
    }
  }

  lemma ScanPlaced(cfg: Config, s: State, r: Route, now: int)
    requires ConfigOk(cfg) && Shaped(cfg, s) && Placed(s, {}) && r in s.records
    ensures var t := Scan(cfg, s, r, now).0; Shaped(cfg, t) && Placed(t, {})
  {
    hide Placed, Detach, Free, Attach;
    var was := s.records[r];
    MovePlaced(cfg, s, r, was.(damped := false, penalty := cfg.reuse, suppressed := 0, updated := now));
    var rec := was.(penalty := Decay(cfg, now - was.updated, was.penalty));
    PutSamePlaced(s, r, rec, {});
    PutSamePlaced(s, r, rec.(updated := now), {});
    FreePlaced(cfg, Put(s, r, rec), r);
  }

  ghost function Members(chain: seq<Route>): set<Route> { set r | r in chain }

  lemma MembersTail(chain: seq<Route>)
    requires chain != [] && NoRepeats(chain)
    ensures NoRepeats(chain[1..]) && Members(chain[1..]) == Members(chain) - {chain[0]} && chain[0] in Members(chain)
  {
    assert chain == [chain[0]] + chain[1..];
    assert forall i :: 0 <= i < |chain[1..]| ==> chain[1..][i] == chain[i + 1] && chain[i + 1] != chain[0];
  }

  lemma TimerOnePlaced(cfg: Config, s: State, r: Route, now: int, loose: set<Route>)
    requires ConfigOk(cfg) && Shaped(cfg, s) && Placed(s, loose) && r in loose
    ensures var t := TimerOne(cfg, s, r, now); Shaped(cfg, t) && Placed(t, loose - {r})
  {
    hide Placed, Attach;
    LooseIsRecord(s, r, loose);
    var was := s.records[r];
    var rec := was.(penalty := Decay(cfg, now - was.updated, was.penalty), updated := now);
    SettlePlaced(cfg, s, r, rec, loose);
    SettlePlaced(cfg, s, r, rec.(damped := false, suppressed := 0, history := rec.history && rec.withdrawn), loose);
    DropPlaced(s, r, loose);
  }

  lemma LooseIsRecord(s: State, r: Route, loose: set<Route>)
    requires Placed(s, loose) && r in loose
    ensures r in s.records
  {
  }

  lemma SettlePlaced(cfg: Config, s: State, r: Route, rec: Record, loose: set<Route>)
    requires Shaped(cfg, s) && Placed(s, loose) && r in loose
    ensures var t := Attach(cfg, Put(s, r, rec), r); Shaped(cfg, t) && Placed(t, loose - {r})
  {
    hide Placed;
    assert loose + {r} == loose;
    PutLoosePlaced(s, r, rec, loose);
    AttachPlaced(cfg, Put(s, r, rec), r, loose);
  }

  lemma {:induction false} TimerAllPlaced(cfg: Config, s: State, chain: seq<Route>, now: int)
    requires ConfigOk(cfg) && Shaped(cfg, s) && NoRepeats(chain) && Placed(s, Members(chain))
    ensures Placed(TimerAll(cfg, s, chain, now), {})
    decreases |chain|
  {
    if chain == [] {
      assert Members(chain) == {};
    } else {
      MembersTail(chain);
      hide Placed, TimerOne, NoRepeats;
      TimerOnePlaced(cfg, s, chain[0], now, Members(chain));
      TimerAllPlaced(cfg, TimerOne(cfg, s, chain[0], now), chain[1..], now);
    }
  }

  lemma TurnedPlaced(cfg: Config, s: State)
    requires Shaped(cfg, s) && Placed(s, {})
    ensures Shaped(cfg, Turned(cfg, s)) && Placed(Turned(cfg, s), Members(s.reuse[s.offset])) && NoRepeats(s.reuse[s.offset])
  {
  }

  lemma TimerPlaced(cfg: Config, s: State, now: int)
    requires ConfigOk(cfg) && Shaped(cfg, s) && Placed(s, {})
    ensures Placed(Timer(cfg, s, now), {})
  {
    hide Placed, Turned, NoRepeats;
    TurnedPlaced(cfg, s);
    TimerAllPlaced(cfg, Turned(cfg, s), s.reuse[s.offset], now);
  }

  // ----- when a route becomes suppressed and when it is released

  function Get(s: State, r: Route): Option<Record> {
    if r in s.records then Some(s.records[r]) else None
  }

  predicate IsDamped(o: Option<Record>) { o.Some? && o.value.damped }

  /** How the record of one route may change in a step at time `now`: it is suppressed only with
      a penalty at or above the suppress value; it is released only below the reuse limit, or
      after the maximum time, with its penalty then at the reuse limit; it is forgotten only
      when its penalty has decayed to half of that; and no penalty exceeds the ceiling. */
  ghost predicate RecordRule(cfg: Config, was: Option<Record>, after: Option<Record>, now: int)
    requires ConfigOk(cfg)
  {
    && (IsDamped(after) && !IsDamped(was) ==> after.value.penalty >= cfg.suppress && after.value.suppressed == now)
    && (IsDamped(was) && after.Some? && !after.value.damped ==>
          after.value.penalty < cfg.reuse
          || (after.value.penalty == cfg.reuse && now - was.value.suppressed >= cfg.maxSuppress))
    && (was.Some? && after.None? ==> 2 * Decay(cfg, now - was.value.updated, was.value.penalty) <= cfg.reuse)
    && (CeilingOk(cfg) && (was.Some? ==> was.value.penalty <= cfg.ceiling) && after.Some? ==>
          after.value.penalty <= cfg.ceiling)
  }

  ghost predicate Rule(cfg: Config, s: State, t: State, now: int)
    requires ConfigOk(cfg)
  {
    forall r :: RecordRule(cfg, Get(s, r), Get(t, r), now)
  }

  lemma NoChange(cfg: Config, was: Option<Record>, now: int)
    requires ConfigOk(cfg)
    ensures RecordRule(cfg, was, was, now)
  {
  }

  /** A step that touches the record of one route only. */
  lemma OneRoute(cfg: Config, s: State, t: State, r: Route, now: int)
    requires ConfigOk(cfg) && RecordRule(cfg, Get(s, r), Get(t, r), now)
    requires forall x :: x != r ==> Get(t, x) == Get(s, x)
    ensures Rule(cfg, s, t, now)
  {
    hide RecordRule;
    forall x ensures RecordRule(cfg, Get(s, x), Get(t, x), now) {
      NoChange(cfg, Get(s, x), now);
    }
  }

  lemma WithdrawRule(cfg: Config, s: State, r: Route, now: int, attrChange: bool)
    requires ConfigOk(cfg) && Shaped(cfg, s)
    ensures Rule(cfg, s, Withdraw(cfg, s, r, now, attrChange).0, now)
  {
    OneRoute(cfg, s, Withdraw(cfg, s, r, now, attrChange).0, r, now);
  }

  lemma UpdateRule(cfg: Config, s: State, r: Route, now: int)
    requires ConfigOk(cfg) && Shaped(cfg, s)
    ensures Rule(cfg, s, Update(cfg, s, r, now).0, now)
  {
    OneRoute(cfg, s, Update(cfg, s, r, now).0, r, now);
  }

  lemma ScanRule(cfg: Config, s: State, r: Route, now: int)
    requires ConfigOk(cfg) && Shaped(cfg, s) && r in s.records
    ensures Rule(cfg, s, Scan(cfg, s, r, now).0, now)
  {
    OneRoute(cfg, s, Scan(cfg, s, r, now).0, r, now);
  }

  lemma TimerOneRule(cfg: Config, s: State, r: Route, now: int)
    requires ConfigOk(cfg) && Shaped(cfg, s)
    ensures Shaped(cfg, TimerOne(cfg, s, r, now))
    ensures RecordRule(cfg, Get(s, r), Get(TimerOne(cfg, s, r, now), r), now)
    ensures forall x :: x != r ==> Get(TimerOne(cfg, s, r, now), x) == Get(s, x)
  {
  }

  lemma {:induction false} TimerAllOthers(cfg: Config, s: State, chain: seq<Route>, now: int, r: Route)
    requires ConfigOk(cfg) && Shaped(cfg, s) && r !in chain
    ensures Get(TimerAll(cfg, s, chain, now), r) == Get(s, r)
    decreases |chain|
  {
    if chain != [] {
      hide TimerOne;
      TimerOneRule(cfg, s, chain[0], now);
      TimerAllOthers(cfg, TimerOne(cfg, s, chain[0], now), chain[1..], now, r);
    }
  }

  lemma {:induction false} TimerAllRule(cfg: Config, s: State, chain: seq<Route>, now: int, r: Route)
    requires ConfigOk(cfg) && Shaped(cfg, s) && NoRepeats(chain)
    ensures RecordRule(cfg, Get(s, r), Get(TimerAll(cfg, s, chain, now), r), now)
    decreases |chain|
  {
    hide TimerOne, RecordRule;
    if chain == [] {
      NoChange(cfg, Get(s, r), now);
    } else {
      MembersTail(chain);
      TimerOneRule(cfg, s, chain[0], now);
      var t := TimerOne(cfg, s, chain[0], now);
      if r == chain[0] {
        TimerAllOthers(cfg, t, chain[1..], now, r);
      } else {
        TimerAllRule(cfg, t, chain[1..], now, r);
      }
    }
  }

  lemma TimerRule(cfg: Config, s: State, now: int)
    requires ConfigOk(cfg) && Shaped(cfg, s) && Placed(s, {})
    ensures Rule(cfg, s, Timer(cfg, s, now), now)
  {
    hide RecordRule, TimerAll;
    TurnedPlaced(cfg, s);
    forall r ensures RecordRule(cfg, Get(s, r), Get(Timer(cfg, s, now), r), now) {
      TimerAllRule(cfg, Turned(cfg, s), s.reuse[s.offset], now, r);
      assert Get(Turned(cfg, s), r) == Get(s, r);
    }
  }

  // ----- every run

  datatype Op =
    | OnWithdraw(route: Route, now: int, attrChange: bool)
    | OnUpdate(route: Route, now: int)
    | OnScan(route: Route, now: int)
    | OnTimer(now: int)

  function Exec(cfg: Config, s: State, op: Op): State
    requires ConfigOk(cfg) && Shaped(cfg, s)
  {
    match op
    case OnWithdraw(r, now, attrChange) => Withdraw(cfg, s, r, now, attrChange).0
    case OnUpdate(r, now) => Update(cfg, s, r, now).0
    case OnScan(r, now) => if r in s.records then Scan(cfg, s, r, now).0 else s
    case OnTimer(now) => Timer(cfg, s, now)
  }

  ghost predicate Inv(cfg: Config, s: State) {
    Shaped(cfg, s) && Placed(s, {})
  }

  /** Each step keeps every record on its one list and follows the rules above. */
  lemma ExecInv(cfg: Config, s: State, op: Op)
    requires ConfigOk(cfg) && Inv(cfg, s)
    ensures Inv(cfg, Exec(cfg, s, op)) && Rule(cfg, s, Exec(cfg, s, op), op.now)
  {
    hide Placed, Withdraw, Update, Scan, Timer, RecordRule, ConfigOk;
    match op
    case OnWithdraw(r, now, attrChange) =>
      WithdrawPlaced(cfg, s, r, now, attrChange);
      WithdrawRule(cfg, s, r, now, attrChange);
    case OnUpdate(r, now) =>
      UpdatePlaced(cfg, s, r, now);
      UpdateRule(cfg, s, r, now);
    case OnScan(r, now) =>
      if r in s.records {
        ScanPlaced(cfg, s, r, now);
        ScanRule(cfg, s, r, now);
      } else {
        forall x ensures RecordRule(cfg, Get(s, x), Get(s, x), now) { NoChange(cfg, Get(s, x), now); }
      }
    case OnTimer(now) =>
      TimerShaped(cfg, s, now);
      TimerPlaced(cfg, s, now);
      TimerRule(cfg, s, now);
  }

  lemma TimerShaped(cfg: Config, s: State, now: int)
    requires ConfigOk(cfg) && Shaped(cfg, s)
    ensures Shaped(cfg, Timer(cfg, s, now))
  {
  }

  lemma ExecBounded(cfg: Config, s: State, op: Op)
    requires ConfigOk(cfg) && CeilingOk(cfg) && Inv(cfg, s) && Bounded(cfg, s)
    ensures Bounded(cfg, Exec(cfg, s, op))
  {
    ExecInv(cfg, s, op);
    var t := Exec(cfg, s, op);
    hide Exec, Inv;
    forall r | r in t.records ensures t.records[r].penalty <= cfg.ceiling {
      assert RecordRule(cfg, Get(s, r), Get(t, r), op.now);
    }
  }

  /** Where a run ends. */
  function Run(cfg: Config, s: State, ops: seq<Op>): State
    requires ConfigOk(cfg)
    decreases |ops|
  {
    if ops == [] || !Shaped(cfg, s) then s else Run(cfg, Exec(cfg, s, ops[0]), ops[1..])
  }

  function Start(cfg: Config): State { State(map[], seq(cfg.size, i => []), [], 0) }

  lemma {:induction false} RunInv(cfg: Config, s: State, ops: seq<Op>)
    requires ConfigOk(cfg) && Inv(cfg, s)
    ensures Inv(cfg, Run(cfg, s, ops))
    ensures CeilingOk(cfg) && Bounded(cfg, s) ==> Bounded(cfg, Run(cfg, s, ops))
    decreases |ops|
  {
    hide Exec, Inv, Bounded, ConfigOk, Shaped;
    if ops != [] && Shaped(cfg, s) {
      ExecInv(cfg, s, ops[0]);
      if CeilingOk(cfg) && Bounded(cfg, s) { ExecBounded(cfg, s, ops[0]); }
      RunInv(cfg, Exec(cfg, s, ops[0]), ops[1..]);
    }
  }

  /** Penalties stay below the ceiling in every run exactly when the ceiling admits the penalty
      of a first flap. */
  lemma CeilingExact(cfg: Config)
    requires ConfigOk(cfg) && cfg.ceiling >= cfg.reuse
    ensures (forall ops :: Bounded(cfg, Run(cfg, Start(cfg), ops))) <==> cfg.ceiling >= DEFAULT_PENALTY
  {
    var first := OnWithdraw(0, 0, false);
    var t := Exec(cfg, Start(cfg), first);
    assert t.records[0].penalty == DEFAULT_PENALTY;
    OneStep(cfg, first);
    assert Run(cfg, Start(cfg), [first]) == t;
    if cfg.ceiling >= DEFAULT_PENALTY {
      forall ops ensures Bounded(cfg, Run(cfg, Start(cfg), ops)) {
        RunInv(cfg, Start(cfg), ops);
      }
    }
  }

  lemma OneStep(cfg: Config, op: Op)
    requires ConfigOk(cfg)
    ensures Run(cfg, Start(cfg), [op]) == Exec(cfg, Start(cfg), op)
  {
    hide Exec;
    assert [op][1..] == [];
  }
}
