/** The session state machine of a configured peer: its table, its event queue and the
    clearing of routes when a session ends. */
module Fsm {
  import opened Options
  import opened PeerStatus

  datatype Event =
    | BgpStart | BgpStop | TcpOpen | TcpClosed | TcpOpenFailed | TcpFatalError
    | ConnectRetryExpired | HoldExpired | KeepaliveExpired
    | ReceiveOpen | ReceiveKeepalive | ReceiveUpdate | ReceiveNotification
    | ClearingCompleted | StopWithError

  datatype Action =
    | Ignore | Start | Stop | ConnectSuccess | ConnectFail | Reconnect | HoldTimeExpire | OpenReceived
    | EventError | Establish | SendKeepalive | KeepaliveReceived | UpdateReceived | ErrorStop | Cleared

  /** The table: what to do on an event, and where to go. */
  function Table(st: Status, e: Event): (Action, Status) {
    match st
    case Idle =>
      if e.BgpStart? then (Start, Connect)
      else if e.BgpStop? || e.TcpOpen? || e.TcpClosed? || e.TcpFatalError? then (Stop, Idle)
      else (Ignore, Idle)
    case Connect =>
      if e.BgpStart? then (Ignore, Connect)
      else if e.BgpStop? || e.TcpClosed? || e.ReceiveNotification? then (Stop, Idle)
      else if e.TcpOpen? then (ConnectSuccess, OpenSent)
      else if e.TcpOpenFailed? then (ConnectFail, Active)
      else if e.TcpFatalError? then (ConnectFail, Idle)
      else if e.ConnectRetryExpired? then (Reconnect, Connect)
      else if e.StopWithError? then (ErrorStop, Idle)
      else (Ignore, Idle)
    case Active =>
      if e.BgpStart? || e.TcpOpenFailed? then (Ignore, Active)
      else if e.BgpStop? || e.TcpClosed? then (Stop, Idle)
      else if e.TcpOpen? then (ConnectSuccess, OpenSent)
      else if e.ConnectRetryExpired? then (Start, Connect)
      else if e.ReceiveNotification? || e.StopWithError? then (ErrorStop, Idle)
      else (Ignore, Idle)
    case OpenSent =>
      if e.BgpStart? then (Ignore, OpenSent)
      else if e.BgpStop? then (Stop, Idle)
      else if e.TcpOpen? || e.TcpClosed? || e.TcpOpenFailed? || e.TcpFatalError? then (Stop, Active)
      else if e.HoldExpired? then (HoldTimeExpire, Idle)
      else if e.ReceiveOpen? then (OpenReceived, OpenConfirm)
      else if e.ReceiveKeepalive? || e.ReceiveUpdate? then (EventError, Idle)
      else if e.ReceiveNotification? || e.StopWithError? then (ErrorStop, Idle)
      else (Ignore, Idle)
    case OpenConfirm =>
      if e.BgpStart? || e.KeepaliveExpired? then (Ignore, OpenConfirm)
      else if e.BgpStop? || e.TcpOpen? || e.TcpClosed? || e.TcpOpenFailed? || e.TcpFatalError? then (Stop, Idle)
      else if e.HoldExpired? then (HoldTimeExpire, Idle)
      else if e.ReceiveKeepalive? then (Establish, Established)
      else if e.ReceiveNotification? || e.StopWithError? then (ErrorStop, Idle)
      else (Ignore, Idle)
    case Established =>
      if e.BgpStart? then (Ignore, Established)
      else if e.HoldExpired? then (HoldTimeExpire, Clearing)
      else if e.KeepaliveExpired? then (SendKeepalive, Established)
      else if e.ReceiveKeepalive? then (KeepaliveReceived, Established)
      else if e.ReceiveUpdate? then (UpdateReceived, Established)
      else if e.ReceiveNotification? || e.StopWithError? then (ErrorStop, Clearing)
      else if e.ClearingCompleted? then (Ignore, Idle)
      else (Stop, Clearing)
    case Clearing =>
      if e.BgpStart? then (Ignore, Clearing)
      else if e.ClearingCompleted? then (Cleared, Idle)
      else if e.StopWithError? then (ErrorStop, Clearing)
      else (Stop, Clearing)
    case Deleted => (Ignore, Deleted)
  }

  /** A peer: its state, the events queued for it, whether background work clears its routes,
      and how often its session came up and went down. */
  datatype State = State(status: Status, queue: seq<Event>, work: bool, established: nat, dropped: nat)

  /** What the environment decides while an event is handled: whether the peer has routes to
      clear, how starting and connecting turn out, and what sending a notification posts. */
  datatype Env = Env(routes: bool, canStart: bool, started: Option<Event>, connected: bool, notified: Option<Event>)

  predicate EnvOk(env: Env) {
    && env.started != Some(ClearingCompleted) && env.notified != Some(ClearingCompleted)
  }

  function Post(s: State, e: Event): State {
    if s.status == Deleted then s else s.(queue := s.queue + [e])
  }

  function PostIf(s: State, o: Option<Event>): State {
    match o
    case None => s
    case Some(e) => Post(s, e)
  }

  /** Stopping: pending events go, except while clearing, and a lost session is counted. */
  function StopPeer(s: State): State {
    var flushed := if s.status != Clearing then s.(queue := []) else s;
    if s.status == Established then flushed.(dropped := s.dropped + 1) else flushed
  }

  /** Entering Clearing or Deleted queues the peer's routes for clearing; with none queued the
      completion event is posted right away. */
  function ChangeStatus(s: State, next: Status, env: Env): State {
    if next == Clearing || next == Deleted then
      var queued := s.(work := s.work || env.routes);
      var posted := if !queued.work then Post(queued, ClearingCompleted) else queued;
      posted.(status := next)
    else s.(status := next)
  }

  function StartPeer(s: State, env: Env): (State, bool) {
    if !env.canStart then (s, false) else (PostIf(s, env.started), true)
  }

  /** The handlers; the flag says whether the state change goes ahead. */
  function Act(a: Action, s: State, env: Env): (State, bool) {
    match a
    case Ignore => (s, true)
    case Start => StartPeer(s, env)
    case Stop => (StopPeer(s), true)
    case ConnectSuccess => (s, env.connected)
    case ConnectFail => (StopPeer(s), true)
    case Reconnect => (StartPeer(StopPeer(s), env).0, true)
    case HoldTimeExpire => (StopPeer(PostIf(s, env.notified)), true)
    case OpenReceived => (s, true)
    case EventError => (StopPeer(PostIf(s, env.notified)), true)
    case Establish => (ChangeStatus(s.(established := s.established + 1), Established, env), true)
    case SendKeepalive => (s, true)
    case KeepaliveReceived => (s, true)
    case UpdateReceived => (s, true)
    case ErrorStop => (StopPeer(s), true)
    case Cleared => (StopPeer(s).(queue := []), true)
  }

  function Handle(s: State, e: Event, env: Env): State {
    var (action, next) := Table(s.status, e);
    var (after, go) := Act(action, s, env);
    if go && next != after.status then ChangeStatus(after, next, env) else after
  }

  /** The steps of a run: an event is queued, the oldest queued one is handled, a timer's event
      is handled at once, the background clearing finishes, routes of one address family are
      cleared, an accepted connection takes over, and the peer is removed. */
  datatype Op =
    | Queue(event: Event)
    | Dispatch(env: Env)
    | Timer(event: Event, env: Env)
    | WorkDone
    | PartialClear(routes: bool)
    | TakeOver
    | Remove(env: Env)

  predicate Enabled(s: State, op: Op) {
    match op
    case Queue(e) => e != ClearingCompleted
    case Dispatch(env) => s.queue != [] && EnvOk(env)
    case Timer(e, env) => e != ClearingCompleted && EnvOk(env)
    case WorkDone => s.work
    case PartialClear(_) => true
    case TakeOver => s.status != Idle && s.status != Clearing && s.status != Deleted
    case Remove(env) => s.status != Deleted
  }

  function Step(s: State, op: Op): State
    requires Enabled(s, op)
  {
    match op
    case Queue(e) => Post(s, e)
    case Dispatch(env) => Handle(s.(queue := s.queue[1..]), s.queue[0], env)
    case Timer(e, env) => Handle(s, e, env)
    case WorkDone => Post(s.(work := false), ClearingCompleted)
    case PartialClear(routes) => s.(work := s.work || routes)
    case TakeOver => StopPeer(s).(status := OpenSent)
    case Remove(env) => ChangeStatus(StopPeer(s), Deleted, env)
  }

  function Exec(s: State, op: Op): State {
    if Enabled(s, op) then Step(s, op) else s
  }

  function Run(s: State, ops: seq<Op>): State
    decreases |ops|
  {
    if ops == [] then s else Run(Exec(s, ops[0]), ops[1..])
  }

  const FRESH := State(Idle, [], false, 0, 0)

  // ----- a peer is never stuck in Clearing

  /** While clearing, the completion event is queued or the work that posts it is pending. */
  predicate NotStuck(s: State) {
    s.status == Clearing ==> s.work || ClearingCompleted in s.queue
  }

  lemma HandleNotStuck(s: State, e: Event, env: Env)
    requires NotStuck(s) || (s.status == Clearing && e == ClearingCompleted)
    ensures NotStuck(Handle(s, e, env))
  {
  }

  lemma ExecNotStuck(s: State, op: Op)
    requires NotStuck(s)
    ensures NotStuck(Exec(s, op))
  {
    if Enabled(s, op) {
      match op
      case Dispatch(env) =>
        var rest := s.(queue := s.queue[1..]);
        assert s.queue == [s.queue[0]] + s.queue[1..];
        HandleNotStuck(rest, s.queue[0], env);
      case Timer(e, env) => HandleNotStuck(s, e, env);
      case _ =>
    }
  }

  /** In every run, whatever else happens. */
  lemma {:induction false} RunNotStuck(s: State, ops: seq<Op>)
    requires NotStuck(s)
    ensures NotStuck(Run(s, ops))
    decreases |ops|
  {
    if ops != [] {
      ExecNotStuck(s, ops[0]);
      RunNotStuck(Exec(s, ops[0]), ops[1..]);
    }
  }

  // ----- Deleted is final

  lemma {:induction false} DeletedIsFinal(s: State, ops: seq<Op>)
    requires s.status == Deleted
    ensures Run(s, ops).status == Deleted
    ensures Run(s, ops).established == s.established && Run(s, ops).dropped == s.dropped
    decreases |ops|
  {
    if ops != [] {
      DeletedIsFinal(Exec(s, ops[0]), ops[1..]);
    }
  }

  // ----- sessions are counted, and the completion event comes when it is due

  /** The session came up once more than it went down exactly while it is up. */
  predicate Balanced(s: State) {
    s.established == s.dropped + (if s.status == Established then 1 else 0)
  }

  function Completions(queue: seq<Event>): nat { multiset(queue)[ClearingCompleted] }

  /** While clearing there is one completion to come; otherwise none. */
  predicate OneCompletion(s: State) {
    && (s.status == Clearing ==> Completions(s.queue) == if s.work then 0 else 1)
    && (s.status != Clearing && s.status != Deleted ==> !s.work && Completions(s.queue) == 0)
  }

  lemma CompletionsOfPost(s: State, e: Event)
    ensures Completions(Post(s, e).queue)
         == Completions(s.queue) + (if e == ClearingCompleted && s.status != Deleted then 1 else 0)
  {
  }

  lemma CompletionsOfTail(queue: seq<Event>)
    requires queue != []
    ensures Completions(queue) == (if queue[0] == ClearingCompleted then 1 else 0) + Completions(queue[1..])
  {
    assert queue == [queue[0]] + queue[1..];
  }

  lemma CompletionsOfNone()
    ensures Completions([]) == 0
  {
  }

  predicate Stops(a: Action) {
    a in {Stop, ConnectFail, Reconnect, HoldTimeExpire, EventError, ErrorStop, Cleared}
  }

  /** What a handler does to the state, the counters and the completions in the queue. */
  lemma ActEffect(a: Action, s: State, env: Env)
    requires EnvOk(env)
    ensures Act(a, s, env).1 <==> (a == Start ==> env.canStart) && (a == ConnectSuccess ==> env.connected)
    ensures var after := Act(a, s, env).0;
      && after.work == s.work
      && after.status == (if a == Establish then Established else s.status)
      && after.established == s.established + (if a == Establish then 1 else 0)
      && after.dropped == s.dropped + (if Stops(a) && s.status == Established then 1 else 0)
      && Completions(after.queue) ==
        (if a == Cleared || (Stops(a) && s.status != Clearing) then 0 else Completions(s.queue))
  {
    hide Completions, Post, PostIf, StopPeer;
    CompletionsOfNone();
    StopEffect(s);
    StopEffect(PostIf(s, env.notified));
    PostIfCompletions(s, env.started);
    PostIfCompletions(StopPeer(s), env.started);
    PostIfCompletions(s, env.notified);
  }

  lemma StopEffect(s: State)
    ensures var after := StopPeer(s);
      && after.status == s.status && after.work == s.work && after.established == s.established
      && after.dropped == s.dropped + (if s.status == Established then 1 else 0)
      && Completions(after.queue) == if s.status == Clearing then Completions(s.queue) else 0
  {
    CompletionsOfNone();
  }

  lemma PostIfCompletions(s: State, o: Option<Event>)
    requires o != Some(ClearingCompleted)
    ensures Completions(PostIf(s, o).queue) == Completions(s.queue)
    ensures PostIf(s, o) == s.(queue := PostIf(s, o).queue)
  {
    if o.Some? { CompletionsOfPost(s, o.value); }
  }

  lemma ChangeEffect(s: State, next: Status, env: Env)
    ensures var after := ChangeStatus(s, next, env);
      && after.status == next && after.established == s.established && after.dropped == s.dropped
      && if next == Clearing || next == Deleted
         then after.work == (s.work || env.routes)
           && Completions(after.queue) == Completions(s.queue) + (if after.work || s.status == Deleted then 0 else 1)
         else after.work == s.work && Completions(after.queue) == Completions(s.queue)
  {
    CompletionsOfPost(s.(work := s.work || env.routes), ClearingCompleted);
    hide Completions;
  }

  /** By how much more often the session came up than it went down or is up. */
  function Skew(s: State): int { s.established - s.dropped - (if s.status == Established then 1 else 0) }

  /** A session is lost uncounted exactly when a completion is handled in Established. */
  lemma HandleBalance(s: State, e: Event, env: Env)
    requires EnvOk(env)
    ensures Skew(Handle(s, e, env)) == Skew(s) + (if e == ClearingCompleted && s.status == Established then 1 else 0)
  {
    TableLeaves(s.status, e);
    hide Act, ChangeStatus, Completions, Table;
    var (action, next) := Table(s.status, e);
    ActEffect(action, s, env);
    ChangeEffect(Act(action, s, env).0, next, env);
  }

  /** Established is entered by establishing only, which cannot be refused, and left by stopping,
      except on a completion. */
  lemma TableLeaves(st: Status, e: Event)
    ensures var (action, next) := Table(st, e);
      && (action == Establish <==> next == Established && st != Established)
      && (st == Established ==> (Stops(action) <==> next == Clearing) && action != Start && action != ConnectSuccess)
      && (st == Established ==> (next != Established && next != Clearing <==> e == ClearingCompleted))
  {
  }

  lemma HandleCompletion(s: State, e: Event, env: Env)
    requires EnvOk(env)
    requires if e == ClearingCompleted then s.status == Deleted || (s.status == Clearing && !s.work) else OneCompletion(s)
    ensures OneCompletion(Handle(s, e, env))
  {
    var (action, next) := Table(s.status, e);
    hide Act, ChangeStatus, Completions;
    ActEffect(action, s, env);
    ChangeEffect(Act(action, s, env).0, next, env);
  }

  /** The step handles a completion in Established. */
  predicate Misses(s: State, op: Op) {
    op.Dispatch? && Enabled(s, op) && s.queue[0] == ClearingCompleted && s.status == Established
  }

  lemma ExecBalance(s: State, op: Op)
    ensures Skew(Exec(s, op)) == Skew(s) + (if Misses(s, op) then 1 else 0)
  {
    if Enabled(s, op) {
      hide Handle;
      match op
      case Dispatch(env) => HandleBalance(s.(queue := s.queue[1..]), s.queue[0], env);
      case Timer(e, env) => HandleBalance(s, e, env);
      case Remove(env) => ChangeEffect(StopPeer(s), Deleted, env);
      case _ =>
    }
  }

  function Missed(s: State, ops: seq<Op>): nat
    decreases |ops|
  {
    if ops == [] then 0 else (if Misses(s, ops[0]) then 1 else 0) + Missed(Exec(s, ops[0]), ops[1..])
  }

  /** In every run the counters are off by exactly the number of completions that were handled in
      Established. */
  lemma {:induction false} RunBalance(s: State, ops: seq<Op>)
    ensures Skew(Run(s, ops)) == Skew(s) + Missed(s, ops)
    decreases |ops|
  {
    hide Exec, Misses, Skew;
    if ops != [] {
      ExecBalance(s, ops[0]);
      RunBalance(Exec(s, ops[0]), ops[1..]);
    }
  }

  /** The step queues routes of one address family for clearing where no such work is pending. */
  predicate Disturbs(s: State, op: Op) {
    op == PartialClear(true) && !s.work && s.status != Deleted
  }

  lemma ExecOrderly(s: State, op: Op)
    requires OneCompletion(s)
    ensures OneCompletion(Exec(s, op)) <==> !Disturbs(s, op)
    ensures !Misses(s, op)
  {
    if Enabled(s, op) {
      match op
      case Queue(e) => CompletionsOfPost(s, e);
      case Dispatch(env) =>
        var rest := s.(queue := s.queue[1..]);
        CompletionsOfTail(s.queue);
        hide Handle, Completions;
        HandleCompletion(rest, s.queue[0], env);
      case Timer(e, env) =>
        hide Handle, Completions;
        HandleCompletion(s, e, env);
      case WorkDone => CompletionsOfPost(s.(work := false), ClearingCompleted);
      case PartialClear(_) =>
      case TakeOver => CompletionsOfNone();
      case Remove(env) => ChangeEffect(StopPeer(s), Deleted, env);
    }
  }

  ghost predicate Undisturbed(s: State, ops: seq<Op>)
    decreases |ops|
  {
    ops == [] || (!Disturbs(s, ops[0]) && Undisturbed(Exec(s, ops[0]), ops[1..]))
  }

  /** In all states of the run the completion event is there exactly when the peer waits for it. */
  ghost predicate AlwaysOneCompletion(s: State, ops: seq<Op>)
    decreases |ops|
  {
    OneCompletion(s) && (ops == [] || AlwaysOneCompletion(Exec(s, ops[0]), ops[1..]))
  }

  /** A run keeps the completions in order throughout exactly if nothing is cleared partially while
      no clearing is pending, and then no completion is handled in Established. */
  lemma {:induction false} RunOrderly(s: State, ops: seq<Op>)
    requires OneCompletion(s)
    ensures AlwaysOneCompletion(s, ops) <==> Undisturbed(s, ops)
    ensures Undisturbed(s, ops) ==> OneCompletion(Run(s, ops)) && Missed(s, ops) == 0
    decreases |ops|
  {
    hide Exec, Misses, Disturbs, OneCompletion;
    if ops != [] {
      ExecOrderly(s, ops[0]);
      if !Disturbs(s, ops[0]) {
        RunOrderly(Exec(s, ops[0]), ops[1..]);
      } else {
        NotAlways(Exec(s, ops[0]), ops[1..]);
      }
    }
  }

  lemma NotAlways(s: State, ops: seq<Op>)
    requires !OneCompletion(s)
    ensures !AlwaysOneCompletion(s, ops)
  {
  }

  /** From a fresh peer: never stuck in Clearing; the session came up once more than it went down,
      as far as it is up, plus the completions handled in Established, of which there are none
      unless something is cleared partially out of turn. */
  lemma FreshRun(ops: seq<Op>)
    ensures var t := Run(FRESH, ops);
      && NotStuck(t)
      && t.established == t.dropped + (if t.status == Established then 1 else 0) + Missed(FRESH, ops)
      && (Undisturbed(FRESH, ops) ==> Balanced(t) && OneCompletion(t))
  {
    CompletionsOfNone();
    hide Run, Missed, Completions, Exec;
    RunNotStuck(FRESH, ops);
    RunBalance(FRESH, ops);
    RunOrderly(FRESH, ops);
  }

  const QUIET := Env(false, true, None, true, None)

  /** A session comes up. */
  const SESSION := [Timer(BgpStart, QUIET), Timer(TcpOpen, QUIET), Timer(ReceiveOpen, QUIET), Timer(ReceiveKeepalive, QUIET)]

  lemma SessionComesUp()
    ensures Run(FRESH, SESSION) == State(Established, [], false, 1, 0)
  {
    var connecting, sent := State(Connect, [], false, 0, 0), State(OpenSent, [], false, 0, 0);
    var confirmed, up := State(OpenConfirm, [], false, 0, 0), State(Established, [], false, 1, 0);
    hide Exec, Run;
    QuietStep(FRESH, BgpStart);
    QuietStep(connecting, TcpOpen);
    QuietStep(sent, ReceiveOpen);
    QuietStep(confirmed, ReceiveKeepalive);
    RunStep(FRESH, SESSION, 0);
    RunStep(connecting, SESSION, 1);
    RunStep(sent, SESSION, 2);
    RunStep(confirmed, SESSION, 3);
  }

  lemma QuietStep(s: State, e: Event)
    requires e != ClearingCompleted
    ensures Exec(s, Timer(e, QUIET)) == Handle(s, e, QUIET)
  {
    hide Handle;
  }

  lemma RunStep(s: State, ops: seq<Op>, i: nat)
    requires i < |ops|
    ensures Run(s, ops[i..]) == Run(Exec(s, ops[i]), ops[i + 1..])
    ensures i + 1 == |ops| ==> Run(Exec(s, ops[i]), ops[i + 1..]) == Exec(s, ops[i])
    ensures ops[0..] == ops
  {
    hide Exec;
    assert ops[i..][1..] == ops[i + 1..];
  }

  /** Clearing one address family of an established session ends in a completion event that
      takes the peer to Idle without counting the session as lost, exactly if routes were
      queued. */
  lemma PartialClearBreaks(s: State, routes: bool)
    requires s.status == Established && Balanced(s) && OneCompletion(s) && s.queue == []
    ensures var after := Run(s, [PartialClear(routes), WorkDone, Dispatch(QUIET)]);
      && (routes ==> after.status == Idle && !Balanced(after))
      && (!routes ==> after == s)
  {
    var ops := [PartialClear(routes), WorkDone, Dispatch(QUIET)];
    var s1 := Exec(s, ops[0]);
    var s2 := Exec(s1, ops[1]);
    assert ops[1..][0] == WorkDone && ops[1..][1..] == [Dispatch(QUIET)];
    assert Run(s, ops) == Run(s2, [Dispatch(QUIET)]);
    assert Run(s2, [Dispatch(QUIET)]) == Exec(s2, Dispatch(QUIET));
  }

  // ----- clearing ends

  /** Where in the queue the completion waits; the length of the queue if it is not there. */
  function Position(queue: seq<Event>): (n: nat)
    ensures n <= |queue| && (n < |queue| <==> ClearingCompleted in queue)
  {
    if queue == [] then 0
    else if queue[0] == ClearingCompleted then 0
    else
      var n: nat := Position(queue[1..]);
      assert queue == [queue[0]] + queue[1..];
      1 + n
  }

  lemma {:induction false} PositionOfPost(queue: seq<Event>, e: Event)
    requires ClearingCompleted in queue
    ensures Position(queue + [e]) == Position(queue)
    decreases |queue|
  {
    if queue[0] != ClearingCompleted {
      assert queue == [queue[0]] + queue[1..];
      PositionOfPost(queue[1..], e);
      assert (queue + [e])[1..] == queue[1..] + [e];
    }
  }

  /** A peer that waits in Clearing with its completion queued stays no longer than it takes to
      handle the events before it: no step moves the completion back, each dispatch moves it
      forward, and the dispatch that reaches it leaves Clearing. */
  lemma ClearingProgress(s: State, op: Op)
    requires s.status == Clearing && ClearingCompleted in s.queue && Enabled(s, op)
    ensures var after := Exec(s, op);
      && (after.status == Clearing ==> ClearingCompleted in after.queue && Position(after.queue) <= Position(s.queue))
      && (op.Dispatch? && Position(s.queue) == 0 ==> after.status == Idle)
      && (op.Dispatch? && Position(s.queue) > 0 ==> after.status == Clearing && Position(after.queue) == Position(s.queue) - 1)
      && (after.status != Clearing ==> after.status == Idle || op.Remove?)
  {
    match op
    case Queue(e) => PositionOfPost(s.queue, e);
    case WorkDone => PositionOfPost(s.queue, ClearingCompleted);
    case Dispatch(env) =>
      ClearingWaits(s.(queue := s.queue[1..]), s.queue[0], env);
      assert s.queue == [s.queue[0]] + s.queue[1..];
      hide Handle;
    case Timer(e, env) => ClearingWaits(s, e, env);
    case _ =>
  }

  /** In Clearing every event but the completion leaves the peer as it is. */
  lemma ClearingWaits(s: State, e: Event, env: Env)
    requires s.status == Clearing
    ensures Handle(s, e, env) == if e == ClearingCompleted then s.(status := Idle, queue := []) else s
  {
  }

  // ----- the peer structure

  class Peer {
    var status: Status
    var oldStatus: Status
    var queue: seq<Event>
    var work: bool
    var established: nat
    var dropped: nat

    constructor ()
      ensures View() == FRESH
    {
      status, oldStatus, queue, work, established, dropped := Idle, Idle, [], false, 0, 0;
    }

    function View(): State
      reads this
    {
      State(status, queue, work, established, dropped)
    }

    method EventAdd(e: Event)
      modifies this`queue
      ensures View() == Post(old(View()), e)
    {
      if status != Deleted {
        queue := queue + [e];
      }
    }

    method EventFlush()
      modifies this`queue
      ensures queue == []
    {
      queue := [];
    }

    method StopSession()
      modifies this`queue, this`dropped
      ensures View() == StopPeer(old(View()))
    {
      if status != Clearing {
        EventFlush();
      }
      if status == Established {
        dropped := dropped + 1;
      }
    }

    method SetStatus(next: Status, env: Env)
      modifies this
      ensures View() == ChangeStatus(old(View()), next, env) && oldStatus == old(status)
    {
      if next == Clearing || next == Deleted {
        work := work || env.routes;
        if !work {
          EventAdd(ClearingCompleted);
        }
      }
      oldStatus := status;
      status := next;
    }

    method StartSession(env: Env) returns (ok: bool)
      modifies this`queue
      ensures (View(), ok) == StartPeer(old(View()), env)
    {
      if !env.canStart {
        return false;
      }
      if env.started.Some? {
        EventAdd(env.started.value);
      }
      return true;
    }

    method StopWithNotify(env: Env)
      modifies this`queue, this`dropped
      ensures View() == StopPeer(PostIf(old(View()), env.notified))
    {
      if env.notified.Some? {
        EventAdd(env.notified.value);
      }
      StopSession();
    }

    method Perform(a: Action, env: Env) returns (ok: bool)
      modifies this
      ensures (View(), ok) == Act(a, old(View()), env)
    {
      ok := true;
      match a {
        case Start =>
          ok := StartSession(env);
        case Stop =>
          StopSession();
        case ConnectSuccess =>
          ok := env.connected;
        case ConnectFail =>
          StopSession();
        case Reconnect =>
          StopSession();
          var started := StartSession(env);
        case HoldTimeExpire =>
          StopWithNotify(env);
        case EventError =>
          StopWithNotify(env);
        case Establish =>
          established := established + 1;
          SetStatus(Established, env);
        case ErrorStop =>
          StopSession();
        case Cleared =>
          StopSession();
          EventFlush();
        case _ =>
      }
    }

    /** Handles one event: calls the table's function, then changes state if it says so. */
    method HandleEvent(e: Event, env: Env)
      modifies this
      ensures View() == Handle(old(View()), e, env)
    {
      var (action, next) := Table(status, e);
      var ok := Perform(action, env);
      if ok {
        if next != status {
          SetStatus(next, env);
        }
      }
    }

    /** Runs the oldest queued event. */
    method RunNext(env: Env)
      requires queue != []
      modifies this
      ensures View() == Handle(old(View()).(queue := old(queue)[1..]), old(queue)[0], env)
    {
      var e := queue[0];
      queue := queue[1..];
      HandleEvent(e, env);
    }

    /** The clear-node work queue has run empty. */
    method ClearNodeComplete()
      requires work
      modifies this`queue, this`work
      ensures View() == Exec(old(View()), WorkDone)
    {
      work := false;
      EventAdd(ClearingCompleted);
    }

    /** Removes the peer from the configuration. */
    method Delete(env: Env)
      requires status != Deleted
      modifies this
      ensures View() == Exec(old(View()), Remove(env))
    {
      StopSession();
      SetStatus(Deleted, env);
    }
  }
}
