/**
 * Routing and sessions put together: the k-th action a router submits to a session is the k-th action its
 * blocking queue accepts, and the executor takes them from there, so that events can be traced back to clients.
 */
module Pipeline {
  import R = Routing
  import S = SessionEvents
  import W = WorkQueue

  type Waiters = W.State<S.Action>

  /** Per session: its own state, and its queue with whoever waits there. */
  datatype State = State(routing: R.State, sessions: map<string, S.State>, queues: map<string, Waiters>)

  /** What concerns several sides at once, and what concerns one of them. */
  datatype Step =
    | Route(c: nat, woken: nat)
    | Register(id: string)
    | Close(id: string)
    | Turn(id: string, call: nat)
    | OfQueue(id: string, w: W.Event<S.Action>)
    | OfRouting(r: R.Step)
    | OfSession(id: string, s: S.Step)

  function Initial(): State
  {
    State(R.Initial(), map[], map[])
  }

  /** The session a connection's next action goes to. */
  function Goal(s: R.State, c: nat): string
    requires R.Enabled(s, R.Routes(c))
  {
    R.Resolve(s.conns[c].session, s.conns[c].channel[0]).session
  }

  /** The number under which a session's next action goes. */
  function NextNumber(s: S.State): S.Action
  {
    |s.accepted|
  }

  /** What a turn of the executor's Dequeue call means to its session: an action, the end of its loop, nothing. */
  function TurnStep(w: Waiters, call: nat): S.Step
    requires call in w.calls
  {
    if W.Turn(w, call).1.Item? then S.Dequeues else S.ExecutorStops
  }

  predicate Idles(w: Waiters, call: nat)
    requires call in w.calls
  {
    W.Turn(w, call).1 == W.Waits
  }

  /** The executor makes one Dequeue call after another. */
  predicate NoCallOut(w: Waiters)
  {
    forall c :: c in w.calls ==> w.calls[c].phase == W.Returned
  }

  predicate AroundTheQueue(e: W.Event<S.Action>)
  {
    e.Enters? || e.ContextEnds? || e.Broadcasts? || e.WatcherLeaves?
  }

  predicate AroundTheSession(e: S.Step)
  {
    !e.Submits? && !e.QueueCloses? && !e.Dequeues? && !e.ExecutorStops?
  }

  predicate AroundTheSessions(r: R.Step)
  {
    !r.Routes? && !r.Registers? && !r.Closes? && !r.Executes?
  }

  predicate Enabled(s: State, e: Step)
  {
    match e
    case Route(c, woken) =>
      R.Enabled(s.routing, R.Routes(c)) &&
      (var goal := Goal(s.routing, c);
       goal in s.routing.sessions ==>
         goal in s.sessions && goal in s.queues && S.Enabled(s.sessions[goal], S.Submits(NextNumber(s.sessions[goal])))
         && W.Enabled(s.queues[goal], W.Enqueues(NextNumber(s.sessions[goal]), woken)))
    case Register(id) => R.Enabled(s.routing, R.Registers(id))
    case Close(id) =>
      R.Enabled(s.routing, R.Closes(id)) && id in s.sessions && id in s.queues
      && S.Enabled(s.sessions[id], S.QueueCloses)
    case Turn(id, call) =>
      id in s.sessions && id in s.queues && W.Enabled(s.queues[id], W.TakesTurn(call)) &&
      (Idles(s.queues[id], call) ||
       (var step := TurnStep(s.queues[id], call);
        S.Enabled(s.sessions[id], step) && (step.Dequeues? ==> R.Enabled(s.routing, R.Executes(id)))))
    case OfQueue(id, w) =>
      id in s.sessions && id in s.queues && AroundTheQueue(w) && W.Enabled(s.queues[id], w)
      && (w.Enters? ==> s.sessions[id].exec == S.Waiting && NoCallOut(s.queues[id]))
    case OfRouting(r) => R.Enabled(s.routing, r) && AroundTheSessions(r)
    case OfSession(id, e) => id in s.sessions && S.Enabled(s.sessions[id], e) && AroundTheSession(e)
  }

  /** One session takes a step. */
  function In(s: State, id: string, e: S.Step): map<string, S.State>
    requires id in s.sessions && S.Enabled(s.sessions[id], e)
  {
    s.sessions[id := S.Next(s.sessions[id], e)]
  }

  /** One queue takes a step. */
  function At(s: State, id: string, e: W.Event<S.Action>): map<string, Waiters>
    requires id in s.queues && W.Enabled(s.queues[id], e)
  {
    s.queues[id := W.Next(s.queues[id], e)]
  }

  function Next(s: State, e: Step): State
    requires Enabled(s, e)
  {
    match e
    case Route(c, woken) =>
      var goal := Goal(s.routing, c);
      if goal in s.routing.sessions then
        var n := NextNumber(s.sessions[goal]);
        State(R.Next(s.routing, R.Routes(c)), In(s, goal, S.Submits(n)), At(s, goal, W.Enqueues(n, woken)))
      else s.(routing := R.Next(s.routing, R.Routes(c)))
    case Register(id) =>
      State(R.Next(s.routing, R.Registers(id)), s.sessions[id := S.Initial()], s.queues[id := W.Start()])
    case Close(id) => State(R.Next(s.routing, R.Closes(id)), In(s, id, S.QueueCloses), At(s, id, W.Closes))
    case Turn(id, call) =>
      var t := s.(queues := At(s, id, W.TakesTurn(call)));
      if Idles(s.queues[id], call) then t
      else
        var step := TurnStep(s.queues[id], call);
        var u := t.(sessions := In(s, id, step));
        if step.Dequeues? then u.(routing := R.Next(s.routing, R.Executes(id))) else u
    case OfQueue(id, w) => s.(queues := At(s, id, w))
    case OfRouting(r) => s.(routing := R.Next(s.routing, r))
    case OfSession(id, e) => s.(sessions := In(s, id, e))
  }

  ghost predicate IsRun(steps: seq<Step>, states: seq<State>)
  {
    && |states| == |steps| + 1 && states[0] == Initial()
    && forall k :: 0 <= k < |steps| ==> Enabled(states[k], steps[k]) && states[k + 1] == Next(states[k], steps[k])
  }

  // ----- the sides agree

  predicate Numbered(actions: seq<S.Action>)
  {
    forall i :: 0 <= i < |actions| ==> actions[i] == i
  }

  /** The session's queue holds the numbers of the actions that routing put into it. */
  predicate Coupled(q: R.Queue, s: S.State)
  {
    && q.closed == s.closed && |q.accepted| == |s.accepted| && q.taken == |s.dequeued|
    && Numbered(s.accepted)
  }

  /** The blocking queue, seen without its sleepers and watchers, is the queue a session works with. */
  predicate SameQueue(w: Waiters, s: S.State)
  {
    w.items == s.items && w.closed == s.closed && w.accepted == s.accepted && w.delivered == s.dequeued
  }

  /** At most one Dequeue call is out, and only while the executor is at its call. */
  predicate OneCaller(w: Waiters, s: S.State)
  {
    && (forall c, d ::
          c in w.calls && d in w.calls && w.calls[c].phase != W.Returned && w.calls[d].phase != W.Returned ==> c == d)
    && (forall c :: c in w.calls && w.calls[c].phase != W.Returned ==> s.exec == S.Waiting)
  }

  ghost predicate SessionOk(q: R.Queue, s: S.State, w: Waiters)
  {
    S.Inv(s) && W.Inv(w) && Coupled(q, s) && SameQueue(w, s) && OneCaller(w, s)
  }

  ghost predicate Inv(s: State)
  {
    && R.Inv(s.routing) && s.sessions.Keys == s.routing.sessions.Keys == s.queues.Keys
    && forall id :: id in s.sessions ==> SessionOk(s.routing.sessions[id], s.sessions[id], s.queues[id])
  }

  // ----- every step keeps that

  lemma {:induction false} SessionStepKeeps(q: R.Queue, s: S.State, w: Waiters, e: S.Step)
    requires SessionOk(q, s, w) && S.Enabled(s, e) && AroundTheSession(e)
    ensures SessionOk(q, S.Next(s, e), w)
  {
    hide S.Inv, W.Inv, S.Next, S.Enabled, AroundTheSession;
    S.NextKeeps(s, e);
    StaysWaiting(s, e);
  }

  lemma {:induction false} StaysWaiting(s: S.State, e: S.Step)
    requires S.Enabled(s, e) && AroundTheSession(e)
    ensures var t := S.Next(s, e);
            && t.items == s.items && t.closed == s.closed && t.accepted == s.accepted && t.dequeued == s.dequeued
            && (s.exec == S.Waiting ==> t.exec == S.Waiting)
  {
    hide S.Next, S.Enabled, S.Moved;
    if S.OnChannel(e) {
      S.MovedOne(s, e);
    } else {
      StaysOff(s, e);
    }
  }

  lemma {:induction false} StaysOff(s: S.State, e: S.Step)
    requires S.Enabled(s, e) && AroundTheSession(e) && !S.OnChannel(e)
    ensures var t := S.Next(s, e);
            && t.items == s.items && t.closed == s.closed && t.accepted == s.accepted && t.dequeued == s.dequeued
            && (s.exec == S.Waiting ==> t.exec == S.Waiting)
  {
    hide S.SendAll, S.InFlight, S.Subscribed, S.StartNext, S.ExecNext;
    if e.StartGoesOn? {
      StartStays(s);
    } else if e.ExecutorEmits? {
      ExecStays(s);
    }
  }

  lemma {:induction false} StartStays(s: S.State)
    requires S.Enabled(s, S.StartGoesOn)
    ensures var t := S.StartNext(s);
            && t.items == s.items && t.closed == s.closed && t.accepted == s.accepted && t.dequeued == s.dequeued
            && (s.exec == S.Waiting ==> t.exec == S.Waiting)
  {
    hide S.Emit;
    forall event ensures var u := S.Emit(s, event);
                         && u.items == s.items && u.closed == s.closed && u.accepted == s.accepted
                         && u.dequeued == s.dequeued && u.exec == s.exec {
      EmitStays(s, event);
    }
  }

  lemma {:induction false} EmitStays(s: S.State, event: S.Event)
    ensures var t := S.Emit(s, event);
            && t.items == s.items && t.closed == s.closed && t.accepted == s.accepted && t.dequeued == s.dequeued
            && t.exec == s.exec
  {
    hide S.SendAll;
  }

  lemma {:induction false} ExecStays(s: S.State)
    requires S.Enabled(s, S.ExecutorEmits)
    ensures var t := S.ExecNext(s);
            && t.items == s.items && t.closed == s.closed && t.accepted == s.accepted && t.dequeued == s.dequeued
            && s.exec != S.Waiting
  {
    hide S.SendAll, S.InFlight;
  }

  lemma {:induction false} SubmitKeeps(q: R.Queue, s: S.State, w: Waiters, t: R.Tagged, woken: nat)
    requires SessionOk(q, s, w)
    requires S.Enabled(s, S.Submits(NextNumber(s))) && W.Enabled(w, W.Enqueues(NextNumber(s), woken))
    ensures SessionOk(R.Submit(q, t), S.Next(s, S.Submits(NextNumber(s))), W.Next(w, W.Enqueues(NextNumber(s), woken)))
  {
    hide S.Inv, W.Inv, W.Next, W.Enabled;
    S.NextKeeps(s, S.Submits(NextNumber(s)));
    W.NextKeeps(w, W.Enqueues(NextNumber(s), woken));
    SignalSameCalls(w, NextNumber(s), woken);
  }

  /** A signal turns a sleeping call into a woken one and does nothing else to the calls. */
  lemma {:induction false} SignalSameCalls(w: Waiters, item: S.Action, woken: nat)
    requires W.Enabled(w, W.Enqueues(item, woken))
    ensures var t := W.Next(w, W.Enqueues(item, woken));
            && t.closed == w.closed && t.delivered == w.delivered
            && t.items == (if w.closed then w.items else w.items + [item])
            && t.accepted == (if w.closed then w.accepted else w.accepted + [item])
            && t.calls.Keys == w.calls.Keys
            && (forall c :: c in w.calls ==> (t.calls[c].phase == W.Returned <==> w.calls[c].phase == W.Returned))
  {
    if !w.closed && W.Those(w, W.Asleep) != {} {
      assert W.In(w, woken, W.Asleep);
    }
  }

  lemma {:induction false} CloseKeeps(q: R.Queue, s: S.State, w: Waiters)
    requires SessionOk(q, s, w) && S.Enabled(s, S.QueueCloses)
    ensures SessionOk(q.(closed := true), S.Next(s, S.QueueCloses), W.Next(w, W.Closes))
  {
    hide S.Inv, W.Inv, S.SendAll, S.StartNext, S.ExecNext, S.Emit;
    S.NextKeeps(s, S.QueueCloses);
    W.NextKeeps(w, W.Closes);
  }

  /** A Dequeue call is out only if the session and its queue allow its turn, whatever that turn turns out to be. */
  lemma {:induction false} TurnIsFree(q: R.Queue, s: S.State, w: Waiters, call: nat)
    requires SessionOk(q, s, w) && W.Enabled(w, W.TakesTurn(call)) && !s.panicked
    ensures Idles(w, call) || S.Enabled(s, TurnStep(w, call))
    ensures !Idles(w, call) && TurnStep(w, call).Dequeues? ==> !q.closed && q.taken < |q.accepted|
  {
    hide S.Inv;
    assert w.accepted == w.delivered + w.items;
  }

  lemma {:induction false} TurnKeeps(q: R.Queue, s: S.State, w: Waiters, call: nat)
    requires SessionOk(q, s, w) && W.Enabled(w, W.TakesTurn(call))
    requires Idles(w, call) || S.Enabled(s, TurnStep(w, call))
    ensures var t := W.Next(w, W.TakesTurn(call));
            if Idles(w, call) then SessionOk(q, s, t)
            else if TurnStep(w, call).Dequeues? then SessionOk(q.(taken := q.taken + 1), S.Next(s, S.Dequeues), t)
            else SessionOk(q, S.Next(s, S.ExecutorStops), t)
  {
    hide S.Inv, W.Inv, W.Turn, S.Enabled;
    W.NextKeeps(w, W.TakesTurn(call));
    TurnDoes(w, call);
    if !Idles(w, call) {
      S.NextKeeps(s, TurnStep(w, call));
      TurnDone(s, TurnStep(w, call));
    }
  }

  lemma {:induction false} TurnDone(s: S.State, e: S.Step)
    requires S.Enabled(s, e) && (e.Dequeues? || e.ExecutorStops?)
    ensures var t := S.Next(s, e);
            && t.closed == s.closed && t.accepted == s.accepted
            && (e.ExecutorStops? ==> t.items == s.items && t.dequeued == s.dequeued)
            && (e.Dequeues? ==> s.items != [] && t.items == s.items[1..] && t.dequeued == s.dequeued + [s.items[0]])
  {
  }

  /** A turn leaves the other calls alone, and its own is out afterwards only if it sleeps. */
  lemma {:induction false} TurnDoes(w: Waiters, call: nat)
    requires W.Enabled(w, W.TakesTurn(call))
    ensures var t := W.Turn(w, call).0;
            && call in w.calls && w.calls[call].phase != W.Returned
            && t.closed == w.closed && t.accepted == w.accepted && t.calls.Keys == w.calls.Keys
            && (forall c :: c in w.calls && c != call ==> t.calls[c] == w.calls[c])
            && (t.calls[call].phase == W.Returned <==> !Idles(w, call))
            && (if !Idles(w, call) && TurnStep(w, call).Dequeues? then
                  w.items != [] && t.items == w.items[1..] && t.delivered == w.delivered + [w.items[0]]
                else t.items == w.items && t.delivered == w.delivered)
  {
  }

  lemma {:induction false} QueueStepKeeps(q: R.Queue, s: S.State, w: Waiters, e: W.Event<S.Action>)
    requires SessionOk(q, s, w) && AroundTheQueue(e) && W.Enabled(w, e)
    requires e.Enters? ==> s.exec == S.Waiting && NoCallOut(w)
    ensures SessionOk(q, s, W.Next(w, e))
  {
    hide S.Inv, W.Inv;
    W.NextKeeps(w, e);
    StaysAround(w, e);
  }

  /** Calls go out only by entering. */
  lemma {:induction false} StaysAround(w: Waiters, e: W.Event<S.Action>)
    requires AroundTheQueue(e) && W.Enabled(w, e)
    ensures var t := W.Next(w, e);
            && t.closed == w.closed && t.accepted == w.accepted && t.items == w.items && t.delivered == w.delivered
            && (forall c :: c in t.calls && t.calls[c].phase != W.Returned ==>
                  (c in w.calls && w.calls[c].phase != W.Returned) || (e.Enters? && e.c == c))
  {
  }

  lemma {:induction false} NewSession()
    ensures SessionOk(R.Queue([], 0, false), S.Initial(), W.Start())
  {
    S.InitialOk();
    W.NothingYet<S.Action>();
    hide S.Inv, W.Inv;
  }

  /** Steps of one connection do not touch the sessions' queues. */
  lemma {:induction false} RoutingStepKeeps(s: R.State, r: R.Step)
    requires R.Enabled(s, r) && AroundTheSessions(r)
    ensures R.Next(s, r).sessions == s.sessions
  {
  }

  lemma {:induction false} RouteKeeps(s: R.State, c: nat)
    requires R.Enabled(s, R.Routes(c))
    ensures var (goal, t) := (Goal(s, c), R.Next(s, R.Routes(c)));
            var a := R.Tagged(c, R.Resolve(s.conns[c].session, s.conns[c].channel[0]));
            t.sessions == if goal in s.sessions then s.sessions[goal := R.Submit(s.sessions[goal], a)] else s.sessions
  {
  }

  /** One session's part changes and the others stay. */
  lemma {:induction false} OneKeeps(s: State, t: State, id: string)
    requires Inv(s) && R.Inv(t.routing) && id in t.routing.sessions && id in t.sessions && id in t.queues
    requires t.routing.sessions == s.routing.sessions[id := t.routing.sessions[id]]
    requires t.sessions == s.sessions[id := t.sessions[id]] && t.queues == s.queues[id := t.queues[id]]
    requires SessionOk(t.routing.sessions[id], t.sessions[id], t.queues[id])
    ensures Inv(t)
  {
    hide R.Inv, SessionOk;
  }

  lemma {:induction false} NextKeeps(s: State, e: Step)
    requires Inv(s) && Enabled(s, e)
    ensures Inv(Next(s, e))
  {
    hide R.Inv, S.Inv, R.Next, S.Next, W.Next, R.Enabled, S.Enabled, W.Enabled, SessionOk, Inv, Next;
    assert R.Inv(s.routing) by {
      RoutingFromInv(s);
    }
    match e
    case Route(c, woken) => RoutePairKeeps(s, c, woken);
    case Register(id) => RegisterKeeps(s, id);
    case Close(id) => ClosePairKeeps(s, id);
    case Turn(id, call) => TurnPairKeeps(s, id, call);
    case OfQueue(id, w) => OfQueueKeeps(s, id, w);
    case OfRouting(r) => OfRoutingKeeps(s, r);
    case OfSession(id, e) => OfSessionKeeps(s, id, e);
  }

  lemma {:induction false} RoutingFromInv(s: State)
    requires Inv(s)
    ensures R.Inv(s.routing)
  {
    hide R.Inv, SessionOk;
  }

  lemma {:induction false} OneFromInv(s: State, id: string)
    requires Inv(s) && (id in s.sessions || id in s.routing.sessions || id in s.queues)
    ensures R.Inv(s.routing) && id in s.sessions && id in s.routing.sessions && id in s.queues
    ensures SessionOk(s.routing.sessions[id], s.sessions[id], s.queues[id])
  {
    hide R.Inv, SessionOk;
  }

  lemma {:induction false} OfRoutingKeeps(s: State, r: R.Step)
    requires Inv(s) && Enabled(s, OfRouting(r))
    ensures Inv(Next(s, OfRouting(r)))
  {
    hide R.Inv, R.Next, R.Enabled, SessionOk;
    R.NextKeeps(s.routing, r);
    RoutingStepKeeps(s.routing, r);
  }

  lemma {:induction false} OfSessionKeeps(s: State, id: string, e: S.Step)
    requires Inv(s) && Enabled(s, OfSession(id, e))
    ensures Inv(Next(s, OfSession(id, e)))
  {
    hide R.Inv, S.Next, S.Enabled, SessionOk, Inv;
    OneFromInv(s, id);
    SessionStepKeeps(s.routing.sessions[id], s.sessions[id], s.queues[id], e);
    OneKeeps(s, Next(s, OfSession(id, e)), id);
  }

  lemma {:induction false} OfQueueKeeps(s: State, id: string, w: W.Event<S.Action>)
    requires Inv(s) && Enabled(s, OfQueue(id, w))
    ensures Inv(Next(s, OfQueue(id, w)))
  {
    hide R.Inv, W.Next, W.Enabled, SessionOk, Inv;
    OneFromInv(s, id);
    QueueStepKeeps(s.routing.sessions[id], s.sessions[id], s.queues[id], w);
    OneKeeps(s, Next(s, OfQueue(id, w)), id);
  }

  lemma {:induction false} TurnPairKeeps(s: State, id: string, call: nat)
    requires Inv(s) && Enabled(s, Turn(id, call))
    ensures Inv(Next(s, Turn(id, call)))
  {
    hide R.Inv, W.Next, W.Enabled, S.Next, S.Enabled, SessionOk, Inv, Idles, TurnStep;
    OneFromInv(s, id);
    TurnInCalls(s.queues[id], call);
    TurnKeeps(s.routing.sessions[id], s.sessions[id], s.queues[id], call);
    if !Idles(s.queues[id], call) && TurnStep(s.queues[id], call).Dequeues? {
      R.NextKeeps(s.routing, R.Executes(id));
    }
    DequeuesOrStops(s.queues[id], call);
    OneKeeps(s, Next(s, Turn(id, call)), id);
  }

  lemma {:induction false} TurnInCalls(w: Waiters, call: nat)
    requires W.Enabled(w, W.TakesTurn(call))
    ensures call in w.calls
  {
  }

  lemma {:induction false} DequeuesOrStops(w: Waiters, call: nat)
    requires call in w.calls
    ensures TurnStep(w, call) == S.Dequeues || TurnStep(w, call) == S.ExecutorStops
  {
  }

  lemma {:induction false} ClosePairKeeps(s: State, id: string)
    requires Inv(s) && Enabled(s, Close(id))
    ensures Inv(Next(s, Close(id)))
  {
    hide R.Inv, W.Next, W.Enabled, S.Next, S.Enabled, SessionOk, Inv;
    OneFromInv(s, id);
    R.NextKeeps(s.routing, R.Closes(id));
    CloseKeeps(s.routing.sessions[id], s.sessions[id], s.queues[id]);
    OneKeeps(s, Next(s, Close(id)), id);
  }

  lemma {:induction false} RegisterKeeps(s: State, id: string)
    requires Inv(s) && Enabled(s, Register(id))
    ensures Inv(Next(s, Register(id)))
  {
    hide R.Inv, SessionOk, S.Initial, W.Start;
    R.NextKeeps(s.routing, R.Registers(id));
    NewSession();
    OneKeeps(s, Next(s, Register(id)), id);
  }

  lemma {:induction false} RoutePairKeeps(s: State, c: nat, woken: nat)
    requires Inv(s) && Enabled(s, Route(c, woken))
    ensures Inv(Next(s, Route(c, woken)))
  {
    hide R.Inv, R.Next, R.Enabled, R.Submit, W.Next, W.Enabled, S.Next, S.Enabled, SessionOk, R.Resolve, NextNumber;
    R.NextKeeps(s.routing, R.Routes(c));
    RouteKeeps(s.routing, c);
    var goal, t := Goal(s.routing, c), Next(s, Route(c, woken));
    if goal in s.routing.sessions {
      SubmitKeeps(s.routing.sessions[goal], s.sessions[goal], s.queues[goal], NextTagged(s.routing, c), woken);
      OneKeeps(s, t, goal);
    }
  }

  function NextTagged(s: R.State, c: nat): R.Tagged
    requires R.Enabled(s, R.Routes(c))
  {
    R.Tagged(c, R.Resolve(s.conns[c].session, s.conns[c].channel[0]))
  }

  lemma {:induction false} RunKeeps(steps: seq<Step>, states: seq<State>, k: nat)
    requires IsRun(steps, states) && k < |states|
    ensures Inv(states[k])
  {
    hide Inv, Next, Enabled;
    if k > 0 {
      RunKeeps(steps, states, k - 1);
      NextKeeps(states[k - 1], steps[k - 1]);
    } else {
      NothingYet();
    }
  }

  lemma {:induction false} NothingYet()
    ensures Inv(Initial())
  {
    R.NothingYet();
    hide R.Inv;
  }

  // ----- what it promises

  /** The actions whose start has been announced, as routing knows them. */
  function Announced(q: R.Queue, events: nat): seq<R.Tagged>
    requires (events + 2) / 4 <= |q.accepted|
  {
    q.accepted[..(events + 2) / 4]
  }

  /**
   * From the client's line to the event: in every reachable state of the whole pipeline, the n-th block
   * of executor events of a session belongs to the n-th action routed to it; and the actions announced
   * as started that came from one connection are, in order, a prefix of what that connection sent there.
   */
  lemma {:induction false} EventsFollowClients(steps: seq<Step>, states: seq<State>, k: nat, c: nat, id: string)
    requires IsRun(steps, states) && k < |states|
    requires c in states[k].routing.conns && id in states[k].sessions
    ensures var (session, events) := (states[k].sessions[id], S.ExecutorEvents(states[k].sessions[id].log));
            && (forall i :: 0 <= i < |events| ==>
                  events[i].FromExecutor? && events[i].action == i / 4 && S.Place(events[i].kind) == i % 4)
            && id in states[k].routing.sessions && (|events| + 2) / 4 <= |states[k].routing.sessions[id].accepted|
            && R.From(c, Announced(states[k].routing.sessions[id], |events|))
            <= R.To(id, states[k].routing.conns[c].session, states[k].routing.conns[c].sent)
  {
    hide Inv, Next, Enabled, R.Inv, S.Inv, W.Inv, SessionOk, S.ExecutorEvents, R.From, R.To;
    RunKeeps(steps, states, k);
    OneFromInv(states[k], id);
    BlocksNumbered(states[k].sessions[id], states[k].routing.sessions[id], states[k].queues[id]);
    R.ExecutedInOrder(states[k].routing, c, id, (|S.ExecutorEvents(states[k].sessions[id].log)| + 2) / 4);
  }

  lemma {:induction false} BlocksNumbered(s: S.State, q: R.Queue, w: Waiters)
    requires SessionOk(q, s, w)
    ensures var events := S.ExecutorEvents(s.log);
            && (forall i :: 0 <= i < |events| ==>
                  events[i].FromExecutor? && events[i].action == i / 4 && S.Place(events[i].kind) == i % 4)
            && (|events| + 2) / 4 <= q.taken <= |q.accepted|
  {
    hide S.SubsOk, S.StartOk, S.ChannelsOk, W.Inv;
    assert forall i :: 0 <= i < |s.dequeued| ==> s.dequeued[i] == s.accepted[i];
  }

  /**
   * No action is left waiting beside a sleeping executor: while its Dequeue call sleeps, everything routed
   * to the session has been executed with all its events issued, and the queue is open. While the call is
   * out and not asleep, it can always take its turn.
   */
  lemma {:induction false} NeverOversleeps(steps: seq<Step>, states: seq<State>, k: nat, id: string, call: nat)
    requires IsRun(steps, states) && k < |states| && id in states[k].queues && call in states[k].queues[id].calls
    requires states[k].queues[id].calls[call].phase != W.Returned
    ensures id in states[k].sessions && id in states[k].routing.sessions
    ensures states[k].queues[id].calls[call].phase == W.Asleep ==>
              var (q, session) := (states[k].routing.sessions[id], states[k].sessions[id]);
              && q.taken == |q.accepted| && !q.closed && |S.ExecutorEvents(session.log)| == 4 * |q.accepted|
    ensures states[k].queues[id].calls[call].phase != W.Asleep && !states[k].sessions[id].panicked ==>
              Enabled(states[k], Turn(id, call))
  {
    hide Inv, Next, Enabled, SessionOk;
    RunKeeps(steps, states, k);
    OneFromInv(states[k], id);
    var q, session, w := states[k].routing.sessions[id], states[k].sessions[id], states[k].queues[id];
    if w.calls[call].phase == W.Asleep {
      SleeperSeesAll(q, session, w, call);
    } else if !session.panicked {
      assert W.Enabled(w, W.TakesTurn(call));
      TurnIsFree(q, session, w, call);
      TurnEnabled(states[k], id, call);
    }
  }

  lemma {:induction false} TurnEnabled(s: State, id: string, call: nat)
    requires id in s.sessions && id in s.queues && id in s.routing.sessions
    requires W.Enabled(s.queues[id], W.TakesTurn(call))
    requires Idles(s.queues[id], call) || S.Enabled(s.sessions[id], TurnStep(s.queues[id], call))
    requires !Idles(s.queues[id], call) && TurnStep(s.queues[id], call).Dequeues? ==>
               !s.routing.sessions[id].closed && s.routing.sessions[id].taken < |s.routing.sessions[id].accepted|
    ensures Enabled(s, Turn(id, call))
  {
    hide S.Enabled, TurnStep, Idles;
  }

  lemma {:induction false} SleeperSeesAll(q: R.Queue, s: S.State, w: Waiters, call: nat)
    requires SessionOk(q, s, w) && W.In(w, call, W.Asleep)
    ensures q.taken == |q.accepted| && !q.closed && |S.ExecutorEvents(s.log)| == 4 * |q.accepted|
  {
    hide S.SubsOk, S.StartOk, S.ChannelsOk;
    assert call in W.Those(w, W.Asleep);
    assert W.Those(w, W.Woken) == {} by {
      assert forall c :: c in w.calls && w.calls[c].phase == W.Woken ==> c == call;
    }
    assert w.items == [];
  }
}
