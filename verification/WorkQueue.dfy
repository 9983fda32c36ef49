/**
 * The blocking queue: a mutex, a condition variable, and one watcher for every Dequeue call whose
 * context can be cancelled. Whatever a goroutine does while it holds the mutex is one step. Any number
 * of producers and Dequeue calls take part, in any interleaving.
 */
module WorkQueue {

  /** A Dequeue call: about to test the queue, parked on the condition variable, woken, or returned. */
  datatype Phase = Entering | Asleep | Woken | Returned

  /** The goroutine waiting for the call's context: none, waiting, has broadcast, has seen the call return. */
  datatype Watcher = NoWatcher | Armed | Fired | Gone

  datatype Call = Call(phase: Phase, cancellable: bool, cancelled: bool, watcher: Watcher)

  /** Besides the queue itself, the items accepted and delivered so far. */
  datatype State<T> = State(items: seq<T>, closed: bool, calls: map<nat, Call>, accepted: seq<T>, delivered: seq<T>)

  function Start<T>(): State<T>
  {
    State([], false, map[], [], [])
  }

  predicate In<T>(s: State<T>, c: nat, phase: Phase)
  {
    c in s.calls && s.calls[c].phase == phase
  }

  function Those<T>(s: State<T>, phase: Phase): set<nat>
  {
    set c | c in s.calls && s.calls[c].phase == phase
  }

  function Put<T>(s: State<T>, c: nat, phase: Phase): State<T>
    requires c in s.calls
  {
    s.(calls := s.calls[c := s.calls[c].(phase := phase)])
  }

  /** Wakes every parked call. */
  function WakeAll<T>(s: State<T>): State<T>
  {
    s.(calls := map c | c in s.calls :: if s.calls[c].phase == Asleep then s.calls[c].(phase := Woken) else s.calls[c])
  }

  // ----- the steps

  datatype Outcome<T> = Closed | Item(item: T) | Cancelled | Waits

  /** Enqueue refuses when closed; otherwise it appends and signals, which wakes one parked call if there is any. */
  function Enqueue<T>(s: State<T>, item: T, woken: nat): State<T>
    requires Those(s, Asleep) != {} ==> In(s, woken, Asleep)
  {
    if s.closed then s
    else
      var added := s.(items := s.items + [item], accepted := s.accepted + [item]);
      if Those(s, Asleep) == {} then added else Put(added, woken, Woken)
  }

  /** One turn of the Dequeue loop: closed, then items, then the context, and only then to sleep. */
  function Turn<T>(s: State<T>, c: nat): (State<T>, Outcome<T>)
    requires c in s.calls
  {
    if s.closed then (Put(s, c, Returned), Closed)
    else if |s.items| > 0 then
      (Put(s, c, Returned).(items := s.items[1..], delivered := s.delivered + [s.items[0]]), Item(s.items[0]))
    else if s.calls[c].cancelled then (Put(s, c, Returned), Cancelled)
    else (Put(s, c, Asleep), Waits)
  }

  function Close<T>(s: State<T>): State<T>
  {
    WakeAll(s.(closed := true))
  }

  function SetWatcher<T>(s: State<T>, c: nat, w: Watcher): State<T>
    requires c in s.calls
  {
    s.(calls := s.calls[c := s.calls[c].(watcher := w)])
  }

  function Broadcast<T>(s: State<T>, c: nat): State<T>
    requires c in s.calls
  {
    WakeAll(SetWatcher(s, c, Fired))
  }

  /** What can happen, in the queue and around it. */
  datatype Event<T> =
    | Enqueues(item: T, woken: nat)
    | Enters(c: nat, cancellable: bool, cancelled: bool)
    | TakesTurn(c: nat)
    | Closes
    | ContextEnds(c: nat)
    | Broadcasts(c: nat)
    | WatcherLeaves(c: nat)

  predicate Enabled<T>(s: State<T>, e: Event<T>)
  {
    match e
    case Enqueues(_, woken) => Those(s, Asleep) != {} ==> In(s, woken, Asleep)
    case Enters(c, cancellable, cancelled) => c !in s.calls && (cancelled ==> cancellable)
    case TakesTurn(c) => In(s, c, Entering) || In(s, c, Woken)
    case Closes => true
    case ContextEnds(c) => c in s.calls && s.calls[c].cancellable
    case Broadcasts(c) => c in s.calls && s.calls[c].watcher == Armed && s.calls[c].cancelled
    case WatcherLeaves(c) => In(s, c, Returned) && s.calls[c].watcher == Armed
  }

  function Next<T>(s: State<T>, e: Event<T>): State<T>
    requires Enabled(s, e)
  {
    match e
    case Enqueues(item, woken) => Enqueue(s, item, woken)
    case Enters(c, cancellable, cancelled) =>
      s.(calls := s.calls[c := Call(Entering, cancellable, cancelled, if cancellable then Armed else NoWatcher)])
    case TakesTurn(c) => Turn(s, c).0
    case Closes => Close(s)
    case ContextEnds(c) => s.(calls := s.calls[c := s.calls[c].(cancelled := true)])
    case Broadcasts(c) => Broadcast(s, c)
    case WatcherLeaves(c) => SetWatcher(s, c, Gone)
  }

  ghost predicate IsRun<T(!new)>(events: seq<Event<T>>, states: seq<State<T>>)
  {
    && |states| == |events| + 1 && states[0] == Start()
    && forall k :: 0 <= k < |events| ==> Enabled(states[k], events[k]) && states[k + 1] == Next(states[k], events[k])
  }

  // ----- the invariant

  ghost predicate CallOk(c: Call)
  {
    && (c.cancelled ==> c.cancellable)
    && (c.watcher == Fired ==> c.cancelled)
    && (c.cancellable && c.phase != Returned ==> c.watcher == Armed || c.watcher == Fired)
    && (c.phase == Asleep && c.cancelled ==> c.watcher == Armed)
  }

  /**
   * While some call sleeps, there are at most as many items as calls woken and not yet at their turn;
   * nobody sleeps on a closed queue; a sleeper whose context is cancelled has its broadcast coming; and
   * what was accepted is what was delivered followed by what is queued.
   */
  ghost predicate Inv<T>(s: State<T>)
  {
    && (Those(s, Asleep) != {} ==> |s.items| <= |Those(s, Woken)|)
    && (s.closed ==> Those(s, Asleep) == {})
    && (forall c :: c in s.calls ==> CallOk(s.calls[c]))
    && s.accepted == s.delivered + s.items
  }

  lemma {:induction false} PutPhases<T>(s: State<T>, c: nat, phase: Phase, p: Phase)
    requires c in s.calls
    ensures Those(Put(s, c, phase), p) == if p == phase then Those(s, p) + {c} else Those(s, p) - {c}
  {
  }

  lemma {:induction false} SamePhases<T>(s: State<T>, s': State<T>, p: Phase)
    requires forall c :: In(s, c, p) <==> In(s', c, p)
    ensures Those(s, p) == Those(s', p)
  {
    forall c ensures c in Those(s, p) <==> c in Those(s', p) {
      assert In(s, c, p) <==> In(s', c, p);
    }
  }

  lemma {:induction false} WakeAllKeeps<T>(s: State<T>)
    requires s.accepted == s.delivered + s.items
    requires forall c :: c in s.calls ==>
               CallOk(s.calls[c]) || (s.calls[c].phase == Asleep && CallOk(s.calls[c].(phase := Woken)))
    ensures Inv(WakeAll(s))
  {
    assert Those(WakeAll(s), Asleep) == {};
  }

  lemma {:induction false} EnqueueKeeps<T>(s: State<T>, item: T, woken: nat)
    requires Inv(s) && Enabled(s, Enqueues(item, woken))
    ensures Inv(Enqueue(s, item, woken))
  {
    if !s.closed {
      var added := s.(items := s.items + [item], accepted := s.accepted + [item]);
      SamePhases(s, added, Asleep);
      SamePhases(s, added, Woken);
      if Those(s, Asleep) != {} {
        PutPhases(added, woken, Woken, Asleep);
        PutPhases(added, woken, Woken, Woken);
      }
    }
  }

  lemma {:induction false} TurnPhases<T>(s: State<T>, c: nat)
    requires In(s, c, Entering) || In(s, c, Woken)
    ensures var (t, r) := Turn(s, c);
            && Those(t, Asleep) == (if r == Waits then Those(s, Asleep) + {c} else Those(s, Asleep) - {c})
            && Those(t, Woken) == Those(s, Woken) - {c} && c !in Those(s, Asleep)
  {
    var t := Turn(s, c).0;
    var put := Put(s, c, t.calls[c].phase);
    PutPhases(s, c, t.calls[c].phase, Asleep);
    PutPhases(s, c, t.calls[c].phase, Woken);
    SamePhases(put, t, Asleep);
    SamePhases(put, t, Woken);
  }

  lemma {:induction false} TurnCalls<T>(s: State<T>, c: nat)
    requires In(s, c, Entering) || In(s, c, Woken)
    requires forall d :: d in s.calls ==> CallOk(s.calls[d])
    ensures forall d :: d in Turn(s, c).0.calls ==> CallOk(Turn(s, c).0.calls[d])
  {
    assert CallOk(s.calls[c]);
  }

  lemma {:induction false} TurnItems<T>(s: State<T>, c: nat)
    requires c in s.calls && s.accepted == s.delivered + s.items
    ensures var (t, r) := Turn(s, c);
            && t.accepted == t.delivered + t.items && t.closed == s.closed
            && |t.items| == |s.items| - (if r.Item? then 1 else 0)
            && (r == Waits ==> !s.closed && t.items == [])
            && (r.Item? <==> !s.closed && s.items != [])
  {
    if s.items != [] {
      assert s.items == [s.items[0]] + s.items[1..];
    }
  }

  lemma {:induction false} TurnKeeps<T>(s: State<T>, c: nat)
    requires Inv(s) && (In(s, c, Entering) || In(s, c, Woken))
    ensures Inv(Turn(s, c).0)
  {
    hide Turn, CallOk, Those;
    TurnPhases(s, c);
    TurnCalls(s, c);
    TurnItems(s, c);
    if Those(s, Asleep) != {} && s.items != [] {
      assert |Those(s, Woken) - {c}| >= |Those(s, Woken)| - 1;
    }
  }

  lemma {:induction false} NextKeeps<T>(s: State<T>, e: Event<T>)
    requires Inv(s) && Enabled(s, e)
    ensures Inv(Next(s, e))
  {
    match e
    case Enqueues(item, woken) => EnqueueKeeps(s, item, woken);
    case TakesTurn(c) => TurnKeeps(s, c);
    case Closes => WakeAllKeeps(s.(closed := true));
    case Broadcasts(c) => WakeAllKeeps(SetWatcher(s, c, Fired));
    case _ =>
      SamePhases(s, Next(s, e), Asleep);
      SamePhases(s, Next(s, e), Woken);
  }

  lemma {:induction false} RunKeeps<T(!new)>(events: seq<Event<T>>, states: seq<State<T>>, k: nat)
    requires IsRun(events, states) && k < |states|
    ensures Inv(states[k])
  {
    if k > 0 {
      RunKeeps(events, states, k - 1);
      hide Inv, Next, Enabled;
      NextKeeps(states[k - 1], events[k - 1]);
    } else {
      assert Those(states[0], Asleep) == {};
    }
  }

  // ----- what it promises

  /**
   * No wakeup is lost: in every reachable state in which items are queued while a call sleeps, some woken
   * call is on its way, and its turn takes the first item.
   */
  lemma {:induction false} NoLostWakeup<T(!new)>(events: seq<Event<T>>, states: seq<State<T>>, k: nat)
    requires IsRun(events, states) && k < |states|
    requires states[k].items != [] && Those(states[k], Asleep) != {}
    ensures exists c :: In(states[k], c, Woken) && Turn(states[k], c).1 == Item(states[k].items[0])
  {
    RunKeeps(events, states, k);
    var s := states[k];
    assert Those(s, Woken) != {};
    var c :| c in Those(s, Woken);
    assert In(s, c, Woken);
  }

  /** No call can take a step of its own: none is about to test the queue, and no broadcast is coming. */
  ghost predicate Quiet<T>(s: State<T>)
  {
    && Those(s, Entering) == {} && Those(s, Woken) == {}
    && (forall c :: c in s.calls ==> !(s.calls[c].watcher == Armed && s.calls[c].cancelled))
  }

  /**
   * So when everything has come to rest, nobody is left behind: whoever still sleeps sleeps on an open,
   * empty queue and its context is not cancelled.
   */
  lemma {:induction false} AtRestNobodyIsForgotten<T(!new)>(events: seq<Event<T>>, states: seq<State<T>>, k: nat,
      c: nat)
    requires IsRun(events, states) && k < |states| && Quiet(states[k]) && In(states[k], c, Asleep)
    ensures states[k].items == [] && !states[k].closed && !states[k].calls[c].cancelled
  {
    RunKeeps(events, states, k);
    assert c in Those(states[k], Asleep);
    assert CallOk(states[k].calls[c]);
  }

  /** Items come out in the order they went in, each once: what is delivered is a prefix of what was accepted. */
  lemma {:induction false} FirstInFirstOut<T(!new)>(events: seq<Event<T>>, states: seq<State<T>>, j: nat, k: nat)
    requires IsRun(events, states) && j <= k < |states|
    ensures states[j].delivered <= states[k].delivered <= states[k].accepted
    ensures states[j].closed ==> states[k].closed && states[k].delivered == states[j].delivered
                                 && states[k].items == states[j].items
    decreases k
  {
    RunKeeps(events, states, k);
    if j < k {
      FirstInFirstOut(events, states, j, k - 1);
      NextDelivers(states[k - 1], events[k - 1]);
    }
  }

  /** The items enqueued before the queue is closed, in order. */
  function EnqueuedWhileOpen<T>(events: seq<Event<T>>): seq<T>
  {
    if events == [] || events[0].Closes? then []
    else (if events[0].Enqueues? then [events[0].item] else []) + EnqueuedWhileOpen(events[1..])
  }

  predicate ClosedBy<T>(events: seq<Event<T>>)
  {
    exists j :: 0 <= j < |events| && events[j].Closes?
  }

  lemma {:induction false} EnqueuedNext<T>(events: seq<Event<T>>, e: Event<T>)
    ensures EnqueuedWhileOpen(events + [e])
         == EnqueuedWhileOpen(events) + (if e.Enqueues? && !ClosedBy(events) then [e.item] else [])
    ensures ClosedBy(events + [e]) <==> ClosedBy(events) || e.Closes?
  {
    if events == [] {
      assert [] + [e] == [e] && [e][1..] == [];
    } else {
      assert (events + [e])[1..] == events[1..] + [e];
      EnqueuedNext(events[1..], e);
      assert events == [events[0]] + events[1..];
    }
    if j :| 0 <= j < |events| && events[j].Closes? {
      assert (events + [e])[j].Closes?;
    }
    assert (events + [e])[|events|] == e;
  }

  lemma {:induction false} StepAccepts<T>(s: State<T>, e: Event<T>)
    requires Enabled(s, e)
    ensures var t := Next(s, e);
            && t.accepted == s.accepted + (if e.Enqueues? && !s.closed then [e.item] else [])
            && (t.closed <==> s.closed || e.Closes?)
  {
  }

  /** Accepted are exactly the items enqueued before the queue was closed, each once and in order. */
  lemma {:induction false} AcceptedAsEnqueued<T(!new)>(events: seq<Event<T>>, states: seq<State<T>>, k: nat)
    requires IsRun(events, states) && k < |states|
    ensures states[k].accepted == EnqueuedWhileOpen(events[..k]) && (states[k].closed <==> ClosedBy(events[..k]))
  {
    hide Next, Enabled;
    if k > 0 {
      AcceptedAsEnqueued(events, states, k - 1);
      StepAccepts(states[k - 1], events[k - 1]);
      EnqueuedNext(events[..k - 1], events[k - 1]);
      assert events[..k] == events[..k - 1] + [events[k - 1]];
    }
  }

  /** A step delivers at most one item, and none once the queue is closed: closing drops what is queued. */
  lemma {:induction false} NextDelivers<T>(s: State<T>, e: Event<T>)
    requires Enabled(s, e)
    ensures var s' := Next(s, e);
            && s.delivered <= s'.delivered && |s'.delivered| <= |s.delivered| + 1
            && (s.closed ==> s'.closed && s'.delivered == s.delivered && s'.items == s.items)
  {
  }

  /**
   * What a turn is worth to the caller of Dequeue: an item is the first accepted one not yet delivered; a
   * call gives up only on a cancelled context and sleeps only on a live one, and in both cases the queue is
   * open and everything accepted has been delivered.
   */
  lemma {:induction false} TurnMeans<T>(s: State<T>, c: nat)
    requires Inv(s) && c in s.calls
    ensures var (t, r) := Turn(s, c);
            && t.accepted == s.accepted && |s.delivered| <= |s.accepted|
            && (r == Closed <==> s.closed)
            && (r.Item? <==> !s.closed && s.delivered != s.accepted)
            && (r.Item? ==> |s.delivered| < |s.accepted| && r.item == s.accepted[|s.delivered|]
                            && t.delivered == s.accepted[..|s.delivered| + 1])
            && (r == Cancelled <==> !s.closed && s.delivered == s.accepted && s.calls[c].cancelled)
            && (r == Waits <==> !s.closed && s.delivered == s.accepted && !s.calls[c].cancelled)
            && (!r.Item? ==> t.delivered == s.delivered)
            && (In(t, c, Asleep) <==> r == Waits) && (In(t, c, Returned) <==> r != Waits)
  {
    assert s.delivered == s.accepted <==> s.items == [];
    if s.items != [] {
      assert s.accepted[|s.delivered|] == s.items[0];
      assert s.delivered + [s.items[0]] == s.accepted[..|s.delivered| + 1];
    }
  }

  // ----- the object

  class Queue<T(==)> {
    var items: seq<T>
    var closed: bool
    var calls: map<nat, Call>
    ghost var accepted: seq<T>
    ghost var delivered: seq<T>

    ghost function Abstract(): State<T>
      reads this
    {
      State(items, closed, calls, accepted, delivered)
    }

    ghost predicate Valid()
      reads this
    {
      Inv(Abstract())
    }

    constructor ()
      ensures Valid() && Abstract() == Start()
    {
      items, closed, calls := [], false, map[];
      accepted, delivered := [], [];
      new;
      NothingYet<T>();
    }

    /** Appends and signals; the condition variable chooses whom it wakes. */
    method EnqueueItem(item: T) returns (ok: bool, ghost woken: nat)
      requires Valid()
      modifies this
      ensures Valid() && ok == !old(closed)
      ensures Enabled(old(Abstract()), Enqueues(item, woken))
      ensures Abstract() == Enqueue(old(Abstract()), item, woken)
    {
      hide Inv;
      woken := 0;
      var parked := set c | c in calls && calls[c].phase == Asleep;
      assert parked == Those(Abstract(), Asleep);
      if parked != {} {
        ghost var any :| any in parked;
        woken := any;
      }
      if closed {
        EnqueueKeeps(Abstract(), item, woken);
        return false, woken;
      }
      ghost var before := Abstract();
      items := items + [item];
      accepted := accepted + [item];
      if parked != {} {
        var c :| c in parked;
        calls := calls[c := calls[c].(phase := Woken)];
        woken := c;
      }
      ok := true;
      EnqueueKeeps(before, item, woken);
    }

    /** One turn of the loop in Dequeue, under the mutex. */
    method TakeTurn(c: nat) returns (r: Outcome<T>)
      requires Valid() && (In(Abstract(), c, Entering) || In(Abstract(), c, Woken))
      modifies this
      ensures Valid() && (Abstract(), r) == old(Turn(Abstract(), c))
      ensures closed == old(closed) && accepted == old(accepted) && |old(delivered)| <= |accepted|
      ensures r == Closed <==> closed
      ensures r.Item? <==> !closed && old(delivered) != accepted
      ensures r.Item? ==> |old(delivered)| < |accepted| && r.item == accepted[|old(delivered)|]
                          && delivered == accepted[..|old(delivered)| + 1]
      ensures r == Cancelled || r == Waits ==> !closed && delivered == accepted
      ensures r == Cancelled ==> old(calls[c].cancelled)
      ensures r == Waits ==> !old(calls[c].cancelled)
    {
      hide Inv;
      TurnKeeps(Abstract(), c);
      TurnMeans(Abstract(), c);
      if closed {
        calls := calls[c := calls[c].(phase := Returned)];
        return Closed;
      }
      if |items| > 0 {
        var item := items[0];
        items := items[1..];
        delivered := delivered + [item];
        calls := calls[c := calls[c].(phase := Returned)];
        return Item(item);
      }
      if calls[c].cancelled {
        calls := calls[c := calls[c].(phase := Returned)];
        return Cancelled;
      }
      calls := calls[c := calls[c].(phase := Asleep)];
      return Waits;
    }

    /** Closing leaves nobody asleep; what was not delivered by then never is, as no turn gives an item. */
    method CloseQueue()
      requires Valid()
      modifies this
      ensures Valid() && Abstract() == old(Close(Abstract()))
      ensures closed && Those(Abstract(), Asleep) == {}
      ensures accepted == old(accepted) && delivered == old(delivered)
    {
      NextKeeps(Abstract(), Closes);
      closed := true;
      calls := map c | c in calls :: if calls[c].phase == Asleep then calls[c].(phase := Woken) else calls[c];
    }

    /** The watcher of a call whose context has been cancelled; its call is not asleep any more, nor is any other. */
    method WatcherBroadcast(c: nat)
      requires Valid() && c in calls && calls[c].watcher == Armed && calls[c].cancelled
      modifies this
      ensures Valid() && Abstract() == old(Broadcast(Abstract(), c))
      ensures Those(Abstract(), Asleep) == {}
      ensures closed == old(closed) && accepted == old(accepted) && delivered == old(delivered)
    {
      NextKeeps(Abstract(), Broadcasts(c));
      calls := calls[c := calls[c].(watcher := Fired)];
      calls := map k | k in calls :: if calls[k].phase == Asleep then calls[k].(phase := Woken) else calls[k];
    }
  }

  lemma {:induction false} NothingYet<T>()
    ensures Inv<T>(Start())
  {
    assert Those<T>(Start(), Asleep) == {};
  }
}
