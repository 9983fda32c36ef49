/**
 * One session at work: its start, the executor that takes actions off the queue one at a time, any
 * number of other goroutines that emit events, and any number of subscribers with bounded channels.
 * Whatever happens while a mutex is held is one step; steps interleave freely.
 */
module SessionEvents {

  type Action = nat

  datatype Kind = Busy | Started | Finished(ok: bool) | Idle

  datatype Event =
    | SessionStarted | EnsureBanner | EnsureError | FromExecutor(kind: Kind, action: Action) | Other(n: nat)

  /** Where Start is: before it, in the capsule's Ensure, along the failing path, along the good one. */
  datatype StartAt =
    | NotStarted | Ensuring
    | EmitBanner | RecordError | EmitError | StartFailed
    | RecordStarted | EmitStarted | Spawn | Running

  /** Where the executor's loop is. */
  datatype ExecAt =
    | NotSpawned | Waiting | EmitBusy | EmitActionStarted | Handling | EmitFinished(ok: bool) | EmitIdle | Stopped

  /** What a channel has been sent: the event at a position of the log, or a replay. */
  datatype Entry = Live(index: nat) | Replay(event: Event)

  /** An event that was not sent, and how many entries and receivers were waiting at the channel then. */
  datatype Drop = Drop(index: nat, backlog: nat, receivers: nat)

  /** Where Subscribe is: at one of its two replays, or done, so that the caller holds the channel. */
  datatype SubAt = ReplayStarted | ReplayError | Held

  /**
   * A subscription and its channel: what Subscribe saw, the buffer's size, the receivers parked at the
   * channel, everything sent on it and how much of that was received. The rest is history only: what was
   * not sent for want of room, how long the log was at the subscription, when it was taken off the list,
   * and how many calls of Unsubscribe there were for it and how many of them went on to close it.
   */
  datatype Sub = Sub(at: SubAt, sawStarted: bool, sawError: bool, cap: nat, waiting: nat, history: seq<Entry>,
                     taken: nat, drops: seq<Drop>, lost: set<Event>, since: nat, left: bool, until: nat,
                     calls: nat, closes: nat)

  /**
   * The session's subscriber list and the channels that have been closed are changed by separate steps. A
   * send on a closed channel panics, and so does closing one again; a panic ends the run.
   */
  datatype State = State(start: StartAt, startedEvent: bool, errorEvent: bool, exec: ExecAt,
                         items: seq<Action>, closed: bool, accepted: seq<Action>, dequeued: seq<Action>,
                         log: seq<Event>, subs: map<nat, Sub>, listed: set<nat>, shut: set<nat>,
                         panicked: bool)

  function Initial(): State
  {
    State(NotStarted, false, false, NotSpawned, [], false, [], [], [], map[], {}, {}, false)
  }

  // ----- emitting

  /** A receiver is parked at the channel, or its buffer is not full. */
  predicate HasRoom(sub: Sub)
  {
    sub.waiting > 0 || |sub.history| < sub.taken + sub.cap
  }

  /** An entry goes to a parked receiver if there is one, and into the buffer otherwise. */
  function Take(sub: Sub, entry: Entry): Sub
  {
    if sub.waiting > 0 then
      sub.(history := sub.history + [entry], taken := sub.taken + 1, waiting := sub.waiting - 1)
    else sub.(history := sub.history + [entry])
  }

  /** A send that does not block. */
  function Send(sub: Sub, index: nat): Sub
  {
    if HasRoom(sub) then Take(sub, Live(index))
    else sub.(drops := sub.drops + [Drop(index, |sub.history| - sub.taken, sub.waiting)])
  }

  function SendReplay(sub: Sub, event: Event): Sub
  {
    if HasRoom(sub) then Take(sub, Replay(event)) else sub.(lost := sub.lost + {event})
  }

  function SendAll(subs: map<nat, Sub>, listed: set<nat>, index: nat): map<nat, Sub>
  {
    map id | id in subs :: if id in listed then Send(subs[id], index) else subs[id]
  }

  /** Emit goes through every listed subscriber under the session's mutex. */
  function Emit(s: State, event: Event): State
  {
    s.(log := s.log + [event], subs := SendAll(s.subs, s.listed, |s.log|),
       panicked := s.panicked || !(s.listed !! s.shut))
  }

  // ----- the steps

  datatype Step =
    | StartCalled | EnsureReturns(ok: bool) | StartGoesOn
    | Submits(action: Action) | QueueCloses
    | Dequeues | ExecutorStops | ExecutorEmits | HandlerReturns(ok: bool)
    | OtherEmits(n: nat)
    | Subscribes(id: nat, cap: nat) | ReplayGoesOn(id: nat) | Receives(id: nat) | ReceiverLeaves(id: nat)
    | Unsubscribes(id: nat) | ClosesChannel(id: nat)

  predicate Enabled(s: State, e: Step)
  {
    !s.panicked &&
    match e
    case StartCalled => s.start == NotStarted
    case EnsureReturns(_) => s.start == Ensuring
    case StartGoesOn => s.start !in {NotStarted, Ensuring, StartFailed, Running}
    case Submits(_) => true
    case QueueCloses => true
    case Dequeues => s.exec == Waiting && !s.closed && s.items != []
    case ExecutorStops => s.exec == Waiting && (s.closed || s.items == [])
    case ExecutorEmits => s.exec in {EmitBusy, EmitActionStarted, EmitIdle} || s.exec.EmitFinished?
    case HandlerReturns(_) => s.exec == Handling
    case OtherEmits(_) => true
    case Subscribes(id, _) => id !in s.subs
    case ReplayGoesOn(id) => id in s.subs && s.subs[id].at in {ReplayStarted, ReplayError}
    case Receives(id) => id in s.subs
    case ReceiverLeaves(id) => id in s.subs && s.subs[id].waiting > 0
    case Unsubscribes(id) => id in s.subs && s.subs[id].at == Held
    case ClosesChannel(id) => id in s.subs && s.subs[id].closes < s.subs[id].calls
  }

  function StartNext(s: State): State
    requires Enabled(s, StartGoesOn)
  {
    match s.start
    case EmitBanner => Emit(s, EnsureBanner).(start := RecordError)
    case RecordError => s.(errorEvent := true, start := EmitError)
    case EmitError => Emit(s, EnsureError).(start := StartFailed)
    case RecordStarted => s.(startedEvent := true, start := EmitStarted)
    case EmitStarted => Emit(s, SessionStarted).(start := Spawn)
    case Spawn => s.(exec := Waiting, start := Running)
  }

  /** The action last dequeued. */
  function InFlight(s: State): Action
  {
    if s.dequeued == [] then 0 else s.dequeued[|s.dequeued| - 1]
  }

  function ExecNext(s: State): State
    requires Enabled(s, ExecutorEmits)
  {
    var a := InFlight(s);
    match s.exec
    case EmitBusy => Emit(s, FromExecutor(Busy, a)).(exec := EmitActionStarted)
    case EmitActionStarted => Emit(s, FromExecutor(Started, a)).(exec := Handling)
    case EmitFinished(ok) => Emit(s, FromExecutor(Finished(ok), a)).(exec := EmitIdle)
    case EmitIdle => Emit(s, FromExecutor(Idle, a)).(exec := Waiting)
  }

  /** One more step of Subscribe after the subscriber is on the list: the replays it saw grounds for. */
  function ReplayNext(sub: Sub): Sub
  {
    if sub.at == ReplayStarted then
      (if sub.sawStarted then SendReplay(sub, SessionStarted) else sub).(at := ReplayError)
    else
      (if sub.sawError then SendReplay(sub, EnsureError) else sub).(at := Held)
  }

  /** A replay is tried only if there was ground for it; on a closed channel it panics. */
  predicate TriesReplay(sub: Sub)
  {
    (sub.at == ReplayStarted && sub.sawStarted) || (sub.at == ReplayError && sub.sawError)
  }

  /** A receiver takes the next entry, or parks at the empty channel, or finds it empty and closed. */
  function Receive(sub: Sub, shut: bool): Sub
  {
    if sub.taken < |sub.history| then sub.(taken := sub.taken + 1)
    else if shut then sub
    else sub.(waiting := sub.waiting + 1)
  }

  function Subscribed(startedEvent: bool, errorEvent: bool, cap: nat, now: nat): Sub
  {
    Sub(ReplayStarted, startedEvent, errorEvent, cap, 0, [], 0, [], {}, now, false, 0, 0, 0)
  }

  /** Closing wakes the receivers parked at the channel. */
  function Closed(sub: Sub): Sub
  {
    sub.(closes := sub.closes + 1, waiting := 0)
  }

  function Unlisted(sub: Sub, now: nat): Sub
  {
    sub.(calls := sub.calls + 1, left := true, until := if sub.left then sub.until else now)
  }

  function Next(s: State, e: Step): State
    requires Enabled(s, e)
  {
    match e
    case StartCalled => s.(start := Ensuring)
    case EnsureReturns(ok) => s.(start := if ok then RecordStarted else EmitBanner)
    case StartGoesOn => StartNext(s)
    case Submits(a) => if s.closed then s else s.(items := s.items + [a], accepted := s.accepted + [a])
    case QueueCloses => s.(closed := true)
    case Dequeues => s.(items := s.items[1..], dequeued := s.dequeued + [s.items[0]], exec := EmitBusy)
    case ExecutorStops => s.(exec := Stopped)
    case ExecutorEmits => ExecNext(s)
    case HandlerReturns(ok) => s.(exec := EmitFinished(ok))
    case OtherEmits(n) => Emit(s, Other(n))
    case Subscribes(id, cap) =>
      s.(subs := s.subs[id := Subscribed(s.startedEvent, s.errorEvent, cap, |s.log|)], listed := s.listed + {id})
    case ReplayGoesOn(id) =>
      s.(subs := s.subs[id := ReplayNext(s.subs[id])], panicked := TriesReplay(s.subs[id]) && id in s.shut)
    case Receives(id) => s.(subs := s.subs[id := Receive(s.subs[id], id in s.shut)])
    case ReceiverLeaves(id) => s.(subs := s.subs[id := s.subs[id].(waiting := s.subs[id].waiting - 1)])
    case Unsubscribes(id) =>
      s.(listed := s.listed - {id}, subs := s.subs[id := Unlisted(s.subs[id], |s.log|)])
    case ClosesChannel(id) =>
      s.(shut := s.shut + {id}, panicked := id in s.shut, subs := s.subs[id := Closed(s.subs[id])])
  }

  ghost predicate IsRun(steps: seq<Step>, states: seq<State>)
  {
    && |states| == |steps| + 1 && states[0] == Initial()
    && forall k :: 0 <= k < |steps| ==>
         Enabled(states[k], steps[k]) && states[k + 1] == Next(states[k], steps[k])
  }

  // ----- the executor's events

  function ExecutorEvents(log: seq<Event>): seq<Event>
  {
    if log == [] then []
    else ExecutorEvents(log[..|log| - 1]) + (if log[|log| - 1].FromExecutor? then [log[|log| - 1]] else [])
  }

  lemma {:induction false} ExecutorEventsNext(log: seq<Event>, e: Event)
    ensures ExecutorEvents(log + [e]) == ExecutorEvents(log) + (if e.FromExecutor? then [e] else [])
  {
    assert (log + [e])[..|log|] == log;
  }

  /** The place of a kind in the block of four events an action gives rise to. */
  function Place(k: Kind): nat
  {
    match k
    case Busy => 0
    case Started => 1
    case Finished(_) => 2
    case Idle => 3
  }

  /** Blocks of busy, started, finished, idle, one for each action in the order they were dequeued. */
  predicate InBlocks(events: seq<Event>, dequeued: seq<Action>)
  {
    forall i :: 0 <= i < |events| ==>
      events[i].FromExecutor? && i / 4 < |dequeued| && events[i].action == dequeued[i / 4]
            && Place(events[i].kind) == i % 4
  }

  /** How many events of the last dequeued action have been issued. */
  function Issued(x: ExecAt): nat
  {
    match x
    case EmitBusy => 0
    case EmitActionStarted => 1
    case Handling => 2
    case EmitFinished(_) => 2
    case EmitIdle => 3
    case _ => 4
  }

  /** The executor side: a FIFO queue, at most one action in flight, and events in blocks. */
  predicate ExecutorOk(s: State)
  {
    && s.accepted == s.dequeued + s.items
    && InBlocks(ExecutorEvents(s.log), s.dequeued)
    && (if s.dequeued == [] then ExecutorEvents(s.log) == [] && s.exec in {NotSpawned, Waiting, Stopped}
        else |ExecutorEvents(s.log)| == 4 * (|s.dequeued| - 1) + Issued(s.exec) && s.exec != NotSpawned)
  }

  // ----- the start

  predicate Once(log: seq<Event>, e: Event)
  {
    forall i, j :: 0 <= i < j < |log| ==> !(log[i] == log[j] == e)
  }

  /** The start is announced once at most, and so is its failure; the executor runs only after the start. */
  predicate StartOk(s: State)
  {
    && (s.exec != NotSpawned ==> s.start == Running)
    && (SessionStarted in s.log <==> s.start in {Spawn, Running})
    && (EnsureError in s.log <==> s.start == StartFailed)
    && (EnsureBanner in s.log <==> s.start in {RecordError, EmitError, StartFailed})
    && (s.startedEvent <==> s.start in {EmitStarted, Spawn, Running})
    && (s.errorEvent <==> s.start in {EmitError, StartFailed})
    && Once(s.log, SessionStarted) && Once(s.log, EnsureError)
    && (forall i :: 0 <= i < |s.log| && s.log[i].FromExecutor? ==> SessionStarted in s.log[..i])
  }

  // ----- the subscribers

  predicate Got(sub: Sub, i: nat)
  {
    exists k :: 0 <= k < |sub.history| && sub.history[k] == Live(i)
  }

  predicate Missed(sub: Sub, i: nat)
  {
    exists k :: 0 <= k < |sub.drops| && sub.drops[k].index == i
  }

  /** How far into the log a subscription reaches. */
  function Upto(sub: Sub, now: nat): nat
  {
    if sub.left then sub.until else now
  }

  /** The live events in a channel are distinct events of the log, in order, from the subscription on. */
  ghost predicate LiveOk(sub: Sub, now: nat)
  {
    && sub.taken <= |sub.history| <= sub.taken + sub.cap && (sub.waiting > 0 ==> sub.taken == |sub.history|)
    && sub.since <= Upto(sub, now) <= now
    && (forall k :: 0 <= k < |sub.history| && sub.history[k].Live? ==>
          sub.since <= sub.history[k].index < Upto(sub, now))
    && (forall j, k :: 0 <= j < k < |sub.history| && sub.history[j].Live? && sub.history[k].Live? ==>
          sub.history[j].index < sub.history[k].index)
  }

  /**
   * An event is missing from the channel exactly when it was dropped, and then the channel was full and
   * nobody was waiting at it.
   */
  ghost predicate DropsOk(sub: Sub, now: nat)
  {
    && (forall k :: 0 <= k < |sub.drops| ==> sub.drops[k].backlog == sub.cap && sub.drops[k].receivers == 0)
    && (forall k :: 0 <= k < |sub.drops| ==> sub.since <= sub.drops[k].index < Upto(sub, now))
    && (forall i :: sub.since <= i < Upto(sub, now) ==> (Got(sub, i) <==> !Missed(sub, i)))
  }

  predicate ReplayedOnce(sub: Sub, e: Event)
  {
    forall j, k :: 0 <= j < k < |sub.history| ==> !(sub.history[j] == sub.history[k] == Replay(e))
  }

  predicate Saw(sub: Sub, e: Event)
  {
    if e == SessionStarted then sub.sawStarted else sub.sawError
  }

  /** Subscribe is past its replay of this announcement. */
  predicate Past(sub: Sub, e: Event)
  {
    if e == SessionStarted then sub.at != ReplayStarted else sub.at == Held
  }

  /** An announcement is replayed at most once, exactly when it was seen and there was room. */
  ghost predicate ReplayOk(sub: Sub, e: Event)
  {
    && ReplayedOnce(sub, e)
    && (e in sub.lost ==> Past(sub, e) && Saw(sub, e))
    && (Replay(e) in sub.history <==> Past(sub, e) && Saw(sub, e) && e !in sub.lost)
  }

  /** How many replays have been tried. */
  function Tried(sub: Sub): nat
  {
    (if Past(sub, SessionStarted) && sub.sawStarted then 1 else 0)
    + (if Past(sub, EnsureError) && sub.sawError then 1 else 0)
  }

  /** Everything that was tried is counted; something can be missing only when the buffer has been filled once. */
  ghost predicate CountOk(sub: Sub, now: nat)
  {
    && sub.since <= Upto(sub, now)
    && |sub.history| + |sub.drops| + |sub.lost| <= Upto(sub, now) - sub.since + Tried(sub)
    && (sub.drops != [] || sub.lost != {} ==> |sub.history| >= sub.cap)
  }

  ghost predicate SubOk(sub: Sub, now: nat)
  {
    && LiveOk(sub, now) && DropsOk(sub, now) && CountOk(sub, now)
    && ReplayOk(sub, SessionStarted) && ReplayOk(sub, EnsureError)
  }

  /**
   * Whoever saw nothing to replay subscribed before the event was emitted; whoever saw something to replay saw
   * what has been recorded, and nobody saw both start and failure.
   */
  predicate SawRight(s: State, sub: Sub)
  {
    && (!sub.sawStarted ==> forall i :: 0 <= i < |s.log| && s.log[i] == SessionStarted ==> sub.since <= i)
    && (!sub.sawError ==> forall i :: 0 <= i < |s.log| && s.log[i] == EnsureError ==> sub.since <= i)
    && (sub.sawStarted ==> s.startedEvent) && (sub.sawError ==> s.errorEvent)
    && !(sub.sawStarted && sub.sawError)
  }

  ghost predicate SubsOk(s: State)
  {
    forall id :: id in s.subs ==> SubOk(s.subs[id], |s.log|) && SawRight(s, s.subs[id])
  }

  // ----- the list and the closed channels

  /**
   * A channel is on the list until the first call of Unsubscribe, which comes after Subscribe is done. Each
   * closing belongs to a call, and the channel is closed from the first closing on.
   */
  predicate ChannelOk(sub: Sub, listed: bool, shut: bool)
  {
    && (listed <==> !sub.left) && (sub.left <==> sub.calls > 0) && (sub.left ==> sub.at == Held)
    && sub.closes <= sub.calls && (shut <==> sub.closes > 0)
  }

  ghost predicate ListOk(subs: map<nat, Sub>, listed: set<nat>, shut: set<nat>)
  {
    && listed <= subs.Keys && shut <= subs.Keys
    && (forall id :: id in subs ==> ChannelOk(subs[id], id in listed, id in shut))
  }

  predicate ClosedTwice(subs: map<nat, Sub>)
  {
    exists id :: id in subs && subs[id].closes >= 2
  }

  ghost predicate ChannelsOk(s: State)
  {
    ListOk(s.subs, s.listed, s.shut) && (s.panicked <==> ClosedTwice(s.subs))
  }

  ghost predicate Inv(s: State)
  {
    ExecutorOk(s) && StartOk(s) && SubsOk(s) && ChannelsOk(s)
  }

  // ----- the invariant is kept

  lemma {:induction false} SendLive(sub: Sub, now: nat)
    requires LiveOk(sub, now) && !sub.left
    ensures LiveOk(Send(sub, now), now + 1)
  {
    var after := Send(sub, now);
    assert forall k :: 0 <= k < |sub.history| ==> after.history[k] == sub.history[k];
  }

  lemma {:induction false} SendDrops(sub: Sub, now: nat)
    requires LiveOk(sub, now) && DropsOk(sub, now) && !sub.left
    ensures DropsOk(Send(sub, now), now + 1)
  {
    var after := Send(sub, now);
    forall i | sub.since <= i < now + 1 ensures Got(after, i) <==> !Missed(after, i) {
      GotAfterSend(sub, now, i);
    }
    assert forall k :: 0 <= k < |sub.drops| ==> after.drops[k] == sub.drops[k];
  }

  lemma {:induction false} GotAfterSend(sub: Sub, now: nat, i: nat)
    requires LiveOk(sub, now) && DropsOk(sub, now) && !sub.left
    ensures Got(Send(sub, now), i) <==> Got(sub, i) || (i == now && HasRoom(sub))
    ensures Missed(Send(sub, now), i) <==> Missed(sub, i) || (i == now && !HasRoom(sub))
    ensures Got(sub, i) || Missed(sub, i) ==> i < now
  {
    var after := Send(sub, now);
    assert forall k :: 0 <= k < |sub.history| ==> after.history[k] == sub.history[k];
    assert forall k :: 0 <= k < |sub.drops| ==> after.drops[k] == sub.drops[k];
    assert HasRoom(sub) ==> after.history[|sub.history|] == Live(now);
    assert !HasRoom(sub) ==> after.drops[|sub.drops|].index == now;
  }

  lemma {:induction false} SendCount(sub: Sub, now: nat)
    requires CountOk(sub, now) && !sub.left
    ensures CountOk(Send(sub, now), now + 1)
  {
  }

  lemma {:induction false} SendReplays(sub: Sub, now: nat, e: Event)
    requires ReplayOk(sub, e)
    ensures ReplayOk(Send(sub, now), e)
  {
    if HasRoom(sub) {
      var after := sub.history + [Live(now)];
      assert forall k :: 0 <= k < |sub.history| ==> after[k] == sub.history[k];
      assert Replay(e) in after <==> Replay(e) in sub.history;
    }
  }

  lemma {:induction false} SendKeeps(sub: Sub, now: nat)
    requires SubOk(sub, now) && !sub.left
    ensures SubOk(Send(sub, now), now + 1)
  {
    hide LiveOk, DropsOk, ReplayOk, CountOk, Send;
    SendLive(sub, now);
    SendDrops(sub, now);
    SendCount(sub, now);
    SendReplays(sub, now, SessionStarted);
    SendReplays(sub, now, EnsureError);
  }

  lemma {:induction false} OffListKeeps(sub: Sub, now: nat)
    requires SubOk(sub, now) && sub.left
    ensures SubOk(sub, now + 1)
  {
  }

  lemma {:induction false} EmitSubs(s: State, event: Event)
    requires SubsOk(s) && ListOk(s.subs, s.listed, s.shut)
    ensures SubsOk(Emit(s, event))
  {
    hide SubOk, Send;
    forall id | id in s.subs
      ensures SubOk(Emit(s, event).subs[id], |s.log| + 1) && SawRight(Emit(s, event), Emit(s, event).subs[id])
    {
      SendSame(s.subs[id], |s.log|);
      SubSince(s.subs[id], |s.log|);
      if id in s.listed {
        SendKeeps(s.subs[id], |s.log|);
      } else {
        OffListKeeps(s.subs[id], |s.log|);
      }
    }
  }

  lemma {:induction false} SendSame(sub: Sub, index: nat)
    ensures var after := Send(sub, index);
            && after.sawStarted == sub.sawStarted && after.since == sub.since && after.sawError == sub.sawError
            && after.left == sub.left && after.at == sub.at && after.calls == sub.calls && after.closes == sub.closes
  {
  }

  lemma {:induction false} SubSince(sub: Sub, now: nat)
    requires SubOk(sub, now)
    ensures sub.since <= now && sub.taken <= |sub.history|
  {
  }

  lemma {:induction false} OpenWhileListed(subs: map<nat, Sub>, listed: set<nat>, shut: set<nat>)
    requires ListOk(subs, listed, shut)
    ensures listed !! shut
  {
    forall id | id in listed ensures id !in shut {
      assert ChannelOk(subs[id], id in listed, id in shut);
    }
  }

  lemma {:induction false} SendAllEach(subs: map<nat, Sub>, listed: set<nat>, index: nat)
    ensures SendAll(subs, listed, index).Keys == subs.Keys
    ensures forall id :: id in subs ==>
              SendAll(subs, listed, index)[id] == if id in listed then Send(subs[id], index) else subs[id]
  {
  }

  /** No channel on the list is closed, so emitting does not panic. */
  lemma {:induction false} EmitChannels(s: State, event: Event)
    requires ChannelsOk(s)
    ensures ChannelsOk(Emit(s, event)) && Emit(s, event).panicked == s.panicked
  {
    hide Send, ChannelOk, SendAll;
    OpenWhileListed(s.subs, s.listed, s.shut);
    SendAllList(s.subs, s.listed, s.shut, |s.log|);
  }

  lemma {:induction false} SendAllList(subs: map<nat, Sub>, listed: set<nat>, shut: set<nat>, index: nat)
    ensures ListOk(subs, listed, shut) ==> ListOk(SendAll(subs, listed, index), listed, shut)
    ensures ClosedTwice(SendAll(subs, listed, index)) <==> ClosedTwice(subs)
  {
    hide Send, SendAll;
    SendAllEach(subs, listed, index);
    var after := SendAll(subs, listed, index);
    forall id | id in subs
      ensures after[id].closes == subs[id].closes
      ensures ChannelOk(subs[id], id in listed, id in shut) ==> ChannelOk(after[id], id in listed, id in shut)
    {
      SendSame(subs[id], index);
    }
  }

  /** Steps that touch neither list nor channels. */
  lemma {:induction false} ChannelsOnly(s: State, t: State)
    requires ChannelsOk(s) && t.subs == s.subs && t.listed == s.listed && t.shut == s.shut
    requires t.panicked == s.panicked
    ensures ChannelsOk(t)
  {
  }

  lemma {:induction false} ReplayKeeps(sub: Sub, now: nat)
    requires SubOk(sub, now) && sub.at != Held && !sub.left
    ensures SubOk(ReplayNext(sub), now)
  {
    hide LiveOk, DropsOk, ReplayOk, CountOk, ReplayNext;
    ReplayKeepsLive(sub, now);
    ReplayKeepsDrops(sub, now);
    ReplayKeepsCount(sub, now);
    ReplayKeepsReplays(sub, SessionStarted);
    ReplayKeepsReplays(sub, EnsureError);
  }

  /** The announcement a replay step is about. */
  function Topic(sub: Sub): Event
  {
    if sub.at == ReplayStarted then SessionStarted else EnsureError
  }

  /** A replay step adds the one replay that was seen and for which there is room. */
  lemma {:induction false} ReplayAdds(sub: Sub)
    requires sub.at != Held
    ensures var (after, topic) := (ReplayNext(sub), Topic(sub));
            && (if Saw(sub, topic) && HasRoom(sub) then
                  after.history == sub.history + [Replay(topic)] && after.waiting <= sub.waiting
                  && after.taken == sub.taken + (if sub.waiting > 0 then 1 else 0)
                  && after.waiting == sub.waiting - (if sub.waiting > 0 then 1 else 0)
                else after.history == sub.history && after.taken == sub.taken && after.waiting == sub.waiting)
            && after.lost == sub.lost + (if Saw(sub, topic) && !HasRoom(sub) then {topic} else {})
            && after.drops == sub.drops && after.since == sub.since && after.left == sub.left
            && after.until == sub.until && after.cap == sub.cap
            && after.sawStarted == sub.sawStarted && after.sawError == sub.sawError
            && after.at == (if sub.at == ReplayStarted then ReplayError else Held)
            && after.calls == sub.calls && after.closes == sub.closes
  {
  }

  lemma {:induction false} ReplayKeepsLive(sub: Sub, now: nat)
    requires LiveOk(sub, now) && sub.at != Held && !sub.left
    ensures LiveOk(ReplayNext(sub), now)
  {
    hide ReplayNext;
    ReplayAdds(sub);
    var after := ReplayNext(sub);
    assert forall k :: 0 <= k < |sub.history| ==> after.history[k] == sub.history[k];
  }

  lemma {:induction false} ReplayKeepsDrops(sub: Sub, now: nat)
    requires DropsOk(sub, now) && sub.at != Held && !sub.left
    ensures DropsOk(ReplayNext(sub), now)
  {
    hide ReplayNext;
    ReplayAdds(sub);
    var after := ReplayNext(sub);
    assert forall k :: 0 <= k < |sub.history| ==> after.history[k] == sub.history[k];
    forall i | sub.since <= i < now ensures Got(after, i) <==> !Missed(after, i) {
      assert Got(sub, i) <==> Got(after, i);
      assert Missed(sub, i) <==> Missed(after, i);
    }
  }

  lemma {:induction false} ReplayKeepsCount(sub: Sub, now: nat)
    requires CountOk(sub, now) && LiveOk(sub, now) && sub.at != Held && !sub.left
    ensures CountOk(ReplayNext(sub), now)
  {
    hide ReplayNext;
    ReplayAdds(sub);
  }

  lemma {:induction false} ReplayKeepsReplays(sub: Sub, e: Event)
    requires ReplayOk(sub, e) && sub.at != Held && e in {SessionStarted, EnsureError}
    ensures ReplayOk(ReplayNext(sub), e)
  {
    hide ReplayNext;
    ReplayAdds(sub);
    var after := ReplayNext(sub);
    assert forall k :: 0 <= k < |sub.history| ==> after.history[k] == sub.history[k];
    if |after.history| > |sub.history| {
      assert after.history[|sub.history|] == Replay(Topic(sub));
      assert Replay(e) in after.history <==> Replay(e) in sub.history || e == Topic(sub);
    }
  }

  lemma {:induction false} EmitExecutor(s: State, event: Event)
    requires ExecutorOk(s) && !event.FromExecutor?
    ensures ExecutorOk(Emit(s, event))
  {
    hide InBlocks;
    ExecutorEventsNext(s.log, event);
    assert ExecutorEvents(s.log) + [] == ExecutorEvents(s.log);
  }

  lemma {:induction false} StillOnce(log: seq<Event>, event: Event, e: Event)
    requires Once(log, e) && event != e
    ensures Once(log + [event], e) && (e in log + [event] <==> e in log)
  {
    assert forall i :: 0 <= i < |log| ==> (log + [event])[i] == log[i];
  }

  lemma {:induction false} EmitStart(s: State, event: Event)
    requires StartOk(s) && event !in {SessionStarted, EnsureError, EnsureBanner}
    requires event.FromExecutor? ==> s.start == Running
    ensures StartOk(Emit(s, event))
  {
    hide SendAll, Once;
    StillOnce(s.log, event, SessionStarted);
    StillOnce(s.log, event, EnsureError);
    var log := s.log + [event];
    assert forall i :: 0 <= i <= |s.log| ==> log[..i] == s.log[..i];
    assert log[..|s.log|] == s.log;
  }

  lemma {:induction false} StartKeeps(s: State)
    requires Inv(s) && Enabled(s, StartGoesOn)
    ensures Inv(StartNext(s))
  {
    hide SubsOk, ExecutorOk, ChannelsOk;
    if s.start.EmitBanner? || s.start.EmitError? || s.start.EmitStarted? {
      var event := if s.start.EmitBanner? then EnsureBanner else if s.start.EmitError? then EnsureError
            else SessionStarted;
      ListFromInv(s);
      EmitSubs(s, event);
      EmitChannels(s, event);
      ChannelsOnly(Emit(s, event), StartNext(s));
      EmitExecutor(s, event);
      SubsOnlyLogs(Emit(s, event), StartNext(s));
      ExecutorOnly(Emit(s, event), StartNext(s));
      StartEmitKeeps(s, event);
    } else if s.start.Spawn? {
      SubsOnlyLogs(s, StartNext(s));
      ChannelsOnly(s, StartNext(s));
      SpawnExecutor(s);
    } else {
      SubsOnlyLogs(s, StartNext(s));
      ExecutorOnly(s, StartNext(s));
      ChannelsOnly(s, StartNext(s));
    }
  }

  lemma {:induction false} ListFromInv(s: State)
    requires Inv(s)
    ensures ListOk(s.subs, s.listed, s.shut)
  {
  }

  lemma {:induction false} StartEmitKeeps(s: State, event: Event)
    requires StartOk(s) && s.exec == NotSpawned && !s.panicked && event in {EnsureBanner, EnsureError, SessionStarted}
    requires s.start == (if event == EnsureBanner then EmitBanner
          else if event == EnsureError then EmitError else EmitStarted)
    ensures StartOk(StartNext(s))
  {
    var log := s.log + [event];
    assert forall i :: 0 <= i <= |s.log| ==> log[..i] == s.log[..i];
    assert log[|s.log|] == event;
    assert event == SessionStarted ==> SessionStarted in log;
    assert forall i :: 0 <= i < |s.log| ==> log[i] in s.log;
  }

  lemma {:induction false} SpawnExecutor(s: State)
    requires ExecutorOk(s) && s.exec == NotSpawned
    ensures ExecutorOk(s.(exec := Waiting, start := Running))
  {
  }

  /** The subscribers' part looks only at the subscribers and the log. */
  lemma {:induction false} SubsOnlyLogs(s: State, t: State)
    requires SubsOk(s) && t.subs == s.subs && t.log == s.log
    requires (s.startedEvent ==> t.startedEvent) && (s.errorEvent ==> t.errorEvent)
    ensures SubsOk(t)
  {
    hide SubOk;
  }

  lemma {:induction false} ExecutorOnly(s: State, t: State)
    requires ExecutorOk(s) && t.accepted == s.accepted && t.dequeued == s.dequeued && t.items == s.items
    requires t.log == s.log && (t.exec == s.exec || (Issued(t.exec) == Issued(s.exec) && s.dequeued != []
          && t.exec != NotSpawned))
    ensures ExecutorOk(t)
  {
  }

  lemma {:induction false} BlockGrows(events: seq<Event>, dequeued: seq<Action>, kind: Kind)
    requires InBlocks(events, dequeued) && dequeued != [] && |events| == 4 * (|dequeued| - 1) + Place(kind)
    ensures InBlocks(events + [FromExecutor(kind, dequeued[|dequeued| - 1])], dequeued)
  {
    var more := events + [FromExecutor(kind, dequeued[|dequeued| - 1])];
    assert forall i :: 0 <= i < |events| ==> more[i] == events[i];
    assert |events| / 4 == |dequeued| - 1 && |events| % 4 == Place(kind);
  }

  /** The event the executor is about to issue. */
  function Due(s: State): Event
  {
    FromExecutor(match s.exec
                 case EmitBusy => Busy
                 case EmitActionStarted => Started
                 case EmitFinished(ok) => Finished(ok)
                 case _ => Idle,
                 InFlight(s))
  }

  lemma {:induction false} ExecutorMoves(s: State)
    requires Enabled(s, ExecutorEmits)
    ensures var (t, u) := (Emit(s, Due(s)), ExecNext(s));
            && u == t.(exec := u.exec) && s.exec != NotSpawned && u.exec != NotSpawned
            && Issued(s.exec) == Place(Due(s).kind)
            && (s.dequeued != [] ==> Due(s) == FromExecutor(Due(s).kind, s.dequeued[|s.dequeued| - 1]))
            && Issued(u.exec) == (if Issued(s.exec) == 3 then 4 else Issued(s.exec) + 1)
  {
    hide Emit;
  }

  lemma {:induction false} IssuedFour(s: State)
    requires Enabled(s, ExecutorEmits)
    ensures s.exec !in {NotSpawned, Waiting, Stopped} && Due(s).FromExecutor?
  {
  }

  lemma {:induction false} ExecutorEmitBlocks(s: State)
    requires ExecutorOk(s) && Enabled(s, ExecutorEmits)
    ensures ExecutorOk(ExecNext(s))
  {
    hide InBlocks, ExecNext, Due, SendAll, Issued, Place;
    ExecutorMoves(s);
    IssuedFour(s);
    ExecutorEventsNext(s.log, Due(s));
    BlockGrows(ExecutorEvents(s.log), s.dequeued, Due(s).kind);
  }

  lemma {:induction false} ExecutorEmitKeeps(s: State)
    requires Inv(s) && Enabled(s, ExecutorEmits)
    ensures Inv(ExecNext(s))
  {
    ListFromInv(s);
    hide SubsOk, StartOk, ExecutorOk, ChannelsOk, ExecNext;
    ExecutorEmitBlocks(s);
    ExecutorMoves(s);
    ExecutorRuns(s);
    EmitSubs(s, Due(s));
    EmitChannels(s, Due(s));
    ChannelsOnly(Emit(s, Due(s)), ExecNext(s));
    EmitStart(s, Due(s));
    StartOnly(Emit(s, Due(s)), ExecNext(s));
    SubsOnlyLogs(Emit(s, Due(s)), ExecNext(s));
  }

  lemma {:induction false} ExecutorRuns(s: State)
    requires StartOk(s) && s.exec != NotSpawned
    ensures s.start == Running
  {
  }

  lemma {:induction false} StartOnly(s: State, t: State)
    requires StartOk(s) && t.log == s.log && t.start == s.start && t.startedEvent == s.startedEvent
    requires t.errorEvent == s.errorEvent && (s.exec == NotSpawned ==> t.exec == NotSpawned)
    ensures StartOk(t)
  {
  }

  lemma {:induction false} DequeueKeeps(s: State)
    requires Inv(s) && Enabled(s, Dequeues)
    ensures Inv(Next(s, Dequeues))
  {
    hide SubsOk, StartOk, ChannelsOk;
    var t := Next(s, Dequeues);
    StartOnly(s, t);
    ChannelsOnly(s, t);
    SubsOnlyLogs(s, t);
    assert s.items == [s.items[0]] + s.items[1..];
    assert forall i :: 0 <= i < |s.dequeued| ==> t.dequeued[i] == s.dequeued[i];
  }

  lemma {:induction false} OneSubKeeps(s: State, t: State, id: nat, sub: Sub)
    requires SubsOk(s) && SubOk(sub, |s.log|) && SawRight(s, sub)
    requires t.log == s.log && t.subs == s.subs[id := sub]
    requires t.startedEvent == s.startedEvent && t.errorEvent == s.errorEvent
    ensures SubsOk(t)
  {
    hide SubOk, SawRight;
    forall k | k in t.subs ensures SubOk(t.subs[k], |t.log|) && SawRight(t, t.subs[k]) {
      SawSame(s, t, t.subs[k]);
    }
  }

  lemma {:induction false} SawSame(s: State, t: State, sub: Sub)
    requires t.log == s.log && t.startedEvent == s.startedEvent && t.errorEvent == s.errorEvent
    ensures SawRight(s, sub) <==> SawRight(t, sub)
  {
  }

  /** A new subscriber: listed from now on, with nothing in its channel. */
  lemma {:induction false} SubscribeKeeps(s: State, id: nat, cap: nat)
    requires Inv(s) && Enabled(s, Subscribes(id, cap))
    ensures SubsOk(Next(s, Subscribes(id, cap)))
  {
    hide SubsOk, SubOk, SawRight, ExecutorOk, StartOk, ChannelsOk;
    var sub := Subscribed(s.startedEvent, s.errorEvent, cap, |s.log|);
    FreshSub(s, sub);
    OneSubKeeps(s, Next(s, Subscribes(id, cap)), id, sub);
  }

  lemma {:induction false} FreshSub(s: State, sub: Sub)
    requires StartOk(s) && exists cap :: sub == Subscribed(s.startedEvent, s.errorEvent, cap, |s.log|)
    ensures SubOk(sub, |s.log|) && SawRight(s, sub)
  {
  }

  /** Receiving, unsubscribing and closing leave what was sent and what was not sent alone. */
  lemma {:induction false} OwnerStepKeeps(sub: Sub, after: Sub, now: nat)
    requires SubOk(sub, now)
    requires after == sub.(taken := after.taken, waiting := after.waiting, left := after.left, until := after.until,
                           calls := after.calls, closes := after.closes)
    requires Upto(after, now) == Upto(sub, now) && sub.taken <= after.taken <= |sub.history|
    requires after.waiting > 0 ==> after.taken == |sub.history|
    ensures SubOk(after, now)
  {
    assert forall i :: Got(after, i) == Got(sub, i) && Missed(after, i) == Missed(sub, i);
  }

  /** Steps of Subscribe, of a receiver and of Unsubscribe. */
  predicate OnChannel(e: Step)
  {
    e.ReplayGoesOn? || e.Receives? || e.ReceiverLeaves? || e.Unsubscribes? || e.ClosesChannel?
  }

  /** What a step of Subscribe, of a receiver or of Unsubscribe makes of its subscription. */
  function Moved(s: State, e: Step): Sub
    requires Enabled(s, e) && OnChannel(e)
  {
    var sub := s.subs[e.id];
    match e
    case ReplayGoesOn(_) => ReplayNext(sub)
    case Receives(_) => Receive(sub, e.id in s.shut)
    case ReceiverLeaves(_) => sub.(waiting := sub.waiting - 1)
    case Unsubscribes(_) => Unlisted(sub, |s.log|)
    case ClosesChannel(_) => Closed(sub)
  }

  lemma {:induction false} MovedOne(s: State, e: Step)
    requires Enabled(s, e) && OnChannel(e)
    ensures e.id in s.subs && !s.panicked
    ensures var t := Next(s, e);
            t == s.(subs := s.subs[e.id := Moved(s, e)],
                    listed := if e.Unsubscribes? then s.listed - {e.id} else s.listed,
                    shut := if e.ClosesChannel? then s.shut + {e.id} else s.shut,
                    panicked := e.id in s.shut && (e.ClosesChannel? || (e.ReplayGoesOn? && TriesReplay(s.subs[e.id]))))
  {
    hide ReplayNext, Receive, Unlisted, Closed, TriesReplay;
  }

  lemma {:induction false} ChannelStepKeeps(s: State, e: Step)
    requires Inv(s) && Enabled(s, e) && OnChannel(e)
    ensures SubsOk(Next(s, e))
  {
    ChannelFromInv(s, e.id);
    MovedKeeps(s, e);
    MovedOne(s, e);
    hide ChannelsOk, ExecutorOk, StartOk, SubsOk, Next, Moved, SubOk, SawRight, Enabled;
    OneSubKeeps(s, Next(s, e), e.id, Moved(s, e));
  }

  lemma {:induction false} ChannelFromInv(s: State, id: nat)
    requires Inv(s) && id in s.subs
    ensures ChannelOk(s.subs[id], id in s.listed, id in s.shut)
    ensures SubOk(s.subs[id], |s.log|) && SawRight(s, s.subs[id])
  {
    hide StartOk, ExecutorOk, SubOk, SawRight, ChannelOk;
  }

  lemma {:induction false} MovedKeeps(s: State, e: Step)
    requires Enabled(s, e) && OnChannel(e)
    requires ChannelOk(s.subs[e.id], e.id in s.listed, e.id in s.shut)
    requires SubOk(s.subs[e.id], |s.log|) && SawRight(s, s.subs[e.id])
    ensures SubOk(Moved(s, e), |s.log|) && SawRight(s, Moved(s, e))
  {
    var sub := s.subs[e.id];
    SubLive(sub, |s.log|);
    hide SubOk, ReplayNext;
    if e.ReplayGoesOn? {
      ReplayKeeps(sub, |s.log|);
      ReplayAdds(sub);
    } else {
      OwnerStepKeeps(sub, Moved(s, e), |s.log|);
    }
  }

  lemma {:induction false} SubLive(sub: Sub, now: nat)
    requires SubOk(sub, now)
    ensures LiveOk(sub, now)
  {
  }

  /** The list and the closed channels through the steps that change them. */
  lemma {:induction false} ListStepKeeps(s: State, e: Step)
    requires ChannelsOk(s) && Enabled(s, e) && OnChannel(e)
    ensures ChannelsOk(Next(s, e))
  {
    hide Next, Moved, Enabled, ChannelOk, TriesReplay;
    MovedOne(s, e);
    assert ChannelOk(s.subs[e.id], e.id in s.listed, e.id in s.shut);
    MovedList(s, e);
    var t, after := Next(s, e), Moved(s, e);
    MovedPanics(s, e);
    forall id | id in t.subs ensures ChannelOk(t.subs[id], id in t.listed, id in t.shut) {
      assert id != e.id ==> t.subs[id] == s.subs[id] && ChannelOk(s.subs[id], id in s.listed, id in s.shut);
    }
    if t.panicked {
      assert t.subs[e.id].closes >= 2;
    }
    assert forall id :: id in s.subs ==> s.subs[id].closes < 2;
  }

  lemma {:induction false} MovedPanics(s: State, e: Step)
    requires Enabled(s, e) && OnChannel(e)
    requires ChannelOk(s.subs[e.id], e.id in s.listed, e.id in s.shut) && s.subs[e.id].closes < 2
    ensures Next(s, e).panicked <==> Moved(s, e).closes >= 2
  {
    MovedOne(s, e);
    MovedList(s, e);
    hide Next, Moved, Enabled;
  }

  lemma {:induction false} MovedList(s: State, e: Step)
    requires Enabled(s, e) && OnChannel(e)
    requires ChannelOk(s.subs[e.id], e.id in s.listed, e.id in s.shut)
    ensures ChannelOk(Moved(s, e), e.id in s.listed && !e.Unsubscribes?, e.id in s.shut || e.ClosesChannel?)
    ensures Moved(s, e).closes == s.subs[e.id].closes + (if e.ClosesChannel? then 1 else 0)
    ensures e.ReplayGoesOn? ==> e.id !in s.shut
  {
    if e.ReplayGoesOn? {
      ReplayAdds(s.subs[e.id]);
    }
    hide ReplayNext;
  }

  lemma {:induction false} EnlistKeeps(s: State, id: nat, cap: nat)
    requires ChannelsOk(s) && Enabled(s, Subscribes(id, cap))
    ensures ChannelsOk(Next(s, Subscribes(id, cap)))
  {
    var t := Next(s, Subscribes(id, cap));
    forall k | k in t.subs ensures ChannelOk(t.subs[k], k in t.listed, k in t.shut) {
      assert k != id ==> t.subs[k] == s.subs[k] && ChannelOk(s.subs[k], k in s.listed, k in s.shut);
    }
    assert forall k :: k in s.subs ==> s.subs[k].closes < 2;
  }

  /** Every step keeps the invariant. */
  lemma {:induction false} NextKeeps(s: State, e: Step)
    requires Inv(s) && Enabled(s, e)
    ensures Inv(Next(s, e))
  {
    hide SubsOk, StartOk, ExecutorOk, ChannelsOk, ListOk, Emit, StartNext, ExecNext, ReplayNext, InFlight, SendAll;
    ListFromInv(s);
    var t := Next(s, e);
    match e
    case StartGoesOn => StartKeeps(s);
    case Dequeues => DequeueKeeps(s);
    case ExecutorEmits => ExecutorEmitKeeps(s);
    case OtherEmits(n) =>
      EmitSubs(s, Other(n));
      EmitChannels(s, Other(n));
      EmitExecutor(s, Other(n));
      EmitStart(s, Other(n));
    case Subscribes(id, cap) =>
      SubscribeKeeps(s, id, cap);
      EnlistKeeps(s, id, cap);
      StartOnly(s, t);
      ExecutorOnly(s, t);
    case Submits(a) =>
      SubsOnlyLogs(s, t);
      ChannelsOnly(s, t);
      StartOnly(s, t);
      SubmitKeeps(s, a);
    case StartCalled => SmallStepKeeps(s, e);
    case EnsureReturns(_) => SmallStepKeeps(s, e);
    case QueueCloses => SmallStepKeeps(s, e);
    case ExecutorStops => SmallStepKeeps(s, e);
    case HandlerReturns(_) => SmallStepKeeps(s, e);
    case _ =>
      ChannelStepKeeps(s, e);
      ListStepKeeps(s, e);
      StartOnly(s, t);
      ExecutorOnly(s, t);
  }

  lemma {:induction false} SubmitKeeps(s: State, a: Action)
    requires Inv(s) && Enabled(s, Submits(a))
    ensures ExecutorOk(Next(s, Submits(a)))
  {
    assert s.dequeued + s.items + [a] == s.dequeued + (s.items + [a]);
  }

  lemma {:induction false} SmallStepKeeps(s: State, e: Step)
    requires Inv(s) && Enabled(s, e)
    requires e.StartCalled? || e.EnsureReturns? || e.QueueCloses? || e.ExecutorStops? || e.HandlerReturns?
    ensures Inv(Next(s, e))
  {
    hide SubsOk, ChannelsOk, InBlocks, Emit, StartNext, ExecNext, ReplayNext, Receive, Once;
    SubsOnlyLogs(s, Next(s, e));
    ChannelsOnly(s, Next(s, e));
  }

  lemma {:induction false} InitialOk()
    ensures Inv(Initial()) && !Initial().panicked
  {
  }

  lemma {:induction false} RunKeeps(steps: seq<Step>, states: seq<State>, k: nat)
    requires IsRun(steps, states) && k < |states|
    ensures Inv(states[k])
  {
    if k > 0 {
      RunKeeps(steps, states, k - 1);
      hide Inv, Next, Enabled;
      NextKeeps(states[k - 1], steps[k - 1]);
    }
  }

  // ----- what it promises

  /**
   * In every reachable state, whatever else was emitted in between, the executor's events are blocks of
   * busy, started, finished, idle, one block for each dequeued action in the order they were accepted,
   * with at most the last block incomplete: never two actions in flight.
   */
  lemma {:induction false} SerializedHistory(steps: seq<Step>, states: seq<State>, k: nat)
    requires IsRun(steps, states) && k < |states|
    ensures var s := states[k];
            && InBlocks(ExecutorEvents(s.log), s.dequeued) && s.dequeued <= s.accepted
            && 4 * |s.dequeued| - 4 <= |ExecutorEvents(s.log)| <= 4 * |s.dequeued|
            && (s.exec in {NotSpawned, Waiting, Stopped} ==> |ExecutorEvents(s.log)| == 4 * |s.dequeued|)
  {
    RunKeeps(steps, states, k);
  }

  /** No event of the executor precedes the start of the session, and there is none if the capsule failed. */
  lemma {:induction false} NothingBeforeStart(steps: seq<Step>, states: seq<State>, k: nat, i: nat)
    requires IsRun(steps, states) && k < |states| && i < |states[k].log| && states[k].log[i].FromExecutor?
    ensures SessionStarted in states[k].log[..i]
    ensures states[k].start == Running && !states[k].errorEvent
  {
    RunKeeps(steps, states, k);
    SomeExecutorEvent(states[k].log, i);
    assert SessionStarted in states[k].log by {
      var j :| 0 <= j < i && states[k].log[..i][j] == SessionStarted;
      assert states[k].log[j] == SessionStarted;
    }
  }

  lemma {:induction false} SomeExecutorEvent(log: seq<Event>, i: nat)
    requires i < |log| && log[i].FromExecutor?
    ensures ExecutorEvents(log) != []
    decreases |log|
  {
    if i < |log| - 1 {
      SomeExecutorEvent(log[..|log| - 1], i);
    }
  }

  /**
   * Fan-out: what a channel has been sent, replays aside, is the log from the subscription on, in order
   * and without repetition; an event is missing exactly when it was dropped, and then the channel was
   * full and nobody was waiting at it. No channel ever holds more than its capacity.
   */
  lemma {:induction false} FanOut(steps: seq<Step>, states: seq<State>, k: nat, id: nat)
    requires IsRun(steps, states) && k < |states| && id in states[k].subs
    ensures var (sub, now) := (states[k].subs[id], |states[k].log|);
            && |sub.history| - sub.taken <= sub.cap && sub.since <= Upto(sub, now) <= now
            && (forall i, j :: 0 <= i < j < |sub.history| && sub.history[i].Live? && sub.history[j].Live? ==>
                  sub.history[i].index < sub.history[j].index)
            && (forall i: nat :: Got(sub, i) ==> sub.since <= i < Upto(sub, now))
            && (forall i :: sub.since <= i < Upto(sub, now) ==> (Got(sub, i) <==> !Missed(sub, i)))
            && (forall i :: 0 <= i < |sub.drops| ==> sub.drops[i].backlog == sub.cap && sub.drops[i].receivers == 0)
  {
    RunKeeps(steps, states, k);
  }

  /** The event an entry of a channel carries. */
  function Carried(log: seq<Event>, e: Entry): Event
  {
    match e
    case Replay(event) => event
    case Live(i) => if i < |log| then log[i] else Other(0)
  }

  predicate Heard(log: seq<Event>, history: seq<Entry>, e: Event)
  {
    exists x :: 0 <= x < |history| && Carried(log, history[x]) == e
  }

  /** A subscriber never hears more than twice that the session has started, or that it failed to. */
  lemma {:induction false} HeardAtMostTwice(steps: seq<Step>, states: seq<State>, k: nat, id: nat, e: Event,
                                            x: nat, y: nat, z: nat)
    requires IsRun(steps, states) && k < |states| && id in states[k].subs && e in {SessionStarted, EnsureError}
    requires var (log, history) := (states[k].log, states[k].subs[id].history);
             && x <= y <= z < |history|
             && Carried(log, history[x]) == Carried(log, history[y]) == Carried(log, history[z]) == e
    ensures x == y || y == z
  {
    RunKeeps(steps, states, k);
    var s, sub := states[k], states[k].subs[id];
    assert SubOk(sub, |s.log|) && StartOk(s);
    hide SubsOk, ExecutorOk, StartOk, SubOk;
    TwoOfAKind(s, sub, e, x, y);
    TwoOfAKind(s, sub, e, y, z);
    TwoOfAKind(s, sub, e, x, z);
  }

  /** Two announcements of the same thing at different places are one live and one replayed. */
  lemma {:induction false} TwoOfAKind(s: State, sub: Sub, e: Event, x: nat, y: nat)
    requires StartOk(s) && SubOk(sub, |s.log|) && x <= y < |sub.history| && e in {SessionStarted, EnsureError}
    requires Carried(s.log, sub.history[x]) == Carried(s.log, sub.history[y]) == e
    ensures x == y || (sub.history[x].Live? <==> sub.history[y].Replay?)
  {
    assert Once(s.log, e) && ReplayedOnce(sub, e);
  }

  /**
   * Under any race of Start and Subscribe: once the start has been emitted, or its failure, a subscriber
   * that Subscribe has returned to was offered it live or as a replay, and has not been told exactly when
   * every copy it was offered was lost to a full channel.
   */
  lemma {:induction false} HeardExactly(steps: seq<Step>, states: seq<State>, k: nat, id: nat, e: Event, i: nat)
    requires IsRun(steps, states) && k < |states| && id in states[k].subs && e in {SessionStarted, EnsureError}
    requires i < Upto(states[k].subs[id], |states[k].log|) && states[k].subs[id].at == Held
    requires i < |states[k].log| && states[k].log[i] == e
    ensures var sub := states[k].subs[id];
            && (sub.since <= i || Saw(sub, e))
            && (Heard(states[k].log, sub.history, e) <==>
                (sub.since <= i && !Missed(sub, i)) || (Saw(sub, e) && e !in sub.lost))
  {
    hide Inv, Next, Enabled, SubOk, SawRight, ReplayOk, Carried;
    RunKeeps(steps, states, k);
    var s, sub := states[k], states[k].subs[id];
    ChannelFromInv(s, id);
    StartFromInv(s);
    OfferedOrSeen(s, sub, e, i);
    HeardMeans(s.log, sub, e, i);
    SubMeans(sub, |s.log|, e, i);
  }

  lemma {:induction false} StartFromInv(s: State)
    requires Inv(s)
    ensures StartOk(s)
    ensures Once(s.log, SessionStarted) && Once(s.log, EnsureError)
  {
    hide ExecutorOk, SubsOk, ChannelsOk;
  }

  lemma {:induction false} OfferedOrSeen(s: State, sub: Sub, e: Event, i: nat)
    requires SawRight(s, sub) && i < |s.log| && s.log[i] == e && e in {SessionStarted, EnsureError}
    ensures sub.since <= i || Saw(sub, e)
  {
  }

  /** What is in the channel is what was got live or replayed. */
  lemma {:induction false} SubMeans(sub: Sub, now: nat, e: Event, i: nat)
    requires SubOk(sub, now) && e in {SessionStarted, EnsureError} && i < Upto(sub, now) && sub.at == Held
    ensures Got(sub, i) <==> sub.since <= i && !Missed(sub, i)
    ensures Replay(e) in sub.history <==> Saw(sub, e) && e !in sub.lost
  {
  }

  lemma {:induction false} HeardMeans(log: seq<Event>, sub: Sub, e: Event, i: nat)
    requires Once(log, e) && i < |log| && log[i] == e && e in {SessionStarted, EnsureError}
    ensures Heard(log, sub.history, e) <==> Got(sub, i) || Replay(e) in sub.history
  {
    if Got(sub, i) {
      var x :| 0 <= x < |sub.history| && sub.history[x] == Live(i);
      assert Carried(log, sub.history[x]) == e;
    }
    if Replay(e) in sub.history {
      var x :| 0 <= x < |sub.history| && sub.history[x] == Replay(e);
      assert Carried(log, sub.history[x]) == e;
    }
    if Heard(log, sub.history, e) {
      var x :| 0 <= x < |sub.history| && Carried(log, sub.history[x]) == e;
      assert sub.history[x].Live? ==> sub.history[x] == Live(i);
    }
  }

  /**
   * Nothing at all is lost on a channel whose buffer has room for every event emitted while it was on the
   * list and for one replay; so its owner has heard of the start, or of its failure.
   */
  lemma {:induction false} RoomForAll(steps: seq<Step>, states: seq<State>, k: nat, id: nat)
    requires IsRun(steps, states) && k < |states| && id in states[k].subs
    requires var sub := states[k].subs[id]; sub.cap > Upto(sub, |states[k].log|) - sub.since
    ensures states[k].subs[id].drops == [] && states[k].subs[id].lost == {}
    ensures forall e, i :: e in {SessionStarted, EnsureError} && 0 <= i < Upto(states[k].subs[id], |states[k].log|)
                           && i < |states[k].log| && states[k].log[i] == e && states[k].subs[id].at == Held ==>
              Heard(states[k].log, states[k].subs[id].history, e)
  {
    RunKeeps(steps, states, k);
    var s, sub := states[k], states[k].subs[id];
    assert SubOk(sub, |s.log|) && SawRight(s, sub);
    assert sub.drops == [] && sub.lost == {};
    hide Inv, SubsOk, ExecutorOk, StartOk, SubOk, SawRight;
    forall e, i | e in {SessionStarted, EnsureError} && 0 <= i < Upto(sub, |s.log|)
                  && i < |s.log| && s.log[i] == e && sub.at == Held
      ensures Heard(s.log, sub.history, e)
    {
      HeardExactly(steps, states, k, id, e, i);
    }
  }

  // ----- closing channels

  /**
   * In every reachable state no channel on the list is closed and none is closed while Subscribe still
   * replays to it: no event and no replay is ever sent on a closed channel.
   */
  lemma {:induction false} TargetsAreOpen(steps: seq<Step>, states: seq<State>, k: nat)
    requires IsRun(steps, states) && k < |states|
    ensures states[k].listed !! states[k].shut
    ensures forall id :: id in states[k].subs && states[k].subs[id].at != Held ==> id !in states[k].shut
  {
    RunKeeps(steps, states, k);
  }

  /** So nothing that was sent on a channel, or missed, changes once it is closed. */
  lemma {:induction false} ClosedChannelIsLeftAlone(steps: seq<Step>, states: seq<State>, j: nat, k: nat, id: nat)
    requires IsRun(steps, states) && j <= k < |states| && id in states[j].shut
    ensures id in states[j].subs && id in states[k].subs && id in states[k].shut
    ensures var (before, after) := (states[j].subs[id], states[k].subs[id]);
            after.history == before.history && after.drops == before.drops && after.lost == before.lost
    decreases k
  {
    hide Inv, Next, Enabled;
    RunKeeps(steps, states, j);
    if j == k {
      ClosedIsThere(states[j], id);
    } else {
      ClosedChannelIsLeftAlone(steps, states, j, k - 1, id);
      RunKeeps(steps, states, k - 1);
      ClosedStep(states[k - 1], steps[k - 1], id);
    }
  }

  lemma {:induction false} ClosedStep(s: State, e: Step, id: nat)
    requires Inv(s) && Enabled(s, e) && id in s.shut
    ensures id in s.subs && id in Next(s, e).subs && id in Next(s, e).shut
    ensures var (before, after) := (s.subs[id], Next(s, e).subs[id]);
            after.history == before.history && after.drops == before.drops && after.lost == before.lost
  {
    hide Inv, ListOk, Send, ReplayNext, SendAll, SubOk, SawRight, Next, Enabled;
    ListFromInv(s);
    ClosedIsThere(s, id);
    ChannelFromInv(s, id);
    OpenWhileListed(s.subs, s.listed, s.shut);
    SendAllEach(s.subs, s.listed, |s.log|);
    if OnChannel(e) {
      MovedOne(s, e);
      if e.id == id {
        MovedAway(s, e);
      }
    } else {
      StepOffChannels(s, e);
    }
  }

  lemma {:induction false} ClosedIsThere(s: State, id: nat)
    requires Inv(s) && id in s.shut
    ensures id in s.subs
  {
    hide SubsOk, StartOk, ExecutorOk;
  }

  lemma {:induction false} EmitIs(s: State, event: Event)
    ensures Emit(s, event).shut == s.shut && Emit(s, event).subs == SendAll(s.subs, s.listed, |s.log|)
    ensures s.listed !! s.shut ==> Emit(s, event).panicked == s.panicked
  {
    hide SendAll;
  }

  lemma {:induction false} StartOff(s: State)
    requires Enabled(s, StartGoesOn)
    ensures var t := StartNext(s);
            && t.shut == s.shut && (t.subs == s.subs || t.subs == SendAll(s.subs, s.listed, |s.log|))
            && (s.listed !! s.shut ==> t.panicked == s.panicked)
  {
    hide Emit, SendAll;
    match s.start
    case EmitBanner => EmitIs(s, EnsureBanner);
    case EmitError => EmitIs(s, EnsureError);
    case EmitStarted => EmitIs(s, SessionStarted);
    case _ =>
  }

  lemma {:induction false} ExecOff(s: State)
    requires Enabled(s, ExecutorEmits)
    ensures var t := ExecNext(s);
            && t.shut == s.shut && t.subs == SendAll(s.subs, s.listed, |s.log|)
            && (s.listed !! s.shut ==> t.panicked == s.panicked)
  {
    hide Emit, InFlight;
    forall event ensures Emit(s, event).shut == s.shut && Emit(s, event).subs == SendAll(s.subs, s.listed, |s.log|)
                         && (s.listed !! s.shut ==> Emit(s, event).panicked == s.panicked) {
      EmitIs(s, event);
    }
  }

  /** The other steps leave the subscribers alone, emit to those on the list, or add one. */
  lemma {:induction false} StepOffChannels(s: State, e: Step)
    requires Enabled(s, e) && !OnChannel(e)
    ensures var t := Next(s, e);
            && t.shut == s.shut && (s.listed !! s.shut ==> !t.panicked)
            && (if e.Subscribes? then
                  e.id !in s.subs && t.subs == s.subs[e.id := Subscribed(s.startedEvent, s.errorEvent, e.cap, |s.log|)]
                else t.subs == s.subs || t.subs == SendAll(s.subs, s.listed, |s.log|))
  {
    hide Emit, StartNext, ExecNext, SendAll, Subscribed;
    match e
    case StartGoesOn => StartOff(s);
    case ExecutorEmits => ExecOff(s);
    case OtherEmits(n) => EmitIs(s, Other(n));
    case _ =>
  }

  lemma {:induction false} MovedAway(s: State, e: Step)
    requires Enabled(s, e) && OnChannel(e)
    requires ChannelOk(s.subs[e.id], e.id in s.listed, true)
    ensures var (before, after) := (s.subs[e.id], Moved(s, e));
            after.history == before.history && after.drops == before.drops && after.lost == before.lost
  {
    hide ReplayNext;
  }

  /**
   * The one way to a panic is to close a channel a second time. A session that unsubscribes every channel
   * at most once never panics; and once some channel has been unsubscribed twice, the session has panicked
   * or one of those calls has yet to close it, which it then is able to do.
   */
  lemma {:induction false} PanicsExactly(steps: seq<Step>, states: seq<State>, k: nat)
    requires IsRun(steps, states) && k < |states|
    ensures states[k].panicked <==> ClosedTwice(states[k].subs)
    ensures states[k].panicked ==> k > 0 && steps[k - 1].ClosesChannel? && steps[k - 1].id in states[k - 1].shut
    ensures states[k].panicked ==> exists id :: id in states[k].subs && states[k].subs[id].calls >= 2
    ensures forall id :: id in states[k].subs && states[k].subs[id].calls >= 2 && !states[k].panicked ==>
              Enabled(states[k], ClosesChannel(id)) &&
              (states[k].subs[id].closes == 1 ==> Next(states[k], ClosesChannel(id)).panicked)
  {
    hide Inv, ClosedTwice, Next, Enabled, Initial;
    RunKeeps(steps, states, k);
    CallsBeforeCloses(states[k]);
    if k == 0 {
      InitialOk();
    } else {
      RunKeeps(steps, states, k - 1);
      PanicStep(states[k - 1], steps[k - 1]);
    }
  }

  lemma {:induction false} CallsBeforeCloses(s: State)
    requires Inv(s)
    ensures s.panicked <==> ClosedTwice(s.subs)
    ensures s.panicked ==> exists id :: id in s.subs && s.subs[id].calls >= 2
    ensures forall id :: id in s.subs && s.subs[id].calls >= 2 && !s.panicked ==>
              Enabled(s, ClosesChannel(id)) && (s.subs[id].closes == 1 ==> Next(s, ClosesChannel(id)).panicked)
  {
    hide SubsOk, StartOk, ExecutorOk;
    forall id | id in s.subs ensures ChannelOk(s.subs[id], id in s.listed, id in s.shut) {
    }
  }

  lemma {:induction false} PanicStep(s: State, e: Step)
    requires Inv(s) && Enabled(s, e)
    ensures Next(s, e).panicked <==> e.ClosesChannel? && e.id in s.shut
  {
    hide Inv, ListOk, Next, Enabled;
    ListFromInv(s);
    OpenWhileListed(s.subs, s.listed, s.shut);
    if OnChannel(e) {
      MovedOne(s, e);
      ChannelFromInv(s, e.id);
    } else {
      StepOffChannels(s, e);
    }
  }

  // ----- the object

  ghost predicate AllOk(subs: map<nat, Sub>, now: nat)
  {
    forall id :: id in subs ==> SubOk(subs[id], now)
  }

  lemma {:induction false} SendAllKeeps(subs: map<nat, Sub>, listed: set<nat>, shut: set<nat>, now: nat)
    requires AllOk(subs, now) && ListOk(subs, listed, shut)
    ensures AllOk(SendAll(subs, listed, now), now + 1) && ListOk(SendAll(subs, listed, now), listed, shut)
    ensures listed <= subs.Keys && listed !! shut
  {
    hide SubOk, Send, SendAll, ChannelOk;
    OpenWhileListed(subs, listed, shut);
    SendAllList(subs, listed, shut, now);
    SendAllEach(subs, listed, now);
    forall id | id in subs ensures SubOk(SendAll(subs, listed, now)[id], now + 1) {
      assert ChannelOk(subs[id], id in listed, id in shut);
      SendOrNot(subs[id], id in listed, id in shut, now);
    }
  }

  lemma {:induction false} SendOrNot(sub: Sub, listed: bool, shut: bool, now: nat)
    requires SubOk(sub, now) && ChannelOk(sub, listed, shut)
    ensures SubOk(if listed then Send(sub, now) else sub, now + 1)
  {
    hide SubOk, Send;
    if listed {
      SendKeeps(sub, now);
    } else {
      OffListKeeps(sub, now);
    }
  }

  lemma {:induction false} SendAllOne(subs: map<nat, Sub>, todo: set<nat>, id: nat, index: nat)
    requires id in todo && id in subs
    ensures SendAll(subs[id := Send(subs[id], index)], todo - {id}, index) == SendAll(subs, todo, index)
  {
    hide Send;
  }

  lemma {:induction false} SendAllNone(subs: map<nat, Sub>, index: nat)
    ensures SendAll(subs, {}, index) == subs
  {
    hide Send;
  }

  lemma {:induction false} OneChannelKeeps(subs: map<nat, Sub>, listed: set<nat>, shut: set<nat>, now: nat, id: nat,
                                           sub: Sub, on: bool, off: bool)
    requires AllOk(subs, now) && ListOk(subs, listed, shut) && SubOk(sub, now) && ChannelOk(sub, on, off)
    ensures var (l, c) := (if on then listed + {id} else listed - {id}, if off then shut + {id} else shut - {id});
            AllOk(subs[id := sub], now) && ListOk(subs[id := sub], l, c)
  {
    hide SubOk, ChannelOk;
    forall k | k in subs && k != id ensures ChannelOk(subs[k], k in listed, k in shut) {
    }
  }

  lemma {:induction false} FreshChannel(started: bool, error: bool, cap: nat, now: nat)
    ensures SubOk(Subscribed(started, error, cap, now), now)
    ensures ChannelOk(Subscribed(started, error, cap, now), true, false)
  {
  }

  lemma {:induction false} NotYetShut(subs: map<nat, Sub>, listed: set<nat>, shut: set<nat>, id: nat)
    requires ListOk(subs, listed, shut) && id !in subs
    ensures shut - {id} == shut && id !in shut
  {
  }

  lemma {:induction false} ChannelIn(subs: map<nat, Sub>, listed: set<nat>, shut: set<nat>, now: nat, id: nat)
    requires AllOk(subs, now) && ListOk(subs, listed, shut) && id in subs
    ensures SubOk(subs[id], now) && ChannelOk(subs[id], id in listed, id in shut)
    ensures id in listed ==> id !in shut
    ensures (if id in listed then listed + {id} else listed - {id}) == listed
    ensures (if id in shut then shut + {id} else shut - {id}) == shut
  {
    hide SubOk;
  }

  /** What Subscribe has to replay. */
  function Grounds(startedEvent: bool, errorEvent: bool): seq<Event>
  {
    (if startedEvent then [SessionStarted] else []) + (if errorEvent then [EnsureError] else [])
  }

  /** As much of that as a fresh channel takes. */
  function Fitting(events: seq<Event>, cap: nat): seq<Entry>
  {
    var n := if |events| < cap then |events| else cap;
    seq(n, k requires 0 <= k < n => Replay(events[k]))
  }

  lemma {:induction false} ReplaysFit(started: bool, error: bool, cap: nat, now: nat)
    ensures var first := Subscribed(started, error, cap, now);
            var last := ReplayNext(ReplayNext(first));
            && first.at != Held && ReplayNext(first).at != Held && last.at == Held && !last.left && last.taken == 0
            && last.history == Fitting(Grounds(started, error), cap)
  {
    assert Fitting([], cap) == [];
    if started && cap > 0 {
      assert Fitting([SessionStarted], cap) == [Replay(SessionStarted)];
    }
  }

  /**
   * The part of a session that subscribers share. Subscribe and Unsubscribe are what their critical
   * sections come to when no other goroutine comes between them.
   */
  class Fanout {
    var startedEvent: bool
    var errorEvent: bool
    var subs: map<nat, Sub>
    var listed: set<nat>
    var shut: set<nat>
    ghost var log: seq<Event>
    var emitted: nat

    /** The emission counter stands for the position in the log. */
    ghost predicate Valid()
      reads this
    {
      emitted == |log| && AllOk(subs, |log|) && ListOk(subs, listed, shut)
    }

    constructor ()
      ensures Valid() && subs == map[] && listed == shut == {} && log == [] && !startedEvent && !errorEvent
    {
      startedEvent, errorEvent, subs, listed, shut, log, emitted := false, false, map[], {}, {}, [], 0;
    }

    /** The loop over the subscribers, which are visited in any order; every channel sent on is open. */
    method EmitEvent(event: Event)
      requires Valid()
      modifies this`subs, this`log, this`emitted
      ensures Valid() && log == old(log) + [event] && subs == SendAll(old(subs), listed, |old(log)|)
    {
      hide Send, SendAll, AllOk, ListOk;
      ghost var goal := SendAll(subs, listed, |log|);
      SendAllKeeps(subs, listed, shut, |log|);
      var todo := listed;
      while todo != {}
        modifies this`subs
        invariant todo <= listed <= subs.Keys
        invariant SendAll(subs, todo, emitted) == goal
        decreases |todo|
      {
        var id :| id in todo;
        assert id !in shut;
        SendAllOne(subs, todo, id, emitted);
        subs := subs[id := Send(subs[id], emitted)];
        todo := todo - {id};
      }
      SendAllNone(subs, emitted);
      log := log + [event];
      emitted := emitted + 1;
    }

    /** The first part of Subscribe: on the list, with a look at what there is to replay. */
    method List(id: nat, cap: nat)
      requires Valid() && id !in subs
      modifies this`subs, this`listed
      ensures Valid() && listed == old(listed) + {id}
      ensures subs == old(subs)[id := Subscribed(startedEvent, errorEvent, cap, |log|)]
    {
      hide AllOk, ListOk;
      var sub := Sub(ReplayStarted, startedEvent, errorEvent, cap, 0, [], 0, [], {}, emitted, false, 0, 0, 0);
      FreshChannel(startedEvent, errorEvent, cap, emitted);
      NotYetShut(subs, listed, shut, id);
      OneChannelKeeps(subs, listed, shut, emitted, id, sub, true, false);
      subs := subs[id := sub];
      listed := listed + {id};
    }

    /** The rest of Subscribe, twice: a replay, if there is ground for it, by a send that does not block. */
    method ReplayOne(id: nat)
      requires Valid() && id in subs && subs[id].at != Held
      modifies this`subs
      ensures Valid() && subs == old(subs)[id := ReplayNext(old(subs)[id])]
    {
      hide AllOk, ListOk, SubOk;
      var sub := subs[id];
      ChannelIn(subs, listed, shut, emitted, id);
      ReplayKeeps(sub, emitted);
      ReplayAdds(sub);
      assert id !in shut;
      OneChannelKeeps(subs, listed, shut, emitted, id, ReplayNext(sub), id in listed, id in shut);
      if sub.at == ReplayStarted {
        if sub.sawStarted {
          sub := SendReplay(sub, SessionStarted);
        }
        sub := sub.(at := ReplayError);
      } else {
        if sub.sawError {
          sub := SendReplay(sub, EnsureError);
        }
        sub := sub.(at := Held);
      }
      subs := subs[id := sub];
    }

    /** Whoever subscribes undisturbed is on the list and finds in the channel whatever of the grounds fits. */
    method Subscribe(id: nat, cap: nat)
      requires Valid() && id !in subs
      modifies this`subs, this`listed
      ensures Valid() && listed == old(listed) + {id} && subs.Keys == old(subs).Keys + {id}
      ensures forall k :: k in old(subs) ==> subs[k] == old(subs)[k]
      ensures subs[id].at == Held && !subs[id].left && id !in shut
      ensures subs[id].history == Fitting(Grounds(startedEvent, errorEvent), cap) && subs[id].taken == 0
    {
      hide AllOk, ListOk, ReplayNext, Subscribed, Fitting, Grounds;
      NotYetShut(subs, listed, shut, id);
      ReplaysFit(startedEvent, errorEvent, cap, |log|);
      List(id, cap);
      ReplayOne(id);
      ReplayOne(id);
    }

    /** The first part of Unsubscribe: off the list; closing the channel comes after the mutex is released. */
    method Unlist(id: nat)
      requires Valid() && id in subs && subs[id].at == Held
      modifies this`subs, this`listed
      ensures Valid() && listed == old(listed) - {id} && subs == old(subs)[id := Unlisted(old(subs)[id], |log|)]
    {
      hide AllOk, ListOk, SubOk;
      var sub := subs[id];
      ChannelIn(subs, listed, shut, emitted, id);
      SubLive(sub, emitted);
      var after := sub.(calls := sub.calls + 1, left := true, until := if sub.left then sub.until else emitted);
      OwnerStepKeeps(sub, after, emitted);
      OneChannelKeeps(subs, listed, shut, emitted, id, after, false, id in shut);
      subs := subs[id := after];
      listed := listed - {id};
    }

    /** The rest of Unsubscribe: closing the channel panics if it is closed already. */
    method CloseChannel(id: nat) returns (panics: bool)
      requires Valid() && id in subs && subs[id].closes < subs[id].calls
      modifies this`subs, this`shut
      ensures Valid() && (panics <==> id in old(shut)) && shut == old(shut) + {id}
      ensures subs == old(subs)[id := Closed(old(subs)[id])]
    {
      hide AllOk, ListOk, SubOk;
      var sub := subs[id];
      ChannelIn(subs, listed, shut, emitted, id);
      SubLive(sub, emitted);
      OwnerStepKeeps(sub, Closed(sub), emitted);
      OneChannelKeeps(subs, listed, shut, emitted, id, Closed(sub), id in listed, true);
      panics := id in shut;
      shut := shut + {id};
      subs := subs[id := sub.(closes := sub.closes + 1, waiting := 0)];
    }

    /** Unsubscribing closes the channel with all that was sent on it; doing so a second time panics. */
    method Unsubscribe(id: nat) returns (panics: bool)
      requires Valid() && id in subs && subs[id].at == Held
      modifies this`subs, this`listed, this`shut
      ensures Valid() && (panics <==> old(subs)[id].closes > 0)
      ensures listed == old(listed) - {id} && shut == old(shut) + {id} && subs.Keys == old(subs).Keys
      ensures forall k :: k in old(subs) && k != id ==> subs[k] == old(subs)[k]
      ensures subs[id].history == old(subs)[id].history && subs[id].taken == old(subs)[id].taken
      ensures subs[id].drops == old(subs)[id].drops && subs[id].lost == old(subs)[id].lost
    {
      hide AllOk, ListOk;
      ChannelIn(subs, listed, shut, emitted, id);
      Unlist(id);
      panics := CloseChannel(id);
    }
  }
}
