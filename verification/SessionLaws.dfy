/**
 * What the steps of a session's run come to: which way Start goes, which actions are accepted, which statuses
 * are reported, and what subscribers are told. Each law names the steps themselves.
 */
module SessionLaws {
  import opened SessionEvents

  // ----- which way Start goes

  predicate Undecided(s: State)
  {
    s.start in {NotStarted, Ensuring}
  }

  predicate OnFailingPath(s: State)
  {
    s.start in {EmitBanner, RecordError, EmitError, StartFailed}
  }

  predicate OnGoodPath(s: State)
  {
    s.start in {RecordStarted, EmitStarted, Spawn, Running}
  }

  /** Ensure has returned with this outcome in one of the first k steps. */
  ghost predicate Ensured(steps: seq<Step>, k: nat, ok: bool)
    requires k <= |steps|
  {
    exists j :: 0 <= j < k && steps[j] == EnsureReturns(ok)
  }

  lemma {:induction false} EmitOnly(s: State, event: Event)
    ensures var t := Emit(s, event);
            && t.start == s.start && t.exec == s.exec && t.accepted == s.accepted && t.closed == s.closed
  {
    hide SendAll;
  }

  lemma {:induction false} StartGoesOnly(s: State)
    requires Enabled(s, StartGoesOn)
    ensures var t := StartNext(s);
            && t.accepted == s.accepted && t.closed == s.closed
            && !Undecided(s) && !Undecided(t) && (OnFailingPath(t) <==> OnFailingPath(s))
            && (OnGoodPath(t) <==> OnGoodPath(s))
  {
    hide Emit;
    EmitOnly(s, EnsureBanner);
    EmitOnly(s, EnsureError);
    EmitOnly(s, SessionStarted);
  }

  lemma {:induction false} ExecGoesOnly(s: State)
    requires Enabled(s, ExecutorEmits)
    ensures var t := ExecNext(s);
            t.accepted == s.accepted && t.closed == s.closed && t.start == s.start
  {
    hide Emit, InFlight;
    forall event ensures var t := Emit(s, event);
                         t.accepted == s.accepted && t.closed == s.closed && t.start == s.start {
      EmitOnly(s, event);
    }
  }

  lemma {:induction false} StartMoves(s: State, e: Step)
    requires Enabled(s, e)
    ensures var t := Next(s, e);
            if e.EnsureReturns? then Undecided(s) && (if e.ok then OnGoodPath(t) else OnFailingPath(t))
            else (Undecided(t) <==> Undecided(s)) && (OnFailingPath(t) <==> OnFailingPath(s))
                 && (OnGoodPath(t) <==> OnGoodPath(s))
  {
    hide Emit, StartNext, ExecNext, ReplayNext, Receive, Unlisted, Closed, Subscribed, TriesReplay;
    match e
    case StartGoesOn => StartGoesOnly(s);
    case ExecutorEmits => ExecGoesOnly(s);
    case OtherEmits(n) => EmitOnly(s, Other(n));
    case _ =>
  }

  lemma {:induction false} EnsuredNext(steps: seq<Step>, k: nat, ok: bool)
    requires 0 < k <= |steps|
    ensures Ensured(steps, k, ok) <==> Ensured(steps, k - 1, ok) || steps[k - 1] == EnsureReturns(ok)
  {
  }

  lemma {:induction false} WhichWay(steps: seq<Step>, states: seq<State>, k: nat)
    requires IsRun(steps, states) && k < |states|
    ensures Undecided(states[k]) <==> !Ensured(steps, k, true) && !Ensured(steps, k, false)
    ensures OnGoodPath(states[k]) <==> Ensured(steps, k, true)
    ensures OnFailingPath(states[k]) <==> Ensured(steps, k, false)
  {
    hide Next, Enabled;
    if k > 0 {
      WhichWay(steps, states, k - 1);
      StartMoves(states[k - 1], steps[k - 1]);
      EnsuredNext(steps, k, true);
      EnsuredNext(steps, k, false);
      hide Ensured;
    }
  }

  lemma {:induction false} StartHere(s: State)
    requires Inv(s)
    ensures SessionStarted in s.log ==> OnGoodPath(s)
    ensures EnsureError in s.log || EnsureBanner in s.log ==> OnFailingPath(s)
    ensures s.exec != NotSpawned ==> OnGoodPath(s)
    ensures forall i :: 0 <= i < |s.log| && s.log[i].FromExecutor? ==> OnGoodPath(s)
    ensures s.startedEvent ==> OnGoodPath(s)
    ensures s.errorEvent ==> OnFailingPath(s)
  {
    hide SubsOk, ExecutorOk, ChannelsOk;
    forall i | 0 <= i < |s.log| && s.log[i].FromExecutor? ensures OnGoodPath(s) {
      assert SessionStarted in s.log[..i];
      var j :| 0 <= j < i && s.log[..i][j] == SessionStarted;
      assert s.log[j] == SessionStarted;
    }
  }

  /**
   * What Ensure returns decides what is ever announced. Once it has failed, or is going to, in no state of
   * the run has the session been announced as started, and no executor is ever spawned or emits anything;
   * if it succeeds, in no state is there a word of a failure.
   */
  lemma {:induction false} EnsureDecides(steps: seq<Step>, states: seq<State>, j: nat, k: nat)
    requires IsRun(steps, states) && j < |steps| && steps[j].EnsureReturns? && k < |states|
    ensures var s := states[k];
            if steps[j].ok then EnsureBanner !in s.log && EnsureError !in s.log
            else SessionStarted !in s.log && s.exec == NotSpawned
                 && forall i :: 0 <= i < |s.log| ==> !s.log[i].FromExecutor?
  {
    hide Next, Enabled, Inv;
    RunKeeps(steps, states, k);
    StartHere(states[k]);
    WhichWay(steps, states, k);
    var ok := steps[j].ok;
    if j < k {
      assert Ensured(steps, k, ok);
    } else {
      WhichWay(steps, states, j);
      EnsureFromEnsuring(states[j], steps[j]);
      EnsuredLater(steps, k, j, !ok);
    }
  }

  lemma {:induction false} EnsuredLater(steps: seq<Step>, j: nat, k: nat, ok: bool)
    requires j <= k <= |steps|
    ensures Ensured(steps, j, ok) ==> Ensured(steps, k, ok)
  {
  }

  lemma {:induction false} EnsureFromEnsuring(s: State, e: Step)
    requires Enabled(s, e) && e.EnsureReturns?
    ensures Undecided(s)
  {
  }

  /**
   * Conversely nothing is announced without its cause: the start, or anything of the executor, only after
   * Ensure has succeeded, and a failure only after it has failed.
   */
  lemma {:induction false} NothingWithoutEnsure(steps: seq<Step>, states: seq<State>, k: nat)
    requires IsRun(steps, states) && k < |states|
    ensures SessionStarted in states[k].log || states[k].exec != NotSpawned ==> Ensured(steps, k, true)
    ensures forall i :: 0 <= i < |states[k].log| && states[k].log[i].FromExecutor? ==> Ensured(steps, k, true)
    ensures EnsureError in states[k].log || EnsureBanner in states[k].log ==> Ensured(steps, k, false)
  {
    hide Next, Enabled, Inv;
    RunKeeps(steps, states, k);
    StartHere(states[k]);
    WhichWay(steps, states, k);
  }

  /** And Start does not stop half-way: it can go on until all of its path has been announced. */
  lemma {:induction false} StartGoesThrough(steps: seq<Step>, states: seq<State>, k: nat)
    requires IsRun(steps, states) && k < |states| && !states[k].panicked
    requires !Enabled(states[k], StartGoesOn)
    ensures Ensured(steps, k, true) ==> SessionStarted in states[k].log && states[k].startedEvent
    ensures Ensured(steps, k, false) ==>
              EnsureBanner in states[k].log && EnsureError in states[k].log && states[k].errorEvent
  {
    RunKeeps(steps, states, k);
    WhichWay(steps, states, k);
    hide SubsOk, ExecutorOk, ChannelsOk, Ensured, Next;
  }

  /** No subscriber is told of a start, or of a failure, that has not come about. */
  lemma {:induction false} HeardIsTrue(steps: seq<Step>, states: seq<State>, k: nat, id: nat)
    requires IsRun(steps, states) && k < |states| && id in states[k].subs
    ensures Heard(states[k].log, states[k].subs[id].history, SessionStarted) ==> Ensured(steps, k, true)
    ensures Heard(states[k].log, states[k].subs[id].history, EnsureError) ==> Ensured(steps, k, false)
  {
    hide Next, Enabled, Inv, Ensured, SubOk, SawRight;
    RunKeeps(steps, states, k);
    StartHere(states[k]);
    WhichWay(steps, states, k);
    ChannelFromInv(states[k], id);
    HeardHas(states[k], states[k].subs[id], SessionStarted);
    HeardHas(states[k], states[k].subs[id], EnsureError);
  }

  lemma {:induction false} HeardHas(s: State, sub: Sub, e: Event)
    requires SubOk(sub, |s.log|) && SawRight(s, sub) && e in {SessionStarted, EnsureError}
    ensures Heard(s.log, sub.history, e) ==>
              e in s.log || (if e == SessionStarted then s.startedEvent else s.errorEvent)
  {
    hide DropsOk, CountOk;
    if Heard(s.log, sub.history, e) {
      var x :| 0 <= x < |sub.history| && Carried(s.log, sub.history[x]) == e;
      if sub.history[x].Live? {
        assert s.log[sub.history[x].index] == e;
      } else {
        assert Replay(e) in sub.history;
      }
    }
  }

  // ----- what is accepted

  /** The actions submitted before the queue is closed, in order. */
  function SubmittedWhileOpen(steps: seq<Step>): seq<Action>
  {
    if steps == [] || steps[0].QueueCloses? then []
    else (if steps[0].Submits? then [steps[0].action] else []) + SubmittedWhileOpen(steps[1..])
  }

  predicate ClosedBy(steps: seq<Step>)
  {
    exists j :: 0 <= j < |steps| && steps[j].QueueCloses?
  }

  lemma {:induction false} SubmittedNext(steps: seq<Step>, e: Step)
    ensures SubmittedWhileOpen(steps + [e])
         == SubmittedWhileOpen(steps) + (if e.Submits? && !ClosedBy(steps) then [e.action] else [])
    ensures ClosedBy(steps + [e]) <==> ClosedBy(steps) || e.QueueCloses?
  {
    if steps == [] {
      assert [] + [e] == [e] && [e][1..] == [];
    } else {
      assert (steps + [e])[1..] == steps[1..] + [e];
      SubmittedNext(steps[1..], e);
      assert steps == [steps[0]] + steps[1..];
    }
    if j :| 0 <= j < |steps| && steps[j].QueueCloses? {
      assert (steps + [e])[j].QueueCloses?;
    }
    assert (steps + [e])[|steps|] == e;
  }

  lemma {:induction false} QueueMoves(s: State, e: Step)
    requires Enabled(s, e)
    ensures var t := Next(s, e);
            && t.accepted == s.accepted + (if e.Submits? && !s.closed then [e.action] else [])
            && (t.closed <==> s.closed || e.QueueCloses?)
  {
    hide Emit, StartNext, ExecNext, ReplayNext, Receive, Unlisted, Closed, Subscribed, TriesReplay;
    match e
    case StartGoesOn => StartGoesOnly(s);
    case ExecutorEmits => ExecGoesOnly(s);
    case OtherEmits(n) => EmitOnly(s, Other(n));
    case _ =>
  }

  /** Accepted is what was submitted before the queue was closed: each action once, in the order submitted. */
  lemma {:induction false} AcceptedAsSubmitted(steps: seq<Step>, states: seq<State>, k: nat)
    requires IsRun(steps, states) && k < |states|
    ensures states[k].accepted == SubmittedWhileOpen(steps[..k])
    ensures states[k].closed <==> ClosedBy(steps[..k])
  {
    hide Next, Enabled;
    if k > 0 {
      AcceptedAsSubmitted(steps, states, k - 1);
      QueueMoves(states[k - 1], steps[k - 1]);
      SubmittedNext(steps[..k - 1], steps[k - 1]);
      assert steps[..k] == steps[..k - 1] + [steps[k - 1]];
    }
  }

  // ----- what is reported

  /** The outcomes of the handler, in order. */
  function Outcomes(steps: seq<Step>): seq<bool>
  {
    if steps == [] then []
    else
      var e := steps[|steps| - 1];
      Outcomes(steps[..|steps| - 1]) + (if e.HandlerReturns? then [e.ok] else [])
  }

  /** The statuses in the executor's finished events, in order. */
  function Statuses(log: seq<Event>): seq<bool>
  {
    if log == [] then []
    else
      var e := log[|log| - 1];
      Statuses(log[..|log| - 1]) + (if e.FromExecutor? && e.kind.Finished? then [e.kind.ok] else [])
  }

  /** What other goroutines have emitted, in order. */
  function Others(log: seq<Event>): seq<nat>
  {
    if log == [] then []
    else
      var e := log[|log| - 1];
      Others(log[..|log| - 1]) + (if e.Other? then [e.n] else [])
  }

  function OthersEmitted(steps: seq<Step>): seq<nat>
  {
    if steps == [] then []
    else
      var e := steps[|steps| - 1];
      OthersEmitted(steps[..|steps| - 1]) + (if e.OtherEmits? then [e.n] else [])
  }

  lemma {:induction false} LogNext(log: seq<Event>, e: Event)
    ensures Statuses(log + [e]) == Statuses(log) + (if e.FromExecutor? && e.kind.Finished? then [e.kind.ok] else [])
    ensures Others(log + [e]) == Others(log) + (if e.Other? then [e.n] else [])
  {
    assert (log + [e])[..|log|] == log;
  }

  lemma {:induction false} StepsNext(steps: seq<Step>, e: Step)
    ensures Outcomes(steps + [e]) == Outcomes(steps) + (if e.HandlerReturns? then [e.ok] else [])
    ensures OthersEmitted(steps + [e]) == OthersEmitted(steps) + (if e.OtherEmits? then [e.n] else [])
  {
    assert (steps + [e])[..|steps|] == steps;
  }

  function Unreported(x: ExecAt): seq<bool>
  {
    if x.EmitFinished? then [x.ok] else []
  }

  lemma {:induction false} ReportMoves(s: State, e: Step)
    requires Enabled(s, e) && StartOk(s)
    ensures var t := Next(s, e);
            && Statuses(t.log) + Unreported(t.exec)
            == Statuses(s.log) + Unreported(s.exec) + (if e.HandlerReturns? then [e.ok] else [])
            && Others(t.log) == Others(s.log) + (if e.OtherEmits? then [e.n] else [])
  {
    hide SendAll, ReplayNext, Receive, Unlisted, Closed, Subscribed, InFlight, Statuses, Others, StartNext, ExecNext;
    match e
    case StartGoesOn => StartReports(s);
    case ExecutorEmits => ExecReports(s);
    case OtherEmits(n) => LogNext(s.log, Other(n));
    case _ =>
  }

  lemma {:induction false} StartReports(s: State)
    requires Enabled(s, StartGoesOn) && StartOk(s)
    ensures var t := StartNext(s);
            && Statuses(t.log) + Unreported(t.exec) == Statuses(s.log) + Unreported(s.exec)
            && Others(t.log) == Others(s.log)
  {
    hide SendAll, Statuses, Others;
    LogNext(s.log, EnsureBanner);
    LogNext(s.log, EnsureError);
    LogNext(s.log, SessionStarted);
  }

  lemma {:induction false} ExecReports(s: State)
    requires Enabled(s, ExecutorEmits)
    ensures var t := ExecNext(s);
            && Statuses(t.log) + Unreported(t.exec) == Statuses(s.log) + Unreported(s.exec)
            && Others(t.log) == Others(s.log)
  {
    hide SendAll, Statuses, Others, InFlight;
    forall e ensures Others(s.log + [e]) == Others(s.log) + (if e.Other? then [e.n] else [])
      ensures Statuses(s.log + [e])
           == Statuses(s.log) + (if e.FromExecutor? && e.kind.Finished? then [e.kind.ok] else [])
    {
      LogNext(s.log, e);
    }
  }

  /**
   * The n-th finished event reports what the n-th call of the handler returned; at most the last one returned
   * is yet to be reported. And the log holds what other goroutines have emitted, all of it and in order.
   */
  lemma {:induction false} StatusesAreOutcomes(steps: seq<Step>, states: seq<State>, k: nat)
    requires IsRun(steps, states) && k < |states|
    ensures Statuses(states[k].log) + Unreported(states[k].exec) == Outcomes(steps[..k])
    ensures Others(states[k].log) == OthersEmitted(steps[..k])
  {
    hide Next, Enabled, Statuses, Others, Outcomes, OthersEmitted, Inv, StartOk;
    if k == 0 {
      NoReports();
      assert steps[..0] == [];
    } else {
      StatusesAreOutcomes(steps, states, k - 1);
      RunKeeps(steps, states, k - 1);
      StartFromInv(states[k - 1]);
      ReportMoves(states[k - 1], steps[k - 1]);
      StepsNext(steps[..k - 1], steps[k - 1]);
      assert steps[..k] == steps[..k - 1] + [steps[k - 1]];
    }
  }

  lemma {:induction false} NoReports()
    ensures Statuses(Initial().log) + Unreported(Initial().exec) == Outcomes([])
    ensures Others(Initial().log) == OthersEmitted([])
  {
  }

  // ----- what is received

  /** How many receivers came to a channel and did not leave it. */
  function Receipts(steps: seq<Step>, id: nat): int
  {
    if steps == [] then 0
    else
      var e := steps[|steps| - 1];
      Receipts(steps[..|steps| - 1], id)
      + (if e == Receives(id) then 1 else if e == ReceiverLeaves(id) then -1 else 0)
  }

  lemma {:induction false} ReceiptsNext(steps: seq<Step>, e: Step, id: nat)
    ensures Receipts(steps + [e], id)
         == Receipts(steps, id) + (if e == Receives(id) then 1 else if e == ReceiverLeaves(id) then -1 else 0)
  {
    assert (steps + [e])[..|steps|] == steps;
  }

  lemma {:induction false} ChannelMoves(s: State, e: Step, id: nat)
    requires Enabled(s, e) && id !in Next(s, e).shut
    ensures var t := Next(s, e);
            && id !in s.shut
            && (id !in t.subs ==> id !in s.subs && e != Receives(id) && e != ReceiverLeaves(id))
            && (id in t.subs && id !in s.subs ==>
                  t.subs[id].taken + t.subs[id].waiting == 0 && e != Receives(id) && e != ReceiverLeaves(id))
            && (id in t.subs && id in s.subs ==>
                  t.subs[id].taken + t.subs[id].waiting
                  == s.subs[id].taken + s.subs[id].waiting
                     + (if e == Receives(id) then 1 else if e == ReceiverLeaves(id) then -1 else 0))
  {
    hide SendAll, ReplayNext, Send, Enabled, Next;
    if OnChannel(e) {
      MovedOne(s, e);
      if e.id == id {
        MovedCounts(s, e);
      }
    } else {
      StepOffChannels(s, e);
      SendAllEach(s.subs, s.listed, |s.log|);
      forall sub: Sub, n: nat ensures Send(sub, n).taken + Send(sub, n).waiting == sub.taken + sub.waiting {
        SendCounts(sub, n);
      }
    }
  }

  lemma {:induction false} SendCounts(sub: Sub, n: nat)
    ensures Send(sub, n).taken + Send(sub, n).waiting == sub.taken + sub.waiting
  {
  }

  lemma {:induction false} MovedCounts(s: State, e: Step)
    requires Enabled(s, e) && OnChannel(e) && !e.ClosesChannel? && e.id !in s.shut
    ensures Moved(s, e).taken + Moved(s, e).waiting
         == s.subs[e.id].taken + s.subs[e.id].waiting
            + (if e.Receives? then 1 else if e.ReceiverLeaves? then -1 else 0)
  {
    if e.ReplayGoesOn? {
      ReplayAdds(s.subs[e.id]);
    }
    hide ReplayNext;
  }

  /** On an open channel every receiver that came and did not leave has taken one entry or is still waiting. */
  lemma {:induction false} EachReceiverTakesOne(steps: seq<Step>, states: seq<State>, k: nat, id: nat)
    requires IsRun(steps, states) && k < |states| && id !in states[k].shut
    ensures if id in states[k].subs then
              states[k].subs[id].taken + states[k].subs[id].waiting == Receipts(steps[..k], id)
            else Receipts(steps[..k], id) == 0
  {
    hide Next, Enabled;
    if k > 0 {
      ChannelMoves(states[k - 1], steps[k - 1], id);
      EachReceiverTakesOne(steps, states, k - 1, id);
      ReceiptsNext(steps[..k - 1], steps[k - 1], id);
      assert steps[..k] == steps[..k - 1] + [steps[k - 1]];
    }
  }

  lemma {:induction false} ClosedMoves(s: State, e: Step, id: nat)
    requires Inv(s) && Enabled(s, e) && id in Next(s, e).shut
    requires id in s.shut ==> id in s.subs && s.subs[id].waiting == 0
    ensures id in Next(s, e).subs && Next(s, e).subs[id].waiting == 0
  {
    hide Inv, ListOk, Send, ReplayNext, SendAll, SubOk, SawRight, Next, Enabled;
    ListFromInv(s);
    OpenWhileListed(s.subs, s.listed, s.shut);
    SendAllEach(s.subs, s.listed, |s.log|);
    if OnChannel(e) {
      MovedOne(s, e);
      ChannelFromInv(s, e.id);
      if e.id == id {
        ClosedMoved(s, e);
      }
    } else {
      StepOffChannels(s, e);
    }
  }

  lemma {:induction false} ClosedMoved(s: State, e: Step)
    requires Enabled(s, e) && OnChannel(e) && ChannelOk(s.subs[e.id], e.id in s.listed, e.id in s.shut)
    requires e.id in s.shut || e.ClosesChannel?
    requires e.id in s.shut ==> s.subs[e.id].waiting == 0
    ensures Moved(s, e).waiting == 0
  {
    hide ReplayNext;
  }

  /** Closing a channel wakes whoever waits at it, and nobody ever waits at it again. */
  lemma {:induction false} NobodyWaitsAtClosed(steps: seq<Step>, states: seq<State>, k: nat, id: nat)
    requires IsRun(steps, states) && k < |states| && id in states[k].shut
    ensures id in states[k].subs && states[k].subs[id].waiting == 0
  {
    hide Next, Enabled, Inv;
    if k > 0 {
      RunKeeps(steps, states, k - 1);
      if id in states[k - 1].shut {
        NobodyWaitsAtClosed(steps, states, k - 1, id);
      }
      ClosedMoves(states[k - 1], steps[k - 1], id);
    }
  }
}
