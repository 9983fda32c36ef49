/**
 * Carrying out a plan: the stored plan of a session, and the loop that runs its steps, retries a failed
 * step once, and plans again at most once. Models and tools are arbitrary, as in the tool loop.
 */
module Planner {
  import opened JsonScan
  import opened Responses
  import opened AgentLoop

  datatype PlanState = PlanState(request: string, steps: seq<ToolCall>, index: nat)

  /** How a failed step is judged; a judge that cannot be reached or understood says Fine. */
  datatype Status = Fine | Retry | Replan

  datatype World = World(llm: nat -> Answer, tools: (nat, ToolCall) -> Execution, judge: string -> Status,
        decoder: Decoder)

  const MAX_ATTEMPTS: nat := 2

  predicate StepFailed(e: Execution)
  {
    e.error != "" || e.exitCode != 0
  }

  function Judge(w: World, asked: nat): Status
  {
    match w.llm(asked)
    case Failed => Fine
    case Reply(text) => w.judge(text)
  }

  // ----- one attempt

  /** The indices of the steps run, the step reached, and how many prompts and executions there were in all. */
  datatype Walk = Walk(runs: seq<nat>, index: nat, asked: nat, ran: nat)

  function Ran(index: nat, rest: Walk): Walk
  {
    rest.(runs := [index] + rest.runs)
  }

  /** One attempt at a plan from a given step on; it stops before the end only to plan again. */
  function WalkFrom(w: World, steps: seq<ToolCall>, index: nat, retries: nat, asked: nat, ran: nat): Walk
    decreases if index < |steps| then |steps| - index else 0, if retries < 1 then 1 - retries else 0
  {
    if index >= |steps| then Walk([], index, asked, ran)
    else
      var failed := StepFailed(w.tools(ran, steps[index]));
      var status := if failed then Judge(w, asked) else Fine;
      var now := if failed then asked + 1 else asked;
      if status == Retry && retries < 1 then Ran(index, WalkFrom(w, steps, index, retries + 1, now, ran + 1))
      else if status == Replan then Walk([index], index, now, ran + 1)
      else Ran(index, WalkFrom(w, steps, index + 1, 0, now, ran + 1))
  }

  /** Steps run in order, each once or twice in a row, none left out in between. */
  ghost predicate InOrder(runs: seq<nat>, start: nat)
  {
    && (runs != [] ==> runs[0] == start)
    && (forall k :: 0 <= k < |runs| - 1 ==> runs[k] <= runs[k + 1] <= runs[k] + 1)
    && (forall k :: 0 <= k < |runs| - 2 ==> runs[k] < runs[k + 2])
  }

  lemma {:induction false} InOrderCons(start: nat, runs: seq<nat>)
    requires InOrder(runs, start + 1) || (InOrder(runs, start) && (|runs| >= 2 ==> runs[1] == start + 1))
    ensures InOrder([start] + runs, start)
  {
    var all := [start] + runs;
    assert forall k :: 0 < k < |all| ==> all[k] == runs[k - 1];
  }

  /** An attempt runs its steps in order, each once or twice in a row. */
  lemma {:induction false} WalkOrder(w: World, steps: seq<ToolCall>, index: nat, retries: nat, asked: nat, ran: nat)
    requires retries <= 1
    ensures var runs := WalkFrom(w, steps, index, retries, asked, ran).runs;
            && InOrder(runs, index)
            && (retries == 1 && |runs| >= 2 ==> runs[1] == index + 1)
    decreases if index < |steps| then |steps| - index else 0, 1 - retries
  {
    hide Judge, StepFailed, InOrder;
    if index >= |steps| {
      NoRuns(index);
    } else {
      var failed := StepFailed(w.tools(ran, steps[index]));
      var status := if failed then Judge(w, asked) else Fine;
      var now := if failed then asked + 1 else asked;
      NoRuns(index + 1);
      if status == Retry && retries < 1 {
        WalkOrder(w, steps, index, 1, now, ran + 1);
        InOrderCons(index, WalkFrom(w, steps, index, 1, now, ran + 1).runs);
      } else if status == Replan {
        InOrderCons(index, []);
        assert [index] + [] == [index];
      } else {
        WalkOrder(w, steps, index + 1, 0, now, ran + 1);
        InOrderStarts(index + 1, WalkFrom(w, steps, index + 1, 0, now, ran + 1).runs);
        InOrderCons(index, WalkFrom(w, steps, index + 1, 0, now, ran + 1).runs);
      }
    }
  }

  lemma {:induction false} NoRuns(start: nat)
    ensures InOrder([], start)
  {
  }

  lemma {:induction false} InOrderStarts(start: nat, runs: seq<nat>)
    requires InOrder(runs, start)
    ensures runs != [] ==> runs[0] == start
  {
  }

  /**
   * An attempt stays within its steps, runs all of them if it reaches the end, stops early only at the
   * step it has just run, and asks at most once per run, at most twice per step.
   */
  lemma {:induction false} WalkReach(w: World, steps: seq<ToolCall>, index: nat, retries: nat, asked: nat, ran: nat)
    requires retries <= 1
    ensures var r := WalkFrom(w, steps, index, retries, asked, ran);
            && (forall i :: i in r.runs ==> index <= i < |steps|)
            && (r.index >= |steps| ==> forall i :: index <= i < |steps| ==> i in r.runs)
            && (r.index < |steps| ==> r.runs != [] && r.runs[|r.runs| - 1] == r.index)
            && r.ran == ran + |r.runs| && asked <= r.asked <= asked + |r.runs|
            && (if index < |steps| then |r.runs| + retries <= 2 * (|steps| - index) else r.runs == [])
    decreases if index < |steps| then |steps| - index else 0, 1 - retries
  {
    hide Judge, StepFailed;
    if index < |steps| {
      var failed := StepFailed(w.tools(ran, steps[index]));
      var status := if failed then Judge(w, asked) else Fine;
      var now := if failed then asked + 1 else asked;
      if status == Retry && retries < 1 {
        WalkReach(w, steps, index, 1, now, ran + 1);
      } else if status != Replan {
        WalkReach(w, steps, index + 1, 0, now, ran + 1);
      }
    }
  }

  // ----- the attempts

  datatype Attempt = Attempt(steps: seq<ToolCall>, start: nat, walk: Walk)

  predicate Completed(a: Attempt)
  {
    a.walk.index >= |a.steps|
  }

  /** Some step run by the attempt was a write tool, whatever came of it. */
  predicate WroteIn(a: Attempt)
  {
    exists k :: 0 <= k < |a.walk.runs| && a.walk.runs[k] < |a.steps| && IsWrite(a.steps[a.walk.runs[k]].tool)
  }

  /** No plan is to be had; the prompt for one failed; the plan is a question; the steps have all been run. */
  datatype End =
    | FellThrough | PlanPromptFailed | Question(text: string) | MissingWrite | FinalFailed | Finished(text: string)

  /** Only then is the request taken care of; otherwise the caller goes on as if no planning had been tried. */
  predicate Handled(e: End)
  {
    !e.FellThrough? && !e.PlanPromptFailed?
  }

  datatype Planned = Planned(attempts: seq<Attempt>, plan: Option<PlanState>, asked: nat, end: End)

  const NO_WRITE := "Planned execution completed without a file write, but the user requested file changes."

  /** The closing text: the final answer if there is one, else the reply itself, else a stock phrase. */
  function Closing(d: Decoder, text: string): string
  {
    var parsed := ParseTool(d, text);
    var final := if parsed.final == "" || !parsed.ok then TrimSpace(text) else parsed.final;
    if final == "" then "Completed requested steps." else final
  }

  /** How a plan is found: the stored one for this very request, or one asked for, or none. */
  datatype Found = Plan(state: PlanState, asked: nat) | NoPlan(end: End, asked: nat)

  function FindPlan(w: World, request: string, plan: Option<PlanState>, asked: nat): Found
  {
    if plan.Some? && plan.value.request == request then Plan(plan.value, asked)
    else if w.llm(asked).Failed? then NoPlan(PlanPromptFailed, asked + 1)
    else
      var parsed := ParsePlan(w.decoder, w.llm(asked).text);
      if !parsed.ok then NoPlan(FellThrough, asked + 1)
      else if parsed.final != "" then NoPlan(Question(parsed.final), asked + 1)
      else if |parsed.calls| < 2 then NoPlan(FellThrough, asked + 1)
      else Plan(PlanState(request, parsed.calls, 0), asked + 1)
  }

  /** What is said after all steps have run. */
  function Close(w: World, a: Attempt, enforceWrite: bool): (End, nat)
  {
    if enforceWrite && !WroteIn(a) then (MissingWrite, a.walk.asked)
    else if w.llm(a.walk.asked).Failed? then (FinalFailed, a.walk.asked + 1)
    else (Finished(Closing(w.decoder, w.llm(a.walk.asked).text)), a.walk.asked + 1)
  }

  function Attempts(w: World, request: string, plan: Option<PlanState>, n: nat, asked: nat, ran: nat,
                    enforceWrite: bool): Planned
    requires n <= MAX_ATTEMPTS
    decreases MAX_ATTEMPTS - n
  {
    if n == MAX_ATTEMPTS then Planned([], plan, asked, FellThrough)
    else
      match FindPlan(w, request, plan, asked)
      case NoPlan(end, now) => Planned([], plan, now, end)
      case Plan(state, now) =>
        var a := Attempt(state.steps, state.index, WalkFrom(w, state.steps, state.index, 0, now, ran));
        if Completed(a) then
          var (end, last) := Close(w, a, enforceWrite);
          Planned([a], None, last, end)
        else
          var rest := Attempts(w, request, None, n + 1, a.walk.asked, a.walk.ran, enforceWrite);
          rest.(attempts := [a] + rest.attempts)
  }

  // ----- the session's plan and the loops

  class Session {
    var plan: Option<PlanState>

    method GetPlan(request: string) returns (state: Option<PlanState>)
      ensures state == if plan.Some? && plan.value.request == request then plan else None
    {
      if plan.None? || plan.value.request != request {
        return None;
      }
      state := plan;
    }

    method SetPlan(state: PlanState)
      modifies this
      ensures plan == Some(state)
    {
      plan := Some(state);
    }

    method ClearPlan()
      modifies this
      ensures plan == None
    {
      plan := None;
    }

    /** One attempt: the loop over the steps, with its retry counter. */
    method WalkPlan(w: World, first: PlanState, asked0: nat, ran0: nat) returns (r: Walk)
      modifies this
      ensures r == WalkFrom(w, first.steps, first.index, 0, asked0, ran0)
      ensures r.index < |first.steps| ==> plan == None
      ensures r.index >= |first.steps| ==>
                plan == if r.index > first.index then Some(first.(index := r.index)) else old(plan)
    {
      hide WalkFrom;
      var state, retries, asked, ran := first, 0, asked0, ran0;
      var runs: seq<nat> := [];
      while state.index < |state.steps|
        invariant state == first.(index := state.index) && first.index <= state.index && retries <= 1
        invariant plan == if state.index > first.index then Some(state) else old(plan)
        invariant WalkFrom(w, first.steps, first.index, 0, asked0, ran0)
               == Prepend(runs, WalkFrom(w, first.steps, state.index, retries, asked, ran))
        decreases |state.steps| - state.index, 1 - retries
      {
        var result := w.tools(ran, state.steps[state.index]);
        WalkStep(w, first.steps, state.index, retries, asked, ran, runs);
        runs := runs + [state.index];
        ran := ran + 1;
        var status := Fine;
        if StepFailed(result) {
          status := Judge(w, asked);
          asked := asked + 1;
        }
        if status == Retry && retries < 1 {
          retries := retries + 1;
          continue;
        }
        if status == Replan {
          ClearPlan();
          return Walk(runs, state.index, asked, ran);
        }
        retries := 0;
        state := state.(index := state.index + 1);
        SetPlan(state);
      }
      WalkOver(w, first.steps, state.index, retries, asked, ran);
      assert runs + [] == runs;
      r := Walk(runs, state.index, asked, ran);
    }

    method RunPlanned(w: World, request: string, enforceWrite: bool)
      returns (text: string, handled: bool, r: Planned)
      modifies this
      ensures r == Attempts(w, request, old(plan), 0, 0, 0, enforceWrite) && r.plan == plan
      ensures handled <==> Handled(r.end)
      ensures text == match r.end
                      case FellThrough => ""
                      case PlanPromptFailed => ""
                      case Question(q) => q
                      case MissingWrite => NO_WRITE
                      case FinalFailed => ""
                      case Finished(t) => t
    {
      hide ParsePlan, ParseTool, WalkFrom, Closing, Attempts;
      var asked, ran := 0, 0;
      var attempts: seq<Attempt> := [];
      for n := 0 to MAX_ATTEMPTS
        invariant Attempts(w, request, old(plan), 0, 0, 0, enforceWrite)
               == After(attempts, Attempts(w, request, plan, n, asked, ran, enforceWrite))
      {
        AttemptsUnfold(w, request, plan, n, asked, ran, enforceWrite);
        var stored := GetPlan(request);
        var state: PlanState;
        if stored.None? {
          var answer := w.llm(asked);
          asked := asked + 1;
          if answer.Failed? {
            return "", false, Planned(attempts, plan, asked, PlanPromptFailed);
          }
          var parsed := ParsePlan(w.decoder, answer.text);
          if !parsed.ok {
            return "", false, Planned(attempts, plan, asked, FellThrough);
          }
          if parsed.final != "" {
            return parsed.final, true, Planned(attempts, plan, asked, Question(parsed.final));
          }
          if |parsed.calls| < 2 {
            return "", false, Planned(attempts, plan, asked, FellThrough);
          }
          state := PlanState(request, parsed.calls, 0);
          SetPlan(state);
        } else {
          state := stored.value;
        }
        var walk := WalkPlan(w, state, asked, ran);
        var a := Attempt(state.steps, state.index, walk);
        asked, ran := walk.asked, walk.ran;
        AfterOne(attempts, a, Attempts(w, request, None, n + 1, asked, ran, enforceWrite));
        attempts := attempts + [a];
        if walk.index >= |state.steps| {
          ClearPlan();
          if enforceWrite && !WroteIn(a) {
            return NO_WRITE, true, Planned(attempts, plan, asked, MissingWrite);
          }
          var answer := w.llm(asked);
          asked := asked + 1;
          if answer.Failed? {
            return "", true, Planned(attempts, plan, asked, FinalFailed);
          }
          var closing := Closing(w.decoder, answer.text);
          return closing, true, Planned(attempts, plan, asked, Finished(closing));
        }
      }
      AttemptsOver(w, request, plan, asked, ran, enforceWrite);
      assert attempts + [] == attempts;
      return "", false, Planned(attempts, plan, asked, FellThrough);
    }
  }

  ghost function Prepend(runs: seq<nat>, w: Walk): Walk
  {
    w.(runs := runs + w.runs)
  }

  lemma {:induction false} WalkOver(w: World, steps: seq<ToolCall>, index: nat, retries: nat, asked: nat, ran: nat)
    requires index >= |steps|
    ensures WalkFrom(w, steps, index, retries, asked, ran) == Walk([], index, asked, ran)
  {
  }

  /** One run of a step, seen from the runs made before it. */
  lemma {:induction false} WalkStep(w: World, steps: seq<ToolCall>, index: nat, retries: nat, asked: nat, ran: nat,
                                    runs: seq<nat>)
    requires index < |steps|
    ensures var failed := StepFailed(w.tools(ran, steps[index]));
            var status := if failed then Judge(w, asked) else Fine;
            var now, more := if failed then asked + 1 else asked, runs + [index];
            Prepend(runs, WalkFrom(w, steps, index, retries, asked, ran)) ==
            if status == Retry && retries < 1 then
              Prepend(more, WalkFrom(w, steps, index, retries + 1, now, ran + 1))
            else if status == Replan then Walk(more, index, now, ran + 1)
            else Prepend(more, WalkFrom(w, steps, index + 1, 0, now, ran + 1))
  {
    hide Judge, StepFailed;
    assert forall rest: seq<nat> {:trigger runs + ([index] + rest)} :: runs + ([index] + rest) == runs + [index] + rest;
  }

  ghost function After(attempts: seq<Attempt>, p: Planned): Planned
  {
    p.(attempts := attempts + p.attempts)
  }

  lemma {:induction false} AfterOne(attempts: seq<Attempt>, a: Attempt, p: Planned)
    ensures After(attempts, p.(attempts := [a] + p.attempts)) == After(attempts + [a], p)
  {
    assert attempts + ([a] + p.attempts) == attempts + [a] + p.attempts;
  }

  lemma {:induction false} AttemptsOver(w: World, request: string, plan: Option<PlanState>, asked: nat, ran: nat,
                                        enforceWrite: bool)
    ensures Attempts(w, request, plan, MAX_ATTEMPTS, asked, ran, enforceWrite) == Planned([], plan, asked, FellThrough)
  {
  }

  lemma {:induction false} AttemptsUnfold(w: World, request: string, plan: Option<PlanState>, n: nat, asked: nat,
                                          ran: nat, enforceWrite: bool)
    requires n < MAX_ATTEMPTS
    ensures var (p, found) := (Attempts(w, request, plan, n, asked, ran, enforceWrite),
                               FindPlan(w, request, plan, asked));
            if found.NoPlan? then p == Planned([], plan, found.asked, found.end)
            else
              var state := found.state;
              var a := Attempt(state.steps, state.index, WalkFrom(w, state.steps, state.index, 0, found.asked, ran));
              if Completed(a) then
                p == Planned([a], None, Close(w, a, enforceWrite).1, Close(w, a, enforceWrite).0)
              else
                var rest := Attempts(w, request, None, n + 1, a.walk.asked, a.walk.ran, enforceWrite);
                p == rest.(attempts := [a] + rest.attempts)
  {
    hide FindPlan, Close, WalkFrom;
  }

  // ----- what a planned run promises

  function TotalSteps(attempts: seq<Attempt>): nat
  {
    if attempts == [] then 0 else |attempts[0].steps| + TotalSteps(attempts[1..])
  }

  /** The attempt runs a prefix of its own steps in order, all of them if it completes. */
  ghost predicate Orderly(a: Attempt)
  {
    && InOrder(a.walk.runs, a.start)
    && (forall k :: 0 <= k < |a.walk.runs| ==> a.start <= a.walk.runs[k] < |a.steps|)
    && (Completed(a) ==> forall i :: a.start <= i < |a.steps| ==> i in a.walk.runs)
  }

  /** The end that a run may come to only by completing its last attempt. */
  predicate AfterCompletion(e: End)
  {
    e.MissingWrite? || e.FinalFailed? || e.Finished?
  }

  /**
   * The trace of a planned run, started at attempt n: every attempt is orderly, only the last can be
   * complete and it is exactly when the run ends by closing; there are at most two prompts per step, one
   * per attempt for the plan and one at the end.
   */
  lemma {:induction false} PlannedTrace(w: World, request: string, plan: Option<PlanState>, n: nat, asked: nat,
                                        ran: nat, enforceWrite: bool)
    requires n <= MAX_ATTEMPTS
    ensures var p := Attempts(w, request, plan, n, asked, ran, enforceWrite);
            && |p.attempts| <= MAX_ATTEMPTS - n
            && (forall k :: 0 <= k < |p.attempts| ==> Orderly(p.attempts[k]))
            && (forall k :: 0 <= k < |p.attempts| - 1 ==> !Completed(p.attempts[k]))
            && (AfterCompletion(p.end) <==> p.attempts != [] && Completed(p.attempts[|p.attempts| - 1]))
            && p.asked <= asked + 2 * TotalSteps(p.attempts) + (MAX_ATTEMPTS - n)
                          + (if AfterCompletion(p.end) then 1 else 0)
    decreases MAX_ATTEMPTS - n
  {
    hide ParsePlan, WalkFrom, Closing, InOrder, TotalSteps, WroteIn, Orderly;
    NoSteps();
    if n < MAX_ATTEMPTS && FindPlan(w, request, plan, asked).Plan? {
      var found := FindPlan(w, request, plan, asked);
      var state := found.state;
      var a := Attempt(state.steps, state.index, WalkFrom(w, state.steps, state.index, 0, found.asked, ran));
      AttemptOrderly(w, a, found.asked, ran);
      if Completed(a) {
        StepsCons(a, []);
        assert [a] + [] == [a];
      } else {
        PlannedTrace(w, request, None, n + 1, a.walk.asked, a.walk.ran, enforceWrite);
        StepsCons(a, Attempts(w, request, None, n + 1, a.walk.asked, a.walk.ran, enforceWrite).attempts);
      }
    }
  }

  lemma {:induction false} AttemptOrderly(w: World, a: Attempt, asked: nat, ran: nat)
    requires a.walk == WalkFrom(w, a.steps, a.start, 0, asked, ran)
    ensures Orderly(a) && a.walk.asked <= asked + 2 * |a.steps|
  {
    hide WalkFrom, InOrder;
    WalkOrder(w, a.steps, a.start, 0, asked, ran);
    WalkReach(w, a.steps, a.start, 0, asked, ran);
    assert forall k :: 0 <= k < |a.walk.runs| ==> a.walk.runs[k] in a.walk.runs;
  }

  lemma {:induction false} NoSteps()
    ensures TotalSteps([]) == 0
  {
  }

  lemma {:induction false} StepsCons(a: Attempt, rest: seq<Attempt>)
    ensures TotalSteps([a] + rest) == |a.steps| + TotalSteps(rest)
  {
    assert ([a] + rest)[1..] == rest;
  }

  /** So a whole planned run makes at most 2(n1 + n2) + 3 prompts for plans of n1 and n2 steps. */
  lemma {:induction false} PromptBound(w: World, request: string, plan: Option<PlanState>, enforceWrite: bool)
    ensures var p := Attempts(w, request, plan, 0, 0, 0, enforceWrite);
            |p.attempts| <= 2 && p.asked <= 2 * TotalSteps(p.attempts) + 3
  {
    hide Attempts;
    PlannedTrace(w, request, plan, 0, 0, 0, enforceWrite);
  }

  /**
   * What is stored afterwards: nothing, or the very plan stored before, and that only if it was made for
   * another request and nothing was run. A session without a stored plan is left without one.
   */
  lemma {:induction false} PlanLeftBehind(w: World, request: string, plan: Option<PlanState>, n: nat, asked: nat,
                                          ran: nat, enforceWrite: bool)
    requires n <= MAX_ATTEMPTS
    ensures var p := Attempts(w, request, plan, n, asked, ran, enforceWrite);
            p.plan == None || (p.plan == plan && p.attempts == [] && (n == 0 ==> plan.value.request != request))
    decreases MAX_ATTEMPTS - n
  {
    hide ParsePlan, WalkFrom, Closing;
    if n < MAX_ATTEMPTS && FindPlan(w, request, plan, asked).Plan? {
      var found := FindPlan(w, request, plan, asked);
      var a := Attempt(found.state.steps, found.state.index,
                       WalkFrom(w, found.state.steps, found.state.index, 0, found.asked, ran));
      if !Completed(a) {
        PlanLeftBehind(w, request, None, n + 1, a.walk.asked, a.walk.ran, enforceWrite);
      }
    }
  }

  /** With writes enforced, a run that finishes has run a write tool in its last attempt. */
  lemma {:induction false} FinishedWithWrite(w: World, request: string, plan: Option<PlanState>, n: nat, asked: nat,
                                             ran: nat)
    requires n <= MAX_ATTEMPTS
    ensures var p := Attempts(w, request, plan, n, asked, ran, true);
            p.end.Finished? ==> p.attempts != [] && WroteIn(p.attempts[|p.attempts| - 1])
    decreases MAX_ATTEMPTS - n
  {
    hide ParsePlan, WalkFrom, Closing, WroteIn;
    if n < MAX_ATTEMPTS && FindPlan(w, request, plan, asked).Plan? {
      var found := FindPlan(w, request, plan, asked);
      var a := Attempt(found.state.steps, found.state.index,
                       WalkFrom(w, found.state.steps, found.state.index, 0, found.asked, ran));
      if !Completed(a) {
        FinishedWithWrite(w, request, None, n + 1, a.walk.asked, a.walk.ran);
      }
    }
  }

  /** A plan that was asked for has at least two steps and is started at the first; a stored one is resumed. */
  lemma {:induction false} FreshPlanStartsAtTop(w: World, request: string, plan: Option<PlanState>, n: nat, asked: nat,
                                                ran: nat, enforceWrite: bool)
    requires n < MAX_ATTEMPTS
    ensures var p := Attempts(w, request, plan, n, asked, ran, enforceWrite);
            && (forall k :: 1 <= k < |p.attempts| ==> p.attempts[k].start == 0 && |p.attempts[k].steps| >= 2)
            && (p.attempts != [] && !(plan.Some? && plan.value.request == request) ==>
                  p.attempts[0].start == 0 && |p.attempts[0].steps| >= 2)
            && (p.attempts != [] && plan.Some? && plan.value.request == request ==>
                  p.attempts[0].start == plan.value.index && p.attempts[0].steps == plan.value.steps)
    decreases MAX_ATTEMPTS - n
  {
    hide ParsePlan, WalkFrom, Closing, WroteIn;
    if FindPlan(w, request, plan, asked).Plan? {
      var found := FindPlan(w, request, plan, asked);
      var a := Attempt(found.state.steps, found.state.index,
                       WalkFrom(w, found.state.steps, found.state.index, 0, found.asked, ran));
      if !Completed(a) && n + 1 < MAX_ATTEMPTS {
        FreshPlanStartsAtTop(w, request, None, n + 1, a.walk.asked, a.walk.ran, enforceWrite);
      }
    }
  }
}
