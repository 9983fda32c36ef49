/**
 * What a planned run does step by step: when a step is run again, when a plan is given up, where a plan comes
 * from and what is said in the end. Each law is about the answers and executions themselves.
 */
module PlanLaws {
  import JsonScan
  import opened Responses
  import opened AgentLoop
  import opened Planner

  // ----- the steps of an attempt

  /** The execution with this number, of this step, reports an error or a code other than zero. */
  predicate FailedRun(w: World, steps: seq<ToolCall>, step: nat, at: nat)
  {
    step < |steps| && (w.tools(at, steps[step]).error != "" || w.tools(at, steps[step]).exitCode != 0)
  }

  /** How many of the runs, the first of which is the execution with this number, fail. */
  function Failures(w: World, steps: seq<ToolCall>, runs: seq<nat>, ran: nat): nat
  {
    if runs == [] then 0
    else (if FailedRun(w, steps, runs[0], ran) then 1 else 0) + Failures(w, steps, runs[1..], ran + 1)
  }

  /** What becomes of a run: fine unless it fails, and then what the model says to the next prompt, if anything. */
  function Verdict(w: World, steps: seq<ToolCall>, step: nat, at: nat, asked: nat): Status
  {
    if !FailedRun(w, steps, step, at) then Fine
    else
      match w.llm(asked)
      case Failed => Fine
      case Reply(text) => w.judge(text)
  }

  /** The k-th run is the first of its step in a row. */
  predicate FirstTry(runs: seq<nat>, k: nat, retries: nat)
    requires k < |runs|
  {
    if k == 0 then retries == 0 else runs[k - 1] != runs[k]
  }

  /** What follows the k-th run: the same step once more, the next step, or the end of the attempt. */
  predicate GoesOn(w: World, steps: seq<ToolCall>, r: Walk, k: nat, retries: nat, asked: nat, ran: nat)
    requires k < |r.runs|
  {
    var verdict := Verdict(w, steps, r.runs[k], ran + k, asked + Failures(w, steps, r.runs[..k], ran));
    if verdict == Replan then k == |r.runs| - 1 && r.index == r.runs[k]
    else
      var next := if verdict == Retry && FirstTry(r.runs, k, retries) then r.runs[k] else r.runs[k] + 1;
      if k + 1 < |r.runs| then r.runs[k + 1] == next else next == r.index == |steps|
  }

  lemma {:induction false} FailuresCons(w: World, steps: seq<ToolCall>, step: nat, rest: seq<nat>, k: nat, ran: nat)
    requires k <= |rest|
    ensures Failures(w, steps, ([step] + rest)[..k + 1], ran)
         == (if FailedRun(w, steps, step, ran) then 1 else 0) + Failures(w, steps, rest[..k], ran + 1)
  {
    var all := ([step] + rest)[..k + 1];
    assert all[0] == step && all[1..] == rest[..k];
  }

  /**
   * The runs of an attempt, exactly: a failed run is judged by the model, asked once for each failure in turn;
   * the same step follows if it says so and the run was the first of that step, the attempt ends there if it
   * says to plan again, and else the next step follows, up to the last.
   */
  lemma {:induction false} WalkExactly(w: World, steps: seq<ToolCall>, index: nat, retries: nat, asked: nat, ran: nat)
    requires retries <= 1 && index <= |steps|
    ensures var r := WalkFrom(w, steps, index, retries, asked, ran);
            && (r.runs == [] <==> index == |steps|) && (r.runs == [] ==> r.index == index)
            && (r.runs != [] ==> r.runs[0] == index)
            && (forall k :: 0 <= k < |r.runs| ==> GoesOn(w, steps, r, k, retries, asked, ran))
            && r.asked == asked + Failures(w, steps, r.runs, ran) && r.ran == ran + |r.runs|
    decreases |steps| - index, 1 - retries
  {
    hide GoesOn, Judge, StepFailed;
    if index < |steps| {
      var failed := StepFailed(w.tools(ran, steps[index]));
      var status := if failed then Judge(w, asked) else Fine;
      var now := if failed then asked + 1 else asked;
      FailedHere(w, steps, index, ran, asked);
      var r := WalkFrom(w, steps, index, retries, asked, ran);
      if status == Replan && !(status == Retry && retries < 1) {
        FailuresCons(w, steps, index, [], 0, ran);
        assert [index] + [] == [index] && [index][..1] == [index];
        OnlyRun(w, steps, r, retries, asked, ran);
      } else {
        var again := status == Retry && retries < 1;
        var (next, tries) := if again then (index, retries + 1) else (index + 1, 0);
        WalkExactly(w, steps, next, tries, now, ran + 1);
        var rest := WalkFrom(w, steps, next, tries, now, ran + 1);
        assert r == Walk([index] + rest.runs, rest.index, rest.asked, rest.ran);
        FailuresCons(w, steps, index, rest.runs, |rest.runs|, ran);
        assert rest.runs[..|rest.runs|] == rest.runs && ([index] + rest.runs)[..|rest.runs| + 1] == [index] + rest.runs;
        FirstRun(w, steps, r, rest, retries, asked, ran);
        forall k | 0 < k < |r.runs| ensures GoesOn(w, steps, r, k, retries, asked, ran) {
          LaterRun(w, steps, r, rest, k, retries, tries, asked, now, ran);
        }
      }
    }
  }

  lemma {:induction false} FailedHere(w: World, steps: seq<ToolCall>, index: nat, ran: nat, asked: nat)
    requires index < |steps|
    ensures FailedRun(w, steps, index, ran) <==> StepFailed(w.tools(ran, steps[index]))
    ensures Verdict(w, steps, index, ran, asked)
         == if StepFailed(w.tools(ran, steps[index])) then Judge(w, asked) else Fine
  {
  }

  lemma {:induction false} OnlyRun(w: World, steps: seq<ToolCall>, r: Walk, retries: nat, asked: nat, ran: nat)
    requires |r.runs| == 1 && r.index == r.runs[0] && Verdict(w, steps, r.runs[0], ran, asked) == Replan
    ensures GoesOn(w, steps, r, 0, retries, asked, ran)
  {
    hide Verdict;
    assert r.runs[..0] == [];
  }

  lemma {:induction false} FirstRun(w: World, steps: seq<ToolCall>, r: Walk, rest: Walk, retries: nat, asked: nat,
                                    ran: nat)
    requires r.runs != [] && r.runs == [r.runs[0]] + rest.runs && r.index == rest.index
    requires var verdict := Verdict(w, steps, r.runs[0], ran, asked);
             var next := if verdict == Retry && retries == 0 then r.runs[0] else r.runs[0] + 1;
             && verdict != Replan && (rest.runs == [] <==> next == |steps|)
             && (if rest.runs == [] then rest.index == next else rest.runs[0] == next)
    ensures GoesOn(w, steps, r, 0, retries, asked, ran)
  {
    hide Verdict;
    assert r.runs[..0] == [];
    assert rest.runs != [] ==> r.runs[1] == rest.runs[0];
  }

  lemma {:induction false} LaterRun(w: World, steps: seq<ToolCall>, r: Walk, rest: Walk, k: nat, retries: nat,
                                    tries: nat, asked: nat, now: nat, ran: nat)
    requires 0 < k < |r.runs| && r.runs == [r.runs[0]] + rest.runs && r.index == rest.index
    requires now == asked + (if FailedRun(w, steps, r.runs[0], ran) then 1 else 0)
    requires tries == 0 <==> r.runs[0] != rest.runs[0]
    requires GoesOn(w, steps, rest, k - 1, tries, now, ran + 1)
    ensures GoesOn(w, steps, r, k, retries, asked, ran)
  {
    hide Verdict, FailedRun;
    FailuresCons(w, steps, r.runs[0], rest.runs, k - 1, ran);
    assert ([r.runs[0]] + rest.runs)[..k] == r.runs[..k];
    assert forall j :: 0 < j < |r.runs| ==> r.runs[j] == rest.runs[j - 1];
    assert ran + 1 + (k - 1) == ran + k;
  }

  // ----- where a plan comes from

  /** What the reply to a prompt for a plan amounts to. */
  lemma {:induction false} PlanPrompted(w: World, request: string, plan: Option<PlanState>, n: nat, asked: nat,
                                        ran: nat, enforceWrite: bool)
    requires n < 2 && !(plan.Some? && plan.value.request == request)
    ensures var p := Attempts(w, request, plan, n, asked, ran, enforceWrite);
            match w.llm(asked)
            case Failed => p == Planned([], plan, asked + 1, PlanPromptFailed)
            case Reply(text) =>
              var parsed := ParsePlan(w.decoder, text);
              if parsed.final != "" then p == Planned([], plan, asked + 1, Question(parsed.final))
              else if |parsed.calls| >= 2 then
                p.attempts != [] && p.attempts[0]
                == Attempt(parsed.calls, 0, WalkFrom(w, parsed.calls, 0, 0, asked + 1, ran))
              else p == Planned([], plan, asked + 1, FellThrough)
  {
    hide ParsePlan, WalkFrom, Close;
    AttemptsUnfold(w, request, plan, n, asked, ran, enforceWrite);
    if w.llm(asked).Reply? {
      ParsePlanGivesOne(w.decoder, w.llm(asked).text);
    }
  }

  /** A plan stored for the very request is taken up where it was left, without a prompt for a plan. */
  lemma {:induction false} PlanTakenUp(w: World, request: string, plan: Option<PlanState>, asked: nat, ran: nat,
                                       enforceWrite: bool)
    requires plan.Some? && plan.value.request == request
    ensures var p := Attempts(w, request, plan, 0, asked, ran, enforceWrite);
            p.attempts != [] && p.attempts[0] == Attempt(plan.value.steps, plan.value.index,
                                                         WalkFrom(w, plan.value.steps, plan.value.index, 0, asked, ran))
  {
    hide WalkFrom, Close;
    AttemptsUnfold(w, request, plan, 0, asked, ran, enforceWrite);
  }

  // ----- how a run ends

  /** What the reply to the last prompt is turned into: its final answer, else its text, else a stock phrase. */
  lemma {:induction false} ClosingSays(d: Decoder, text: string)
    ensures var final := ParseTool(d, text).final;
            && (final != "" ==> Closing(d, text) == final)
            && (final == "" && JsonScan.TrimSpace(text) != "" ==> Closing(d, text) == JsonScan.TrimSpace(text))
            && (final == "" && JsonScan.TrimSpace(text) == "" ==> Closing(d, text) == "Completed requested steps.")
            && Closing(d, text) != ""
  {
    hide ParseTool;
    ParseToolGivesOne(d, text);
  }

  /** Some run of the attempt was of a step naming one of the two tools that write. */
  predicate RanWriteTool(a: Attempt)
  {
    exists k :: 0 <= k < |a.walk.runs| && a.walk.runs[k] < |a.steps|
                && (a.steps[a.walk.runs[k]].tool == "write_file" || a.steps[a.walk.runs[k]].tool == "apply_patch")
  }

  lemma {:induction false} WroteByName(a: Attempt)
    ensures WroteIn(a) <==> RanWriteTool(a)
  {
  }

  /** What the run of a completed attempt is closed with. */
  predicate ClosedRight(w: World, a: Attempt, p: Planned, enforceWrite: bool)
  {
    if enforceWrite && !RanWriteTool(a) then p.end == MissingWrite && p.asked == a.walk.asked
    else
      && p.asked == a.walk.asked + 1
      && p.end == match w.llm(a.walk.asked)
                  case Failed => FinalFailed
                  case Reply(text) => Finished(Closing(w.decoder, text))
  }

  /**
   * How a planned run goes on after its first attempt. If all steps were run it is closed: by saying that no
   * write tool was run, if one is wanted, or by one more prompt. If not, one more plan is asked for, and no
   * third; what that attempt leaves undone is left to the tool loop.
   */
  lemma {:induction false} AfterFirstAttempt(w: World, request: string, plan: Option<PlanState>, enforceWrite: bool)
    requires Attempts(w, request, plan, 0, 0, 0, enforceWrite).attempts != []
    ensures var p := Attempts(w, request, plan, 0, 0, 0, enforceWrite);
            var first := p.attempts[0];
            if Completed(first) then |p.attempts| == 1 && ClosedRight(w, first, p, enforceWrite)
            else
              var again := Attempts(w, request, None, 1, first.walk.asked, first.walk.ran, enforceWrite);
              && p == again.(attempts := [first] + again.attempts) && |again.attempts| <= 1
              && (again.attempts != [] ==>
                    if Completed(again.attempts[0]) then ClosedRight(w, again.attempts[0], p, enforceWrite)
                    else p.end == FellThrough && p.asked == again.attempts[0].walk.asked)
  {
    hide ParsePlan, WalkFrom, Closing, RanWriteTool, WroteIn;
    AttemptsUnfold(w, request, plan, 0, 0, 0, enforceWrite);
    var p := Attempts(w, request, plan, 0, 0, 0, enforceWrite);
    var first := p.attempts[0];
    ClosesRight(w, first, enforceWrite);
    if !Completed(first) {
      AttemptsUnfold(w, request, None, 1, first.walk.asked, first.walk.ran, enforceWrite);
      var again := Attempts(w, request, None, 1, first.walk.asked, first.walk.ran, enforceWrite);
      if again.attempts != [] {
        ClosesRight(w, again.attempts[0], enforceWrite);
        AttemptsOver(w, request, None, again.attempts[0].walk.asked, again.attempts[0].walk.ran, enforceWrite);
      }
    }
  }

  lemma {:induction false} ClosesRight(w: World, a: Attempt, enforceWrite: bool)
    ensures forall p: Planned :: p.end == Close(w, a, enforceWrite).0 && p.asked == Close(w, a, enforceWrite).1 ==>
              ClosedRight(w, a, p, enforceWrite)
  {
    hide RanWriteTool, WroteIn, Closing;
    WroteByName(a);
  }
}
