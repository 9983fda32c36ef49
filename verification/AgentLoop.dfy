/**
 * The loop in which a model is prompted and its tool calls are executed. The model and the tools are
 * arbitrary: what the k-th prompt and the k-th execution give are parameters.
 */
module AgentLoop {
  import opened Responses

  /** The answer to a prompt: an error or some text. */
  datatype Answer = Failed | Reply(text: string)

  /** What executing a tool gives; a failed execution still yields a result. */
  datatype Execution = Execution(output: string, exitCode: int, error: string)

  datatype ToolResult = ToolResult(tool: string, args: string, output: string, exitCode: int, error: string)

  function ResultOf(call: ToolCall, e: Execution): ToolResult
  {
    ToolResult(call.tool, call.args, e.output, e.exitCode, e.error)
  }

  predicate IsWrite(tool: string)
  {
    tool == "write_file" || tool == "apply_patch"
  }

  predicate IsRead(tool: string)
  {
    tool == "read_file"
  }

  predicate HasWrite(results: seq<ToolResult>)
  {
    exists k :: 0 <= k < |results| && IsWrite(results[k].tool)
  }

  predicate HasRead(results: seq<ToolResult>)
  {
    exists k :: 0 <= k < |results| && IsRead(results[k].tool)
  }

  /** Some executed call is a write, and likewise for reads. */
  predicate Wrote(executed: seq<ToolCall>)
  {
    exists k :: 0 <= k < |executed| && IsWrite(executed[k].tool)
  }

  predicate DidRead(executed: seq<ToolCall>)
  {
    exists k :: 0 <= k < |executed| && IsRead(executed[k].tool)
  }

  const MAX_ROUNDS: nat := 8

  datatype Exit = ModelFinal | RawReply | PromptFailed | LimitReached

  /** After a read and until a write, the next call executed is a write. */
  ghost predicate Disciplined(executed: seq<ToolCall>)
  {
    forall k :: 0 < k < |executed| && DidRead(executed[..k]) && !Wrote(executed[..k]) ==> IsWrite(executed[k].tool)
  }

  /** The results record the executed calls, and otherwise only refusals, which are never writes. */
  ghost predicate Recorded(results: seq<ToolResult>, executed: seq<ToolCall>)
  {
    && |executed| <= |results|
    && (HasWrite(results) <==> Wrote(executed))
    && (HasRead(results) <==> DidRead(executed))
    && (results != [] ==> executed != [])
    && (|results| > |executed| ==> DidRead(executed))
  }

  lemma {:induction false} RecordExecuted(results: seq<ToolResult>, executed: seq<ToolCall>, call: ToolCall,
                                          e: Execution)
    requires Recorded(results, executed)
    ensures Recorded(results + [ResultOf(call, e)], executed + [call])
  {
    var more, calls := results + [ResultOf(call, e)], executed + [call];
    assert more[|results|] == ResultOf(call, e) && calls[|executed|] == call;
    assert forall k :: 0 <= k < |results| ==> more[k] == results[k];
    assert forall k :: 0 <= k < |executed| ==> calls[k] == executed[k];
  }

  lemma {:induction false} RecordRefused(results: seq<ToolResult>, executed: seq<ToolCall>, refused: ToolResult)
    requires Recorded(results, executed) && HasRead(results) && !IsWrite(refused.tool)
    ensures Recorded(results + [refused], executed)
  {
    var more := results + [refused];
    assert more[|results|] == refused;
    assert forall k :: 0 <= k < |results| ==> more[k] == results[k];
  }

  lemma {:induction false} ExecuteDisciplined(executed: seq<ToolCall>, call: ToolCall)
    requires Disciplined(executed)
    requires DidRead(executed) && !Wrote(executed) ==> IsWrite(call.tool)
    ensures Disciplined(executed + [call])
  {
    var calls := executed + [call];
    forall k | 0 < k < |calls| && DidRead(calls[..k]) && !Wrote(calls[..k]) ensures IsWrite(calls[k].tool) {
      assert calls[..k] == if k < |executed| then executed[..k] else executed;
    }
  }

  datatype Rules = Rules(tools: bool, write: bool, multi: bool)

  /** All calls the model asked for in its first `n` replies, in order. */
  function Requested(d: Decoder, llm: nat -> Answer, n: nat): seq<ToolCall>
  {
    if n == 0 then []
    else Requested(d, llm, n - 1) + (if llm(n - 1).Reply? then ParseTool(d, llm(n - 1).text).calls else [])
  }

  /** Those of the requested calls that are executed: with writes enforced, nothing but a write after a read. */
  function Allowed(requests: seq<ToolCall>, enforceWrite: bool): seq<ToolCall>
  {
    if requests == [] then []
    else
      var before, last := Allowed(requests[..|requests| - 1], enforceWrite), requests[|requests| - 1];
      if enforceWrite && DidRead(before) && !Wrote(before) && !IsWrite(last.tool) then before else before + [last]
  }

  const REFUSAL := "file already read; next step must be write_file or apply_patch"

  /** What is recorded for each requested call: the execution's result, or the refusal. */
  function Outcomes(requests: seq<ToolCall>, enforceWrite: bool, tools: (nat, ToolCall) -> Execution): seq<ToolResult>
  {
    if requests == [] then []
    else
      var front, last := requests[..|requests| - 1], requests[|requests| - 1];
      var before := Allowed(front, enforceWrite);
      Outcomes(front, enforceWrite, tools) +
      (if enforceWrite && DidRead(before) && !Wrote(before) && !IsWrite(last.tool) then
         [ToolResult(last.tool, last.args, "", 0, REFUSAL)]
       else [ResultOf(last, tools(|before|, last))])
  }

  /** How the loop ends at its n-th prompt, if it does. */
  function EndsAt(d: Decoder, llm: nat -> Answer, rules: Rules, n: nat): Option<Exit>
  {
    if llm(n).Failed? then Some(PromptFailed)
    else
      var reply, requests := ParseTool(d, llm(n).text), Requested(d, llm, n);
      var unmet := (rules.tools && requests == []) || (rules.multi && |requests| < 2)
                   || (rules.write && !Wrote(Allowed(requests, rules.write)));
      if reply.final != "" then (if unmet then None else Some(ModelFinal))
      else if reply.calls != [] || rules.tools then None
      else Some(RawReply)
  }

  /** The tool loop: at most eight prompts, and every call of a reply executed or refused. */
  method RunTools(d: Decoder, llm: nat -> Answer, tools: (nat, ToolCall) -> Execution, rules: Rules)
    returns (text: string, exit: Exit, prompts: nat, executed: seq<ToolCall>, results: seq<ToolResult>,
             messages: seq<string>)
    ensures 0 < prompts <= 8 && |messages| == 1
    ensures forall n :: 0 <= n < prompts - 1 ==> EndsAt(d, llm, rules, n) == None
    ensures if exit == LimitReached then
              prompts == 8 && EndsAt(d, llm, rules, 7) == None && text == "Agent exceeded tool call limit."
            else EndsAt(d, llm, rules, prompts - 1) == Some(exit)
    ensures executed == Allowed(Requested(d, llm, prompts), rules.write)
    ensures results == Outcomes(Requested(d, llm, prompts), rules.write, tools)
    ensures exit == ModelFinal ==> text == ParseTool(d, llm(prompts - 1).text).final
    ensures exit == RawReply ==> llm(prompts - 1) == Reply(text)
    ensures exit != PromptFailed ==> messages[0] == text
  {
    hide ParseTool, Recorded, Wrote, DidRead, HasWrite, HasRead, Requested, Allowed, Outcomes;
    results, executed, prompts := [], [], 0;
    RecordNothing();
    NothingRequested(d, llm, rules.write, tools);
    for round := 0 to MAX_ROUNDS
      invariant prompts == round
      invariant Recorded(results, executed)
      invariant executed == Allowed(Requested(d, llm, round), rules.write)
      invariant results == Outcomes(Requested(d, llm, round), rules.write, tools)
      invariant |results| == |Requested(d, llm, round)|
      invariant forall n :: 0 <= n < round ==> EndsAt(d, llm, rules, n) == None
    {
      var answer := llm(prompts);
      prompts := prompts + 1;
      RequestedNext(d, llm, round);
      if answer.Failed? {
        return "", PromptFailed, prompts, executed, results, ["Agent error"];
      }
      var parsed := ParseTool(d, answer.text);
      ParseToolGivesOne(d, answer.text);
      RecordedMeans(results, executed);
      if parsed.final != "" {
        if rules.tools && results == [] {
          continue;
        }
        if rules.multi && |results| < 2 {
          continue;
        }
        if rules.write && !HasWrite(results) {
          continue;
        }
        return parsed.final, ModelFinal, prompts, executed, results, [parsed.final];
      }
      if !parsed.ok || |parsed.calls| == 0 {
        if rules.tools {
          continue;
        }
        return answer.text, RawReply, prompts, executed, results, [answer.text];
      }
      results, executed := RunCalls(parsed.calls, tools, rules.write, results, executed, Requested(d, llm, round));
    }
    var limit := "Agent exceeded tool call limit.";
    return limit, LimitReached, prompts, executed, results, [limit];
  }

  /** The calls of one reply, each executed or refused. */
  method RunCalls(calls: seq<ToolCall>, tools: (nat, ToolCall) -> Execution, enforceWrite: bool,
                  results0: seq<ToolResult>,
                  executed0: seq<ToolCall>, ghost earlier: seq<ToolCall>)
    returns (results: seq<ToolResult>, executed: seq<ToolCall>)
    requires Recorded(results0, executed0) && executed0 == Allowed(earlier, enforceWrite)
    requires results0 == Outcomes(earlier, enforceWrite, tools)
    ensures Recorded(results, executed) && executed == Allowed(earlier + calls, enforceWrite)
    ensures results == Outcomes(earlier + calls, enforceWrite, tools)
    ensures |results| == |results0| + |calls|
  {
    hide Recorded, Wrote, DidRead, HasWrite, HasRead, Allowed, Outcomes;
    results, executed := results0, executed0;
    assert earlier + calls[..0] == earlier;
    for k := 0 to |calls|
      invariant Recorded(results, executed)
      invariant executed == Allowed(earlier + calls[..k], enforceWrite)
      invariant results == Outcomes(earlier + calls[..k], enforceWrite, tools)
      invariant |results| == |results0| + k
    {
      var call := calls[k];
      RecordedMeans(results, executed);
      AllowedNext(earlier + calls[..k], call, enforceWrite, tools);
      assert earlier + calls[..k + 1] == earlier + calls[..k] + [call];
      if enforceWrite && HasRead(results) && !HasWrite(results) && !IsWrite(call.tool) {
        var refused := ToolResult(call.tool, call.args, "", 0, REFUSAL);
        RecordRefused(results, executed, refused);
        results := results + [refused];
        continue;
      }
      var result := ResultOf(call, tools(|executed|, call));
      RecordExecuted(results, executed, call, tools(|executed|, call));
      results := results + [result];
      executed := executed + [call];
    }
    assert calls[..|calls|] == calls;
  }

  lemma {:induction false} NothingRequested(d: Decoder, llm: nat -> Answer, enforceWrite: bool,
                                            tools: (nat, ToolCall) -> Execution)
    ensures Requested(d, llm, 0) == [] && Allowed([], enforceWrite) == [] && Outcomes([], enforceWrite, tools) == []
  {
  }

  lemma {:induction false} RequestedNext(d: Decoder, llm: nat -> Answer, n: nat)
    ensures Requested(d, llm, n + 1) ==
            if llm(n).Reply? && ParseTool(d, llm(n).text).calls != [] then
              Requested(d, llm, n) + ParseTool(d, llm(n).text).calls
            else Requested(d, llm, n)
  {
    hide ParseTool;
    assert Requested(d, llm, n) + [] == Requested(d, llm, n);
  }

  lemma {:induction false} AllowedNext(requests: seq<ToolCall>, call: ToolCall, enforceWrite: bool,
                                       tools: (nat, ToolCall) -> Execution)
    ensures var before := Allowed(requests, enforceWrite);
            var refused := enforceWrite && DidRead(before) && !Wrote(before) && !IsWrite(call.tool);
            && Allowed(requests + [call], enforceWrite) == (if refused then before else before + [call])
            && Outcomes(requests + [call], enforceWrite, tools)
            == Outcomes(requests, enforceWrite, tools)
               + [if refused then ToolResult(call.tool, call.args, "", 0, REFUSAL)
                  else ResultOf(call, tools(|before|, call))]
  {
    hide DidRead, Wrote;
    assert (requests + [call])[..|requests|] == requests;
  }

  // ----- what this promises

  /** Without the write rule every requested call is executed; with it, refusals only ever follow a read. */
  lemma {:induction false} AllowedKeeps(requests: seq<ToolCall>, enforceWrite: bool)
    ensures var executed := Allowed(requests, enforceWrite);
            && (!enforceWrite ==> executed == requests)
            && (enforceWrite ==> Disciplined(executed))
            && (requests != [] ==> executed != [])
            && (|executed| < |requests| ==> DidRead(executed))
  {
    if requests != [] {
      var front, last := requests[..|requests| - 1], requests[|requests| - 1];
      AllowedKeeps(front, enforceWrite);
      var before := Allowed(front, enforceWrite);
      assert requests == front + [last];
      if Allowed(requests, enforceWrite) == before + [last] {
        if enforceWrite {
          ExecuteDisciplined(before, last);
        }
        assert forall k :: 0 <= k < |before| ==> (before + [last])[k] == before[k];
      }
    }
  }

  /**
   * A final answer of the model ends the loop only when every rule in force is met by calls that were
   * really executed: one call, two calls, a write. Refused calls cannot stand in for executed ones.
   */
  lemma {:induction false} FinalMeetsRules(d: Decoder, llm: nat -> Answer, rules: Rules, n: nat)
    requires EndsAt(d, llm, rules, n) == Some(ModelFinal)
    ensures var executed := Allowed(Requested(d, llm, n + 1), rules.write);
            && (rules.tools ==> executed != [])
            && (rules.multi ==> |executed| >= 2)
            && (rules.write ==> Wrote(executed))
  {
    hide ParseTool;
    var requests := Requested(d, llm, n);
    ParseToolGivesOne(d, llm(n).text);
    assert Requested(d, llm, n + 1) == requests;
    AllowedKeeps(requests, rules.write);
    var executed := Allowed(requests, rules.write);
    if |executed| < |requests| && rules.write {
      var r :| 0 <= r < |executed| && IsRead(executed[r].tool);
      var w :| 0 <= w < |executed| && IsWrite(executed[w].tool);
    }
  }

  /** What is recorded mentions a write, or a read, exactly when one was executed. */
  lemma {:induction false} OutcomesRecord(requests: seq<ToolCall>, enforceWrite: bool,
                                          tools: (nat, ToolCall) -> Execution)
    ensures Recorded(Outcomes(requests, enforceWrite, tools), Allowed(requests, enforceWrite))
    ensures |Outcomes(requests, enforceWrite, tools)| == |requests|
  {
    hide Recorded, Wrote, DidRead, HasWrite, HasRead;
    if requests == [] {
      RecordNothing();
    } else {
      var front, last := requests[..|requests| - 1], requests[|requests| - 1];
      OutcomesRecord(front, enforceWrite, tools);
      var before, results := Allowed(front, enforceWrite), Outcomes(front, enforceWrite, tools);
      RecordedMeans(results, before);
      if enforceWrite && DidRead(before) && !Wrote(before) && !IsWrite(last.tool) {
        RecordRefused(results, before, ToolResult(last.tool, last.args, "", 0, REFUSAL));
      } else {
        RecordExecuted(results, before, last, tools(|before|, last));
      }
    }
  }

  /** What is recorded for the k-th request: what its execution gave, or that it was refused, and why. */
  lemma {:induction false} OutcomeSays(requests: seq<ToolCall>, enforceWrite: bool,
                                       tools: (nat, ToolCall) -> Execution, k: nat)
    requires k < |requests|
    ensures |Outcomes(requests, enforceWrite, tools)| == |requests|
    ensures var (call, r) := (requests[k], Outcomes(requests, enforceWrite, tools)[k]);
            var (before, after) := (Allowed(requests[..k], enforceWrite), Allowed(requests[..k + 1], enforceWrite));
            && r.tool == call.tool && r.args == call.args
            && (if after == before + [call] then
                  var e := tools(|before|, call);
                  r.output == e.output && r.exitCode == e.exitCode && r.error == e.error
                else
                  && after == before && r.output == "" && r.exitCode == 0
                  && r.error == "file already read; next step must be write_file or apply_patch")
    decreases |requests|
  {
    hide DidRead, Wrote, IsWrite;
    var n := |requests| - 1;
    OutcomesRecord(requests, enforceWrite, tools);
    OutcomesRecord(requests[..n], enforceWrite, tools);
    if k < n {
      OutcomeSays(requests[..n], enforceWrite, tools, k);
      assert requests[..n][..k] == requests[..k] && requests[..n][..k + 1] == requests[..k + 1];
    } else {
      assert requests[..k + 1] == requests && requests == requests[..n] + [requests[n]];
    }
  }

  /** No read comes before the first write among the first n requests. */
  predicate NoReadYet(requests: seq<ToolCall>, n: nat)
    requires n <= |requests|
  {
    forall k :: 0 <= k < n ==> requests[k].tool != "read_file"
  }

  predicate NoWriteIn(requests: seq<ToolCall>, from: nat, to: nat)
    requires from <= to <= |requests|
  {
    forall k :: from <= k < to ==> requests[k].tool != "write_file" && requests[k].tool != "apply_patch"
  }

  /** A write is requested first, or nothing is read: then every request is executed. */
  lemma {:induction false} NothingRefused(requests: seq<ToolCall>, w: nat)
    requires w <= |requests| && NoReadYet(requests, w)
    requires w < |requests| ==> requests[w].tool == "write_file" || requests[w].tool == "apply_patch"
    ensures Allowed(requests, true) == requests
    decreases |requests|
  {
    if requests != [] {
      var front := requests[..|requests| - 1];
      NothingRefused(front, if w == |requests| then w - 1 else w);
      assert requests == front + [requests[|front|]];
    }
  }

  /**
   * With writes enforced exactly the requests between the first read and the next write are refused: if a
   * read comes at r before any write, and the next write at w or not at all, all others are executed.
   */
  lemma {:induction false} RefusedStretch(requests: seq<ToolCall>, r: nat, w: nat)
    requires r < w <= |requests| && requests[r].tool == "read_file"
    requires NoReadYet(requests, r) && NoWriteIn(requests, 0, w)
    requires w < |requests| ==> requests[w].tool == "write_file" || requests[w].tool == "apply_patch"
    ensures Allowed(requests, true) == requests[..r + 1] + requests[w..]
    decreases |requests|
  {
    hide Allowed, DidRead, Wrote, IsWrite;
    var n := |requests| - 1;
    var front, last := requests[..n], requests[n];
    var before := Allowed(front, true);
    assert requests == front + [last];
    AllowedStep(front, last);
    if n == r {
      NothingRefused(front, n);
      NoneRead(front);
      assert requests[..r + 1] + requests[w..] == front + [last];
    } else if w == |requests| {
      RefusedStretch(front, r, n);
      assert before == requests[..r + 1] && requests[w..] == [];
      SomeRead(before, r);
      NoneWritten(before);
      NoWriteHere(last);
    } else {
      RefusedStretch(front, r, w);
      assert front[..r + 1] == requests[..r + 1] && front[w..] + [last] == requests[w..];
      if w < n {
        assert before[r + 1] == front[w];
        SomeWritten(before, r + 1);
      } else {
        assert last == requests[w];
        IsWriteHere(last);
      }
    }
  }

  lemma {:induction false} AllowedStep(front: seq<ToolCall>, last: ToolCall)
    ensures var before := Allowed(front, true);
            Allowed(front + [last], true)
            == if DidRead(before) && !Wrote(before) && !IsWrite(last.tool) then before else before + [last]
  {
    hide DidRead, Wrote, IsWrite;
    assert (front + [last])[..|front|] == front;
  }

  lemma {:induction false} NoneRead(calls: seq<ToolCall>)
    requires NoReadYet(calls, |calls|)
    ensures !DidRead(calls)
  {
  }

  lemma {:induction false} SomeRead(calls: seq<ToolCall>, r: nat)
    requires r < |calls| && calls[r].tool == "read_file"
    ensures DidRead(calls)
  {
  }

  lemma {:induction false} NoneWritten(calls: seq<ToolCall>)
    requires NoWriteIn(calls, 0, |calls|)
    ensures !Wrote(calls)
  {
  }

  lemma {:induction false} SomeWritten(calls: seq<ToolCall>, w: nat)
    requires w < |calls| && (calls[w].tool == "write_file" || calls[w].tool == "apply_patch")
    ensures Wrote(calls)
  {
  }

  lemma {:induction false} NoWriteHere(call: ToolCall)
    requires call.tool != "write_file" && call.tool != "apply_patch"
    ensures !IsWrite(call.tool)
  {
  }

  lemma {:induction false} IsWriteHere(call: ToolCall)
    requires call.tool == "write_file" || call.tool == "apply_patch"
    ensures IsWrite(call.tool)
  {
  }

  /** Each reply's calls are requested, in their order and behind those of the replies before it. */
  lemma {:induction false} RequestedHolds(d: Decoder, llm: nat -> Answer, k: nat, n: nat)
    requires k < n
    ensures llm(k).Reply? ==> Requested(d, llm, k) + ParseTool(d, llm(k).text).calls <= Requested(d, llm, n)
    ensures llm(k).Failed? ==> Requested(d, llm, k) <= Requested(d, llm, n)
    ensures Requested(d, llm, 0) == []
    ensures |Requested(d, llm, k + 1)|
         == |Requested(d, llm, k)| + (if llm(k).Reply? then |ParseTool(d, llm(k).text).calls| else 0)
    decreases n
  {
    hide ParseTool;
    if k < n - 1 {
      RequestedHolds(d, llm, k, n - 1);
    }
  }

  lemma {:induction false} RecordNothing()
    ensures Recorded([], []) && Disciplined([])
  {
  }

  lemma {:induction false} RecordedMeans(results: seq<ToolResult>, executed: seq<ToolCall>)
    requires Recorded(results, executed)
    ensures HasWrite(results) <==> Wrote(executed)
    ensures HasRead(results) <==> DidRead(executed)
    ensures results != [] ==> executed != []
  {
  }

  lemma {:induction false} WriteFollowsRead(executed: seq<ToolCall>, r: nat)
    requires Disciplined(executed) && r + 1 < |executed| && IsRead(executed[r].tool) && !Wrote(executed[..r])
    ensures IsWrite(executed[r + 1].tool) && Wrote(executed[..r + 2])
  {
    assert executed[..r + 1] == executed[..r] + [executed[r]];
    assert executed[..r + 1][r] == executed[r];
    assert !Wrote(executed[..r + 1]);
    assert executed[..r + 2][r + 1] == executed[r + 1];
  }

  lemma {:induction false} WroteEarly(executed: seq<ToolCall>, j: nat, k: nat)
    requires j <= k <= |executed| && Wrote(executed[..j])
    ensures Wrote(executed[..k])
  {
    var i :| 0 <= i < j && IsWrite(executed[..j][i].tool);
    assert executed[..k][i] == executed[..j][i];
  }

  /** There is only one read before the first write. */
  lemma {:induction false} NoSecondRead(executed: seq<ToolCall>, j: nat, k: nat)
    requires Disciplined(executed) && j <= k < |executed|
    requires IsRead(executed[j].tool) && IsRead(executed[k].tool) && !Wrote(executed[..k])
    ensures j == k
  {
    if j < k {
      if Wrote(executed[..j]) {
        WroteEarly(executed, j, k);
      } else {
        WriteFollowsRead(executed, j);
        if j + 2 <= k {
          WroteEarly(executed, j + 2, k);
        }
      }
    }
  }

  /**
   * What the discipline means for the calls before the first write: at most one read, nothing executed
   * after it, and so the first write comes right after the read.
   */
  lemma {:induction false} ReadThenWrite(executed: seq<ToolCall>, r: nat)
    requires Disciplined(executed) && r < |executed| && IsRead(executed[r].tool) && !Wrote(executed[..r])
    ensures forall k :: 0 <= k < |executed| && IsRead(executed[k].tool) && !Wrote(executed[..k]) ==> k == r
    ensures r + 1 < |executed| ==> IsWrite(executed[r + 1].tool)
  {
    hide Disciplined, Wrote;
    forall k | 0 <= k < |executed| && IsRead(executed[k].tool) && !Wrote(executed[..k]) ensures k == r {
      if k < r {
        NoSecondRead(executed, k, r);
      } else if r < k {
        NoSecondRead(executed, r, k);
      }
    }
    if r + 1 < |executed| {
      WriteFollowsRead(executed, r);
    }
  }
}
