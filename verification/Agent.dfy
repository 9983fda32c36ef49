/**
 * From a prompt's wording to the obligations it puts on the model, and from those to what a whole agent
 * run may end with: planning first if several steps are asked for, and the tool loop after that.
 */
module Agent {
  import opened Text
  import opened JsonScan
  import opened Responses
  import opened AgentLoop
  import opened Planner

  // ----- what a prompt asks for

  function Lower(c: char): char
  {
    if 'A' <= c <= 'Z' then c - 'A' + 'a' else c
  }

  function ToLower(s: string): string
  {
    seq(|s|, k requires 0 <= k < |s| => Lower(s[k]))
  }

  /** The same letter, in one case or the other. */
  predicate SameLetter(a: char, b: char)
  {
    a == b || ('A' <= a <= 'Z' && b as int == a as int + 32) || ('A' <= b <= 'Z' && a as int == b as int + 32)
  }

  predicate SameLetters(s: string, t: string)
  {
    |s| == |t| && forall k :: 0 <= k < |s| ==> SameLetter(s[k], t[k])
  }

  /** Prompts are lower-cased, so that what they ask for does not depend on how they are written. */
  lemma {:induction false} CaseIsIgnored(s: string, t: string)
    requires SameLetters(s, t)
    ensures ToLower(s) == ToLower(t) && RulesFor(s) == RulesFor(t) && SameLetters(s, ToLower(s))
  {
    forall k | 0 <= k < |s| ensures ToLower(s)[k] == ToLower(t)[k] {
      assert SameLetter(s[k], t[k]);
    }
    assert ToLower(s) == ToLower(t);
    hide Mentions, Contains;
  }

  predicate Mentions(s: string, words: seq<string>)
  {
    exists k :: 0 <= k < |words| && Contains(s, words[k])
  }

  /** Verbs of both kinds of request, of those that only need tools, and of those that only need a write. */
  const EDIT_VERBS := ["write", "create", "edit", "modify", "update", "delete", "rename", "patch", "apply patch"]
  const LOOK_VERBS := ["read", "open", "cat", "diff"]
  const ADD_VERBS := ["add", "append", "extend", "expand", "continue", "insert", "replace", "change", "fix"]
  const OBJECTS := ["file", "directory", "folder", ".md", ".txt", ".go", ".js", ".ts", ".py", ".json", ".yaml", ".yml"]

  predicate RequiresTools(content: string)
  {
    var lower := ToLower(content);
    Mentions(lower, EDIT_VERBS + LOOK_VERBS) && Mentions(lower, OBJECTS)
  }

  predicate RequiresWrite(content: string)
  {
    var lower := ToLower(content);
    Mentions(lower, EDIT_VERBS + ADD_VERBS) && Mentions(lower, OBJECTS)
  }

  predicate RequiresMultiStep(content: string)
  {
    var lower := ToLower(content);
    Contains(lower, " and then ") || Contains(lower, " then ")
  }

  function RulesFor(content: string): Rules
  {
    Rules(RequiresTools(content), RequiresWrite(content), RequiresMultiStep(content))
  }

  lemma {:induction false} MentionsEither(s: string, a: seq<string>, b: seq<string>)
    ensures Mentions(s, a + b) <==> Mentions(s, a) || Mentions(s, b)
  {
    hide Contains;
    assert forall k :: 0 <= k < |a| ==> (a + b)[k] == a[k];
    assert forall k :: 0 <= k < |b| ==> (a + b)[|a| + k] == b[k];
  }

  /**
   * A write is asked for without tools being asked for exactly when a file is named along with a verb of
   * adding or changing, and no verb of editing or looking.
   */
  lemma {:induction false} WriteWithoutTools(content: string)
    ensures var lower := ToLower(content);
            RequiresWrite(content) && !RequiresTools(content) <==>
            Mentions(lower, OBJECTS) && Mentions(lower, ADD_VERBS)
            && !Mentions(lower, EDIT_VERBS) && !Mentions(lower, LOOK_VERBS)
  {
    hide Mentions, ToLower;
    MentionsEither(ToLower(content), EDIT_VERBS, LOOK_VERBS);
    MentionsEither(ToLower(content), EDIT_VERBS, ADD_VERBS);
  }

  /** A prompt names one of the objects along with one of the verbs. */
  ghost predicate Names(content: string, verbs: set<string>)
  {
    exists verb, thing ::
      && verb in verbs && Contains(ToLower(content), verb) && Contains(ToLower(content), thing)
      && thing in {"file", "directory", "folder", ".md", ".txt", ".go", ".js", ".ts", ".py", ".json", ".yaml", ".yml"}
  }

  lemma {:induction false} MentionsIn(s: string, words: seq<string>, same: set<string>)
    requires forall word :: word in words <==> word in same
    ensures Mentions(s, words) <==> exists word :: word in same && Contains(s, word)
  {
    hide Contains;
    if Mentions(s, words) {
      var k :| 0 <= k < |words| && Contains(s, words[k]);
      assert words[k] in words;
    }
    if word :| word in same && Contains(s, word) {
      var k :| 0 <= k < |words| && words[k] == word;
    }
  }

  lemma {:induction false} ObjectsNamed(s: string)
    ensures Mentions(s, OBJECTS) <==>
            exists thing :: Contains(s, thing) &&
                            thing in {"file", "directory", "folder", ".md", ".txt", ".go", ".js", ".ts", ".py", ".json",
                                      ".yaml", ".yml"}
  {
    hide Contains, Mentions;
    MentionsIn(s, OBJECTS, {"file", "directory", "folder", ".md", ".txt", ".go", ".js", ".ts", ".py", ".json",
                            ".yaml", ".yml"});
  }

  /** Which prompts ask for tools: those naming a file, a directory or a kind of file and a verb of these. */
  lemma {:induction false} ToolsExactly(content: string)
    ensures RulesFor(content).tools <==>
            Names(content, {"write", "create", "edit", "modify", "update", "delete", "rename", "read", "open", "cat",
                            "diff", "patch", "apply patch"})
  {
    hide Contains, Mentions, ToLower;
    var verbs := {"write", "create", "edit", "modify", "update", "delete", "rename", "read", "open", "cat",
                  "diff", "patch", "apply patch"};
    MentionsIn(ToLower(content), EDIT_VERBS + LOOK_VERBS, verbs);
    ObjectsNamed(ToLower(content));
  }

  /** And which ask for a write. */
  lemma {:induction false} WriteExactly(content: string)
    ensures RulesFor(content).write <==>
            Names(content, {"write", "create", "edit", "modify", "update", "delete", "rename", "patch", "apply patch",
                            "add", "append", "extend", "expand", "continue", "insert", "replace", "change", "fix"})
  {
    hide Contains, Mentions, ToLower;
    var verbs := {"write", "create", "edit", "modify", "update", "delete", "rename", "patch", "apply patch",
                  "add", "append", "extend", "expand", "continue", "insert", "replace", "change", "fix"};
    MentionsIn(ToLower(content), EDIT_VERBS + ADD_VERBS, verbs);
    ObjectsNamed(ToLower(content));
  }

  /** Several steps are asked for exactly by the word `then` between spaces, in whatever case. */
  lemma {:induction false} MultiStepExactly(content: string)
    ensures RulesFor(content).multi <==>
            exists front, back :: ToLower(content) == front + " then " + back
  {
    hide ToLower;
    var lower := ToLower(content);
    if at :| 0 <= at <= |lower| && StandsAt(" and then ", lower, at) {
      assert lower[at + 4..at + 10] == lower[at..at + 10][4..10] == " and then "[4..10] == " then ";
      assert StandsAt(" then ", lower, at + 4);
    }
    if Contains(lower, " then ") {
      var at :| 0 <= at <= |lower| && StandsAt(" then ", lower, at);
      assert lower == lower[..at] + " then " + lower[at + 6..];
    }
    if front, back :| lower == front + " then " + back {
      assert lower[|front|..|front| + 6] == " then ";
      assert StandsAt(" then ", lower, |front|);
    }
  }

  const FIX := "fix main.go"

  /** Two neighbouring letters of that text. */
  predicate InFix(a: char, b: char)
  {
    if a == 'f' then b == 'i'
    else if a == 'i' then b == 'x' || b == 'n'
    else if a == 'x' then b == ' '
    else if a == ' ' then b == 'm'
    else if a == 'm' then b == 'a'
    else if a == 'a' then b == 'i'
    else if a == 'n' then b == '.'
    else if a == '.' then b == 'g'
    else a == 'g' && b == 'o'
  }

  lemma {:induction false} FixPairs(s: string)
    requires s == FIX
    ensures forall i :: 0 <= i < |s| - 1 ==> InFix(s[i], s[i + 1])
  {
    assert s[0] == 'f' && s[1] == 'i' && s[2] == 'x' && s[3] == ' ' && s[4] == 'm' && s[5] == 'a';
    assert s[6] == 'i' && s[7] == 'n' && s[8] == '.' && s[9] == 'g' && s[10] == 'o' && |s| == 11;
  }

  lemma {:induction false} FixHasNone(word: string)
    requires |word| > 1 && Contains(FIX, word)
    ensures InFix(word[0], word[1])
  {
    hide InFix;
    FixPairs(FIX);
    Neighbours(FIX, word);
  }

  /** The first two letters of a word stand next to each other wherever the word occurs. */
  lemma {:induction false} Neighbours(s: string, word: string)
    requires |word| > 1 && Contains(s, word)
    ensures exists i :: 0 <= i < |s| - 1 && s[i] == word[0] && s[i + 1] == word[1]
  {
    var i :| 0 <= i <= |s| && StandsAt(word, s, i);
    assert s[i..i + |word|][0] == s[i] && s[i..i + |word|][1] == s[i + 1];
  }

  lemma {:induction false} FixStaysLower()
    ensures ToLower(FIX) == FIX
  {
    assert forall k :: 0 <= k < |FIX| ==> Lower(FIX[k]) == FIX[k];
  }

  lemma {:induction false} SomeWord(s: string, words: seq<string>, k: nat)
    requires k < |words| && Contains(s, words[k])
    ensures Mentions(s, words)
  {
  }

  lemma {:induction false} FixMentionsNone()
    ensures !Mentions(FIX, EDIT_VERBS) && !Mentions(FIX, LOOK_VERBS)
  {
    hide Contains;
    forall k | 0 <= k < |EDIT_VERBS| ensures !Contains(FIX, EDIT_VERBS[k]) {
      if Contains(FIX, EDIT_VERBS[k]) {
        FixHasNone(EDIT_VERBS[k]);
      }
    }
    forall k | 0 <= k < |LOOK_VERBS| ensures !Contains(FIX, LOOK_VERBS[k]) {
      if Contains(FIX, LOOK_VERBS[k]) {
        FixHasNone(LOOK_VERBS[k]);
      }
    }
  }

  lemma {:induction false} FixMentionsSome()
    ensures Mentions(FIX, OBJECTS) && Mentions(FIX, ADD_VERBS)
  {
    hide Mentions, Contains;
    assert ADD_VERBS[8] == "fix" && OBJECTS[5] == ".go";
    ContainsAt(FIX, "fix", 0);
    assert FIX[0..3] == "fix" && FIX[8..11] == ".go";
    ContainsAt(FIX, ".go", 8);
    SomeWord(FIX, OBJECTS, 5);
    SomeWord(FIX, ADD_VERBS, 8);
  }

  lemma {:induction false} ContainsAt(s: string, part: string, i: nat)
    requires StandsAt(part, s, i)
    ensures Contains(s, part)
  {
  }

  lemma {:induction false} FixIsOneStep()
    ensures !Contains(FIX, " and then ") && !Contains(FIX, " then ")
  {
    hide Contains;
    if Contains(FIX, " and then ") {
      FixHasNone(" and then ");
    }
    if Contains(FIX, " then ") {
      FixHasNone(" then ");
    }
  }

  /** Such a prompt is `fix main.go`. */
  lemma {:induction false} FixAsksForAWrite()
    ensures RulesFor(FIX) == Rules(false, true, false)
  {
    hide Contains, Mentions, ToLower;
    FixStaysLower();
    FixMentionsSome();
    FixMentionsNone();
    FixIsOneStep();
    MentionsEither(FIX, EDIT_VERBS, LOOK_VERBS);
    MentionsEither(FIX, EDIT_VERBS, ADD_VERBS);
  }

  // ----- what the loop may hand back

  /** The tool loop ends at its n-th prompt in this way. */
  ghost predicate EndsBy(d: Decoder, llm: nat -> Answer, rules: Rules, n: nat, exit: Exit)
  {
    && n < MAX_ROUNDS && EndsAt(d, llm, rules, n) == Some(exit)
    && forall m :: 0 <= m < n ==> EndsAt(d, llm, rules, m) == None
  }

  /** What a run that ends at its n-th prompt has executed. */
  function ExecutedBy(d: Decoder, llm: nat -> Answer, rules: Rules, n: nat): seq<ToolCall>
  {
    Allowed(Requested(d, llm, n + 1), rules.write)
  }

  predicate RulesMet(rules: Rules, executed: seq<ToolCall>)
  {
    && (rules.tools ==> executed != [])
    && (rules.multi ==> |executed| >= 2)
    && (rules.write ==>
          exists k :: 0 <= k < |executed| && (executed[k].tool == "write_file" || executed[k].tool == "apply_patch"))
  }

  /** The model that has nothing to say. */
  const SILENT: nat -> Answer := n => Reply("")

  lemma {:induction false} SilenceIsNothing(d: Decoder)
    ensures ParseTool(d, "") == NOTHING
  {
  }

  /** If tools are not enforced, silence is handed back at once, with nothing executed. */
  lemma {:induction false} SilenceIsHandedBack(d: Decoder, rules: Rules)
    requires !rules.tools
    ensures EndsBy(d, SILENT, rules, 0, RawReply) && ExecutedBy(d, SILENT, rules, 0) == []
  {
    hide ParseTool;
    SilenceIsNothing(d);
    NothingRequested(d, SILENT, rules.write, (n, call) => Execution("", 0, ""));
    RequestedNext(d, SILENT, 0);
  }

  lemma {:induction false} RawNeedsNoTools(d: Decoder, llm: nat -> Answer, rules: Rules, n: nat)
    requires EndsBy(d, llm, rules, n, RawReply)
    ensures !rules.tools
  {
    hide ParseTool;
  }

  /**
   * Whatever text of the model the loop hands back, final or raw, the rules in force have been met by then:
   * that holds, for every decoder, exactly when tools are enforced or no rule is in force at all.
   */
  lemma {:induction false} RulesHoldExactly(d: Decoder, rules: Rules)
    ensures (forall llm: nat -> Answer, n: nat, exit ::
               EndsBy(d, llm, rules, n, exit) && exit in {ModelFinal, RawReply} ==>
                 RulesMet(rules, ExecutedBy(d, llm, rules, n)))
            <==> (rules.tools || (!rules.write && !rules.multi))
  {
    hide EndsAt, Allowed, Requested;
    if rules.tools {
      forall llm: nat -> Answer, n: nat, exit |
        EndsBy(d, llm, rules, n, exit) && exit in {ModelFinal, RawReply}
        ensures RulesMet(rules, ExecutedBy(d, llm, rules, n))
      {
        if exit == RawReply {
          RawNeedsNoTools(d, llm, rules, n);
        } else {
          FinalMeetsRules(d, llm, rules, n);
        }
      }
    } else {
      SilenceIsHandedBack(d, rules);
      assert RulesMet(rules, []) <==> !rules.write && !rules.multi;
    }
  }

  /** What an answer's text is read as decides how the loop goes on, with the rules met or not by what was executed. */
  lemma {:induction false} EndsExactly(d: Decoder, llm: nat -> Answer, rules: Rules, n: nat)
    ensures var end := EndsAt(d, llm, rules, n);
            match llm(n)
            case Failed => end == Some(PromptFailed)
            case Reply(text) =>
              var parsed := ParseTool(d, text);
              if parsed.final != "" then
                end == if RulesMet(rules, Allowed(Requested(d, llm, n), rules.write)) then Some(ModelFinal) else None
              else if parsed.calls != [] then end == None
              else end == if rules.tools then None else Some(RawReply)
  {
    hide ParseTool, Requested, Allowed;
    if llm(n).Reply? && ParseTool(d, llm(n).text).final != "" {
      var requests := Requested(d, llm, n);
      var executed := Allowed(requests, rules.write);
      AllowedKeeps(requests, rules.write);
      AllowedShort(requests, rules.write);
      NothingMoreAsked(d, llm, n);
      if EndsAt(d, llm, rules, n) == Some(ModelFinal) {
        FinalMeetsRules(d, llm, rules, n);
      }
      assert Wrote(executed) <==>
             exists k :: 0 <= k < |executed| && (executed[k].tool == "write_file" || executed[k].tool == "apply_patch");
    }
  }

  /** A final answer asks for nothing. */
  lemma {:induction false} NothingMoreAsked(d: Decoder, llm: nat -> Answer, n: nat)
    requires llm(n).Reply? && ParseTool(d, llm(n).text).final != ""
    ensures Requested(d, llm, n + 1) == Requested(d, llm, n)
  {
    hide ParseTool;
    ParseToolGivesOne(d, llm(n).text);
    RequestedNext(d, llm, n);
  }

  lemma {:induction false} AllowedShort(requests: seq<ToolCall>, enforceWrite: bool)
    ensures |Allowed(requests, enforceWrite)| <= |requests|
  {
    hide DidRead, Wrote, IsWrite;
    if requests != [] {
      AllowedShort(requests[..|requests| - 1], enforceWrite);
    }
  }

  /**
   * A final answer is accepted as soon as the rules in force are met: a run that comes to such a prompt ends
   * there, whatever the model, the decoder and the rules. With FinalMeetsRules that is exactly when.
   */
  lemma {:induction false} FinalAccepted(d: Decoder, llm: nat -> Answer, rules: Rules, n: nat)
    requires n < 8 && forall m :: 0 <= m < n ==> EndsAt(d, llm, rules, m) == None
    requires llm(n).Reply? && ParseTool(d, llm(n).text).final != ""
    ensures EndsBy(d, llm, rules, n, ModelFinal) <==> RulesMet(rules, ExecutedBy(d, llm, rules, n))
  {
    hide ParseTool, Requested, Allowed, EndsAt, RulesMet;
    NothingMoreAsked(d, llm, n);
    EndsExactly(d, llm, rules, n);
  }

  /**
   * It is refused, and the model asked again, exactly when tools are enforced and nothing is recorded, or
   * several steps are and fewer than two results are recorded, or a write is and none is recorded.
   */
  lemma {:induction false} FinalRefusedExactly(d: Decoder, llm: nat -> Answer, rules: Rules, n: nat,
                                               tools: (nat, ToolCall) -> Execution)
    requires llm(n).Reply? && ParseTool(d, llm(n).text).final != ""
    ensures var results := Outcomes(Requested(d, llm, n), rules.write, tools);
            EndsAt(d, llm, rules, n) == None <==>
            || (rules.tools && results == [])
            || (rules.multi && |results| < 2)
            || (rules.write && forall k :: 0 <= k < |results| ==>
                  results[k].tool != "write_file" && results[k].tool != "apply_patch")
  {
    hide ParseTool, Requested, Allowed, Outcomes, Wrote;
    var requests := Requested(d, llm, n);
    OutcomesRecord(requests, rules.write, tools);
    RecordedMeans(Outcomes(requests, rules.write, tools), Allowed(requests, rules.write));
  }

  /** So `fix main.go` may be answered with nothing written, whatever the tools: the loop asks for no more. */
  lemma {:induction false} FixMayBeIgnored(d: Decoder)
    ensures EndsBy(d, SILENT, RulesFor(FIX), 0, RawReply)
    ensures RulesFor(FIX).write && ExecutedBy(d, SILENT, RulesFor(FIX), 0) == []
  {
    hide EndsBy, ExecutedBy, RulesFor;
    FixAsksForAWrite();
    SilenceIsHandedBack(d, RulesFor(FIX));
  }

  // ----- failed writes

  /** The execution of the k-th executed call, as it is recorded. */
  predicate Succeeded(r: ToolResult)
  {
    r.exitCode == 0 && r.error == ""
  }

  /** Some write really took place. */
  predicate WriteDone(results: seq<ToolResult>)
  {
    exists k :: 0 <= k < |results| && IsWrite(results[k].tool) && Succeeded(results[k])
  }

  /** No execution of a write tool fails, whenever it is and whatever it is given. */
  ghost predicate WritesSucceed(tools: (nat, ToolCall) -> Execution)
  {
    forall k: nat, call: ToolCall :: IsWrite(call.tool) ==> !StepFailed(tools(k, call))
  }

  /** Every executed call has its result, namely that of its own execution, among the results. */
  lemma {:induction false} ResultFor(requests: seq<ToolCall>, enforceWrite: bool, tools: (nat, ToolCall) -> Execution,
                                     j: nat)
    requires j < |Allowed(requests, enforceWrite)|
    ensures var call := Allowed(requests, enforceWrite)[j];
            exists i :: 0 <= i < |Outcomes(requests, enforceWrite, tools)|
                        && Outcomes(requests, enforceWrite, tools)[i] == ResultOf(call, tools(j, call))
  {
    hide DidRead, Wrote;
    var front, last := requests[..|requests| - 1], requests[|requests| - 1];
    var before, all := Allowed(front, enforceWrite), Outcomes(requests, enforceWrite, tools);
    if j < |before| {
      ResultFor(front, enforceWrite, tools, j);
      var i :| 0 <= i < |Outcomes(front, enforceWrite, tools)|
            && Outcomes(front, enforceWrite, tools)[i] == ResultOf(before[j], tools(j, before[j]));
      assert all[i] == Outcomes(front, enforceWrite, tools)[i];
    } else {
      assert all[|all| - 1] == ResultOf(last, tools(j, last));
    }
  }

  lemma {:induction false} FinalHasWritten(d: Decoder, llm: nat -> Answer, rules: Rules, n: nat,
                                           tools: (nat, ToolCall) -> Execution)
    requires WritesSucceed(tools) && rules.write && EndsBy(d, llm, rules, n, ModelFinal)
    ensures WriteDone(Outcomes(Requested(d, llm, n + 1), true, tools))
  {
    hide EndsAt, Allowed, Requested, Outcomes;
    FinalMeetsRules(d, llm, rules, n);
    var requests := Requested(d, llm, n + 1);
    var executed := Allowed(requests, true);
    var j :| 0 <= j < |executed| && IsWrite(executed[j].tool);
    ResultFor(requests, true, tools, j);
  }

  /** A tool that never does anything. */
  const BROKEN: (nat, ToolCall) -> Execution := (k, call) => Execution("", 1, "permission denied")

  const SHELL := ToolCall("shell", "")

  function Shells(k: nat): seq<ToolCall>
  {
    if k == 0 then [] else Shells(k - 1) + [SHELL]
  }

  /** A call made after k others, none of which is a write. */
  function After(k: nat, call: ToolCall): seq<ToolCall>
  {
    Shells(k) + [call]
  }

  const CALLS_REPLY := "{calls}"
  const FINAL_REPLY := "{final}"

  /** A model that asks for the calls and then says it is done, and a decoder that understands it so. */
  const TALKER: nat -> Answer := n => Reply(if n == 0 then CALLS_REPLY else FINAL_REPLY)

  function Understands(calls: seq<ToolCall>): Decoder
  {
    Decoder(t => Some(if t == CALLS_REPLY then ToolEnvelope("", calls, None, "", "")
                      else ToolEnvelope("done", [], None, "", "")),
            t => Some(PlanEnvelope("", calls)), t => None, t => None, t => None, t => None)
  }

  lemma {:induction false} Understood(calls: seq<ToolCall>)
    requires calls != []
    ensures ParseTool(Understands(calls), CALLS_REPLY) == Calls(calls)
    ensures ParseTool(Understands(calls), FINAL_REPLY) == Final("done")
    ensures ParsePlan(Understands(calls), CALLS_REPLY) == Calls(calls)
  {
    BracedIsNormal(CALLS_REPLY);
    BracedIsNormal(FINAL_REPLY);
    hide Normalize, Extract;
  }

  lemma {:induction false} OnlyShells(k: nat)
    ensures |Shells(k)| == k && !DidRead(Shells(k))
    ensures forall i :: 0 <= i < k ==> Shells(k)[i] == SHELL
  {
    hide DidRead;
    if k > 0 {
      OnlyShells(k - 1);
    }
    NoRead(Shells(k));
  }

  lemma {:induction false} NoRead(calls: seq<ToolCall>)
    requires forall i :: 0 <= i < |calls| ==> calls[i] == SHELL
    ensures !DidRead(calls)
  {
  }

  predicate NoWrites(results: seq<ToolResult>)
  {
    forall i :: 0 <= i < |results| ==> !IsWrite(results[i].tool)
  }

  lemma {:induction false} OneMoreShell(calls: seq<ToolCall>, tools: (nat, ToolCall) -> Execution)
    requires Allowed(calls, true) == calls && !DidRead(calls)
    requires NoWrites(Outcomes(calls, true, tools)) && |Outcomes(calls, true, tools)| == |calls|
    ensures Allowed(calls + [SHELL], true) == calls + [SHELL]
    ensures |Outcomes(calls + [SHELL], true, tools)| == |calls| + 1
    ensures NoWrites(Outcomes(calls + [SHELL], true, tools))
  {
    hide Allowed, Outcomes, DidRead;
    AllowedNext(calls, SHELL, true, tools);
  }

  /** Without a read before it the write rule refuses nothing. */
  lemma {:induction false} ShellsAllowed(k: nat, tools: (nat, ToolCall) -> Execution)
    ensures Allowed(Shells(k), true) == Shells(k)
    ensures |Outcomes(Shells(k), true, tools)| == k && NoWrites(Outcomes(Shells(k), true, tools))
  {
    hide Allowed, Outcomes, DidRead;
    if k == 0 {
      NothingRequested(Understands([SHELL]), TALKER, true, tools);
    } else {
      ShellsAllowed(k - 1, tools);
      OnlyShells(k - 1);
      OneMoreShell(Shells(k - 1), tools);
    }
  }

  lemma {:induction false} AfterShells(k: nat, call: ToolCall, tools: (nat, ToolCall) -> Execution)
    requires IsWrite(call.tool)
    ensures Allowed(After(k, call), true) == After(k, call) && Wrote(After(k, call))
    ensures WriteDone(Outcomes(After(k, call), true, tools)) <==> !StepFailed(tools(k, call))
  {
    hide Allowed, Outcomes, DidRead;
    OnlyShells(k);
    ShellsAllowed(k, tools);
    AllowedNext(Shells(k), call, true, tools);
    assert After(k, call)[k] == call;
    var results := Outcomes(After(k, call), true, tools);
    assert results[k] == ResultOf(call, tools(k, call));
  }

  lemma {:induction false} TalkerAsks(calls: seq<ToolCall>)
    requires calls != []
    ensures var d := Understands(calls);
            && Requested(d, TALKER, 0) == [] && Requested(d, TALKER, 1) == Requested(d, TALKER, 2) == calls
            && EndsAt(d, TALKER, Rules(true, true, false), 0) == None
  {
    hide ParseTool, Allowed, Outcomes, Requested, Wrote, Understands;
    var d := Understands(calls);
    Understood(calls);
    NothingRequested(d, TALKER, true, BROKEN);
    RequestedNext(d, TALKER, 0);
    RequestedNext(d, TALKER, 1);
    assert [] + calls == calls;
  }

  lemma {:induction false} TalkerStops(calls: seq<ToolCall>)
    requires calls != [] && Allowed(calls, true) == calls && Wrote(calls)
    ensures EndsAt(Understands(calls), TALKER, Rules(true, true, false), 1) == Some(ModelFinal)
  {
    hide ParseTool, Allowed, Requested, Wrote, Understands;
    Understood(calls);
    TalkerAsks(calls);
  }

  /** The loop takes the word of that model, under all the rules but that of two steps. */
  lemma {:induction false} TalkerEnds(k: nat, call: ToolCall, tools: (nat, ToolCall) -> Execution)
    requires IsWrite(call.tool)
    ensures var (d, rules) := (Understands(After(k, call)), Rules(true, true, false));
            && EndsBy(d, TALKER, rules, 1, ModelFinal)
            && (WriteDone(Outcomes(Requested(d, TALKER, 2), true, tools)) <==> !StepFailed(tools(k, call)))
  {
    hide ParseTool, Allowed, Outcomes, Requested, Wrote, Understands, WriteDone, StepFailed, EndsAt, IsWrite;
    AfterShells(k, call, tools);
    TalkerAsks(After(k, call));
    TalkerStops(After(k, call));
  }

  /**
   * The write rule looks at the tools named, not at what came of them. A model's final answer under that
   * rule stands for a write that really took place, whatever the model and the decoder, exactly when no
   * execution of a write tool ever fails.
   */
  lemma {:induction false} FinalMeansWrittenExactly(tools: (nat, ToolCall) -> Execution)
    ensures (forall d: Decoder, llm: nat -> Answer, rules: Rules, n: nat ::
               rules.write && EndsBy(d, llm, rules, n, ModelFinal) ==>
                 WriteDone(Outcomes(Requested(d, llm, n + 1), true, tools)))
            <==> WritesSucceed(tools)
  {
    hide EndsBy, Requested, Outcomes, WriteDone, StepFailed, IsWrite;
    if WritesSucceed(tools) {
      forall d: Decoder, llm: nat -> Answer, rules: Rules, n: nat | rules.write && EndsBy(d, llm, rules, n, ModelFinal)
        ensures WriteDone(Outcomes(Requested(d, llm, n + 1), true, tools))
      {
        FinalHasWritten(d, llm, rules, n, tools);
      }
    } else {
      var k: nat, call: ToolCall :| IsWrite(call.tool) && StepFailed(tools(k, call));
      TalkerEnds(k, call, tools);
    }
  }

  /** So with tools that always fail a run still ends well for a model that asks for one write. */
  lemma {:induction false} FailedWriteIsAccepted()
    ensures var d := Understands([ToolCall("write_file", "{}")]);
            && EndsBy(d, TALKER, Rules(true, true, false), 1, ModelFinal)
            && Outcomes(Requested(d, TALKER, 2), true, BROKEN)
            == [ToolResult("write_file", "{}", "", 1, "permission denied")]
  {
    var write := ToolCall("write_file", "{}");
    hide ParseTool, Allowed, Outcomes, Requested, Wrote, Understands, WriteDone, EndsBy;
    assert After(0, write) == [write];
    TalkerEnds(0, write, BROKEN);
    TalkerAsks([write]);
    NothingRequested(Understands([write]), TALKER, true, BROKEN);
    AllowedNext([], write, true, BROKEN);
    assert [] + [write] == [write];
    NothingYet();
  }

  lemma {:induction false} NothingYet()
    ensures !DidRead([]) && !Wrote([])
  {
  }

  // ----- failed writes of a plan

  /** Some run of a write step really took place; the runs of an attempt are executed one after another. */
  ghost predicate WriteDoneIn(w: World, a: Attempt)
  {
    exists k: nat, r: nat :: k < |a.walk.runs| && r + |a.walk.runs| == a.walk.ran + k && RunOfWrite(w, a, k, r)
  }

  /** The k-th run of the attempt, which is the r-th execution, is of a write step and does not fail. */
  predicate RunOfWrite(w: World, a: Attempt, k: nat, r: nat)
  {
    && k < |a.walk.runs| && a.walk.runs[k] < |a.steps| && IsWrite(a.steps[a.walk.runs[k]].tool)
    && !StepFailed(w.tools(r, a.steps[a.walk.runs[k]]))
  }

  lemma {:induction false} PlanHasWritten(w: World, request: string, plan: Option<PlanState>, n: nat, asked: nat,
                                          ran: nat)
    requires WritesSucceed(w.tools) && n <= MAX_ATTEMPTS
    requires Attempts(w, request, plan, n, asked, ran, true).end.Finished?
    ensures var p := Attempts(w, request, plan, n, asked, ran, true);
            p.attempts != [] && WriteDoneIn(w, p.attempts[|p.attempts| - 1])
    decreases MAX_ATTEMPTS - n
  {
    hide ParsePlan, WalkFrom, Closing, WroteIn, WriteDoneIn, WritesSucceed;
    if n < MAX_ATTEMPTS && FindPlan(w, request, plan, asked).Plan? {
      var found := FindPlan(w, request, plan, asked);
      var a := Attempt(found.state.steps, found.state.index,
                       WalkFrom(w, found.state.steps, found.state.index, 0, found.asked, ran));
      if Completed(a) {
        WalkReach(w, a.steps, a.start, 0, found.asked, ran);
        WrittenByRun(w, a, ran);
      } else {
        PlanHasWritten(w, request, None, n + 1, a.walk.asked, a.walk.ran);
      }
    }
  }

  lemma {:induction false} WrittenByRun(w: World, a: Attempt, ran: nat)
    requires WritesSucceed(w.tools) && WroteIn(a) && a.walk.ran == ran + |a.walk.runs|
    ensures WriteDoneIn(w, a)
  {
    var k :| 0 <= k < |a.walk.runs| && a.walk.runs[k] < |a.steps| && IsWrite(a.steps[a.walk.runs[k]].tool);
    assert RunOfWrite(w, a, k, ran + k);
  }

  /** When every failed step is found to be fine, each step is run once. */
  lemma {:induction false} EachStepOnce(w: World, steps: seq<ToolCall>, index: nat, asked: nat, ran: nat)
    requires index <= |steps| && forall k: nat :: Judge(w, k) == Fine
    ensures var r := WalkFrom(w, steps, index, 0, asked, ran);
            && r.index == |steps| && |r.runs| == |steps| - index && r.ran == ran + |r.runs|
            && forall k :: 0 <= k < |r.runs| ==> r.runs[k] == index + k
    decreases |steps| - index
  {
    hide Judge, StepFailed;
    if index < |steps| {
      var now := if StepFailed(w.tools(ran, steps[index])) then asked + 1 else asked;
      EachStepOnce(w, steps, index + 1, now, ran + 1);
    }
  }

  /** The world of a model that plans these steps, and whose judge finds every failure fine. */
  function Easygoing(steps: seq<ToolCall>, tools: (nat, ToolCall) -> Execution): World
  {
    World(n => Reply(CALLS_REPLY), tools, text => Fine, Understands(steps))
  }

  lemma {:induction false} EasygoingFinishes(k: nat, call: ToolCall, tools: (nat, ToolCall) -> Execution,
                                             request: string)
    requires IsWrite(call.tool)
    ensures var w := Easygoing(After(k, call) + [SHELL], tools);
            var p := Attempts(w, request, None, 0, 0, 0, true);
            && p.end.Finished? && |p.attempts| == 1
            && (WriteDoneIn(w, p.attempts[0]) <==> !StepFailed(tools(k, call)))
  {
    hide ParsePlan, ParseTool, WalkFrom, Closing, Understands, WriteDoneIn, Shells, Attempts, StepFailed;
    var steps := After(k, call) + [SHELL];
    var w := Easygoing(steps, tools);
    OnlyShells(k);
    assert steps[k] == call;
    Understood(steps);
    AttemptsUnfold(w, request, None, 0, 0, 0, true);
    EachStepOnce(w, steps, 0, 1, 0);
    var a := Attempt(steps, 0, WalkFrom(w, steps, 0, 0, 1, 0));
    assert a.walk.runs[k] == k;
    assert WroteIn(a);
    OnlyThatWrite(w, a, k, call);
  }

  lemma {:induction false} OnlyThatWrite(w: World, a: Attempt, k: nat, call: ToolCall)
    requires k + 2 == |a.steps| == |a.walk.runs| == a.walk.ran && IsWrite(call.tool)
    requires forall i :: 0 <= i < |a.steps| ==> a.walk.runs[i] == i && a.steps[i] == if i == k then call else SHELL
    ensures WriteDoneIn(w, a) <==> !StepFailed(w.tools(k, call))
  {
    hide StepFailed;
    if !StepFailed(w.tools(k, call)) {
      assert RunOfWrite(w, a, k, k);
    }
    assert !IsWrite(SHELL.tool);
  }

  /**
   * The same of a plan carried out: under the write rule a finished run stands for a write that really
   * took place, whatever the model, its judgements and the decoder, exactly when no write ever fails.
   */
  lemma {:induction false} FinishedMeansWrittenExactly(tools: (nat, ToolCall) -> Execution)
    ensures (forall llm: nat -> Answer, judge: string -> Status, d: Decoder, request: string, plan: Option<PlanState> ::
               var p := Attempts(World(llm, tools, judge, d), request, plan, 0, 0, 0, true);
               p.end.Finished? ==>
                 p.attempts != [] && WriteDoneIn(World(llm, tools, judge, d), p.attempts[|p.attempts| - 1]))
            <==> WritesSucceed(tools)
  {
    hide Attempts, WriteDoneIn, StepFailed, IsWrite;
    if WritesSucceed(tools) {
      forall llm: nat -> Answer, judge: string -> Status, d: Decoder, request: string, plan: Option<PlanState>
        ensures var p := Attempts(World(llm, tools, judge, d), request, plan, 0, 0, 0, true);
                p.end.Finished? ==>
                  p.attempts != [] && WriteDoneIn(World(llm, tools, judge, d), p.attempts[|p.attempts| - 1])
      {
        if Attempts(World(llm, tools, judge, d), request, plan, 0, 0, 0, true).end.Finished? {
          PlanHasWritten(World(llm, tools, judge, d), request, plan, 0, 0, 0);
        }
      }
    } else {
      var k: nat, call: ToolCall :| IsWrite(call.tool) && StepFailed(tools(k, call));
      EasygoingFinishes(k, call, tools, "");
    }
  }

  /** So a plan of one write is finished, with tools that always fail. */
  lemma {:induction false} FailedWriteFinishesPlan(request: string)
    ensures var w := Easygoing([ToolCall("write_file", "{}"), SHELL], BROKEN);
            var p := Attempts(w, request, None, 0, 0, 0, true);
            p.end.Finished? && |p.attempts| == 1 && !WriteDoneIn(w, p.attempts[0])
  {
    hide Attempts, WriteDoneIn;
    var write := ToolCall("write_file", "{}");
    assert Shells(0) == [] && After(0, write) + [SHELL] == [write, SHELL];
    EasygoingFinishes(0, write, BROKEN, request);
  }

  // ----- a whole agent run

  /** What planning came to, if it was tried, and how the tool loop ended after how many prompts, if it ran. */
  datatype Run = Run(planned: Option<Planned>, loop: Option<LoopEnd>)

  datatype LoopEnd = LoopEnd(exit: Exit, prompts: nat)

  /** The prompts and executions made by planning. */
  function AskedBefore(planned: Option<Planned>): nat
  {
    if planned.None? then 0 else planned.value.asked
  }

  function RanBefore(planned: Option<Planned>): nat
  {
    if planned.None? || planned.value.attempts == [] then 0
    else planned.value.attempts[|planned.value.attempts| - 1].walk.ran
  }

  /** The answers and executions still to come. */
  function LaterAnswers(llm: nat -> Answer, from: nat): nat -> Answer
  {
    (n: nat) => llm(from + n)
  }

  function LaterTools(tools: (nat, ToolCall) -> Execution, from: nat): (nat, ToolCall) -> Execution
  {
    (n: nat, call) => tools(from + n, call)
  }

  function AllPrompts(run: Run): nat
  {
    AskedBefore(run.planned) + (if run.loop.Some? then run.loop.value.prompts else 0)
  }

  /**
   * Planning is tried if several steps are asked for. If it takes care of the request the tool loop does
   * not run; otherwise the loop starts afresh, also after a failed plan prompt, whose error has been sent.
   */
  method RunAgent(session: Session, w: World, request: string, rules: Rules)
    returns (text: string, run: Run, planError: bool, executed: seq<ToolCall>, results: seq<ToolResult>)
    modifies session
    ensures run.planned == if rules.multi then Some(Attempts(w, request, old(session.plan), 0, 0, 0, rules.write))
                           else None
    ensures session.plan == if rules.multi then run.planned.value.plan else old(session.plan)
    ensures run.loop.Some? <==> !rules.multi || !Handled(run.planned.value.end)
    ensures planError <==> rules.multi && run.planned.value.end == PlanPromptFailed
    ensures planError ==> run.loop.Some?
    ensures run.loop.Some? ==>
              var (llm, n) := (LaterAnswers(w.llm, AskedBefore(run.planned)), run.loop.value.prompts);
              && 0 < n <= MAX_ROUNDS
              && executed == Allowed(Requested(w.decoder, llm, n), rules.write)
              && results == Outcomes(Requested(w.decoder, llm, n), rules.write,
                                     LaterTools(w.tools, RanBefore(run.planned)))
              && (run.loop.value.exit != LimitReached ==> EndsBy(w.decoder, llm, rules, n - 1, run.loop.value.exit))
              && (run.loop.value.exit == LimitReached ==> n == 8 && text == "Agent exceeded tool call limit.")
              && (run.loop.value.exit == RawReply ==> llm(n - 1) == Reply(text))
              && (run.loop.value.exit == ModelFinal ==> text == ParseTool(w.decoder, llm(n - 1).text).final)
    ensures run.loop.None? ==> executed == [] && results == []
    ensures run.loop.None? ==>
              text == match run.planned.value.end
                      case Question(q) => q
                      case MissingWrite => NO_WRITE
                      case Finished(t) => t
                      case _ => ""
    ensures AllPrompts(run) <= MAX_ROUNDS
            + (if rules.multi then 2 * TotalSteps(run.planned.value.attempts) + MAX_ATTEMPTS else 0)
  {
    hide Attempts, EndsAt, Requested, Allowed, Outcomes, ParseTool, TotalSteps;
    run, planError, executed, results := Run(None, None), false, [], [];
    if rules.multi {
      PlannedTrace(w, request, session.plan, 0, 0, 0, rules.write);
      var handled, planned;
      text, handled, planned := session.RunPlanned(w, request, rules.write);
      run := Run(Some(planned), None);
      if handled {
        return;
      }
      planError := planned.end == PlanPromptFailed;
    }
    var exit, prompts, messages;
    text, exit, prompts, executed, results, messages :=
      RunTools(w.decoder, LaterAnswers(w.llm, AskedBefore(run.planned)),
               LaterTools(w.tools, RanBefore(run.planned)), rules);
    run := run.(loop := Some(LoopEnd(exit, prompts)));
  }
}
