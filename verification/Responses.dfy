/**
 * From a model's reply to tool calls, a plan or a final answer. Decoding the JSON value a text begins with
 * is a library matter and stays an arbitrary partial function; what is modelled is how the program goes
 * through a reply to find one.
 */
module Responses {
  import opened Text
  import opened JsonScan

  datatype Option<+T> = None | Some(value: T)

  datatype ToolCall = ToolCall(tool: string, args: string)

  datatype ToolEnvelope = ToolEnvelope(final: string, toolCalls: seq<ToolCall>, toolCall: Option<ToolCall>,
                                       tool: string, args: string)

  datatype PlanEnvelope = PlanEnvelope(question: string, steps: seq<ToolCall>)

  /**
   * What decoding the object at the start of a text can give, for each of the shapes it is decoded into: the
   * envelopes, its fields as they are, and its field `final` if that is a string.
   */
  datatype Decoder = Decoder(
    tool: string -> Option<ToolEnvelope>,
    plan: string -> Option<PlanEnvelope>,
    fields: string -> Option<map<string, string>>,
    finalText: string -> Option<Option<string>>,
    asString: string -> Option<string>,
    encode: map<string, string> -> Option<string>)

  // ----- normalisation

  const FENCE := "```"

  /** The text before the last fence, or the whole text. */
  function BeforeLastFence(s: string): string
  {
    CutAt(s, |s|)
  }

  function CutAt(s: string, i: nat): string
    requires i <= |s|
  {
    if HasPrefix(s[i..], FENCE) then s[..i] else if i == 0 then s else CutAt(s, i - 1)
  }

  function StripFence(s: string): string
  {
    if HasPrefix(s, FENCE) then
      TrimSpace(BeforeLastFence(TrimSpace(TrimPrefix(TrimPrefix(TrimPrefix(s, FENCE), "json"), "JSON"))))
    else s
  }

  function Normalize(resp: string): string
  {
    var trimmed := TrimSpace(resp);
    if trimmed == "" then ""
    else
      var bare := StripFence(trimmed);
      if HasPrefix(bare, "\"final\"") || HasPrefix(bare, "final") then "{" + bare + "}" else bare
  }

  /** A text that starts and ends with a brace, as every extracted object does, is left alone. */
  lemma {:induction false} BracedIsNormal(s: string)
    requires s != "" && s[0] == '{' && s[|s| - 1] == '}'
    ensures Normalize(s) == s
  {
    TrimKeeps(s);
    assert !HasPrefix(s, FENCE) && !HasPrefix(s, "\"final\"") && !HasPrefix(s, "final");
  }

  lemma {:induction false} TrimAround(before: string, s: string, after: string)
    requires s != "" && !IsSpace(s[0]) && !IsSpace(s[|s| - 1])
    requires (forall k :: 0 <= k < |before| ==> IsSpace(before[k]))
          && forall k :: 0 <= k < |after| ==> IsSpace(after[k])
    ensures TrimSpace(before + s + after) == s
  {
    TrimLeftAround(before, s + after);
    assert before + s + after == before + (s + after);
    TrimRightAround(s, after);
  }

  lemma {:induction false} TrimLeftAround(before: string, s: string)
    requires s != "" && !IsSpace(s[0]) && forall k :: 0 <= k < |before| ==> IsSpace(before[k])
    ensures TrimLeft(before + s) == s
  {
    if before == "" {
      assert before + s == s;
    } else {
      assert (before + s)[1..] == before[1..] + s;
      TrimLeftAround(before[1..], s);
    }
  }

  lemma {:induction false} TrimRightAround(s: string, after: string)
    requires s != "" && !IsSpace(s[|s| - 1]) && forall k :: 0 <= k < |after| ==> IsSpace(after[k])
    ensures TrimRight(s + after) == s
  {
    if after == "" {
      assert s + after == s;
    } else {
      var n := |after| - 1;
      assert (s + after)[..|s + after| - 1] == s + after[..n];
      TrimRightAround(s, after[..n]);
    }
  }

  lemma {:induction false} CutsClosingFence(s: string)
    ensures BeforeLastFence(s + FENCE) == s
  {
    var t := s + FENCE;
    assert t[|t|..] == "" && t[|t| - 1..] == "`" && t[|t| - 2..] == "``" && t[|t| - 3..] == FENCE;
    assert CutAt(t, |t|) == CutAt(t, |t| - 1) == CutAt(t, |t| - 2) == CutAt(t, |t| - 3);
  }

  lemma {:induction false} StripFenced(tag: string, p: string)
    requires tag in {"", "json", "JSON"} && p != "" && !IsSpace(p[0]) && !IsSpace(p[|p| - 1])
    ensures StripFence(FENCE + (tag + ("\n" + (p + "\n" + FENCE)))) == p
  {
    hide TrimSpace, BeforeLastFence, TrimPrefix;
    var body := p + "\n" + FENCE;
    var inner := "\n" + body;
    var resp := FENCE + (tag + inner);
    assert resp[..3] == FENCE && resp[3..] == tag + inner;
    PrefixIsCut(FENCE, tag + inner);
    TagIsCut(tag, inner);
    TrimAround("\n", body, "");
    assert "\n" + body + "" == inner;
    CutsClosingFence(p + "\n");
    TrimAround("", p, "\n");
    assert "" + p + "\n" == p + "\n";
  }

  lemma {:induction false} PrefixIsCut(prefix: string, s: string)
    ensures TrimPrefix(prefix + s, prefix) == s
  {
    assert (prefix + s)[|prefix|..] == s;
  }

  /**
   * A JSON object in a fenced block, with or without a language tag and whatever fences it may hold in
   * its strings, is taken out of the block unchanged.
   */
  lemma {:induction false} FencedObjectIsUnwrapped(tag: string, v: Value)
    requires tag in {"", "json", "JSON"} && v.Obj?
    ensures Normalize(FENCE + tag + "\n" + Print(v) + "\n" + FENCE) == Print(v)
  {
    hide Print, TrimSpace, StripFence, Normalize;
    PrintedIsBraced(v);
    var p := Print(v);
    var resp := FENCE + (tag + ("\n" + (p + "\n" + FENCE)));
    assert FENCE + tag + "\n" + p + "\n" + FENCE == resp;
    StripFenced(tag, p);
    FencedEnds(tag + ("\n" + (p + "\n")));
    assert resp == FENCE + (tag + ("\n" + (p + "\n"))) + FENCE;
    TrimKeeps(resp);
    BareObjectIsNormal(resp, p);
  }

  lemma {:induction false} FencedEnds(s: string)
    ensures var r := FENCE + s + FENCE; r != "" && r[0] == '`' && r[|r| - 1] == '`'
  {
  }

  lemma {:induction false} BareObjectIsNormal(resp: string, p: string)
    requires resp != "" && TrimSpace(resp) == resp && StripFence(resp) == p && p != "" && p[0] == '{'
    ensures Normalize(resp) == p
  {
    hide TrimSpace, StripFence;
    assert !HasPrefix(p, "\"final\"") && !HasPrefix(p, "final");
  }

  lemma {:induction false} TagIsCut(tag: string, inner: string)
    requires tag in {"", "json", "JSON"} && inner != "" && inner[0] == '\n'
    ensures TrimPrefix(TrimPrefix(tag + inner, "json"), "JSON") == inner
  {
    assert tag == "" ==> tag + inner == inner;
    assert tag != "" ==> (tag + inner)[4..] == inner && (tag + inner)[..4] == tag;
  }

  lemma {:induction false} PrintedIsBraced(v: Value)
    requires v.Obj?
    ensures var p := Print(v); p != "" && p[0] == '{' && p[|p| - 1] == '}'
  {
  }

  /** Extraction settles: what is extracted is fixed both by normalisation and by extraction. */
  lemma {:induction false} ExtractSettles(text: string)
    requires Extract(text) != ""
    ensures Normalize(Extract(text)) == Extract(text) && Extract(Extract(text)) == Extract(text)
  {
    hide Extract, Normalize;
    ExtractIdempotent(text);
    BracedIsNormal(Extract(text));
  }

  // ----- looking for an object that decodes

  predicate DecodesAt<T>(decode: string -> Option<T>, text: string, i: nat)
  {
    i < |text| && text[i] == '{' && decode(text[i..]).Some?
  }

  function DecodeFrom<T>(decode: string -> Option<T>, text: string, i: nat): Option<T>
    requires i <= |text|
    decreases |text| - i
  {
    if i == |text| then None
    else if DecodesAt(decode, text, i) then decode(text[i..])
    else DecodeFrom(decode, text, i + 1)
  }

  /** What decodes at the first brace at which anything does. */
  function DecodeFirst<T>(decode: string -> Option<T>, text: string): Option<T>
  {
    DecodeFrom(decode, text, 0)
  }

  /** The loop over all braces of a text: the first object that decodes, wherever it starts, is the result. */
  method DecodeFirstJSON<T>(decode: string -> Option<T>, text: string) returns (r: Option<T>)
    ensures r == DecodeFirst(decode, text)
    ensures r.None? <==> forall i: nat :: !DecodesAt(decode, text, i)
    ensures r.Some? ==> exists i: nat :: DecodesAt(decode, text, i) && r == decode(text[i..])
                                         && forall j: nat :: j < i ==> !DecodesAt(decode, text, j)
  {
    for i := 0 to |text|
      invariant forall j: nat :: j < i ==> !DecodesAt(decode, text, j)
      invariant DecodeFirst(decode, text) == DecodeFrom(decode, text, i)
    {
      if text[i] != '{' {
        continue;
      }
      var value := decode(text[i..]);
      if value.Some? {
        assert DecodesAt(decode, text, i);
        return value;
      }
    }
    r := None;
  }

  lemma {:induction false} DecodedFrom<T>(decode: string -> Option<T>, text: string, from: nat, i: nat)
    requires from <= i && DecodesAt(decode, text, i) && forall j: nat :: from <= j < i ==> !DecodesAt(decode, text, j)
    ensures DecodeFrom(decode, text, from) == decode(text[i..])
    decreases i - from
  {
    if from < i {
      DecodedFrom(decode, text, from + 1, i);
    }
  }

  lemma {:induction false} DecodesSomewhere<T>(decode: string -> Option<T>, text: string, from: nat)
    requires from <= |text|
    ensures DecodeFrom(decode, text, from).Some? <==> exists i: nat :: from <= i && DecodesAt(decode, text, i)
    decreases |text| - from
  {
    if from < |text| {
      DecodesSomewhere(decode, text, from + 1);
    }
  }

  /** Where a text without an opening brace is followed by an object that decodes, that is what decodes first. */
  lemma {:induction false} DecodesBehind<T>(decode: string -> Option<T>, prefix: string, rest: string)
    requires '{' !in prefix && rest != "" && rest[0] == '{' && decode(rest).Some?
    ensures DecodeFirst(decode, prefix + rest) == decode(rest)
  {
    var text := prefix + rest;
    assert text[|prefix|..] == rest;
    forall j: nat | j < |prefix| ensures !DecodesAt(decode, text, j) {
      assert text[j] == prefix[j] && prefix[j] in prefix;
    }
    DecodedFrom(decode, text, 0, |prefix|);
  }

  /** Decoding reads the one value a text begins with and does not look at what follows it. */
  ghost predicate OneValue<T>(decode: string -> Option<T>)
  {
    forall s: string, t: string {:trigger s + t} :: decode(s).Some? ==> decode(s + t) == decode(s)
  }

  lemma {:induction false} OneValueHere<T>(decode: string -> Option<T>, s: string, t: string)
    requires OneValue(decode) && decode(s).Some?
    ensures decode(s + t) == decode(s)
  {
  }

  /** So what decodes in the object cut out of a text decodes in the text. */
  lemma {:induction false} CutDecodesLess<T(!new)>(decode: string -> Option<T>, text: string)
    requires OneValue(decode) && DecodeFirst(decode, Extract(text)).Some?
    ensures DecodeFirst(decode, text).Some?
  {
    hide Extract, OneValue;
    DecodesSomewhere(decode, Extract(text), 0);
    var i: nat :| DecodesAt(decode, Extract(text), i);
    var start, end := CutPlace(text);
    var tail := text[end..];
    OneValueHere(decode, Extract(text)[i..], tail);
    assert text[start + i..] == Extract(text)[i..] + tail;
    assert DecodesAt(decode, text, start + i);
    DecodesSomewhere(decode, text, 0);
  }

  lemma {:induction false} CutPlace(text: string) returns (start: nat, end: nat)
    requires Extract(text) != ""
    ensures start < end <= |text| && Extract(text) == text[start..end]
  {
    hide Extract;
    ExtractIdempotent(text);
    start, end :| 0 <= start < end <= |text| && Extract(text) == text[start..end];
  }

  // ----- the two parsers

  datatype Parsed = Parsed(calls: seq<ToolCall>, final: string, ok: bool)

  const NOTHING := Parsed([], "", false)

  function Calls(calls: seq<ToolCall>): Parsed
  {
    Parsed(calls, "", true)
  }

  function Final(text: string): Parsed
  {
    Parsed([], text, true)
  }

  lemma {:induction false} OneKeyOnly(m: map<string, string>, j: string, k: string)
    requires |m| == 1 && j in m && k in m
    ensures j == k
  {
    assert |m.Keys - {j}| == 0;
  }

  /** The key of a map that has just one. */
  function OnlyKey(m: map<string, string>): (k: string)
    requires |m| == 1
    ensures k in m
  {
    assert exists k :: k in m.Keys by {
      assert m.Keys != {};
    }
    assert forall j, k :: j in m.Keys && k in m.Keys ==> j == k by {
      forall j, k | j in m.Keys && k in m.Keys ensures j == k {
        OneKeyOnly(m, j, k);
      }
    }
    var k :| k in m.Keys; k
  }

  /** The reading of an object none of whose known fields is set. */
  function LooseFields(d: Decoder, fields: map<string, string>): Parsed
  {
    if |fields| == 1 then Calls([ToolCall(OnlyKey(fields), fields[OnlyKey(fields)])])
    else
      var final := if "final" in fields then d.asString(fields["final"]) else None;
      if final.Some? && final.value != "" then Final(final.value)
      else
        var tool := if "tool" in fields then d.asString(fields["tool"]) else None;
        if tool.None? || tool.value == "" then NOTHING
        else if "args" in fields then Calls([ToolCall(tool.value, fields["args"])])
        else
          var args := fields - {"tool", "final"};
          if |args| == 0 || d.encode(args).None? then NOTHING
          else Calls([ToolCall(tool.value, d.encode(args).value)])
  }

  function FromEnvelope(d: Decoder, resp: string, env: ToolEnvelope): Parsed
  {
    if env.final != "" then Final(env.final)
    else if |env.toolCalls| > 0 then Calls(env.toolCalls)
    else if env.toolCall.Some? then Calls([env.toolCall.value])
    else if env.tool != "" then Calls([ToolCall(env.tool, env.args)])
    else
      var fields := DecodeFirst(d.fields, resp);
      if fields.Some? then LooseFields(d, fields.value) else NOTHING
  }

  /** 1 while there is still an object to cut out of the text, 0 when the text is that object. */
  function Unsettled(resp: string): nat
  {
    var text := Normalize(resp);
    if Extract(text) != "" && Extract(text) != text then 1 else 0
  }

  lemma {:induction false} ExtractedIsSettled(text: string)
    requires Extract(text) != ""
    ensures Unsettled(Extract(text)) == 0
  {
    hide Extract, Normalize;
    ExtractSettles(text);
  }

  /** The last attempt, at a text that is or holds no envelope: a field `final` of whatever decodes first. */
  function Fallback(d: Decoder, text: string): Parsed
  {
    if !Contains(text, "\"final\"") then NOTHING
    else
      var final: Option<Option<string>> := DecodeFirst(d.finalText, text);
      if final.Some? && final.value.Some? && final.value.value != "" then Final(final.value.value) else NOTHING
  }

  function ParseTool(d: Decoder, resp: string): Parsed
    decreases Unsettled(resp)
  {
    var text := Normalize(resp);
    if text == "" then NOTHING
    else
      match DecodeFirst(d.tool, text)
      case Some(envelope) => FromEnvelope(d, text, envelope)
      case None =>
        var found := Extract(text);
        if found != "" && found != text then
          ExtractedIsSettled(text);
          ParseTool(d, found)
        else Fallback(d, text)
  }

  function ParsePlan(d: Decoder, resp: string): Parsed
    decreases Unsettled(resp)
  {
    var text := Normalize(resp);
    if text == "" then NOTHING
    else
      var envelope := DecodeFirst(d.plan, text);
      if envelope.Some? && envelope.value.question != "" then Final(envelope.value.question)
      else if envelope.Some? && |envelope.value.steps| > 0 then Calls(envelope.value.steps)
      else
        var found := Extract(text);
        if found != "" && found != text then
          ExtractedIsSettled(text);
          ParsePlan(d, found)
        else NOTHING
  }

  // ----- what they promise

  /** A parse is exactly one of: some calls, a non-empty text, or nothing. */
  predicate OneOfThree(p: Parsed)
  {
    if p.ok then (p.calls != [] <==> p.final == "") else p == NOTHING
  }

  lemma {:induction false} ParseToolGivesOne(d: Decoder, resp: string)
    ensures OneOfThree(ParseTool(d, resp))
    decreases Unsettled(resp)
  {
    hide Normalize, Extract, Contains, DecodeFirst;
    var text := Normalize(resp);
    if text != "" && DecodeFirst(d.tool, text).None? && Extract(text) != "" && Extract(text) != text {
      ExtractedIsSettled(text);
      ParseToolGivesOne(d, Extract(text));
    }
  }

  lemma {:induction false} ParsePlanGivesOne(d: Decoder, resp: string)
    ensures OneOfThree(ParsePlan(d, resp))
    decreases Unsettled(resp)
  {
    hide Normalize, Extract, DecodeFirst;
    var text := Normalize(resp);
    if text != "" && Extract(text) != "" && Extract(text) != text {
      ExtractedIsSettled(text);
      ParsePlanGivesOne(d, Extract(text));
    }
  }

  /** The texts a parse may look at: the normalised reply, and at most one object cut out of it. */
  predicate Consulted(resp: string, text: string)
  {
    text == Normalize(resp) || (text == Extract(Normalize(resp)) && text != "")
  }

  /** Both decode the same at every brace of the text. */
  predicate SameAt<T(==)>(decode: string -> Option<T>, other: string -> Option<T>, text: string)
  {
    forall i :: 0 <= i < |text| && text[i] == '{' ==> decode(text[i..]) == other(text[i..])
  }

  lemma {:induction false} SameFirst<T>(decode: string -> Option<T>, other: string -> Option<T>, text: string,
                                        from: nat)
    requires SameAt(decode, other, text) && from <= |text|
    ensures DecodeFrom(decode, text, from) == DecodeFrom(other, text, from)
    decreases |text| - from
  {
    if from < |text| {
      SameFirst(decode, other, text, from + 1);
    }
  }

  predicate SameTool(d: Decoder, e: Decoder, text: string)
  {
    SameAt(d.tool, e.tool, text) && SameAt(d.fields, e.fields, text) && SameAt(d.finalText, e.finalText, text)
  }

  lemma {:induction false} SameToolFirst(d: Decoder, e: Decoder, text: string)
    requires d.asString == e.asString && d.encode == e.encode && SameTool(d, e, text)
    ensures DecodeFirst(d.tool, text) == DecodeFirst(e.tool, text) && Fallback(d, text) == Fallback(e, text)
    ensures forall envelope :: FromEnvelope(d, text, envelope) == FromEnvelope(e, text, envelope)
  {
    hide DecodeFrom, Contains;
    SameFirst(d.tool, e.tool, text, 0);
    SameFirst(d.fields, e.fields, text, 0);
    SameFirst(d.finalText, e.finalText, text, 0);
  }

  /**
   * The recursion goes at most one level deep: a parse decodes at the braces of the normalised reply and of
   * one object cut out of it, so two decoders that agree on these give the same result.
   */
  lemma {:induction false} ParseToolLooksTwice(d: Decoder, e: Decoder, resp: string)
    requires d.asString == e.asString && d.encode == e.encode
    requires forall text :: Consulted(resp, text) ==> SameTool(d, e, text)
    ensures ParseTool(d, resp) == ParseTool(e, resp)
  {
    hide Normalize, Extract, SameTool, FromEnvelope, Fallback, DecodeFirst;
    var text := Normalize(resp);
    assert Consulted(resp, text);
    SameToolFirst(d, e, text);
    var found := Extract(text);
    if found != "" && found != text {
      assert Consulted(resp, found);
      SameToolFirst(d, e, found);
      ExtractSettles(text);
    }
  }

  lemma {:induction false} ParsePlanLooksTwice(d: Decoder, e: Decoder, resp: string)
    requires forall text :: Consulted(resp, text) ==> SameAt(d.plan, e.plan, text)
    ensures ParsePlan(d, resp) == ParsePlan(e, resp)
  {
    hide Normalize, Extract, DecodeFrom;
    var text := Normalize(resp);
    assert Consulted(resp, text);
    SameFirst(d.plan, e.plan, text, 0);
    var found := Extract(text);
    if found != "" && found != text {
      assert Consulted(resp, found);
      SameFirst(d.plan, e.plan, found, 0);
      ExtractSettles(text);
    }
  }

  // ----- chatter, and what the recursion is good for

  /**
   * Chatter around a JSON object is harmless. An object that decodes is read as if it stood alone, whatever
   * stands before it short of an opening brace and whatever stands behind it; and so is an object that does
   * not, when nothing else in the reply decodes either.
   */
  lemma {:induction false} ChatterIsIgnored(d: Decoder, resp: string, prefix: string, v: Value, suffix: string)
    requires '{' !in prefix && v.Obj? && Good(v) && Normalize(resp) == prefix + Print(v) + suffix
    requires OneValue(d.tool) && OneValue(d.fields)
    requires (d.tool(Print(v)).Some? && d.fields(Print(v)).Some?) || DecodeFirst(d.tool, Normalize(resp)).None?
    ensures ParseTool(d, resp) == ParseTool(d, Print(v))
  {
    hide Normalize, Extract, Contains, Print, Good, OneValue, FromEnvelope, Fallback, DecodeFirst;
    PrintedIsBraced(v);
    BracedIsNormal(Print(v));
    ExtractRecovers(prefix, v, suffix);
    if DecodeFirst(d.tool, Normalize(resp)).Some? {
      ReadBehind(d.tool, prefix, Print(v), suffix);
      ReadBehind(d.fields, prefix, Print(v), suffix);
      SameEnvelope(d, Normalize(resp), Print(v));
    }
  }

  lemma {:induction false} ReadBehind<T>(decode: string -> Option<T>, prefix: string, core: string, suffix: string)
    requires '{' !in prefix && core != "" && core[0] == '{' && OneValue(decode) && decode(core).Some?
    ensures DecodeFirst(decode, prefix + core + suffix) == decode(core) == DecodeFirst(decode, core)
  {
    hide DecodeFirst, OneValue;
    OneValueHere(decode, core, suffix);
    DecodesBehind(decode, prefix, core + suffix);
    DecodesBehind(decode, "", core);
    assert prefix + (core + suffix) == prefix + core + suffix && "" + core == core;
  }

  lemma {:induction false} SameEnvelope(d: Decoder, text: string, other: string)
    requires DecodeFirst(d.fields, text) == DecodeFirst(d.fields, other)
    ensures forall envelope :: FromEnvelope(d, text, envelope) == FromEnvelope(d, other, envelope)
  {
    hide DecodeFirst;
  }

  /** The parser without its recursion into the object cut out of the reply. */
  function ParseFlat(d: Decoder, resp: string): Parsed
  {
    var text := Normalize(resp);
    if text == "" then NOTHING
    else
      match DecodeFirst(d.tool, text)
      case Some(envelope) => FromEnvelope(d, text, envelope)
      case None => Fallback(d, text)
  }

  /**
   * The recursion never finds an envelope that was not found before: it can only decide on which text the
   * last attempt at a final answer is made. So it never yields a call, and it changes a result exactly when
   * no envelope decodes and that attempt gives something else on the object than on the whole reply.
   */
  lemma {:induction false} RecursionExactly(d: Decoder, resp: string)
    requires OneValue(d.tool)
    ensures var (text, found) := (Normalize(resp), Extract(Normalize(resp)));
            && (text != "" && DecodeFirst(d.tool, text).None? ==>
                  ParseTool(d, resp) == Fallback(d, if found == "" then text else found)
                  && ParseTool(d, resp).calls == [])
            && (ParseTool(d, resp) != ParseFlat(d, resp) <==>
                text != "" && DecodeFirst(d.tool, text).None? && found != "" && Fallback(d, found) != Fallback(d, text))
  {
    hide Normalize, Extract, OneValue, DecodeFirst, Contains, FromEnvelope;
    var text := Normalize(resp);
    if text != "" && DecodeFirst(d.tool, text).None? && Extract(text) != "" {
      if DecodeFirst(d.tool, Extract(text)).Some? {
        CutDecodesLess(d.tool, text);
      }
      ExtractSettles(text);
    }
  }

  /** An object that reads as an object at all is one on which the attempt gives the same either way. */
  lemma {:induction false} RecursionHarmless(d: Decoder, resp: string)
    requires OneValue(d.tool) && OneValue(d.finalText)
    requires var found := Extract(Normalize(resp));
             found != "" ==> d.finalText(found).Some? && Contains(found, "\"final\"")
    ensures ParseTool(d, resp) == ParseFlat(d, resp)
  {
    hide Normalize, Extract, OneValue, DecodeFirst, Contains;
    RecursionExactly(d, resp);
    var text := Normalize(resp);
    var found := Extract(text);
    if found != "" {
      FirstObject(text);
      var start := FirstBrace(text);
      assert text == text[..start] + found + text[start + |found|..];
      ReadBehind(d.finalText, text[..start], found, text[start + |found|..]);
      StillContains(text[..start], found, text[start + |found|..], "\"final\"");
    }
  }

  lemma {:induction false} FirstObject(text: string)
    requires Extract(text) != ""
    ensures var start := FirstBrace(text);
            && '{' !in text[..start] && Extract(text)[0] == '{'
            && start + |Extract(text)| <= |text| && text[start..start + |Extract(text)|] == Extract(text)
  {
    hide Scan, TrimSpace;
    ExtractFromScan(text);
    ExtractIdempotent(text);
  }

  lemma {:induction false} StillContains(front: string, s: string, back: string, part: string)
    requires Contains(s, part)
    ensures Contains(front + s + back, part)
  {
    var at: nat :| at <= |s| && StandsAt(part, s, at);
    var all := front + s + back;
    assert all[|front| + at..|front| + at + |part|] == s[at..at + |part|];
    assert StandsAt(part, all, |front| + at);
  }

  /** A plan is never found by the recursion unless an envelope without question and steps was decoded first. */
  lemma {:induction false} PlanRecursionIdle(d: Decoder, resp: string)
    requires OneValue(d.plan) && DecodeFirst(d.plan, Normalize(resp)).None?
    ensures ParsePlan(d, resp) == NOTHING
  {
    hide Normalize, Extract, OneValue, DecodeFirst;
    var text := Normalize(resp);
    if text != "" && Extract(text) != "" {
      if DecodeFirst(d.plan, Extract(text)).Some? {
        CutDecodesLess(d.plan, text);
      }
      ExtractSettles(text);
    }
  }

  // ----- what the shapes of a reply mean

  /** Outside fences a reply is only trimmed, and braced if it is a bare `final` pair. */
  lemma {:induction false} UnfencedReply(resp: string)
    requires !HasPrefix(TrimSpace(resp), "```")
    ensures var s := TrimSpace(resp);
            Normalize(resp) == if HasPrefix(s, "final") || HasPrefix(s, "\"final\"") then "{" + s + "}" else s
  {
    hide TrimSpace;
  }

  /** A braced text whose object decodes is read by what decodes. */
  lemma {:induction false} BracedReply<T>(decode: string -> Option<T>, s: string)
    requires s != "" && s[0] == '{' && s[|s| - 1] == '}' && decode(s).Some?
    ensures Normalize(s) == s && DecodeFirst(decode, s) == decode(s)
  {
    hide DecodeFirst;
    BracedIsNormal(s);
    DecodesBehind(decode, "", s);
    assert "" + s == s;
  }

  /**
   * The meaning of an envelope: a final answer goes before calls, a list of calls before a single one, and that
   * before a tool named at the top with its arguments.
   */
  lemma {:induction false} EnvelopeMeans(d: Decoder, s: string, env: ToolEnvelope)
    requires s != "" && s[0] == '{' && s[|s| - 1] == '}' && d.tool(s) == Some(env)
    ensures env.final != "" ==> ParseTool(d, s) == Parsed([], env.final, true)
    ensures env.final == "" && env.toolCalls != [] ==> ParseTool(d, s) == Parsed(env.toolCalls, "", true)
    ensures env.final == "" && env.toolCalls == [] && env.toolCall.Some? ==>
              ParseTool(d, s) == Parsed([env.toolCall.value], "", true)
    ensures env.final == "" && env.toolCalls == [] && env.toolCall.None? && env.tool != "" ==>
              ParseTool(d, s) == Parsed([ToolCall(env.tool, env.args)], "", true)
    ensures env == ToolEnvelope("", [], None, "", env.args) && d.fields(s).None? && DecodeFirst(d.fields, s).None? ==>
              ParseTool(d, s) == NOTHING
  {
    hide Normalize, DecodeFirst;
    BracedReply(d.tool, s);
  }

  /** What an object says that sets no field of an envelope: by its fields as they are. */
  lemma {:induction false} LooseObject(d: Decoder, s: string, env: ToolEnvelope, fields: map<string, string>)
    requires s != "" && s[0] == '{' && s[|s| - 1] == '}' && d.tool(s) == Some(env) && d.fields(s) == Some(fields)
    requires env.final == "" && env.toolCalls == [] && env.toolCall.None? && env.tool == ""
    ensures ParseTool(d, s) == LooseFields(d, fields)
  {
    hide Normalize, DecodeFirst, LooseFields;
    BracedReply(d.tool, s);
    BracedReply(d.fields, s);
  }

  /** One field, as in `{"shell": {...}}`, is a call of the tool it names. */
  lemma {:induction false} OneFieldIsCall(d: Decoder, name: string, value: string)
    ensures LooseFields(d, map[name := value]) == Parsed([ToolCall(name, value)], "", true)
  {
    var fields := map[name := value];
    assert fields.Keys == {name};
    assert |fields| == |fields.Keys| == 1;
  }

  /**
   * With more fields: a final answer if there is one; else a call of the tool named, with the field `args`, or,
   * as in `{"tool": "read_file", "path": "..."}`, with all the other fields made into its arguments.
   */
  lemma {:induction false} ManyFields(d: Decoder, fields: map<string, string>)
    requires |fields| > 1
    ensures var final := if "final" in fields then d.asString(fields["final"]) else None;
            var tool := if "tool" in fields then d.asString(fields["tool"]) else None;
            var rest := map k | k in fields && k != "tool" && k != "final" :: fields[k];
            && (final.Some? && final.value != "" ==> LooseFields(d, fields) == Parsed([], final.value, true))
            && (!(final.Some? && final.value != "") ==>
                  && (tool == None || tool == Some("") ==> LooseFields(d, fields) == NOTHING)
                  && (tool.Some? && tool.value != "" ==>
                        && ("args" in fields ==>
                              LooseFields(d, fields) == Parsed([ToolCall(tool.value, fields["args"])], "", true))
                        && ("args" !in fields && rest != map[] && d.encode(rest).Some? ==>
                              LooseFields(d, fields)
                              == Parsed([ToolCall(tool.value, d.encode(rest).value)], "", true))
                        && ("args" !in fields && (rest == map[] || d.encode(rest).None?) ==>
                              LooseFields(d, fields) == NOTHING)))
  {
    var rest := map k | k in fields && k != "tool" && k != "final" :: fields[k];
    assert fields - {"tool", "final"} == rest;
    assert |rest| == 0 <==> rest == map[];
  }

  /** A plan's question goes before its steps. */
  lemma {:induction false} PlanMeans(d: Decoder, s: string, env: PlanEnvelope)
    requires s != "" && s[0] == '{' && s[|s| - 1] == '}' && d.plan(s) == Some(env)
    ensures env.question != "" ==> ParsePlan(d, s) == Parsed([], env.question, true)
    ensures env.question == "" && env.steps != [] ==> ParsePlan(d, s) == Parsed(env.steps, "", true)
  {
    hide Normalize, DecodeFirst;
    BracedReply(d.plan, s);
  }

  /** A second look for a plan, at the object cut out of the text, is taken when the first gives an empty one. */
  lemma {:induction false} EmptyPlanMeans(d: Decoder, resp: string)
    requires var envelope := DecodeFirst(d.plan, Normalize(resp));
             envelope.None? || (envelope.value.question == "" && envelope.value.steps == [])
    ensures var (text, found) := (Normalize(resp), Extract(Normalize(resp)));
            var envelope := DecodeFirst(d.plan, found);
            if text == "" || found == "" || envelope.None? then ParsePlan(d, resp) == NOTHING
            else if envelope.value.question != "" then ParsePlan(d, resp) == Final(envelope.value.question)
            else if envelope.value.steps != [] then ParsePlan(d, resp) == Calls(envelope.value.steps)
            else ParsePlan(d, resp) == NOTHING
  {
    hide Normalize, Extract, DecodeFirst;
    var text := Normalize(resp);
    if text != "" && Extract(text) != "" {
      ExtractSettles(text);
    }
  }

  /** The last attempt fails on a text that does not mention a final answer, or whose first object has none. */
  lemma {:induction false} FallbackFails(d: Decoder, text: string)
    requires !Contains(text, "\"final\"") || DecodeFirst(d.finalText, text) in {None, Some(None), Some(Some(""))}
    ensures Fallback(d, text) == NOTHING
  {
    hide Contains, DecodeFirst;
  }

  /** When no envelope decodes, a field `final` still counts, if the text mentions one. */
  lemma {:induction false} FallbackMeans(d: Decoder, text: string, i: nat, final: string)
    requires DecodesAt(d.finalText, text, i) && (forall j: nat :: j < i ==> !DecodesAt(d.finalText, text, j))
    requires d.finalText(text[i..]) == Some(Some(final)) && final != "" && Contains(text, "\"final\"")
    ensures Fallback(d, text) == Parsed([], final, true)
  {
    hide Contains;
    DecodedFrom(d.finalText, text, 0, i);
  }
}
