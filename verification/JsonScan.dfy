/**
 * The scanner that cuts the first JSON object out of a reply, checked against a printer of JSON texts
 * after sections 2 to 7 of RFC 8259.
 */
module JsonScan {

  // ----- Go's strings.TrimSpace

  predicate IsSpace(c: char)
  {
    || c == '\t' || c == '\n' || c == '\U{0B}' || c == '\U{0C}' || c == '\r' || c == ' '
    || c == '\U{85}' || c == '\U{A0}' || c == '\U{1680}' || '\U{2000}' <= c <= '\U{200A}'
    || c == '\U{2028}' || c == '\U{2029}' || c == '\U{202F}' || c == '\U{205F}' || c == '\U{3000}'
  }

  function TrimLeft(s: string): (r: string)
    ensures |r| <= |s| && (r != "" ==> !IsSpace(r[0]))
  {
    if s != "" && IsSpace(s[0]) then TrimLeft(s[1..]) else s
  }

  function TrimRight(s: string): (r: string)
    ensures r <= s && (r != "" ==> !IsSpace(r[|r| - 1]))
  {
    if s != "" && IsSpace(s[|s| - 1]) then TrimRight(s[..|s| - 1]) else s
  }

  function TrimSpace(s: string): (r: string)
    ensures r != "" ==> !IsSpace(r[0]) && !IsSpace(r[|r| - 1])
  {
    TrimRight(TrimLeft(s))
  }

  // ----- the scanner

  datatype Close = At(length: nat) | Never

  function Later(n: nat, c: Close): Close
  {
    if c.At? then At(n + c.length) else Never
  }

  /** How many characters it takes, from a scanner state, until the brace that brings the depth to zero. */
  function Scan(s: string, depth: int, inString: bool, escape: bool): Close
  {
    if s == "" then Never
    else
      var c, rest := s[0], s[1..];
      if inString then
        if escape then Later(1, Scan(rest, depth, true, false))
        else if c == '\\' then Later(1, Scan(rest, depth, true, true))
        else Later(1, Scan(rest, depth, c != '"', false))
      else if c == '"' then Later(1, Scan(rest, depth, true, false))
      else if c == '{' then Later(1, Scan(rest, depth + 1, false, false))
      else if c == '}' then
        if depth - 1 == 0 then At(1) else Later(1, Scan(rest, depth - 1, false, false))
      else Later(1, Scan(rest, depth, false, false))
  }

  lemma {:induction false} CloseWithin(s: string, depth: int, inString: bool, escape: bool)
    requires Scan(s, depth, inString, escape).At?
    ensures var n := Scan(s, depth, inString, escape).length;
            0 < n <= |s| && s[n - 1] == '}'
  {
    var c, rest := s[0], s[1..];
    var next := if inString then (depth, if escape || c == '\\' then true else c != '"', !escape && c == '\\')
                else if c == '{' then (depth + 1, false, false)
                else if c == '}' then (depth - 1, false, false)
                else (depth, c == '"', false);
    if Scan(rest, next.0, next.1, next.2).At? {
      CloseWithin(rest, next.0, next.1, next.2);
    }
  }

  /** Where the first opening brace is, or the length. */
  function FirstBrace(text: string): (i: nat)
    ensures i <= |text| && '{' !in text[..i] && (i < |text| ==> text[i] == '{')
  {
    if text == "" || text[0] == '{' then 0
    else
      var i := 1 + FirstBrace(text[1..]);
      assert text[..i] == [text[0]] + text[1..][..i - 1];
      i
  }

  function Extract(text: string): string
  {
    var start := FirstBrace(text);
    if start == |text| then ""
    else
      match Scan(text[start..], 0, false, false)
      case Never => ""
      case At(n) =>
        CloseWithin(text[start..], 0, false, false);
        TrimSpace(text[start..start + n])
  }

  /** The scanning loop, with its depth, string and escape state. */
  method ExtractFirstJSON(text: string) returns (r: string)
    ensures r == Extract(text)
  {
    hide Scan, TrimSpace;
    var start := FirstBrace(text);
    if start == |text| {
      return "";
    }
    var depth, inString, escape := 0, false, false;
    assert Later(0, Scan(text[start..], 0, false, false)) == Scan(text[start..], 0, false, false);
    for i := start to |text|
      invariant Scan(text[start..], 0, false, false) == Later(i - start, Scan(text[i..], depth, inString, escape))
      invariant escape ==> inString
    {
      var ch := text[i];
      ScanStep(text, i, depth, inString, escape);
      if inString {
        if escape {
          escape := false;
          continue;
        }
        if ch == '\\' {
          escape := true;
          continue;
        }
        if ch == '"' {
          inString := false;
        }
        continue;
      }
      if ch == '"' {
        inString := true;
      } else if ch == '{' {
        depth := depth + 1;
      } else if ch == '}' {
        depth := depth - 1;
        if depth == 0 {
          return TrimSpace(text[start..i + 1]);
        }
      }
    }
    ScanEnd(depth, inString, escape);
    assert text[|text|..] == "";
    r := "";
  }

  lemma {:induction false} ScanEnd(depth: int, inString: bool, escape: bool)
    ensures Scan("", depth, inString, escape) == Never
  {
  }

  lemma {:induction false} ScanStep(text: string, i: nat, depth: int, inString: bool, escape: bool)
    requires i < |text|
    ensures var (c, now, rest) := (text[i], Scan(text[i..], depth, inString, escape), text[i + 1..]);
            if inString then now == Later(1, Scan(rest, depth, escape || c != '"', !escape && c == '\\'))
            else if c == '}' && depth == 1 then now == At(1)
            else now == Later(1, Scan(rest, if c == '{' then depth + 1 else if c == '}' then depth - 1 else depth,
                                      c == '"', false))
  {
    assert text[i..][0] == text[i] && text[i..][1..] == text[i + 1..];
  }

  // ----- JSON texts

  /** A character of a string: as it is, after a backslash, or as four hexadecimal digits. */
  datatype Item = Plain(c: char) | Short(c: char) | Unicode(hex: string)

  datatype Literal = Null | True | False | Number(minus: bool, whole: string, frac: string, exp: string)

  /** A JSON value together with the whitespace its text has between tokens. */
  datatype Value =
    | Lit(literal: Literal)
    | Str(chars: seq<Item>)
    | Arr(pad: string, elems: Elems)
    | Obj(pad: string, members: Members)

  datatype Elems = NoElem | Elem(before: string, value: Value, after: string, rest: Elems)

  datatype Members =
    | NoMember
    | Member(before: string, key: seq<Item>, mid: string, pad: string, value: Value, after: string, rest: Members)

  predicate IsWs(s: string)
  {
    forall k :: 0 <= k < |s| ==> s[k] in " \t\n\r"
  }

  predicate IsDigits(s: string)
  {
    s != "" && forall k :: 0 <= k < |s| ==> '0' <= s[k] <= '9'
  }

  predicate IsHex(c: char)
  {
    '0' <= c <= '9' || 'a' <= c <= 'f' || 'A' <= c <= 'F'
  }

  predicate GoodItem(i: Item)
  {
    match i
    case Plain(c) => c != '"' && c != '\\' && ' ' <= c
    case Short(c) => c in "\"\\/bfnrt"
    case Unicode(hex) => |hex| == 4 && forall k :: 0 <= k < 4 ==> IsHex(hex[k])
  }

  predicate GoodItems(chars: seq<Item>)
  {
    forall k :: 0 <= k < |chars| ==> GoodItem(chars[k])
  }

  predicate GoodLiteral(l: Literal)
  {
    l.Number? ==>
      && IsDigits(l.whole) && (l.whole[0] == '0' ==> l.whole == "0")
      && (l.frac == "" || (l.frac[0] == '.' && IsDigits(l.frac[1..])))
      && (l.exp == "" || (l.exp[0] in "eE" && l.exp[1..] != "" &&
                          IsDigits(if l.exp[1] in "+-" then l.exp[2..] else l.exp[1..])))
  }

  predicate Good(v: Value)
  {
    match v
    case Lit(l) => GoodLiteral(l)
    case Str(chars) => GoodItems(chars)
    case Arr(pad, elems) => IsWs(pad) && GoodElems(elems)
    case Obj(pad, members) => IsWs(pad) && GoodMembers(members)
  }

  predicate GoodElems(es: Elems)
  {
    es.NoElem? || (IsWs(es.before) && Good(es.value) && IsWs(es.after) && GoodElems(es.rest))
  }

  predicate GoodMembers(ms: Members)
  {
    ms.NoMember? ||
    (IsWs(ms.before) && GoodItems(ms.key) && IsWs(ms.mid) && IsWs(ms.pad) && Good(ms.value) && IsWs(ms.after)
     && GoodMembers(ms.rest))
  }

  function PrintItem(i: Item): string
  {
    match i
    case Plain(c) => [c]
    case Short(c) => ['\\', c]
    case Unicode(hex) => "\\u" + hex
  }

  function PrintItems(chars: seq<Item>): string
  {
    if chars == [] then "" else PrintItem(chars[0]) + PrintItems(chars[1..])
  }

  function PrintString(chars: seq<Item>): string
  {
    "\"" + PrintItems(chars) + "\""
  }

  function PrintLiteral(l: Literal): string
  {
    match l
    case Null => "null"
    case True => "true"
    case False => "false"
    case Number(minus, whole, frac, exp) => (if minus then "-" else "") + whole + frac + exp
  }

  function Print(v: Value): string
  {
    match v
    case Lit(l) => PrintLiteral(l)
    case Str(chars) => PrintString(chars)
    case Arr(pad, elems) => "[" + pad + PrintElems(elems) + "]"
    case Obj(pad, members) => "{" + pad + PrintMembers(members) + "}"
  }

  function PrintElems(es: Elems): string
  {
    match es
    case NoElem => ""
    case Elem(before, value, after, rest) =>
      before + Print(value) + after + (if rest.NoElem? then "" else ",") + PrintElems(rest)
  }

  function PrintMembers(ms: Members): string
  {
    match ms
    case NoMember => ""
    case Member(before, key, mid, pad, value, after, rest) =>
      before + PrintString(key) + mid + ":" + pad + Print(value) + after
      + (if rest.NoMember? then "" else ",") + PrintMembers(rest)
  }

  // ----- scanning over printed text

  /** Scanning over `s` at a depth, outside strings, brings the scanner back to the same state after it. */
  ghost predicate PassedOver(s: string, depth: int)
  {
    forall rest: string {:trigger s + rest} :: Scan(s + rest, depth, false, false) == Later(|s|, Scan(rest,
          depth, false, false))
  }

  lemma {:induction false} PassChain(a: string, b: string, depth: int)
    requires PassedOver(a, depth) && PassedOver(b, depth)
    ensures PassedOver(a + b, depth)
  {
    hide Scan;
    forall rest: string ensures Scan(a + b + rest, depth, false, false) == Later(|a + b|, Scan(rest, depth,
          false, false)) {
      assert a + b + rest == a + (b + rest);
    }
  }

  /** Characters that are neither quotes nor braces are passed over. */
  lemma {:induction false} NeutralPassed(s: string, depth: int)
    requires forall k :: 0 <= k < |s| ==> s[k] !in "\"{}"
    ensures PassedOver(s, depth)
  {
    forall rest: string ensures Scan(s + rest, depth, false, false) == Later(|s|, Scan(rest, depth, false, false)) {
      if s == "" {
        assert s + rest == rest;
      } else {
        NeutralPassed(s[1..], depth);
        assert (s + rest)[1..] == s[1..] + rest;
      }
    }
  }

  lemma {:induction false} InsideString(s: string, rest: string, depth: int)
    requires forall k :: 0 <= k < |s| ==> s[k] != '"' && s[k] != '\\'
    ensures Scan(s + rest, depth, true, false) == Later(|s|, Scan(rest, depth, true, false))
  {
    if s == "" {
      assert s + rest == rest;
    } else {
      InsideString(s[1..], rest, depth);
      assert (s + rest)[1..] == s[1..] + rest;
    }
  }

  /** No printed string character ends the string or leaves an escape pending. */
  lemma {:induction false} ItemPassed(i: Item, rest: string, depth: int)
    requires GoodItem(i)
    ensures Scan(PrintItem(i) + rest, depth, true, false) == Later(|PrintItem(i)|, Scan(rest, depth, true, false))
  {
    var s := PrintItem(i) + rest;
    match i
    case Plain(c) =>
      assert s[1..] == rest;
    case Short(c) =>
      assert s[1..][1..] == rest;
    case Unicode(hex) =>
      assert s[1..][1..] == hex + rest;
      InsideString(hex, rest, depth);
  }

  lemma {:induction false} ItemsPassed(chars: seq<Item>, rest: string, depth: int)
    requires GoodItems(chars)
    ensures Scan(PrintItems(chars) + rest, depth, true, false) == Later(|PrintItems(chars)|, Scan(rest, depth,
          true, false))
  {
    hide Scan, PrintItem, GoodItem;
    if chars == [] {
      assert PrintItems(chars) + rest == rest;
    } else {
      var tail := PrintItems(chars[1..]) + rest;
      assert PrintItems(chars) + rest == PrintItem(chars[0]) + tail;
      ItemPassed(chars[0], tail, depth);
      ItemsPassed(chars[1..], rest, depth);
    }
  }

  lemma {:induction false} StringPassed(chars: seq<Item>, depth: int)
    requires GoodItems(chars)
    ensures PassedOver(PrintString(chars), depth)
  {
    hide PrintItems;
    forall rest: string
      ensures Scan(PrintString(chars) + rest, depth, false, false) == Later(|PrintString(chars)|, Scan(rest,
            depth, false, false))
    {
      var closing := "\"" + rest;
      assert (PrintString(chars) + rest)[1..] == PrintItems(chars) + closing;
      ItemsPassed(chars, closing, depth);
      assert closing[1..] == rest;
    }
  }

  predicate Neutral(s: string)
  {
    forall k :: 0 <= k < |s| ==> s[k] !in "\"{}"
  }

  lemma {:induction false} LiteralPassed(l: Literal, depth: int)
    requires GoodLiteral(l)
    ensures PassedOver(PrintLiteral(l), depth)
  {
    if l.Number? {
      hide PassedOver, Scan;
      assert Neutral(l.whole);
      PointNeutral(l.frac);
      ExponentNeutral(l.exp);
      assert Neutral(if l.minus then "-" else "");
    }
    NeutralPassed(PrintLiteral(l), depth);
  }

  lemma {:induction false} PointNeutral(frac: string)
    requires frac == "" || (frac[0] == '.' && IsDigits(frac[1..]))
    ensures Neutral(frac)
  {
    assert forall k :: 0 < k < |frac| ==> frac[k] == frac[1..][k - 1];
  }

  lemma {:induction false} ExponentNeutral(exp: string)
    requires exp == "" || (exp[0] in "eE" && exp[1..] != "" && IsDigits(if exp[1] in "+-" then exp[2..] else exp[1..]))
    ensures Neutral(exp)
  {
    assert forall k :: 0 < k < |exp| ==> exp[k] == exp[1..][k - 1];
    assert forall k :: 1 < k < |exp| ==> exp[k] == exp[2..][k - 2];
  }

  lemma {:induction false} WsPassed(s: string, depth: int)
    requires IsWs(s)
    ensures PassedOver(s, depth)
  {
    NeutralPassed(s, depth);
  }

  /** The inside of a braced text is scanned one level deeper; the closing brace brings the depth back. */
  lemma {:induction false} BracedScan(inner: string, rest: string, depth: nat)
    requires PassedOver(inner, depth + 1)
    ensures var s := "{" + inner + "}";
            Scan(s + rest, depth, false, false)
            == if depth == 0 then At(|s|) else Later(|s|, Scan(rest, depth, false, false))
  {
    var s, closing := "{" + inner + "}" + rest, "}" + rest;
    assert s[1..] == inner + closing;
    assert Scan(inner + closing, depth + 1, false, false) == Later(|inner|, Scan(closing, depth + 1, false, false));
    assert closing[1..] == rest;
  }

  /** Every printed value, at any depth inside an object, is passed over. */
  lemma {:induction false} ValuePassed(v: Value, depth: nat)
    requires Good(v) && depth > 0
    ensures PassedOver(Print(v), depth)
    decreases v
  {
    hide Scan, PassedOver, PrintElems, PrintMembers, PrintString, GoodLiteral;
    match v
    case Lit(l) => LiteralPassed(l, depth);
    case Str(chars) => StringPassed(chars, depth);
    case Arr(pad, elems) =>
      ElemsPassed(elems, depth);
      WsPassed(pad, depth);
      NeutralPassed("[", depth);
      NeutralPassed("]", depth);
      PassChain("[", pad, depth);
      PassChain("[" + pad, PrintElems(elems), depth);
      PassChain("[" + pad + PrintElems(elems), "]", depth);
    case Obj(pad, members) =>
      MembersPassed(members, depth + 1);
      WsPassed(pad, depth + 1);
      PassChain(pad, PrintMembers(members), depth + 1);
      BracedPassed(pad + PrintMembers(members), depth);
      assert Print(v) == "{" + (pad + PrintMembers(members)) + "}";
  }

  lemma {:induction false} BracedPassed(inner: string, depth: nat)
    requires PassedOver(inner, depth + 1) && depth > 0
    ensures PassedOver("{" + inner + "}", depth)
  {
    hide Scan;
    forall rest: string
      ensures Scan("{" + inner + "}" + rest, depth, false, false)
           == Later(|"{" + inner + "}"|, Scan(rest, depth, false, false))
    {
      BracedScan(inner, rest, depth);
    }
  }

  lemma {:induction false} ElemsPassed(es: Elems, depth: nat)
    requires GoodElems(es) && depth > 0
    ensures PassedOver(PrintElems(es), depth)
    decreases es
  {
    hide Scan, PassedOver, Print;
    match es
    case NoElem => NeutralPassed("", depth);
    case Elem(before, value, after, rest) =>
      WsPassed(before, depth);
      ValuePassed(value, depth);
      WsPassed(after, depth);
      ElemsPassed(rest, depth);
      var comma := if rest.NoElem? then "" else ",";
      NeutralPassed(comma, depth);
      PassChain(before, Print(value), depth);
      PassChain(before + Print(value), after, depth);
      PassChain(before + Print(value) + after, comma, depth);
      PassChain(before + Print(value) + after + comma, PrintElems(rest), depth);
  }

  lemma {:induction false} MembersPassed(ms: Members, depth: nat)
    requires GoodMembers(ms) && depth > 0
    ensures PassedOver(PrintMembers(ms), depth)
    decreases ms
  {
    hide Scan, PassedOver, Print, PrintString;
    match ms
    case NoMember => NeutralPassed("", depth);
    case Member(before, key, mid, pad, value, after, rest) =>
      WsPassed(before, depth);
      StringPassed(key, depth);
      WsPassed(mid, depth);
      NeutralPassed(":", depth);
      WsPassed(pad, depth);
      ValuePassed(value, depth);
      WsPassed(after, depth);
      MembersPassed(rest, depth);
      var comma := if rest.NoMember? then "" else ",";
      NeutralPassed(comma, depth);
      var k := before + PrintString(key);
      PassChain(before, PrintString(key), depth);
      PassChain(k, mid, depth);
      PassChain(k + mid, ":", depth);
      PassChain(k + mid + ":", pad, depth);
      var p := k + mid + ":" + pad;
      PassChain(p, Print(value), depth);
      PassChain(p + Print(value), after, depth);
      PassChain(p + Print(value) + after, comma, depth);
      PassChain(p + Print(value) + after + comma, PrintMembers(rest), depth);
  }

  // ----- recovery

  lemma {:induction false} TrimKeeps(s: string)
    requires s != "" && !IsSpace(s[0]) && !IsSpace(s[|s| - 1])
    ensures TrimSpace(s) == s
  {
  }

  lemma {:induction false} FirstBraceAfter(prefix: string, rest: string)
    requires '{' !in prefix && rest != "" && rest[0] == '{'
    ensures FirstBrace(prefix + rest) == |prefix|
  {
    var t := prefix + rest;
    var i := FirstBrace(t);
    forall k | 0 <= k < |prefix| ensures t[k] != '{' {
      assert t[k] == prefix[k] && prefix[k] in prefix;
    }
    forall k | 0 <= k < i ensures t[k] != '{' {
      assert t[k] == t[..i][k] && t[..i][k] in t[..i];
    }
    assert t[|prefix|] == '{';
  }

  /**
   * Whatever stands around it, a printed JSON object is cut out exactly: any text without an opening
   * brace before it, any text after it, and braces, quotes and escapes of every kind inside it.
   */
  lemma {:induction false} ExtractRecovers(prefix: string, v: Value, suffix: string)
    requires '{' !in prefix && v.Obj? && Good(v)
    ensures Extract(prefix + Print(v) + suffix) == Print(v)
  {
    hide Scan, PassedOver, PrintMembers, GoodMembers, IsWs, TrimSpace;
    var text, inner := prefix + Print(v) + suffix, v.pad + PrintMembers(v.members);
    MembersPassed(v.members, 1);
    WsPassed(v.pad, 1);
    PassChain(v.pad, PrintMembers(v.members), 1);
    BracedScan(inner, suffix, 0);
    assert Print(v) == "{" + inner + "}";
    FirstBraceAfter(prefix, Print(v) + suffix);
    assert text == prefix + (Print(v) + suffix);
    assert text[|prefix|..] == Print(v) + suffix;
    assert text[|prefix|..|prefix| + |Print(v)|] == Print(v);
    TrimKeeps(Print(v));
  }

  // ----- idempotence

  /** What the scanner has read decides; the rest of the text does not matter. */
  lemma {:induction false} ScanLocal(s: string, depth: int, inString: bool, escape: bool)
    requires Scan(s, depth, inString, escape).At?
    ensures var n := Scan(s, depth, inString, escape).length;
            n <= |s| && Scan(s[..n], depth, inString, escape) == At(n)
  {
    CloseWithin(s, depth, inString, escape);
    var n := Scan(s, depth, inString, escape).length;
    var c, rest := s[0], s[1..];
    var next := if inString then (depth, if escape || c == '\\' then true else c != '"', !escape && c == '\\')
                else if c == '{' then (depth + 1, false, false)
                else if c == '}' then (depth - 1, false, false)
                else (depth, c == '"', false);
    assert s[..n][0] == c && s[..n][1..] == rest[..n - 1];
    if n > 1 {
      ScanLocal(rest, next.0, next.1, next.2);
    }
  }

  /** An extracted text starts and ends with a brace and is extracted from itself unchanged. */
  lemma {:induction false} ExtractIdempotent(text: string)
    requires Extract(text) != ""
    ensures var r := Extract(text);
            && r[0] == '{' && r[|r| - 1] == '}' && Extract(r) == r
            && exists start, end :: 0 <= start < end <= |text| && r == text[start..end]
  {
    hide Scan, TrimSpace;
    var start := FirstBrace(text);
    var s := text[start..];
    CloseWithin(s, 0, false, false);
    var n := Scan(s, 0, false, false).length;
    var r := s[..n];
    assert text[start..start + n] == r;
    TrimKeeps(r);
    ObjectFixed(s);
  }

  /** A text that starts at its brace and stops where the scan does is its own extract. */
  lemma {:induction false} ObjectFixed(s: string)
    requires s != "" && s[0] == '{' && Scan(s, 0, false, false).At?
    ensures var n := Scan(s, 0, false, false).length;
            0 < n <= |s| && Extract(s[..n]) == s[..n]
  {
    hide Scan, TrimSpace;
    CloseWithin(s, 0, false, false);
    ScanLocal(s, 0, false, false);
    var n := Scan(s, 0, false, false).length;
    var r := s[..n];
    TrimKeeps(r);
    FirstBraceAfter("", r);
    assert "" + r == r && r[0..] == r && r[0..n] == r;
  }

  // ----- what is cut out of any text

  /** The scanner's state: how many braces are open, whether in a string, whether after a backslash in it. */
  datatype Mode = Mode(depth: int, inString: bool, escape: bool)

  function ModeNext(m: Mode, c: char): Mode
  {
    if m.inString then Mode(m.depth, m.escape || c != '"', !m.escape && c == '\\')
    else Mode(if c == '{' then m.depth + 1 else if c == '}' then m.depth - 1 else m.depth, c == '"', false)
  }

  /** The state after the first `n` characters. */
  function ModeAfter(s: string, n: nat): Mode
    requires n <= |s|
  {
    if n == 0 then Mode(0, false, false) else ModeNext(ModeAfter(s, n - 1), s[n - 1])
  }

  /** The first `n` characters end with the brace that closes the one they start with. */
  predicate ClosesAt(s: string, n: nat)
  {
    0 < n <= |s| && s[n - 1] == '}' && !ModeAfter(s, n - 1).inString && ModeAfter(s, n).depth == 0
  }

  predicate OpenUpTo(s: string, n: int)
  {
    forall k :: 0 <= k <= n ==> !ClosesAt(s, k)
  }

  /** As long as nothing closes, the scan from the start is the scan from the state reached. */
  lemma {:induction false} ScanFolds(s: string, n: nat)
    requires n <= |s| && OpenUpTo(s, n)
    ensures var m := ModeAfter(s, n);
            && (m.escape ==> m.inString)
            && Scan(s, 0, false, false) == Later(n, Scan(s[n..], m.depth, m.inString, m.escape))
  {
    hide Scan;
    if n == 0 {
      assert s[0..] == s;
    } else {
      ScanFolds(s, n - 1);
      var m := ModeAfter(s, n - 1);
      ScanStep(s, n - 1, m.depth, m.inString, m.escape);
      assert !ClosesAt(s, n);
    }
  }

  /** The scan stops exactly at the first place where the braces close. */
  lemma {:induction false} ScanStopsAt(s: string, n: nat)
    requires ClosesAt(s, n) && OpenUpTo(s, n - 1)
    ensures Scan(s, 0, false, false) == At(n)
  {
    hide Scan;
    ScanFolds(s, n - 1);
    var m := ModeAfter(s, n - 1);
    ScanStep(s, n - 1, m.depth, m.inString, m.escape);
  }

  lemma {:induction false} ScanNeverStops(s: string)
    requires OpenUpTo(s, |s|)
    ensures Scan(s, 0, false, false) == Never
  {
    hide Scan;
    ScanFolds(s, |s|);
    var m := ModeAfter(s, |s|);
    ScanEnd(m.depth, m.inString, m.escape);
    assert s[|s|..] == "";
  }

  lemma {:induction false} FirstClose(s: string, n: nat) returns (k: nat)
    requires ClosesAt(s, n)
    ensures k <= n && ClosesAt(s, k) && OpenUpTo(s, k - 1)
  {
    hide ClosesAt;
    NotAtZero(s);
    k := 1;
    while !ClosesAt(s, k)
      invariant 1 <= k <= n && OpenUpTo(s, k - 1)
      decreases n - k
    {
      k := k + 1;
    }
  }

  lemma {:induction false} NotAtZero(s: string)
    ensures !ClosesAt(s, 0)
  {
  }

  /**
   * Whatever the text is: from its first brace on, the shortest stretch in which the braces outside strings
   * close is cut out as it stands, and nothing if there is none.
   */
  lemma {:induction false} ExtractExactly(text: string)
    ensures var s := text[FirstBrace(text)..];
            && (Extract(text) == "" <==> OpenUpTo(s, |s|))
            && (forall n: nat :: ClosesAt(s, n) && OpenUpTo(s, n - 1) ==> Extract(text) == s[..n])
  {
    hide Scan, TrimSpace, ClosesAt;
    var start := FirstBrace(text);
    var s := text[start..];
    if start == |text| {
      NothingCloses(s);
    } else if OpenUpTo(s, |s|) {
      ScanNeverStops(s);
      forall n: nat ensures !ClosesAt(s, n) {
        CloseInside(s, n);
      }
    } else {
      var m :| 0 <= m <= |s| && ClosesAt(s, m);
      var k := FirstClose(s, m);
      CutOut(text, k);
      forall n: nat | ClosesAt(s, n) && OpenUpTo(s, n - 1) ensures Extract(text) == s[..n] {
        CutOut(text, n);
      }
      CloseInside(s, k);
    }
  }

  lemma {:induction false} CloseInside(s: string, n: nat)
    ensures ClosesAt(s, n) ==> 0 < n <= |s|
  {
  }

  lemma {:induction false} NothingCloses(s: string)
    requires s == ""
    ensures forall n :: !ClosesAt(s, n)
  {
  }

  lemma {:induction false} CutOut(text: string, n: nat)
    requires var s := text[FirstBrace(text)..]; ClosesAt(s, n) && OpenUpTo(s, n - 1)
    ensures Extract(text) == text[FirstBrace(text)..][..n] != ""
  {
    hide Scan, TrimSpace, OpenUpTo, ModeAfter;
    var start := FirstBrace(text);
    var s := text[start..];
    ScanStopsAt(s, n);
    CloseWithin(s, 0, false, false);
    assert text[start..start + n] == s[..n];
    assert s[0] == '{' && s[..n][n - 1] == '}';
    TrimKeeps(s[..n]);
  }

  // ----- braces before the object

  lemma {:induction false} ModeLocal(s: string, t: string, n: nat)
    requires n <= |s|
    ensures ModeAfter(s + t, n) == ModeAfter(s, n) && (ClosesAt(s + t, n) <==> ClosesAt(s, n))
  {
    if n > 0 {
      ModeLocal(s, t, n - 1);
    }
  }

  /** A scan that has begun with a brace and has not closed is inside a brace. */
  lemma {:induction false} StillOpen(s: string, n: nat)
    requires s != "" && s[0] == '{' && 0 < n <= |s| && OpenUpTo(s, n)
    ensures ModeAfter(s, n).depth > 0
  {
    if n == 1 {
      assert ModeAfter(s, 0) == Mode(0, false, false);
    } else {
      StillOpen(s, n - 1);
      assert !ClosesAt(s, n);
    }
  }

  /** If the braces of the prefix close, the prefix alone decides, and the object behind it is not seen. */
  lemma {:induction false} EarlierBracesDecide(prefix: string, rest: string)
    requires Extract(prefix) != ""
    ensures Extract(prefix + rest) == Extract(prefix)
  {
    hide Scan, TrimSpace, ClosesAt, ModeAfter;
    var start := FirstBrace(prefix);
    var s := prefix[start..];
    ExtractExactly(prefix);
    var m :| 0 <= m <= |s| && ClosesAt(s, m);
    var n := FirstClose(s, m);
    FirstBraceStays(prefix, rest);
    assert (prefix + rest)[start..] == s + rest;
    ModeLocal(s, rest, n);
    forall k | 0 <= k <= n - 1 ensures !ClosesAt(s + rest, k) {
      ModeLocal(s, rest, k);
    }
    ExtractExactly(prefix + rest);
    assert (s + rest)[..n] == s[..n];
  }

  lemma {:induction false} FirstBraceStays(prefix: string, rest: string)
    requires FirstBrace(prefix) < |prefix|
    ensures FirstBrace(prefix + rest) == FirstBrace(prefix)
  {
    var start := FirstBrace(prefix);
    FirstBraceAfter(prefix[..start], prefix[start..] + rest);
    assert prefix[..start] + (prefix[start..] + rest) == prefix + rest;
  }

  /**
   * If a brace of the prefix is still open where the object begins, outside any string, the object is only
   * part of what is cut out: all from that brace to where the text behind the object closes it, or nothing.
   */
  lemma {:induction false} OpenBraceSwallows(prefix: string, v: Value, suffix: string)
    requires '{' in prefix && Extract(prefix) == "" && Good(v)
    requires !ModeAfter(prefix[FirstBrace(prefix)..], |prefix| - FirstBrace(prefix)).inString
    ensures var start := FirstBrace(prefix);
            var depth := ModeAfter(prefix[start..], |prefix| - start).depth;
            && depth > 0
            && Extract(prefix + Print(v) + suffix) ==
               match Scan(suffix, depth, false, false)
               case Never => ""
               case At(n) => if n <= |suffix| then prefix[start..] + Print(v) + suffix[..n] else ""
  {
    hide TrimSpace, ClosesAt, Print, Scan, ModeAfter, Extract, OpenUpTo;
    var start := FirstBrace(prefix);
    var text, s := prefix + Print(v) + suffix, prefix[start..];
    SomeBrace(prefix);
    ExtractExactly(prefix);
    StillOpen(s, |s|);
    ScanThrough(s, v, suffix);
    FirstBraceStays(prefix, Print(v) + suffix);
    assert text == prefix + (Print(v) + suffix);
    assert text[start..] == s + Print(v) + suffix;
    ExtractFromScan(text);
    var depth := ModeAfter(s, |s|).depth;
    if Scan(suffix, depth, false, false).At? {
      CloseWithin(suffix, depth, false, false);
      var n := Scan(suffix, depth, false, false).length;
      assert (s + Print(v) + suffix)[..|s| + |Print(v)| + n] == s + Print(v) + suffix[..n];
    }
  }

  lemma {:induction false} ScanThrough(s: string, v: Value, suffix: string)
    requires s != "" && s[0] == '{' && OpenUpTo(s, |s|) && Good(v) && !ModeAfter(s, |s|).inString
    ensures var depth := ModeAfter(s, |s|).depth;
            Scan(s + Print(v) + suffix, 0, false, false) == Later(|s| + |Print(v)|, Scan(suffix, depth, false, false))
  {
    hide ClosesAt, Print, Scan, PassedOver, ModeAfter;
    var all := s + (Print(v) + suffix);
    forall k | 0 <= k <= |s| ensures !ClosesAt(all, k) {
      ModeLocal(s, Print(v) + suffix, k);
    }
    ModeLocal(s, Print(v) + suffix, |s|);
    ScanFolds(all, |s|);
    assert all[|s|..] == Print(v) + suffix && s + Print(v) + suffix == all;
    StillOpen(s, |s|);
    var depth := ModeAfter(s, |s|).depth;
    ValuePassed(v, depth);
    PassedHere(Print(v), suffix, depth);
  }

  lemma {:induction false} SomeBrace(text: string)
    requires '{' in text
    ensures FirstBrace(text) < |text|
  {
    assert text[..|text|] == text;
  }

  lemma {:induction false} PassedHere(s: string, rest: string, depth: int)
    requires PassedOver(s, depth)
    ensures Scan(s + rest, depth, false, false) == Later(|s|, Scan(rest, depth, false, false))
  {
    hide Scan;
  }

  lemma {:induction false} ExtractFromScan(text: string)
    requires FirstBrace(text) < |text|
    ensures var s := text[FirstBrace(text)..];
            Extract(text) ==
            match Scan(s, 0, false, false)
            case Never => ""
            case At(n) => if n <= |s| then s[..n] else ""
  {
    hide Scan, TrimSpace;
    var start := FirstBrace(text);
    var s := text[start..];
    if Scan(s, 0, false, false).At? {
      CloseWithin(s, 0, false, false);
      var n := Scan(s, 0, false, false).length;
      assert text[start..start + n] == s[..n];
      TrimKeeps(s[..n]);
    }
  }
}
