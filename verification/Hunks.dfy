/** Hunks, and their application one after another to the lines of a file. */
module Hunks {
  import opened Text

  datatype Error =
    | HunkWithoutFile | InvalidHeader | BadNumber | NoFiles
    | OutOfRange | ContextMismatch | DeleteMismatch | InvalidLine
    | ReadFailed | WriteFailed

  datatype Result<+T> = Ok(value: T) | Err(error: Error)

  datatype Hunk = Hunk(oldStart: int, oldLines: int, newStart: int, newLines: int, lines: seq<string>)

  // ----- what a hunk says

  /** A body line says something if it is blank (ignored) or starts with one of the three markers. */
  predicate WellMarked(body: seq<string>)
  {
    forall k :: 0 <= k < |body| ==> body[k] == "" || body[k][0] in " -+"
  }

  /** The lines a hunk body expects to find: its context and deleted lines. */
  function OldText(body: seq<string>): seq<string>
  {
    if body == [] then []
    else if body[0] != "" && body[0][0] in " -" then [body[0][1..]] + OldText(body[1..])
    else OldText(body[1..])
  }

  /** The lines a hunk body leaves behind: its context and added lines. */
  function NewText(body: seq<string>): seq<string>
  {
    if body == [] then []
    else if body[0] != "" && body[0][0] in " +" then [body[0][1..]] + NewText(body[1..])
    else NewText(body[1..])
  }

  lemma {:induction false} TextConcat(a: seq<string>, b: seq<string>)
    ensures OldText(a + b) == OldText(a) + OldText(b) && NewText(a + b) == NewText(a) + NewText(b)
  {
    if a == [] {
      assert a + b == b;
    } else {
      assert (a + b)[1..] == a[1..] + b;
      TextConcat(a[1..], b);
    }
  }

  lemma {:induction false} MarkedConcat(a: seq<string>, b: seq<string>)
    ensures WellMarked(a + b) <==> WellMarked(a) && WellMarked(b)
  {
    assert forall k :: 0 <= k < |a| ==> (a + b)[k] == a[k];
    assert forall k :: 0 <= k < |b| ==> (a + b)[|a| + k] == b[k];
  }

  /** The hunk is well formed and its old text stands at position `at`. */
  predicate Fits(h: Hunk, lines: seq<string>, at: int)
  {
    WellMarked(h.lines) && StandsAt(OldText(h.lines), lines, at)
  }

  lemma {:induction false} InRange(h: Hunk, lines: seq<string>, at: int)
    requires Fits(h, lines, at)
    ensures StandsAt(OldText(h.lines), lines, at) && 0 <= at <= at + |OldText(h.lines)| <= |lines|
  {
    hide OldText, WellMarked;
  }

  // ----- one hunk, and the pass over all hunks

  datatype Verdict = Fine | Complaint(error: Error)

  /** Checks a body from the top against `lines` from `cursor` on; the first line that is wrong decides. */
  function Check(lines: seq<string>, cursor: nat, body: seq<string>): (v: Verdict)
    requires cursor <= |lines|
    ensures v.Fine? <==> WellMarked(body) && StandsAt(OldText(body), lines, cursor)
    decreases |body|
  {
    if body == [] then Fine
    else
      var l, rest := body[0], body[1..];
      assert body == [l] + rest;
      if l == "" then Check(lines, cursor, rest)
      else if l[0] in " -" then
        StandsAtCons(l[1..], OldText(rest), lines, cursor);
        if cursor >= |lines| || lines[cursor] != l[1..] then
          Complaint(if l[0] == ' ' then ContextMismatch else DeleteMismatch)
        else Check(lines, cursor + 1, rest)
      else if l[0] == '+' then Check(lines, cursor, rest)
      else Complaint(InvalidLine)
  }

  function Splice(lines: seq<string>, from: nat, to: nat, middle: seq<string>): seq<string>
    requires from <= to <= |lines|
  {
    lines[..from] + middle + lines[to..]
  }

  function Growth(h: Hunk): int
  {
    |NewText(h.lines)| - |OldText(h.lines)|
  }

  /** The lines after one hunk whose old text is to be found at `at`. */
  function ApplyAt(lines: seq<string>, at: int, h: Hunk): (r: Result<seq<string>>)
    ensures r.Ok? <==> Fits(h, lines, at)
    ensures r.Ok? ==> r.value == Splice(lines, at, at + |OldText(h.lines)|, NewText(h.lines))
  {
    if at < 0 || at > |lines| then Err(OutOfRange)
    else
      match Check(lines, at, h.lines)
      case Complaint(e) => Err(e)
      case Fine => Ok(Splice(lines, at, at + |OldText(h.lines)|, NewText(h.lines)))
  }

  /** Applies the hunks in the order given; `offset` is the growth caused by the hunks already applied. */
  function ApplyFrom(lines: seq<string>, offset: int, hunks: seq<Hunk>): Result<seq<string>>
    decreases |hunks|
  {
    if hunks == [] then Ok(lines)
    else
      match ApplyAt(lines, hunks[0].oldStart - 1 + offset, hunks[0])
      case Err(e) => Err(e)
      case Ok(next) => ApplyFrom(next, offset + Growth(hunks[0]), hunks[1..])
  }

  lemma {:induction false} ApplyNone(lines: seq<string>, offset: int)
    ensures ApplyFrom(lines, offset, []) == Ok(lines)
  {
  }

  lemma {:induction false} ApplyUnfolds(lines: seq<string>, offset: int, hunks: seq<Hunk>)
    requires hunks != []
    ensures var first := ApplyAt(lines, hunks[0].oldStart - 1 + offset, hunks[0]);
            ApplyFrom(lines, offset, hunks) ==
            if first.Err? then Err(first.error)
            else ApplyFrom(first.value, offset + Growth(hunks[0]), hunks[1..])
  {
    hide ApplyAt, Fits, OldText, NewText;
  }

  lemma {:induction false} NowhereToApply(lines: seq<string>, at: int, h: Hunk)
    requires at < 0 || at > |lines|
    ensures ApplyAt(lines, at, h) == Err(OutOfRange)
  {
  }

  /** One hunk of a pass, in terms of what it says. */
  lemma {:induction false} ApplyOne(lines: seq<string>, offset: int, hunks: seq<Hunk>)
    requires hunks != []
    ensures var h, rest := hunks[0], hunks[1..];
            var at := h.oldStart - 1 + offset;
            if Fits(h, lines, at) then
              ApplyFrom(lines, offset, hunks) ==
              ApplyFrom(Splice(lines, at, at + |OldText(h.lines)|, NewText(h.lines)), offset + Growth(h), rest)
            else ApplyFrom(lines, offset, hunks).Err?
  {
    hide Check, OldText, NewText, Fits;
  }

  function ApplyText(content: string, hunks: seq<Hunk>): Result<string>
  {
    match ApplyFrom(Lines(content), 0, hunks)
    case Ok(lines) => Ok(Render(lines))
    case Err(e) => Err(e)
  }

  lemma {:induction false} StandsAtCons(first: string, part: seq<string>, lines: seq<string>, at: nat)
    ensures StandsAt([first] + part, lines, at)
            <==> at < |lines| && lines[at] == first && StandsAt(part, lines, at + 1)
  {
    if at + 1 + |part| <= |lines| {
      var here := lines[at..at + 1 + |part|];
      assert here == [lines[at]] + lines[at + 1..at + 1 + |part|];
      assert ([first] + part)[1..] == part;
    }
  }

  // ----- the loops

  lemma {:induction false} BodyEnd(lines: seq<string>, cursor: nat)
    requires cursor <= |lines|
    ensures Check(lines, cursor, []).Fine? && OldText([]) == NewText([]) == []
  {
  }

  /** What the k-th body line contributes. */
  lemma {:induction false} BodyStep(lines: seq<string>, cursor: nat, body: seq<string>, k: nat)
    requires cursor <= |lines| && k < |body|
    ensures var (l, now, rest) := (body[k], body[k..], body[k + 1..]);
            if l == "" || l[0] !in " -+" then
              && OldText(now) == OldText(rest) && NewText(now) == NewText(rest)
              && Check(lines, cursor, now) == if l == "" then Check(lines, cursor, rest) else Complaint(InvalidLine)
            else
              && OldText(now) == (if l[0] == '+' then [] else [l[1..]]) + OldText(rest)
              && NewText(now) == (if l[0] == '-' then [] else [l[1..]]) + NewText(rest)
              && Check(lines, cursor, now)
              == if l[0] == '+' then Check(lines, cursor, rest)
                 else if cursor < |lines| && lines[cursor] == l[1..] then Check(lines, cursor + 1, rest)
                 else Complaint(if l[0] == ' ' then ContextMismatch else DeleteMismatch)
  {
    assert body[k..][0] == body[k] && body[k..][1..] == body[k + 1..];
  }

  /** The lines after one hunk and the change of length it caused, by a loop over its body. */
  method ApplyHunk(lines: seq<string>, at: nat, h: Hunk) returns (r: Result<seq<string>>, delta: int)
    requires at <= |lines|
    ensures r == ApplyAt(lines, at, h)
    ensures r.Ok? ==> delta == Growth(h)
  {
    hide WellMarked, StandsAt, Fits, Check, OldText, NewText;
    var written: seq<string> := [];
    var removed, added := 0, 0;
    var cursor := at;
    delta := 0;
    for k := 0 to |h.lines|
      invariant at <= cursor <= |lines|
      invariant Check(lines, at, h.lines) == Check(lines, cursor, h.lines[k..])
      invariant written + NewText(h.lines[k..]) == NewText(h.lines)
      invariant cursor + |OldText(h.lines[k..])| == at + |OldText(h.lines)|
      invariant added - removed == |written| - (cursor - at)
    {
      BodyStep(lines, cursor, h.lines, k);
      var l := h.lines[k];
      if l == "" {
        continue;
      }
      var text := l[1..];
      if l[0] == ' ' {
        if cursor >= |lines| || lines[cursor] != text {
          return Err(ContextMismatch), 0;
        }
        written := written + [lines[cursor]];
        cursor := cursor + 1;
      } else if l[0] == '-' {
        if cursor >= |lines| || lines[cursor] != text {
          return Err(DeleteMismatch), 0;
        }
        cursor := cursor + 1;
        removed := removed + 1;
      } else if l[0] == '+' {
        written := written + [text];
        added := added + 1;
      } else {
        return Err(InvalidLine), 0;
      }
    }
    BodyEnd(lines, cursor);
    assert h.lines[|h.lines|..] == [] && written + [] == written;
    r, delta := Ok(lines[..at] + written + lines[cursor..]), added - removed;
  }

  /** Applies every hunk to the file's lines, splicing them one at a time under a running offset. */
  method ApplyHunks(content: string, hunks: seq<Hunk>) returns (r: Result<string>)
    ensures r == ApplyText(content, hunks)
  {
    hide ApplyFrom, ApplyAt, Check, Fits, OldText, NewText;
    var lines := Split(content, NL);
    if |lines| > 0 && lines[|lines| - 1] == "" {
      lines := lines[..|lines| - 1];
    }
    var offset := 0;
    for k := 0 to |hunks|
      invariant ApplyFrom(Lines(content), 0, hunks) == ApplyFrom(lines, offset, hunks[k..])
    {
      var h := hunks[k];
      ApplyUnfolds(lines, offset, hunks[k..]);
      assert hunks[k..][0] == h && hunks[k..][1..] == hunks[k + 1..];
      var at := h.oldStart - 1 + offset;
      if at < 0 || at > |lines| {
        NowhereToApply(lines, at, h);
        return Err(OutOfRange);
      }
      var spliced, delta := ApplyHunk(lines, at, h);
      if spliced.Err? {
        return Err(spliced.error);
      }
      lines := spliced.value;
      offset := offset + delta;
    }
    ApplyNone(lines, offset);
    r := Ok(Join(lines, NL) + [NL]);
  }

  // ----- which error is reported

  /** The line is not what it should be when read against position `at`, and this is the error it gives. */
  predicate Wrong(l: string, lines: seq<string>, at: nat, e: Error)
  {
    l != "" &&
    if l[0] in " -" then
      (at >= |lines| || lines[at] != l[1..]) && e == (if l[0] == ' ' then ContextMismatch else DeleteMismatch)
    else l[0] != '+' && e == InvalidLine
  }

  /** The first wrong line of a body decides the error; nothing after it is looked at. */
  lemma {:induction false} FirstWrongLineDecides(lines: seq<string>, cursor: nat, body: seq<string>, k: nat, e: Error)
    requires cursor <= |lines| && k < |body|
    requires WellMarked(body[..k]) && StandsAt(OldText(body[..k]), lines, cursor)
    requires Wrong(body[k], lines, cursor + |OldText(body[..k])|, e)
    ensures Check(lines, cursor, body) == Complaint(e)
    decreases k
  {
    hide Check, WellMarked, OldText, NewText, Wrong, StandsAt;
    if k == 0 {
      FirstLineWrong(lines, cursor, body, e);
    } else {
      var l, front, rest := body[0], body[..k], body[1..];
      assert front[0] == l && front[1..] == rest[..k - 1] && rest[k - 1] == body[k];
      assert body[0..] == body && front[0..] == front;
      BodyStep(lines, cursor, body, 0);
      BodyStep(lines, cursor, front, 0);
      MarkedCons(front);
      if l != "" && l[0] in " -" {
        StandsAtCons(l[1..], OldText(rest[..k - 1]), lines, cursor);
        FirstWrongLineDecides(lines, cursor + 1, rest, k - 1, e);
      } else {
        FirstWrongLineDecides(lines, cursor, rest, k - 1, e);
      }
    }
  }

  lemma {:induction false} FirstLineWrong(lines: seq<string>, cursor: nat, body: seq<string>, e: Error)
    requires cursor <= |lines| && body != [] && Wrong(body[0], lines, cursor + |OldText(body[..0])|, e)
    ensures Check(lines, cursor, body) == Complaint(e)
  {
  }

  lemma {:induction false} MarkedCons(body: seq<string>)
    requires WellMarked(body) && body != []
    ensures (body[0] == "" || body[0][0] in " -+") && WellMarked(body[1..])
  {
  }

  // ----- sequential application refines simultaneous application

  /** The hunks come in order and do not overlap, all from position `from` on, in old coordinates. */
  predicate Ordered(hunks: seq<Hunk>, from: int)
  {
    hunks == [] ||
    (from <= hunks[0].oldStart - 1 && Ordered(hunks[1..], hunks[0].oldStart - 1 + |OldText(hunks[0].lines)|))
  }

  /** Every hunk fits the original lines at the place its header names. */
  predicate AllFit(hunks: seq<Hunk>, lines: seq<string>)
  {
    forall k :: 0 <= k < |hunks| ==> Fits(hunks[k], lines, hunks[k].oldStart - 1)
  }

  /** All hunks at once: the original lines from `pos` on with every old text replaced by its new text. */
  function OnePass(lines: seq<string>, hunks: seq<Hunk>, pos: nat): seq<string>
    requires pos <= |lines| && Ordered(hunks, pos) && AllFit(hunks, lines)
    decreases |hunks|
  {
    if hunks == [] then lines[pos..]
    else
      var at := hunks[0].oldStart - 1;
      lines[pos..at] + NewText(hunks[0].lines) + OnePass(lines, hunks[1..], at + |OldText(hunks[0].lines)|)
  }

  lemma {:induction false} OnePassNil(lines: seq<string>, pos: nat)
    requires pos <= |lines|
    ensures OnePass(lines, [], pos) == lines[pos..]
  {
  }

  lemma {:induction false} OnePassCons(lines: seq<string>, hunks: seq<Hunk>, pos: nat)
    requires hunks != [] && pos <= |lines| && Ordered(hunks, pos) && AllFit(hunks, lines)
    ensures var (h, at) := (hunks[0], hunks[0].oldStart - 1);
            && pos <= at <= at + |OldText(h.lines)| <= |lines|
            && AllFit(hunks[1..], lines) && Ordered(hunks[1..], at + |OldText(h.lines)|)
            && OnePass(lines, hunks, pos)
            == lines[pos..at] + NewText(h.lines) + OnePass(lines, hunks[1..], at + |OldText(h.lines)|)
  {
    hide OldText, NewText, WellMarked;
    AllFitCons(hunks, lines);
  }

  lemma {:induction false} AllFitCons(hunks: seq<Hunk>, lines: seq<string>)
    requires hunks != []
    ensures AllFit(hunks, lines) <==> Fits(hunks[0], lines, hunks[0].oldStart - 1) && AllFit(hunks[1..], lines)
  {
    assert hunks == [hunks[0]] + hunks[1..];
  }

  lemma {:induction false} StandsAtShifted(part: seq<string>, done: seq<string>, lines: seq<string>, pos: nat, at: int)
    requires pos <= |lines| && pos <= at
    ensures StandsAt(part, done + lines[pos..], at - pos + |done|) <==> StandsAt(part, lines, at)
  {
    if at + |part| <= |lines| {
      var shifted := at - pos + |done|;
      assert (done + lines[pos..])[shifted..shifted + |part|] == lines[at..at + |part|];
    }
  }

  lemma {:induction false} SpliceShifted(done: seq<string>, lines: seq<string>, pos: nat, at: nat, to: nat,
                                         middle: seq<string>)
    requires pos <= at <= to <= |lines|
    ensures Splice(done + lines[pos..], at - pos + |done|, to - pos + |done|, middle)
         == done + lines[pos..at] + middle + lines[to..]
  {
    assert (done + lines[pos..])[..at - pos + |done|] == done + lines[pos..at];
    assert (done + lines[pos..])[to - pos + |done|..] == lines[to..];
  }

  lemma {:induction false} SequentialFrom(lines: seq<string>, done: seq<string>, hunks: seq<Hunk>, pos: nat)
    requires pos <= |lines| && Ordered(hunks, pos)
    ensures var r := ApplyFrom(done + lines[pos..], |done| - pos, hunks);
            if AllFit(hunks, lines) then r == Ok(done + OnePass(lines, hunks, pos)) else r.Err?
    decreases |hunks|
  {
    hide ApplyFrom, ApplyAt, Check, OldText, NewText, WellMarked, OnePass;
    if hunks == [] {
      ApplyNone(done + lines[pos..], |done| - pos);
      OnePassNil(lines, pos);
    } else {
      var h := hunks[0];
      var at, shifted := h.oldStart - 1, h.oldStart - 1 + |done| - pos;
      AllFitCons(hunks, lines);
      StandsAtShifted(OldText(h.lines), done, lines, pos, at);
      ApplyOne(done + lines[pos..], |done| - pos, hunks);
      if Fits(h, lines, at) {
        var next := at + |OldText(h.lines)|;
        var done' := done + lines[pos..at] + NewText(h.lines);
        SpliceShifted(done, lines, pos, at, next, NewText(h.lines));
        SequentialFrom(lines, done', hunks[1..], next);
        if AllFit(hunks, lines) {
          OnePassCons(lines, hunks, pos);
          assert done' + OnePass(lines, hunks[1..], next) == done + OnePass(lines, hunks, pos);
        }
      }
    }
  }

  /**
   * The pass with its running offset computes the simultaneous replacement: for ordered hunks it
   * succeeds exactly when every hunk fits the ORIGINAL lines, and then its result is the one-pass splice.
   */
  lemma {:induction false} SequentialIsSimultaneous(lines: seq<string>, hunks: seq<Hunk>)
    requires Ordered(hunks, 0)
    ensures ApplyFrom(lines, 0, hunks).Ok? <==> AllFit(hunks, lines)
    ensures AllFit(hunks, lines) ==> ApplyFrom(lines, 0, hunks) == Ok(OnePass(lines, hunks, 0))
  {
    hide ApplyFrom, OnePass, Ordered, AllFit;
    assert [] + lines[0..] == lines;
    SequentialFrom(lines, [], hunks, 0);
    if AllFit(hunks, lines) {
      assert [] + OnePass(lines, hunks, 0) == OnePass(lines, hunks, 0);
    }
  }

  // ----- what the pass does not look at

  /** Lines standing after everything the hunks touch are carried along unchanged. */
  lemma {:induction false} TailCarried(lines: seq<string>, tail: seq<string>, offset: int, hunks: seq<Hunk>)
    requires ApplyFrom(lines, offset, hunks).Ok?
    ensures ApplyFrom(lines + tail, offset, hunks) == Ok(ApplyFrom(lines, offset, hunks).value + tail)
    decreases |hunks|
  {
    hide ApplyFrom, ApplyAt, Check, OldText, NewText, WellMarked;
    if hunks == [] {
      ApplyNone(lines, offset);
      ApplyNone(lines + tail, offset);
    } else {
      var h := hunks[0];
      var at := h.oldStart - 1 + offset;
      var to := at + |OldText(h.lines)|;
      ApplyOne(lines, offset, hunks);
      assert (lines + tail)[at..to] == lines[at..to];
      ApplyOne(lines + tail, offset, hunks);
      var next := Splice(lines, at, to, NewText(h.lines));
      assert Splice(lines + tail, at, to, NewText(h.lines)) == next + tail;
      TailCarried(next, tail, offset + |NewText(h.lines)| - |OldText(h.lines)|, hunks[1..]);
    }
  }

  /** The two hunks say the same thing to the pass: same start, same old and new text. */
  predicate SameMeaning(g: Hunk, h: Hunk)
  {
    && g.oldStart == h.oldStart
    && (WellMarked(g.lines) <==> WellMarked(h.lines))
    && OldText(g.lines) == OldText(h.lines)
    && NewText(g.lines) == NewText(h.lines)
  }

  /**
   * Nothing else of a hunk matters: neither the counts and the new start of its header, nor blank
   * body lines, nor how deletions and additions are interleaved.
   */
  lemma {:induction false} OnlyMeaningMatters(lines: seq<string>, offset: int, gs: seq<Hunk>, hs: seq<Hunk>)
    requires |gs| == |hs| && forall k :: 0 <= k < |gs| ==> SameMeaning(gs[k], hs[k])
    ensures ApplyFrom(lines, offset, gs).Ok? <==> ApplyFrom(lines, offset, hs).Ok?
    ensures ApplyFrom(lines, offset, gs).Ok? ==> ApplyFrom(lines, offset, gs) == ApplyFrom(lines, offset, hs)
    decreases |gs|
  {
    hide ApplyFrom, ApplyAt, Check, OldText, NewText, WellMarked;
    if gs == [] {
      ApplyNone(lines, offset);
    } else {
      assert SameMeaning(gs[0], hs[0]);
      ApplyOne(lines, offset, gs);
      ApplyOne(lines, offset, hs);
      var g := gs[0];
      var at := g.oldStart - 1 + offset;
      if Fits(g, lines, at) {
        var before, after := OldText(g.lines), NewText(g.lines);
        OnlyMeaningMatters(Splice(lines, at, at + |before|, after), offset + |after| - |before|, gs[1..], hs[1..]);
      }
    }
  }

  // ----- 64-bit arithmetic

  function Wrap64(n: int): int
  {
    (n + 0x8000_0000_0000_0000) % 0x1_0000_0000_0000_0000 - 0x8000_0000_0000_0000
  }

  /**
   * The position is computed in wrapping 64-bit arithmetic. For any 64-bit start, and files short of
   * 2^62 lines, a wrapped position is accepted exactly when the true one is, and is then the same.
   */
  lemma {:induction false} WrapAroundHarmless(oldStart: int, offset: int, length: nat)
    requires -0x8000_0000_0000_0000 <= oldStart < 0x8000_0000_0000_0000
    requires -0x4000_0000_0000_0000 < offset < 0x4000_0000_0000_0000
    requires length < 0x4000_0000_0000_0000
    ensures var wrapped, exact := Wrap64(Wrap64(oldStart - 1) + offset), oldStart - 1 + offset;
            (0 <= wrapped <= length <==> 0 <= exact <= length) && (0 <= exact <= length ==> wrapped == exact)
  {
    WrapIdentity(oldStart - 1 + offset);
    WrapIdentity(oldStart - 1);
  }

  lemma {:induction false} WrapIdentity(n: int)
    ensures -0x8000_0000_0000_0000 <= n < 0x8000_0000_0000_0000 ==> Wrap64(n) == n
  {
  }
}
