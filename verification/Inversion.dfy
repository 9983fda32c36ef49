/** Turning a patch around: additions become deletions, old positions become new ones. */
module Inversion {
  import opened Text
  import opened Hunks
  import opened EditScripts

  function InvertLine(l: string): string
  {
    if l == "" then l
    else if l[0] == '+' then "-" + l[1..]
    else if l[0] == '-' then "+" + l[1..]
    else l
  }

  function InvertBody(body: seq<string>): seq<string>
  {
    if body == [] then [] else [InvertLine(body[0])] + InvertBody(body[1..])
  }

  function Invert(h: Hunk): Hunk
  {
    Hunk(h.newStart, h.newLines, h.oldStart, h.oldLines, InvertBody(h.lines))
  }

  function InvertAll(hunks: seq<Hunk>): seq<Hunk>
  {
    if hunks == [] then [] else [Invert(hunks[0])] + InvertAll(hunks[1..])
  }

  /** Every new start is the old start plus the growth caused by the hunks before it. */
  predicate Consistent(hunks: seq<Hunk>, offset: int)
  {
    hunks == [] ||
    (hunks[0].newStart == hunks[0].oldStart + offset && Consistent(hunks[1..], offset + Growth(hunks[0])))
  }

  lemma {:induction false} InvertBodySays(body: seq<string>)
    ensures OldText(InvertBody(body)) == NewText(body)
    ensures NewText(InvertBody(body)) == OldText(body)
  {
    if body != [] {
      InvertBodySays(body[1..]);
      assert InvertBody(body)[1..] == InvertBody(body[1..]);
      assert body[0] != "" ==> InvertLine(body[0])[1..] == body[0][1..];
    }
  }

  lemma {:induction false} InvertBodyMarks(body: seq<string>)
    requires WellMarked(body)
    ensures WellMarked(InvertBody(body))
  {
    if body != [] {
      assert WellMarked(body[1..]);
      InvertBodyMarks(body[1..]);
    }
  }

  /**
   * The inverted hunks, applied while everything above `pos` is already back in its old form, restore
   * the rest of the file.
   */
  lemma {:induction false} RestoreFrom(lines: seq<string>, hunks: seq<Hunk>, pos: nat, offset: int)
    requires pos <= |lines| && Ordered(hunks, pos) && AllFit(hunks, lines) && Consistent(hunks, offset)
    ensures ApplyFrom(lines[..pos] + OnePass(lines, hunks, pos), -offset, InvertAll(hunks)) == Ok(lines)
    decreases |hunks|
  {
    hide ApplyFrom, ApplyAt, Check, OldText, NewText, WellMarked, InvertBody, OnePass;
    if hunks == [] {
      OnePassNil(lines, pos);
      assert lines[..pos] + lines[pos..] == lines;
      ApplyNone(lines, -offset);
    } else {
      var h, inverse := hunks[0], InvertAll(hunks);
      var at, next := h.oldStart - 1, h.oldStart - 1 + |OldText(h.lines)|;
      AllFitCons(hunks, lines);
      OnePassCons(lines, hunks, pos);
      var below := OnePass(lines, hunks[1..], next);
      var patched := lines[..pos] + OnePass(lines, hunks, pos);
      assert patched == lines[..at] + NewText(h.lines) + below by {
        assert lines[..pos] + lines[pos..at] == lines[..at];
      }
      TurnedAround(h, lines[..at], below);
      assert lines[..at] + OldText(h.lines) == lines[..next];
      assert inverse[0] == Invert(h) && inverse[1..] == InvertAll(hunks[1..]);
      ApplyOne(patched, -offset, inverse);
      RestoreFrom(lines, hunks[1..], next, offset + Growth(h));
    }
  }

  /** One inverted hunk fits where the hunk has been applied, and takes it back. */
  lemma {:induction false} TurnedAround(h: Hunk, above: seq<string>, below: seq<string>)
    requires WellMarked(h.lines)
    ensures var (patched, inverse) := (above + NewText(h.lines) + below, Invert(h));
            && Fits(inverse, patched, |above|) && Growth(inverse) == -Growth(h)
            && Splice(patched, |above|, |above| + |OldText(inverse.lines)|, NewText(inverse.lines))
            == above + OldText(h.lines) + below
  {
    hide OldText, NewText, WellMarked, InvertBody;
    InvertBodySays(h.lines);
    InvertBodyMarks(h.lines);
    var patched := above + NewText(h.lines) + below;
    assert patched[|above|..|above| + |NewText(h.lines)|] == NewText(h.lines);
  }

  /** Applying the inverse of an ordered, consistently numbered patch to the patched lines gives the old lines. */
  lemma {:induction false} InverseRestoresLines(lines: seq<string>, hunks: seq<Hunk>)
    requires Ordered(hunks, 0) && Consistent(hunks, 0)
    requires ApplyFrom(lines, 0, hunks).Ok?
    ensures ApplyFrom(ApplyFrom(lines, 0, hunks).value, 0, InvertAll(hunks)) == Ok(lines)
  {
    hide ApplyFrom, OnePass;
    SequentialIsSimultaneous(lines, hunks);
    RestoreFrom(lines, hunks, 0, 0);
    assert lines[..0] + OnePass(lines, hunks, 0) == OnePass(lines, hunks, 0);
  }

  // ----- the same for file contents

  /** No hunk line spans several lines of text; what the parser produces is always like this. */
  predicate SingleLines(hunks: seq<Hunk>)
  {
    forall k :: 0 <= k < |hunks| ==> Free(hunks[k].lines, NL)
  }

  lemma {:induction false} NewTextFree(body: seq<string>)
    requires Free(body, NL)
    ensures Free(NewText(body), NL)
  {
    if body != [] {
      NewTextFree(body[1..]);
    }
  }

  lemma {:induction false} PatchedLinesFree(lines: seq<string>, offset: int, hunks: seq<Hunk>)
    requires Free(lines, NL) && SingleLines(hunks) && ApplyFrom(lines, offset, hunks).Ok?
    ensures Free(ApplyFrom(lines, offset, hunks).value, NL)
    decreases |hunks|
  {
    hide ApplyFrom, ApplyAt, Check, OldText, NewText, WellMarked;
    if hunks == [] {
      ApplyNone(lines, offset);
    } else {
      var h := hunks[0];
      var at := h.oldStart - 1 + offset;
      ApplyOne(lines, offset, hunks);
      assert Free(h.lines, NL);
      NewTextFree(h.lines);
      PatchedLinesFree(Splice(lines, at, at + |OldText(h.lines)|, NewText(h.lines)), offset + Growth(h), hunks[1..]);
    }
  }

  /**
   * For file contents the inverse patch always succeeds. It gives the old content back, byte for byte,
   * exactly when that content ended in a newline and the patch left at least one line: a file left with
   * no lines is written as a single newline, which reads back as one empty line.
   */
  lemma {:induction false} InverseRestoresContent(content: string, hunks: seq<Hunk>)
    requires Ordered(hunks, 0) && Consistent(hunks, 0) && SingleLines(hunks)
    requires ApplyText(content, hunks).Ok?
    ensures var patched := ApplyText(content, hunks).value;
            var restored := ApplyText(patched, InvertAll(hunks));
            && restored.Ok?
            && (restored.value == content <==>
                content != "" && content[|content| - 1] == NL && ApplyFrom(Lines(content), 0, hunks).value != [])
  {
    hide ApplyFrom, Split, Join, Free, InvertAll, Ordered, Consistent;
    var lines := Lines(content);
    var patched := ApplyFrom(lines, 0, hunks).value;
    LinesAreFree(content);
    PatchedLinesFree(lines, 0, hunks);
    LinesRender(patched);
    InverseRestoresLines(lines, hunks);
    RenderLines(content);
    if patched == [] {
      TailCarried(patched, [""], 0, InvertAll(hunks));
      assert patched + [""] == [""];
      EmptiedFileComesBackLonger(content);
    }
  }

  lemma {:induction false} EmptiedFileComesBackLonger(content: string)
    ensures Render(Lines(content) + [""]) != content
  {
    var lines := Lines(content);
    LinesAreFree(content);
    LinesRender(lines + [""]);
  }

  // ----- hunks cut from an edit script can always be turned around

  lemma {:induction false} CutIsOrdered(pieces: seq<Piece>, oldPos: nat, newPos: nat)
    ensures Ordered(HunksOf(pieces, oldPos, newPos), oldPos)
    ensures Consistent(HunksOf(pieces, oldPos, newPos), newPos - oldPos)
    decreases |pieces|
  {
    hide Source, Target, Script, Edits, Body, HunksOf, OldText, NewText, WellMarked;
    CutUnfolds(pieces, oldPos, newPos);
    if pieces != [] {
      var edits := Edits(pieces[0]);
      var hunks, more := HunksOf(pieces, oldPos, newPos),
                         HunksOf(pieces[1..], oldPos + |Source(edits)|, newPos + |Target(edits)|);
      CutIsOrdered(pieces[1..], oldPos + |Source(edits)|, newPos + |Target(edits)|);
      if pieces[0].Gap? {
        LaterIsOrdered(more, oldPos + |Source(edits)|, oldPos);
      } else {
        BodySays(edits);
      }
    }
  }

  lemma {:induction false} LaterIsOrdered(hunks: seq<Hunk>, from: int, earlier: int)
    requires Ordered(hunks, from) && earlier <= from
    ensures Ordered(hunks, earlier)
  {
  }

  /** Patching any file by any cut of any edit script and then by the inverted hunks gives the old lines back. */
  lemma {:induction false} AnyCutCanBeUndone(lines: seq<string>, pieces: seq<Piece>)
    requires Source(Script(pieces)) == lines
    ensures ApplyFrom(Target(Script(pieces)), 0, InvertAll(HunksOf(pieces, 0, 0))) == Ok(lines)
  {
    hide ApplyFrom, Ordered, Consistent, HunksOf, InvertAll, Script;
    CutIsOrdered(pieces, 0, 0);
    CutApplies([], pieces, 0, 0);
    assert [] + lines == lines && [] + Target(Script(pieces)) == Target(Script(pieces));
    InverseRestoresLines(lines, HunksOf(pieces, 0, 0));
  }
}
