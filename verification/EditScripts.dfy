/** Edit scripts, the ways of cutting them into hunks, and what applying such hunks does. */
module EditScripts {
  import opened Text
  import opened Hunks

  datatype Edit = Keep(line: string) | Delete(line: string) | Insert(line: string)

  /** The file an edit script starts from. */
  function Source(script: seq<Edit>): seq<string>
  {
    if script == [] then []
    else (if script[0].Insert? then [] else [script[0].line]) + Source(script[1..])
  }

  /** The file an edit script produces. */
  function Target(script: seq<Edit>): seq<string>
  {
    if script == [] then []
    else (if script[0].Delete? then [] else [script[0].line]) + Target(script[1..])
  }

  /** A script cut up: runs of kept lines that no hunk mentions, and runs of edits that become hunks. */
  datatype Piece = Gap(kept: seq<string>) | Change(edits: seq<Edit>)

  function Edits(piece: Piece): seq<Edit>
  {
    match piece
    case Gap(kept) => seq(|kept|, i requires 0 <= i < |kept| => Keep(kept[i]))
    case Change(edits) => edits
  }

  /** The script that a list of pieces is a cut of. */
  function Script(pieces: seq<Piece>): seq<Edit>
  {
    if pieces == [] then [] else Edits(pieces[0]) + Script(pieces[1..])
  }

  function BodyLine(edit: Edit): string
  {
    match edit
    case Keep(line) => " " + line
    case Delete(line) => "-" + line
    case Insert(line) => "+" + line
  }

  function Body(edits: seq<Edit>): seq<string>
  {
    if edits == [] then [] else [BodyLine(edits[0])] + Body(edits[1..])
  }

  /** The hunks of a cut that starts after `oldPos` lines of the old file and `newPos` lines of the new one. */
  function HunksOf(pieces: seq<Piece>, oldPos: nat, newPos: nat): seq<Hunk>
    decreases |pieces|
  {
    if pieces == [] then []
    else
      var before, after := Source(Edits(pieces[0])), Target(Edits(pieces[0]));
      (match pieces[0]
       case Gap(_) => []
       case Change(edits) => [Hunk(oldPos + 1, |before|, newPos + 1, |after|, Body(edits))])
      + HunksOf(pieces[1..], oldPos + |before|, newPos + |after|)
  }

  // ----- reading a body gives the script back

  lemma {:induction false} BodySays(edits: seq<Edit>)
    ensures WellMarked(Body(edits))
    ensures OldText(Body(edits)) == Source(edits)
    ensures NewText(Body(edits)) == Target(edits)
  {
    if edits != [] {
      BodySays(edits[1..]);
      var l := BodyLine(edits[0]);
      assert l[1..] == edits[0].line;
      assert Body(edits)[1..] == Body(edits[1..]);
    }
  }

  lemma {:induction false} SourceConcat(a: seq<Edit>, b: seq<Edit>)
    ensures Source(a + b) == Source(a) + Source(b)
  {
    if a == [] {
      assert a + b == b;
    } else {
      assert (a + b)[1..] == a[1..] + b;
      SourceConcat(a[1..], b);
    }
  }

  lemma {:induction false} TargetConcat(a: seq<Edit>, b: seq<Edit>)
    ensures Target(a + b) == Target(a) + Target(b)
  {
    if a == [] {
      assert a + b == b;
    } else {
      assert (a + b)[1..] == a[1..] + b;
      TargetConcat(a[1..], b);
    }
  }

  lemma {:induction false} GapIsKept(kept: seq<string>)
    ensures Source(Edits(Gap(kept))) == kept == Target(Edits(Gap(kept)))
  {
    if kept != [] {
      GapIsKept(kept[1..]);
      assert Edits(Gap(kept))[1..] == Edits(Gap(kept[1..]));
    }
  }

  // ----- completeness

  lemma {:induction false} CutApplies(done: seq<string>, pieces: seq<Piece>, oldPos: nat, newPos: nat)
    ensures ApplyFrom(done + Source(Script(pieces)), |done| - oldPos, HunksOf(pieces, oldPos, newPos))
         == Ok(done + Target(Script(pieces)))
    decreases |pieces|
  {
    hide ApplyFrom, ApplyAt, Check, Source, Target, Script, Edits, Body, HunksOf, OldText, NewText, WellMarked;
    CutUnfolds(pieces, oldPos, newPos);
    if pieces == [] {
      ApplyNone(done, |done| - oldPos);
      assert done + [] == done;
    } else {
      var edits, rest := Edits(pieces[0]), Script(pieces[1..]);
      var before, after := Source(edits), Target(edits);
      CutApplies(done + after, pieces[1..], oldPos + |before|, newPos + |after|);
      if pieces[0].Change? {
        BodySays(edits);
        HunkInPlace(done, before, Source(rest), after, HunksOf(pieces, oldPos, newPos), |done| - oldPos);
      }
      assert done + before + Source(rest) == done + Source(Script(pieces));
      assert done + after + Target(rest) == done + Target(Script(pieces));
    }
  }

  lemma {:induction false} NothingToEdit()
    ensures Source([]) == Target([]) == []
  {
  }

  /** The first piece of a cut, split off. */
  lemma {:induction false} CutUnfolds(pieces: seq<Piece>, oldPos: nat, newPos: nat)
    ensures pieces == [] ==>
              Source(Script(pieces)) == Target(Script(pieces)) == [] && HunksOf(pieces, oldPos, newPos) == []
    ensures pieces != [] ==>
              var edits, rest := Edits(pieces[0]), Script(pieces[1..]);
              var before, after, hunks := Source(edits), Target(edits), HunksOf(pieces, oldPos, newPos);
              var more := HunksOf(pieces[1..], oldPos + |before|, newPos + |after|);
              && Source(Script(pieces)) == before + Source(rest)
              && Target(Script(pieces)) == after + Target(rest)
              && (pieces[0].Gap? ==> before == after == pieces[0].kept && hunks == more)
              && (pieces[0].Change? ==>
                  && hunks != [] && hunks[1..] == more
                  && hunks[0] == Hunk(oldPos + 1, |before|, newPos + 1, |after|, Body(edits)))
  {
    hide Source, Target, Body;
    NothingToEdit();
    if pieces != [] {
      SourceConcat(Edits(pieces[0]), Script(pieces[1..]));
      TargetConcat(Edits(pieces[0]), Script(pieces[1..]));
      if pieces[0].Gap? {
        GapIsKept(pieces[0].kept);
      }
    }
  }

  /** A hunk whose old text stands right after `done` replaces it by its new text. */
  lemma {:induction false} HunkInPlace(done: seq<string>, before: seq<string>, rest: seq<string>, after: seq<string>,
                    hunks: seq<Hunk>, offset: int)
    requires hunks != [] && hunks[0].oldStart - 1 + offset == |done|
    requires WellMarked(hunks[0].lines) && OldText(hunks[0].lines) == before && NewText(hunks[0].lines) == after
    ensures ApplyFrom(done + before + rest, offset, hunks)
         == ApplyFrom(done + after + rest, offset + |after| - |before|, hunks[1..])
  {
    var lines := done + before + rest;
    hide ApplyFrom, ApplyAt, Check, OldText, NewText;
    assert lines[|done|..|done| + |before|] == before;
    ApplyOne(lines, offset, hunks);
    assert Splice(lines, |done|, |done| + |before|, after) == done + after + rest;
  }

  /**
   * Any edit script over any file, cut into hunks in any way and with any amount of kept context:
   * the hunks are accepted and produce exactly the script's target, with a final newline.
   */
  lemma {:induction false} AnyCutOfAnyScriptApplies(content: string, pieces: seq<Piece>)
    requires Source(Script(pieces)) == Lines(content)
    ensures ApplyText(content, HunksOf(pieces, 0, 0)) == Ok(Render(Target(Script(pieces))))
  {
    CutApplies([], pieces, 0, 0);
    assert [] + Lines(content) == Lines(content);
    assert [] + Target(Script(pieces)) == Target(Script(pieces));
  }

  /**
   * A hunk that mentions every line of the file it was made for is accepted by exactly those files that
   * begin with all of its lines; whatever they have below is kept.
   */
  lemma {:induction false} WholeFileCutRefusesOtherFiles(content: string, edits: seq<Edit>)
    ensures ApplyText(content, HunksOf([Change(edits)], 0, 0)).Ok? <==> Source(edits) <= Lines(content)
    ensures Source(edits) <= Lines(content) ==>
              ApplyText(content, HunksOf([Change(edits)], 0, 0)) ==
              Ok(Render(Target(edits) + Lines(content)[|Source(edits)|..]))
  {
    hide ApplyFrom, ApplyAt, Check, Lines, HunksOf, Source, Target, Body, OldText, NewText, WellMarked, Script;
    var lines, hunks, n := Lines(content), HunksOf([Change(edits)], 0, 0), |Source(edits)|;
    CutUnfolds([Change(edits)], 0, 0);
    assert [Change(edits)][1..] == [];
    CutUnfolds([], n, |Target(edits)|);
    BodySays(edits);
    assert n <= |lines| ==> lines[0..n] == lines[..n];
    ApplyOne(lines, 0, hunks);
    if Source(edits) <= lines {
      assert Splice(lines, 0, n, Target(edits)) == Target(edits) + lines[n..];
      ApplyNone(Splice(lines, 0, n, Target(edits)), |Target(edits)| - n);
    }
  }

  // ----- the numbering of pure insertions

  /** A hunk inserting `added` after the first `k` lines, numbered as the POSIX diff utility does: line k. */
  function PosixInsertion(k: nat, added: seq<string>): Hunk
  {
    Hunk(k, 0, k + 1, |added|, Body(seq(|added|, i requires 0 <= i < |added| => Insert(added[i]))))
  }

  /**
   * The engine inserts BEFORE the line a hunk names, so an insertion numbered the POSIX way lands one
   * line too high. It gives the intended file exactly when there is a line above the insertion and
   * every inserted line repeats it.
   */
  lemma {:induction false} PosixInsertionLandsRight(lines: seq<string>, k: nat, added: seq<string>)
    requires k <= |lines| && added != []
    ensures ApplyFrom(lines, 0, [PosixInsertion(k, added)]) == Ok(lines[..k] + added + lines[k..])
            <==> k > 0 && forall i :: 0 <= i < |added| ==> added[i] == lines[k - 1]
  {
    hide ApplyFrom, PosixInsertion;
    PosixInsertionLands(lines, k, added);
    if k > 0 {
      OneLineUp(lines[..k - 1], lines[k - 1], added, lines[k..]);
      assert lines[k - 1..] == [lines[k - 1]] + lines[k..];
      assert lines[..k] == lines[..k - 1] + [lines[k - 1]];
    }
  }

  lemma {:induction false} OneLineUp(above: seq<string>, line: string, added: seq<string>, below: seq<string>)
    requires added != []
    ensures above + added + ([line] + below) == above + [line] + added + below
            <==> forall i :: 0 <= i < |added| ==> added[i] == line
  {
    var got, want := above + added + ([line] + below), above + [line] + added + below;
    if forall i :: 0 <= i < |added| ==> added[i] == line {
      assert got == want;
    } else {
      FirstOther(added, line);
      var i :| 0 <= i < |added| && added[i] != line && (i == 0 || added[i - 1] == line);
      assert got[|above| + i] == added[i];
      assert want[|above| + i] == line;
    }
  }

  /** Where it really lands: above line k, or nowhere. */
  lemma {:induction false} PosixInsertionLands(lines: seq<string>, k: nat, added: seq<string>)
    requires k <= |lines|
    ensures k > 0 ==> ApplyFrom(lines, 0, [PosixInsertion(k, added)]) == Ok(lines[..k - 1] + added + lines[k - 1..])
    ensures k == 0 ==> ApplyFrom(lines, 0, [PosixInsertion(k, added)]).Err?
  {
    hide ApplyFrom, OldText, NewText, WellMarked, PosixInsertion;
    var h := PosixInsertion(k, added);
    PosixSays(k, added);
    assert [h][1..] == [];
    ApplyOne(lines, 0, [h]);
    if k > 0 {
      assert lines[k - 1..k - 1] == [];
      ApplyNone(lines[..k - 1] + added + lines[k - 1..], |added|);
    }
  }

  lemma {:induction false} PosixSays(k: nat, added: seq<string>)
    ensures var h := PosixInsertion(k, added);
            h.oldStart == k && WellMarked(h.lines) && OldText(h.lines) == [] && NewText(h.lines) == added
  {
    hide Source, Target, Body, OldText, NewText, WellMarked;
    BodySays(seq(|added|, i requires 0 <= i < |added| => Insert(added[i])));
    InsertsOnly(added);
  }

  lemma {:induction false} FirstOther(added: seq<string>, line: string)
    requires exists i :: 0 <= i < |added| && added[i] != line
    ensures exists i :: 0 <= i < |added| && added[i] != line && (i == 0 || added[i - 1] == line)
    decreases |added|
  {
    var i :| 0 <= i < |added| && added[i] != line;
    if i > 0 && added[i - 1] != line {
      FirstOther(added[..i], line);
    }
  }

  lemma {:induction false} InsertsOnly(added: seq<string>)
    ensures var inserts := seq(|added|, i requires 0 <= i < |added| => Insert(added[i]));
            Source(inserts) == [] && Target(inserts) == added
  {
    if added != [] {
      InsertsOnly(added[1..]);
      var inserts := seq(|added|, i requires 0 <= i < |added| => Insert(added[i]));
      assert inserts[1..] == seq(|added[1..]|, i requires 0 <= i < |added[1..]| => Insert(added[1..][i]));
    }
  }
}
