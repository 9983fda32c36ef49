/** From edit scripts to files on disk: print, parse, apply, write. */
module EndToEnd {
  import opened Text
  import opened Decimal
  import opened Hunks
  import opened EditScripts
  import opened PatchParser
  import opened Bookkeeping
  import opened PatchLaws
  import opened Undo

  /** A file to change and the way its edit script is cut into hunks. */
  datatype Change = Change(name: string, pieces: seq<Piece>)

  function EntriesOf(changes: seq<Change>): seq<Entry>
  {
    seq(|changes|, k requires 0 <= k < |changes| =>
      Entry(changes[k].name, HunksOf(changes[k].pieces, 0, 0)))
  }

  // ----- printable scripts

  /** An added line must stay one line and must not make its hunk line read as a file header. */
  predicate Addable(edit: Edit)
  {
    edit.Insert? ==> NL !in edit.line && !HasPrefix(edit.line, "++ b/")
  }

  predicate PrintableScript(script: seq<Edit>)
  {
    && (forall k :: 0 <= k < |script| ==> Addable(script[k]))
    && |Source(script)| < MAX_INT64 && |Target(script)| < MAX_INT64
  }

  lemma {:induction false} BodyPlain(edits: seq<Edit>)
    requires Free(Source(edits), NL) && forall k :: 0 <= k < |edits| ==> Addable(edits[k])
    ensures forall k :: 0 <= k < |Body(edits)| ==> Plain(Body(edits)[k])
  {
    if edits != [] {
      var e, l := edits[0], BodyLine(edits[0]);
      var head := if e.Insert? then [] else [e.line];
      assert Source(edits) == head + Source(edits[1..]);
      assert Free(Source(edits[1..]), NL) by {
        assert forall k :: 0 <= k < |Source(edits[1..])| ==> Source(edits[1..])[k] == Source(edits)[|head| + k];
      }
      assert NL !in e.line by {
        assert !e.Insert? ==> Source(edits)[0] == e.line;
        assert Addable(e);
      }
      assert l[0] in " -+" && l[1..] == e.line;
      assert HasPrefix(l, FILE_MARK) ==> HasPrefix(l[1..], "++ b/");
      assert Plain(l);
      BodyPlain(edits[1..]);
    }
  }

  lemma {:induction false} HunksPrintable(pieces: seq<Piece>, oldPos: nat, newPos: nat)
    requires forall k :: 0 <= k < |Script(pieces)| ==> Addable(Script(pieces)[k])
    requires Free(Source(Script(pieces)), NL)
    requires oldPos + |Source(Script(pieces))| < MAX_INT64 && newPos + |Target(Script(pieces))| < MAX_INT64
    ensures forall k :: 0 <= k < |HunksOf(pieces, oldPos, newPos)| ==> PrintableHunk(HunksOf(pieces, oldPos, newPos)[k])
    decreases |pieces|
  {
    hide Source, Target, Edits, Body, HunksOf, Plain, Addable;
    CutUnfolds(pieces, oldPos, newPos);
    if pieces != [] {
      var edits, rest := Edits(pieces[0]), Script(pieces[1..]);
      var hunks := HunksOf(pieces, oldPos, newPos);
      assert Script(pieces) == edits + rest;
      assert forall k :: 0 <= k < |rest| ==> rest[k] == Script(pieces)[|edits| + k];
      assert forall k :: 0 <= k < |edits| ==> edits[k] == Script(pieces)[k];
      FreeParts(Source(edits), Source(rest));
      HunksPrintable(pieces[1..], oldPos + |Source(edits)|, newPos + |Target(edits)|);
      if pieces[0].Change? {
        BodyPlain(edits);
        assert PrintableHunk(hunks[0]);
        assert hunks == [hunks[0]] + hunks[1..];
      }
    }
  }

  lemma {:induction false} FreeParts(a: seq<string>, b: seq<string>)
    requires Free(a + b, NL)
    ensures Free(a, NL) && Free(b, NL)
  {
    assert forall k :: 0 <= k < |a| ==> a[k] == (a + b)[k];
    assert forall k :: 0 <= k < |b| ==> b[k] == (a + b)[|a| + k];
  }

  lemma {:induction false} GatherDistinct(entries: seq<Entry>, k: nat)
    requires k < |entries|
    requires forall i, j :: 0 <= i < j < |entries| ==> entries[i].name != entries[j].name
    ensures Gather(entries, entries[k].name) == entries[k].hunks
  {
    if k == 0 {
      GatherNone(entries[1..], entries[0].name);
    } else {
      assert entries[0].name != entries[k].name;
      GatherDistinct(entries[1..], k - 1);
    }
  }

  // ----- the whole way

  /** The changes fit the disk: each names a readable file, and starts from exactly the lines that file has. */
  predicate FitsDisk(at: Resolver, disk: Files, changes: seq<Change>)
  {
    && (forall k :: 0 <= k < |changes| ==>
          && GoodName(changes[k].name) && at(changes[k].name) in disk
          && PrintableScript(Script(changes[k].pieces))
          && Source(Script(changes[k].pieces)) == Lines(disk[at(changes[k].name)]))
    && (forall i, j :: 0 <= i < j < |changes| ==>
          changes[i].name != changes[j].name && at(changes[i].name) != at(changes[j].name))
  }

  lemma {:induction false} ChangesPrintable(at: Resolver, disk: Files, changes: seq<Change>)
    requires FitsDisk(at, disk, changes)
    ensures forall k :: 0 <= k < |changes| ==> Printable(EntriesOf(changes)[k])
  {
    hide HunksOf, Source, Target, Script, Lines, PrintableHunk, GoodName;
    forall k | 0 <= k < |changes| ensures Printable(EntriesOf(changes)[k]) {
      LinesAreFree(disk[at(changes[k].name)]);
      HunksPrintable(changes[k].pieces, 0, 0);
    }
  }

  /** What the printed diff holds for each changed file, with or without a blank line at its very end. */
  ghost predicate HoldsChanges(patch: Patch, changes: seq<Change>)
  {
    && |patch.files| == |changes|
    && (forall k :: 0 <= k < |changes| ==>
          && patch.files[k] == changes[k].name
          && SameHunks(HunksFor(patch.hunks, changes[k].name), HunksOf(changes[k].pieces, 0, 0)))
  }

  predicate SameHunks(gs: seq<Hunk>, hs: seq<Hunk>)
  {
    |gs| == |hs| && forall k :: 0 <= k < |gs| ==> SameMeaning(gs[k], hs[k])
  }

  /** The printed diff, with or without a final newline. */
  function DiffText(changes: seq<Change>, finalNewline: bool): string
  {
    Print(EntriesOf(changes)) + if finalNewline then [NL] else []
  }

  lemma {:induction false} BlankChangesNothing(h: Hunk)
    ensures SameMeaning(h.(lines := h.lines + [""]), h)
  {
    TextConcat(h.lines, [""]);
    MarkedConcat(h.lines, [""]);
    assert OldText([""]) == NewText([""]) == [];
  }

  /** The entries a printed diff is read back as: a final newline leaves a blank line in the last hunk. */
  function ReadBack(changes: seq<Change>, finalNewline: bool): seq<Entry>
    requires Ends(changes, finalNewline)
  {
    if finalNewline then Extend(EntriesOf(changes), [""]) else EntriesOf(changes)
  }

  /** A diff printed with a final newline ends in a hunk. */
  predicate Ends(changes: seq<Change>, finalNewline: bool)
  {
    changes != [] && (finalNewline ==> HunksOf(changes[|changes| - 1].pieces, 0, 0) != [])
  }

  lemma {:induction false} DiffTextReads(at: Resolver, disk: Files, changes: seq<Change>, finalNewline: bool)
    requires Ends(changes, finalNewline) && FitsDisk(at, disk, changes)
    ensures Parse(DiffText(changes, finalNewline)).Ok?
    ensures Holds(Parse(DiffText(changes, finalNewline)).value, ReadBack(changes, finalNewline))
  {
    hide Parse, Printable, HunksOf, PrintEntries, Gather, Join, FitsDisk, Extend;
    var entries := EntriesOf(changes);
    ChangesPrintable(at, disk, changes);
    if finalNewline {
      EntriesHaveLines(entries);
      JoinEmptyLast(PrintEntries(entries), NL);
      PrintNothing();
      assert PrintEntries(entries) + [""] + PrintEntries([]) == PrintEntries(entries) + [""];
      TextAfterHunkIsSwallowed(entries, [""], []);
      assert Extend(entries, [""]) + [] == Extend(entries, [""]);
    } else {
      ParsePrint(entries);
      assert Print(entries) + [] == Print(entries);
    }
  }

  lemma {:induction false} ReadBackMeans(changes: seq<Change>, finalNewline: bool, k: nat)
    requires Ends(changes, finalNewline) && k < |changes|
    requires forall i, j :: 0 <= i < j < |changes| ==> changes[i].name != changes[j].name
    ensures var read := ReadBack(changes, finalNewline);
            && |read| == |changes| && read[k].name == changes[k].name
            && SameHunks(Gather(read, changes[k].name), HunksOf(changes[k].pieces, 0, 0))
  {
    hide HunksOf, SameMeaning, Gather;
    var read, hunks := ReadBack(changes, finalNewline), HunksOf(changes[k].pieces, 0, 0);
    assert forall i :: 0 <= i < |changes| ==> read[i].name == changes[i].name;
    GatherDistinct(read, k);
    forall i | 0 <= i < |hunks| ensures SameMeaning(read[k].hunks[i], hunks[i]) {
      if read[k].hunks[i] != hunks[i] {
        BlankChangesNothing(hunks[i]);
      } else {
        SelfMeaning(hunks[i]);
      }
    }
  }

  lemma {:induction false} DiffTextParses(at: Resolver, disk: Files, changes: seq<Change>, finalNewline: bool)
    requires Ends(changes, finalNewline) && FitsDisk(at, disk, changes)
    ensures Parse(DiffText(changes, finalNewline)).Ok?
    ensures HoldsChanges(Parse(DiffText(changes, finalNewline)).value, changes)
  {
    hide Parse, DiffText, ReadBack, HunksOf, SameHunks, Gather, FitsDisk, HunksFor;
    DiffTextReads(at, disk, changes, finalNewline);
    NamesDistinct(at, disk, changes);
    ReadBackMeans(changes, finalNewline, 0);
    forall k | 0 <= k < |changes|
      ensures ReadBack(changes, finalNewline)[k].name == changes[k].name
      ensures SameHunks(Gather(ReadBack(changes, finalNewline), changes[k].name), HunksOf(changes[k].pieces, 0, 0))
    {
      ReadBackMeans(changes, finalNewline, k);
    }
  }

  lemma {:induction false} SelfMeaning(h: Hunk)
    ensures SameMeaning(h, h)
  {
  }

  lemma {:induction false} PrintNothing()
    ensures PrintEntries([]) == []
  {
  }

  lemma {:induction false} NamesDistinct(at: Resolver, disk: Files, changes: seq<Change>)
    requires FitsDisk(at, disk, changes)
    ensures forall i, j :: 0 <= i < j < |changes| ==> changes[i].name != changes[j].name
  {
  }

  /**
   * The whole way: edit scripts for any number of files, cut into hunks in any way and printed as a diff,
   * are carried out by one Apply. If every read and write goes through, each file ends up with exactly
   * the lines its script produces, and every other file is as it was.
   */
  lemma {:induction false} ScriptsAreCarriedOut(at: Resolver, s: State, changes: seq<Change>, finalNewline: bool,
                                                env: Env)
    requires Ends(changes, finalNewline) && FitsDisk(at, s.disk, changes)
    requires forall k :: 0 <= k < |changes| ==> env.readOk(k) && env.writeOk(k)
    ensures var (after, r) := ApplyTo(at, s, DiffText(changes, finalNewline), env);
            && r.Ok? && after.disk.Keys == s.disk.Keys
            && (forall k :: 0 <= k < |changes| ==>
                  after.disk[at(changes[k].name)] == Render(Target(Script(changes[k].pieces))))
            && (forall p :: p in s.disk && (forall k :: 0 <= k < |changes| ==> at(changes[k].name) != p) ==>
                  after.disk[p] == s.disk[p])
  {
    var diff := DiffText(changes, finalNewline);
    hide ApplyTo, DiffText, Parse, Target, Script, Render, PrintableScript, Ends, GoodName, Outcome, Lines, Source;
    ScriptTargets(at, s.disk, changes, finalNewline);
    var patch := Parse(diff).value;
    forall k | 0 <= k < |changes| ensures TargetOf(at, s.disk, patch, patch.files[k], env.readOk(k)).Ok? {
      OutcomeIs(at, s.disk, patch, patch.files[k]);
    }
    ApplySucceedsExactly(at, s, diff, env);
    ApplyWritesTargets(at, s, diff, env);
    assert NoAlias(at, patch.files);
  }

  lemma {:induction false} ScriptTargets(at: Resolver, disk: Files, changes: seq<Change>, finalNewline: bool)
    requires Ends(changes, finalNewline) && FitsDisk(at, disk, changes)
    ensures Parse(DiffText(changes, finalNewline)).Ok?
    ensures var patch := Parse(DiffText(changes, finalNewline)).value;
            && |patch.files| == |changes|
            && forall k :: 0 <= k < |changes| ==>
                 && patch.files[k] == changes[k].name && at(changes[k].name) in disk
                 && Outcome(at, disk, patch, patch.files[k]) == Ok(Render(Target(Script(changes[k].pieces))))
  {
    hide DiffText, Parse, HunksOf, Source, Target, Script, Render, ApplyText, Lines, PrintableScript, Ends,
         SameHunks, HunksFor, GoodName;
    DiffTextParses(at, disk, changes, finalNewline);
    var patch := Parse(DiffText(changes, finalNewline)).value;
    forall k | 0 <= k < |changes|
      ensures Outcome(at, disk, patch, patch.files[k]) == Ok(Render(Target(Script(changes[k].pieces))))
    {
      TargetIsScripts(disk[at(changes[k].name)], changes[k].pieces, HunksFor(patch.hunks, changes[k].name));
    }
  }

  /**
   * Carrying out printed scripts is atomic, in that no failing write ever leaves the disk changed, exactly
   * when every script but the last leaves its file as it is.
   */
  lemma {:induction false} ScriptsAtomicExactly(at: Resolver, s: State, changes: seq<Change>, finalNewline: bool,
                                                readOk: nat -> bool)
    requires Ends(changes, finalNewline) && FitsDisk(at, s.disk, changes)
    requires forall k :: 0 <= k < |changes| ==> readOk(k)
    ensures forall k :: 0 <= k < |changes| ==> at(changes[k].name) in s.disk
    ensures (forall writeOk: nat -> bool ::
               var (after, r) := ApplyTo(at, s, DiffText(changes, finalNewline), Env(readOk, writeOk));
               r.Err? ==> after.disk == s.disk)
            <==>
            forall k :: 0 <= k < |changes| - 1 ==>
              Render(Target(Script(changes[k].pieces))) == s.disk[at(changes[k].name)]
  {
    var diff := DiffText(changes, finalNewline);
    hide ApplyTo, DiffText, Parse, Target, Script, Render, Ends, FitsDisk, Outcome;
    ScriptTargets(at, s.disk, changes, finalNewline);
    var patch := Parse(diff).value;
    forall k | 0 <= k < |changes| ensures TargetOf(at, s.disk, patch, patch.files[k], true).Ok? {
      assert Outcome(at, s.disk, patch, patch.files[k]).Ok?;
      OutcomeIs(at, s.disk, patch, patch.files[k]);
    }
    AtomicExactly(at, s, diff, readOk);
  }

  lemma {:induction false} OutcomeIs(at: Resolver, disk: Files, patch: Patch, file: string)
    ensures Outcome(at, disk, patch, file) == TargetOf(at, disk, patch, file, true)
  {
  }

  lemma {:induction false} TargetIsScripts(content: string, pieces: seq<Piece>, hunks: seq<Hunk>)
    requires Source(Script(pieces)) == Lines(content) && SameHunks(hunks, HunksOf(pieces, 0, 0))
    ensures ApplyText(content, hunks) == Ok(Render(Target(Script(pieces))))
  {
    hide ApplyFrom, HunksOf, SameMeaning, Source, Script;
    AnyCutOfAnyScriptApplies(content, pieces);
    OnlyMeaningMatters(Lines(content), 0, hunks, HunksOf(pieces, 0, 0));
  }

  /**
   * And Diff shows what was done: with a new ledger, once printed scripts have been carried out, its text is
   * that of the changes from the old contents to the scripts' results, file by file in order.
   */
  lemma {:induction false} DiffShowsScripts(at: Resolver, s: State, changes: seq<Change>, finalNewline: bool, env: Env,
                                            ok: nat -> bool, unified: Differ, text: string)
    requires Ends(changes, finalNewline) && FitsDisk(at, s.disk, changes) && s.originals == map[]
    requires forall k :: 0 <= k < |changes| ==> env.readOk(k) && env.writeOk(k)
    ensures forall k :: 0 <= k < |changes| ==> at(changes[k].name) in s.disk
    ensures var t := ApplyTo(at, s, DiffText(changes, finalNewline), env).0;
            && Covers(t.originals, t.lastFiles)
            && (AllDiffs(at, t, t.lastFiles, ok, unified) == Ok(text) <==>
                exists parts: seq<string> ::
                  && |parts| == |changes| && Concat(parts) == text
                  && forall k :: 0 <= k < |changes| ==>
                       ok(k) && unified(changes[k].name, s.disk[at(changes[k].name)],
                                        Render(Target(Script(changes[k].pieces)))) == Ok(parts[k]))
  {
    var diff := DiffText(changes, finalNewline);
    hide ApplyTo, DiffText, Parse, Target, Script, Render, Ends, Outcome, AllDiffs, Concat, Lines, Source,
         PrintableScript, GoodName;
    ScriptTargets(at, s.disk, changes, finalNewline);
    ScriptsAreCarriedOut(at, s, changes, finalNewline, env);
    ApplyWritesTargets(at, s, diff, env);
    var t, patch := ApplyTo(at, s, diff, env).0, Parse(diff).value;
    forall k | 0 <= k < |changes|
      ensures t.lastFiles[k] == changes[k].name && changes[k].name in t.originals
      ensures t.originals[changes[k].name] == s.disk[at(changes[k].name)]
    {
      assert patch.files[k] in patch.files;
      ApplyRecords(at, s, diff, env, changes[k].name);
    }
    DiffShows(at, t, t.lastFiles, ok, unified, text);
    forall parts: seq<string>
      ensures DiffParts(at, t, t.lastFiles, ok, unified, parts) <==>
              && |parts| == |changes|
              && forall k :: 0 <= k < |changes| ==>
                   ok(k) && unified(changes[k].name, s.disk[at(changes[k].name)],
                                    Render(Target(Script(changes[k].pieces)))) == Ok(parts[k])
    {
    }
  }
}
