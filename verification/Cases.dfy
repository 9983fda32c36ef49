/** Inputs on which the engine does not do what its documentation says, found among one-line files. */
module Cases {
  import opened Text
  import opened Hunks
  import opened EditScripts
  import opened PatchParser
  import opened Bookkeeping
  import opened PatchLaws
  import opened Undo
  import opened EndToEnd

  /** The change of a file's one line. */
  function OneLine(name: string, before: string, after: string): Change
  {
    Change.Change(name, [Piece.Change([Delete(before), Insert(after)])])
  }

  function Holding(line: string): string
  {
    Render([line])
  }

  /** A line that a patch can add. */
  predicate Simple(line: string)
  {
    NL !in line && !HasPrefix(line, "++ b/")
  }

  lemma {:induction false} OneLineSays(before: string, after: string)
    ensures var pieces := OneLine("", before, after).pieces;
            && Script(pieces) == [Delete(before), Insert(after)]
            && Source(Script(pieces)) == [before] && Target(Script(pieces)) == [after]
            && HunksOf(pieces, 0, 0) != []
  {
    var script := [Delete(before), Insert(after)];
    var pieces := OneLine("", before, after).pieces;
    assert pieces[1..] == [] && script == [Delete(before)] + [Insert(after)];
    assert Script(pieces) == script + [] == script;
    SourceConcat([Delete(before)], [Insert(after)]);
    TargetConcat([Delete(before)], [Insert(after)]);
    OneEdit(Delete(before));
    OneEdit(Insert(after));
  }

  lemma {:induction false} OneEdit(edit: Edit)
    ensures Source([edit]) == if edit.Insert? then [] else [edit.line]
    ensures Target([edit]) == if edit.Delete? then [] else [edit.line]
  {
    assert [edit][1..] == [];
  }

  lemma {:induction false} OneLineFits(at: Resolver, disk: Files, name: string, before: string, after: string)
    requires GoodName(name) && at(name) in disk && disk[at(name)] == Holding(before) && NL !in before && Simple(after)
    ensures FitsDisk(at, disk, [OneLine(name, before, after)]) && Ends([OneLine(name, before, after)], true)
  {
    hide Source, Target, Script, HunksOf, Lines, Render;
    OneLineSays(before, after);
    LinesRender([before]);
  }

  // ----- a half-finished Apply

  const PAIR := [OneLine("f", "a", "b"), OneLine("g", "a", "b")]

  const PAIR_DISK: Files := map["f" := Holding("a"), "g" := Holding("a")]

  lemma {:induction false} RenderDiffers(a: string, b: string)
    requires a != b && NL !in a && NL !in b
    ensures Holding(a) != Holding(b)
  {
    hide Render;
    LinesRender([a]);
    LinesRender([b]);
  }

  lemma {:induction false} PairFits()
    ensures FitsDisk(name => name, PAIR_DISK, PAIR) && Ends(PAIR, true)
    ensures Target(Script(PAIR[0].pieces)) == ["b"]
  {
    hide Source, Target, Script, HunksOf, Lines, Render;
    OneLineSays("a", "b");
    LinesRender(["a"]);
  }

  /** A patch of two files, of which the second cannot be written, leaves the first one changed. */
  lemma {:induction false} HalfApplied(originals: Files, readOk: nat -> bool)
    requires readOk(0) && readOk(1)
    ensures exists writeOk: nat -> bool ::
              var (after, r) := ApplyTo(name => name, State(PAIR_DISK, originals, [], ""), DiffText(PAIR, true),
                                        Env(readOk, writeOk));
              r.Err? && after.disk != PAIR_DISK
  {
    hide ApplyTo, DiffText, Target, Script, FitsDisk, Ends;
    PairFits();
    ScriptsAtomicExactly(name => name, State(PAIR_DISK, originals, [], ""), PAIR, true, readOk);
    RenderDiffers("a", "b");
  }

  // ----- a path under two names

  /** Cleans the spelling of one file's name. */
  const CLEAN: Resolver := name => if name == "./f" then "f" else name

  const SPELLED_DISK: Files := map["f" := Holding("a")]

  const FIRST := DiffText([OneLine("f", "a", "b")], true)
  const SECOND := DiffText([OneLine("./f", "b", "c")], true)

  const FRESH := State(SPELLED_DISK, map[], [], "")

  lemma {:induction false} OneLineApplies(at: Resolver, s: State, name: string, before: string, after: string, env: Env)
    requires GoodName(name) && at(name) in s.disk && s.disk[at(name)] == Holding(before) && NL !in before
    requires Simple(after) && env.readOk(0) && env.writeOk(0)
    ensures var (t, r) := ApplyTo(at, s, DiffText([OneLine(name, before, after)], true), env);
            r == Ok([name]) && t.disk == s.disk[at(name) := Holding(after)]
  {
    var changes := [OneLine(name, before, after)];
    hide ApplyTo, DiffText, Target, Script, FitsDisk, Ends, Parse, Source, HunksOf, Outcome, Holds, HunksFor;
    OneLineFits(at, s.disk, name, before, after);
    OneLineSays(before, after);
    assert Script(changes[0].pieces) == Script(OneLine("", before, after).pieces);
    ScriptsAreCarriedOut(at, s, changes, true, env);
    ScriptTargets(at, s.disk, changes, true);
    ApplyWritesTargets(at, s, DiffText(changes, true), env);
    var files := Parse(DiffText(changes, true)).value.files;
    assert files[0] == changes[0].name;
    assert files == [name];
    assert ApplyTo(at, s, DiffText(changes, true), env).0.disk == s.disk[at(name) := Holding(after)];
  }

  /** The same file patched under two spellings cannot be undone: some complete Revert leaves it changed. */
  lemma {:induction false} TwoSpellings(env: Env)
    requires env.readOk(0) && env.writeOk(0)
    ensures var s := ApplyTo(CLEAN, FRESH, FIRST, env).0;
            var t := ApplyTo(CLEAN, s, SECOND, env).0;
            && t.disk == map["f" := Holding("c")] && !Agree(CLEAN, t.originals)
            && exists order: seq<string>, ok: nat -> bool ::
                 Enumerates(order, t.originals.Keys) && Covers(t.originals, order)
                 && (forall k :: 0 <= k < |order| ==> ok(k)) && RevertTo(CLEAN, t, order, ok).0.disk != SPELLED_DISK
  {
    hide ApplyTo, DiffText, Render, Agree, RevertTo;
    OneLineApplies(CLEAN, FRESH, "f", "a", "b", env);
    var s := ApplyTo(CLEAN, FRESH, FIRST, env).0;
    OneLineApplies(CLEAN, s, "./f", "b", "c", env);
    RenderDiffers("a", "b");
    SecondSpellingBreaksUndo(CLEAN, SPELLED_DISK, FIRST, env, SECOND, env, "f", "./f");
    var t := ApplyTo(CLEAN, s, SECOND, env).0;
    UndoExactly(CLEAN, SPELLED_DISK, [ApplyCall(FIRST, env), ApplyCall(SECOND, env)], [FRESH, s, t]);
  }
}
