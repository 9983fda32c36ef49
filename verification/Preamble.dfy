/**
 * Lines between the last hunk of one file and the header of the next, as version-control tools and the
 * diff utility put them there. They are read as part of that hunk; what becomes of the patch is worked out here.
 */
module Preamble {
  import opened Text
  import opened Hunks
  import opened PatchParser

  function Longer(h: Hunk, more: seq<string>): Hunk
  {
    h.(lines := h.lines + more)
  }

  lemma {:induction false} SaysNothing(body: seq<string>)
    requires WellMarked(body)
    ensures OldText(body) == [] && NewText(body) == [] <==> forall k :: 0 <= k < |body| ==> body[k] == ""
  {
    if body != [] {
      assert body == [body[0]] + body[1..];
      SaysNothing(body[1..]);
    }
  }

  /** Swallowed lines leave the meaning of a hunk alone exactly when all of them are blank. */
  lemma {:induction false} OnlyBlankLinesAreHarmless(h: Hunk, between: seq<string>)
    requires WellMarked(h.lines)
    ensures SameMeaning(Longer(h, between), h) <==> forall k :: 0 <= k < |between| ==> between[k] == ""
  {
    hide WellMarked, OldText, NewText;
    TextConcat(h.lines, between);
    MarkedConcat(h.lines, between);
    if WellMarked(between) {
      SaysNothing(between);
    } else if forall k :: 0 <= k < |between| ==> between[k] == "" {
      BlankIsMarked(between);
    }
  }

  lemma {:induction false} BlankIsMarked(body: seq<string>)
    requires forall k :: 0 <= k < |body| ==> body[k] == ""
    ensures WellMarked(body)
  {
  }

  /** A hunk with swallowed lines fits where it fits without them and their old text stands directly behind. */
  lemma {:induction false} SwallowedFits(h: Hunk, between: seq<string>, lines: seq<string>, at: int)
    ensures Fits(Longer(h, between), lines, at) <==>
            Fits(h, lines, at) && WellMarked(between)
            && StandsAt(OldText(between), lines, at + |OldText(h.lines)|)
  {
    hide WellMarked, OldText, NewText;
    TextConcat(h.lines, between);
    MarkedConcat(h.lines, between);
    var part, more := OldText(h.lines), OldText(between);
    if 0 <= at && at + |part + more| <= |lines| {
      var here := lines[at..at + |part + more|];
      assert here == lines[at..at + |part|] + lines[at + |part|..at + |part| + |more|];
      assert (part + more)[..|part|] == part && (part + more)[|part|..] == more;
      assert here[..|part|] == lines[at..at + |part|];
      assert here[|part|..] == lines[at + |part|..at + |part| + |more|];
    }
  }

  /** Where the new text of the last hunk ends in the file that a successful pass leaves. */
  function Behind(offset: int, hunks: seq<Hunk>): int
    requires hunks != []
    decreases |hunks|
  {
    if |hunks| == 1 then hunks[0].oldStart - 1 + offset + |NewText(hunks[0].lines)|
    else Behind(offset + Growth(hunks[0]), hunks[1..])
  }

  /** The offset with which a successful pass ends. */
  function OffsetAfter(offset: int, hunks: seq<Hunk>): int
    decreases |hunks|
  {
    if hunks == [] then offset else OffsetAfter(offset + Growth(hunks[0]), hunks[1..])
  }

  /** A pass over more hunks goes on where the pass over the first of them ends. */
  lemma {:induction false} PassGoesOn(lines: seq<string>, offset: int, a: seq<Hunk>, b: seq<Hunk>)
    ensures ApplyFrom(lines, offset, a + b) == GoOn(ApplyFrom(lines, offset, a), OffsetAfter(offset, a), b)
    decreases |a|
  {
    hide ApplyFrom, ApplyAt, Growth;
    if a == [] {
      ApplyNone(lines, offset);
      assert a + b == b;
    } else {
      assert (a + b)[0] == a[0] && (a + b)[1..] == a[1..] + b;
      ApplyUnfolds(lines, offset, a);
      ApplyUnfolds(lines, offset, a + b);
      var first := ApplyAt(lines, a[0].oldStart - 1 + offset, a[0]);
      if first.Ok? {
        PassGoesOn(first.value, offset + Growth(a[0]), a[1..], b);
      }
    }
  }

  function GoOn(r: Result<seq<string>>, offset: int, rest: seq<Hunk>): Result<seq<string>>
  {
    if r.Err? then r else ApplyFrom(r.value, offset, rest)
  }

  /** The lines in between, carried out at a place of the file that the pass before them has left, or not. */
  function AndThen(plain: Result<seq<string>>, at: int, between: seq<string>): (bool, seq<string>)
  {
    if plain.Ok? && WellMarked(between) && StandsAt(OldText(between), plain.value, at) then
      (true, Splice(plain.value, at, at + |OldText(between)|, NewText(between)))
    else (false, [])
  }

  /** The result is a failure, or that of the remaining hunks on the lines so far. */
  predicate ThenRest(r: Result<seq<string>>, ok: bool, lines: seq<string>, offset: int, rest: seq<Hunk>)
  {
    if ok then r == ApplyFrom(lines, offset, rest) else r.Err?
  }

  function Extra(between: seq<string>): int
  {
    |NewText(between)| - |OldText(between)|
  }

  /**
   * Lines swallowed by the last hunk of a list act like one more hunk directly behind it: the pass goes on
   * exactly when it does without them, they are well marked, and what they keep and delete comes next.
   */
  lemma {:induction false} SwallowedByLast(lines: seq<string>, offset: int, front: seq<Hunk>, h: Hunk,
                                           between: seq<string>, rest: seq<Hunk>)
    ensures var all := front + [h];
            var (ok, result) := AndThen(ApplyFrom(lines, offset, all), Behind(offset, all), between);
            ThenRest(ApplyFrom(lines, offset, front + [Longer(h, between)] + rest), ok, result,
                     OffsetAfter(offset, all) + Extra(between), rest)
    decreases |front|
  {
    hide ApplyFrom, Fits, StandsAt, WellMarked, OldText, NewText, Longer, Growth, Splice, ApplyAt, AndThen, ThenRest,
         Extra;
    var all, longer := front + [h], front + [Longer(h, between)] + rest;
    if front == [] {
      assert all == [h] && longer == [Longer(h, between)] + rest;
      SwallowedByOnly(lines, offset, h, between, rest);
    } else {
      var g := front[0];
      var at := g.oldStart - 1 + offset;
      assert all[0] == longer[0] == g && all[1..] == front[1..] + [h];
      assert longer[1..] == front[1..] + [Longer(h, between)] + rest;
      ApplyOne(lines, offset, all);
      ApplyOne(lines, offset, longer);
      if Fits(g, lines, at) {
        InRange(g, lines, at);
        var next := Splice(lines, at, at + |OldText(g.lines)|, NewText(g.lines));
        SwallowedByLast(next, offset + Growth(g), front[1..], h, between, rest);
      } else {
        NothingThen(ApplyFrom(lines, offset, all), Behind(offset, all), between);
        NoRest(ApplyFrom(lines, offset, longer), OffsetAfter(offset, all) + Extra(between), rest);
      }
    }
  }

  lemma {:induction false} NoRest(r: Result<seq<string>>, offset: int, rest: seq<Hunk>)
    requires r.Err?
    ensures ThenRest(r, false, [], offset, rest)
  {
  }

  lemma {:induction false} NothingThen(plain: Result<seq<string>>, at: int, between: seq<string>)
    requires plain.Err?
    ensures AndThen(plain, at, between) == (false, [])
  {
  }

  /** One hunk and the pass behind it. */
  lemma {:induction false} ApplyFirst(lines: seq<string>, offset: int, h: Hunk, rest: seq<Hunk>)
    ensures var at := h.oldStart - 1 + offset;
            if Fits(h, lines, at) then
              && 0 <= at <= at + |OldText(h.lines)| <= |lines|
              && ApplyFrom(lines, offset, [h] + rest)
              == ApplyFrom(Splice(lines, at, at + |OldText(h.lines)|, NewText(h.lines)), offset + Growth(h), rest)
            else ApplyFrom(lines, offset, [h] + rest).Err?
  {
    hide ApplyFrom, Fits, WellMarked, OldText, NewText, ApplyAt, Splice, Growth;
    var at := h.oldStart - 1 + offset;
    assert ([h] + rest)[1..] == rest;
    ApplyOne(lines, offset, [h] + rest);
    if Fits(h, lines, at) {
      InRange(h, lines, at);
    }
  }

  lemma {:induction false} SwallowedByOnly(lines: seq<string>, offset: int, h: Hunk, between: seq<string>,
                                           rest: seq<Hunk>)
    ensures var (ok, result) := AndThen(ApplyFrom(lines, offset, [h]), Behind(offset, [h]), between);
            ThenRest(ApplyFrom(lines, offset, [Longer(h, between)] + rest), ok, result,
                     OffsetAfter(offset, [h]) + Extra(between), rest)
  {
    hide ApplyFrom, Fits, WellMarked, OldText, NewText, ApplyAt, Splice, StandsAt;
    var at := h.oldStart - 1 + offset;
    assert [h] + [] == [h] && [h][1..] == [];
    ApplyFirst(lines, offset, h, []);
    ApplyFirst(lines, offset, Longer(h, between), rest);
    SwallowedFits(h, between, lines, at);
    TextConcat(h.lines, between);
    if Fits(h, lines, at) {
      ApplyNone(Splice(lines, at, at + |OldText(h.lines)|, NewText(h.lines)), offset + Growth(h));
      TwoSplices(lines, at, OldText(h.lines), NewText(h.lines), OldText(between), NewText(between));
    }
  }

  /** Replacing a text and then what stands directly behind it is replacing both at once. */
  lemma {:induction false} TwoSplices(lines: seq<string>, at: nat, before: seq<string>, after: seq<string>,
                                      part: seq<string>, text: seq<string>)
    requires at + |before| <= |lines|
    ensures var (once, end) := (Splice(lines, at, at + |before|, after), at + |after|);
            && (StandsAt(part, once, end) <==> StandsAt(part, lines, at + |before|))
            && (StandsAt(part, once, end) ==>
                  Splice(lines, at, at + |before + part|, after + text) == Splice(once, end, end + |part|, text))
  {
    var from, done := at + |before|, lines[..at] + after;
    assert Splice(lines, at, from, after) == done + lines[from..];
    StandsAtShifted(part, done, lines, from, from);
    if StandsAt(part, lines, from) {
      SpliceShifted(done, lines, from, from, from + |part|, text);
      assert done + lines[from..from] == done;
    }
  }

  // ----- what the reader makes of it

  /** The hunks for the file before the swallowed lines, with and without them, and those of later entries for it. */
  lemma {:induction false} GatherExtended(entries: seq<Entry>, between: seq<string>, later: seq<Entry>)
      returns (front: seq<Hunk>, h: Hunk)
    requires entries != [] && entries[|entries| - 1].hunks != []
    ensures var name := entries[|entries| - 1].name;
            && Gather(entries, name) == front + [h]
            && Gather(entries + later, name) == front + [h] + Gather(later, name)
            && Gather(Extend(entries, between) + later, name) == front + [Longer(h, between)] + Gather(later, name)
  {
    hide Gather;
    var before, last := entries[..|entries| - 1], entries[|entries| - 1];
    var name := last.name;
    var longer := Extend(entries, between)[|entries| - 1];
    h := last.hunks[|last.hunks| - 1];
    front := Gather(before, name) + last.hunks[..|last.hunks| - 1];
    assert entries == before + [last] && Extend(entries, between) == before + [longer];
    GatherConcat(entries, later, name);
    GatherConcat(Extend(entries, between), later, name);
    GatherConcat(before, [last], name);
    GatherConcat(before, [longer], name);
    GatherOne(last);
    GatherOne(longer);
    assert last.hunks == last.hunks[..|last.hunks| - 1] + [h];
    assert Gather(entries, name) == front + [h];
    assert Gather(Extend(entries, between), name) == front + [Longer(h, between)];
  }

  /** A patch of printed entries with lines in between, and what the reader makes of it for one file. */
  function Reading(entries: seq<Entry>, between: seq<string>, later: seq<Entry>): Result<Patch>
  {
    Parse(Join(PrintEntries(entries) + between + PrintEntries(later), NL))
  }

  predicate Printables(entries: seq<Entry>)
  {
    forall k :: 0 <= k < |entries| ==> Printable(entries[k])
  }

  /** The patch parses with or without the lines, and they go to the last hunk before them and nowhere else. */
  lemma {:induction false} ReadingWithout(entries: seq<Entry>, later: seq<Entry>)
    requires entries != [] && Printables(entries) && Printables(later)
    ensures Reading(entries, [], later).Ok? && Holds(Reading(entries, [], later).value, entries + later)
  {
    hide Printable, PrintEntries, Holds, Parse, Join;
    assert Printables(entries + later);
    PrintEntriesConcat(entries, later);
    assert PrintEntries(entries) + [] == PrintEntries(entries);
    ParsePrint(entries + later);
  }

  lemma {:induction false} ReadingWith(entries: seq<Entry>, between: seq<string>, later: seq<Entry>)
    requires entries != [] && entries[|entries| - 1].hunks != [] && Printables(entries) && Printables(later)
    requires forall k :: 0 <= k < |between| ==> Plain(between[k])
    ensures Reading(entries, between, later).Ok?
    ensures Holds(Reading(entries, between, later).value, Extend(entries, between) + later)
  {
    hide Printable, PrintEntries, Holds, Parse, Join;
    TextAfterHunkIsSwallowed(entries, between, later);
  }

  /** What the pass makes of the part of a patch that concerns one file. */
  function Carried(patch: Patch, name: string, content: string): Result<seq<string>>
  {
    ApplyFrom(Lines(content), 0, HunksFor(patch.hunks, name))
  }

  /**
   * Lines between two files, exactly: the patch parses, and in the part of the file before them they act like
   * one more hunk behind its last hunk before them. The pass fails unless they are well marked and what they
   * keep or delete stands there, in the file patched so far; else they are carried out and the pass goes on
   * with whatever hunks later entries have for that file.
   */
  lemma {:induction false} PreambleExactly(entries: seq<Entry>, between: seq<string>, later: seq<Entry>,
                                           content: string)
    requires entries != [] && entries[|entries| - 1].hunks != [] && Printables(entries) && Printables(later)
    requires forall k :: 0 <= k < |between| ==> Plain(between[k])
    ensures Reading(entries, [], later).Ok? && Reading(entries, between, later).Ok?
    ensures var name := entries[|entries| - 1].name;
            var (hunks, rest) := (Gather(entries, name), Gather(later, name));
            && hunks != []
            && (var plain := ApplyFrom(Lines(content), 0, hunks);
                var (ok, result) := AndThen(plain, Behind(0, hunks), between);
                && Carried(Reading(entries, [], later).value, name, content) == GoOn(plain, OffsetAfter(0, hunks), rest)
                && ThenRest(Carried(Reading(entries, between, later).value, name, content), ok, result,
                            OffsetAfter(0, hunks) + Extra(between), rest))
  {
    hide Reading, Printables, Plain, Gather, Extend, ApplyFrom, AndThen, ThenRest, Behind, HunksFor, GoOn, OffsetAfter,
         Extra;
    ReadingWithout(entries, later);
    ReadingWith(entries, between, later);
    var front, h := GatherExtended(entries, between, later);
    var rest := Gather(later, entries[|entries| - 1].name);
    SwallowedByLast(Lines(content), 0, front, h, between, rest);
    PassGoesOn(Lines(content), 0, front + [h], rest);
  }

  /** A line that starts with none of the markers, such as `diff --git` or `index`, ruins the file before it. */
  lemma {:induction false} UnmarkedPreambleFails(entries: seq<Entry>, between: seq<string>, later: seq<Entry>,
                                                 content: string)
    requires entries != [] && entries[|entries| - 1].hunks != [] && Printables(entries) && Printables(later)
    requires forall k :: 0 <= k < |between| ==> Plain(between[k])
    requires !WellMarked(between)
    ensures Reading(entries, between, later).Ok?
    ensures ApplyText(content, HunksFor(Reading(entries, between, later).value.hunks, entries[|entries| - 1].name)).Err?
  {
    hide ApplyFrom, Printables, Plain, Reading;
    ReadingWith(entries, between, later);
    var all, name := Extend(entries, between) + later, entries[|entries| - 1].name;
    var last := all[|entries| - 1];
    var h := last.hunks[|last.hunks| - 1];
    MarkedConcat(h.lines[..|h.lines| - |between|], between);
    assert h.lines == h.lines[..|h.lines| - |between|] + between;
    var at := GatheredAt(all, |entries| - 1, |last.hunks| - 1);
    BadLineFails(Lines(content), 0, Gather(all, name), at);
  }

  function WithoutLine(plain: Result<seq<string>>, at: int): seq<string>
  {
    if plain.Ok? && 0 <= at < |plain.value| then plain.value[..at] + plain.value[at + 1..] else []
  }

  /**
   * A bare `--- a/` line, as the diff utility puts it before the header of the next file, is read as the
   * deletion of a line: the file before it can be patched up to there exactly when it can be without that
   * line and the line `-- a/...` comes next in it, which is then lost.
   */
  lemma {:induction false} BareOldNameDeletes(entries: seq<Entry>, file: string, later: seq<Entry>, content: string)
    requires entries != [] && entries[|entries| - 1].hunks != [] && Printables(entries) && Printables(later)
    requires NL !in file
    ensures Reading(entries, [], later).Ok? && Reading(entries, ["--- a/" + file], later).Ok?
    ensures var name := entries[|entries| - 1].name;
            var (hunks, rest) := (Gather(entries, name), Gather(later, name));
            && hunks != []
            && (var (plain, end) := (ApplyFrom(Lines(content), 0, hunks), Behind(0, hunks));
                ThenRest(Carried(Reading(entries, ["--- a/" + file], later).value, name, content),
                         plain.Ok? && 0 <= end < |plain.value| && plain.value[end] == "-- a/" + file,
                         WithoutLine(plain, end), OffsetAfter(0, hunks) - 1, rest))
  {
    hide Reading, Printables, Plain, ApplyFrom, Behind, HunksFor, OldText, NewText, WellMarked, AndThen, ThenRest,
         Carried, Gather, GoOn, OffsetAfter;
    OldNameSays(file);
    PreambleExactly(entries, ["--- a/" + file], later, content);
    var name := entries[|entries| - 1].name;
    var hunks, rest := Gather(entries, name), Gather(later, name);
    OldNameThen(ApplyFrom(Lines(content), 0, hunks), Behind(0, hunks), file,
                Carried(Reading(entries, ["--- a/" + file], later).value, name, content), OffsetAfter(0, hunks), rest);
  }

  lemma {:induction false} OldNameThen(plain: Result<seq<string>>, end: int, file: string, r: Result<seq<string>>,
                                       offset: int, rest: seq<Hunk>)
    requires NL !in file
    requires var (ok, result) := AndThen(plain, end, ["--- a/" + file]);
             ThenRest(r, ok, result, offset + Extra(["--- a/" + file]), rest)
    ensures ThenRest(r, plain.Ok? && 0 <= end < |plain.value| && plain.value[end] == "-- a/" + file,
                     WithoutLine(plain, end), offset - 1, rest)
  {
    hide OldText, NewText, WellMarked, ApplyFrom;
    OldNameSays(file);
    if plain.Ok? && 0 <= end < |plain.value| {
      assert plain.value[end..end + 1] == [plain.value[end]];
      assert Splice(plain.value, end, end + 1, []) == plain.value[..end] + plain.value[end + 1..];
    }
  }

  lemma {:induction false} OldNameSays(file: string)
    requires NL !in file
    ensures var between := ["--- a/" + file];
            && WellMarked(between) && OldText(between) == ["-- a/" + file] && NewText(between) == []
            && Plain(between[0])
  {
    var line: string := "--- a/" + file;
    var between: seq<string> := [line];
    assert line[0] == '-' && line[1..] == "-- a/" + file && between[1..] == [];
    assert line[0] != '+' && line[0] != '@';
  }
}
