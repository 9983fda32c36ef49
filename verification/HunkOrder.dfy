/**
 * Hunks listed in any order. The running offset counts every hunk listed before, also those that stand
 * below; what that does to a patch whose hunks are not listed from the top down is worked out here.
 */
module HunkOrder {
  import opened Text
  import opened Hunks

  /** In the original file the whole of g stands above h. */
  predicate Before(g: Hunk, h: Hunk)
  {
    g.oldStart - 1 + |OldText(g.lines)| <= h.oldStart - 1
  }

  predicate Disjoint(g: Hunk, h: Hunk)
  {
    Before(g, h) || Before(h, g)
  }

  predicate Apart(hunks: seq<Hunk>)
  {
    forall j, k :: 0 <= j < k < |hunks| ==> Disjoint(hunks[j], hunks[k])
  }

  /** The growth caused by all of the hunks, by those above h, and by the others. */
  function Total(hunks: seq<Hunk>): int
  {
    if hunks == [] then 0 else Total(hunks[..|hunks| - 1]) + Growth(hunks[|hunks| - 1])
  }

  function GrowthAbove(h: Hunk, hunks: seq<Hunk>): int
  {
    if hunks == [] then 0
    else
      var g := hunks[|hunks| - 1];
      GrowthAbove(h, hunks[..|hunks| - 1]) + (if Before(g, h) then Growth(g) else 0)
  }

  function GrowthBelow(h: Hunk, hunks: seq<Hunk>): int
  {
    if hunks == [] then 0
    else
      var g := hunks[|hunks| - 1];
      GrowthBelow(h, hunks[..|hunks| - 1]) + (if Before(g, h) then 0 else Growth(g))
  }

  /** By how much the k-th hunk is looked for in the wrong place. */
  function Displacement(hunks: seq<Hunk>, k: nat): int
    requires k < |hunks|
  {
    GrowthBelow(hunks[k], hunks[..k])
  }

  /** The hunks from the top of the file down. */
  function Sorted(hunks: seq<Hunk>): seq<Hunk>
  {
    if hunks == [] then [] else Insert(hunks[|hunks| - 1], Sorted(hunks[..|hunks| - 1]))
  }

  function Insert(h: Hunk, sorted: seq<Hunk>): seq<Hunk>
  {
    if sorted == [] then [h]
    else if Before(sorted[0], h) then [sorted[0]] + Insert(h, sorted[1..])
    else [h] + sorted
  }

  // ----- sums of growths

  lemma {:induction false} TotalIsBoth(h: Hunk, hunks: seq<Hunk>)
    ensures Total(hunks) == GrowthAbove(h, hunks) + GrowthBelow(h, hunks)
  {
    hide Before, Growth;
    if hunks != [] {
      TotalIsBoth(h, hunks[..|hunks| - 1]);
    }
  }

  lemma {:induction false} TotalNext(hunks: seq<Hunk>, g: Hunk)
    ensures Total(hunks + [g]) == Total(hunks) + Growth(g)
  {
    hide Growth;
    assert (hunks + [g])[..|hunks|] == hunks;
  }

  lemma {:induction false} AboveNext(h: Hunk, hunks: seq<Hunk>, g: Hunk)
    ensures GrowthAbove(h, hunks + [g]) == GrowthAbove(h, hunks) + (if Before(g, h) then Growth(g) else 0)
  {
    hide Growth, Before;
    assert (hunks + [g])[..|hunks|] == hunks;
  }

  lemma {:induction false} AboveCons(h: Hunk, g: Hunk, hunks: seq<Hunk>)
    ensures GrowthAbove(h, [g] + hunks) == GrowthAbove(h, hunks) + (if Before(g, h) then Growth(g) else 0)
  {
    hide Growth, Before;
    if hunks == [] {
      assert [g] + [] == [] + [g];
      AboveNext(h, [], g);
    } else {
      var front, last := hunks[..|hunks| - 1], hunks[|hunks| - 1];
      assert hunks == front + [last] && [g] + hunks == ([g] + front) + [last];
      AboveCons(h, g, front);
      AboveNext(h, [g] + front, last);
      AboveNext(h, front, last);
    }
  }

  lemma {:induction false} InsertKeepsSum(h: Hunk, g: Hunk, sorted: seq<Hunk>)
    ensures GrowthAbove(h, Insert(g, sorted)) == GrowthAbove(h, sorted) + (if Before(g, h) then Growth(g) else 0)
  {
    hide Growth, Before;
    if sorted == [] {
      assert [g] == [] + [g];
      AboveNext(h, [], g);
    } else {
      assert sorted == [sorted[0]] + sorted[1..];
      AboveCons(h, sorted[0], sorted[1..]);
      if Before(sorted[0], g) {
        InsertKeepsSum(h, g, sorted[1..]);
        AboveCons(h, sorted[0], Insert(g, sorted[1..]));
      } else {
        AboveCons(h, g, sorted);
      }
    }
  }

  lemma {:induction false} SortedKeepsSum(h: Hunk, hunks: seq<Hunk>)
    ensures GrowthAbove(h, Sorted(hunks)) == GrowthAbove(h, hunks)
  {
    hide Growth, Before;
    if hunks != [] {
      var front, last := hunks[..|hunks| - 1], hunks[|hunks| - 1];
      SortedKeepsSum(h, front);
      InsertKeepsSum(h, last, Sorted(front));
    }
  }

  lemma {:induction false} InsertKeepsAll(h: Hunk, sorted: seq<Hunk>)
    ensures forall g :: g in Insert(h, sorted) <==> g == h || g in sorted
  {
    hide Before;
    if sorted != [] && Before(sorted[0], h) {
      InsertKeepsAll(h, sorted[1..]);
      assert sorted == [sorted[0]] + sorted[1..];
    }
  }

  lemma {:induction false} SortedKeepsAll(hunks: seq<Hunk>)
    ensures forall g :: g in Sorted(hunks) <==> g in hunks
  {
    if hunks != [] {
      var front, last := hunks[..|hunks| - 1], hunks[|hunks| - 1];
      hide Insert;
      SortedKeepsAll(front);
      InsertKeepsAll(last, Sorted(front));
      assert hunks == front + [last];
    }
  }

  // ----- one more hunk

  /** Nothing in an ordered list stands above what its first hunk does not stand above. */
  lemma {:induction false} NoneAbove(h: Hunk, sorted: seq<Hunk>, pos: int)
    requires Ordered(sorted, pos) && sorted != [] && Before(h, sorted[0]) && !Before(sorted[0], h)
    ensures GrowthAbove(h, sorted) == 0
  {
    hide OldText, Growth;
    AllBehind(h, sorted, h.oldStart - 1 + |OldText(h.lines)|, sorted[0].oldStart - 1 + |OldText(sorted[0].lines)|);
  }

  lemma {:induction false} AllBehind(h: Hunk, sorted: seq<Hunk>, pos: int, low: int)
    requires Ordered(sorted, pos) && h.oldStart - 1 < low
    requires sorted != [] ==> low <= sorted[0].oldStart - 1 + |OldText(sorted[0].lines)|
    ensures GrowthAbove(h, sorted) == 0
  {
    hide OldText, Growth;
    if sorted != [] {
      var next := sorted[0].oldStart - 1 + |OldText(sorted[0].lines)|;
      AllBehind(h, sorted[1..], next, low);
      assert sorted == [sorted[0]] + sorted[1..];
      AboveCons(h, sorted[0], sorted[1..]);
    }
  }

  lemma {:induction false} OnePassFrom(lines: seq<string>, sorted: seq<Hunk>, pos: nat, to: nat)
    requires pos <= to <= |lines| && Ordered(sorted, pos) && Ordered(sorted, to) && AllFit(sorted, lines)
    ensures OnePass(lines, sorted, pos) == lines[pos..to] + OnePass(lines, sorted, to)
  {
    hide OldText, NewText, OnePass, AllFit;
    if sorted == [] {
      OnePassNil(lines, pos);
      OnePassNil(lines, to);
    } else {
      OnePassCons(lines, sorted, pos);
      OnePassCons(lines, sorted, to);
      var at := sorted[0].oldStart - 1;
      assert lines[pos..at] == lines[pos..to] + lines[to..at];
    }
  }

  lemma {:induction false} StandsInside(part: seq<string>, front: seq<string>, middle: seq<string>, at: int)
    requires StandsAt(part, middle, at)
    ensures StandsAt(part, front + middle, |front| + at)
  {
    var all := front + middle;
    assert all[|front| + at..|front| + at + |part|] == middle[at..at + |part|];
  }

  lemma {:induction false} SpliceInside(front: seq<string>, middle: seq<string>, at: nat, to: nat, text: seq<string>)
    requires at <= to <= |middle|
    ensures Splice(front + middle, |front| + at, |front| + to, text) == front + Splice(middle, at, to, text)
  {
    assert (front + middle)[..|front| + at] == front + middle[..at];
    assert (front + middle)[|front| + to..] == middle[to..];
  }

  /**
   * A hunk that is disjoint from those already carried out finds its old text in the new file, shifted by
   * the growth of those above it, and replacing it there gives what all of them at once give.
   */
  lemma {:induction false} OneMore(lines: seq<string>, sorted: seq<Hunk>, h: Hunk, pos: nat)
    requires pos <= |lines| && Ordered(sorted, pos) && AllFit(sorted, lines)
    requires Fits(h, lines, h.oldStart - 1) && pos <= h.oldStart - 1
    requires forall g :: g in sorted ==> Disjoint(g, h)
    ensures Ordered(Insert(h, sorted), pos) && AllFit(Insert(h, sorted), lines)
    ensures var at := h.oldStart - 1 - pos + GrowthAbove(h, sorted);
            && StandsAt(OldText(h.lines), OnePass(lines, sorted, pos), at)
            && OnePass(lines, Insert(h, sorted), pos)
            == Splice(OnePass(lines, sorted, pos), at, at + |OldText(h.lines)|, NewText(h.lines))
    decreases |sorted|
  {
    hide OldText, NewText, OnePass, AllFit, GrowthAbove, WellMarked, Growth, Splice;
    if sorted != [] && Before(sorted[0], h) {
      OneMoreBelow(lines, sorted, h, pos);
    } else {
      OneMoreOnTop(lines, sorted, h, pos);
    }
  }

  lemma {:induction false} OneMoreBelow(lines: seq<string>, sorted: seq<Hunk>, h: Hunk, pos: nat)
    requires pos <= |lines| && Ordered(sorted, pos) && AllFit(sorted, lines)
    requires Fits(h, lines, h.oldStart - 1) && pos <= h.oldStart - 1
    requires forall g :: g in sorted ==> Disjoint(g, h)
    requires sorted != [] && Before(sorted[0], h)
    ensures Ordered(Insert(h, sorted), pos) && AllFit(Insert(h, sorted), lines)
    ensures var at := h.oldStart - 1 - pos + GrowthAbove(h, sorted);
            && StandsAt(OldText(h.lines), OnePass(lines, sorted, pos), at)
            && OnePass(lines, Insert(h, sorted), pos)
            == Splice(OnePass(lines, sorted, pos), at, at + |OldText(h.lines)|, NewText(h.lines))
    decreases |sorted|, 0
  {
    hide OldText, NewText, OnePass, AllFit, GrowthAbove, WellMarked, Splice, Fits, Disjoint;
    var g, rest, all := sorted[0], sorted[1..], Insert(h, sorted);
    var next := g.oldStart - 1 + |OldText(g.lines)|;
    assert sorted == [g] + rest;
    OnePassCons(lines, sorted, pos);
    OneMore(lines, rest, h, next);
    assert all[0] == g && all[1..] == Insert(h, rest);
    AllFitCons(all, lines);
    AllFitCons(sorted, lines);
    OnePassCons(lines, all, pos);
    AboveCons(h, g, rest);
    var front, middle := lines[pos..g.oldStart - 1] + NewText(g.lines), OnePass(lines, rest, next);
    var at := h.oldStart - 1 - next + GrowthAbove(h, rest);
    StandsInside(OldText(h.lines), front, middle, at);
    SpliceInside(front, middle, at, at + |OldText(h.lines)|, NewText(h.lines));
  }

  lemma {:induction false} OneMoreOnTop(lines: seq<string>, sorted: seq<Hunk>, h: Hunk, pos: nat)
    requires pos <= |lines| && Ordered(sorted, pos) && AllFit(sorted, lines)
    requires Fits(h, lines, h.oldStart - 1) && pos <= h.oldStart - 1
    requires forall g :: g in sorted ==> Disjoint(g, h)
    requires sorted != [] ==> !Before(sorted[0], h)
    ensures Ordered(Insert(h, sorted), pos) && AllFit(Insert(h, sorted), lines)
    ensures var at := h.oldStart - 1 - pos + GrowthAbove(h, sorted);
            && StandsAt(OldText(h.lines), OnePass(lines, sorted, pos), at)
            && OnePass(lines, Insert(h, sorted), pos)
            == Splice(OnePass(lines, sorted, pos), at, at + |OldText(h.lines)|, NewText(h.lines))
  {
    hide OldText, NewText, OnePass, AllFit, WellMarked, Splice, StandsAt, GrowthAbove, Insert;
    var at, next := h.oldStart - 1, h.oldStart - 1 + |OldText(h.lines)|;
    var all := [h] + sorted;
    OnTop(sorted, h, pos);
    InRange(h, lines, at);
    assert all[0] == h && all[1..] == sorted;
    AllFitCons(all, lines);
    OnePassCons(lines, all, pos);
    OnePassFrom(lines, sorted, pos, next);
    StandsOnTop(lines, OldText(h.lines), OnePass(lines, sorted, next), pos, at, NewText(h.lines));
  }

  lemma {:induction false} OnTop(sorted: seq<Hunk>, h: Hunk, pos: int)
    requires Ordered(sorted, pos) && pos <= h.oldStart - 1 && (sorted != [] ==> !Before(sorted[0], h))
    requires forall g :: g in sorted ==> Disjoint(g, h)
    ensures Insert(h, sorted) == [h] + sorted && GrowthAbove(h, sorted) == 0
    ensures Ordered(sorted, h.oldStart - 1 + |OldText(h.lines)|)
  {
    hide OldText;
    if sorted != [] {
      assert Disjoint(sorted[0], h);
      NoneAbove(h, sorted, pos);
    }
  }

  lemma {:induction false} StandsOnTop(lines: seq<string>, part: seq<string>, tail: seq<string>, pos: nat, at: nat,
                                       text: seq<string>)
    requires pos <= at && StandsAt(part, lines, at)
    ensures var all := lines[pos..at + |part|] + tail;
            && StandsAt(part, all, at - pos)
            && lines[pos..at] + text + tail == Splice(all, at - pos, at - pos + |part|, text)
  {
    var all := lines[pos..at + |part|] + tail;
    assert all[at - pos..at - pos + |part|] == lines[at..at + |part|];
    assert all[..at - pos] == lines[pos..at];
    assert all[at - pos + |part|..] == tail;
  }

  // ----- any order

  lemma {:induction false} SortedUnfolds(hunks: seq<Hunk>)
    ensures Sorted([]) == []
    ensures hunks != [] ==> Sorted(hunks) == Insert(hunks[|hunks| - 1], Sorted(hunks[..|hunks| - 1]))
  {
  }

  lemma {:induction false} NothingSorted(lines: seq<string>)
    ensures Ordered([], 0) && AllFit([], lines) && OnePass(lines, [], 0) == lines && Total([]) == 0
  {
  }

  lemma {:induction false} FrontApart(lines: seq<string>, hunks: seq<Hunk>, k: nat)
    requires Apart(hunks) && AllFit(hunks, lines) && k < |hunks|
    ensures Apart(hunks[..k]) && AllFit(hunks[..k], lines)
    ensures Fits(hunks[k], lines, hunks[k].oldStart - 1) && hunks[k].oldStart >= 1
    ensures forall g :: g in hunks[..k] ==> Disjoint(g, hunks[k])
  {
    hide Disjoint, Fits;
    InRange(hunks[k], lines, hunks[k].oldStart - 1);
    assert forall i :: 0 <= i < k ==> hunks[..k][i] == hunks[i];
  }

  lemma {:induction false} SortedOk(lines: seq<string>, hunks: seq<Hunk>)
    requires Apart(hunks) && AllFit(hunks, lines)
    ensures Ordered(Sorted(hunks), 0) && AllFit(Sorted(hunks), lines)
  {
    hide Ordered, AllFit, Insert, Sorted, Disjoint, Fits, Apart, OnePass, Splice, GrowthAbove;
    SortedUnfolds(hunks);
    if hunks == [] {
      NothingSorted(lines);
    } else {
      var front, last := hunks[..|hunks| - 1], hunks[|hunks| - 1];
      FrontApart(lines, hunks, |front|);
      SortedOk(lines, front);
      SortedKeepsAll(front);
      OneMore(lines, Sorted(front), last, 0);
    }
  }

  /** What all of the hunks at once make of the lines, in whatever order they are listed. */
  function AllDone(lines: seq<string>, hunks: seq<Hunk>): seq<string>
    requires Apart(hunks) && AllFit(hunks, lines)
  {
    SortedOk(lines, hunks);
    OnePass(lines, Sorted(hunks), 0)
  }

  /** Where the old text of the k-th hunk is after the hunks listed before it have been carried out. */
  function Place(hunks: seq<Hunk>, k: nat): int
    requires k < |hunks|
  {
    hunks[k].oldStart - 1 + GrowthAbove(hunks[k], hunks[..k])
  }

  lemma {:induction false} PlaceHolds(lines: seq<string>, hunks: seq<Hunk>, k: nat)
    requires Apart(hunks) && AllFit(hunks, lines) && k < |hunks|
    ensures Apart(hunks[..k]) && AllFit(hunks[..k], lines) && Apart(hunks[..k + 1]) && AllFit(hunks[..k + 1], lines)
    ensures var (h, before) := (hunks[k], AllDone(lines, hunks[..k]));
            && Fits(h, before, Place(hunks, k))
            && AllDone(lines, hunks[..k + 1])
            == Splice(before, Place(hunks, k), Place(hunks, k) + |OldText(h.lines)|, NewText(h.lines))
  {
    hide Ordered, AllFit, Insert, Sorted, Disjoint, Apart, OnePass, Splice, GrowthAbove, OldText, NewText, WellMarked;
    var h, front, more := hunks[k], hunks[..k], hunks[..k + 1];
    FrontApart(lines, hunks, k);
    if k + 1 < |hunks| {
      FrontApart(lines, hunks, k + 1);
    } else {
      assert more == hunks;
    }
    assert more[|more| - 1] == h && more[..|more| - 1] == front;
    SortedUnfolds(more);
    SortedOk(lines, front);
    SortedKeepsAll(front);
    SortedKeepsSum(h, front);
    OneMore(lines, Sorted(front), h, 0);
  }

  /**
   * As long as no hunk has been looked for in the wrong place, the pass over disjoint hunks in any order
   * has done what all of those hunks do at once, and its offset is the sum of their growths.
   */
  lemma {:induction false} AnyOrder(lines: seq<string>, hunks: seq<Hunk>, k: nat)
    requires Apart(hunks) && AllFit(hunks, lines) && k <= |hunks|
    requires forall j :: 0 <= j < k ==> Displacement(hunks, j) == 0
    ensures Apart(hunks[..k]) && AllFit(hunks[..k], lines)
    ensures ApplyFrom(lines, 0, hunks) == ApplyFrom(AllDone(lines, hunks[..k]), Total(hunks[..k]), hunks[k..])
  {
    hide Apart, AllFit, AllDone, Place, Fits, Total, ApplyFrom, ApplyAt, OldText, NewText, Growth, Splice;
    if k == 0 {
      NothingDone(lines);
      assert hunks[..0] == [] && hunks[0..] == hunks;
    } else {
      var h, j := hunks[k - 1], k - 1;
      AnyOrder(lines, hunks, j);
      PlaceHolds(lines, hunks, j);
      LookedFor(hunks, j);
      assert hunks[j..][0] == h && hunks[j..][1..] == hunks[k..] && hunks[..k] == hunks[..j] + [h];
      ApplyOne(AllDone(lines, hunks[..j]), Total(hunks[..j]), hunks[j..]);
      TotalNext(hunks[..j], h);
    }
  }

  lemma {:induction false} NothingDone(lines: seq<string>)
    ensures Apart([]) && AllFit([], lines) && AllDone(lines, []) == lines && Total([]) == 0
  {
    NothingSorted(lines);
    SortedUnfolds([]);
  }

  lemma {:induction false} LookedFor(hunks: seq<Hunk>, k: nat)
    requires k < |hunks|
    ensures hunks[k].oldStart - 1 + Total(hunks[..k]) == Place(hunks, k) + Displacement(hunks, k)
  {
    TotalIsBoth(hunks[k], hunks[..k]);
  }

  /**
   * An order is harmless if the hunks listed before each hunk and standing below it leave the number of
   * lines as it is: then the pass succeeds, with what the hunks from the top down would give.
   */
  lemma {:induction false} HarmlessOrder(lines: seq<string>, hunks: seq<Hunk>)
    requires Apart(hunks) && AllFit(hunks, lines)
    requires forall k :: 0 <= k < |hunks| ==> Displacement(hunks, k) == 0
    ensures Ordered(Sorted(hunks), 0) && AllFit(Sorted(hunks), lines)
    ensures ApplyFrom(lines, 0, hunks) == Ok(OnePass(lines, Sorted(hunks), 0))
    ensures ApplyFrom(lines, 0, hunks) == ApplyFrom(lines, 0, Sorted(hunks))
  {
    hide Apart, AllFit, Displacement, Total, ApplyFrom, Ordered, Sorted, OnePass;
    AnyOrder(lines, hunks, |hunks|);
    assert hunks[..|hunks|] == hunks && hunks[|hunks|..] == [];
    ApplyNone(AllDone(lines, hunks), Total(hunks));
    SortedOk(lines, hunks);
    SequentialIsSimultaneous(lines, Sorted(hunks));
  }

  /** A line occurs only once in the file. */
  predicate OnlyOnce(line: string, lines: seq<string>)
  {
    forall i, j :: 0 <= i < j < |lines| ==> !(lines[i] == lines[j] == line)
  }

  /** The lines with the hunk's old text replaced at this place, if there is room for it. */
  function ReplacedAt(lines: seq<string>, at: int, h: Hunk): seq<string>
  {
    var to := at + |OldText(h.lines)|;
    if 0 <= at <= to <= |lines| then Splice(lines, at, to, NewText(h.lines)) else []
  }

  lemma {:induction false} ReplacedHere(lines: seq<string>, at: int, h: Hunk)
    requires Fits(h, lines, at)
    ensures 0 <= at <= at + |OldText(h.lines)| <= |lines|
    ensures ReplacedAt(lines, at, h) == Splice(lines, at, at + |OldText(h.lines)|, NewText(h.lines))
  {
    hide OldText, NewText, Splice;
    InRange(h, lines, at);
  }

  /**
   * The first hunk with a displacement is looked for that many lines away from where its old text is. If it
   * does not fit there the patch fails, as it must when its first old line occurs only once. If it does, it
   * is carried out there, and the pass goes on from what that gives.
   */
  lemma {:induction false} DisplacedHunk(lines: seq<string>, hunks: seq<Hunk>, k: nat)
    requires Apart(hunks) && AllFit(hunks, lines) && k < |hunks|
    requires forall j :: 0 <= j < k ==> Displacement(hunks, j) == 0
    ensures Apart(hunks[..k]) && AllFit(hunks[..k], lines)
    ensures var (h, before, place) := (hunks[k], AllDone(lines, hunks[..k]), Place(hunks, k));
            var there := place + Displacement(hunks, k);
            && Fits(h, before, place)
            && (if Fits(h, before, there) then
                  ApplyFrom(lines, 0, hunks)
                  == ApplyFrom(ReplacedAt(before, there, h), Total(hunks[..k + 1]), hunks[k + 1..])
                else ApplyFrom(lines, 0, hunks).Err?)
            && (there != place && OldText(h.lines) != [] && OnlyOnce(OldText(h.lines)[0], before) ==>
                  ApplyFrom(lines, 0, hunks).Err?)
  {
    hide Apart, AllFit, AllDone, Place, Fits, Total, ApplyFrom, ApplyAt, OldText, NewText, Growth, Splice,
         Displacement, OnlyOnce, ReplacedAt;
    AnyOrder(lines, hunks, k);
    PlaceHolds(lines, hunks, k);
    LookedFor(hunks, k);
    var h, before, place := hunks[k], AllDone(lines, hunks[..k]), Place(hunks, k);
    var there := place + Displacement(hunks, k);
    assert hunks[k..][0] == h && hunks[k..][1..] == hunks[k + 1..] && hunks[..k + 1] == hunks[..k] + [h];
    TotalNext(hunks[..k], h);
    ApplyOne(before, Total(hunks[..k]), hunks[k..]);
    if Fits(h, before, there) {
      ReplacedHere(before, there, h);
      if there != place && OldText(h.lines) != [] {
        StandsTwice(h, before, place, there);
      }
    }
  }

  /**
   * If only the last hunk is displaced: the pass succeeds exactly when that hunk fits where it is looked
   * for, and is then carried out there; the file is right exactly when that makes no difference.
   */
  lemma {:induction false} LastDisplaced(lines: seq<string>, hunks: seq<Hunk>)
    requires Apart(hunks) && AllFit(hunks, lines) && hunks != []
    requires forall j :: 0 <= j < |hunks| - 1 ==> Displacement(hunks, j) == 0
    ensures Apart(hunks[..|hunks| - 1]) && AllFit(hunks[..|hunks| - 1], lines)
    ensures var k := |hunks| - 1;
            var (h, before, place) := (hunks[k], AllDone(lines, hunks[..k]), Place(hunks, k));
            var there := place + Displacement(hunks, k);
            && Fits(h, before, place)
            && (if Fits(h, before, there) then ApplyFrom(lines, 0, hunks) == Ok(ReplacedAt(before, there, h))
                else ApplyFrom(lines, 0, hunks).Err?)
            && (ApplyFrom(lines, 0, hunks) == Ok(AllDone(lines, hunks)) <==>
                Fits(h, before, there) && ReplacedAt(before, there, h) == ReplacedAt(before, place, h))
  {
    hide Apart, AllFit, AllDone, Place, Fits, Total, ApplyFrom, OldText, NewText, Growth, Splice, Displacement,
         OnlyOnce, ReplacedAt;
    var k := |hunks| - 1;
    DisplacedHunk(lines, hunks, k);
    PlaceHolds(lines, hunks, k);
    assert hunks[..k + 1] == hunks && hunks[k + 1..] == [];
    var h, before, there := hunks[k], AllDone(lines, hunks[..k]), Place(hunks, k) + Displacement(hunks, k);
    ReplacedHere(before, Place(hunks, k), h);
    ApplyNone(ReplacedAt(before, there, h), Total(hunks));
  }

  // ----- displaced insertions

  lemma {:induction false} DoneLength(lines: seq<string>, hunks: seq<Hunk>)
    requires Apart(hunks) && AllFit(hunks, lines)
    ensures |AllDone(lines, hunks)| == |lines| + Total(hunks)
  {
    hide Apart, AllFit, AllDone, Place, Fits, Total, OldText, NewText;
    if hunks == [] {
      NothingDone(lines);
    } else {
      var k := |hunks| - 1;
      PlaceHolds(lines, hunks, k);
      DoneLength(lines, hunks[..k]);
      InRange(hunks[k], AllDone(lines, hunks[..k]), Place(hunks, k));
      assert hunks[..k + 1] == hunks && hunks == hunks[..k] + [hunks[k]];
      TotalNext(hunks[..k], hunks[k]);
    }
  }

  /** The lines between two places of a file. */
  function Between(lines: seq<string>, p: nat, q: nat): seq<string>
    requires p <= |lines| && q <= |lines|
  {
    if p <= q then lines[p..q] else lines[q..p]
  }

  /** Inserting in two places gives the same exactly when the insertion commutes with what is between them. */
  lemma {:induction false} InsertionsAgree(lines: seq<string>, p: nat, q: nat, text: seq<string>)
    requires p <= q <= |lines|
    ensures Splice(lines, p, p, text) == Splice(lines, q, q, text) <==> text + lines[p..q] == lines[p..q] + text
  {
    var mid, one, other := lines[p..q], Splice(lines, p, p, text), Splice(lines, q, q, text);
    assert one == lines[..p] + (text + mid) + lines[q..];
    assert other == lines[..p] + (mid + text) + lines[q..];
    assert one[p..q + |text|] == text + mid && other[p..q + |text|] == mid + text;
  }

  /**
   * A pure insertion, listed last, with a displacement: unless that leads above the file it is carried out
   * there and reported as a success, and the file is right exactly when the inserted lines commute with the
   * lines they were to stand on the other side of, as no line does that is not among those.
   */
  lemma {:induction false} InsertionMisplaced(lines: seq<string>, hunks: seq<Hunk>)
    requires Apart(hunks) && AllFit(hunks, lines) && hunks != [] && OldText(hunks[|hunks| - 1].lines) == []
    requires forall j :: 0 <= j < |hunks| - 1 ==> Displacement(hunks, j) == 0
    ensures Apart(hunks[..|hunks| - 1]) && AllFit(hunks[..|hunks| - 1], lines)
    ensures var k := |hunks| - 1;
            var (text, before, place) := (NewText(hunks[k].lines), AllDone(lines, hunks[..k]), Place(hunks, k));
            var there := place + Displacement(hunks, k);
            && 0 <= place <= |before| && there <= |before|
            && (ApplyFrom(lines, 0, hunks).Ok? <==> 0 <= there)
            && (0 <= there ==>
                  var mid := Between(before, place, there);
                  && ApplyFrom(lines, 0, hunks) == Ok(Splice(before, there, there, text))
                  && (ApplyFrom(lines, 0, hunks) == Ok(AllDone(lines, hunks)) <==> text + mid == mid + text)
                  && (there != place && text != [] && text[0] !in mid ==>
                        ApplyFrom(lines, 0, hunks) != Ok(AllDone(lines, hunks))))
  {
    hide Apart, AllFit, AllDone, Place, Fits, Total, ApplyFrom, OldText, NewText, Growth, Splice, Displacement;
    var k := |hunks| - 1;
    LastDisplaced(lines, hunks);
    var h, before, place := hunks[k], AllDone(lines, hunks[..k]), Place(hunks, k);
    var there, text := place + Displacement(hunks, k), NewText(h.lines);
    LookedFor(hunks, k);
    DoneLength(lines, hunks[..k]);
    FrontApart(lines, hunks, k);
    InRange(h, lines, h.oldStart - 1);
    ReplacedHere(before, place, h);
    InsertionFits(h, before, place, there);
    if 0 <= there {
      ReplacedHere(before, there, h);
    }
    if 0 <= there {
      if place <= there {
        InsertionsAgree(before, place, there, text);
      } else {
        InsertionsAgree(before, there, place, text);
      }
      var mid := Between(before, place, there);
      if there != place && text != [] && text[0] !in mid {
        assert (text + mid)[0] == text[0] && (mid + text)[0] == mid[0];
      }
    }
  }

  lemma {:induction false} InsertionFits(h: Hunk, lines: seq<string>, at: int, other: int)
    requires Fits(h, lines, at) && OldText(h.lines) == []
    ensures Fits(h, lines, other) <==> 0 <= other <= |lines|
  {
    hide WellMarked, OldText;
    if 0 <= other <= |lines| {
      assert lines[other..other] == [];
    }
  }

  lemma {:induction false} StandsTwice(h: Hunk, lines: seq<string>, at: int, other: int)
    requires Fits(h, lines, at) && Fits(h, lines, other) && at != other && OldText(h.lines) != []
    ensures !OnlyOnce(OldText(h.lines)[0], lines)
  {
    hide OldText, WellMarked;
    var part := OldText(h.lines);
    assert lines[at..at + |part|][0] == part[0] && lines[other..other + |part|][0] == part[0];
    assert lines[at] == lines[other] == part[0];
    assert at < other ==> !OnlyOnce(part[0], lines);
  }

  /**
   * If the first displaced hunk has old text whose first line can be told from every other line of the file
   * as it then is, the pass fails. So, whatever the other hunks are, it succeeds exactly for the orders
   * without displacement, and then does what all of the hunks do at once.
   */
  lemma {:induction false} OrderExactly(lines: seq<string>, hunks: seq<Hunk>)
    requires Apart(hunks) && AllFit(hunks, lines)
    requires forall k :: 0 <= k < |hunks| && FirstOff(hunks, k) ==>
               && Apart(hunks[..k]) && AllFit(hunks[..k], lines) && OldText(hunks[k].lines) != []
               && OnlyOnce(OldText(hunks[k].lines)[0], AllDone(lines, hunks[..k]))
    ensures ApplyFrom(lines, 0, hunks).Ok? <==> forall k :: 0 <= k < |hunks| ==> Displacement(hunks, k) == 0
    ensures ApplyFrom(lines, 0, hunks).Ok? ==> ApplyFrom(lines, 0, hunks) == Ok(AllDone(lines, hunks))
  {
    hide Apart, AllFit, AllDone, ApplyFrom, OldText, Displacement, OnlyOnce;
    if forall k :: 0 <= k < |hunks| ==> Displacement(hunks, k) == 0 {
      HarmlessOrder(lines, hunks);
      DoneAtOnce(lines, hunks);
    } else {
      var k := FirstDisplaced(hunks);
      assert FirstOff(hunks, k);
      DisplacedHunk(lines, hunks, k);
    }
  }

  lemma {:induction false} DoneAtOnce(lines: seq<string>, hunks: seq<Hunk>)
    requires Apart(hunks) && AllFit(hunks, lines)
    ensures Ordered(Sorted(hunks), 0) && AllFit(Sorted(hunks), lines)
    ensures AllDone(lines, hunks) == OnePass(lines, Sorted(hunks), 0)
  {
    hide Apart, AllFit, Ordered, Sorted, OnePass;
    SortedOk(lines, hunks);
  }

  /** The k-th hunk is the first that is looked for in the wrong place. */
  predicate FirstOff(hunks: seq<Hunk>, k: nat)
    requires k < |hunks|
  {
    Displacement(hunks, k) != 0 && forall j :: 0 <= j < k ==> Displacement(hunks, j) == 0
  }

  function FirstDisplaced(hunks: seq<Hunk>): (k: nat)
    requires exists k :: 0 <= k < |hunks| && Displacement(hunks, k) != 0
    ensures k < |hunks| && Displacement(hunks, k) != 0
    ensures forall j :: 0 <= j < k ==> Displacement(hunks, j) == 0
  {
    FirstFrom(hunks, 0)
  }

  function FirstFrom(hunks: seq<Hunk>, from: nat): (k: nat)
    requires from <= |hunks| && exists k :: from <= k < |hunks| && Displacement(hunks, k) != 0
    requires forall j :: 0 <= j < from ==> Displacement(hunks, j) == 0
    ensures k < |hunks| && Displacement(hunks, k) != 0
    ensures forall j :: 0 <= j < k ==> Displacement(hunks, j) == 0
    decreases |hunks| - from
  {
    if Displacement(hunks, from) != 0 then from else FirstFrom(hunks, from + 1)
  }

  /**
   * With two hunks, the lower one listed first, the upper one is looked for off its place by the growth of
   * the lower one. The pass succeeds exactly when it fits there; the result is that of the other order
   * exactly when, besides, it makes no difference whether it is carried out there or in its place.
   */
  lemma {:induction false} LowerFirst(lines: seq<string>, upper: Hunk, lower: Hunk)
    requires Before(upper, lower) && !Before(lower, upper) && AllFit([upper, lower], lines)
    ensures var (at, from) := (upper.oldStart - 1, lower.oldStart - 1);
            && 0 <= at && 0 <= from <= from + |OldText(lower.lines)| <= |lines|
            && (var (before, there) := (Splice(lines, from, from + |OldText(lower.lines)|, NewText(lower.lines)),
                                        at + Growth(lower));
                && Fits(upper, before, at)
                && (if Fits(upper, before, there) then
                      ApplyFrom(lines, 0, [lower, upper]) == Ok(ReplacedAt(before, there, upper))
                    else ApplyFrom(lines, 0, [lower, upper]).Err?)
                && (ApplyFrom(lines, 0, [lower, upper]) == ApplyFrom(lines, 0, [upper, lower]) <==>
                    Fits(upper, before, there) && ReplacedAt(before, there, upper) == ReplacedAt(before, at, upper)))
  {
    hide Fits, Growth, OldText, NewText, ApplyFrom, Before, Splice, ReplacedAt;
    var hunks := [lower, upper];
    assert hunks[..0] == [] && hunks[..1] == [lower] && hunks[0] == lower && hunks[1] == upper;
    TwoApart(lines, upper, lower);
    TwoSums(upper, lower);
    TwoSorted(upper, lower);
    OneDone(lines, hunks);
    InRange(lower, lines, lower.oldStart - 1);
    InRange(upper, lines, upper.oldStart - 1);
    LastDisplaced(lines, hunks);
    DoneAtOnce(lines, hunks);
    hide AllFit, AllDone, OnlyOnce, Displacement, Apart, Sorted, Ordered, OnePass;
    SequentialIsSimultaneous(lines, [upper, lower]);
    InRange(upper, AllDone(lines, [lower]), upper.oldStart - 1);
  }

  lemma {:induction false} TwoApart(lines: seq<string>, upper: Hunk, lower: Hunk)
    requires Before(upper, lower) && AllFit([upper, lower], lines)
    ensures Apart([lower, upper]) && AllFit([lower, upper], lines)
    ensures Fits(upper, lines, upper.oldStart - 1) && Fits(lower, lines, lower.oldStart - 1)
  {
    hide Fits, Before;
    assert Fits([upper, lower][0], lines, upper.oldStart - 1) && Fits([upper, lower][1], lines, lower.oldStart - 1);
  }

  /** The first hunk of a list has nothing before it. */
  lemma {:induction false} OneDone(lines: seq<string>, hunks: seq<Hunk>)
    requires Apart(hunks) && AllFit(hunks, lines) && hunks != []
    ensures Apart(hunks[..1]) && AllFit(hunks[..1], lines) && Displacement(hunks, 0) == 0
    ensures var (h, at) := (hunks[0], hunks[0].oldStart - 1);
            && 0 <= at <= at + |OldText(h.lines)| <= |lines|
            && AllDone(lines, hunks[..1]) == Splice(lines, at, at + |OldText(h.lines)|, NewText(h.lines))
  {
    hide Apart, AllFit, AllDone, OldText, NewText, Splice, Fits;
    NothingDone(lines);
    PlaceHolds(lines, hunks, 0);
    assert hunks[..0] == [] && hunks[..0 + 1] == hunks[..1];
    InRange(hunks[0], lines, hunks[0].oldStart - 1);
  }

  lemma {:induction false} TwoSums(upper: Hunk, lower: Hunk)
    requires !Before(lower, upper)
    ensures GrowthBelow(upper, [lower]) == Growth(lower) && GrowthAbove(upper, [lower]) == 0
  {
    hide Before, Growth;
    assert [lower][..0] == [];
  }

  lemma {:induction false} TwoSorted(upper: Hunk, lower: Hunk)
    requires !Before(lower, upper)
    ensures Sorted([lower, upper]) == [upper, lower]
  {
    hide Before;
    assert [lower, upper][..1] == [lower] && [lower][..0] == [];
    SortedUnfolds([lower, upper]);
    SortedUnfolds([lower]);
    SortedUnfolds([]);
    hide Sorted;
    assert Insert(lower, []) == [lower];
    assert Insert(upper, [lower]) == [upper] + [lower];
  }

  // ----- three short patches

  const BELOW := Hunk(2, 1, 2, 2, ["-b", "+x", "+y"])
  const ABOVE := Hunk(1, 1, 1, 1, ["-a", "+z"])
  const ON_TOP := Hunk(1, 0, 1, 1, ["+z"])

  lemma {:induction false} BodiesRead()
    ensures OldText(ABOVE.lines) == ["a"] && NewText(ABOVE.lines) == ["z"] && WellMarked(ABOVE.lines)
    ensures OldText(ON_TOP.lines) == [] && NewText(ON_TOP.lines) == ["z"] && WellMarked(ON_TOP.lines)
    ensures OldText(BELOW.lines) == ["b"] && NewText(BELOW.lines) == ["x", "y"] && WellMarked(BELOW.lines)
  {
  }

  lemma {:induction false} SplicesRead()
    ensures Splice(["a", "b"], 0, 1, ["z"]) == ["z", "b"]
    ensures Splice(["z", "b"], 1, 2, ["x", "y"]) == ["z", "x", "y"]
    ensures Splice(["a", "x", "y"], 1, 1, ["z"]) == ["a", "z", "x", "y"]
    ensures Splice(["a", "b"], 0, 0, ["z"]) == ["z", "a", "b"]
    ensures Splice(["z", "a", "b"], 2, 3, ["x", "y"]) == ["z", "a", "x", "y"]
  {
  }

  /** Two hunks whose old texts stand where they are looked for. */
  lemma {:induction false} TwoSteps(lines: seq<string>, g: Hunk, h: Hunk)
    requires Fits(g, lines, g.oldStart - 1)
    ensures var (at, there) := (g.oldStart - 1, h.oldStart - 1 + Growth(g));
            && 0 <= at <= at + |OldText(g.lines)| <= |lines|
            && (var next := Splice(lines, at, at + |OldText(g.lines)|, NewText(g.lines));
                if Fits(h, next, there) then
                  && 0 <= there <= there + |OldText(h.lines)| <= |next|
                  && ApplyFrom(lines, 0, [g, h])
                  == Ok(Splice(next, there, there + |OldText(h.lines)|, NewText(h.lines)))
                else ApplyFrom(lines, 0, [g, h]).Err?)
  {
    hide OldText, NewText, Growth, ApplyFrom, Fits, Splice;
    assert [g, h][1..] == [h] && [h][1..] == [];
    InRange(g, lines, g.oldStart - 1);
    ApplyOne(lines, 0, [g, h]);
    var next := Splice(lines, g.oldStart - 1, g.oldStart - 1 + |OldText(g.lines)|, NewText(g.lines));
    var there := h.oldStart - 1 + Growth(g);
    ApplyOne(next, Growth(g), [h]);
    if Fits(h, next, there) {
      InRange(h, next, there);
      ApplyNone(Splice(next, there, there + |OldText(h.lines)|, NewText(h.lines)), Growth(g) + Growth(h));
    }
  }

  lemma {:induction false} BelowFirst()
    ensures Fits(BELOW, ["a", "b"], 1) && Growth(BELOW) == 1
    ensures Splice(["a", "b"], 1, 2, ["x", "y"]) == ["a", "x", "y"]
  {
    hide OldText, NewText, WellMarked;
    BodiesRead();
    assert ["a", "b"][1..2] == ["b"];
  }

  lemma {:induction false} ChangeFromTop()
    ensures ApplyFrom(["a", "b"], 0, [ABOVE, BELOW]) == Ok(["z", "x", "y"])
  {
    hide OldText, NewText, WellMarked, ApplyFrom, Splice;
    BodiesRead();
    SplicesRead();
    assert ["a", "b"][0..1] == ["a"] && ["z", "b"][1..2] == ["b"];
    TwoSteps(["a", "b"], ABOVE, BELOW);
  }

  lemma {:induction false} InsertFromTop()
    ensures ApplyFrom(["a", "b"], 0, [ON_TOP, BELOW]) == Ok(["z", "a", "x", "y"])
  {
    hide OldText, NewText, WellMarked, ApplyFrom, Splice;
    BodiesRead();
    SplicesRead();
    assert ["a", "b"][0..0] == [] && ["z", "a", "b"][2..3] == ["b"];
    TwoSteps(["a", "b"], ON_TOP, BELOW);
  }

  /** Two changes of one line each apply from the top down; in the other order the patch fails. */
  lemma {:induction false} OutOfOrderMisses()
    ensures ApplyFrom(["a", "b"], 0, [ABOVE, BELOW]) == Ok(["z", "x", "y"])
    ensures ApplyFrom(["a", "b"], 0, [BELOW, ABOVE]).Err?
  {
    hide OldText, NewText, WellMarked, ApplyFrom, Splice;
    ChangeFromTop();
    BodiesRead();
    BelowFirst();
    TwoSteps(["a", "b"], BELOW, ABOVE);
    assert ["a", "x", "y"][1..2] == ["x"] && ["x"][0] == "x";
  }

  /** An insertion listed second lands in the wrong place, although all lines are different. */
  lemma {:induction false} OutOfOrderMisplaces()
    ensures ApplyFrom(["a", "b"], 0, [ON_TOP, BELOW]) == Ok(["z", "a", "x", "y"])
    ensures ApplyFrom(["a", "b"], 0, [BELOW, ON_TOP]) == Ok(["a", "z", "x", "y"])
  {
    hide OldText, NewText, WellMarked, ApplyFrom, Splice;
    InsertFromTop();
    BodiesRead();
    BelowFirst();
    TwoSteps(["a", "b"], BELOW, ON_TOP);
    assert ["a", "x", "y"][1..1] == [];
    SplicesRead();
  }
}
