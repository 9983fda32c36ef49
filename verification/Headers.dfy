/**
 * What the diff reader makes of headers however they are written, and when it accepts a text at all: which
 * header lines are read and as what, and that everything behind the two ranges of a hunk header is ignored.
 */
module Headers {
  import opened Text
  import opened Decimal
  import opened Hunks
  import opened PatchParser

  // ----- words of a line

  /** What may follow a word: nothing, or the separator and anything. */
  predicate Follows(tail: string, sep: char)
  {
    tail == "" || tail[0] == sep
  }

  lemma {:induction false} FirstWord(word: string, tail: string, sep: char)
    requires sep !in word && Follows(tail, sep)
    ensures var parts := Split(word + tail, sep);
            parts[0] == word && parts[1..] == if tail == "" then [] else Split(tail[1..], sep)
  {
    if tail == "" {
      SplitPart(word, sep);
      assert word + tail == word;
    } else {
      SplitHead(word, sep, tail[1..]);
      assert word + tail == word + [sep] + tail[1..];
    }
  }

  lemma {:induction false} WordAndTail(s: string, sep: char) returns (tail: string)
    ensures Follows(tail, sep) && s == Split(s, sep)[0] + tail && sep !in Split(s, sep)[0]
    ensures Split(s, sep)[1..] == if tail == "" then [] else Split(tail[1..], sep)
  {
    var parts := Split(s, sep);
    JoinSplit(s, sep);
    if |parts| == 1 {
      tail := "";
    } else {
      var rest := parts[1..];
      assert parts == [parts[0]] + rest;
      JoinCons(parts[0], rest, sep);
      tail := [sep] + Join(rest, sep);
      assert s == parts[0] + tail && tail[1..] == Join(rest, sep);
      assert forall k :: 0 <= k < |rest| ==> rest[k] == parts[k + 1];
      SplitJoin(rest, sep);
    }
  }

  // ----- ranges

  /** A start alone, or a start and a count; behind a second comma anything may follow. */
  predicate SpellsRange(r: string, first: string, second: string, tail: string)
  {
    ',' !in first && ',' !in second && Follows(tail, ',') && r == first + "," + second + tail
  }

  /** What is read as a range, exactly; a count that is left out is one. */
  lemma {:induction false} RangeExactly(r: string, start: int, count: int)
    ensures ParseRange(r) == Ok((start, count)) <==>
            || (',' !in r && Atoi(r) == Number(start) && count == 1)
            || exists first, second, tail ::
                 SpellsRange(r, first, second, tail) && Atoi(first) == Number(start) && Atoi(second) == Number(count)
  {
    hide Atoi, Split;
    var parts := Split(r, ',');
    var tail := WordAndTail(r, ',');
    if tail != "" {
      var tail2 := WordAndTail(tail[1..], ',');
      assert parts[1] == parts[1..][0] == Split(tail[1..], ',')[0];
      assert r == parts[0] + "," + (parts[1] + tail2);
      assert SpellsRange(r, parts[0], parts[1], tail2);
      assert ',' in r;
    } else {
      assert r == parts[0];
    }
    forall first, second, rest | SpellsRange(r, first, second, rest)
      ensures |parts| > 1 && parts[0] == first && parts[1] == second
    {
      RangeWords(r, first, second, rest);
    }
    assert parts[1..] == [] ==> |parts| == 1;
  }

  lemma {:induction false} RangeWords(r: string, first: string, second: string, tail: string)
    requires SpellsRange(r, first, second, tail)
    ensures |Split(r, ',')| > 1 && Split(r, ',')[0] == first && Split(r, ',')[1] == second
  {
    hide Split;
    var rest := "," + (second + tail);
    assert rest[1..] == second + tail && r == first + rest;
    FirstWord(first, rest, ',');
    FirstWord(second, tail, ',');
    var parts := Split(r, ',');
    assert parts[1..] == Split(second + tail, ',');
    assert parts[1] == parts[1..][0];
  }

  // ----- hunk headers

  /** The line is three words, separated by single spaces, and anything behind them. */
  predicate Words(line: string, first: string, second: string, third: string, tail: string)
  {
    && ' ' !in first && ' ' !in second && ' ' !in third && Follows(tail, ' ')
    && line == first + " " + second + " " + third + tail
  }

  lemma {:induction false} ThreeWords(line: string, first: string, second: string, third: string, tail: string)
    requires Words(line, first, second, third, tail)
    ensures var parts := Split(line, ' ');
            |parts| >= 3 && parts[1] == second && parts[2] == third
  {
    hide Split;
    var two, one := " " + (third + tail), " " + (second + (" " + (third + tail)));
    assert two[1..] == third + tail && one[1..] == second + two && line == first + one;
    FirstWord(first, one, ' ');
    FirstWord(second, two, ' ');
    FirstWord(third, tail, ' ');
    var parts := Split(line, ' ');
    assert parts[1..] == Split(one[1..], ' ') && parts[1..][1..] == Split(two[1..], ' ');
    assert parts[1] == parts[1..][0] && parts[2] == parts[1..][1..][0];
  }

  lemma {:induction false} WordsOf(line: string) returns (first: string, second: string, third: string, tail: string)
    requires |Split(line, ' ')| >= 3
    ensures Words(line, first, second, third, tail)
  {
    hide Split;
    var parts := Split(line, ' ');
    var one := WordAndTail(line, ' ');
    var two := WordAndTail(one[1..], ' ');
    tail := WordAndTail(two[1..], ' ');
    assert parts[1..] == Split(one[1..], ' ') && parts[1..][1..] == Split(two[1..], ' ');
    first, second, third := parts[0], Split(one[1..], ' ')[0], Split(two[1..], ' ')[0];
    assert line == first + " " + (second + (" " + (third + tail)));
  }

  /** A word with one leading mark taken off, if it has it. */
  predicate Unmarked(word: string, mark: char, r: string)
  {
    word == [mark] + r || (word == r && (r == "" || r[0] != mark))
  }

  lemma {:induction false} UnmarkedIsTrimmed(word: string, mark: char, r: string)
    ensures Unmarked(word, mark, r) <==> TrimPrefix(word, [mark]) == r
  {
    if word != "" && word[0] == mark {
      assert word == [mark] + word[1..];
    }
    assert ([mark] + r)[1..] == r;
  }

  /** The line is read as these numbers. */
  ghost predicate ReadsAs(line: string, h: Hunk, before: string, after: string)
  {
    exists first, second, third, tail ::
      && Words(line, first, second, third, tail) && Unmarked(second, '-', before) && Unmarked(third, '+', after)
      && ParseRange(before) == Ok((h.oldStart, h.oldLines)) && ParseRange(after) == Ok((h.newStart, h.newLines))
  }

  /**
   * What is read as a hunk header, exactly: a line of three words or more, whose second and third are ranges,
   * a minus before the first and a plus before the second being taken off. Nothing else of it matters.
   */
  lemma {:induction false} HeaderExactly(line: string, h: Hunk)
    ensures ParseHeader(line) == Ok(h) <==> h.lines == [] && exists before, after :: ReadsAs(line, h, before, after)
  {
    hide Split, ParseRange, TrimPrefix, Unmarked;
    var parts := Split(line, ' ');
    if ParseHeader(line) == Ok(h) {
      var first, second, third, tail := WordsOf(line);
      ThreeWords(line, first, second, third, tail);
      UnmarkedIsTrimmed(second, '-', TrimPrefix(second, "-"));
      UnmarkedIsTrimmed(third, '+', TrimPrefix(third, "+"));
      assert ReadsAs(line, h, TrimPrefix(second, "-"), TrimPrefix(third, "+"));
    }
    if before, after :| h.lines == [] && ReadsAs(line, h, before, after) {
      var first, second, third, tail :|
        && Words(line, first, second, third, tail) && Unmarked(second, '-', before) && Unmarked(third, '+', after)
        && ParseRange(before) == Ok((h.oldStart, h.oldLines)) && ParseRange(after) == Ok((h.newStart, h.newLines));
      ThreeWords(line, first, second, third, tail);
      UnmarkedIsTrimmed(second, '-', before);
      UnmarkedIsTrimmed(third, '+', after);
    }
  }

  /** A hunk header as diff tools write it, with whatever they put behind the ranges. */
  function Heading(h: Hunk, tail: string): string
  {
    "@@ -" + PrintRange(h.oldStart, h.oldLines) + " +" + PrintRange(h.newStart, h.newLines) + tail
  }

  /** The closing marks, a section heading, anything else behind a space, or nothing at all. */
  predicate GoodTail(tail: string)
  {
    Follows(tail, ' ') && NL !in tail
  }

  lemma {:induction false} HeadingReads(h: Hunk, tail: string)
    requires NumbersFit(h) && GoodTail(tail)
    ensures ParseHeader(Heading(h, tail)) == Ok(h.(lines := []))
    ensures HasPrefix(Heading(h, tail), HUNK_MARK) && !HasPrefix(Heading(h, tail), FILE_MARK)
    ensures NL !in Heading(h, tail)
  {
    hide Split, ParseRange, PrintRange, Itoa, Atoi, ParseHeader, Words, ReadsAs;
    RangeRoundTrip(h.oldStart, h.oldLines);
    RangeRoundTrip(h.newStart, h.newLines);
    var before, after := PrintRange(h.oldStart, h.oldLines), PrintRange(h.newStart, h.newLines);
    HeadingWords(h, tail, before, after);
    HeaderExactly(Heading(h, tail), h.(lines := []));
    assert Heading(h, tail)[0] == '@' && Heading(h, tail)[1] == '@';
  }

  lemma {:induction false} HeadingWords(h: Hunk, tail: string, before: string, after: string)
    requires before == PrintRange(h.oldStart, h.oldLines) && after == PrintRange(h.newStart, h.newLines)
    requires (forall c :: c in before + after ==> IsDigit(c) || c == '-' || c == ',') && GoodTail(tail)
    requires ParseRange(before) == Ok((h.oldStart, h.oldLines)) && ParseRange(after) == Ok((h.newStart, h.newLines))
    ensures ReadsAs(Heading(h, tail), h.(lines := []), before, after) && NL !in Heading(h, tail)
  {
    hide ParseRange, PrintRange;
    assert (forall c :: c in before ==> c in before + after) && forall c :: c in after ==> c in before + after;
    assert ' ' !in before && ' ' !in after && NL !in before && NL !in after;
    assert Heading(h, tail) == "@@" + " " + ("-" + before) + " " + ("+" + after) + tail;
    assert Words(Heading(h, tail), "@@", "-" + before, "+" + after, tail);
    assert "-" + before == ['-'] + before && "+" + after == ['+'] + after;
  }

  // ----- spelling headers differently

  /** The same line, or hunk headers that are read alike. */
  predicate ReadAlike(x: string, y: string)
  {
    x == y ||
    (HasPrefix(x, HUNK_MARK) && !HasPrefix(x, FILE_MARK) && HasPrefix(y, HUNK_MARK) && !HasPrefix(y, FILE_MARK)
     && ParseHeader(x) == ParseHeader(y))
  }

  predicate AllReadAlike(a: seq<string>, b: seq<string>)
  {
    |a| == |b| && forall k :: 0 <= k < |a| ==> ReadAlike(a[k], b[k])
  }

  lemma {:induction false} SameReading(a: seq<string>, b: seq<string>, current: string, patch: Patch)
    requires AllReadAlike(a, b)
    ensures ParseFrom(a, current, patch) == ParseFrom(b, current, patch)
    decreases |a|
  {
    hide ParseFrom, ParseHeader, HasPrefix, TrimPrefix, AddFile, AddHunk;
    if a != [] {
      assert a[0..] == a && b[0..] == b && ReadAlike(a[0], b[0]);
      ParseStep(a, 0, current, patch);
      ParseStep(b, 0, current, patch);
      if HasPrefix(a[0], FILE_MARK) {
        var file := TrimPrefix(a[0], FILE_MARK);
        SameReading(a[1..], b[1..], file, AddFile(patch, file));
      } else if !HasPrefix(a[0], HUNK_MARK) {
        SameReading(a[1..], b[1..], current, patch);
      } else if current != "" && ParseHeader(a[0]).Ok? {
        var n := 1 + BodyLength(a[1..]);
        forall k | 0 < k < n ensures !IsHeader(a[k]) && a[k] == b[k] {
          assert a[k] == a[1..][k - 1] && ReadAlike(a[k], b[k]);
        }
        assert n < |a| ==> a[n] == a[1..][n - 1] && ReadAlike(a[n], b[n]);
        ParseStepHunk(a, 0, n, current, patch);
        ParseStepHunk(b, 0, n, current, patch);
        assert a[1..n] == b[1..n];
        SameReading(a[n..], b[n..], current, AddHunk(patch, current, ParseHeader(a[0]).value.(lines := a[1..n])));
      }
    }
  }

  /** The line is the same, or a printed hunk header with another tail. */
  ghost predicate Respelled(x: string, y: string)
  {
    x == y || exists h, tail :: NumbersFit(h) && GoodTail(tail) && x == PrintHeader(h) && y == Heading(h, tail)
  }

  /**
   * Printed entries are read back as the same names and hunks when hunk headers carry any other text, or none,
   * behind their ranges: section headings, say, as version-control tools put there.
   */
  lemma {:induction false} ParseRespelled(entries: seq<Entry>, lines: seq<string>)
    requires entries != [] && forall k :: 0 <= k < |entries| ==> Printable(entries[k])
    requires |lines| == |PrintEntries(entries)|
    requires forall k :: 0 <= k < |lines| ==> Respelled(PrintEntries(entries)[k], lines[k])
    ensures Parse(Join(lines, NL)).Ok? && Holds(Parse(Join(lines, NL)).value, entries)
  {
    hide Printable, Writable, PrintEntries, ParseFrom, ParseHeader, HasPrefix, Heading, PrintHeader, Holds;
    forall k | 0 <= k < |entries| ensures Writable(entries[k]) {
      PrintableIsWritable(entries[k]);
    }
    LinesFree(entries);
    EntriesHaveLines(entries);
    var printed := PrintEntries(entries);
    forall k | 0 <= k < |lines| ensures ReadAlike(printed[k], lines[k]) && NL !in lines[k] {
      if printed[k] != lines[k] {
        var h, tail :|
          NumbersFit(h) && GoodTail(tail) && printed[k] == PrintHeader(h) && lines[k] == Heading(h, tail);
        HeadingReads(h, tail);
        HeaderRoundTrip(h);
      }
    }
    SplitJoin(printed, NL);
    SplitJoin(lines, NL);
    SameReading(printed, lines, "", EMPTY);
    ParsePrint(entries);
  }

  // ----- the reader, line by line

  predicate FileLine(line: string)
  {
    HasPrefix(line, "+++ b/")
  }

  predicate HunkLine(line: string)
  {
    HasPrefix(line, "@@")
  }

  /** The file named last above line k. */
  function FileAbove(lines: seq<string>, k: nat): string
    requires k <= |lines|
  {
    if k == 0 then "" else if FileLine(lines[k - 1]) then lines[k - 1][6..] else FileAbove(lines, k - 1)
  }

  /** Line k, if it is a hunk header, can be read and belongs to a file. */
  predicate GoodHunkLine(lines: seq<string>, k: nat)
    requires k < |lines|
  {
    HunkLine(lines[k]) ==> ParseHeader(lines[k]).Ok? && FileAbove(lines, k) != ""
  }

  predicate AllGood(lines: seq<string>, i: nat)
    requires i <= |lines|
  {
    forall k :: i <= k < |lines| ==> GoodHunkLine(lines, k)
  }

  /** The files named from line i on. */
  function FilesFrom(lines: seq<string>, i: nat): seq<string>
    requires i <= |lines|
    decreases |lines| - i
  {
    if i == |lines| then [] else (if FileLine(lines[i]) then [lines[i][6..]] else []) + FilesFrom(lines, i + 1)
  }

  /** How many lines from line i on are neither kind of header. */
  function Run(lines: seq<string>, i: nat): (n: nat)
    requires i <= |lines|
    ensures i + n <= |lines|
    decreases |lines| - i
  {
    if i == |lines| || FileLine(lines[i]) || HunkLine(lines[i]) then 0 else 1 + Run(lines, i + 1)
  }

  /** The hunks for one file from line i on: the numbers of each header and all lines up to the next one. */
  function HunksFrom(lines: seq<string>, i: nat, file: string): seq<Hunk>
    requires i <= |lines|
    decreases |lines| - i
  {
    if i == |lines| then []
    else
      var more := HunksFrom(lines, i + 1, file);
      if HunkLine(lines[i]) && FileAbove(lines, i) == file && ParseHeader(lines[i]).Ok? then
        [ParseHeader(lines[i]).value.(lines := lines[i + 1..i + 1 + Run(lines, i + 1)])] + more
      else more
  }

  lemma {:induction false} RunIs(lines: seq<string>, i: nat, n: nat)
    requires i + n <= |lines| && forall k :: i <= k < i + n ==> !IsHeader(lines[k])
    requires i + n < |lines| ==> IsHeader(lines[i + n])
    ensures Run(lines, i) == n
    decreases n
  {
    if n > 0 {
      RunIs(lines, i + 1, n - 1);
    }
  }

  /** Lines that are no headers name no file and start no hunk. */
  lemma {:induction false} NothingInBetween(lines: seq<string>, i: nat, j: nat, file: string)
    requires i <= j <= |lines| && forall k :: i <= k < j ==> !IsHeader(lines[k])
    ensures FileAbove(lines, j) == FileAbove(lines, i) && FilesFrom(lines, i) == FilesFrom(lines, j)
    ensures HunksFrom(lines, i, file) == HunksFrom(lines, j, file)
    decreases j - i
  {
    hide ParseHeader;
    if i < j {
      NothingInBetween(lines, i + 1, j, file);
    }
  }

  /** The reader from line i on has read what the lines say one by one. */
  ghost predicate Says(r: Result<Patch>, lines: seq<string>, i: nat, patch: Patch)
    requires i <= |lines|
  {
    && (r.Ok? <==> patch.files + FilesFrom(lines, i) != [] && AllGood(lines, i))
    && (r.Ok? ==>
          r.value.files == patch.files + FilesFrom(lines, i) &&
          forall file :: HunksFor(r.value.hunks, file) == HunksFor(patch.hunks, file) + HunksFrom(lines, i, file))
  }

  lemma {:induction false} ParseSays(lines: seq<string>, i: nat, patch: Patch)
    requires i <= |lines|
    ensures Says(ParseFrom(lines[i..], FileAbove(lines, i), patch), lines, i, patch)
    decreases |lines| - i
  {
    hide ParseFrom, ParseHeader, HasPrefix, Says, HunksFrom, FilesFrom, AllGood;
    var current := FileAbove(lines, i);
    if i == |lines| {
      ParseEnd(current, patch);
      SaysAtEnd(lines, patch);
      assert lines[i..] == [];
    } else {
      ParseStep(lines, i, current, patch);
      if FileLine(lines[i]) {
        FileLineSays(lines[i]);
        ParseSays(lines, i + 1, AddFile(patch, lines[i][6..]));
        SaysFile(ParseFrom(lines[i + 1..], lines[i][6..], AddFile(patch, lines[i][6..])), lines, i, patch);
      } else if !HunkLine(lines[i]) {
        ParseSays(lines, i + 1, patch);
        SaysNothing(ParseFrom(lines[i + 1..], current, patch), lines, i, patch);
      } else if current == "" || ParseHeader(lines[i]).Err? {
        SaysBad(ParseFrom(lines[i..], current, patch), lines, i, patch);
      } else {
        var n := BodyLength(lines[i + 1..]);
        var j := i + 1 + n;
        assert forall k :: i < k < j ==> lines[k] == lines[i + 1..][k - (i + 1)];
        assert j < |lines| ==> lines[j] == lines[i + 1..][n];
        ParseStepHunk(lines, i, j, current, patch);
        RunIs(lines, i + 1, n);
        NothingInBetween(lines, i + 1, j, "");
        var h := ParseHeader(lines[i]).value.(lines := lines[i + 1..j]);
        ParseSays(lines, j, AddHunk(patch, current, h));
        SaysHunk(ParseFrom(lines[j..], current, AddHunk(patch, current, h)), lines, i, j, patch, h);
      }
    }
  }

  lemma {:induction false} FileLineSays(line: string)
    requires FileLine(line)
    ensures |line| >= 6 && TrimPrefix(line, FILE_MARK) == line[6..] && !HunkLine(line)
  {
    assert line[0] == '+';
  }

  lemma {:induction false} SaysAtEnd(lines: seq<string>, patch: Patch)
    ensures Says(if patch.files == [] then Err(NoFiles) else Ok(patch), lines, |lines|, patch)
  {
  }

  lemma {:induction false} SaysFile(r: Result<Patch>, lines: seq<string>, i: nat, patch: Patch)
    requires i < |lines| && FileLine(lines[i]) && Says(r, lines, i + 1, AddFile(patch, lines[i][6..]))
    ensures Says(r, lines, i, patch)
  {
    hide ParseHeader, HasPrefix, HunksFrom, FilesFrom, FileAbove;
    NoHunkHere(lines, i);
    assert patch.files + [lines[i][6..]] + FilesFrom(lines, i + 1)
        == patch.files + ([lines[i][6..]] + FilesFrom(lines, i + 1));
  }

  /** A file line starts no hunk. */
  lemma {:induction false} NoHunkHere(lines: seq<string>, i: nat)
    requires i < |lines| && FileLine(lines[i])
    ensures |lines[i]| >= 6 && GoodHunkLine(lines, i)
    ensures FilesFrom(lines, i) == [lines[i][6..]] + FilesFrom(lines, i + 1)
    ensures forall file :: HunksFrom(lines, i, file) == HunksFrom(lines, i + 1, file)
  {
    FileLineSays(lines[i]);
    hide ParseHeader, HasPrefix;
  }

  lemma {:induction false} SaysNothing(r: Result<Patch>, lines: seq<string>, i: nat, patch: Patch)
    requires i < |lines| && !FileLine(lines[i]) && !HunkLine(lines[i]) && Says(r, lines, i + 1, patch)
    ensures Says(r, lines, i, patch)
  {
    hide ParseHeader, HasPrefix;
    assert GoodHunkLine(lines, i);
  }

  lemma {:induction false} SaysBad(r: Result<Patch>, lines: seq<string>, i: nat, patch: Patch)
    requires i < |lines| && HunkLine(lines[i]) && (FileAbove(lines, i) == "" || ParseHeader(lines[i]).Err?) && r.Err?
    ensures Says(r, lines, i, patch)
  {
    hide ParseHeader;
    assert !GoodHunkLine(lines, i);
  }

  lemma {:induction false} SaysHunk(r: Result<Patch>, lines: seq<string>, i: nat, j: nat, patch: Patch, h: Hunk)
    requires i < j <= |lines| && HunkLine(lines[i]) && !FileLine(lines[i]) && j == i + 1 + Run(lines, i + 1)
    requires forall k :: i < k < j ==> !IsHeader(lines[k])
    requires ParseHeader(lines[i]).Ok? && FileAbove(lines, i) != ""
    requires h == ParseHeader(lines[i]).value.(lines := lines[i + 1..j])
    requires Says(r, lines, j, AddHunk(patch, FileAbove(lines, i), h))
    ensures Says(r, lines, i, patch)
  {
    hide ParseHeader, HasPrefix, HunksFrom, FilesFrom, AddHunk, HunksFor, AllGood, Run, FileAbove;
    var current := FileAbove(lines, i);
    forall file
      ensures HunksFrom(lines, i, file) == (if file == current then [h] else []) + HunksFrom(lines, j, file)
      ensures HunksFor(AddHunk(patch, current, h).hunks, file)
           == HunksFor(patch.hunks, file) + (if file == current then [h] else [])
    {
      HunkFirst(lines, i, j, file);
      AddsOne(patch, current, h, file);
    }
    AddsOne(patch, current, h, "");
    GoodAcross(lines, i, j);
    if r.Ok? {
      forall file ensures HunksFor(r.value.hunks, file) == HunksFor(patch.hunks, file) + HunksFrom(lines, i, file) {
        assert HunksFor(r.value.hunks, file)
            == HunksFor(AddHunk(patch, current, h).hunks, file) + HunksFrom(lines, j, file);
      }
    }
  }

  lemma {:induction false} GoodAcross(lines: seq<string>, i: nat, j: nat)
    requires i < j <= |lines| && HunkLine(lines[i]) && !FileLine(lines[i])
    requires forall k :: i < k < j ==> !IsHeader(lines[k])
    ensures AllGood(lines, i) <==> GoodHunkLine(lines, i) && AllGood(lines, j)
    ensures FilesFrom(lines, i) == FilesFrom(lines, j)
  {
    hide ParseHeader, HunksFrom, AllGood, GoodHunkLine, FilesFrom, FileAbove;
    NothingInBetween(lines, i + 1, j, "");
    GoodOver(lines, i + 1, j);
    GoodCons(lines, i);
    NamesNothing(lines, i);
  }

  lemma {:induction false} NamesNothing(lines: seq<string>, i: nat)
    requires i < |lines| && !FileLine(lines[i])
    ensures FilesFrom(lines, i) == FilesFrom(lines, i + 1)
  {
    hide HasPrefix;
  }

  lemma {:induction false} GoodCons(lines: seq<string>, i: nat)
    requires i < |lines|
    ensures AllGood(lines, i) <==> GoodHunkLine(lines, i) && AllGood(lines, i + 1)
  {
    hide GoodHunkLine;
  }

  lemma {:induction false} GoodOver(lines: seq<string>, i: nat, j: nat)
    requires i <= j <= |lines| && forall k :: i <= k < j ==> !IsHeader(lines[k])
    ensures AllGood(lines, i) <==> AllGood(lines, j)
    decreases j - i
  {
    hide AllGood, ParseHeader, FileAbove;
    if i < j {
      GoodOver(lines, i + 1, j);
      GoodCons(lines, i);
    }
  }

  lemma {:induction false} HunkFirst(lines: seq<string>, i: nat, j: nat, file: string)
    requires i < j <= |lines| && HunkLine(lines[i]) && j == i + 1 + Run(lines, i + 1)
    requires (forall k :: i < k < j ==> !IsHeader(lines[k])) && ParseHeader(lines[i]).Ok?
    ensures HunksFrom(lines, i, file)
         == (if file == FileAbove(lines, i) then [ParseHeader(lines[i]).value.(lines := lines[i + 1..j])] else [])
            + HunksFrom(lines, j, file)
  {
    hide ParseHeader, HasPrefix, FileAbove, Run;
    NothingInBetween(lines, i + 1, j, file);
  }

  lemma {:induction false} AddsOne(patch: Patch, current: string, h: Hunk, file: string)
    ensures AddHunk(patch, current, h).files == patch.files
    ensures HunksFor(AddHunk(patch, current, h).hunks, file)
         == HunksFor(patch.hunks, file) + (if file == current then [h] else [])
  {
  }

  /**
   * When a text is accepted, and as what, line by line: it names a file, and every hunk header in it can be
   * read and has a file named above it. The files are those named, in order, and each has the hunks whose
   * headers stand under its name, each with all the lines up to the next header.
   */
  lemma {:induction false} ParseLineByLine(diff: string)
    ensures var lines := Split(diff, NL);
            && (Parse(diff).Ok? <==>
                (exists k :: 0 <= k < |lines| && FileLine(lines[k])) && AllGood(lines, 0))
            && (Parse(diff).Ok? ==>
                  Parse(diff).value.files == FilesFrom(lines, 0) &&
                  forall file :: HunksFor(Parse(diff).value.hunks, file) == HunksFrom(lines, 0, file))
  {
    hide ParseFrom, HunksFrom, AllGood, FilesFrom, Split, HunksFor, Says;
    var lines := Split(diff, NL);
    assert lines[0..] == lines;
    ParseSays(lines, 0, EMPTY);
    SaysAll(ParseFrom(lines, "", EMPTY), lines);
    SomeFile(lines, 0);
  }

  lemma {:induction false} SaysAll(r: Result<Patch>, lines: seq<string>)
    requires Says(r, lines, 0, EMPTY)
    ensures r.Ok? <==> FilesFrom(lines, 0) != [] && AllGood(lines, 0)
    ensures r.Ok? ==> r.value.files == FilesFrom(lines, 0)
    ensures r.Ok? ==> forall file :: HunksFor(r.value.hunks, file) == HunksFrom(lines, 0, file)
  {
    hide HunksFrom, AllGood, FilesFrom, HunksFor;
    assert EMPTY.files == [] && [] + FilesFrom(lines, 0) == FilesFrom(lines, 0);
    if r.Ok? {
      forall file ensures HunksFor(r.value.hunks, file) == HunksFrom(lines, 0, file) {
        NothingYet(file);
        assert [] + HunksFrom(lines, 0, file) == HunksFrom(lines, 0, file);
      }
    }
  }

  lemma {:induction false} NothingYet(file: string)
    ensures HunksFor(EMPTY.hunks, file) == []
  {
  }

  lemma {:induction false} SomeFile(lines: seq<string>, i: nat)
    requires i <= |lines|
    ensures FilesFrom(lines, i) != [] <==> exists k :: i <= k < |lines| && FileLine(lines[k])
    decreases |lines| - i
  {
    if i < |lines| {
      SomeFile(lines, i + 1);
    }
  }
}
