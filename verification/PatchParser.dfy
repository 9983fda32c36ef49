/** Reading unified diffs, and a printer that the reader undoes. */
module PatchParser {
  import opened Text
  import opened Decimal
  import opened Hunks

  const FILE_MARK := "+++ b/"
  const HUNK_MARK := "@@"

  /** The files a diff names, in order and with repetitions, and the hunks collected under each name. */
  datatype Patch = Patch(files: seq<string>, hunks: map<string, seq<Hunk>>)

  const EMPTY := Patch([], map[])

  function HunksFor(hunks: map<string, seq<Hunk>>, file: string): seq<Hunk>
  {
    if file in hunks then hunks[file] else []
  }

  predicate IsHeader(line: string)
  {
    HasPrefix(line, HUNK_MARK) || HasPrefix(line, FILE_MARK)
  }

  // ----- the reader

  function ParseRange(r: string): Result<(int, int)>
  {
    var parts := Split(r, ',');
    match Atoi(parts[0])
    case Malformed => Err(BadNumber)
    case Number(start) =>
      if |parts| == 1 then Ok((start, 1))
      else
        match Atoi(parts[1])
        case Malformed => Err(BadNumber)
        case Number(count) => Ok((start, count))
  }

  function ParseHeader(line: string): (r: Result<Hunk>)
    ensures r.Ok? ==> r.value.lines == []
  {
    var parts := Split(line, ' ');
    if |parts| < 3 then Err(InvalidHeader)
    else
      match ParseRange(TrimPrefix(parts[1], "-"))
      case Err(e) => Err(e)
      case Ok((oldStart, oldLines)) =>
        match ParseRange(TrimPrefix(parts[2], "+"))
        case Err(e) => Err(e)
        case Ok((newStart, newLines)) => Ok(Hunk(oldStart, oldLines, newStart, newLines, []))
  }

  /** How many lines follow before the next header or the end. */
  function BodyLength(lines: seq<string>): (n: nat)
    ensures n <= |lines|
    ensures forall k :: 0 <= k < n ==> !IsHeader(lines[k])
    ensures n < |lines| ==> IsHeader(lines[n])
  {
    if lines == [] || IsHeader(lines[0]) then 0 else 1 + BodyLength(lines[1..])
  }

  function AddFile(patch: Patch, file: string): Patch
  {
    patch.(files := patch.files + [file])
  }

  function AddHunk(patch: Patch, file: string, h: Hunk): Patch
  {
    patch.(hunks := patch.hunks[file := HunksFor(patch.hunks, file) + [h]])
  }

  function ParseFrom(lines: seq<string>, current: string, patch: Patch): Result<Patch>
    decreases |lines|
  {
    if lines == [] then
      if patch.files == [] then Err(NoFiles) else Ok(patch)
    else
      var line, rest := lines[0], lines[1..];
      if HasPrefix(line, FILE_MARK) then
        var file := TrimPrefix(line, FILE_MARK);
        ParseFrom(rest, file, AddFile(patch, file))
      else if HasPrefix(line, HUNK_MARK) then
        if current == "" then Err(HunkWithoutFile)
        else
          match ParseHeader(line)
          case Err(e) => Err(e)
          case Ok(h) =>
            var n := BodyLength(rest);
            ParseFrom(rest[n..], current, AddHunk(patch, current, h.(lines := rest[..n])))
      else ParseFrom(rest, current, patch)
  }

  function Parse(diff: string): Result<Patch>
  {
    ParseFrom(Split(diff, NL), "", EMPTY)
  }

  /** The parse loop: an index over the lines, moved past each hunk body by an inner loop. */
  method ParseUnifiedDiff(diff: string) returns (r: Result<Patch>)
    ensures r == Parse(diff)
  {
    hide ParseFrom, ParseHeader, Split, HasPrefix, IsHeader, TrimPrefix, AddFile, AddHunk;
    var lines := Split(diff, NL);
    var patch := EMPTY;
    var current := "";
    var i := 0;
    assert lines[0..] == lines;
    while i < |lines|
      invariant 0 <= i <= |lines|
      invariant Parse(diff) == ParseFrom(lines[i..], current, patch)
    {
      var line := lines[i];
      ParseStep(lines, i, current, patch);
      if HasPrefix(line, FILE_MARK) {
        current := TrimPrefix(line, FILE_MARK);
        patch := AddFile(patch, current);
      } else if HasPrefix(line, HUNK_MARK) {
        if current == "" {
          return Err(HunkWithoutFile);
        }
        var header := ParseHeader(line);
        if header.Err? {
          return Err(header.error);
        }
        var body: seq<string> := [];
        var j := i + 1;
        while j < |lines| && !IsHeader(lines[j])
          invariant i + 1 <= j <= |lines|
          invariant body == lines[i + 1..j]
          invariant forall k :: i + 1 <= k < j ==> !IsHeader(lines[k])
        {
          body := body + [lines[j]];
          j := j + 1;
        }
        ParseStepHunk(lines, i, j, current, patch);
        patch := AddHunk(patch, current, header.value.(lines := body));
        i := j - 1;
      }
      i := i + 1;
    }
    assert lines[i..] == [];
    ParseEnd(current, patch);
    if patch.files == [] {
      return Err(NoFiles);
    }
    r := Ok(patch);
  }

  lemma {:induction false} ParseEnd(current: string, patch: Patch)
    ensures ParseFrom([], current, patch) == if patch.files == [] then Err(NoFiles) else Ok(patch)
  {
  }

  /** What one line does to the parse, when it is not the start of a well-formed hunk. */
  lemma {:induction false} ParseStep(lines: seq<string>, i: nat, current: string, patch: Patch)
    requires i < |lines|
    ensures var line, now := lines[i], ParseFrom(lines[i..], current, patch);
            if HasPrefix(line, FILE_MARK) then
              var file := TrimPrefix(line, FILE_MARK);
              now == ParseFrom(lines[i + 1..], file, AddFile(patch, file))
            else if HasPrefix(line, HUNK_MARK) then
              && (current == "" ==> now == Err(HunkWithoutFile))
              && (current != "" && ParseHeader(line).Err? ==> now == Err(ParseHeader(line).error))
            else now == ParseFrom(lines[i + 1..], current, patch)
  {
    hide ParseHeader;
    assert lines[i..][0] == lines[i] && lines[i..][1..] == lines[i + 1..];
  }

  /** A well-formed hunk takes every line up to the next header, or to the end. */
  lemma {:induction false} ParseStepHunk(lines: seq<string>, i: nat, j: nat, current: string, patch: Patch)
    requires i < j <= |lines| && (forall k :: i < k < j ==> !IsHeader(lines[k])) && (j < |lines| ==> IsHeader(lines[j]))
    requires !HasPrefix(lines[i], FILE_MARK) && HasPrefix(lines[i], HUNK_MARK)
    requires current != "" && ParseHeader(lines[i]).Ok?
    ensures ParseFrom(lines[i..], current, patch)
         == ParseFrom(lines[j..], current,
                      AddHunk(patch, current, ParseHeader(lines[i]).value.(lines := lines[i + 1..j])))
  {
    hide ParseHeader;
    assert lines[i..][0] == lines[i] && lines[i..][1..] == lines[i + 1..];
    BodyEndsAt(lines[i + 1..], j - (i + 1));
    assert lines[i + 1..][..j - (i + 1)] == lines[i + 1..j];
    assert lines[i + 1..][j - (i + 1)..] == lines[j..];
  }

  lemma {:induction false} BodyEndsAt(lines: seq<string>, n: nat)
    requires n <= |lines| && forall k :: 0 <= k < n ==> !IsHeader(lines[k])
    requires n < |lines| ==> IsHeader(lines[n])
    ensures BodyLength(lines) == n
  {
  }

  // ----- where every line goes

  /** What the reader takes in one turn: a file header, a hunk with its body, or a line it passes over. */
  datatype Block = FileLine(line: string) | HunkText(header: string, body: seq<string>) | Ignored(line: string)

  function Blocks(lines: seq<string>): seq<Block>
    decreases |lines|
  {
    if lines == [] then []
    else
      var line, rest := lines[0], lines[1..];
      if HasPrefix(line, FILE_MARK) then [FileLine(line)] + Blocks(rest)
      else if HasPrefix(line, HUNK_MARK) then
        var n := BodyLength(rest);
        [HunkText(line, rest[..n])] + Blocks(rest[n..])
      else [Ignored(line)] + Blocks(rest)
  }

  function LinesOf(b: Block): seq<string>
  {
    match b
    case FileLine(line) => [line]
    case HunkText(header, body) => [header] + body
    case Ignored(line) => [line]
  }

  function Flatten(blocks: seq<Block>): seq<string>
  {
    if blocks == [] then [] else LinesOf(blocks[0]) + Flatten(blocks[1..])
  }

  /** The patch that a list of blocks amounts to. */
  function Collect(blocks: seq<Block>, current: string, patch: Patch): Result<Patch>
    decreases |blocks|
  {
    if blocks == [] then if patch.files == [] then Err(NoFiles) else Ok(patch)
    else
      match blocks[0]
      case FileLine(line) =>
        var file := TrimPrefix(line, FILE_MARK);
        Collect(blocks[1..], file, AddFile(patch, file))
      case HunkText(header, body) =>
        if current == "" then Err(HunkWithoutFile)
        else if ParseHeader(header).Err? then Err(ParseHeader(header).error)
        else Collect(blocks[1..], current, AddHunk(patch, current, ParseHeader(header).value.(lines := body)))
      case Ignored(_) => Collect(blocks[1..], current, patch)
  }

  /** A line is passed over only where no hunk has come since the last file header. */
  ghost predicate IgnoredOnlyBeforeHunks(blocks: seq<Block>)
  {
    forall k :: 0 < k < |blocks| && blocks[k].Ignored? ==> !blocks[k - 1].HunkText?
  }

  lemma {:induction false} BlocksFlatten(lines: seq<string>)
    ensures Flatten(Blocks(lines)) == lines
    decreases |lines|
  {
    hide HasPrefix, BodyLength;
    if lines != [] {
      var b, below := FirstBlock(lines);
      BlocksFlatten(below);
      assert ([b] + Blocks(below))[1..] == Blocks(below);
    }
  }

  /** The first block and the lines below it. */
  lemma {:induction false} FirstBlock(lines: seq<string>) returns (b: Block, below: seq<string>)
    requires lines != []
    ensures Blocks(lines) == [b] + Blocks(below) && lines == LinesOf(b) + below && |below| < |lines|
    ensures b.FileLine? <==> HasPrefix(lines[0], FILE_MARK)
    ensures b.HunkText? <==> HasPrefix(lines[0], HUNK_MARK) && !HasPrefix(lines[0], FILE_MARK)
    ensures b.HunkText? ==>
              (below == [] || IsHeader(below[0])) && forall k :: 0 <= k < |b.body| ==> !IsHeader(b.body[k])
  {
    var line, rest := lines[0], lines[1..];
    if HasPrefix(line, FILE_MARK) {
      b, below := FileLine(line), rest;
    } else if HasPrefix(line, HUNK_MARK) {
      var n := BodyLength(rest);
      b, below := HunkText(line, rest[..n]), rest[n..];
    } else {
      b, below := Ignored(line), rest;
    }
  }

  lemma {:induction false} IgnoredBeforeHunks(lines: seq<string>)
    ensures IgnoredOnlyBeforeHunks(Blocks(lines))
    decreases |lines|
  {
    hide HasPrefix, BodyLength, Blocks, IsHeader;
    if lines == [] {
      NoBlocks();
    } else {
      var b, below := FirstBlock(lines);
      IgnoredBeforeHunks(below);
      IgnoredStays(b, below);
    }
  }

  lemma {:induction false} NoBlocks()
    ensures Blocks([]) == [] && IgnoredOnlyBeforeHunks([])
  {
  }

  lemma {:induction false} ParseCollects(lines: seq<string>, current: string, patch: Patch)
    ensures ParseFrom(lines, current, patch) == Collect(Blocks(lines), current, patch)
    decreases |lines|
  {
    hide ParseFrom, ParseHeader, HasPrefix, BodyLength, Blocks, IsHeader, TrimPrefix;
    if lines == [] {
      NoBlocks();
      ParseEnd(current, patch);
    } else {
      var b, below := FirstBlock(lines);
      assert lines[0] == LinesOf(b)[0] && lines[0..] == lines;
      assert ([b] + Blocks(below))[1..] == Blocks(below);
      ParseStep(lines, 0, current, patch);
      match b {
        case FileLine(line) =>
          assert lines[1..] == below;
          ParseCollects(below, TrimPrefix(line, FILE_MARK), AddFile(patch, TrimPrefix(line, FILE_MARK)));
        case Ignored(line) =>
          assert lines[1..] == below;
          ParseCollects(below, current, patch);
        case HunkText(header, body) =>
          if current != "" && ParseHeader(header).Ok? {
            var n := 1 + |body|;
            assert forall k :: 0 < k < n ==> lines[k] == body[k - 1];
            assert lines[n..] == below && lines[1..n] == body;
            assert n < |lines| ==> lines[n] == below[0];
            ParseStepHunk(lines, 0, n, current, patch);
            ParseCollects(below, current, AddHunk(patch, current, ParseHeader(header).value.(lines := body)));
          }
      }
    }
  }

  /**
   * The reader takes every line exactly once, in order: as a file header, as a hunk header, as a body
   * line of the hunk before it, or by passing over it, which it never does after a hunk. What it makes of
   * the text depends on nothing else.
   */
  lemma {:induction false} EveryLineIsTakenOnce(diff: string)
    ensures var blocks := Blocks(Split(diff, NL));
            && Join(Flatten(blocks), NL) == diff
            && IgnoredOnlyBeforeHunks(blocks)
            && Parse(diff) == Collect(blocks, "", EMPTY)
  {
    hide Blocks, Flatten, Collect, ParseFrom;
    var lines := Split(diff, NL);
    JoinSplit(diff, NL);
    BlocksFlatten(lines);
    IgnoredBeforeHunks(lines);
    ParseCollects(lines, "", EMPTY);
  }

  lemma {:induction false} IgnoredStays(b: Block, below: seq<string>)
    requires IgnoredOnlyBeforeHunks(Blocks(below))
    requires b.HunkText? ==> below == [] || IsHeader(below[0])
    ensures IgnoredOnlyBeforeHunks([b] + Blocks(below))
  {
    var blocks := [b] + Blocks(below);
    assert forall k :: 0 < k < |blocks| ==> blocks[k] == Blocks(below)[k - 1];
    if b.HunkText? && below != [] {
      assert !Blocks(below)[0].Ignored?;
    }
  }

  // ----- the printer

  datatype Entry = Entry(name: string, hunks: seq<Hunk>)

  /** A range; a count of one is left out, as diff tools do. */
  function PrintRange(start: int, count: int): string
  {
    if count == 1 then Itoa(start) else Join([Itoa(start), Itoa(count)], ',')
  }

  function PrintHeader(h: Hunk): string
  {
    Join(["@@", "-" + PrintRange(h.oldStart, h.oldLines), "+" + PrintRange(h.newStart, h.newLines), "@@"], ' ')
  }

  function PrintHunks(hunks: seq<Hunk>): seq<string>
  {
    if hunks == [] then [] else [PrintHeader(hunks[0])] + hunks[0].lines + PrintHunks(hunks[1..])
  }

  function PrintEntries(entries: seq<Entry>): seq<string>
  {
    if entries == [] then []
    else [FILE_MARK + entries[0].name] + PrintHunks(entries[0].hunks) + PrintEntries(entries[1..])
  }

  function Print(entries: seq<Entry>): string
  {
    Join(PrintEntries(entries), NL)
  }

  function Names(entries: seq<Entry>): seq<string>
  {
    seq(|entries|, k requires 0 <= k < |entries| => entries[k].name)
  }

  /** All hunks listed under a name, in order. */
  function Gather(entries: seq<Entry>, name: string): seq<Hunk>
  {
    if entries == [] then []
    else (if entries[0].name == name then entries[0].hunks else []) + Gather(entries[1..], name)
  }

  lemma {:induction false} GatherConcat(a: seq<Entry>, b: seq<Entry>, name: string)
    ensures Gather(a + b, name) == Gather(a, name) + Gather(b, name)
  {
    if a == [] {
      assert a + b == b;
    } else {
      assert (a + b)[1..] == a[1..] + b;
      GatherConcat(a[1..], b, name);
    }
  }

  lemma {:induction false} GatherNone(entries: seq<Entry>, name: string)
    requires forall k :: 0 <= k < |entries| ==> entries[k].name != name
    ensures Gather(entries, name) == []
  {
    if entries != [] {
      assert forall k :: 0 <= k < |entries[1..]| ==> entries[1..][k] == entries[k + 1];
      GatherNone(entries[1..], name);
    }
  }

  lemma {:induction false} GatherOne(entry: Entry)
    ensures Gather([entry], entry.name) == entry.hunks
  {
    assert [entry][1..] == [];
  }

  // ----- headers

  predicate NumbersFit(h: Hunk)
  {
    Int64(h.oldStart) && Int64(h.oldLines) && Int64(h.newStart) && Int64(h.newLines)
  }

  lemma {:induction false} RangeRoundTrip(start: int, count: int)
    requires Int64(start) && Int64(count)
    ensures ParseRange(PrintRange(start, count)) == Ok((start, count))
    ensures forall c :: c in PrintRange(start, count) ==> IsDigit(c) || c == '-' || c == ','
  {
    hide Itoa, Atoi;
    AtoiItoa(start);
    AtoiItoa(count);
    ItoaCharacters(start);
    ItoaCharacters(count);
    if count == 1 {
      SplitPart(Itoa(start), ',');
    } else {
      SplitJoin([Itoa(start), Itoa(count)], ',');
      assert [Itoa(start), Itoa(count)][1..] == [Itoa(count)];
    }
  }

  lemma {:induction false} HeaderRoundTrip(h: Hunk)
    requires NumbersFit(h)
    ensures ParseHeader(PrintHeader(h)) == Ok(h.(lines := []))
    ensures HasPrefix(PrintHeader(h), HUNK_MARK) && !HasPrefix(PrintHeader(h), FILE_MARK)
    ensures NL !in PrintHeader(h)
  {
    hide ParseRange, PrintRange, Split, Join, Itoa, Atoi;
    var before, after := PrintRange(h.oldStart, h.oldLines), PrintRange(h.newStart, h.newLines);
    RangeRoundTrip(h.oldStart, h.oldLines);
    RangeRoundTrip(h.newStart, h.newLines);
    var parts := ["@@", "-" + before, "+" + after, "@@"];
    SplitJoin(parts, ' ');
    assert ("-" + before)[1..] == before && ("+" + after)[1..] == after;
    JoinAvoids(parts, ' ', NL);
    JoinCons("@@", parts[1..], ' ');
    assert parts == ["@@"] + parts[1..];
    assert PrintHeader(h)[0] == '@' && PrintHeader(h)[1] == '@';
  }

  // ----- the round trip

  /** A body line that stays within its line and is not taken for a header. */
  predicate Plain(line: string)
  {
    NL !in line && !IsHeader(line)
  }

  predicate PrintableHunk(h: Hunk)
  {
    NumbersFit(h) && forall k :: 0 <= k < |h.lines| ==> Plain(h.lines[k])
  }

  predicate GoodName(name: string)
  {
    name != "" && NL !in name
  }

  predicate Printable(entry: Entry)
  {
    GoodName(entry.name) && forall k :: 0 <= k < |entry.hunks| ==> PrintableHunk(entry.hunks[k])
  }

  function AddHunks(patch: Patch, file: string, hunks: seq<Hunk>): Patch
    decreases |hunks|
  {
    if hunks == [] then patch else AddHunks(AddHunk(patch, file, hunks[0]), file, hunks[1..])
  }

  function AddEntries(patch: Patch, entries: seq<Entry>): Patch
    decreases |entries|
  {
    if entries == [] then patch
    else AddEntries(AddHunks(AddFile(patch, entries[0].name), entries[0].name, entries[0].hunks), entries[1..])
  }

  lemma {:induction false} ParseOneHunk(h: Hunk, rest: seq<string>, current: string, patch: Patch)
    requires PrintableHunk(h) && current != "" && (rest == [] || IsHeader(rest[0]))
    ensures ParseFrom([PrintHeader(h)] + h.lines + rest, current, patch)
         == ParseFrom(rest, current, AddHunk(patch, current, h))
  {
    hide ParseHeader, PrintHeader, ParseFrom, HasPrefix, Join, AddHunk, IsHeader, Plain, NumbersFit;
    PrintableHunkSays(h);
    HeaderRoundTrip(h);
    var lines := [PrintHeader(h)] + h.lines + rest;
    assert forall k :: 0 < k < 1 + |h.lines| ==> lines[k] == h.lines[k - 1];
    assert rest != [] ==> lines[1 + |h.lines|] == rest[0];
    ParseStepHunk(lines, 0, 1 + |h.lines|, current, patch);
    assert lines[0..] == lines && lines[1 + |h.lines|..] == rest && lines[1..1 + |h.lines|] == h.lines;
  }

  lemma {:induction false} PrintableHunkSays(h: Hunk)
    requires PrintableHunk(h)
    ensures NumbersFit(h) && forall k :: 0 <= k < |h.lines| ==> !IsHeader(h.lines[k])
  {
  }

  lemma {:induction false} ParseHunks(hunks: seq<Hunk>, rest: seq<string>, current: string, patch: Patch)
    requires forall k :: 0 <= k < |hunks| ==> PrintableHunk(hunks[k])
    requires current != "" && (rest == [] || IsHeader(rest[0]))
    ensures ParseFrom(PrintHunks(hunks) + rest, current, patch)
         == ParseFrom(rest, current, AddHunks(patch, current, hunks))
    decreases |hunks|
  {
    hide ParseFrom, ParseHeader, PrintHeader, AddHunk, PrintableHunk;
    if hunks == [] {
      assert PrintHunks(hunks) + rest == rest;
    } else {
      var h, below := hunks[0], PrintHunks(hunks[1..]) + rest;
      assert PrintHunks(hunks) + rest == [PrintHeader(h)] + h.lines + below;
      HunksStartWithHeader(hunks[1..], rest);
      ParseOneHunk(h, below, current, patch);
      ParseHunks(hunks[1..], rest, current, AddHunk(patch, current, h));
    }
  }

  lemma {:induction false} HunksStartWithHeader(hunks: seq<Hunk>, rest: seq<string>)
    requires forall k :: 0 <= k < |hunks| ==> PrintableHunk(hunks[k])
    requires rest == [] || IsHeader(rest[0])
    ensures var lines := PrintHunks(hunks) + rest; lines == [] || IsHeader(lines[0])
  {
    if hunks != [] {
      assert PrintableHunk(hunks[0]);
      HeaderRoundTrip(hunks[0]);
    }
  }

  lemma {:induction false} ParseEntries(entries: seq<Entry>, current: string, patch: Patch)
    requires forall k :: 0 <= k < |entries| ==> Printable(entries[k])
    ensures ParseFrom(PrintEntries(entries), current, patch) == ParseFrom([], "", AddEntries(patch, entries))
    decreases |entries|
  {
    hide ParseFrom, PrintHunks, PrintHeader, AddHunks, PrintableHunk;
    if entries == [] {
      ParseEnd(current, patch);
      ParseEnd("", patch);
    } else {
      var e, below := entries[0], PrintEntries(entries[1..]);
      var lines := PrintEntries(entries);
      assert Printable(e);
      assert lines[0] == FILE_MARK + e.name && lines[0..] == lines && lines[1..] == PrintHunks(e.hunks) + below;
      assert lines[0][|FILE_MARK|..] == e.name;
      ParseStep(lines, 0, current, patch);
      ParseHunks(e.hunks, below, e.name, AddFile(patch, e.name));
      ParseEntries(entries[1..], e.name, AddHunks(AddFile(patch, e.name), e.name, e.hunks));
    }
  }

  lemma {:induction false} AddHunksCollects(patch: Patch, file: string, hunks: seq<Hunk>, name: string)
    ensures var r := AddHunks(patch, file, hunks);
            && r.files == patch.files
            && HunksFor(r.hunks, name) == HunksFor(patch.hunks, name) + (if name == file then hunks else [])
    decreases |hunks|
  {
    if hunks != [] {
      AddHunksCollects(AddHunk(patch, file, hunks[0]), file, hunks[1..], name);
    }
  }

  lemma {:induction false} AddEntriesCollects(patch: Patch, entries: seq<Entry>, name: string)
    ensures var r := AddEntries(patch, entries);
            && r.files == patch.files + Names(entries)
            && HunksFor(r.hunks, name) == HunksFor(patch.hunks, name) + Gather(entries, name)
    decreases |entries|
  {
    hide AddHunks, HunksFor;
    if entries != [] {
      var e := entries[0];
      AddHunksCollects(AddFile(patch, e.name), e.name, e.hunks, name);
      AddEntriesCollects(AddHunks(AddFile(patch, e.name), e.name, e.hunks), entries[1..], name);
      assert Names(entries) == [e.name] + Names(entries[1..]);
    }
  }

  /** The patch holds exactly what the entries list. */
  ghost predicate Holds(patch: Patch, entries: seq<Entry>)
  {
    patch.files == Names(entries) && forall name :: HunksFor(patch.hunks, name) == Gather(entries, name)
  }

  /** A hunk that can be written out line by line, whatever its lines look like. */
  predicate WritableHunk(h: Hunk)
  {
    NumbersFit(h) && Free(h.lines, NL)
  }

  predicate Writable(entry: Entry)
  {
    GoodName(entry.name) && forall k :: 0 <= k < |entry.hunks| ==> WritableHunk(entry.hunks[k])
  }

  lemma {:induction false} PrintableIsWritable(entry: Entry)
    requires Printable(entry)
    ensures Writable(entry)
  {
    forall k | 0 <= k < |entry.hunks| ensures WritableHunk(entry.hunks[k]) {
      assert PrintableHunk(entry.hunks[k]);
    }
  }

  lemma {:induction false} LinesFree(entries: seq<Entry>)
    requires forall k :: 0 <= k < |entries| ==> Writable(entries[k])
    ensures Free(PrintEntries(entries), NL)
  {
    if entries != [] {
      assert Writable(entries[0]);
      HunkLinesFree(entries[0].hunks);
      LinesFree(entries[1..]);
    }
  }

  lemma {:induction false} HunkLinesFree(hunks: seq<Hunk>)
    requires forall k :: 0 <= k < |hunks| ==> WritableHunk(hunks[k])
    ensures Free(PrintHunks(hunks), NL)
  {
    if hunks != [] {
      assert WritableHunk(hunks[0]);
      HeaderRoundTrip(hunks[0]);
      HunkLinesFree(hunks[1..]);
      hide PrintHeader;
    }
  }

  /** Reading undoes printing: same names in the same order, same hunks under every name. */
  lemma {:induction false} ParsePrint(entries: seq<Entry>)
    requires entries != [] && forall k :: 0 <= k < |entries| ==> Printable(entries[k])
    ensures Parse(Print(entries)).Ok? && Holds(Parse(Print(entries)).value, entries)
  {
    hide Printable, Writable, PrintHunks;
    forall k | 0 <= k < |entries| ensures Writable(entries[k]) {
      PrintableIsWritable(entries[k]);
    }
    LinesFree(entries);
    SplitJoin(PrintEntries(entries), NL);
    ParseEntries(entries, "", EMPTY);
    AddEntriesCollects(EMPTY, entries, "");
    forall name ensures HunksFor(AddEntries(EMPTY, entries).hunks, name) == Gather(entries, name) {
      AddEntriesCollects(EMPTY, entries, name);
    }
  }

  // ----- when reading does not undo printing

  /** How many lines read as file headers. */
  function FileMarks(lines: seq<string>): nat
  {
    if lines == [] then 0 else (if HasPrefix(lines[0], FILE_MARK) then 1 else 0) + FileMarks(lines[1..])
  }

  lemma {:induction false} FileMarksConcat(a: seq<string>, b: seq<string>)
    ensures FileMarks(a + b) == FileMarks(a) + FileMarks(b)
  {
    if a == [] {
      assert a + b == b;
    } else {
      assert (a + b)[1..] == a[1..] + b;
      FileMarksConcat(a[1..], b);
    }
  }

  lemma {:induction false} FileMarksPositive(lines: seq<string>)
    ensures FileMarks(lines) > 0 <==> exists k :: 0 <= k < |lines| && HasPrefix(lines[k], FILE_MARK)
  {
    if lines != [] {
      FileMarksPositive(lines[1..]);
      assert lines == [lines[0]] + lines[1..];
      if k :| 0 <= k < |lines| && HasPrefix(lines[k], FILE_MARK) {
        assert k > 0 ==> lines[1..][k - 1] == lines[k];
      }
    }
  }

  /** Every file header is read, wherever it stands: a successful parse names one file for each. */
  lemma {:induction false} EveryFileMarkIsRead(lines: seq<string>, current: string, patch: Patch)
    ensures var r := ParseFrom(lines, current, patch);
            r.Ok? ==> |r.value.files| == |patch.files| + FileMarks(lines)
    decreases |lines|
  {
    hide ParseFrom, ParseHeader, HasPrefix;
    if lines == [] {
      ParseEnd(current, patch);
    } else {
      var line, rest := lines[0], lines[1..];
      assert lines[0..] == lines;
      ParseStep(lines, 0, current, patch);
      if HasPrefix(line, FILE_MARK) {
        var file := TrimPrefix(line, FILE_MARK);
        EveryFileMarkIsRead(rest, file, AddFile(patch, file));
      } else if !HasPrefix(line, HUNK_MARK) {
        EveryFileMarkIsRead(rest, current, patch);
      } else if current != "" && ParseHeader(line).Ok? {
        var n := BodyLength(rest);
        var h := ParseHeader(line).value.(lines := rest[..n]);
        BodyHasNoMark(rest);
        assert forall k :: 0 < k < 1 + n ==> lines[k] == rest[k - 1];
        ParseStepHunk(lines, 0, 1 + n, current, patch);
        assert lines[1 + n..] == rest[n..] && lines[1..1 + n] == rest[..n];
        EveryFileMarkIsRead(rest[n..], current, AddHunk(patch, current, h));
      }
    }
  }

  lemma {:induction false} BodyHasNoMark(lines: seq<string>)
    ensures FileMarks(lines) == FileMarks(lines[BodyLength(lines)..])
  {
    var n := BodyLength(lines);
    assert lines == lines[..n] + lines[n..];
    FileMarksConcat(lines[..n], lines[n..]);
    FileMarksPositive(lines[..n]);
  }

  lemma {:induction false} MarksOfHunks(hunks: seq<Hunk>)
    requires forall k :: 0 <= k < |hunks| ==> WritableHunk(hunks[k])
    ensures (exists k :: 0 <= k < |hunks| && FileMarks(hunks[k].lines) > 0) ==> FileMarks(PrintHunks(hunks)) > 0
  {
    if hunks != [] {
      assert WritableHunk(hunks[0]);
      hide PrintHeader, WritableHunk, FileMarks;
      MarksOfHunks(hunks[1..]);
      var top, rest := [PrintHeader(hunks[0])] + hunks[0].lines, PrintHunks(hunks[1..]);
      FileMarksConcat([PrintHeader(hunks[0])], hunks[0].lines);
      FileMarksConcat(top, rest);
      if k :| 0 <= k < |hunks| && FileMarks(hunks[k].lines) > 0 {
        assert k > 0 ==> hunks[1..][k - 1] == hunks[k];
      }
    }
  }

  /** Some line of some hunk body reads as a file header. */
  ghost predicate Betrayed(entry: Entry)
  {
    exists k :: 0 <= k < |entry.hunks| && FileMarks(entry.hunks[k].lines) > 0
  }

  lemma {:induction false} MarksOfEntries(entries: seq<Entry>)
    requires forall k :: 0 <= k < |entries| ==> Writable(entries[k])
    ensures FileMarks(PrintEntries(entries)) >= |entries|
    ensures (exists k :: 0 <= k < |entries| && Betrayed(entries[k])) ==> FileMarks(PrintEntries(entries)) > |entries|
  {
    if entries != [] {
      var e := entries[0];
      assert Writable(e);
      MarksOfHunks(e.hunks);
      MarksOfEntries(entries[1..]);
      var head := [FILE_MARK + e.name];
      assert FileMarks(head) == 1;
      hide FileMarks, PrintHunks, Writable;
      FileMarksConcat(head, PrintHunks(e.hunks));
      FileMarksConcat(head + PrintHunks(e.hunks), PrintEntries(entries[1..]));
      if k :| 0 <= k < |entries| && Betrayed(entries[k]) {
        assert k > 0 ==> entries[1..][k - 1] == entries[k];
      }
    }
  }

  lemma {:induction false} PrintableUnlessBetrayed(entry: Entry)
    requires Writable(entry) && forall k :: 0 <= k < |entry.hunks| ==> WellMarked(entry.hunks[k].lines)
    ensures Printable(entry) <==> !Betrayed(entry)
  {
    hide FileMarks;
    forall k | 0 <= k < |entry.hunks|
      ensures PrintableHunk(entry.hunks[k]) <==> FileMarks(entry.hunks[k].lines) == 0
    {
      var h := entry.hunks[k];
      assert WritableHunk(h);
      FileMarksPositive(h.lines);
      assert forall i :: 0 <= i < |h.lines| ==> (Plain(h.lines[i]) <==> !HasPrefix(h.lines[i], FILE_MARK));
    }
  }

  /**
   * Exactly when the round trip holds: printed hunks read back as themselves unless some body line
   * starts with the file mark, that is, unless a line is added whose text starts with `++ b/`.
   */
  lemma {:induction false} ParsePrintExactly(entries: seq<Entry>)
    requires entries != []
    requires forall k :: 0 <= k < |entries| ==> Writable(entries[k])
    requires forall k, i :: 0 <= k < |entries| && 0 <= i < |entries[k].hunks| ==> WellMarked(entries[k].hunks[i].lines)
    ensures Parse(Print(entries)).Ok? && Holds(Parse(Print(entries)).value, entries)
            <==> forall k :: 0 <= k < |entries| ==> !Betrayed(entries[k])
  {
    hide Writable, Printable, PrintEntries, FileMarks, Betrayed, ParseFrom, WellMarked;
    forall k | 0 <= k < |entries| ensures Printable(entries[k]) <==> !Betrayed(entries[k]) {
      PrintableUnlessBetrayed(entries[k]);
    }
    if forall k :: 0 <= k < |entries| ==> !Betrayed(entries[k]) {
      ParsePrint(entries);
    } else {
      MarksOfEntries(entries);
      LinesFree(entries);
      EntriesHaveLines(entries);
      SplitJoin(PrintEntries(entries), NL);
      EveryFileMarkIsRead(PrintEntries(entries), "", EMPTY);
    }
  }

  lemma {:induction false} EntriesHaveLines(entries: seq<Entry>)
    requires entries != []
    ensures PrintEntries(entries) != []
  {
  }

  // ----- text before the first file

  lemma {:induction false} SkipBefore(before: seq<string>, lines: seq<string>, current: string, patch: Patch)
    requires forall k :: 0 <= k < |before| ==> !IsHeader(before[k])
    ensures ParseFrom(before + lines, current, patch) == ParseFrom(lines, current, patch)
  {
    hide ParseFrom, HasPrefix;
    if before == [] {
      assert before + lines == lines;
    } else {
      var all := before + lines;
      assert all[0..] == all && all[1..] == before[1..] + lines && all[0] == before[0];
      ParseStep(all, 0, current, patch);
      SkipBefore(before[1..], lines, current, patch);
    }
  }

  /** What stands before the first file, such as a version-control preamble, is ignored. */
  lemma {:induction false} TextBeforeFirstFileIgnored(before: seq<string>, entries: seq<Entry>)
    requires entries != [] && forall k :: 0 <= k < |entries| ==> Writable(entries[k])
    requires forall k :: 0 <= k < |before| ==> Plain(before[k])
    ensures Parse(Join(before + PrintEntries(entries), NL)) == Parse(Print(entries))
  {
    hide PrintEntries, ParseFrom, Writable, IsHeader;
    LinesFree(entries);
    EntriesHaveLines(entries);
    SplitJoin(PrintEntries(entries), NL);
    SplitJoin(before + PrintEntries(entries), NL);
    SkipBefore(before, PrintEntries(entries), "", EMPTY);
  }

  // ----- text after a hunk

  /** The entries with more lines at the end of the very last hunk. */
  function Extend(entries: seq<Entry>, more: seq<string>): seq<Entry>
    requires entries != [] && entries[|entries| - 1].hunks != []
  {
    var last := entries[|entries| - 1];
    var h := last.hunks[|last.hunks| - 1];
    entries[..|entries| - 1] + [last.(hunks := last.hunks[..|last.hunks| - 1] + [h.(lines := h.lines + more)])]
  }

  lemma {:induction false} PrintHunksConcat(a: seq<Hunk>, b: seq<Hunk>)
    ensures PrintHunks(a + b) == PrintHunks(a) + PrintHunks(b)
  {
    hide PrintHeader;
    if a == [] {
      assert a + b == b;
    } else {
      assert (a + b)[1..] == a[1..] + b;
      PrintHunksConcat(a[1..], b);
    }
  }

  lemma {:induction false} PrintEntriesConcat(a: seq<Entry>, b: seq<Entry>)
    ensures PrintEntries(a + b) == PrintEntries(a) + PrintEntries(b)
  {
    hide PrintHunks;
    if a == [] {
      assert a + b == b;
    } else {
      assert (a + b)[1..] == a[1..] + b;
      PrintEntriesConcat(a[1..], b);
    }
  }

  lemma {:induction false} PrintExtend(entries: seq<Entry>, more: seq<string>)
    requires entries != [] && entries[|entries| - 1].hunks != []
    ensures PrintEntries(Extend(entries, more)) == PrintEntries(entries) + more
  {
    hide PrintEntries, PrintHunks;
    var front, last := entries[..|entries| - 1], entries[|entries| - 1];
    var longer := Extend(entries, more)[|entries| - 1];
    assert entries == front + [last] && Extend(entries, more) == front + [longer];
    PrintEntriesConcat(front, [last]);
    PrintEntriesConcat(front, [longer]);
    PrintOneEntry(last);
    PrintOneEntry(longer);
    PrintLongerHunk(last.hunks[..|last.hunks| - 1], last.hunks[|last.hunks| - 1], more);
    assert last.hunks == last.hunks[..|last.hunks| - 1] + [last.hunks[|last.hunks| - 1]];
  }

  lemma {:induction false} PrintOneEntry(entry: Entry)
    ensures PrintEntries([entry]) == [FILE_MARK + entry.name] + PrintHunks(entry.hunks)
  {
    hide PrintHunks;
    assert [entry][1..] == [];
  }

  lemma {:induction false} PrintLongerHunk(hunks: seq<Hunk>, h: Hunk, more: seq<string>)
    ensures PrintHunks(hunks + [h.(lines := h.lines + more)]) == PrintHunks(hunks + [h]) + more
  {
    hide PrintHunks, PrintHeader;
    var longer := h.(lines := h.lines + more);
    PrintHunksConcat(hunks, [h]);
    PrintHunksConcat(hunks, [longer]);
    PrintOneHunk(h);
    PrintOneHunk(longer);
    SameHeader(h, longer.lines);
  }

  lemma {:induction false} PrintOneHunk(h: Hunk)
    ensures PrintHunks([h]) == [PrintHeader(h)] + h.lines
  {
    hide PrintHeader;
    assert [h][1..] == [];
  }

  lemma {:induction false} SameHeader(h: Hunk, lines: seq<string>)
    ensures PrintHeader(h.(lines := lines)) == PrintHeader(h)
  {
  }

  /**
   * Whatever follows a hunk, up to the next header, is swallowed into that hunk, be it a final blank
   * line or the lines that version-control tools put before the next file.
   */
  lemma {:induction false} TextAfterHunkIsSwallowed(entries: seq<Entry>, between: seq<string>, later: seq<Entry>)
    requires entries != [] && entries[|entries| - 1].hunks != []
    requires forall k :: 0 <= k < |entries| ==> Printable(entries[k])
    requires forall k :: 0 <= k < |later| ==> Printable(later[k])
    requires forall k :: 0 <= k < |between| ==> Plain(between[k])
    ensures var r := Parse(Join(PrintEntries(entries) + between + PrintEntries(later), NL));
            r.Ok? && Holds(r.value, Extend(entries, between) + later)
  {
    var swallowed := Extend(entries, between);
    forall k | 0 <= k < |swallowed + later| ensures Printable((swallowed + later)[k]) {
      if k == |entries| - 1 {
        ExtendPrintable(entries, between);
      }
    }
    hide Printable, PrintEntries, Extend, Plain;
    PrintExtend(entries, between);
    PrintEntriesConcat(swallowed, later);
    ParsePrint(swallowed + later);
  }

  lemma {:induction false} ExtendPrintable(entries: seq<Entry>, more: seq<string>)
    requires entries != [] && entries[|entries| - 1].hunks != []
    requires Printable(entries[|entries| - 1])
    requires forall k :: 0 <= k < |more| ==> Plain(more[k])
    ensures Printable(Extend(entries, more)[|entries| - 1])
  {
    var last := entries[|entries| - 1];
    assert PrintableHunk(last.hunks[|last.hunks| - 1]);
    var after := Extend(entries, more)[|entries| - 1];
    forall k | 0 <= k < |after.hunks| ensures PrintableHunk(after.hunks[k]) {
      assert PrintableHunk(last.hunks[k]);
    }
  }

  /** A hunk with a badly marked line makes its file fail, whatever the file holds. */
  lemma {:induction false} BadLineFails(lines: seq<string>, offset: int, hunks: seq<Hunk>, k: nat)
    requires k < |hunks| && !WellMarked(hunks[k].lines)
    ensures ApplyFrom(lines, offset, hunks).Err?
    decreases k
  {
    hide ApplyFrom, ApplyAt, Check, OldText, NewText, WellMarked;
    ApplyOne(lines, offset, hunks);
    var h := hunks[0];
    var at := h.oldStart - 1 + offset;
    if k > 0 && Fits(h, lines, at) {
      BadLineFails(Splice(lines, at, at + |OldText(h.lines)|, NewText(h.lines)), offset + Growth(h), hunks[1..], k - 1);
    }
  }

  /** The hunks of an entry are among those gathered under its name. */
  lemma {:induction false} GatheredAt(entries: seq<Entry>, k: nat, i: nat) returns (at: nat)
    requires k < |entries| && i < |entries[k].hunks|
    ensures at < |Gather(entries, entries[k].name)| && Gather(entries, entries[k].name)[at] == entries[k].hunks[i]
  {
    if k == 0 {
      at := i;
    } else {
      at := GatheredAt(entries[1..], k - 1, i);
      if entries[0].name == entries[k].name {
        at := at + |entries[0].hunks|;
      }
    }
  }
}
