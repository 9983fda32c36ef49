/** Strings as sequences of characters, with the handful of Go `strings` functions the engine relies on. */
module Text {

  /** `strings.Split` for a one-character separator. */
  function Split(s: string, sep: char): (parts: seq<string>)
    ensures |parts| > 0
  {
    if s == [] then [[]]
    else
      var rest := Split(s[1..], sep);
      if s[0] == sep then [[]] + rest else [[s[0]] + rest[0]] + rest[1..]
  }

  /** `strings.Join` for a one-character separator. */
  function Join(parts: seq<string>, sep: char): string
  {
    if |parts| == 0 then []
    else if |parts| == 1 then parts[0]
    else parts[0] + [sep] + Join(parts[1..], sep)
  }

  predicate HasPrefix(s: string, prefix: string)
  {
    prefix <= s
  }

  function TrimPrefix(s: string, prefix: string): string
  {
    if HasPrefix(s, prefix) then s[|prefix|..] else s
  }

  /** `part` stands in `whole` at position `at`. */
  predicate StandsAt<T(==)>(part: seq<T>, whole: seq<T>, at: int)
  {
    0 <= at <= at + |part| <= |whole| && whole[at..at + |part|] == part
  }

  /** `strings.Contains`. */
  predicate Contains(s: string, part: string)
  {
    exists at :: 0 <= at <= |s| && StandsAt(part, s, at)
  }

  /** No part contains the separator. */
  predicate Free(parts: seq<string>, sep: char)
  {
    forall k :: 0 <= k < |parts| ==> sep !in parts[k]
  }

  lemma {:induction false} SplitPart(s: string, sep: char)
    requires sep !in s
    ensures Split(s, sep) == [s]
  {
    if s != [] {
      SplitPart(s[1..], sep);
      assert [s[0]] + s[1..] == s;
    }
  }

  lemma {:induction false} SplitHead(s: string, sep: char, rest: string)
    requires sep !in s
    ensures Split(s + [sep] + rest, sep) == [s] + Split(rest, sep)
  {
    var whole := s + [sep] + rest;
    if s == [] {
      assert whole[1..] == rest;
    } else {
      assert whole[1..] == s[1..] + [sep] + rest;
      SplitHead(s[1..], sep, rest);
      assert [s[0]] + s[1..] == s;
    }
  }

  /** Splitting undoes joining: the parts come back exactly, as long as none holds the separator. */
  lemma {:induction false} SplitJoin(parts: seq<string>, sep: char)
    requires |parts| > 0 && Free(parts, sep)
    ensures Split(Join(parts, sep), sep) == parts
  {
    if |parts| == 1 {
      SplitPart(parts[0], sep);
    } else {
      SplitHead(parts[0], sep, Join(parts[1..], sep));
      SplitJoin(parts[1..], sep);
    }
  }

  /** Joining undoes splitting, and the parts of a split never hold the separator. */
  lemma {:induction false} JoinSplit(s: string, sep: char)
    ensures Join(Split(s, sep), sep) == s
    ensures Free(Split(s, sep), sep)
  {
    if s != [] {
      JoinSplit(s[1..], sep);
      var rest := Split(s[1..], sep);
      if s[0] == sep {
        assert ([[]] + rest)[1..] == rest;
      } else {
        assert ([[s[0]] + rest[0]] + rest[1..])[1..] == rest[1..];
      }
    }
  }

  lemma {:induction false} JoinCons(head: string, rest: seq<string>, sep: char)
    requires |rest| > 0
    ensures Join([head] + rest, sep) == head + [sep] + Join(rest, sep)
  {
    assert ([head] + rest)[1..] == rest;
  }

  lemma {:induction false} JoinAvoids(parts: seq<string>, sep: char, c: char)
    requires c != sep && forall k :: 0 <= k < |parts| ==> c !in parts[k]
    ensures c !in Join(parts, sep)
  {
    if |parts| > 1 {
      JoinAvoids(parts[1..], sep, c);
    }
  }

  /** Ending the last part with one more separator is the same as adding an empty last part. */
  lemma {:induction false} JoinEmptyLast(parts: seq<string>, sep: char)
    requires |parts| > 0
    ensures Join(parts + [""], sep) == Join(parts, sep) + [sep]
  {
    if |parts| == 1 {
      assert (parts + [""])[1..] == [""];
    } else {
      assert (parts + [""])[1..] == parts[1..] + [""];
      JoinEmptyLast(parts[1..], sep);
    }
  }

  // ----- text files as lists of lines

  const NL := '\n'

  /** The lines of a file; the empty piece after a final newline is dropped. */
  function Lines(content: string): seq<string>
  {
    var parts := Split(content, NL);
    if parts[|parts| - 1] == "" then parts[..|parts| - 1] else parts
  }

  /** Lines written back, always with a final newline. */
  function Render(lines: seq<string>): string
  {
    Join(lines, NL) + [NL]
  }

  lemma {:induction false} LinesAreFree(content: string)
    ensures Free(Lines(content), NL)
  {
    JoinSplit(content, NL);
  }

  /** A rendered file reads back as the same lines, except that no lines at all read back as one empty line. */
  lemma {:induction false} LinesRender(lines: seq<string>)
    requires Free(lines, NL)
    ensures Lines(Render(lines)) == if lines == [] then [""] else lines
  {
    if lines == [] {
      assert Render(lines) == "\n";
      assert Split("\n"[1..], NL) == [[]];
    } else {
      JoinEmptyLast(lines, NL);
      SplitJoin(lines + [""], NL);
    }
  }

  /** Rendering the lines of a file normalises the final newline and changes nothing else. */
  lemma {:induction false} RenderLines(content: string)
    ensures Render(Lines(content)) ==
            if content != "" && content[|content| - 1] == NL then content else content + [NL]
  {
    var parts := Split(content, NL);
    JoinSplit(content, NL);
    var front, last := parts[..|parts| - 1], parts[|parts| - 1];
    assert parts == front + [last];
    if last == "" {
      if front == [] {
        assert content == "";
      } else {
        JoinEmptyLast(front, NL);
      }
    } else {
      JoinEndsWithLast(parts, NL);
    }
  }

  lemma {:induction false} JoinEndsWithLast(parts: seq<string>, sep: char)
    requires |parts| > 0 && parts[|parts| - 1] != ""
    ensures var s, last := Join(parts, sep), parts[|parts| - 1];
            s != "" && s[|s| - 1] == last[|last| - 1]
  {
    if |parts| > 1 {
      JoinEndsWithLast(parts[1..], sep);
    }
  }
}
