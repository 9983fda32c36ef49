/** Quoting words for the shell, against a reader of shell words. */
module ShellWords {

  // ----- quoting

  const QUOTE := '\''
  const DOUBLE := '"'
  const NUL := '\0'

  /** Every single quote replaced by: close the quotes, a quote in double quotes, open them again. */
  function Escape(s: string): string
  {
    if s == [] then []
    else (if s[0] == QUOTE then [QUOTE, DOUBLE, QUOTE, DOUBLE, QUOTE] else [s[0]]) + Escape(s[1..])
  }

  function ShellQuote(s: string): string
  {
    if s == "" then [QUOTE, QUOTE] else [QUOTE] + Escape(s) + [QUOTE]
  }

  /** A command line: the quoted words with a space between. */
  function CommandLine(words: seq<string>): string
  {
    if |words| == 0 then []
    else if |words| == 1 then ShellQuote(words[0])
    else ShellQuote(words[0]) + " " + CommandLine(words[1..])
  }

  // ----- reading, after sections 2.2.1 to 2.2.3 of the POSIX Shell Command Language

  datatype Mode = Between | Unquoted | InSingle | InDouble

  datatype Reading = Words(words: seq<string>) | Unreadable

  predicate IsBlank(c: char)
  {
    c == ' ' || c == '\t' || c == '\n'
  }

  /** Characters that mean something to the shell outside quotes beyond separating words. */
  predicate IsSpecial(c: char)
  {
    c in "|&;<>()$`*?[]#~=%{}!"
  }

  function Push(word: string, rest: Reading): Reading
  {
    if rest.Words? then Words([word] + rest.words) else Unreadable
  }

  /**
   * Splits a line into words. A single-quoted stretch is literal; in a double-quoted one a backslash
   * keeps its special meaning before `$`, a backquote, a double quote, a backslash or a newline. A line
   * that calls for an expansion, holds an operator, a NUL or an open quote is not read.
   */
  function ReadWords(s: string, mode: Mode, word: string): Reading
  {
    if s == [] then
      match mode
      case Between => Words([])
      case Unquoted => Words([word])
      case InSingle => Unreadable
      case InDouble => Unreadable
    else
      var c, rest := s[0], s[1..];
      if c == NUL then Unreadable
      else
        match mode
        case InSingle =>
          if c == QUOTE then ReadWords(rest, Unquoted, word) else ReadWords(rest, InSingle, word + [c])
        case InDouble =>
          if c == DOUBLE then ReadWords(rest, Unquoted, word)
          else if c == '$' || c == '`' then Unreadable
          else if c == '\\' && rest != [] && rest[0] in "$`\"\\\n" then
            ReadWords(rest[1..], InDouble, if rest[0] == '\n' then word else word + [rest[0]])
          else ReadWords(rest, InDouble, word + [c])
        case _ =>
          if IsBlank(c) then
            if mode == Between then ReadWords(rest, Between, "") else Push(word, ReadWords(rest, Between, ""))
          else if c == QUOTE then ReadWords(rest, InSingle, word)
          else if c == DOUBLE then ReadWords(rest, InDouble, word)
          else if c == '\\' then
            if rest == [] || rest[0] == NUL then Unreadable
            else if rest[0] == '\n' then ReadWords(rest[1..], mode, word)
            else ReadWords(rest[1..], Unquoted, word + [rest[0]])
          else if IsSpecial(c) then Unreadable
          else ReadWords(rest, Unquoted, word + [c])
  }

  // ----- the round trip

  /** Inside the quotes, an escaped string is taken in literally. */
  lemma {:induction false} EscapedIsLiteral(s: string, rest: string, word: string)
    requires NUL !in s
    ensures ReadWords(Escape(s) + rest, InSingle, word) == ReadWords(rest, InSingle, word + s)
  {
    hide ReadWords;
    if s == [] {
      assert Escape(s) + rest == rest && word + s == word;
    } else {
      var tail := Escape(s[1..]) + rest;
      assert word + [s[0]] + s[1..] == word + s;
      EscapedIsLiteral(s[1..], rest, word + [s[0]]);
      if s[0] == QUOTE {
        assert Escape(s) + rest == [QUOTE, DOUBLE, QUOTE, DOUBLE, QUOTE] + tail;
        QuoteInQuotes(tail, word);
      } else {
        assert Escape(s) + rest == [s[0]] + tail;
        OtherInQuotes(s[0], tail, word);
      }
    }
  }

  lemma {:induction false} OtherInQuotes(c: char, tail: string, word: string)
    requires c != QUOTE && c != NUL
    ensures ReadWords([c] + tail, InSingle, word) == ReadWords(tail, InSingle, word + [c])
  {
    assert ([c] + tail)[1..] == tail;
  }

  /** The five characters that stand for one quote. */
  lemma {:induction false} QuoteInQuotes(tail: string, word: string)
    ensures ReadWords([QUOTE, DOUBLE, QUOTE, DOUBLE, QUOTE] + tail, InSingle, word)
         == ReadWords(tail, InSingle, word + [QUOTE])
  {
    var s5 := [QUOTE, DOUBLE, QUOTE, DOUBLE, QUOTE] + tail;
    var s4, s3, s2, s1 := s5[1..], s5[2..], s5[3..], s5[4..];
    assert s5[5..] == tail;
    assert s4[1..] == s3 && s3[1..] == s2 && s2[1..] == s1 && s1[1..] == tail;
    assert ReadWords(s5, InSingle, word) == ReadWords(s4, Unquoted, word);
    assert ReadWords(s4, Unquoted, word) == ReadWords(s3, InDouble, word);
    assert ReadWords(s3, InDouble, word) == ReadWords(s2, InDouble, word + [QUOTE]);
    assert ReadWords(s2, InDouble, word + [QUOTE]) == ReadWords(s1, Unquoted, word + [QUOTE]);
  }

  lemma {:induction false} QuoteOpensAndCloses(rest: string, word: string)
    ensures ReadWords([QUOTE] + rest, Between, "") == ReadWords(rest, InSingle, "")
    ensures ReadWords([QUOTE] + rest, InSingle, word) == ReadWords(rest, Unquoted, word)
  {
    assert ([QUOTE] + rest)[1..] == rest;
  }

  lemma {:induction false} SpaceEndsWord(rest: string, word: string)
    ensures ReadWords(" " + rest, Unquoted, word) == Push(word, ReadWords(rest, Between, ""))
    ensures ReadWords("", Unquoted, word) == Words([word])
    ensures ReadWords("", Between, "") == Words([])
  {
    assert (" " + rest)[1..] == rest;
  }

  /** One quoted word is read up to its closing quote. */
  lemma {:induction false} QuotedIsRead(s: string, rest: string)
    requires NUL !in s
    ensures ReadWords(ShellQuote(s) + rest, Between, "") == ReadWords(rest, Unquoted, s)
  {
    hide ReadWords, Escape;
    var closing := [QUOTE] + rest;
    QuoteOpensAndCloses(rest, s);
    if s == "" {
      assert ShellQuote(s) + rest == [QUOTE] + closing;
      QuoteOpensAndCloses(closing, s);
    } else {
      assert ShellQuote(s) + rest == [QUOTE] + (Escape(s) + closing);
      QuoteOpensAndCloses(Escape(s) + closing, s);
      EscapedIsLiteral(s, closing, "");
      assert "" + s == s;
    }
  }

  lemma {:induction false} CommandLineReadsBack(words: seq<string>)
    requires forall k :: 0 <= k < |words| ==> NUL !in words[k]
    ensures ReadWords(CommandLine(words), Between, "") == Words(words)
  {
    hide ReadWords, ShellQuote;
    if |words| == 0 {
      SpaceEndsWord("", "");
    } else if |words| == 1 {
      QuotedIsRead(words[0], "");
      SpaceEndsWord("", words[0]);
      assert ShellQuote(words[0]) + "" == ShellQuote(words[0]);
    } else {
      var rest := CommandLine(words[1..]);
      assert CommandLine(words) == ShellQuote(words[0]) + (" " + rest);
      QuotedIsRead(words[0], " " + rest);
      SpaceEndsWord(rest, words[0]);
      CommandLineReadsBack(words[1..]);
    }
  }

  lemma {:induction false} NulIsNeverRead(s: string, mode: Mode, word: string)
    requires NUL in s
    ensures ReadWords(s, mode, word) == Unreadable
    decreases |s|
  {
    var c, rest := s[0], s[1..];
    if c != NUL {
      assert s == [c] + rest;
      forall m: Mode, w: string ensures ReadWords(rest, m, w) == Unreadable {
        NulIsNeverRead(rest, m, w);
      }
      if rest != [] && rest[0] != NUL {
        assert rest == [rest[0]] + rest[1..];
        forall m: Mode, w: string ensures ReadWords(rest[1..], m, w) == Unreadable {
          NulIsNeverRead(rest[1..], m, w);
        }
      }
    }
  }

  lemma {:induction false} EscapeKeeps(s: string, c: char)
    requires c in s
    ensures c in Escape(s)
  {
    if c != s[0] {
      EscapeKeeps(s[1..], c);
    }
  }

  lemma {:induction false} CommandLineKeeps(words: seq<string>, k: nat, c: char)
    requires k < |words| && c in words[k]
    ensures c in CommandLine(words)
  {
    if k == 0 {
      EscapeKeeps(words[0], c);
      assert c in ShellQuote(words[0]);
    } else {
      CommandLineKeeps(words[1..], k - 1, c);
    }
  }

  /**
   * The shell reads the quoted words back as exactly the words that were quoted, whatever characters
   * they hold, if and only if none of them holds a NUL, which no command line can carry.
   */
  lemma {:induction false} QuotingRoundTrip(words: seq<string>)
    ensures ReadWords(CommandLine(words), Between, "") == Words(words)
            <==> forall k :: 0 <= k < |words| ==> NUL !in words[k]
  {
    if forall k :: 0 <= k < |words| ==> NUL !in words[k] {
      CommandLineReadsBack(words);
    } else {
      var k :| 0 <= k < |words| && NUL in words[k];
      CommandLineKeeps(words, k, NUL);
      NulIsNeverRead(CommandLine(words), Between, "");
    }
  }
}
