/** Choosing a here-document delimiter that does not occur in the text it is to enclose. */
module Delimiter {
  import opened Text
  import opened Decimal

  const BASE := "KRELLIN_PATCH_EOF_"
  const TRIES: nat := 1000

  function Candidate(i: nat): string
  {
    BASE + Itoa(i)
  }

  const LAST_RESORT := BASE + "X"

  /** All that may be returned: so many that a text has to be this long to hold them all. */
  const ROOM: nat := 900 * 21 + 2 * 19

  /** The text holds every delimiter that could be returned, the last resort included. */
  ghost predicate HoldsAll(text: string)
  {
    (forall i :: 0 <= i < TRIES ==> Contains(text, Candidate(i))) && Contains(text, LAST_RESORT)
  }

  /** The first numbered delimiter that does not occur; after a thousand of them, one that is not checked. */
  method PickDelimiter(content: string) returns (d: string)
    ensures if forall i :: 0 <= i < TRIES ==> Contains(content, Candidate(i)) then d == LAST_RESORT
            else exists i :: 0 <= i < TRIES && d == Candidate(i) && !Contains(content, d)
                             && forall j :: 0 <= j < i ==> Contains(content, Candidate(j))
    ensures Contains(content, d) <==> HoldsAll(content)
    ensures |content| < ROOM ==> !Contains(content, d)
  {
    hide Contains, Candidate;
    if HoldsAll(content) {
      AllOccurNeedsRoom(content);
    }
    for i := 0 to TRIES
      invariant forall j :: 0 <= j < i ==> Contains(content, Candidate(j))
    {
      d := Candidate(i);
      if !Contains(content, d) {
        return;
      }
    }
    d := LAST_RESORT;
  }

  // ----- words that cannot overlap

  /** A word that starts with a K and holds no other. */
  predicate Marked(word: string)
  {
    word != "" && word[0] == 'K' && forall k :: 0 < k < |word| ==> word[k] != 'K'
  }

  lemma {:induction false} KOnlyAtStart(text: string, word: string, p: nat)
    requires Marked(word) && StandsAt(word, text, p)
    ensures p + |word| <= |text| && text[p] == 'K' && forall x :: p < x < p + |word| ==> text[x] != 'K'
  {
    forall x | p <= x < p + |word| ensures text[x] == word[x - p] {
      assert text[p..p + |word|][x - p] == text[x];
    }
  }

  /** Such words do not overlap, unless one starts where the other does. */
  lemma {:induction false} ApartOrSame(text: string, v: string, p: nat, w: string, q: nat)
    requires Marked(v) && Marked(w) && StandsAt(v, text, p) && StandsAt(w, text, q)
    ensures p == q || p + |v| <= q || q + |w| <= p
  {
    KOnlyAtStart(text, v, p);
    KOnlyAtStart(text, w, q);
  }

  /** And they start at the same place only if they agree as far as they go. */
  lemma {:induction false} SamePlace(text: string, v: string, w: string, p: nat)
    requires StandsAt(v, text, p) && StandsAt(w, text, p) && |v| <= |w|
    ensures v <= w
  {
    assert text[p..p + |w|][..|v|] == text[p..p + |v|];
  }

  lemma {:induction false} BaseIsMarked(tail: string)
    requires 'K' !in tail
    ensures Marked(BASE + tail) && (BASE + tail)[|BASE|..] == tail && |BASE| == 18
  {
    forall k | 0 < k < |BASE + tail| ensures (BASE + tail)[k] != 'K' {
      if k >= 18 {
        assert (BASE + tail)[k] == tail[k - 18];
      }
    }
  }

  /** The numbers 100 to 999 give delimiters of 21 characters, with a digit above 0 after the base. */
  lemma {:induction false} ThreeDigits(i: nat)
    requires 100 <= i < 1000
    ensures |Candidate(i)| == 21 && Marked(Candidate(i)) && '1' <= Candidate(i)[18] <= '9'
  {
    assert |Digits(i / 10 / 10)| == 1 && '1' <= Digits(i / 10 / 10)[0];
    assert |Digits(i / 10)| == 2 && Digits(i / 10)[0] == Digits(i / 10 / 10)[0];
    assert |Digits(i)| == 3 && Digits(i)[0] == Digits(i / 10)[0];
    ItoaCharacters(i);
    BaseIsMarked(Itoa(i));
  }

  lemma {:induction false} DifferentNumbersDiffer(i: nat, j: nat)
    requires i != j
    ensures Candidate(i) != Candidate(j)
  {
    MagnitudeDigits(i);
    MagnitudeDigits(j);
    assert Candidate(i)[|BASE|..] == Itoa(i) && Candidate(j)[|BASE|..] == Itoa(j);
  }

  /** Two different delimiters in one text do not overlap. */
  lemma {:induction false} OccurrencesApart(text: string, i: nat, p: nat, j: nat, q: nat)
    requires 100 <= i < 1000 && 100 <= j < 1000 && i != j
    requires StandsAt(Candidate(i), text, p) && StandsAt(Candidate(j), text, q)
    ensures p + 21 <= q || q + 21 <= p
  {
    hide Candidate, Marked, StandsAt;
    ThreeDigits(i);
    ThreeDigits(j);
    DifferentNumbersDiffer(i, j);
    ApartOrSame(text, Candidate(i), p, Candidate(j), q);
    if p == q {
      SamePlace(text, Candidate(i), Candidate(j), p);
    }
  }

  /** The two delimiters of 19 characters that no longer one starts with: number 0 and the last resort. */
  predicate Lone(word: string)
  {
    word == Candidate(0) || word == LAST_RESORT
  }

  lemma {:induction false} LoneWords(word: string)
    requires Lone(word)
    ensures |word| == 19 && Marked(word) && (word[18] == '0' || word[18] == 'X')
    ensures word == Candidate(0) <==> word[18] == '0'
  {
    BaseIsMarked("X");
    BaseIsMarked("0");
    assert Itoa(0) == "0";
  }

  lemma {:induction false} LoneApart(text: string, word: string, p: nat, i: nat, q: nat)
    requires Lone(word) && 100 <= i < 1000
    requires StandsAt(word, text, p) && StandsAt(Candidate(i), text, q)
    ensures p + 19 <= q || q + 21 <= p
  {
    hide Candidate, Marked, StandsAt, Lone;
    ThreeDigits(i);
    LoneWords(word);
    ApartOrSame(text, word, p, Candidate(i), q);
    if p == q {
      SamePlace(text, word, Candidate(i), p);
    }
  }

  lemma {:induction false} LonesApart(text: string, p: nat, q: nat)
    requires StandsAt(Candidate(0), text, p) && StandsAt(LAST_RESORT, text, q)
    ensures p + 19 <= q || q + 19 <= p
  {
    hide Marked, StandsAt;
    LoneWords(Candidate(0));
    LoneWords(LAST_RESORT);
    hide Candidate;
    ApartOrSame(text, Candidate(0), p, LAST_RESORT, q);
    if p == q {
      SamePlace(text, Candidate(0), LAST_RESORT, p);
    }
  }

  // ----- the room they need

  /** Where the first `n` three-digit delimiters occur, when they all do. */
  lemma {:induction false} Positions(text: string, n: nat) returns (at: set<nat>)
    requires n <= 900 && forall i :: 100 <= i < 1000 ==> Contains(text, Candidate(i))
    ensures |at| == n
    ensures forall p :: p in at ==> exists i :: 100 <= i < 100 + n && StandsAt(Candidate(i), text, p)
    ensures forall p, q :: p in at && q in at && p < q ==> p + 21 <= q
    ensures forall p :: p in at ==> p + 21 <= |text|
  {
    hide Candidate;
    if n == 0 {
      at := {};
    } else {
      var before := Positions(text, n - 1);
      var last := 99 + n;
      assert Contains(text, Candidate(last));
      var here: nat :| here <= |text| && StandsAt(Candidate(last), text, here);
      ThreeDigits(last);
      forall p | p in before ensures p + 21 <= here || here + 21 <= p {
        var i :| 100 <= i < 100 + n - 1 && StandsAt(Candidate(i), text, p);
        OccurrencesApart(text, i, p, last, here);
      }
      at := before + {here};
    }
  }

  function Size(p: nat, short: set<nat>): nat
  {
    if p in short then 19 else 21
  }

  /** Places that far apart take up that many characters each. */
  lemma {:induction false} ApartNeedsRoom(at: set<nat>, short: set<nat>, length: nat)
    requires forall p, q :: p in at && q in at && p < q ==> p + Size(p, short) <= q
    requires forall p :: p in at ==> p + Size(p, short) <= length
    ensures 21 * |at| <= length + 2 * |at * short|
    decreases |at|
  {
    if at != {} {
      var top := Highest(at);
      assert (at - {top}) * short == at * short - {top};
      ApartNeedsRoom(at - {top}, short, top);
    }
  }

  lemma {:induction false} Highest(at: set<nat>) returns (top: nat)
    requires at != {}
    ensures top in at && forall p :: p in at ==> p <= top
    decreases |at|
  {
    var one :| one in at;
    if at == {one} {
      top := one;
    } else {
      var rest := Highest(at - {one});
      top := if rest < one then one else rest;
      assert forall p :: p in at ==> p == one || p in at - {one};
    }
  }

  /** A text that holds all of them has room for 900 of them and two shorter ones side by side. */
  lemma {:induction false} AllOccurNeedsRoom(text: string)
    requires HoldsAll(text)
    ensures |text| >= ROOM
  {
    hide Candidate, StandsAt;
    var at := Positions(text, 900);
    assert Contains(text, Candidate(0));
    var zero: nat :| zero <= |text| && StandsAt(Candidate(0), text, zero);
    var x: nat :| x <= |text| && StandsAt(LAST_RESORT, text, x);
    LonesApart(text, zero, x);
    forall p | p in at
      ensures (p + 21 <= zero || zero + 19 <= p) && (p + 21 <= x || x + 19 <= p)
    {
      var i :| 100 <= i < 1000 && StandsAt(Candidate(i), text, p);
      LoneApart(text, Candidate(0), zero, i, p);
      LoneApart(text, LAST_RESORT, x, i, p);
    }
    LoneWords(Candidate(0));
    LoneWords(LAST_RESORT);
    KOnlyAtStart(text, Candidate(0), zero);
    KOnlyAtStart(text, LAST_RESORT, x);
    var all, short := at + {zero, x}, {zero, x};
    assert |all| == 902 && all * short == short;
    assert |short| == 2;
    ApartNeedsRoom(all, short, |text|);
  }

  // ----- and no more than that

  /** The delimiters numbered 100 to 99 + n one after the other, behind the two shorter ones. */
  function Packed(n: nat): string
  {
    if n == 0 then Candidate(0) + LAST_RESORT else Packed(n - 1) + Candidate(99 + n)
  }

  lemma {:induction false} ContainsMore(text: string, front: string, back: string, part: string)
    requires Contains(text, part)
    ensures Contains(front + text + back, part)
  {
    var at: nat :| at <= |text| && StandsAt(part, text, at);
    var all := front + text + back;
    assert all[|front| + at..|front| + at + |part|] == text[at..at + |part|];
    assert StandsAt(part, all, |front| + at);
  }

  lemma {:induction false} ContainsItself(text: string, part: string)
    requires part <= text
    ensures Contains(text, part)
  {
    assert StandsAt(part, text, 0);
  }

  lemma {:induction false} PackedHolds(n: nat, i: nat)
    requires 100 <= i < 100 + n
    ensures Contains(Packed(n), Candidate(i))
    decreases n
  {
    hide Contains, Candidate;
    if i == 99 + n {
      ContainsItself(Candidate(i), Candidate(i));
      ContainsMore(Candidate(i), Packed(n - 1), "", Candidate(i));
      assert Packed(n - 1) + Candidate(i) + "" == Packed(n);
    } else {
      PackedHolds(n - 1, i);
      ContainsMore(Packed(n - 1), "", Candidate(99 + n), Candidate(i));
      assert "" + Packed(n - 1) + Candidate(99 + n) == Packed(n);
    }
  }

  lemma {:induction false} PackedStarts(n: nat)
    requires n <= 900
    ensures |Packed(n)| == 38 + 21 * n
    ensures Contains(Packed(n), Candidate(0)) && Contains(Packed(n), LAST_RESORT)
  {
    hide Contains, Candidate;
    if n == 0 {
      LoneWords(Candidate(0));
      LoneWords(LAST_RESORT);
      ContainsItself(Packed(0), Candidate(0));
      ContainsItself(LAST_RESORT, LAST_RESORT);
      ContainsMore(LAST_RESORT, Candidate(0), "", LAST_RESORT);
      assert Candidate(0) + LAST_RESORT + "" == Packed(0);
    } else {
      PackedStarts(n - 1);
      ThreeDigits(99 + n);
      ContainsMore(Packed(n - 1), "", Candidate(99 + n), Candidate(0));
      ContainsMore(Packed(n - 1), "", Candidate(99 + n), LAST_RESORT);
      assert "" + Packed(n - 1) + Candidate(99 + n) == Packed(n);
    }
  }

  /** Where the delimiter numbered 10 i occurs, the one numbered i does. */
  lemma {:induction false} ShorterOccurs(text: string, i: nat)
    requires 0 < i && Contains(text, Candidate(10 * i))
    ensures Contains(text, Candidate(i))
  {
    assert Digits(10 * i) == Digits(i) + [DigitChar(0)];
    var at: nat :| at <= |text| && StandsAt(Candidate(10 * i), text, at);
    assert Candidate(10 * i)[..|Candidate(i)|] == Candidate(i);
    assert text[at..at + |Candidate(10 * i)|][..|Candidate(i)|] == text[at..at + |Candidate(i)|];
    assert StandsAt(Candidate(i), text, at);
  }

  /** The bound is the least: a text of just that length holds every delimiter that could be returned. */
  lemma {:induction false} RoomSuffices()
    ensures |Packed(900)| == ROOM && HoldsAll(Packed(900))
  {
    hide Contains, Candidate, Packed;
    PackedStarts(900);
    forall i | 0 <= i < TRIES ensures Contains(Packed(900), Candidate(i)) {
      if i >= 100 {
        PackedHolds(900, i);
      } else if i >= 10 {
        PackedHolds(900, 10 * i);
        ShorterOccurs(Packed(900), i);
      } else if i > 0 {
        PackedHolds(900, 100 * i);
        ShorterOccurs(Packed(900), 10 * i);
        ShorterOccurs(Packed(900), i);
      }
    }
  }
}
