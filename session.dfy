/** What `run_interactive_session` makes of one line of input: a quit word
    ends the session, a blank line asks again, anything else is a question. */
module Session {
  import opened Text

  datatype Command = Quit | Blank | Ask(question: string)

  const QuitWords: seq<string> := ["quit", "exit", "q"]

  /** `input(...).strip()`, then the quit-word test, then the empty test. */
  function ReadCommand(line: string): (c: Command)
    ensures c.Ask? ==> c.question != [] && c.question == Strip(line)
    ensures c.Ask? ==> !IsSpace(c.question[0]) && !IsSpace(c.question[|c.question| - 1])
    ensures c.Quit? ==> |Strip(line)| in {1, 4}
    ensures c.Blank? <==> AllSpace(line)
  {
    StripShape(line);
    StripEmpty(line);
    var question := Strip(line);
    if Lower(question) in QuitWords then Quit
    else if question == [] then Blank
    else Ask(question)
  }

  lemma UpperKeepsSpace(c: char)
    ensures IsSpace(UpperChar(c)) == IsSpace(c)
    ensures LowerChar(UpperChar(c)) == LowerChar(c)
  {
  }

  lemma {:induction false} SkipSpaceUpper(s: string, i: nat)
    requires i <= |s|
    ensures SkipSpace(Upper(s), i) == SkipSpace(s, i)
    decreases |s| - i
  {
    if i < |s| {
      UpperKeepsSpace(s[i]);
      SkipSpaceUpper(s, i + 1);
    }
  }

  lemma {:induction false} BackSpaceUpper(s: string, lo: nat, j: nat)
    requires lo <= j <= |s|
    ensures BackSpace(Upper(s), lo, j) == BackSpace(s, lo, j)
    decreases j
  {
    if lo < j {
      UpperKeepsSpace(s[j - 1]);
      BackSpaceUpper(s, lo, j - 1);
    }
  }

  /** Stripping and upper-casing can be done in either order. */
  lemma StripUpper(line: string)
    ensures Strip(Upper(line)) == Upper(Strip(line))
  {
    SkipSpaceUpper(line, 0);
    BackSpaceUpper(line, SkipSpace(line, 0), |line|);
  }

  /** Lower-casing forgets an earlier upper-casing. */
  lemma LowerUpper(q: string)
    ensures Lower(Upper(q)) == Lower(q)
  {
    forall k | 0 <= k < |q| ensures Lower(Upper(q))[k] == Lower(q)[k] {
      UpperKeepsSpace(q[k]);
    }
  }

  /** Quit words are recognised in any letter case: upper-casing the line
      changes nothing about what it means. */
  lemma ReadCommandIgnoresCase(line: string)
    ensures ReadCommand(Upper(line)).Quit? <==> ReadCommand(line).Quit?
    ensures ReadCommand(Upper(line)).Blank? <==> ReadCommand(line).Blank?
  {
    StripUpper(line);
    LowerUpper(Strip(line));
  }

  /** A quit word in capitals between spaces ends the session. */
  lemma QuitInCapitals()
    ensures ReadCommand(" QUIT ") == Quit
  {
    var line := " QUIT ";
    assert IsSpace(line[0]) && !IsSpace(line[1]);
    assert SkipSpace(line, 1) == 1;
    assert IsSpace(line[5]) && !IsSpace(line[4]);
    assert BackSpace(line, 1, 5) == 5;
    assert Strip(line) == line[1..5] == "QUIT";
    assert Lower("QUIT") == "quit";
  }

  /** A quit word is only recognised whole. */
  lemma LongerWordIsAQuestion()
    ensures ReadCommand("quitting") == Ask("quitting")
  {
    assert Strip("quitting") == "quitting";
    assert Lower("quitting") == "quitting";
  }

  /** A line of spaces asks again. */
  lemma SpacesAreBlank()
    ensures ReadCommand("  ") == Blank
  {
    assert Strip("  ") == "";
  }

  /** `w` spells `q` with some of its letters in capitals. */
  predicate SpellsIgnoringCase(w: string, q: string)
  {
    |w| == |q| && forall k :: 0 <= k < |w| ==> w[k] == q[k] || w[k] == UpperChar(q[k])
  }

  /** The quit words are nonempty and made of small letters. */
  lemma QuitWordLetters(q: string)
    requires q in QuitWords
    ensures q != [] && forall k :: 0 <= k < |q| ==> 'a' <= q[k] <= 'z'
  {
  }

  /** Every ASCII word spells its lower-case form ignoring case. */
  lemma SpellsLower(w: string)
    ensures SpellsIgnoringCase(w, Lower(w))
  {
    forall k | 0 <= k < |w| ensures w[k] == Lower(w)[k] || w[k] == UpperChar(Lower(w)[k]) {
      var c := w[k];
      if 'A' <= c <= 'Z' {
        assert UpperChar(LowerChar(c)) == c;
      }
    }
  }

  /** A quit word in any letter case, with any whitespace around it, ends
      the session. */
  lemma QuitWordInAnyCase(pre: string, w: string, post: string, q: string)
    requires q in QuitWords && SpellsIgnoringCase(w, q)
    requires AllSpace(pre) && AllSpace(post)
    ensures ReadCommand(pre + w + post) == Quit
  {
    QuitWordLetters(q);
    forall k | 0 <= k < |w| ensures !IsSpace(w[k]) && LowerChar(w[k]) == q[k] {
    }
    StripPadded(pre, w, post);
    assert Lower(w) == q;
  }

  /** Conversely, a line ends the session only when it is, between runs of
      whitespace, a quit word in some letter case. */
  lemma QuitOnlyForQuitWords(line: string)
    requires ReadCommand(line).Quit?
    ensures line == line[..StripStart(line)] + Strip(line) + line[StripEnd(line)..]
    ensures AllSpace(line[..StripStart(line)]) && AllSpace(line[StripEnd(line)..])
    ensures Lower(Strip(line)) in QuitWords
    ensures SpellsIgnoringCase(Strip(line), Lower(Strip(line)))
  {
    StripShape(line);
    var i, e := StripStart(line), StripEnd(line);
    assert line == line[..i] + line[i..e] + line[e..];
    forall k | 0 <= k < |line[e..]| ensures IsSpace(line[e..][k]) {
      assert line[e..][k] == line[e + k];
    }
    SpellsLower(Strip(line));
  }
}
