/** The report's file name: a timestamp and a sanitised first part of the
    question (`generate_markdown_report`, the `safe_question` expression and
    the `filename` f-string). */
module ReportName {
  import opened Wrappers
  import opened Sequences
  import opened Text

  /** Only the first this many characters of the question are used. */
  const MaxQuestionChars := 50

  /** The reports directory, `math_solver_output/reports`. */
  const ReportsDir := "math_solver_output/reports"

  /** A character the generator expression keeps: `c.isalnum() or c in (" ", "-", "_")`. */
  predicate IsKept(c: char)
  {
    IsAsciiAlnum(c) || c == ' ' || c == '-' || c == '_'
  }

  function KeptChar(c: char): Option<char>
  {
    if IsKept(c) then Some(c) else None
  }

  /** The kept characters of `question[:50]`, before stripping. */
  function Kept(question: string): string
  {
    Collect(Take(question, MaxQuestionChars), KeptChar)
  }

  /** `safe_question.replace(' ', '_')`, where `safe_question` is the kept
      characters of `question[:50]`, stripped. */
  function SafeQuestion(question: string): string
  {
    ReplaceChar(Strip(Kept(question)), ' ', '_')
  }

  /** The report's file name, for the `%Y%m%d_%H%M%S` stamp of the current time. */
  function ReportFilename(stamp: string, question: string): string
  {
    stamp + "_" + SafeQuestion(question) + ".md"
  }

  /** `str(self.reports_dir / filename)`. */
  function ReportPath(stamp: string, question: string): string
  {
    ReportsDir + "/" + ReportFilename(stamp, question)
  }

  /** Every kept character passes the filter. */
  lemma {:induction false} KeptChars(question: string)
    ensures forall k :: 0 <= k < |Kept(question)| ==> IsKept(Kept(question)[k])
  {
    var s := Take(question, MaxQuestionChars);
    forall k | 0 <= k < |Kept(question)| ensures IsKept(Kept(question)[k]) {
      var c := Kept(question)[k];
      CollectMembership(s, KeptChar, c);
      var m :| 0 <= m < |s| && KeptChar(s[m]) == Some(c);
    }
  }

  /** The only whitespace the filter keeps is the plain space. */
  lemma KeptSpace(c: char)
    requires IsKept(c)
    ensures IsSpace(c) <==> c == ' '
  {
  }

  /** The sanitised question is no longer than the question, nor than 50. */
  lemma SafeQuestionLength(question: string)
    ensures |SafeQuestion(question)| <= MaxQuestionChars
    ensures |SafeQuestion(question)| <= |question|
  {
  }

  /** A character a sanitised question may hold. */
  predicate IsSafe(c: char)
  {
    IsAsciiAlnum(c) || c == '-' || c == '_'
  }

  /** The sanitised question holds only ASCII letters and digits, `-` and `_`. */
  lemma SafeQuestionAlphabet(question: string)
    ensures forall k :: 0 <= k < |SafeQuestion(question)| ==> IsSafe(SafeQuestion(question)[k])
  {
    KeptChars(question);
  }

  /** How many spaces `strip()` cuts from the front of the kept characters. */
  function LeadingCut(question: string): nat
  {
    StripStart(Kept(question))
  }

  /** Stripping, then replacing, on a string whose only whitespace is the
      plain space. */
  lemma StripThenReplace(kept: string)
    requires forall k :: 0 <= k < |kept| ==> IsKept(kept[k])
    ensures var r, i := ReplaceChar(Strip(kept), ' ', '_'), StripStart(kept);
            && i + |r| <= |kept|
            && (forall k :: 0 <= k < i ==> kept[k] == ' ')
            && (forall k :: i + |r| <= k < |kept| ==> kept[k] == ' ')
            && (forall k :: 0 <= k < |r| ==> r[k] == if kept[i + k] == ' ' then '_' else kept[i + k])
            && (|r| > 0 ==> kept[i] != ' ' && kept[i + |r| - 1] != ' ')
  {
    var i := StripStart(kept);
    var t := Strip(kept);
    var r := ReplaceChar(t, ' ', '_');
    StripShape(kept);
    assert t == kept[i..i + |t|];
    forall k | 0 <= k < i ensures kept[k] == ' ' {
      KeptSpace(kept[k]);
    }
    forall k | i + |t| <= k < |kept| ensures kept[k] == ' ' {
      KeptSpace(kept[k]);
    }
    forall k | 0 <= k < |r| ensures r[k] == if kept[i + k] == ' ' then '_' else kept[i + k] {
      assert t[k] == kept[i + k];
    }
    if |r| > 0 {
      KeptSpace(kept[i]);
      KeptSpace(kept[i + |r| - 1]);
    }
  }

  /** Stripping comes before replacing: the sanitised question is the kept
      characters with the spaces at both ends cut off and the inner spaces
      turned into `_`, so it neither starts nor ends with an `_` that was a space. */
  lemma SafeQuestionShape(question: string)
    ensures var kept, r, i := Kept(question), SafeQuestion(question), LeadingCut(question);
            && i + |r| <= |kept|
            && (forall k :: 0 <= k < i ==> kept[k] == ' ')
            && (forall k :: i + |r| <= k < |kept| ==> kept[k] == ' ')
            && (forall k :: 0 <= k < |r| ==> r[k] == if kept[i + k] == ' ' then '_' else kept[i + k])
            && (|r| > 0 ==> kept[i] != ' ' && kept[i + |r| - 1] != ' ')
  {
    KeptChars(question);
    StripThenReplace(Kept(question));
  }

  /** Only `question[:50]` matters: characters after the fiftieth never change
      the name. */
  lemma SafeQuestionPrefixOnly(question: string, rest: string)
    requires |question| >= MaxQuestionChars
    ensures SafeQuestion(question + rest) == SafeQuestion(question)
  {
    assert (question + rest)[..MaxQuestionChars] == question[..MaxQuestionChars];
    assert Take(question + rest, MaxQuestionChars) == Take(question, MaxQuestionChars);
  }

  /** The report name adds no directory separator to the stamp's. */
  lemma ReportFilenameNoSeparator(stamp: string, question: string)
    requires '/' !in stamp
    ensures '/' !in ReportFilename(stamp, question)
  {
    SafeQuestionAlphabet(question);
    var s := SafeQuestion(question);
    var name := ReportFilename(stamp, question);
    forall k | 0 <= k < |name| ensures name[k] != '/' {
      if k < |stamp| {
        assert name[k] == stamp[k];
      } else if k == |stamp| {
        assert name[k] == '_';
      } else if k < |stamp| + 1 + |s| {
        assert name[k] == s[k - |stamp| - 1];
        assert IsSafe(s[k - |stamp| - 1]);
      } else {
        assert name[k] == ".md"[k - |stamp| - 1 - |s|];
      }
    }
  }
}
