/**
 * The text extraction inside `get_questions` (backend/app.py:50-57) and
 * `get_scenario` (backend/app.py:71-73): the generator's free text is turned into
 * exactly three questions, or into one non-empty scenario sentence.
 */
module Extraction {
  import opened PyText

  /** The fallback list of `get_questions` (backend/app.py:53-57). */
  const DefaultQuestions: seq<string> := [DefaultQuestion1, DefaultQuestion2, DefaultQuestion3]
  const DefaultQuestion1: string := "Do you avoid sharing feelings because of judgment?"
  const DefaultQuestion2: string := "Have you ever felt ashamed asking for mental health help?"
  const DefaultQuestion3: string := "Do you think seeking help is a weakness?"

  /** The fallback sentence of `get_scenario` (backend/app.py:73). */
  const DefaultScenario: string :=
    "In a group study, a friend says 'You are just lazy' when you mention stress."

  /** A question must be strictly longer than this (backend/app.py:51). */
  const MinQuestionLength: nat := 5

  /** How many questions are served (backend/app.py:51-52). */
  const QuestionCount: nat := 3

  /** The regex class `[\).\s-]` of the list-marker pattern. */
  predicate IsMarker(c: char) {
    c == ')' || c == '.' || c == '-' || IsSpace(c)
  }

  /** Length of the run of digits at the start of `s` (`\d+` when positive). */
  function DigitRun(s: string): (k: nat)
    ensures k <= |s|
    ensures forall i :: 0 <= i < k ==> IsDigit(s[i])
    ensures k < |s| ==> !IsDigit(s[k])
  {
    if s == [] || !IsDigit(s[0]) then 0 else 1 + DigitRun(s[1..])
  }

  /** Length of the run of marker characters of `s` from index `from` (`[\).\s-]*`). */
  function MarkerRun(s: string, from: nat): (k: nat)
    requires from <= |s|
    ensures from + k <= |s|
    ensures forall i :: from <= i < from + k ==> IsMarker(s[i])
    ensures from + k < |s| ==> !IsMarker(s[from + k])
    decreases |s| - from
  {
    if from == |s| || !IsMarker(s[from]) then 0 else 1 + MarkerRun(s, from + 1)
  }

  /** The first `n` characters of `line` are digits followed by marker characters. */
  predicate IsCutPart(line: string, n: nat)
    requires n <= |line|
  {
    && (forall i :: 0 <= i < n ==> IsDigit(line[i]) || IsMarker(line[i]))
    && (forall i, j :: 0 <= i < j < n && IsMarker(line[i]) ==> IsMarker(line[j]))
  }

  /** What follows the first `n` characters does not start with a marker character,
      nor with a digit when those `n` characters are all digits. */
  predicate IsKeptPart(line: string, n: nat)
    requires n <= |line|
  {
    n < |line| ==>
      && !IsMarker(line[n])
      && ((forall i :: 0 <= i < n ==> IsDigit(line[i])) ==> !IsDigit(line[n]))
  }

  /** `r` is what is left of the numbered line `line` once its list marker is cut:
      a proper suffix, after a cut part of digits and marker characters. */
  predicate IsMarkerCut(line: string, r: string) {
    && |r| < |line|
    && r == line[|line| - |r|..]
    && IsCutPart(line, |line| - |r|)
    && IsKeptPart(line, |line| - |r|)
  }

  /** `re.sub(r'^\d+[\).\s-]*', '', line)`: the pattern is anchored at column 0, so
      only a line that starts with a digit loses anything; it then loses its whole
      run of digits and the whole run of `)`, `.`, `-` and whitespace after it. */
  function StripMarker(line: string): (r: string)
    ensures line == [] || !IsDigit(line[0]) ==> r == line
    ensures line != [] && IsDigit(line[0]) ==> IsMarkerCut(line, r)
  {
    if line == [] || !IsDigit(line[0]) then line
    else
      var d := DigitRun(line);
      var m := MarkerRun(line, d);
      MarkerRuns(line, d, m);
      line[d + m..]
  }

  /** The digit run found first and the marker run found after it make a cut. */
  lemma MarkerRuns(line: string, d: nat, m: nat)
    requires line != [] && IsDigit(line[0])
    requires d == DigitRun(line) && m == MarkerRun(line, d)
    ensures d + m <= |line| && IsMarkerCut(line, line[d + m..])
  {
    CutPartOfRuns(line, d, m);
    KeptPartOfRuns(line, d, m);
    assert |line| - |line[d + m..]| == d + m;
  }

  lemma CutPartOfRuns(line: string, d: nat, m: nat)
    requires d == DigitRun(line) && m == MarkerRun(line, d)
    ensures d + m <= |line| && IsCutPart(line, d + m)
  {
    var n := d + m;
    forall i, j | 0 <= i < j < n && IsMarker(line[i]) ensures IsMarker(line[j]) {
      assert !IsDigit(line[i]);
    }
  }

  lemma KeptPartOfRuns(line: string, d: nat, m: nat)
    requires line != [] && IsDigit(line[0])
    requires d == DigitRun(line) && m == MarkerRun(line, d)
    ensures d + m <= |line| && IsKeptPart(line, d + m)
  {
    var n := d + m;
    if n < |line| && m > 0 {
      assert !IsDigit(line[d]);
    }
  }

  /** Conversely, a numbered line is taken apart as its digits, its marker
      characters and its text: the text is exactly what the marker removal keeps. */
  lemma StripMarkerOf(digits: string, marks: string, text: string)
    requires digits != [] && forall i :: 0 <= i < |digits| ==> IsDigit(digits[i])
    requires forall i :: 0 <= i < |marks| ==> IsMarker(marks[i])
    requires text != [] ==> !IsMarker(text[0]) && (marks == [] ==> !IsDigit(text[0]))
    ensures StripMarker(digits + marks + text) == text
  {
    var line := digits + marks + text;
    var d, n := |digits|, |digits| + |marks|;
    assert forall i :: 0 <= i < d ==> line[i] == digits[i];
    assert forall i :: d <= i < n ==> line[i] == marks[i - d];
    if n < |line| {
      assert line[n] == text[0];
    }
    if d < |line| {
      assert !IsDigit(line[d]);
    }
    assert DigitRun(line) == d;
    assert MarkerRun(line, d) == |marks|;
    assert line[|digits| + |marks|..] == text;
  }

  /** One line as `get_questions` cleans it: marker removed, then stripped. The
      result has no surrounding whitespace and is never longer than the line; a
      numbered line gets strictly shorter, and a line not starting with a digit (an
      indented number, a `-` bullet) is only stripped. */
  function CleanLine(line: string): (r: string)
    ensures IsStripped(r)
    ensures |r| <= |line|
    ensures line != [] && IsDigit(line[0]) ==> |r| < |line|
    ensures line == [] || !IsDigit(line[0]) ==> r == Strip(line)
  {
    Strip(StripMarker(line))
  }

  /** `[re.sub(...).strip() for line in lines if line.strip()]` */
  function CleanedLines(lines: seq<string>): (r: seq<string>)
    ensures |r| <= |lines|
  {
    if lines == [] then []
    else if IsBlank(lines[0]) then CleanedLines(lines[1..])
    else [CleanLine(lines[0])] + CleanedLines(lines[1..])
  }

  /** `[q for q in lines if len(q) > 5]` */
  function LongLines(qs: seq<string>): (r: seq<string>)
    ensures |r| <= |qs|
    ensures forall q :: q in r ==> q in qs && |q| > MinQuestionLength
  {
    if qs == [] then []
    else if |qs[0]| > MinQuestionLength then [qs[0]] + LongLines(qs[1..])
    else LongLines(qs[1..])
  }

  /** Every question the generator's text offers, in order: each is longer than
      five characters, and no line gives more than one. */
  function Candidates(text: string): (r: seq<string>)
    ensures |r| <= |SplitLines(text)|
    ensures forall q :: q in r ==> |q| > MinQuestionLength
  {
    LongLines(CleanedLines(SplitLines(text)))
  }

  /** `[...][:3]` followed by the `len(questions) < 3` fallback: never a partial
      list, but the first three candidates in their original order when there are
      at least three, and the fallback list otherwise. */
  function SelectQuestions(candidates: seq<string>, fallback: seq<string>): (questions: seq<string>)
    ensures |candidates| < QuestionCount ==> questions == fallback
    ensures |candidates| >= QuestionCount ==> questions == candidates[..QuestionCount]
  {
    var firstThree := if |candidates| > QuestionCount then candidates[..QuestionCount] else candidates;
    if |firstThree| < QuestionCount then fallback
    else firstThree
  }

  /** The extraction of `get_questions`: always exactly three questions, each
      longer than five characters; the first three candidates in their order when
      the text offers three, the whole default list otherwise. */
  function ExtractQuestions(text: string): (questions: seq<string>)
    ensures |questions| == QuestionCount
    ensures forall q :: q in questions ==> |q| > MinQuestionLength
    ensures var candidates := Candidates(text);
            questions == if |candidates| >= QuestionCount then candidates[..QuestionCount] else DefaultQuestions
  {
    var candidates := Candidates(text);
    DefaultQuestionsLong();
    SelectedLong(candidates, DefaultQuestions);
    SelectQuestions(candidates, DefaultQuestions)
  }

  /** Selecting from long candidates with a long fallback gives long questions. */
  lemma SelectedLong(candidates: seq<string>, fallback: seq<string>)
    requires forall q :: q in candidates ==> |q| > MinQuestionLength
    requires |fallback| == QuestionCount && forall q :: q in fallback ==> |q| > MinQuestionLength
    ensures var questions := SelectQuestions(candidates, fallback);
            && |questions| == QuestionCount
            && (forall q :: q in questions ==> |q| > MinQuestionLength)
            && questions == if |candidates| >= QuestionCount then candidates[..QuestionCount] else fallback
  {
    if |candidates| >= QuestionCount {
      assert forall q :: q in candidates[..QuestionCount] ==> q in candidates;
    }
  }

  /** Each fallback question is itself longer than five characters. */
  lemma DefaultQuestionsLong()
    ensures |DefaultQuestions| == QuestionCount
    ensures forall q :: q in DefaultQuestions ==> |q| > MinQuestionLength
  {
    assert |DefaultQuestion1| == 50;
    assert |DefaultQuestion2| == 57;
    assert |DefaultQuestion3| == 40;
  }

  /** Extracted questions carry no surrounding whitespace. */
  lemma ExtractedQuestionsStripped(text: string)
    requires |Candidates(text)| >= QuestionCount
    ensures forall q :: q in ExtractQuestions(text) ==> IsStripped(q)
  {
    forall q | q in ExtractQuestions(text) ensures IsStripped(q) {
      CandidateFrom(text, q);
      var line :| line in SplitLines(text) && !IsBlank(line) && CleanLine(line) == q;
    }
  }

  /** A cleaned line comes from a non-blank line of the input and vice versa. */
  lemma {:induction false} CleanedLinesFrom(lines: seq<string>, q: string)
    ensures q in CleanedLines(lines) <==> exists line :: line in lines && !IsBlank(line) && CleanLine(line) == q
  {
    if lines != [] {
      CleanedLinesFrom(lines[1..], q);
      assert forall line :: line in lines <==> line == lines[0] || line in lines[1..];
    }
  }

  /** Cleaning goes line by line: the cleaned lines of two blocks of lines are
      those of the first block followed by those of the second, in order. */
  lemma {:induction false} CleanedLinesAppend(a: seq<string>, b: seq<string>)
    ensures CleanedLines(a + b) == CleanedLines(a) + CleanedLines(b)
  {
    if a == [] {
      assert a + b == b;
    } else {
      var ab, line := a + b, a[0];
      assert ab[0] == line && ab[1..] == a[1..] + b;
      CleanedLinesAppend(a[1..], b);
      if IsBlank(line) {
        assert CleanedLines(ab) == CleanedLines(a[1..] + b);
        assert CleanedLines(a) == CleanedLines(a[1..]);
      } else {
        var q := CleanLine(line);
        assert CleanedLines(ab) == [q] + CleanedLines(a[1..] + b);
        assert CleanedLines(a) == [q] + CleanedLines(a[1..]);
        Assoc([q], CleanedLines(a[1..]), CleanedLines(b));
      }
    }
  }

  /** One line is dropped when blank and gives its cleaning otherwise. */
  lemma CleanedLinesSingle(line: string)
    ensures CleanedLines([line]) == if IsBlank(line) then [] else [CleanLine(line)]
  {
  }

  /** The length filter goes line by line: it keeps the order of its input and
      keeps every repeated line. */
  lemma {:induction false} LongLinesAppend(a: seq<string>, b: seq<string>)
    ensures LongLines(a + b) == LongLines(a) + LongLines(b)
  {
    if a == [] {
      assert a + b == b;
    } else {
      var ab := a + b;
      assert ab[0] == a[0] && ab[1..] == a[1..] + b;
      LongLinesAppend(a[1..], b);
    }
  }

  /** One line is kept exactly when it is longer than five characters. */
  lemma LongLinesSingle(q: string)
    ensures LongLines([q]) == if |q| > MinQuestionLength then [q] else []
  {
  }

  /** A length-filtered line is exactly a long line of the input. */
  lemma {:induction false} LongLinesFrom(qs: seq<string>, q: string)
    ensures q in LongLines(qs) <==> q in qs && |q| > MinQuestionLength
  {
    if qs != [] {
      LongLinesFrom(qs[1..], q);
      assert forall x :: x in qs <==> x == qs[0] || x in qs[1..];
    }
  }

  /** The candidates are exactly the cleaned, non-blank lines of the generator's
      text that are longer than five characters. */
  lemma CandidateFrom(text: string, q: string)
    ensures q in Candidates(text) <==>
              |q| > MinQuestionLength &&
              exists line :: line in SplitLines(text) && !IsBlank(line) && CleanLine(line) == q
  {
    LongLinesFrom(CleanedLines(SplitLines(text)), q);
    CleanedLinesFrom(SplitLines(text), q);
  }

  /** Every line of a text whose non-blank lines all clean to at most five
      characters is rejected, so the default list is served. */
  lemma ShortLinesFallBack(text: string)
    requires forall line :: line in SplitLines(text) && !IsBlank(line) ==> |CleanLine(line)| <= MinQuestionLength
    ensures ExtractQuestions(text) == DefaultQuestions
  {
    var candidates := Candidates(text);
    if candidates != [] {
      CandidateFrom(text, candidates[0]);
    }
  }

  /** A numbered line of at most six characters, such as "1. Foo". */
  predicate IsShortNumberedLine(line: string) {
    && 0 < |line| <= MinQuestionLength + 1
    && IsDigit(line[0])
    && HasNoBreak(line)
  }


  /** Three lines without breaks, the last one non-empty, joined by line feeds
      split back into those three lines. */
  lemma SplitThreeLines(a: string, b: string, c: string)
    requires HasNoBreak(a) && HasNoBreak(b) && HasNoBreak(c)
    requires c != []
    ensures SplitLines(a + "\n" + b + "\n" + c) == [a, b, c]
  {
    var lines := [a, b, c];
    assert lines[1..] == [b, c] && [b, c][1..] == [c];
    assert JoinLines(lines) == a + "\n" + b + "\n" + c;
    SplitJoin(lines);
  }

  /** A reply of three non-blank lines that each clean to more than five
      characters gives their three cleanings as the questions, in reply order. */
  lemma {:induction false} ThreeLongLines(a: string, b: string, c: string)
    requires HasNoBreak(a) && HasNoBreak(b) && HasNoBreak(c)
    requires |CleanLine(a)| > MinQuestionLength && |CleanLine(b)| > MinQuestionLength
    requires |CleanLine(c)| > MinQuestionLength
    ensures ExtractQuestions(a + "\n" + b + "\n" + c) == [CleanLine(a), CleanLine(b), CleanLine(c)]
  {
    var qa, qb, qc := CleanLine(a), CleanLine(b), CleanLine(c);
    assert c != [] by { assert |qc| <= |c|; }
    SplitThreeLines(a, b, c);
    ThreeCleaned(a, b, c);
    ThreeLong(qa, qb, qc);
  }

  /** Three lines that clean to non-empty text clean in order, one each. */
  lemma ThreeCleaned(a: string, b: string, c: string)
    requires CleanLine(a) != [] && CleanLine(b) != [] && CleanLine(c) != []
    ensures CleanedLines([a, b, c]) == [CleanLine(a), CleanLine(b), CleanLine(c)]
  {
    CleanedThreeSplit(a, b, c);
    NonBlankCleaned(a);
    NonBlankCleaned(b);
    NonBlankCleaned(c);
    JoinThree(CleanLine(a), CleanLine(b), CleanLine(c));
  }

  /** Three one-element sequences concatenate to the three-element display. */
  lemma JoinThree<T>(x: T, y: T, z: T)
    ensures [x] + [y] + [z] == [x, y, z]
  {
  }

  /** Three lines clean as each line on its own, in order. */
  lemma CleanedThreeSplit(a: string, b: string, c: string)
    ensures CleanedLines([a, b, c]) == CleanedLines([a]) + CleanedLines([b]) + CleanedLines([c])
  {
    var bc := [b, c];
    assert [b] + [c] == bc;
    CleanedLinesAppend([b], [c]);
    assert [a] + bc == [a, b, c];
    CleanedLinesAppend([a], bc);
    Assoc(CleanedLines([a]), CleanedLines([b]), CleanedLines([c]));
  }

  /** Concatenation is associative. */
  lemma Assoc<T>(x: seq<T>, y: seq<T>, z: seq<T>)
    ensures x + (y + z) == (x + y) + z
  {
  }

  /** A line that cleans to non-empty text is kept as its cleaning. */
  lemma NonBlankCleaned(line: string)
    requires CleanLine(line) != []
    ensures CleanedLines([line]) == [CleanLine(line)]
  {
    if IsBlank(line) {
      BlankCleansEmpty(line);
    }
    CleanedLinesSingle(line);
  }

  /** Three long lines all pass the length filter, in order. */
  lemma ThreeLong(qa: string, qb: string, qc: string)
    requires |qa| > MinQuestionLength && |qb| > MinQuestionLength && |qc| > MinQuestionLength
    ensures LongLines([qa, qb, qc]) == [qa, qb, qc]
  {
    LongLinesSingle(qa);
    LongLinesSingle(qb);
    LongLinesSingle(qc);
    assert [qa, qb, qc] == [qa] + [qb] + [qc];
    LongLinesAppend([qa] + [qb], [qc]);
    LongLinesAppend([qa], [qb]);
  }

  /** A blank line cleans to the empty string. */
  lemma BlankCleansEmpty(line: string)
    requires IsBlank(line)
    ensures CleanLine(line) == []
  {
  }

  /** Three numbered items whose text is three letters long, as in
      "1. Foo\n2. Bar\n3. Baz", are too short once their markers are removed, so
      the default list is served rather than the three items. */
  lemma {:induction false} ShortItemsFallBack(a: string, b: string, c: string)
    requires IsShortNumberedLine(a) && IsShortNumberedLine(b) && IsShortNumberedLine(c)
    ensures ExtractQuestions(a + "\n" + b + "\n" + c) == DefaultQuestions
  {
    var text := a + "\n" + b + "\n" + c;
    SplitThreeLines(a, b, c);
    forall line | line in SplitLines(text) && !IsBlank(line)
      ensures |CleanLine(line)| <= MinQuestionLength
    {
      assert line == a || line == b || line == c;
    }
    ShortLinesFallBack(text);
  }

  /** The extraction of `get_scenario`: the first line of the stripped text when it
      is not blank, the fixed default otherwise. It is never empty, because a
      stripped text begins with a character that is not a line break. */
  function ExtractScenario(text: string): (scenario: string)
    ensures scenario != ""
    ensures IsBlank(text) ==> scenario == DefaultScenario
    ensures !IsBlank(text) ==>
              var t := Strip(text);
              && scenario <= t
              && HasNoBreak(scenario)
              && (|scenario| == |t| || IsLineBreak(t[|scenario|]))
  {
    var t := Strip(text);
    var first := if t != "" then SplitLines(t)[0] else "";
    if first == "" then DefaultScenario
    else first
  }

  /** The default sentence is served only for blank generator text. */
  lemma {:induction false} ScenarioDefaultOnlyWhenBlank(text: string)
    requires !IsBlank(text)
    ensures ExtractScenario(text) == SplitLines(Strip(text))[0]
  {
    var t := Strip(text);
    LineBreakIsSpace(t[0]);
    assert LineEnd(t) > 0;
  }

  /** A reply that is one line with no surrounding whitespace, such as the
      generator's error text "[AI error: empty response]", is the scenario itself
      rather than the default sentence. */
  lemma OneLineScenario(t: string)
    requires t != [] && IsStripped(t) && HasNoBreak(t)
    ensures ExtractScenario(t) == t
  {
    assert !IsBlank(t);
    assert StripStart(t) == 0 && StripEnd(t) == |t|;
    assert Strip(t) == t;
    ScenarioDefaultOnlyWhenBlank(t);
    SplitLinesSingle(t);
  }
}
