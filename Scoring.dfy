/**
 * The scoring rule of `stigma_score` (backend/app.py:80-93): each answer is worth
 * 2, 1 or 0 points, the points are summed in a loop, and the sum is banded into
 * Low, Medium or High.
 */
module Scoring {
  import opened PyText

  datatype Level = Low | Medium | High {
    /** The label sent back as `stigma_level`. */
    function Label(): string {
      match this
      case Low => "Low"
      case Medium => "Medium"
      case High => "High"
    }
  }

  /** Answers worth two points (backend/app.py:84). */
  const StrongAnswers: set<string> := {"yes", "often", "always", "agree", "defend"}

  /** Answers worth one point (backend/app.py:86). */
  const MildAnswers: set<string> := {"maybe", "sometimes"}

  /** The points of one answer, after lower-casing it. */
  function Points(answer: string): (p: nat)
    ensures p == 2 <==> Lower(answer) in StrongAnswers
    ensures p == 1 <==> Lower(answer) in MildAnswers
    ensures p == 0 <==> Lower(answer) !in StrongAnswers + MildAnswers
  {
    var s := Lower(answer);
    if s in StrongAnswers then 2
    else if s in MildAnswers then 1
    else 0
  }

  /** The sum of the points of all answers, the value the loop accumulates: each
      answer adds at most two points. */
  function TotalScore(answers: seq<string>): (score: nat)
    ensures score <= 2 * |answers|
  {
    if answers == [] then 0
    else TotalScore(answers[..|answers| - 1]) + Points(answers[|answers| - 1])
  }

  /** The banding of backend/app.py:88-93. */
  function LevelOf(score: int): (level: Level)
    ensures level == Low <==> score <= 2
    ensures level == Medium <==> 3 <= score <= 4
    ensures level == High <==> score >= 5
  {
    if score <= 2 then Low
    else if score <= 4 then Medium
    else High
  }

  /** `stigma_score` with the answers already read from the request (an absent
      list is the empty one): the loop's sum is the total score, and the level is
      its band. */
  method StigmaScore(answers: seq<string>) returns (rawScore: nat, stigmaLevel: string)
    ensures rawScore == TotalScore(answers)
    ensures rawScore <= 2 * |answers|
    ensures stigmaLevel == LevelOf(rawScore).Label()
  {
    rawScore := 0;
    var i := 0;
    while i < |answers|
      invariant 0 <= i <= |answers|
      invariant rawScore == TotalScore(answers[..i])
    {
      var s := Lower(answers[i]);
      if s in StrongAnswers {
        rawScore := rawScore + 2;
      } else if s in MildAnswers {
        rawScore := rawScore + 1;
      }
      assert answers[..i + 1][..i] == answers[..i];
      i := i + 1;
    }
    assert answers[..i] == answers;
    if rawScore <= 2 {
      stigmaLevel := "Low";
    } else if rawScore <= 4 {
      stigmaLevel := "Medium";
    } else {
      stigmaLevel := "High";
    }
  }

  /** The score is zero exactly when no answer is a scoring word. */
  lemma {:induction false} ScoreZero(answers: seq<string>)
    ensures TotalScore(answers) == 0 <==> forall i :: 0 <= i < |answers| ==> Points(answers[i]) == 0
  {
    if answers != [] {
      var front := answers[..|answers| - 1];
      ScoreZero(front);
      assert forall i :: 0 <= i < |front| ==> front[i] == answers[i];
    }
  }

  /** Every answer worth two points reaches the upper bound. */
  lemma {:induction false} ScoreAllStrong(answers: seq<string>)
    requires forall i :: 0 <= i < |answers| ==> Lower(answers[i]) in StrongAnswers
    ensures TotalScore(answers) == 2 * |answers|
  {
    if answers != [] {
      ScoreAllStrong(answers[..|answers| - 1]);
    }
  }

  /** The score of two runs of answers is the sum of their scores. */
  lemma {:induction false} ScoreAppend(a: seq<string>, b: seq<string>)
    ensures TotalScore(a + b) == TotalScore(a) + TotalScore(b)
  {
    if b != [] {
      assert (a + b)[..|a + b| - 1] == a + b[..|b| - 1];
      ScoreAppend(a, b[..|b| - 1]);
    } else {
      assert a + b == a;
    }
  }

  /** Taking one answer out of a list takes its points off the score. */
  lemma ScoreRemoveAt(b: seq<string>, j: nat)
    requires j < |b|
    ensures TotalScore(b) == TotalScore(b[..j] + b[j + 1..]) + Points(b[j])
  {
    var front, x, back := b[..j], b[j], b[j + 1..];
    var tail := b[j..];
    assert tail == [x] + back by {
      assert tail[0] == x && tail[1..] == back;
    }
    assert b == front + tail;
    ScoreAppend(front, [x] + back);
    ScoreAppend([x], back);
    ScoreAppend(front, back);
    ScoreSingle(x);
  }

  lemma ScoreSingle(x: string)
    ensures TotalScore([x]) == Points(x)
  {
    assert [x][..0] == [];
  }

  lemma MultisetRemoveAt(b: seq<string>, j: nat)
    requires j < |b|
    ensures multiset(b[..j] + b[j + 1..]) == multiset(b) - multiset{b[j]}
  {
    assert b == b[..j] + [b[j]] + b[j + 1..];
  }

  /** The score does not depend on the order of the answers. */
  lemma {:induction false} ScorePermutation(a: seq<string>, b: seq<string>)
    requires multiset(a) == multiset(b)
    ensures TotalScore(a) == TotalScore(b)
    decreases |a|
  {
    if a == [] {
      assert |b| == |multiset(b)| == 0;
    } else {
      var n := |a| - 1;
      assert a[n] in multiset(b);
      var j :| 0 <= j < |b| && b[j] == a[n];
      MultisetRemoveAt(a, n);
      MultisetRemoveAt(b, j);
      assert a[..n] + a[n + 1..] == a[..n];
      ScorePermutation(a[..n], b[..j] + b[j + 1..]);
      ScoreRemoveAt(b, j);
    }
  }

  /** The worked examples: no answers score (0, Low); three "yes" score (6, High);
      "Yes", "No", "Maybe" score (3, Medium). */
  lemma ScoreExamples()
    ensures TotalScore([]) == 0 && LevelOf(0) == Low
    ensures TotalScore(["yes", "yes", "yes"]) == 6 && LevelOf(6) == High
    ensures TotalScore(["maybe"]) == 1 && LevelOf(1) == Low
    ensures TotalScore(["Yes", "No", "Maybe"]) == 3 && LevelOf(3) == Medium
  {
    assert Lower("yes") == "yes";
    assert Lower("maybe") == "maybe";
    assert Lower("Yes") == "yes";
    assert Lower("No") == "no";
    assert Lower("Maybe") == "maybe";
    assert ["yes", "yes", "yes"][..2] == ["yes", "yes"];
    assert ["yes", "yes"][..1] == ["yes"];
    assert ["Yes", "No", "Maybe"][..2] == ["Yes", "No"];
    assert ["Yes", "No"][..1] == ["Yes"];
  }
}
