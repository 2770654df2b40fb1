/**
 * The reply handling of `ask_ai` (backend/app.py:115-127): the generator's text is
 * scanned line by line for a reflection and a coping tip, each of which falls back
 * to its own fixed sentence, and the raw text is passed back unchanged.
 */
module Feedback {
  import opened PyText

  const DefaultReflection: string := "I hear you — it takes courage to share this."
  const DefaultTip: string := "Try writing your thoughts in a journal for 5 minutes today."

  datatype Field = Reflection | Tip

  /** What `ask_ai` returns: `ai_reflection`, `ai_tip` and `raw_ai`. */
  datatype Reply = Reply(reflection: string, tip: string, raw: string)

  /** Whether the scan assigns `line` to `field`: a case-insensitive substring test,
      and, because of the `elif`, a line that mentions "reflection" never feeds the tip. */
  predicate Feeds(field: Field, line: string) {
    var lower := Lower(line);
    match field
    case Reflection => Contains(lower, "reflection")
    case Tip => !Contains(lower, "reflection") && Contains(lower, "tip")
  }

  /** `line.split(":", 1)[-1].strip()`: stripped text, never longer than the line,
      and the whole stripped line when there is no colon. */
  function FieldValue(line: string): (r: string)
    ensures IsStripped(r)
    ensures |r| <= |line|
    ensures (forall i :: 0 <= i < |line| ==> line[i] != ':') ==> r == Strip(line)
  {
    Strip(AfterFirstColon(line))
  }

  /** The value a scan over `lines` leaves in `field` before the fallback: that of the
      last line feeding the field, or "" when no line does. */
  function LastValue(field: Field, lines: seq<string>): (r: string)
    ensures IsStripped(r)
    ensures lines == [] ==> r == ""
  {
    if lines == [] then ""
    else if Feeds(field, lines[|lines| - 1]) then FieldValue(lines[|lines| - 1])
    else LastValue(field, lines[..|lines| - 1])
  }

  /** `if not value: value = default` */
  function OrDefault(value: string, default: string): (r: string)
    ensures default != "" ==> r != ""
    ensures value != "" ==> r == value
    ensures value == "" ==> r == default
  {
    if value == "" then default else value
  }

  /** `ask_ai` once the generator has answered with `aiText`: both fields are
      non-empty, each comes from the last line feeding it or from its own default,
      and the raw text is returned unchanged. */
  method AskAi(aiText: string) returns (reply: Reply)
    ensures reply.raw == aiText
    ensures reply.reflection == OrDefault(LastValue(Reflection, SplitLines(aiText)), DefaultReflection)
    ensures reply.tip == OrDefault(LastValue(Tip, SplitLines(aiText)), DefaultTip)
    ensures reply.reflection != "" && reply.tip != ""
  {
    var lines := SplitLines(aiText);
    var reflection, tip := "", "";
    var i := 0;
    while i < |lines|
      invariant 0 <= i <= |lines|
      invariant reflection == LastValue(Reflection, lines[..i])
      invariant tip == LastValue(Tip, lines[..i])
    {
      var line := lines[i];
      var lower := Lower(line);
      if Contains(lower, "reflection") {
        reflection := Strip(AfterFirstColon(line));
      } else if Contains(lower, "tip") {
        tip := Strip(AfterFirstColon(line));
      }
      LastValueStep(Reflection, lines, i);
      LastValueStep(Tip, lines, i);
      i := i + 1;
    }
    assert lines[..i] == lines;
    if reflection == "" {
      reflection := DefaultReflection;
    }
    if tip == "" {
      tip := DefaultTip;
    }
    reply := Reply(reflection, tip, aiText);
  }

  /** One more line either overwrites the field or leaves it as it was. */
  lemma LastValueStep(field: Field, lines: seq<string>, i: nat)
    requires i < |lines|
    ensures LastValue(field, lines[..i + 1]) ==
              if Feeds(field, lines[i]) then FieldValue(lines[i]) else LastValue(field, lines[..i])
  {
    assert lines[..i + 1][..i] == lines[..i];
  }

  /** The value comes from the last line that feeds the field: lines after it that
      do not feed it change nothing. */
  lemma {:induction false} LastValueIsLastMatch(field: Field, lines: seq<string>, k: nat)
    requires k < |lines| && Feeds(field, lines[k])
    requires forall j :: k < j < |lines| ==> !Feeds(field, lines[j])
    ensures LastValue(field, lines) == FieldValue(lines[k])
    decreases |lines|
  {
    if k < |lines| - 1 {
      var front := lines[..|lines| - 1];
      assert forall j :: k < j < |front| ==> front[j] == lines[j];
      LastValueIsLastMatch(field, front, k);
    }
  }

  /** With no line feeding the field, the scan leaves it empty and the default is used. */
  lemma {:induction false} LastValueNoMatch(field: Field, lines: seq<string>)
    requires forall j :: 0 <= j < |lines| ==> !Feeds(field, lines[j])
    ensures LastValue(field, lines) == ""
  {
    if lines != [] {
      var front := lines[..|lines| - 1];
      assert forall j :: 0 <= j < |front| ==> front[j] == lines[j];
      LastValueNoMatch(field, front);
    }
  }

  /** Conversely, a non-empty value was produced by some line feeding the field. */
  lemma {:induction false} LastValueHasSource(field: Field, lines: seq<string>)
    requires LastValue(field, lines) != ""
    ensures exists k :: 0 <= k < |lines| && Feeds(field, lines[k]) && LastValue(field, lines) == FieldValue(lines[k])
  {
    var n := |lines| - 1;
    if !Feeds(field, lines[n]) {
      var front := lines[..n];
      assert LastValue(field, lines) == LastValue(field, front);
      LastValueHasSource(field, front);
      assert forall j :: 0 <= j < n ==> front[j] == lines[j];
    }
  }

  /** A line mentioning both words feeds only the reflection. */
  lemma BothWordsFeedReflection(line: string)
    requires Contains(Lower(line), "reflection") && Contains(Lower(line), "tip")
    ensures Feeds(Reflection, line) && !Feeds(Tip, line)
  {
  }

  /** A labelled line such as "REFLECTION: hi" yields the text after its label. */
  lemma LabelledFieldValue(name: string, value: string)
    requires forall i :: 0 <= i < |name| ==> name[i] != ':'
    requires value != [] && !IsSpace(value[0]) && !IsSpace(value[|value| - 1])
    ensures FieldValue(name + ": " + value) == value
  {
    var line := name + ": " + value;
    assert line[|name|] == ':';
    assert line[|name| + 1..] == " " + value;
    assert AfterFirstColon(line) == " " + value;
    var t := " " + value;
    assert StripStart(t) == 1;
    assert t[|t| - 1] == value[|value| - 1];
    assert StripEnd(t) == |t|;
    assert t[1..] == value;
  }
}
