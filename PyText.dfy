/**
 * The handful of Python `str` built-ins that backend/app.py relies on, restricted
 * to ASCII semantics: `isspace` (used by `strip()` and by the regex class `\s`),
 * `splitlines()`, `lower()`, substring `in`, and `split(":", 1)[-1]`.
 */
module PyText {

  datatype Option<+T> = None | Some(value: T)

  /** Python `str.isspace()` on ASCII: tab, line feed, vertical tab, form feed,
      carriage return, the four information separators 0x1C-0x1F, and space. */
  predicate IsSpace(c: char) {
    var n := c as int;
    n == 0x20 || 0x09 <= n <= 0x0D || 0x1C <= n <= 0x1F
  }

  /** The ASCII characters at which `str.splitlines()` ends a line. */
  predicate IsLineBreak(c: char) {
    var n := c as int;
    0x0A <= n <= 0x0D || 0x1C <= n <= 0x1E
  }

  lemma LineBreakIsSpace(c: char)
    ensures IsLineBreak(c) ==> IsSpace(c)
  {
  }

  predicate IsDigit(c: char) {
    '0' <= c <= '9'
  }

  predicate IsColon(c: char) {
    c == ':'
  }

  predicate IsBlank(s: string) {
    forall i :: 0 <= i < |s| ==> IsSpace(s[i])
  }

  /** Text with no leading or trailing whitespace, as `strip()` leaves it. */
  predicate IsStripped(s: string) {
    s != [] ==> !IsSpace(s[0]) && !IsSpace(s[|s| - 1])
  }

  /** Index of the first character of `s` satisfying `stop`, or |s| if there is none. */
  function FindFirst(s: string, stop: char -> bool): (k: nat)
    ensures k <= |s|
    ensures forall i :: 0 <= i < k ==> !stop(s[i])
    ensures k < |s| ==> stop(s[k])
  {
    if s == [] || stop(s[0]) then 0 else 1 + FindFirst(s[1..], stop)
  }

  predicate IsNotSpace(c: char) {
    !IsSpace(c)
  }

  /** Where `s.strip()` starts: the index of the first non-whitespace character, or |s|. */
  function StripStart(s: string): (lo: nat)
    ensures lo <= |s|
    ensures forall i :: 0 <= i < lo ==> IsSpace(s[i])
    ensures lo < |s| ==> !IsSpace(s[lo])
  {
    FindFirst(s, IsNotSpace)
  }

  /** Where `s.strip()` ends: one past the last non-whitespace character, or 0. */
  function StripEnd(s: string): (hi: nat)
    ensures hi <= |s|
    ensures forall i :: hi <= i < |s| ==> IsSpace(s[i])
    ensures hi > 0 ==> !IsSpace(s[hi - 1])
  {
    if s == [] || !IsSpace(s[|s| - 1]) then |s| else StripEnd(s[..|s| - 1])
  }

  /** `s.strip()`: the slice of `s` between its leading and trailing whitespace.
      It is empty exactly when `s` is blank, and otherwise it starts and ends
      with a non-whitespace character and everything cut off is whitespace. */
  function Strip(s: string): (r: string)
    ensures r == [] <==> IsBlank(s)
    ensures r != [] ==> StripStart(s) < StripEnd(s) && r == s[StripStart(s)..StripEnd(s)]
    ensures IsStripped(r)
  {
    var lo, hi := StripStart(s), StripEnd(s);
    if lo == |s| then []
    else
      s[lo..hi]
  }

  /** Length of the first line of `s`: the index of its first line break. */
  function LineEnd(s: string): (k: nat)
    ensures k <= |s|
    ensures forall i :: 0 <= i < k ==> !IsLineBreak(s[i])
    ensures k < |s| ==> IsLineBreak(s[k])
  {
    FindFirst(s, IsLineBreak)
  }

  /** `s.splitlines()`: "\r\n" counts as one break, and a break at the very end
      does not start a further, empty line. */
  function SplitLines(s: string): (lines: seq<string>)
    ensures s == [] <==> lines == []
    ensures s != [] ==> lines[0] == s[..LineEnd(s)]
    ensures forall j :: 0 <= j < |lines| ==> HasNoBreak(lines[j])
    decreases |s|
  {
    if s == [] then []
    else
      var k := LineEnd(s);
      if k == |s| then [s]
      else
        var next := if s[k] == '\r' && k + 1 < |s| && s[k + 1] == '\n' then k + 2 else k + 1;
        [s[..k]] + SplitLines(s[next..])
  }

  /** A line without a line break, as `splitlines()` returns them. */
  predicate HasNoBreak(line: string) {
    forall i :: 0 <= i < |line| ==> !IsLineBreak(line[i])
  }

  /** One line break of `splitlines()`: "\r\n", or any single break character,
      where a lone "\r" must not be followed by "\n" (the two would be one break). */
  predicate IsBreak(brk: string, rest: string) {
    || brk == "\r\n"
    || (|brk| == 1 && IsLineBreak(brk[0]) && (brk[0] == '\r' ==> rest == [] || rest[0] != '\n'))
  }

  /** A line followed by a line break is split off as the first line, whatever the
      kind of break, and splitting goes on after the break. */
  lemma {:induction false} SplitLinesBreak(line: string, brk: string, rest: string)
    requires HasNoBreak(line)
    requires IsBreak(brk, rest)
    ensures SplitLines(line + brk + rest) == [line] + SplitLines(rest)
  {
    var s := line + brk + rest;
    assert s[|line|] == brk[0];
    assert forall i :: 0 <= i < |line| ==> s[i] == line[i];
    assert LineEnd(s) == |line|;
    assert s[..|line|] == line;
    if brk == "\r\n" {
      assert s[|line| + 1] == '\n';
    } else if rest != [] {
      assert s[|line| + 1] == rest[0];
    }
    assert s[|line| + |brk|..] == rest;
  }

  /** `"\n".join(lines)`, the reference for the round trip below. */
  function JoinLines(lines: seq<string>): (s: string)
    ensures lines == [] ==> s == []
    ensures |lines| == 1 ==> s == lines[0]
  {
    if lines == [] then []
    else if |lines| == 1 then lines[0]
    else lines[0] + "\n" + JoinLines(lines[1..])
  }

  /** `splitlines()` undoes joining with line feeds, for lines without breaks whose
      last line is not empty (a trailing break opens no further line). */
  lemma {:induction false} SplitJoin(lines: seq<string>)
    requires forall j :: 0 <= j < |lines| ==> HasNoBreak(lines[j])
    requires lines != [] ==> lines[|lines| - 1] != []
    ensures SplitLines(JoinLines(lines)) == lines
  {
    if |lines| == 1 {
      SplitLinesSingle(lines[0]);
    } else if |lines| > 1 {
      var rest := lines[1..];
      assert rest[|rest| - 1] == lines[|lines| - 1];
      SplitJoin(rest);
      assert JoinLines(lines) == lines[0] + "\n" + JoinLines(rest);
      SplitLinesBreak(lines[0], "\n", JoinLines(rest));
      assert [lines[0]] + rest == lines;
    }
  }

  /** Text with no line break is a single line. */
  lemma SplitLinesSingle(line: string)
    requires line != []
    requires HasNoBreak(line)
    ensures SplitLines(line) == [line]
  {
    assert LineEnd(line) == |line|;
  }

  /** `c.lower()` on ASCII letters; every other character is left alone. */
  function LowerChar(c: char): char {
    if 'A' <= c <= 'Z' then (c as int - 'A' as int + 'a' as int) as char else c
  }

  /** `s.lower()` */
  function Lower(s: string): (r: string)
    ensures |r| == |s|
    ensures forall i :: 0 <= i < |s| ==> r[i] == LowerChar(s[i])
  {
    seq(|s|, i requires 0 <= i < |s| => LowerChar(s[i]))
  }

  /** `w` occurs in `s` starting at index `i`. */
  predicate OccursAt(s: string, w: string, i: nat) {
    i + |w| <= |s| && s[i..i + |w|] == w
  }

  /** `w in s` for strings: `w` occurs in `s` as a contiguous substring. */
  function Contains(s: string, w: string): (b: bool)
    ensures b <==> exists i: nat :: OccursAt(s, w, i)
  {
    if w <= s then
      assert OccursAt(s, w, 0);
      true
    else if s == [] then
      false
    else
      var b := Contains(s[1..], w);
      assert forall i: nat :: OccursAt(s, w, i + 1) <==> OccursAt(s[1..], w, i) by {
        forall i: nat ensures OccursAt(s, w, i + 1) <==> OccursAt(s[1..], w, i) {
          if i + 1 + |w| <= |s| {
            SliceShift(s, i, |w|);
          }
        }
      }
      assert !OccursAt(s, w, 0);
      assert b ==> exists i: nat :: OccursAt(s, w, i) by {
        if b {
          var i: nat :| OccursAt(s[1..], w, i);
          assert OccursAt(s, w, i + 1);
        }
      }
      assert (exists i: nat :: OccursAt(s, w, i)) ==> b by {
        if exists i: nat :: OccursAt(s, w, i) {
          var i: nat :| OccursAt(s, w, i);
          assert i != 0;
          assert OccursAt(s[1..], w, i - 1);
        }
      }
      b
  }
  /** A slice of `s` from index `i + 1` is the slice of `s[1..]` from index `i`. */
  lemma SliceShift(s: string, i: nat, n: nat)
    requires i + 1 + n <= |s|
    ensures s[i + 1..i + 1 + n] == s[1..][i..i + n]
  {
  }


  /** `s.split(":", 1)[-1]`: what follows the first colon, or all of `s` when it has none. */
  function AfterFirstColon(s: string): (r: string)
    ensures r == s <==> forall i :: 0 <= i < |s| ==> s[i] != ':'
    ensures r != s ==> exists k :: 0 <= k < |s| && s[k] == ':' && r == s[k + 1..]
                                     && forall i :: 0 <= i < k ==> s[i] != ':'
  {
    var k := FindFirst(s, IsColon);
    if k < |s| then
      assert |s[k + 1..]| < |s|;
      s[k + 1..]
    else s
  }
}
