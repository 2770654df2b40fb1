# Wellness-check backend, modelled in Dafny

This project models the backend of a small wellness-check web app (`backend/app.py`).
The backend has four parts:

- it cleans text with `sanitize_text`;
- it turns a text generator's free-form reply into a daily list of three
  self-reflection questions (`get_questions`) or a daily roleplay scenario
  (`get_scenario`), and memoises both per calendar day in the dictionary
  `daily_cache`;
- it scores a questionnaire (`stigma_score`);
- it pulls a reflection and a coping tip out of the generator's reply to a user's
  roleplay answer (`ask_ai`).

The generator's reply and today's date are parameters supplied by the caller.

Files, one module each:

- `PyText.dfy`: the Python `str` built-ins the backend relies on, with ASCII semantics.
  These are `strip`, `splitlines`, `lower`, substring `in` and `split(":", 1)[-1]`.
- `Sanitizer.dfy`: `sanitize_text`.
- `Extraction.dfy`: question-list and scenario extraction. These are pure functions.
- `Scoring.dfy`: the scoring loop, as a method proved against a sum function. It also
  holds the band, the bounds and the fact that the order of answers does not matter.
- `Feedback.dfy`: the line scan of `ask_ai`, as a method with a loop. It is proved
  against a "last matching line" function.
- `DailyCache.dfy`: `daily_cache` as a class with a `map` field. Its methods are the
  get-or-insert of `get_questions` and `get_scenario`.

The questions filter keeps only items longer than five characters. So a numbered list
with three-letter items, such as `1. Foo` / `2. Bar` / `3. Baz`, does not give
`["Foo", "Bar", "Baz"]`. It gives the fixed default list. The model follows the code
here (lemma `Extraction.ShortItemsFallBack`).

The scenario is the first line of the stripped reply: the reply loses its leading and
trailing whitespace and is then cut at its first line break. So a reply without a
line break gives the whole reply, with its trailing whitespace removed. The fixed
default sentence is used only for a blank reply (lemma
`Extraction.ScenarioDefaultOnlyWhenBlank`). So when generation fails, the generator's
one-line error text such as `[AI error: empty response]` is served, and cached, as that
day's scenario instead of the default sentence (lemma `Extraction.OneLineScenario`).

## Model

| member | source | states |
|---|---|---|
| `PyText.StripStart` | backend/app.py:21 | `strip()` starts at the first non-whitespace character: everything before it is whitespace |
| `PyText.StripEnd` | backend/app.py:21 | `strip()` ends after the last non-whitespace character: everything after it is whitespace |
| `PyText.Strip` | backend/app.py:21 | the stripped text is empty exactly when the input is blank; otherwise it is the slice between the leading and trailing whitespace, and its first and last characters are not whitespace |
| `PyText.SplitLines` | backend/app.py:50 | `splitlines()` gives no lines for empty text; the first line runs up to the first line break; no line contains a line break (the following lines are fixed by `PyText.SplitLinesBreak`) |
| `PyText.SplitLinesBreak` | backend/app.py:50 | a line followed by any one line break (`\r\n`, or a single break character, a lone `\r` not followed by `\n`) is split off as the first line, and splitting goes on after the break |
| `PyText.SplitJoin` | backend/app.py:50 | `splitlines()` undoes joining break-free lines with line feeds, when the last line is not empty |
| `PyText.SplitLinesSingle` | backend/app.py:50 | non-empty text without a line break is one line |
| `PyText.Lower` | backend/app.py:83 | `lower()` keeps the length and lower-cases each character on its own |
| `PyText.Contains` | backend/app.py:118 | `w in s` holds exactly when `w` occurs in `s` at some position |
| `PyText.AfterFirstColon` | backend/app.py:119 | `split(":", 1)[-1]` is the whole line when it has no colon, otherwise the text after its first colon |
| `Sanitizer.BlankControls` | backend/app.py:24 | each control character in 0x00-0x08, 0x0B-0x0C and 0x0E-0x1F becomes one space; length and all other characters are unchanged; no control character is left |
| `Sanitizer.Truncate` | backend/app.py:22-23 | the cut text is a prefix of the text: the whole text when it has at most `max_len` characters, and exactly `max_len` characters otherwise |
| `Sanitizer.Sanitize` | backend/app.py:18-24 | `None` or "" gives ""; otherwise the length is min(length of the stripped text, `max_len`); no control character is left; each position keeps the stripped text's character or has a space where that was a control character |
| `Sanitizer.SanitizeBlank` | backend/app.py:19-21 | absent, empty or all-whitespace input sanitizes to "" |
| `Sanitizer.SanitizeDefaultCap` | backend/app.py:18-23 | with the default `max_len` of 800, the stripped text is kept whole up to 800 characters and cut to exactly 800 beyond that |
| `Sanitizer.SanitizeEdges` | backend/app.py:21-24 | for non-blank input the result is non-empty, and it starts with a space only where a control character was blanked |
| `Extraction.StripMarker` | backend/app.py:50 | the marker pattern is anchored at column 0, so a line not starting with a digit is unchanged; otherwise a proper suffix is kept; what is cut is digits followed by `)`, `.`, `-` or whitespace; what is left starts with neither such a character nor, when only digits were cut, a digit |
| `Extraction.StripMarkerOf` | backend/app.py:50 | conversely, digits followed by marker characters and then a text that starts with neither a marker character nor (with no marker characters) a digit leave exactly that text |
| `Extraction.CleanLine` | backend/app.py:50 | a cleaned line has no surrounding whitespace and is never longer than the line; a numbered line gets strictly shorter; a line not starting with a digit (an indented number, a `-` bullet) is only stripped |
| `Extraction.CleanedLines` | backend/app.py:50 | blank lines are dropped, so there are never more cleaned lines than input lines |
| `Extraction.CleanedLinesAppend` | backend/app.py:50 | cleaning goes line by line: the cleaned lines of two blocks are those of the first block followed by those of the second, in order |
| `Extraction.CleanedLinesSingle` | backend/app.py:50 | one line is dropped when blank and otherwise gives exactly its cleaning |
| `Extraction.LongLines` | backend/app.py:51 | only lines longer than five characters are kept, and they come from the input |
| `Extraction.LongLinesAppend` | backend/app.py:51 | the length filter goes line by line: it keeps the order of its input and every repeated line |
| `Extraction.LongLinesSingle` | backend/app.py:51 | one line is kept exactly when it is longer than five characters |
| `Extraction.Candidates` | backend/app.py:50-51 | every candidate question is longer than five characters, and there are never more candidates than reply lines |
| `Extraction.ExtractQuestions` | backend/app.py:50-57 | always exactly three questions, each longer than five characters: the first three candidates, in order, when the reply offers at least three, and the default list otherwise |
| `Extraction.SelectQuestions` | backend/app.py:51-57 | never a partial list: the first three candidates in order when there are at least three, else the fallback list |
| `Extraction.DefaultQuestionsLong` | backend/app.py:53-57 | the fallback list has three questions, each longer than five characters |
| `Extraction.ExtractedQuestionsStripped` | backend/app.py:50-52 | questions taken from the reply have no surrounding whitespace |
| `Extraction.CleanedLinesFrom` | backend/app.py:50 | a cleaned line is exactly the cleaning of some non-blank input line |
| `Extraction.LongLinesFrom` | backend/app.py:51 | a kept line is exactly an input line longer than five characters |
| `Extraction.CandidateFrom` | backend/app.py:50-51 | the candidates are exactly the cleaned non-blank lines of the reply that are longer than five characters |
| `Extraction.ShortLinesFallBack` | backend/app.py:51-57 | if every non-blank line cleans to at most five characters, the default list is served |
| `Extraction.SplitThreeLines` | backend/app.py:50 | three lines without breaks, the last one non-empty, joined by line feeds split back into those three lines |
| `Extraction.ThreeLongLines` | backend/app.py:50-52 | a reply of three lines that each clean to more than five characters gives their three cleanings as the questions, in reply order |
| `Extraction.ShortItemsFallBack` | backend/app.py:50-57 | three numbered items of at most six characters, such as `1. Foo\n2. Bar\n3. Baz`, give the default list |
| `Extraction.ExtractScenario` | backend/app.py:71-73 | the scenario is never empty; blank text gives the default sentence; otherwise the scenario is a prefix of the stripped text, has no line break, and ends at a line break or at the end |
| `Extraction.ScenarioDefaultOnlyWhenBlank` | backend/app.py:71-73 | for non-blank text the scenario is the first line of the stripped text, never the default |
| `Extraction.OneLineScenario` | backend/app.py:71-73 | a non-empty one-line reply without surrounding whitespace, such as the generator's error text, is itself the scenario, not the default sentence |
| `Scoring.Points` | backend/app.py:83-87 | an answer is worth 2 exactly when its lower-case form is yes/often/always/agree/defend, 1 exactly when it is maybe/sometimes, 0 otherwise |
| `Scoring.LevelOf` | backend/app.py:88-93 | Low iff score <= 2, Medium iff 3 <= score <= 4, High iff score >= 5 |
| `Scoring.TotalScore` | backend/app.py:81-87 | the sum of the answers' points is at most 2 per answer |
| `Scoring.ScoreZero` | backend/app.py:81-87 | the score is 0 exactly when no answer is a scoring word |
| `Scoring.StigmaScore` | backend/app.py:80-94 | the loop's sum is the total of all answers' points, at most 2 per answer, and the returned `stigma_level` is the label ("Low", "Medium" or "High") of its band |
| `Scoring.ScoreAllStrong` | backend/app.py:84-85 | answers that are all worth two points reach the upper bound |
| `Scoring.ScoreAppend` | backend/app.py:81-87 | the score of two runs of answers is the sum of their scores |
| `Scoring.ScoreRemoveAt` | backend/app.py:82-87 | removing one answer removes exactly its points |
| `Scoring.ScoreSingle` | backend/app.py:82-87 | a single answer scores its own points |
| `Scoring.ScorePermutation` | backend/app.py:82-87 | answers holding the same multiset have the same score, whatever their order |
| `Scoring.ScoreExamples` | backend/app.py:80-93 | [] gives (0, Low); three "yes" give (6, High); "maybe" gives (1, Low); "Yes", "No", "Maybe" give (3, Medium) |
| `Feedback.OrDefault` | backend/app.py:122-125 | an empty value gives the default and a non-empty value is kept, so a non-empty default makes the result non-empty |
| `Feedback.FieldValue` | backend/app.py:119 | the value taken from a line has no surrounding whitespace, is never longer than the line, and is the whole stripped line when the line has no colon |
| `Feedback.LastValue` | backend/app.py:116-121 | the value a scan leaves in a field is stripped text, and "" when there are no lines |
| `Feedback.AskAi` | backend/app.py:115-127 | the raw reply is returned unchanged; reflection and tip each come from the last line feeding them, or from their own default when that is empty; both are non-empty |
| `Feedback.LastValueStep` | backend/app.py:117-121 | one more line either overwrites the field with its value or leaves the field as it was |
| `Feedback.LastValueIsLastMatch` | backend/app.py:117-121 | later lines overwrite earlier ones: the value is that of the last line feeding the field |
| `Feedback.LastValueNoMatch` | backend/app.py:116-125 | with no matching line the field stays empty, so it falls back to its own default, whatever happens to the other field |
| `Feedback.LastValueHasSource` | backend/app.py:117-121 | a non-empty value was produced by some line feeding that field |
| `Feedback.BothWordsFeedReflection` | backend/app.py:118-121 | a line containing both words feeds only the reflection |
| `Feedback.LabelledFieldValue` | backend/app.py:119 | a line `LABEL: value` yields `value` |
| `DailyCache.ScenarioKey` | backend/app.py:64 | the scenario key is "scenario-" followed by the date |
| `DailyCache.DateIsNotScenarioKey` | backend/app.py:43-44 | a date key never starts with "scenario-", so the two kinds of key never collide |
| `DailyCache.InsertFits` | backend/app.py:58 | storing a fitting entry under a new key keeps every entry fitting and overwrites nothing |
| `DailyCache.Cache.constructor` | backend/app.py:15 | the cache starts empty, with no generator call made |
| `DailyCache.Cache.GetQuestions` | backend/app.py:43-59 | a hit returns the stored list, leaves the map unchanged and calls no generator; a miss calls the generator once and adds only `today` with the extracted list; three questions come back; no entry is overwritten |
| `DailyCache.Cache.GetScenario` | backend/app.py:63-75 | a hit returns the stored scenario, leaves the map unchanged and calls no generator; a miss calls the generator once and adds only "scenario-" + today; the scenario is non-empty; no entry is overwritten |
| `DailyCache.SameDayQuestions` | backend/app.py:44-59 | two lookups on one day return the same questions, and the generator is called once if the day was not cached and never otherwise |
| `DailyCache.SameDayScenario` | backend/app.py:65-75 | two lookups on one day return the same scenario, and the generator is called once if the day was not cached and never otherwise |
| `DailyCache.NextDayQuestions` | backend/app.py:43-59 | a new day's key is filled from the new reply and keeps the previous day's entry |

## Left out

- HTTP: Flask routing, `request.get_json`, `jsonify` and `app.run` are I/O. Handlers are modelled as plain inputs to plain outputs. A JSON `null` body or an absent `answers` list is the empty list (a request that is not JSON at all is refused by Flask before the handler runs).
- Scoring.StigmaScore: answers are a list of strings. The source applies `str()` to each non-string element first. Such elements (`True`, numbers, `None`, lists) never print as a scoring word, so they score 0.
- Scoring.StigmaScore: an `answers` value that is not a list is not modelled. A `null` or a number makes the loop raise a TypeError, which Flask turns into an error response. A string is scored one character at a time, and an object by its keys.
- Sanitizer.Sanitize: the input is a string or absent. A truthy non-string `user_input` or `scenario` makes `strip()` raise when `ask_ai` sanitizes it; a falsy one gives "".
- The text generator (`generate_with_gemini`, the `genai` setup, its `print` on failure) is a foreign network call. Its reply, including the `[AI error: ...]` sentinels, is an arbitrary input string. The sanitizing the generator applies to its reply is therefore not assumed by the extraction functions.
- Prompt construction in `ask_ai` only formats text for the generator. So the sanitized `user_input` and `scenario`, and the `stigma_level` default "Unknown", have no effect on the modelled result.
- `datetime.date.today()` is the clock. The date string is a parameter.
- DailyCache.Cache.GetQuestions: requires the date to have the ISO form that `str(date)` always produces. Any other string could collide with a "scenario-" key and make the source fail with a KeyError.
- Concurrent requests racing on a cache miss are not modelled. Each method runs to completion.
- Python's regex engine and Unicode string semantics are replaced by ASCII character-level functions:
  - whitespace is 0x09-0x0D, 0x1C-0x1F and space;
  - line breaks are `\n`, `\r`, `\r\n`, 0x0B, 0x0C and 0x1C-0x1E;
  - `\d` is `0`-`9`;
  - `lower()` maps only `A`-`Z`.
  Non-ASCII whitespace, non-ASCII digits and non-ASCII line separators are therefore not recognised.
- Sanitizer.Sanitize: `max_len` is a natural number. The source only ever uses its default of 800, and a negative `max_len` is not modelled.
- Extraction.ExtractQuestions: the fixed default questions are not proved free of surrounding whitespace. Checking characters deep inside long string literals is beyond the solver's budget. Only questions taken from the reply carry that guarantee (`Extraction.ExtractedQuestionsStripped`).
- `frontend/app.py` is not part of this model. It is Streamlit page rendering, session state and HTTP calls with timeouts.
