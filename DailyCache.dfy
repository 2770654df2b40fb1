/**
 * The module-level dictionary `daily_cache` (backend/app.py:15) and the two
 * handlers that fill it, `get_questions` (backend/app.py:41-59) and `get_scenario`
 * (backend/app.py:61-75). The date and the generator's reply are parameters: the
 * reply is only used on a miss, where the source calls the generator.
 */
module DailyCache {
  import opened PyText
  import opened Extraction

  /** The value stored under a key: `{"questions": [...]}` or `{"scenario": ...}`. */
  datatype Entry = QuestionsEntry(questions: seq<string>) | ScenarioEntry(scenario: string)

  const ScenarioPrefix: string := "scenario-"

  /** `f"scenario-{today}"` */
  function ScenarioKey(today: string): (key: string)
    ensures ScenarioPrefix <= key && key[|ScenarioPrefix|..] == today
  {
    ScenarioPrefix + today
  }

  /** `str(datetime.date.today())`: four-digit year, month and day joined by '-'. */
  predicate IsIsoDate(d: string) {
    && |d| == 10
    && d[4] == '-' && d[7] == '-'
    && forall i :: 0 <= i < 10 && i != 4 && i != 7 ==> IsDigit(d[i])
  }

  /** A date key never collides with a scenario key. */
  lemma DateIsNotScenarioKey(today: string)
    requires IsIsoDate(today)
    ensures !(ScenarioPrefix <= today)
  {
    assert IsDigit(today[0]);
  }

  /** What each kind of key holds: a scenario key a non-empty scenario, any other
      key exactly three questions. */
  predicate EntryFits(key: string, entry: Entry) {
    if ScenarioPrefix <= key then entry.ScenarioEntry? && entry.scenario != ""
    else entry.QuestionsEntry? && |entry.questions| == QuestionCount
  }

  /** Every entry of the cache fits its key. */
  predicate AllFit(m: map<string, Entry>) {
    forall key :: key in m ==> EntryFits(key, m[key])
  }

  /** Storing a fitting entry keeps every entry fitting and overwrites nothing else. */
  lemma InsertFits(m: map<string, Entry>, key: string, entry: Entry)
    requires AllFit(m) && EntryFits(key, entry) && key !in m
    ensures AllFit(m[key := entry])
    ensures NeverOverwritten(m, m[key := entry])
  {
  }

  /** Every entry that was present is still present with the same value. */
  predicate NeverOverwritten(before: map<string, Entry>, after: map<string, Entry>) {
    forall key :: key in before ==> key in after && after[key] == before[key]
  }

  class Cache {
    var entries: map<string, Entry>
    /** How many times the generator has been called: once per miss. */
    ghost var generations: nat

    ghost predicate Valid()
      reads this
    {
      AllFit(entries)
    }

    constructor ()
      ensures Valid() && entries == map[] && generations == 0
    {
      entries := map[];
      generations := 0;
    }

    /** `get_questions` on day `today` with `generated` as the generator's reply.
        A hit returns the stored list and changes nothing; a miss stores the list
        extracted from `generated` under `today` and nothing else. Either way three
        questions come back and no entry is overwritten. */
    method GetQuestions(today: string, generated: string) returns (questions: seq<string>)
      requires Valid() && IsIsoDate(today)
      modifies this
      ensures Valid()
      ensures |questions| == QuestionCount
      ensures today in entries && entries[today] == QuestionsEntry(questions)
      ensures old(today in entries) ==>
                entries == old(entries) && questions == old(entries[today].questions)
      ensures old(today !in entries) ==>
                entries == old(entries)[today := QuestionsEntry(ExtractQuestions(generated))]
                && questions == ExtractQuestions(generated)
      ensures NeverOverwritten(old(entries), entries)
      ensures generations == old(generations) + (if old(today in entries) then 0 else 1)
    {
      if today !in entries {
        generations := generations + 1;
        var entry := QuestionsEntry(ExtractQuestions(generated));
        DateIsNotScenarioKey(today);
        InsertFits(entries, today, entry);
        entries := entries[today := entry];
      }
      DateIsNotScenarioKey(today);
      questions := entries[today].questions;
    }

    /** `get_scenario` on day `today` with `generated` as the generator's reply,
        under the key "scenario-" + today. A hit returns the stored scenario and
        changes nothing; a miss stores the scenario extracted from `generated` and
        nothing else. The scenario is never empty and no entry is overwritten. */
    method GetScenario(today: string, generated: string) returns (scenario: string)
      requires Valid()
      modifies this
      ensures Valid()
      ensures scenario != ""
      ensures ScenarioKey(today) in entries && entries[ScenarioKey(today)] == ScenarioEntry(scenario)
      ensures var key := ScenarioKey(today);
              && (old(key in entries) ==>
                    entries == old(entries) && scenario == old(entries[key].scenario))
              && (old(key !in entries) ==>
                    entries == old(entries)[key := ScenarioEntry(ExtractScenario(generated))]
                    && scenario == ExtractScenario(generated))
      ensures NeverOverwritten(old(entries), entries)
      ensures generations == old(generations) + (if old(ScenarioKey(today) in entries) then 0 else 1)
    {
      var key := ScenarioKey(today);
      if key !in entries {
        generations := generations + 1;
        var entry := ScenarioEntry(ExtractScenario(generated));
        InsertFits(entries, key, entry);
        entries := entries[key := entry];
      }
      scenario := entries[key].scenario;
    }
  }

  /** Two requests on the same day get the same questions, and the generator is
      called at most once: the second request does not look at what it would say. */
  method SameDayQuestions(cache: Cache, today: string, first: string, second: string)
    returns (q1: seq<string>, q2: seq<string>)
    requires cache.Valid() && IsIsoDate(today)
    modifies cache
    ensures q1 == q2
    ensures old(today !in cache.entries) ==> q1 == ExtractQuestions(first)
    ensures cache.generations == old(cache.generations) + (if old(today in cache.entries) then 0 else 1)
  {
    q1 := cache.GetQuestions(today, first);
    q2 := cache.GetQuestions(today, second);
  }

  /** Two requests on the same day get the same scenario, and the generator is
      called at most once. */
  method SameDayScenario(cache: Cache, today: string, first: string, second: string)
    returns (s1: string, s2: string)
    requires cache.Valid()
    modifies cache
    ensures s1 == s2
    ensures old(ScenarioKey(today) !in cache.entries) ==> s1 == ExtractScenario(first)
    ensures cache.generations == old(cache.generations) + (if old(ScenarioKey(today) in cache.entries) then 0 else 1)
  {
    s1 := cache.GetScenario(today, first);
    s2 := cache.GetScenario(today, second);
  }

  /** On a new day the questions are regenerated: a previous day's list is not served. */
  method NextDayQuestions(cache: Cache, today: string, tomorrow: string, first: string, second: string)
    returns (q1: seq<string>, q2: seq<string>)
    requires cache.Valid() && IsIsoDate(today) && IsIsoDate(tomorrow)
    requires today != tomorrow && tomorrow !in cache.entries
    modifies cache
    ensures q2 == ExtractQuestions(second)
    ensures today in cache.entries && cache.entries[today] == QuestionsEntry(q1)
  {
    q1 := cache.GetQuestions(today, first);
    q2 := cache.GetQuestions(tomorrow, second);
  }
}
