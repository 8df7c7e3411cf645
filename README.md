# AutoTask agent core in Dafny

This project models the two stateful parts of an Android automation agent and
proves properties of them.

- **The task planner** (`autotask_agent/planner.py`):
  - the allow-list of device actions;
  - `_sanitize_plan`, which filters and normalises a plan produced by a
    reasoning service;
  - the code-fence stripping applied to the service's replies;
  - `create_plan`, `analyze_failure` and `optimize_plan`, which fall back to a
    fixed value whenever the service or JSON decoding fails.
- **The agent memory** (`autotask_agent/memory.py`): a store of task
  executions and of learned patterns (one per task category), and the six
  operations on it:
  - `save_task`, `_learn_pattern` and `clear_old_data` change it;
  - `get_similar_tasks`, `get_success_rate` and `get_recent_tasks` only
    read it.

Files:

| file | contents |
|---|---|
| `wrappers.dfy` | `Option` and `Result` |
| `json.dfy` | decoded JSON values, Python truthiness and `dict.get` |
| `text.dfy` | the Python string operations used: `strip()`, `lower()`, `in`, `split(sep)`, `replace(pat, "")`, `split()` |
| `ranking.dfy` | filtering; stable descending sort (Python `sort(reverse=True)`, SQL `ORDER BY … DESC`); SQL `LIMIT`; Python `s[:n]` |
| `planner.dfy` | the planner |
| `memory.dfy` | the memory, as the class `AgentMemory` over two sequences of rows |

How the source is modelled:

- **The sanitizer** is an imperative loop (`SanitizePlan`). It is proved
  against a recursive specification (`KeptSteps`, `Sanitized`). A second,
  independent description (`Admitted`, `Numbered`) says the accepted steps
  come out in input order, with their default step numbers.
- **The reasoning service** is not called. Each wrapper receives its reply:
  the reply's text, or the message of the exception the call raised. The
  JSON decoder `json.loads` is a function parameter that either yields a
  value or fails.
- **The database session** is modelled as two sequences of rows held by an
  `AgentMemory` object:
  - the clock is an explicit `now` in whole seconds;
  - each commit that can fail is a boolean parameter: `stored`, `learned`,
    `committed`;
  - a failed commit rolls back, so the state stays as it was.
- **`get_similar_tasks`** keeps its scoring loop as a method. That method is
  proved equal to the function `Similar`, and the lemmas about `Similar`
  state what the search promises.

Behaviour of the code that is easy to misread; the model follows the code:

- **Step numbers.** A raw step that already has a `step_number` keeps it
  verbatim. Only a missing one becomes its position among the accepted steps.
  So accepted steps are not renumbered from 1 (`StepNumberOfKeptStep`).
- **The sanitizer can raise.** It raises on:
  - a step that is not a dict;
  - an `action_type` that is a list or a dict (unhashable in a set test);
  - a `"steps"` value that is a number, a boolean or null;
  - a non-empty dict as `"steps"`.

  `create_plan` turns such an exception into its error plan, and
  `optimize_plan` turns it into the original plan (`FirstInvalidStepDecides`,
  `CreatePlan`, `OptimizePlan`).
- **"json" is removed everywhere.** Fence stripping removes every occurrence
  of `json` in the fenced block, not only a leading language tag
  (`UnfenceAlsoEditsContent`).
- **Re-learning keeps the old data.** When a category already has a pattern,
  learning bumps its count and time but keeps its `pattern_data`
  (`LearnedUpserts`).
- **Every shared word counts.** "turn on wifi" against
  "turn on bluetooth wifi" scores 3, because "on" counts like any other word
  (`WifiTasksScoreThree`).

## Model

| member | source | states |
|---|---|---|
| Planner.AllowedActions | autotask_agent/planner.py:9-19 | defines the nine allowed action names; Judge accepts exactly a string action among them |
| Planner.Judge | autotask_agent/planner.py:49-54 | a raw step is accepted exactly when it is a dict whose `action_type` is a string on the allow-list of lines 9-19, and then keeps its fields and that action; it raises exactly when it is not a dict or its action is a list or a dict; every other step is dropped |
| Planner.Normalized | autotask_agent/planner.py:56-62 | defines the appended step: step_number, description, params and reason come from the raw step when present, else its position, "", {} and ""; the action is the allowed one; StepNumberOfKeptStep and KeptStepsAreNumberedAdmitted fix the kept steps by it |
| Planner.FallbackStep | autotask_agent/planner.py:64-72 | defines the one-second "wait" step that replaces an empty result; SanitizedFallback and FallbackWithoutSteps state when it is used |
| Planner.StepsOf | autotask_agent/planner.py:49 | defines what `for step in plan.get("steps", [])` walks: nothing without the key, a list's items, a string's one-character strings, nothing for an empty dict, and the exception of a non-empty dict (`.get` on its first key) or of a number, boolean or null; SanitizedOfStepsValue states the outcome of each |
| Planner.Sanitized | autotask_agent/planner.py:45-75 | defines the value `_sanitize_plan` returns or the exception it raises; SanitizePlan proves the loop equal to it, and SanitizedFallback and SanitizedOfStepsValue state its cases |
| Planner.KeptSteps | autotask_agent/planner.py:48-62 | the loop keeps at most as many steps as it reads, and every kept step has an allowed action |
| Planner.SanitizePlan | autotask_agent/planner.py:45-75 | the loop computes exactly the sanitizer's specification; a returned plan has a non-empty list of steps, all with allowed actions; every key other than "steps" is left as it was |
| Planner.KeptStepsAreNumberedAdmitted | autotask_agent/planner.py:48-62 | when no step raises, the result is the accepted raw steps in input order, each normalised with its position among them; the loop raises exactly when some raw step cannot be judged |
| Planner.FailureSticks | autotask_agent/planner.py:49-52 | once a step has raised, later steps cannot change the outcome |
| Planner.FirstInvalidStepDecides | autotask_agent/planner.py:49-52 | the exception raised is that of the first step that is not a dict or has an unhashable action |
| Planner.AdmittedAppend | autotask_agent/planner.py:48-62 | acceptance distributes over concatenation of raw steps, so relative order is kept |
| Planner.StepNumberOfKeptStep | autotask_agent/planner.py:56-61 | the k-th kept step is the k-th accepted raw step normalised; its step_number is the raw one when present, k+1 otherwise |
| Planner.SanitizedFallback | autotask_agent/planner.py:64-75 | when no raw step raises and none is accepted, the plan's steps become exactly the single "wait" fallback step and the other keys are kept |
| Planner.SanitizedOfStepsValue | autotask_agent/planner.py:49-75 | a number, boolean or null as "steps" raises not-iterable; a non-empty string or dict as "steps" raises at `.get`; an empty string or dict gets exactly the fallback step |
| Planner.FallbackWithoutSteps | autotask_agent/planner.py:49-75 | a plan without "steps" gets the fallback step and is then safe |
| Planner.Unfence | autotask_agent/planner.py:129-130 | defines the fence rule shared by lines 129-130, 178-179 and 214-215: when the text holds a fence, `split("```")[1]` with every "json" removed, then stripped; the text itself otherwise; UnfenceTakesFirstBlock fixes its value |
| Planner.UnfenceTakesFirstBlock | autotask_agent/planner.py:129-130 | the decoded text is what lies between the first fence and the next one (or the end of the text), with "json" removed and stripped |
| Planner.UnfenceBlock | autotask_agent/planner.py:129-130 | a reply whose code block holds no backticks yields that block, with "json" removed and stripped, whatever follows the closing fence |
| Planner.UnfenceTaggedBlock | autotask_agent/planner.py:129-130 | a "json"-tagged code block whose body holds no backticks and no other "json" yields its stripped body |
| Planner.UnfenceAlsoEditsContent | autotask_agent/planner.py:130 | a "json" inside the body is removed too, not only the tag |
| Planner.ErrorPlanIsSafe | autotask_agent/planner.py:138-151 | the error plan is a safe one-step plan of complexity "high", estimated time "unknown", carrying the error text |
| Planner.PlanText | autotask_agent/planner.py:127-130 | defines the text create_plan decodes: the reply stripped, then unfenced; CreatePlan uses it |
| Planner.ErrorPlan | autotask_agent/planner.py:140-151 | defines the plan returned on any failure; ErrorPlanIsSafe states its keys and its safety |
| Planner.AsDict | autotask_agent/planner.py:132 | defines the check a decoded plan meets at its first `.get` (line 49): a non-dict fails there; CreatePlan and OptimizePlan state its effect |
| Planner.CreatePlan | autotask_agent/planner.py:120-151 | the plan returned is always safe; it is the error plan when the service, the decoder, the dict check or the sanitizer fails, and the sanitized reply otherwise |
| Planner.AnalyzeFailure | autotask_agent/planner.py:154-185 | a diagnosis is present exactly when the service answered and the unfenced reply decodes to a non-null value, and it is that value |
| Planner.Failures | autotask_agent/planner.py:189 | there are no failures exactly when every result's "success" is truthy |
| Planner.OptimizePlan | autotask_agent/planner.py:188-222 | without failures the plan is returned untouched whatever the service says; otherwise the sanitized reply, or the original plan when anything fails; the result is the input or safe |
| Text.Lower | autotask_agent/memory.py:124 | defines lower() on ASCII letters, keeping the length; LowerAppend, WordsOfLower and ClassifyIgnoresCase state its laws |
| Text.Contains | autotask_agent/planner.py:129 | defines `pat in s` by a leftmost search; ContainsIff states it holds exactly when the pattern occurs somewhere |
| Text.RemoveAll | autotask_agent/planner.py:130 | defines replace(pat, "") as a left-to-right, non-overlapping deletion; RemoveAllIsJoinOfSplit ties it to split and join |
| Text.Strip | autotask_agent/planner.py:127 | the result neither starts nor ends with Python whitespace |
| Text.StripIsTrimmedSlice | autotask_agent/planner.py:127 | strip() returns exactly the slice between the leading and the trailing whitespace |
| Text.Split | autotask_agent/planner.py:130 | split(sep) yields at least one part, at least two when the separator occurs, and no part contains the separator |
| Text.SplitJoin | autotask_agent/planner.py:130 | joining the parts of split(sep) with sep gives the text back |
| Text.RemoveAllIsJoinOfSplit | autotask_agent/planner.py:130 | replace(pat, "") equals "".join(split(pat)) |
| Text.Words | autotask_agent/memory.py:99 | split() with no separator yields only non-empty words without whitespace |
| Text.WordsOfJoin | autotask_agent/memory.py:99 | split() undoes a join of non-empty whitespace-free words by any non-empty whitespace separator |
| Text.WordsOfConcat | autotask_agent/memory.py:99 | the words of a text followed by text that is empty or starts with whitespace are the words of the first followed by the words of the second |
| Text.WordsOfGap | autotask_agent/memory.py:99 | for any two texts, a non-empty whitespace run between them separates their words: the words of the whole are the words of each, in order |
| Text.WordsOfLeadingBlank | autotask_agent/memory.py:99 | leading whitespace does not change the words |
| Text.WordsOfTrailingBlank | autotask_agent/memory.py:99 | trailing whitespace does not change the words |
| Text.WordsOfBlank | autotask_agent/memory.py:99 | whitespace-only text has no words |
| Text.WordsOfLower | autotask_agent/memory.py:99 | lower().split() is split() with each word lowercased, for any text |
| Ranking.Filter | autotask_agent/memory.py:93 | a filter keeps only passing elements, drawn from the input |
| Ranking.SortDesc | autotask_agent/memory.py:114 | the sort is ordered by key, largest first, and is a permutation of its input |
| Ranking.SortDescIsStable | autotask_agent/memory.py:114 | elements with equal keys leave the sort in the order they entered it |
| Ranking.SqlLimit | autotask_agent/memory.py:181 | LIMIT n keeps the first n rows (all when fewer), and all rows when n is negative |
| Ranking.PyPrefix | autotask_agent/memory.py:115 | list[:n] keeps the first n entries, and for negative n all but the last -n |
| Memory.Classify | autotask_agent/memory.py:124-133 | the first matching rule wins, for any task: messaging exactly when the lowercased task contains "whatsapp" or "message"; email exactly when it contains "gmail" or "email" and no messaging word; search exactly when it contains "search" and none of those four; generic exactly when it contains none of the five; the category name is one the pattern table admits |
| Memory.EmailMessageIsMessaging | autotask_agent/memory.py:126-129 | one instance of the first-match rule: "email message" matches both the messaging and the email rule and is messaging |
| Memory.WhatsAppIsMessaging | autotask_agent/memory.py:124-127 | "Send WhatsApp message to Alice" is messaging: the capitalised "WhatsApp" matches once lowercased |
| Memory.GmailIsEmail | autotask_agent/memory.py:124-129 | "Check Gmail inbox" is email |
| Memory.SearchIsSearch | autotask_agent/memory.py:124-131 | "Search for restaurants" is search |
| Memory.FlashlightIsGeneric | autotask_agent/memory.py:124-133 | "Turn on flashlight" matches no rule and is generic |
| Memory.ClassifyIgnoresCase | autotask_agent/memory.py:124 | lowercasing is idempotent and the category ignores letter case |
| Memory.FirstOfType | autotask_agent/memory.py:135-139 | the lookup finds the first pattern of the category, or reports that there is none |
| Memory.FirstOfTypeUnique | autotask_agent/memory.py:135-139 | with one pattern per category, the lookup finds each pattern where it is |
| Memory.Bumped | autotask_agent/memory.py:141-143 | bumping changes only the found pattern, keeping its id and category |
| Memory.Added | autotask_agent/memory.py:144-149 | adding appends one pattern and leaves the existing ones in place |
| Memory.Learned | autotask_agent/memory.py:135-149 | defines the pattern table after learning: the category's pattern bumped when present, a new one added otherwise; LearnedUpserts and LearnedKeepsValid state its effect |
| Memory.LearnedKeepsValid | autotask_agent/memory.py:122-151 | learning keeps ids ascending, counts at least 1 and one pattern per category |
| Memory.LearnedUpserts | autotask_agent/memory.py:135-149 | learning is an upsert keyed by category: the task's category gains one success and is marked used now, keeping its data if it existed and holding the plan with count 1 otherwise; every other category is untouched |
| Memory.AllSucceeded | autotask_agent/memory.py:65 | defines `all(r.get("success", False) for r in results)`: every result has a truthy "success", vacuously so with no results; SaveTask stores it as the row's success |
| Memory.NextExecutionId | autotask_agent/memory.py:67-76 | defines the id SQLite gives a new row: one more than the last id, 1 in an empty table; AppendedKeepsValid shows it exceeds every existing id |
| Memory.NextPatternId | autotask_agent/memory.py:145-149 | defines the id SQLite gives a new pattern: one more than the last id, 1 in an empty table; LearnedKeepsValid shows the pattern ids stay positive and ascending |
| Memory.AppendedKeepsValid | autotask_agent/memory.py:67-76 | a new execution row gets a positive id above every existing one, and the table stays consistent |
| Memory.Newest | autotask_agent/memory.py:178-183 | defines ORDER BY timestamp DESC LIMIT n, ties in table order; NewestAreTop and NewerAreKept state what it returns |
| Memory.NewestAreTop | autotask_agent/memory.py:178-183 | ORDER BY timestamp DESC LIMIT n returns as many rows as the limit allows, newest first, drawn from the table, and no row left out is newer than one returned |
| Memory.NewerAreKept | autotask_agent/memory.py:178-183 | a row newer than one of the returned rows is itself returned |
| Memory.PoolIsNewestSuccessful | autotask_agent/memory.py:91-97 | the similarity search scores 20 successful records of the table, none repeated, or exactly all of them when there are at most 20, newest first, and no successful record left out is newer than one scored |
| Memory.PoolIsSub | autotask_agent/memory.py:91-97 | the scored pool repeats no successful record, and is exactly the multiset of successful records when there are at most 20 |
| Memory.Pool | autotask_agent/memory.py:91-97 | defines the records the search scores: the 20 newest successful ones (all of them when fewer), newest first; PoolIsNewestSuccessful states them |
| Memory.WordSet | autotask_agent/memory.py:99-103 | defines `set(s.lower().split())`; WordSetIsLoweredWords states it for every task |
| Memory.Overlap | autotask_agent/memory.py:99-104 | defines the score `len(task_words & words)`; SharedWordsScore states it for every pair of tasks |
| Memory.Entry | autotask_agent/memory.py:106-111 | defines the dict appended for a record: its task, its plan and its overlap score; Entries and SimilarIsSound state it |
| Memory.Entries | autotask_agent/memory.py:102-104 | each fetched record is scored by its word overlap with the query, in fetch order |
| Memory.Scored | autotask_agent/memory.py:100-112 | defines the `scored` list: the entries with a positive score, in pool order; ScoredStep states how it grows and GetSimilarTasks' loop keeps it as its invariant |
| Memory.ScoredStep | autotask_agent/memory.py:102-112 | scoring one more record appends its entry exactly when it shares a word with the query |
| Memory.WordSetIsLoweredWords | autotask_agent/memory.py:99 | the word set of any task is the set of its split() words, each lowercased |
| Memory.SharedWordsScore | autotask_agent/memory.py:99-104 | for any two tasks, the score is the number of distinct words they share once each split() word is lowercased |
| Memory.SharedWordsOfPhrases | autotask_agent/memory.py:99-104 | tasks written as words separated by any whitespace runs score the number of distinct words they share, ignoring case |
| Memory.WordSetOfJoin | autotask_agent/memory.py:99 | the word set of lowercase words joined by single spaces is the set of those words |
| Memory.WifiTasksScoreThree | autotask_agent/memory.py:99-104 | "turn on wifi" against "turn on bluetooth wifi" scores 3 |
| Memory.Similar | autotask_agent/memory.py:89-115 | defines the search's answer: the pool scored, positive scores kept, sorted by score and cut to the limit; SimilarIsSound, SimilarKeepsBest and SimilarTiesKeepRecency state its promises |
| Memory.SimilarIsSound | autotask_agent/memory.py:89-115 | every answer entry is a scored record sharing at least one word with the query, with its overlap as score; the answer is sorted by score, highest first, and a non-negative limit bounds its length |
| Memory.SimilarKeepsBest | autotask_agent/memory.py:102-115 | every scored record sharing a word is kept before the limit; the answer is drawn from them, as many as a non-negative limit allows, and none left out scores higher than one kept |
| Memory.SimilarTiesKeepRecency | autotask_agent/memory.py:114 | entries with equal scores keep their newest-first order |
| Memory.Retained | autotask_agent/memory.py:202-206 | defines the table left after `WHERE timestamp < cutoff` rows are deleted; RetainedIsExact, RetainedKeepsValid and RetainedKeepsRecent state it |
| Memory.RetainedIsExact | autotask_agent/memory.py:202-206 | exactly the records older than the cutoff are deleted; a record at the cutoff stays |
| Memory.RetainedKeepsValid | autotask_agent/memory.py:199-208 | deleting old records keeps the table consistent |
| Memory.RetainedKeepsRecent | autotask_agent/memory.py:202-206 | with nothing older than the cutoff, nothing is deleted |
| Memory.SuccessCount | autotask_agent/memory.py:164-168 | the successful executions are never more than all executions |
| Memory.SuccessCountIsFilter | autotask_agent/memory.py:164-168 | the count is exactly the number of executions that `filter(success == True)` keeps |
| Memory.Ratio | autotask_agent/memory.py:170 | success / total lies between 0 and 1 and gives the count back when multiplied by the total |
| Memory.Rate | autotask_agent/memory.py:158-170 | the success rate is 0 for an empty table, lies between 0 and 1, and times the number of executions gives the number of successful ones |
| Memory.Summary | autotask_agent/memory.py:186-190 | defines the per-row dict of task, success and timestamp; Summaries and SummariesKeepOrder state it |
| Memory.Summaries | autotask_agent/memory.py:185-192 | one summary per row, in row order, with that row's task, outcome and time |
| Memory.SummariesKeepOrder | autotask_agent/memory.py:185-192 | summarising rows that are newest first keeps them newest first |
| Memory.RecentAreNewest | autotask_agent/memory.py:176-192 | the recent-task answer has as many entries as the limit allows, newest first, each summarising a row and no row more often than the table holds it, and omits no row newer than one listed |
| Memory.RecentAreSub | autotask_agent/memory.py:178-192 | the recent-task answer summarises no row more often than the table holds it |
| Memory.SummariesSub | autotask_agent/memory.py:185-192 | summaries of a sub-multiset of the rows are a sub-multiset of the summaries of all rows |
| Memory.AgentMemory.constructor | autotask_agent/memory.py:51-60 | a new store has empty, consistent tables |
| Memory.AgentMemory.SaveTask | autotask_agent/memory.py:63-86 | a failed commit answers -1 and changes nothing; otherwise the row is appended with the next positive id, the conjunction of the results' success and their count; patterns are learned exactly when every result succeeded and the learning commit went through |
| Memory.AgentMemory.LearnPattern | autotask_agent/memory.py:122-155 | a committed learning applies the category upsert, a failed one changes nothing; executions are untouched |
| Memory.AgentMemory.GetSimilarTasks | autotask_agent/memory.py:89-115 | the scoring loop returns exactly the answer whose properties SimilarIsSound and SimilarKeepsBest state |
| Memory.AgentMemory.SuccessRate | autotask_agent/memory.py:158-170 | 0 for an empty table, between 0 and 1, and times the number of executions gives the number of successful ones |
| Memory.AgentMemory.RecentTasks | autotask_agent/memory.py:176-192 | as many entries as the limit allows (all for a negative limit), newest first, each summarising an execution and none more often than the table holds it, omitting none newer than one listed |
| Memory.AgentMemory.ClearOldData | autotask_agent/memory.py:199-208 | a committed cleanup keeps exactly the executions not older than `now` minus `days` days, in order; a failed one changes nothing; patterns are untouched |

## Left out

- `_encode_image` and the screenshot arguments are not modelled (file I/O and base64). In `analyze_failure` the image is encoded inside the `try`, so a failure there reaches the model as a failed reply. In `create_plan` it is encoded outside the `try`, so an unreadable screenshot raises to the caller. The model does not capture that path.
- The reasoning service: prompts, the model name, token limits and the client object are not modelled. Each wrapper receives the reply text or the exception message as a parameter.
- `json.loads` is the parameter `parse`, and `json.dumps` is not modelled; `failed_step`, the plan and the failures are only formatted into prompts. The memory keeps plans and results decoded, which assumes that decoding what was encoded gives the value back. A `json.dumps` failure in `save_task` is folded into the `stored` flag.
- JSON floats are not modelled; numbers are integers. The success rate is a Dafny `real`, not an IEEE double.
- `str.lower()` is modelled for ASCII letters only.
- Exception messages: `str(e)` for the sanitizer's exceptions is a fixed summary (`Describe`), not Python's exact wording.
- Logging (`loguru`) is not modelled. The number of deleted rows in `clear_old_data` is only logged, so it is not modelled either.
- SQL leaves the order of equal timestamps unspecified; the model keeps table order for ties.
- Times are whole seconds and `isoformat()` is shown as that integer. A `days` value large enough to overflow `datetime` arithmetic is not modelled.
- Opening an existing database file, creating the `data` directory and the engine and session objects are not modelled; the store starts with empty tables.
- Database errors inside the read-only queries are not modelled: `get_similar_tasks` and `get_recent_tasks` answering `[]` and `get_success_rate` answering 0.0.
- The sanitizer updates the decoded plan in place and returns the same object. The model returns a new value, so aliasing is not captured.
- `Planner.CreatePlan`: a decoded reply that is not a dict fails at `.get`. The model assigns that case the `NoGetMethod` description, whereas Python's message would name the actual type.
- The action primitives, the executor loop, the command-line entry point and the package initialiser are not part of this model.
