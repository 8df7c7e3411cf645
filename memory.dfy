/** The agent's persistent memory: a table of task executions and a table of
    learned patterns, one per task category. The SQL session becomes two
    sequences of rows held by an `AgentMemory` object; the clock is an
    explicit `now` (whole seconds) and a failing commit an explicit flag. */
module Memory {
  import opened Wrappers
  import opened Json
  import opened Text
  import Ranking

  /** Seconds in `timedelta(days=1)`. */
  const Day: int := 86400

  /** How many of the newest successful executions the similarity search scores. */
  const SimilarPool: int := 20

  // ---------------------------------------------------------------- rows

  /** A row of `task_executions`. The plan and the results are kept decoded. */
  datatype TaskExecution = TaskExecution(
    id: int,
    taskDescription: string,
    plan: Dict,
    results: seq<Dict>,
    success: bool,
    timestamp: int,
    stepsCount: int)

  /** A row of `learned_patterns`. */
  datatype LearnedPattern = LearnedPattern(
    id: int,
    taskType: string,
    patternData: Dict,
    successCount: int,
    lastUsed: int)

  /** An entry of `get_similar_tasks`: `{"task", "plan", "score"}`. */
  datatype SimilarTask = SimilarTask(task: string, plan: Dict, score: int)

  /** An entry of `get_recent_tasks`: `{"task", "success", "timestamp"}`. */
  datatype RecentTask = RecentTask(task: string, success: bool, timestamp: int)

  function IdOf(e: TaskExecution): int { e.id }
  function Timestamp(e: TaskExecution): int { e.timestamp }
  predicate IsSuccessful(e: TaskExecution) { e.success }
  function PatternId(p: LearnedPattern): int { p.id }
  function Score(s: SimilarTask): int { s.score }
  function RecentTimestamp(r: RecentTask): int { r.timestamp }

  /** `all(r.get("success", False) for r in results)`: vacuously true when
      there are no results. */
  predicate AllSucceeded(results: seq<Dict>) {
    forall k :: 0 <= k < |results| ==> Succeeded(results[k])
  }

  /** The id SQLite gives the next row: one more than the largest id, which
      in an id-ordered table is the last one; 1 in an empty table. */
  function NextExecutionId(es: seq<TaskExecution>): int {
    if es == [] then 1 else es[|es| - 1].id + 1
  }
  function NextPatternId(ps: seq<LearnedPattern>): int {
    if ps == [] then 1 else ps[|ps| - 1].id + 1
  }

  /** The execution table as the operations keep it: ids are positive and
      ascending, and each row's success flag and step count agree with its
      results. */
  predicate ExecutionsValid(es: seq<TaskExecution>) {
    Ranking.Increasing(es, IdOf) &&
    (forall k :: 0 <= k < |es| ==> es[k].id >= 1) &&
    (forall k :: 0 <= k < |es| ==>
      es[k].success == AllSucceeded(es[k].results) && es[k].stepsCount == |es[k].results|)
  }

  /** Appending a consistent row with the next id keeps the execution
      table's invariant; that id is positive. */
  lemma {:induction false} AppendedKeepsValid(es: seq<TaskExecution>, row: TaskExecution)
    requires ExecutionsValid(es)
    requires row.id == NextExecutionId(es)
    requires row.success == AllSucceeded(row.results) && row.stepsCount == |row.results|
    ensures row.id >= 1
    ensures ExecutionsValid(es + [row])
  {
    var r := es + [row];
    forall a, b | 0 <= a < b < |r| ensures r[a].id < r[b].id {
      assert r[a] == es[a];
      if b < |es| {
        assert r[b] == es[b];
      } else {
        assert es[a].id <= es[|es| - 1].id;
      }
    }
    forall k | 0 <= k < |r|
      ensures r[k].id >= 1
      ensures r[k].success == AllSucceeded(r[k].results) && r[k].stepsCount == |r[k].results|
    {
      if k < |es| {
        assert r[k] == es[k];
      }
    }
  }

  /** The pattern table as the operations keep it: ids positive and
      ascending, at most one pattern per category, every count at least 1. */
  predicate PatternsValid(ps: seq<LearnedPattern>) {
    Ranking.Increasing(ps, PatternId) &&
    (forall k :: 0 <= k < |ps| ==> ps[k].id >= 1 && ps[k].successCount >= 1) &&
    (forall k :: 0 <= k < |ps| ==> IsCategoryName(ps[k].taskType)) &&
    (forall i, j :: 0 <= i < j < |ps| ==> ps[i].taskType != ps[j].taskType)
  }

  // ---------------------------------------------------------------- categories

  datatype Category = Messaging | Email | Search | Generic

  function CategoryName(c: Category): string {
    match c
    case Messaging => "messaging"
    case Email => "email"
    case Search => "search"
    case Generic => "generic"
  }

  predicate IsCategoryName(t: string) {
    t == "messaging" || t == "email" || t == "search" || t == "generic"
  }

  /** The category of a task: the first rule that matches the lowercased
      text wins, so a messaging word beats an email word, and both beat
      "search". */
  function Classify(task: string): (c: Category)
    ensures IsCategoryName(CategoryName(c))
    ensures c == Messaging <==> Contains(Lower(task), "whatsapp") || Contains(Lower(task), "message")
    ensures c == Email <==>
      !Contains(Lower(task), "whatsapp") && !Contains(Lower(task), "message") &&
      (Contains(Lower(task), "gmail") || Contains(Lower(task), "email"))
    ensures c == Search <==>
      !Contains(Lower(task), "whatsapp") && !Contains(Lower(task), "message") &&
      !Contains(Lower(task), "gmail") && !Contains(Lower(task), "email") &&
      Contains(Lower(task), "search")
    ensures c == Generic <==>
      !Contains(Lower(task), "whatsapp") && !Contains(Lower(task), "message") &&
      !Contains(Lower(task), "gmail") && !Contains(Lower(task), "email") &&
      !Contains(Lower(task), "search")
  {
    var t := Lower(task);
    if Contains(t, "whatsapp") || Contains(t, "message") then Messaging
    else if Contains(t, "gmail") || Contains(t, "email") then Email
    else if Contains(t, "search") then Search
    else Generic
  }

  /** Both the messaging and the email rule match "email message"; the
      messaging rule is tried first. */
  lemma {:induction false} EmailMessageIsMessaging(task: string)
    requires task == "email message"
    ensures Classify(task) == Messaging
  {
    var t := Lower(task);
    OccursAtByChars("message", t, 6);
    ContainsAt(t, "message", 6);
  }

  /** The messaging rule matches "Send WhatsApp message to Alice": the
      capitalised "WhatsApp" matches once the task is lowercased. */
  lemma {:induction false} WhatsAppIsMessaging(task: string)
    requires task == "Send WhatsApp message to Alice"
    ensures Classify(task) == Messaging
  {
    var t := Lower(task);
    OccursAtByChars("whatsapp", t, 5);
    ContainsAt(t, "whatsapp", 5);
  }

  /** "Check Gmail inbox" has neither a 'w' nor an 's', in either case. */
  lemma {:induction false} GmailLetters(task: string)
    requires task == "Check Gmail inbox"
    ensures Lacks(task, 'w') && Lacks(task, 'W')
    ensures Lacks(task, 's') && Lacks(task, 'S')
  {
  }

  /** "gmail" occurs in "Check Gmail inbox" once lowercased. */
  lemma {:induction false} GmailMentionsGmail(task: string)
    requires task == "Check Gmail inbox"
    ensures Contains(Lower(task), "gmail")
  {
    var t := Lower(task);
    OccursAtByChars("gmail", t, 6);
    ContainsAt(t, "gmail", 6);
  }

  /** Upper-case letters do not hide a rule's word: without a 'w' or an 's'
      neither messaging word can occur, and "gmail" does. */
  lemma {:induction false} GmailIsEmail(task: string)
    requires task == "Check Gmail inbox"
    ensures Classify(task) == Email
  {
    var t := Lower(task);
    GmailLetters(task);
    LowerLacks(task, 'w');
    LowerLacks(task, 's');
    LacksChar(t, "whatsapp", 0);
    LacksChar(t, "message", 2);
    GmailMentionsGmail(task);
  }

  /** "Search for restaurants" has neither a 'w' nor an 'm', in either case. */
  lemma {:induction false} SearchLetters(task: string)
    requires task == "Search for restaurants"
    ensures Lacks(task, 'w') && Lacks(task, 'W')
    ensures Lacks(task, 'm') && Lacks(task, 'M')
  {
  }

  /** "search" occurs in "Search for restaurants" once lowercased. */
  lemma {:induction false} SearchMentionsSearch(task: string)
    requires task == "Search for restaurants"
    ensures Contains(Lower(task), "search")
  {
    var t := Lower(task);
    OccursAtByChars("search", t, 0);
    ContainsAt(t, "search", 0);
  }

  /** Only the third rule matches "Search for restaurants": every word of the
      first two rules needs a 'w' or an 'm'. */
  lemma {:induction false} SearchIsSearch(task: string)
    requires task == "Search for restaurants"
    ensures Classify(task) == Search
  {
    var t := Lower(task);
    SearchLetters(task);
    LowerLacks(task, 'w');
    LowerLacks(task, 'm');
    LacksChar(t, "whatsapp", 0);
    LacksChar(t, "message", 0);
    LacksChar(t, "gmail", 1);
    LacksChar(t, "email", 1);
    SearchMentionsSearch(task);
  }

  /** "Turn on flashlight" has no 'w', 'm' or 'e', in either case. */
  lemma {:induction false} FlashlightLetters(task: string)
    requires task == "Turn on flashlight"
    ensures Lacks(task, 'w') && Lacks(task, 'W')
    ensures Lacks(task, 'm') && Lacks(task, 'M')
    ensures Lacks(task, 'e') && Lacks(task, 'E')
  {
  }

  /** A task that matches no rule is generic: every rule's word needs a 'w',
      an 'm' or an 'e'. */
  lemma {:induction false} FlashlightIsGeneric(task: string)
    requires task == "Turn on flashlight"
    ensures Classify(task) == Generic
  {
    var t := Lower(task);
    FlashlightLetters(task);
    LowerLacks(task, 'w');
    LowerLacks(task, 'm');
    LowerLacks(task, 'e');
    LacksChar(t, "whatsapp", 0);
    LacksChar(t, "message", 0);
    LacksChar(t, "gmail", 1);
    LacksChar(t, "email", 1);
    LacksChar(t, "search", 1);
  }

  /** Lowercasing is idempotent, so the category ignores letter case. */
  lemma {:induction false} ClassifyIgnoresCase(task: string)
    ensures Lower(Lower(task)) == Lower(task)
    ensures Classify(Lower(task)) == Classify(task)
  {
    var t := Lower(task);
    forall k | 0 <= k < |t| ensures Lower(t)[k] == t[k] {
      assert t[k] == LowerChar(task[k]);
    }
  }

  // ---------------------------------------------------------------- learning

  /** `.filter(task_type == t).first()`: the first pattern of type `t`. */
  function FirstOfType(ps: seq<LearnedPattern>, t: string, from: nat): (r: Option<nat>)
    ensures r.Some? ==> from <= r.value < |ps| && ps[r.value].taskType == t
    ensures r.Some? ==> forall k :: from <= k < r.value ==> ps[k].taskType != t
    ensures r.None? ==> forall k :: from <= k < |ps| ==> ps[k].taskType != t
    decreases |ps| - from
  {
    if from >= |ps| then None
    else if ps[from].taskType == t then Some(from)
    else FirstOfType(ps, t, from + 1)
  }

  /** The pattern at `i` counts one more success and is marked used now. */
  function Bumped(ps: seq<LearnedPattern>, i: nat, now: int): (r: seq<LearnedPattern>)
    requires i < |ps|
    ensures |r| == |ps| && r[i].id == ps[i].id && r[i].taskType == ps[i].taskType
    ensures forall k :: 0 <= k < |ps| && k != i ==> r[k] == ps[k]
  {
    ps[i := ps[i].(successCount := ps[i].successCount + 1, lastUsed := now)]
  }

  /** A new pattern of type `t` holding `plan`, with one success. */
  function Added(ps: seq<LearnedPattern>, t: string, plan: Dict, now: int): (r: seq<LearnedPattern>)
    ensures |r| == |ps| + 1 && r[..|ps|] == ps
  {
    ps + [LearnedPattern(NextPatternId(ps), t, plan, 1, now)]
  }

  /** The pattern table after a successful task: the pattern of the task's
      category counts one more success and is marked used now, keeping its
      data; without such a pattern, one is added holding the plan. */
  function Learned(ps: seq<LearnedPattern>, task: string, plan: Dict, now: int): seq<LearnedPattern> {
    var t := CategoryName(Classify(task));
    match FirstOfType(ps, t, 0)
    case Some(i) => Bumped(ps, i, now)
    case None => Added(ps, t, plan, now)
  }

  /** With one pattern per category, the pattern of a category is found
      wherever it is. */
  lemma {:induction false} FirstOfTypeUnique(ps: seq<LearnedPattern>, k: nat)
    requires PatternsValid(ps) && k < |ps|
    ensures FirstOfType(ps, ps[k].taskType, 0) == Some(k)
  {
  }

  /** The pattern of category `t`, if the table has one. */
  function PatternOf(ps: seq<LearnedPattern>, t: string): Option<LearnedPattern> {
    match FirstOfType(ps, t, 0)
    case Some(i) => Some(ps[i])
    case None => None
  }

  lemma {:induction false} BumpedKeepsValid(ps: seq<LearnedPattern>, i: nat, now: int)
    requires PatternsValid(ps) && i < |ps|
    ensures PatternsValid(Bumped(ps, i, now))
  {
    var r := Bumped(ps, i, now);
    forall a, b | 0 <= a < b < |r| ensures r[a].taskType != r[b].taskType && r[a].id < r[b].id {
      assert ps[a].taskType != ps[b].taskType && ps[a].id < ps[b].id;
    }
  }

  lemma {:induction false} AddedKeepsValid(ps: seq<LearnedPattern>, t: string, plan: Dict, now: int)
    requires PatternsValid(ps) && IsCategoryName(t)
    requires forall k :: 0 <= k < |ps| ==> ps[k].taskType != t
    ensures PatternsValid(Added(ps, t, plan, now))
  {
    var r := Added(ps, t, plan, now);
    forall a, b | 0 <= a < b < |r| ensures r[a].taskType != r[b].taskType && r[a].id < r[b].id {
      assert r[a] == ps[a];
      if b < |ps| {
        assert r[b] == ps[b];
      } else {
        assert ps[a].id <= ps[|ps| - 1].id;
      }
    }
  }

  /** Learning keeps the table's invariant: one pattern per category. */
  lemma {:induction false} LearnedKeepsValid(ps: seq<LearnedPattern>, task: string, plan: Dict, now: int)
    requires PatternsValid(ps)
    ensures PatternsValid(Learned(ps, task, plan, now))
  {
    var t := CategoryName(Classify(task));
    match FirstOfType(ps, t, 0)
    case Some(i) => BumpedKeepsValid(ps, i, now);
    case None => AddedKeepsValid(ps, t, plan, now);
  }

  /** Bumping the pattern at `i` changes what its category finds and
      nothing else. */
  lemma {:induction false} BumpedUpserts(ps: seq<LearnedPattern>, i: nat, now: int, u: string)
    requires PatternsValid(ps) && i < |ps|
    ensures PatternOf(Bumped(ps, i, now), u) ==
      if u != ps[i].taskType then PatternOf(ps, u)
      else Some(ps[i].(successCount := ps[i].successCount + 1, lastUsed := now))
  {
    var r := Bumped(ps, i, now);
    BumpedKeepsValid(ps, i, now);
    if u == ps[i].taskType {
      FirstOfTypeUnique(r, i);
    } else {
      match FirstOfType(ps, u, 0)
      case Some(k) =>
        assert r[k] == ps[k];
        FirstOfTypeUnique(r, k);
      case None =>
        forall k | 0 <= k < |r| ensures r[k].taskType != u {
          if k != i { assert r[k] == ps[k]; }
        }
    }
  }

  /** Adding a pattern of a new category `t` makes `t` find it and changes
      nothing else. */
  lemma {:induction false} AddedUpserts(ps: seq<LearnedPattern>, t: string, plan: Dict, now: int, u: string)
    requires PatternsValid(ps) && IsCategoryName(t)
    requires forall k :: 0 <= k < |ps| ==> ps[k].taskType != t
    ensures PatternOf(Added(ps, t, plan, now), u) ==
      if u != t then PatternOf(ps, u)
      else Some(LearnedPattern(NextPatternId(ps), t, plan, 1, now))
  {
    var r := Added(ps, t, plan, now);
    AddedKeepsValid(ps, t, plan, now);
    if u == t {
      FirstOfTypeUnique(r, |ps|);
    } else {
      match FirstOfType(ps, u, 0)
      case Some(k) =>
        assert r[k] == ps[k];
        FirstOfTypeUnique(r, k);
      case None =>
        forall k | 0 <= k < |r| ensures r[k].taskType != u {
          if k < |ps| {
            assert r[k] == ps[k];
          }
        }
    }
  }

  /** Learning is an upsert keyed by category: the task's category gains one
      success and is marked used now, keeping its data if it existed and
      holding the plan otherwise; every other category is untouched. */
  lemma {:induction false} LearnedUpserts(ps: seq<LearnedPattern>, task: string, plan: Dict, now: int, u: string)
    requires PatternsValid(ps)
    ensures var t := CategoryName(Classify(task));
      PatternOf(Learned(ps, task, plan, now), u) ==
        if u != t then PatternOf(ps, u)
        else match PatternOf(ps, t)
          case Some(p) => Some(p.(successCount := p.successCount + 1, lastUsed := now))
          case None => Some(LearnedPattern(NextPatternId(ps), t, plan, 1, now))
  {
    var t := CategoryName(Classify(task));
    match FirstOfType(ps, t, 0)
    case Some(i) => BumpedUpserts(ps, i, now, u);
    case None => AddedUpserts(ps, t, plan, now, u);
  }

  // ---------------------------------------------------------------- queries

  /** `ORDER BY timestamp DESC LIMIT n`: ties stay in table order. */
  function Newest(rows: seq<TaskExecution>, n: int): seq<TaskExecution> {
    Ranking.SqlLimit(Ranking.SortDesc(rows, Timestamp), n)
  }

  /** The newest rows are the `n` most recent, newest first: a row left out
      is no newer than any row kept. */
  lemma {:induction false} NewestAreTop(rows: seq<TaskExecution>, n: int)
    ensures var r := Newest(rows, n);
      (n >= 0 ==> |r| == if n < |rows| then n else |rows|) &&
      (n < 0 ==> |r| == |rows|) &&
      Ranking.SortedDesc(r, Timestamp) &&
      multiset(r) <= multiset(rows) &&
      forall x, y :: x in multiset(rows) - multiset(r) && y in r ==> x.timestamp <= y.timestamp
  {
    var s := Ranking.SortDesc(rows, Timestamp);
    var r := Newest(rows, n);
    assert r == s[..|r|];
    Ranking.LeftOutIsSmaller(s, Timestamp, |r|);
    forall x, y | x in multiset(rows) - multiset(r) && y in r ensures x.timestamp <= y.timestamp {
      assert Timestamp(x) <= Timestamp(y);
    }
  }

  /** `set(s.lower().split())`. */
  function WordSet(s: string): set<string> {
    set w | w in Words(Lower(s))
  }

  /** The similarity score: how many distinct words two tasks share. */
  function Overlap(query: string, description: string): nat {
    |WordSet(query) * WordSet(description)|
  }

  /** A lowercase word: non-empty, without whitespace. */
  predicate PlainWord(w: string) {
    |w| > 0 && NoSpace(w) && Lower(w) == w
  }

  /** Lowercase text joined by a space stays lowercase. */
  lemma {:induction false} LowerOfSpaced(a: string, b: string)
    requires Lower(a) == a && Lower(b) == b
    ensures Lower(a + " " + b) == a + " " + b
  {
    LowerAppend(a + " ", b);
    LowerAppend(a, " ");
    assert Lower(" ") == " ";
  }

  /** Lowercase words joined by spaces make lowercase text. */
  lemma {:induction false} LowerOfJoin(ws: seq<string>)
    requires |ws| > 0
    requires forall k :: 0 <= k < |ws| ==> Lower(ws[k]) == ws[k]
    ensures Lower(Join(ws, " ")) == Join(ws, " ")
  {
    if |ws| > 1 {
      LowerOfJoin(ws[1..]);
      LowerOfSpaced(ws[0], Join(ws[1..], " "));
    }
  }

  /** The words of lowercase words joined by spaces are those words. */
  lemma {:induction false} WordSetOfJoin(ws: seq<string>)
    requires |ws| > 0
    requires forall k :: 0 <= k < |ws| ==> PlainWord(ws[k])
    ensures WordSet(Join(ws, " ")) == set w | w in ws
  {
    LowerOfJoin(ws);
    assert AllSpace(" ") by {
      assert IsSpace(" "[0]);
    }
    WordsOfJoin(ws, " ");
  }

  /** The words of a task are its whitespace-separated words, each
      lowercased: splitting before or after lowercasing is the same. */
  lemma {:induction false} WordSetIsLoweredWords(s: string)
    ensures WordSet(s) == set w | w in Ranking.Map(Words(s), Lower)
  {
    WordsOfLower(s);
  }

  /** For any two tasks, the score counts the distinct words they share
      once each word is lowercased. */
  lemma {:induction false} SharedWordsScore(q: string, d: string)
    ensures Overlap(q, d) ==
      |(set w | w in Ranking.Map(Words(q), Lower)) * (set w | w in Ranking.Map(Words(d), Lower))|
  {
    WordSetIsLoweredWords(q);
    WordSetIsLoweredWords(d);
  }

  /** Tasks written as words of any case separated by any whitespace runs
      score the distinct words they share, ignoring case. */
  lemma {:induction false} SharedWordsOfPhrases(q: seq<string>, qs: string, d: seq<string>, ds: string)
    requires |q| > 0 && |qs| > 0 && AllSpace(qs)
    requires |d| > 0 && |ds| > 0 && AllSpace(ds)
    requires forall k :: 0 <= k < |q| ==> |q[k]| > 0 && NoSpace(q[k])
    requires forall k :: 0 <= k < |d| ==> |d[k]| > 0 && NoSpace(d[k])
    ensures Overlap(Join(q, qs), Join(d, ds)) ==
      |(set w | w in Ranking.Map(q, Lower)) * (set w | w in Ranking.Map(d, Lower))|
  {
    SharedWordsScore(Join(q, qs), Join(d, ds));
    WordsOfJoin(q, qs);
    WordsOfJoin(d, ds);
  }

  /** "turn", "on", "bluetooth" and "wifi" are lowercase words. */
  lemma {:induction false} WifiWords(ws: seq<string>)
    requires ws == ["turn", "on", "bluetooth", "wifi"]
    ensures forall k :: 0 <= k < |ws| ==> PlainWord(ws[k])
  {
    assert Lower(ws[0]) == ws[0] && Lower(ws[1]) == ws[1];
    assert Lower(ws[2]) == ws[2] && Lower(ws[3]) == ws[3];
  }

  /** "turn on wifi" is its words joined by spaces. */
  lemma {:induction false} QueryPhrase(q: string, qw: seq<string>)
    requires q == "turn on wifi" && qw == ["turn", "on", "wifi"]
    ensures q == Join(qw, " ")
  {
    assert qw[1..][1..] == ["wifi"];
    assert Join(qw[1..], " ") == "on" + " " + "wifi";
  }

  /** "turn on bluetooth wifi" is its words joined by spaces. */
  lemma {:induction false} DevicePhrase(d: string, dw: seq<string>)
    requires d == "turn on bluetooth wifi" && dw == ["turn", "on", "bluetooth", "wifi"]
    ensures d == Join(dw, " ")
  {
    var rest := dw[1..];
    assert rest[1..][1..] == ["wifi"];
    assert Join(rest[1..], " ") == "bluetooth" + " " + "wifi";
    assert Join(rest, " ") == "on" + " " + ("bluetooth" + " " + "wifi");
  }

  /** Three of the words are common to both phrases. */
  lemma {:induction false} WifiShared(qw: seq<string>, dw: seq<string>)
    requires qw == ["turn", "on", "wifi"] && dw == ["turn", "on", "bluetooth", "wifi"]
    ensures |(set w | w in qw) * (set w | w in dw)| == 3
  {
    assert (set w | w in qw) * (set w | w in dw) == {"turn", "on", "wifi"};
  }

  /** The worked instance: "turn on wifi" against "turn on bluetooth wifi"
      scores 3, since "on" counts like any other word. */
  lemma {:induction false} WifiTasksScoreThree(q: string, d: string)
    requires q == "turn on wifi" && d == "turn on bluetooth wifi"
    ensures Overlap(q, d) == 3
  {
    var qw, dw := ["turn", "on", "wifi"], ["turn", "on", "bluetooth", "wifi"];
    WifiWords(dw);
    assert forall k :: 0 <= k < |qw| ==> PlainWord(qw[k]) by {
      assert qw[0] == dw[0] && qw[1] == dw[1] && qw[2] == dw[3];
    }
    QueryPhrase(q, qw);
    DevicePhrase(d, dw);
    WordSetOfJoin(qw);
    WordSetOfJoin(dw);
    WifiShared(qw, dw);
  }

  function Entry(e: TaskExecution, query: string): SimilarTask {
    SimilarTask(e.taskDescription, e.plan, Overlap(query, e.taskDescription))
  }

  predicate Relevant(s: SimilarTask) { s.score > 0 }

  /** Every record of the pool with its score against `query`. */
  function Entries(past: seq<TaskExecution>, query: string): (r: seq<SimilarTask>)
    ensures |r| == |past|
    ensures forall k :: 0 <= k < |past| ==> r[k] == Entry(past[k], query)
  {
    Ranking.Map(past, e => Entry(e, query))
  }

  /** The scored list the search builds, before sorting: the records sharing
      at least one word with the query, in the order they were fetched. */
  function Scored(past: seq<TaskExecution>, query: string): seq<SimilarTask> {
    Ranking.Filter(Entries(past, query), Relevant)
  }

  /** Scoring one more record appends its entry when it shares a word. */
  lemma {:induction false} ScoredStep(past: seq<TaskExecution>, query: string, i: nat)
    requires i < |past|
    ensures var entry := Entry(past[i], query);
      Scored(past[..i + 1], query) ==
        Scored(past[..i], query) + if entry.score > 0 then [entry] else []
  {
    var entry := Entry(past[i], query);
    Ranking.MapStep(past, e => Entry(e, query), i);
    Ranking.FilterAppend(Entries(past[..i], query), [entry], Relevant);
    assert [entry][1..] == [];
    assert Ranking.Filter([entry], Relevant) == if entry.score > 0 then [entry] else [];
  }

  /** The records `get_similar_tasks` scores: the newest successful ones. */
  function Pool(es: seq<TaskExecution>): seq<TaskExecution> {
    Newest(Ranking.Filter(es, IsSuccessful), SimilarPool)
  }

  /** The answer of `get_similar_tasks(query, limit)`. */
  function Similar(es: seq<TaskExecution>, query: string, limit: int): seq<SimilarTask> {
    Ranking.PyPrefix(Ranking.SortDesc(Scored(Pool(es), query), Score), limit)
  }

  /** The scored pool holds at most 20 records, each of them a successful
      record of the table. */
  lemma {:induction false} PoolIsSuccessful(es: seq<TaskExecution>)
    ensures var p := Pool(es);
      |p| <= SimilarPool && forall k :: 0 <= k < |p| ==> p[k].success && p[k] in es
  {
    var f := Ranking.Filter(es, IsSuccessful);
    var s := Ranking.SortDesc(f, Timestamp);
    var p := Pool(es);
    assert multiset(p) <= multiset(f) by {
      Ranking.PrefixIsSub(s, |p|);
    }
    forall k | 0 <= k < |p| ensures p[k].success && p[k] in es {
      Ranking.SubMember(p, f, k);
      var j :| 0 <= j < |f| && f[j] == p[k];
      assert IsSuccessful(f[j]);
      Ranking.SubMember(f, es, j);
    }
  }

  /** The scored pool repeats no successful record, and holds every one of
      them when there are at most 20. */
  lemma {:induction false} PoolIsSub(es: seq<TaskExecution>)
    ensures var p := Pool(es); var f := Ranking.Filter(es, IsSuccessful);
      multiset(p) <= multiset(f) &&
      (|f| <= SimilarPool ==> multiset(p) == multiset(f))
  {
    NewestAreTop(Ranking.Filter(es, IsSuccessful), SimilarPool);
  }

  /** The scored pool holds 20 successful records, or all of them when there
      are fewer; it is newest first, and no successful record outside it is
      newer than one inside. */
  lemma {:induction false} PoolIsNewest(es: seq<TaskExecution>)
    ensures var p := Pool(es); var f := Ranking.Filter(es, IsSuccessful);
      |p| == (if SimilarPool < |f| then SimilarPool else |f|) &&
      multiset(p) <= multiset(f) &&
      (|f| <= SimilarPool ==> multiset(p) == multiset(f)) &&
      Ranking.SortedDesc(p, Timestamp) &&
      forall x, y :: x in multiset(Ranking.Filter(es, IsSuccessful)) - multiset(p) && y in p ==>
        x.timestamp <= y.timestamp
  {
    NewestAreTop(Ranking.Filter(es, IsSuccessful), SimilarPool);
    PoolIsSub(es);
  }

  /** The scored pool is the newest 20 successful records, or all of them
      when there are fewer, newest first. */
  lemma {:induction false} PoolIsNewestSuccessful(es: seq<TaskExecution>)
    ensures var p := Pool(es); var f := Ranking.Filter(es, IsSuccessful);
      |p| == (if SimilarPool < |f| then SimilarPool else |f|) &&
      multiset(p) <= multiset(f) &&
      (|f| <= SimilarPool ==> multiset(p) == multiset(f)) &&
      (forall k :: 0 <= k < |p| ==> p[k].success && p[k] in es) &&
      Ranking.SortedDesc(p, Timestamp) &&
      forall x, y :: x in multiset(Ranking.Filter(es, IsSuccessful)) - multiset(p) && y in p ==>
        x.timestamp <= y.timestamp
  {
    PoolIsSuccessful(es);
    PoolIsNewest(es);
  }

  /** One similar task: a pool record sharing a word with the query, with the
      number of shared words as its score. */
  lemma {:induction false} SimilarMember(es: seq<TaskExecution>, query: string, limit: int, k: nat)
    requires k < |Similar(es, query, limit)|
    ensures var r := Similar(es, query, limit);
      r[k].score > 0 && r[k].score == Overlap(query, r[k].task) &&
      exists e :: e in Pool(es) && r[k] == Entry(e, query)
  {
    var p := Pool(es);
    var entries := Entries(p, query);
    var scored := Scored(p, query);
    var sorted := Ranking.SortDesc(scored, Score);
    var r := Similar(es, query, limit);
    assert r[k] == sorted[k];
    Ranking.SubMember(sorted, scored, k);
    var j :| 0 <= j < |scored| && scored[j] == sorted[k];
    assert Relevant(scored[j]);
    Ranking.FilterMembers(entries, Relevant);
    assert scored[j] in entries;
    var i :| 0 <= i < |entries| && entries[i] == scored[j];
    assert entries[i] == Entry(p[i], query);
  }

  /** Every similar task is a pool record sharing at least one word with the
      query, scored by the words they share; the answer is ordered by score,
      highest first, and a non-negative limit bounds its length. */
  lemma {:induction false} SimilarIsSound(es: seq<TaskExecution>, query: string, limit: int)
    ensures var r := Similar(es, query, limit);
      (limit >= 0 ==> |r| <= limit) &&
      Ranking.SortedDesc(r, Score) &&
      forall k :: 0 <= k < |r| ==>
        r[k].score > 0 && r[k].score == Overlap(query, r[k].task) &&
        exists e :: e in Pool(es) && r[k] == Entry(e, query)
  {
    var r := Similar(es, query, limit);
    var sorted := Ranking.SortDesc(Scored(Pool(es), query), Score);
    assert r == sorted[..|r|];
    forall k | 0 <= k < |r|
      ensures r[k].score > 0 && r[k].score == Overlap(query, r[k].task)
      ensures exists e :: e in Pool(es) && r[k] == Entry(e, query)
    {
      SimilarMember(es, query, limit, k);
    }
  }

  /** The search keeps the best: a record sharing a word with the query is
      scored, and no scored entry left out by the limit scores more than one
      kept; a non-negative limit keeps exactly that many when there are as
      many. */
  lemma {:induction false} SimilarKeepsBest(es: seq<TaskExecution>, query: string, limit: int)
    ensures var p := Pool(es); var scored := Scored(p, query);
      var r := Similar(es, query, limit);
      (forall k :: 0 <= k < |p| && Overlap(query, p[k].taskDescription) > 0 ==>
         Entry(p[k], query) in scored) &&
      multiset(r) <= multiset(scored) &&
      (limit >= 0 ==> |r| == if limit < |scored| then limit else |scored|) &&
      forall x, y :: x in multiset(scored) - multiset(r) && y in r ==> x.score <= y.score
  {
    var p := Pool(es);
    var entries := Entries(p, query);
    var scored := Scored(p, query);
    var sorted := Ranking.SortDesc(scored, Score);
    var r := Similar(es, query, limit);
    Ranking.FilterMembers(entries, Relevant);
    forall k | 0 <= k < |p| && Overlap(query, p[k].taskDescription) > 0
      ensures Entry(p[k], query) in scored
    {
      assert entries[k] == Entry(p[k], query) && Relevant(entries[k]);
    }
    assert r == sorted[..|r|];
    Ranking.LeftOutIsSmaller(sorted, Score, |r|);
    forall x: SimilarTask, y: SimilarTask | x in multiset(scored) - multiset(r) && y in r
      ensures x.score <= y.score
    {
      assert Score(x) <= Score(y);
    }
  }

  /** Sorting by score is stable: among entries with the same score the
      newer record still comes first, as the pool had them. */
  lemma {:induction false} SimilarTiesKeepRecency(es: seq<TaskExecution>, query: string, s: int)
    ensures Ranking.WithKey(Ranking.SortDesc(Scored(Pool(es), query), Score), Score, s)
         == Ranking.WithKey(Scored(Pool(es), query), Score, s)
  {
    Ranking.SortDescIsStable(Scored(Pool(es), query), Score, s);
  }

  /** `clear_old_data`'s `WHERE timestamp < cutoff ... DELETE`: what is left. */
  function Retained(es: seq<TaskExecution>, cutoff: int): seq<TaskExecution> {
    Ranking.Filter(es, (e: TaskExecution) => !(e.timestamp < cutoff))
  }

  /** Deleting old records keeps the table's invariant. */
  lemma {:induction false} RetainedKeepsValid(es: seq<TaskExecution>, cutoff: int)
    requires ExecutionsValid(es)
    ensures ExecutionsValid(Retained(es, cutoff))
  {
    var keep := (e: TaskExecution) => !(e.timestamp < cutoff);
    var r := Retained(es, cutoff);
    Ranking.FilterMembers(es, keep);
    Ranking.FilterKeepsIncreasing(es, keep, IdOf);
    forall k | 0 <= k < |r| ensures r[k].id >= 1 && r[k].success == AllSucceeded(r[k].results)
      && r[k].stepsCount == |r[k].results|
    {
      var j :| 0 <= j < |es| && es[j] == r[k];
    }
  }

  /** Exactly the records older than the cutoff go, and what stays keeps its
      order: a record at the cutoff itself remains. */
  lemma {:induction false} RetainedIsExact(es: seq<TaskExecution>, cutoff: int)
    ensures forall e :: e in Retained(es, cutoff) <==> e in es && e.timestamp >= cutoff
  {
    var keep := (e: TaskExecution) => !(e.timestamp < cutoff);
    var r := Retained(es, cutoff);
    Ranking.FilterMembers(es, keep);
    forall e | e in r ensures e in es && e.timestamp >= cutoff {
      var k :| 0 <= k < |r| && r[k] == e;
      assert keep(r[k]);
    }
    forall e | e in es && e.timestamp >= cutoff ensures e in r {
      var k :| 0 <= k < |es| && es[k] == e;
      assert keep(es[k]);
    }
  }

  /** A store with nothing older than the cutoff loses nothing. */
  lemma {:induction false} RetainedKeepsRecent(es: seq<TaskExecution>, cutoff: int)
    requires forall k :: 0 <= k < |es| ==> es[k].timestamp >= cutoff
    ensures Retained(es, cutoff) == es
  {
    Ranking.FilterKeepsAll(es, (e: TaskExecution) => !(e.timestamp < cutoff));
  }

  /** How many executions succeeded: `filter(success == True).count()`. */
  function SuccessCount(es: seq<TaskExecution>): (n: nat)
    ensures n <= |es|
  {
    if es == [] then 0
    else (if es[0].success then 1 else 0) + SuccessCount(es[1..])
  }

  /** The count is the number of records the success filter keeps. */
  lemma {:induction false} SuccessCountIsFilter(es: seq<TaskExecution>)
    ensures SuccessCount(es) == |Ranking.Filter(es, IsSuccessful)|
  {
    if es != [] {
      SuccessCountIsFilter(es[1..]);
    }
  }

  /** A count out of a positive total: a share between 0 and 1 that gives
      the count back when multiplied by the total. */
  function Ratio(count: nat, total: nat): (q: real)
    requires 0 < total && count <= total
    ensures 0.0 <= q <= 1.0
    ensures q * (total as real) == count as real
  {
    (count as real) / (total as real)
  }

  /** The share of successful executions among `es`, 0 when there are none. */
  function Rate(es: seq<TaskExecution>): (rate: real)
    ensures |es| == 0 ==> rate == 0.0
    ensures 0.0 <= rate <= 1.0
    ensures |es| > 0 ==> rate * (|es| as real) == SuccessCount(es) as real
  {
    if |es| == 0 then 0.0 else Ratio(SuccessCount(es), |es|)
  }

  /** The rows a recent-tasks answer is made from all come from the table. */
  lemma {:induction false} NewestFromTable(rows: seq<TaskExecution>, n: int)
    ensures forall k :: 0 <= k < |Newest(rows, n)| ==> Newest(rows, n)[k] in rows
  {
    var r := Newest(rows, n);
    NewestAreTop(rows, n);
    forall k | 0 <= k < |r| ensures r[k] in rows {
      assert r[k] in multiset(r);
    }
  }

  /** A row newer than one of the newest rows is among them. */
  lemma {:induction false} NewerAreKept(rows: seq<TaskExecution>, n: int)
    ensures var r := Newest(rows, n);
      forall x, k :: x in rows && 0 <= k < |r| && x.timestamp > r[k].timestamp ==> x in r
  {
    var r := Newest(rows, n);
    NewestAreTop(rows, n);
    forall x, k | x in rows && 0 <= k < |r| && x.timestamp > r[k].timestamp ensures x in r {
      assert r[k] in r && x in multiset(rows);
      assert x !in multiset(rows) - multiset(r);
      assert x in multiset(r);
    }
  }

  function Summary(e: TaskExecution): RecentTask {
    RecentTask(e.taskDescription, e.success, e.timestamp)
  }

  /** The comprehension building `get_recent_tasks`'s answer, row by row. */
  function Summaries(rows: seq<TaskExecution>): (r: seq<RecentTask>)
    ensures |r| == |rows|
    ensures forall k :: 0 <= k < |r| ==> r[k] == Summary(rows[k])
  {
    seq(|rows|, k requires 0 <= k < |rows| => Summary(rows[k]))
  }

  /** Summaries of rows sorted newest first are sorted newest first. */
  lemma SummariesKeepOrder(rows: seq<TaskExecution>)
    requires Ranking.SortedDesc(rows, Timestamp)
    ensures Ranking.SortedDesc(Summaries(rows), RecentTimestamp)
  {
    var r := Summaries(rows);
    forall i, j | 0 <= i < j < |r| ensures RecentTimestamp(r[i]) >= RecentTimestamp(r[j]) {
      assert Timestamp(rows[i]) >= Timestamp(rows[j]);
    }
  }

  /** The summaries of the newest rows: as many as the limit allows, newest
      first, each of a row of the table, and none missing that is newer than
      one listed. */
  lemma {:induction false} RecentAreNewest(es: seq<TaskExecution>, n: int)
    ensures var r := Summaries(Newest(es, n));
      (n >= 0 ==> |r| == if n < |es| then n else |es|) &&
      (n < 0 ==> |r| == |es|) &&
      Ranking.SortedDesc(r, RecentTimestamp) &&
      (forall t :: t in r ==> exists e :: e in es && t == Summary(e)) &&
      multiset(r) <= multiset(Summaries(es)) &&
      forall e, k :: e in es && 0 <= k < |r| && e.timestamp > r[k].timestamp ==> Summary(e) in r
  {
    RecentAreSorted(es, n);
    RecentFromTable(es, n);
    RecentAreSub(es, n);
    RecentMissNothingNewer(es, n);
  }

  /** No row is summarised more often than the table holds it. */
  lemma {:induction false} RecentAreSub(es: seq<TaskExecution>, n: int)
    ensures multiset(Summaries(Newest(es, n))) <= multiset(Summaries(es))
  {
    NewestAreTop(es, n);
    SummariesSub(Newest(es, n), es);
  }

  /** Summaries distribute over concatenation. */
  lemma SummariesAppend(a: seq<TaskExecution>, b: seq<TaskExecution>)
    ensures Summaries(a + b) == Summaries(a) + Summaries(b)
  {
  }

  /** Summarising keeps a sub-multiset of rows a sub-multiset. */
  lemma {:induction false} SummariesSub(rows: seq<TaskExecution>, es: seq<TaskExecution>)
    requires multiset(rows) <= multiset(es)
    ensures multiset(Summaries(rows)) <= multiset(Summaries(es))
    decreases |rows|
  {
    if rows != [] {
      var x := rows[0];
      assert x in multiset(rows);
      var j :| 0 <= j < |es| && es[j] == x;
      var rest := es[..j] + es[j + 1..];
      SubAfterHead(rows, es, j);
      SummariesSub(rows[1..], rest);
      SummariesDropAt(es, j);
      Ranking.HeadTail(rows);
      SummariesCons(x, rows[1..]);
      Ranking.AddKeepsSub(multiset{Summary(x)}, multiset(Summaries(rows[1..])), multiset(Summaries(rest)));
    }
  }

  /** Summarising a row in front adds one copy of its summary. */
  lemma SummariesCons(x: TaskExecution, t: seq<TaskExecution>)
    ensures multiset(Summaries([x] + t)) == multiset{Summary(x)} + multiset(Summaries(t))
  {
    SummariesAppend([x], t);
    assert Summaries([x]) == [Summary(x)];
  }

  /** Taking the first row out of both sides keeps the sub-multiset. */
  lemma SubAfterHead(rows: seq<TaskExecution>, es: seq<TaskExecution>, j: nat)
    requires |rows| > 0 && j < |es| && es[j] == rows[0]
    requires multiset(rows) <= multiset(es)
    ensures multiset(rows[1..]) <= multiset(es[..j] + es[j + 1..])
  {
    var rest := es[..j] + es[j + 1..];
    DropAt(es, j);
    assert rows == [rows[0]] + rows[1..];
    assert multiset(rows) == multiset{rows[0]} + multiset(rows[1..]);
    forall y ensures multiset(rows[1..])[y] <= multiset(rest)[y] {
      assert multiset(rows)[y] <= multiset(es)[y];
    }
  }

  /** Removing the row at `j` removes one copy of it. */
  lemma DropAt(es: seq<TaskExecution>, j: nat)
    requires j < |es|
    ensures multiset(es) == multiset(es[..j] + es[j + 1..]) + multiset{es[j]}
  {
    assert es == es[..j] + [es[j]] + es[j + 1..];
  }

  /** Removing the row at `j` removes one copy of its summary. */
  lemma SummariesDropAt(es: seq<TaskExecution>, j: nat)
    requires j < |es|
    ensures multiset(Summaries(es)) ==
      multiset(Summaries(es[..j] + es[j + 1..])) + multiset{Summary(es[j])}
  {
    assert es == es[..j] + [es[j]] + es[j + 1..];
    SummariesAppend(es[..j] + [es[j]], es[j + 1..]);
    SummariesAppend(es[..j], [es[j]]);
    SummariesAppend(es[..j], es[j + 1..]);
  }

  lemma {:induction false} RecentAreSorted(es: seq<TaskExecution>, n: int)
    ensures Ranking.SortedDesc(Summaries(Newest(es, n)), RecentTimestamp)
  {
    NewestAreTop(es, n);
    SummariesKeepOrder(Newest(es, n));
  }

  lemma {:induction false} RecentFromTable(es: seq<TaskExecution>, n: int)
    ensures var r := Summaries(Newest(es, n));
      forall t :: t in r ==> exists e :: e in es && t == Summary(e)
  {
    var rows := Newest(es, n);
    var r := Summaries(rows);
    NewestFromTable(es, n);
    SummariesFrom(rows, es);
  }

  /** Summaries of rows taken from a table are summaries of its records. */
  lemma SummariesFrom(rows: seq<TaskExecution>, es: seq<TaskExecution>)
    requires forall k :: 0 <= k < |rows| ==> rows[k] in es
    ensures var r := Summaries(rows);
      forall t :: t in r ==> exists e :: e in es && t == Summary(e)
  {
    var r := Summaries(rows);
    forall t | t in r ensures exists e :: e in es && t == Summary(e) {
      var k :| 0 <= k < |r| && r[k] == t;
      assert rows[k] in es && t == Summary(rows[k]);
    }
  }

  lemma {:induction false} RecentMissNothingNewer(es: seq<TaskExecution>, n: int)
    ensures var r := Summaries(Newest(es, n));
      forall e, k :: e in es && 0 <= k < |r| && e.timestamp > r[k].timestamp ==> Summary(e) in r
  {
    NewerAreKept(es, n);
    SummariesKeepNewer(Newest(es, n), es);
  }

  /** When no record of the table is newer than a kept row without being
      kept itself, the same holds of the summaries. */
  lemma SummariesKeepNewer(rows: seq<TaskExecution>, es: seq<TaskExecution>)
    requires forall x, k :: x in es && 0 <= k < |rows| && x.timestamp > rows[k].timestamp ==> x in rows
    ensures var r := Summaries(rows);
      forall e, k :: e in es && 0 <= k < |r| && e.timestamp > r[k].timestamp ==> Summary(e) in r
  {
    var r := Summaries(rows);
    forall e, k | e in es && 0 <= k < |r| && e.timestamp > r[k].timestamp ensures Summary(e) in r {
      assert r[k].timestamp == rows[k].timestamp;
      var j :| 0 <= j < |rows| && rows[j] == e;
      assert r[j] == Summary(e);
    }
  }

  // ---------------------------------------------------------------- the store

  class AgentMemory {
    var executions: seq<TaskExecution>
    var patterns: seq<LearnedPattern>

    predicate Valid()
      reads this
    {
      ExecutionsValid(executions) && PatternsValid(patterns)
    }

    /** A fresh store with empty tables. */
    constructor()
      ensures Valid()
      ensures executions == [] && patterns == []
    {
      executions := [];
      patterns := [];
    }

    /** `save_task`: records the execution and, when every step succeeded,
        learns from it. A failed commit rolls back and answers -1. */
    method SaveTask(task: string, plan: Dict, results: seq<Dict>, now: int,
                    stored: bool, learned: bool) returns (id: int)
      requires Valid()
      modifies this
      ensures Valid()
      ensures !stored ==> id == -1 && executions == old(executions) && patterns == old(patterns)
      ensures stored ==>
        id == NextExecutionId(old(executions)) && id >= 1 &&
        executions == old(executions) +
          [TaskExecution(id, task, plan, results, AllSucceeded(results), now, |results|)]
      ensures stored && AllSucceeded(results) && learned ==>
        patterns == Learned(old(patterns), task, plan, now)
      ensures !(stored && AllSucceeded(results) && learned) ==> patterns == old(patterns)
    {
      var success := AllSucceeded(results);
      if !stored {
        return -1;
      }
      id := NextExecutionId(executions);
      var row := TaskExecution(id, task, plan, results, success, now, |results|);
      AppendedKeepsValid(executions, row);
      executions := executions + [row];
      if success {
        LearnPattern(task, plan, now, learned);
      }
    }

    /** `_learn_pattern`: the upsert of the task's category, undone when its
        commit fails. */
    method LearnPattern(task: string, plan: Dict, now: int, committed: bool)
      requires Valid()
      modifies this
      ensures Valid()
      ensures patterns == if committed then Learned(old(patterns), task, plan, now) else old(patterns)
      ensures executions == old(executions)
    {
      if committed {
        LearnedKeepsValid(patterns, task, plan, now);
        patterns := Learned(patterns, task, plan, now);
      }
    }

    /** `get_similar_tasks`: scores the newest successful records against
        the query, keeps those sharing a word, and returns the best `limit`. */
    method GetSimilarTasks(task: string, limit: int) returns (r: seq<SimilarTask>)
      ensures r == Similar(executions, task, limit)
    {
      var past := Pool(executions);
      var scored: seq<SimilarTask> := [];
      var i := 0;
      assert |Entries(past[..0], task)| == 0;
      assert Scored(past[..0], task) == [];
      while i < |past|
        invariant 0 <= i <= |past|
        invariant scored == Scored(past[..i], task)
      {
        var entry := Entry(past[i], task);
        ScoredStep(past, task, i);
        if entry.score > 0 {
          scored := scored + [entry];
        }
        i := i + 1;
      }
      assert past[..|past|] == past;
      r := Ranking.PyPrefix(Ranking.SortDesc(scored, Score), limit);
    }

    /** `get_success_rate`: the share of recorded executions that succeeded,
        0 for an empty table. */
    function SuccessRate(): (rate: real)
      reads this
      ensures |executions| == 0 ==> rate == 0.0
      ensures 0.0 <= rate <= 1.0
      ensures |executions| > 0 ==> rate * (|executions| as real) == SuccessCount(executions) as real
    {
      Rate(executions)
    }

    /** `get_recent_tasks`: the `limit` newest executions, newest first, as
        task, outcome and time; an execution newer than one listed is listed. */
    function RecentTasks(limit: int): (r: seq<RecentTask>)
      reads this
      ensures limit >= 0 ==> |r| == if limit < |executions| then limit else |executions|
      ensures limit < 0 ==> |r| == |executions|
      ensures Ranking.SortedDesc(r, RecentTimestamp)
      ensures forall t :: t in r ==> exists e :: e in executions && t == Summary(e)
      ensures multiset(r) <= multiset(Summaries(executions))
      ensures forall e, k :: e in executions && 0 <= k < |r| && e.timestamp > r[k].timestamp ==>
                Summary(e) in r
    {
      var es := executions;
      RecentAreNewest(es, limit);
      RecentFromTable(es, limit);
      Summaries(Newest(es, limit))
    }

    /** `clear_old_data`: deletes the executions older than `days` days
        before `now`; a failed commit leaves the table as it was. */
    method ClearOldData(days: int, now: int, committed: bool)
      requires Valid()
      modifies this
      ensures Valid()
      ensures executions == if committed then Retained(old(executions), now - days * Day)
                            else old(executions)
      ensures patterns == old(patterns)
    {
      if committed {
        var cutoff := now - days * Day;
        RetainedKeepsValid(executions, cutoff);
        executions := Retained(executions, cutoff);
      }
    }
  }
}
