/** The task planner: the allow-list of device actions, the sanitizer that
    filters and normalises a raw plan against it, the fence stripping applied
    to every reply of the reasoning service, and the three wrappers
    (create a plan, analyse a failure, optimise a plan) that degrade to a
    fixed value whenever the service or the decoding fails.

    The service is not called here: each wrapper receives its reply, either
    the reply's text or the message of the exception the call raised, and
    the JSON decoder `parse`, which either yields a value or fails. */
module Planner {
  import opened Wrappers
  import opened Json
  import opened Text
  import Ranking

  /** The only action kinds a plan may contain (`ALLOWED_ACTIONS`). */
  const AllowedActions: set<string> :=
    {"tap", "swipe", "input_text", "open_app", "press_back", "press_home",
     "find_and_tap", "scroll", "wait"}

  /** The exceptions the planner meets and catches. */
  datatype Failure =
    | NoGetMethod                    // `.get` on a decoded value that is not a dict
    | NotIterable                    // iterating a number, a boolean or `None`
    | Unhashable                     // `action not in ALLOWED_ACTIONS` on a list or dict
    | ServiceFailed(message: string) // the call to the reasoning service raised
    | ParseFailed(message: string)   // `json.loads` raised

  /** `str(e)` for a caught exception. */
  function Describe(f: Failure): string {
    match f
    case NoGetMethod => "object has no attribute 'get'"
    case NotIterable => "object is not iterable"
    case Unhashable => "unhashable type"
    case ServiceFailed(m) => m
    case ParseFailed(m) => m
  }

  // ---------------------------------------------------------------- steps

  /** What the sanitizer's loop does with one raw step. */
  datatype Verdict =
    | Invalid(failure: Failure)          // the loop raises
    | Dropped                            // `continue`: the action is not allowed
    | Accepted(step: Dict, action: string)

  /** One iteration of the loop: `action = step.get("action_type")` and the
      allow-list test. A missing, null, numeric or boolean action, or a string
      outside the list, is dropped; a list or dict action cannot be looked up
      in a set and raises, and so does a step that is not a dict. */
  function Judge(raw: Value): (v: Verdict)
    ensures v.Accepted? <==>
      raw.Obj? && "action_type" in raw.fields && raw.fields["action_type"].Str? &&
      raw.fields["action_type"].s in AllowedActions
    ensures v.Accepted? ==> v.step == raw.fields && v.action == raw.fields["action_type"].s
    ensures v.Invalid? <==>
      !raw.Obj? ||
      ("action_type" in raw.fields &&
       (raw.fields["action_type"].Arr? || raw.fields["action_type"].Obj?))
    ensures v.Accepted? ==> v.action in AllowedActions
  {
    match raw
    case Obj(step) =>
      if "action_type" !in step then Dropped
      else (
        match step["action_type"]
        case Str(a) => if a in AllowedActions then Accepted(step, a) else Dropped
        case Arr(_) => Invalid(Unhashable)
        case Obj(_) => Invalid(Unhashable)
        case _ => Dropped)
    case _ => Invalid(NoGetMethod)
  }

  /** The step the loop appends for an accepted raw step, where `position` is
      `len(steps) + 1`: fields the raw step has are kept verbatim, missing ones
      get their defaults. */
  function Normalized(step: Dict, action: string, position: nat): Value {
    Obj(map[
      "step_number" := Get(step, "step_number", Num(position)),
      "description" := Get(step, "description", Str("")),
      "action_type" := Str(action),
      "params" := Get(step, "params", Obj(map[])),
      "reason" := Get(step, "reason", Str(""))
    ])
  }

  /** A step whose action is on the allow-list. */
  predicate AllowedStep(v: Value) {
    && v.Obj?
    && "action_type" in v.fields
    && v.fields["action_type"].Str?
    && v.fields["action_type"].s in AllowedActions
  }

  /** The list the loop builds from the first `|raw|` raw steps, or the
      exception it raises. */
  function KeptSteps(raw: seq<Value>): (r: Result<seq<Value>, Failure>)
    ensures r.Ok? ==> |r.value| <= |raw|
    ensures r.Ok? ==> forall k :: 0 <= k < |r.value| ==> AllowedStep(r.value[k])
    decreases |raw|
  {
    if raw == [] then Ok([])
    else
      match KeptSteps(raw[..|raw| - 1])
      case Err(f) => Err(f)
      case Ok(prev) =>
        match Judge(raw[|raw| - 1])
        case Invalid(f) => Err(f)
        case Dropped => Ok(prev)
        case Accepted(step, action) => Ok(prev + [Normalized(step, action, |prev| + 1)])
  }

  /** The step that replaces an empty result. */
  const FallbackStep: Value :=
    Obj(map[
      "step_number" := Num(1),
      "description" := Str("Wait safely"),
      "action_type" := Str("wait"),
      "params" := Obj(map["seconds" := Num(1)]),
      "reason" := Str("Fallback safe step")
    ])

  /** The sequence `for step in plan.get("steps", [])` walks through.
      Iterating a string yields one-character strings; iterating a dict yields
      its keys, all strings, so a non-empty dict fails at its first key. */
  function StepsOf(plan: Dict): Result<seq<Value>, Failure> {
    if "steps" !in plan then Ok([])
    else
      match plan["steps"]
      case Arr(items) => Ok(items)
      case Str(s) => Ok(seq(|s|, k requires 0 <= k < |s| => Str([s[k]])))
      case Obj(m) => if |m| == 0 then Ok([]) else Err(NoGetMethod)
      case _ => Err(NotIterable)
  }

  /** The value `_sanitize_plan(plan)` returns, or the exception it raises. */
  function Sanitized(plan: Dict): Result<Dict, Failure> {
    match StepsOf(plan)
    case Err(f) => Err(f)
    case Ok(raw) =>
      match KeptSteps(raw)
      case Err(f) => Err(f)
      case Ok(steps) => Ok(plan["steps" := Arr(if steps == [] then [FallbackStep] else steps)])
  }

  /** The sanitizer's guarantee: a non-empty list of steps, every one of them
      with an allowed action. */
  predicate SafePlan(plan: Dict) {
    && "steps" in plan
    && plan["steps"].Arr?
    && |plan["steps"].items| >= 1
    && forall k :: 0 <= k < |plan["steps"].items| ==> AllowedStep(plan["steps"].items[k])
  }

  /** `_sanitize_plan`: walks the raw steps, appending the normalised form of
      every allowed one, and overwrites "steps" with the result, or with the
      single fallback step when nothing survived. */
  method SanitizePlan(plan: Dict) returns (r: Result<Dict, Failure>)
    ensures r == Sanitized(plan)
    ensures r.Ok? ==> SafePlan(r.value)
    ensures r.Ok? ==> r.value - {"steps"} == plan - {"steps"}
  {
    var raw := StepsOf(plan);
    if raw.Err? {
      return Err(raw.error);
    }
    var items := raw.value;
    var steps: seq<Value> := [];
    var i := 0;
    while i < |items|
      invariant 0 <= i <= |items|
      invariant KeptSteps(items[..i]) == Ok(steps)
    {
      KeptStepsStep(items, i);
      match Judge(items[i]) {
        case Invalid(f) =>
          RaisedStaysRaised(items, i + 1, f);
          return Err(f);
        case Dropped =>
        case Accepted(step, action) =>
          steps := steps + [Normalized(step, action, |steps| + 1)];
      }
      i := i + 1;
    }
    assert items[..i] == items;
    if steps == [] {
      steps := [FallbackStep];
    }
    ReplacedSteps(plan, Arr(steps));
    r := Ok(plan["steps" := Arr(steps)]);
  }

  /** One more iteration of the loop. */
  lemma {:induction false} KeptStepsStep(items: seq<Value>, i: nat)
    requires i < |items| && KeptSteps(items[..i]).Ok?
    ensures var prev := KeptSteps(items[..i]).value;
      KeptSteps(items[..i + 1]) ==
        match Judge(items[i])
        case Invalid(f) => Err(f)
        case Dropped => Ok(prev)
        case Accepted(step, action) => Ok(prev + [Normalized(step, action, |prev| + 1)])
  {
    assert items[..i + 1][..i] == items[..i];
    assert items[..i + 1][i] == items[i];
  }

  /** A prefix that raised makes the whole loop raise. */
  lemma {:induction false} RaisedStaysRaised(items: seq<Value>, n: nat, f: Failure)
    requires n <= |items| && KeptSteps(items[..n]) == Err(f)
    ensures KeptSteps(items) == Err(f)
  {
    FailureSticks(items[..n], items[n..], f);
    assert items[..n] + items[n..] == items;
  }

  /** Overwriting "steps" leaves every other key as it was. */
  lemma ReplacedSteps(plan: Dict, v: Value)
    ensures plan["steps" := v] - {"steps"} == plan - {"steps"}
  {
  }

  /** Once the loop has raised, later steps do not matter. */
  lemma {:induction false} FailureSticks(done: seq<Value>, rest: seq<Value>, f: Failure)
    requires KeptSteps(done) == Err(f)
    ensures KeptSteps(done + rest) == Err(f)
    decreases |rest|
  {
    if rest == [] {
      assert done + rest == done;
    } else {
      var init := rest[..|rest| - 1];
      FailureSticks(done, init, f);
      assert (done + rest)[..|done + rest| - 1] == done + init;
    }
  }

  // ---------------------------------------------------------------- reference

  /** The raw steps the loop accepts, with their actions, in input order. */
  function Admitted(raw: seq<Value>): seq<(Dict, string)>
    decreases |raw|
  {
    if raw == [] then []
    else
      Admitted(raw[..|raw| - 1]) +
      (match Judge(raw[|raw| - 1])
       case Accepted(step, action) => [(step, action)]
       case _ => [])
  }

  /** Accepted steps normalised with their 1-based position among the
      accepted steps as the default step number. */
  function Numbered(adm: seq<(Dict, string)>): seq<Value> {
    seq(|adm|, k requires 0 <= k < |adm| => Normalized(adm[k].0, adm[k].1, k + 1))
  }

  /** No raw step makes the loop raise. */
  predicate Judgeable(raw: seq<Value>) {
    forall k :: 0 <= k < |raw| ==> !Judge(raw[k]).Invalid?
  }

  /** The loop's output is exactly the accepted input steps in their original
      order, each normalised with its position among them; it raises exactly
      when some raw step cannot be judged. */
  lemma {:induction false} KeptStepsAreNumberedAdmitted(raw: seq<Value>)
    ensures Judgeable(raw) ==> KeptSteps(raw) == Ok(Numbered(Admitted(raw)))
    ensures !Judgeable(raw) ==> KeptSteps(raw).Err?
    decreases |raw|
  {
    if raw != [] {
      var init := raw[..|raw| - 1];
      KeptStepsAreNumberedAdmitted(init);
      if Judgeable(raw) {
        JudgeablePrefix(raw);
        match Judge(raw[|raw| - 1])
        case Accepted(step, action) =>
          assert Admitted(raw) == Admitted(init) + [(step, action)];
          NumberedAppend(Admitted(init), step, action);
        case Dropped =>
          assert Admitted(raw) == Admitted(init) + [];
          assert Admitted(init) + [] == Admitted(init);
      } else {
        var k :| 0 <= k < |raw| && Judge(raw[k]).Invalid?;
        if k < |raw| - 1 {
          assert init[k] == raw[k];
          assert !Judgeable(init);
        }
      }
    } else {
      assert |Numbered(Admitted(raw))| == 0;
    }
  }

  lemma JudgeablePrefix(raw: seq<Value>)
    requires Judgeable(raw) && |raw| > 0
    ensures Judgeable(raw[..|raw| - 1])
  {
    var init := raw[..|raw| - 1];
    forall k | 0 <= k < |init| ensures !Judge(init[k]).Invalid? {
      assert init[k] == raw[k];
    }
  }

  /** Numbering one more accepted step gives it the next position. */
  lemma NumberedAppend(adm: seq<(Dict, string)>, step: Dict, action: string)
    ensures Numbered(adm + [(step, action)]) == Numbered(adm) + [Normalized(step, action, |adm| + 1)]
  {
    var a := Numbered(adm + [(step, action)]);
    var b := Numbered(adm) + [Normalized(step, action, |adm| + 1)];
    forall k | 0 <= k < |a| ensures a[k] == b[k] {
      if k < |adm| {
        assert (adm + [(step, action)])[k] == adm[k];
      }
    }
  }

  /** The exception raised is the one of the first step that cannot be
      judged. */
  lemma {:induction false} FirstInvalidStepDecides(raw: seq<Value>, i: nat)
    requires i < |raw| && Judge(raw[i]).Invalid?
    requires forall k :: 0 <= k < i ==> !Judge(raw[k]).Invalid?
    ensures KeptSteps(raw) == Err(Judge(raw[i]).failure)
  {
    var before := raw[..i];
    var done := raw[..i + 1];
    var f := Judge(raw[i]).failure;
    assert Judgeable(before) by {
      forall k | 0 <= k < i ensures !Judge(before[k]).Invalid? {
        assert before[k] == raw[k];
      }
    }
    KeptStepsAreNumberedAdmitted(before);
    assert KeptSteps(before).Ok?;
    assert done[..|done| - 1] == before;
    assert done[|done| - 1] == raw[i];
    assert KeptSteps(done) == Err(f);
    FailureSticks(done, raw[i + 1..], f);
    Ranking.TakeDrop(raw, i + 1);
  }

  /** The accepted steps keep their relative order: acceptance distributes
      over concatenation of the raw steps. */
  lemma {:induction false} AdmittedAppend(a: seq<Value>, b: seq<Value>)
    ensures Admitted(a + b) == Admitted(a) + Admitted(b)
    decreases |b|
  {
    if b == [] {
      assert a + b == a;
    } else {
      var init := b[..|b| - 1];
      AdmittedAppend(a, init);
      assert (a + b)[..|a + b| - 1] == a + init;
      assert (a + b)[|a + b| - 1] == b[|b| - 1];
    }
  }

  /** A present step number is kept verbatim; a missing one becomes the
      step's 1-based position among the accepted steps. */
  lemma StepNumberOfKeptStep(raw: seq<Value>, k: nat)
    requires Judgeable(raw) && k < |Admitted(raw)|
    ensures KeptSteps(raw).Ok? && k < |KeptSteps(raw).value|
    ensures KeptSteps(raw).value[k] == Normalized(Admitted(raw)[k].0, Admitted(raw)[k].1, k + 1)
    ensures var step := Admitted(raw)[k].0;
      KeptSteps(raw).value[k].fields["step_number"] ==
        if "step_number" in step then step["step_number"] else Num(k + 1)
  {
    KeptStepsAreNumberedAdmitted(raw);
  }

  /** When no step survives, or there is no "steps" key at all, the plan gets
      exactly the fallback step and keeps its other keys. */
  lemma SanitizedFallback(plan: Dict)
    requires StepsOf(plan).Ok? && Judgeable(StepsOf(plan).value)
    requires Admitted(StepsOf(plan).value) == []
    ensures Sanitized(plan) == Ok(plan["steps" := Arr([FallbackStep])])
  {
    KeptStepsAreNumberedAdmitted(StepsOf(plan).value);
  }

  lemma FallbackWithoutSteps(plan: Dict)
    requires "steps" !in plan
    ensures Sanitized(plan) == Ok(plan["steps" := Arr([FallbackStep])])
    ensures SafePlan(Sanitized(plan).value)
  {
  }

  /** What the sanitizer makes of each kind of "steps" value: a number, a
      boolean or null cannot be iterated; a non-empty string yields
      one-character strings and a non-empty dict yields its keys, and `.get`
      on the first of those raises; an empty string or dict has no steps, so
      the fallback step replaces it. */
  lemma {:induction false} SanitizedOfStepsValue(plan: Dict)
    ensures "steps" in plan && (plan["steps"].Null? || plan["steps"].Bool? || plan["steps"].Num?) ==>
      Sanitized(plan) == Err(NotIterable)
    ensures "steps" in plan && plan["steps"].Str? && |plan["steps"].s| > 0 ==>
      Sanitized(plan) == Err(NoGetMethod)
    ensures "steps" in plan && plan["steps"].Obj? && |plan["steps"].fields| > 0 ==>
      Sanitized(plan) == Err(NoGetMethod)
    ensures "steps" in plan && (plan["steps"] == Str("") || plan["steps"] == Obj(map[])) ==>
      Sanitized(plan) == Ok(plan["steps" := Arr([FallbackStep])])
  {
    if "steps" in plan && plan["steps"].Str? && |plan["steps"].s| > 0 {
      var raw := StepsOf(plan).value;
      assert Judge(raw[0]) == Invalid(NoGetMethod);
      FirstInvalidStepDecides(raw, 0);
    }
  }

  // ---------------------------------------------------------------- fences

  const Fence: string := "```"

  /** `text.split("```")[1].replace("json", "").strip()` when the text holds a
      fence, the text itself otherwise. */
  function Unfence(text: string): string {
    if Contains(text, Fence) then Strip(RemoveAll(Split(text, Fence)[1], "json")) else text
  }

  /** The text up to the next fence, or all of it. */
  function UpToFence(text: string): (r: string)
    ensures !Contains(r, Fence)
  {
    match Find(Fence, text)
    case None => text
    case Some(j) => PrefixBeforeFirst(text, Fence, j); text[..j]
  }

  /** The decoded text is what lies between the first fence and the next one
      (or the end), with every "json" removed, then stripped. */
  lemma UnfenceTakesFirstBlock(text: string, i: nat)
    requires Find(Fence, text) == Some(i)
    ensures Unfence(text) == Strip(RemoveAll(UpToFence(text[i + 3..]), "json"))
  {
    var rest := text[i + 3..];
    assert Split(text, Fence) == [text[..i]] + Split(rest, Fence);
    match Find(Fence, rest)
    case None =>
    case Some(j) =>
      assert Split(rest, Fence)[0] == rest[..j];
  }

  /** Text without a backtick, so without a fence. */
  predicate FenceFree(s: string) {
    forall k :: 0 <= k < |s| ==> s[k] != '`'
  }

  lemma {:induction false} FenceFreeAppend(a: string, b: string)
    requires FenceFree(a) && FenceFree(b)
    ensures FenceFree(a + b)
  {
    forall k | 0 <= k < |a + b| ensures (a + b)[k] != '`' {
      if k >= |a| { assert (a + b)[k] == b[k - |a|]; }
    }
  }

  /** A fence whose text before it holds no backtick is the first one. */
  lemma {:induction false} FirstFenceAt(s: string, n: nat)
    requires OccursAt(Fence, s, n)
    requires forall j :: 0 <= j < n ==> s[j] != '`'
    ensures Find(Fence, s) == Some(n)
  {
    forall j | 0 <= j < n ensures !OccursAt(Fence, s, j) {
      if j + 3 <= |s| {
        assert s[j..j + 3][0] == s[j];
      }
    }
    FindFirstAt(Fence, s, n);
  }

  /** A text that opens with a fence has its first fence at 0. */
  lemma {:induction false} OpeningFence(rest: string)
    ensures Find(Fence, Fence + rest) == Some(0)
    ensures (Fence + rest)[3..] == rest
  {
    OccursAtByChars(Fence, Fence + rest, 0);
    FindFirstAt(Fence, Fence + rest, 0);
  }

  /** A fence after a backtick-free block is the first one. */
  lemma {:induction false} ClosingFence(block: string, tail: string)
    requires FenceFree(block)
    ensures Find(Fence, block + (Fence + tail)) == Some(|block|)
    ensures (block + (Fence + tail))[..|block|] == block
  {
    var s := block + (Fence + tail);
    OccursAtByChars(Fence, s, |block|);
    FirstFenceAt(s, |block|);
  }

  /** A reply fenced as a code block yields the block, with "json" removed
      and stripped, whatever follows the closing fence. */
  lemma {:induction false} UnfenceBlock(block: string, tail: string)
    requires FenceFree(block)
    ensures Unfence(Fence + (block + (Fence + tail))) == Strip(RemoveAll(block, "json"))
  {
    var rest := block + (Fence + tail);
    OpeningFence(rest);
    ClosingFence(block, tail);
    UnfenceTakesFirstBlock(Fence + rest, 0);
  }

  /** The "json" language tag in front of a body without "json" is removed. */
  lemma {:induction false} DropTag(body: string)
    requires !Contains(body, "json")
    ensures RemoveAll("json" + body, "json") == body
  {
    var s := "json" + body;
    assert s[..4] == "json" && s[4..] == body;
    RemoveAllAbsent(body, "json");
  }

  /** A reply fenced as a "json" code block yields the block's body, stripped,
      whatever follows the closing fence. */
  lemma {:induction false} UnfenceTaggedBlock(body: string, after: string)
    requires FenceFree(body)
    requires !Contains(body, "json")
    ensures Unfence(Fence + ("json" + body + (Fence + after))) == Strip(body)
  {
    FenceFreeAppend("json", body);
    UnfenceBlock("json" + body, after);
    DropTag(body);
  }

  /** Both the tag and a later "json" inside the block are removed. */
  lemma {:induction false} TagAndInnerRemoved(head: string, tail: string)
    requires forall k :: 0 <= k < |head| ==> head[k] != 'j'
    requires forall k :: 0 <= k < |tail| ==> tail[k] != 'j'
    ensures RemoveAll("json" + head + "json" + tail, "json") == head + tail
  {
    var rest := head + "json" + tail;
    RemoveAllAfterPlain("", "json", rest);
    assert "" + "json" + rest == "json" + head + "json" + tail;
    RemoveAllAfterPlain(head, "json", tail);
    LacksFirstChar(tail, "json");
    RemoveAllAbsent(tail, "json");
  }

  /** As written, "json" is removed everywhere in the block, not only as the
      language tag: a body such as `{"package": "org.jsonview"}` comes out as
      `{"package": "org.view"}`. */
  lemma {:induction false} UnfenceAlsoEditsContent(head: string, tail: string, after: string)
    requires FenceFree(head) && FenceFree(tail)
    requires forall k :: 0 <= k < |head| ==> head[k] != 'j'
    requires forall k :: 0 <= k < |tail| ==> tail[k] != 'j'
    ensures Unfence(Fence + ("json" + head + "json" + tail + (Fence + after)))
         == Strip(head + tail)
  {
    var block := "json" + head + "json" + tail;
    FenceFreeAppend("json", head);
    FenceFreeAppend("json" + head, "json");
    FenceFreeAppend("json" + head + "json", tail);
    UnfenceBlock(block, after);
    TagAndInnerRemoved(head, tail);
  }

  // ---------------------------------------------------------------- wrappers

  /** The decoded reply: the service's exception, the decoder's exception, or
      the value decoded from `text(reply)`. */
  function Answer(reply: Result<string, string>, parse: string -> Result<Value, string>,
                  text: string -> string): (r: Result<Value, Failure>)
    ensures reply.Err? ==> r == Err(ServiceFailed(reply.error))
    ensures reply.Ok? && parse(text(reply.value)).Err? ==>
              r == Err(ParseFailed(parse(text(reply.value)).error))
    ensures reply.Ok? && parse(text(reply.value)).Ok? ==> r == Ok(parse(text(reply.value)).value)
  {
    match reply
    case Err(m) => Err(ServiceFailed(m))
    case Ok(t) =>
      match parse(text(t))
      case Err(m) => Err(ParseFailed(m))
      case Ok(v) => Ok(v)
  }

  /** A decoded plan is used through `.get`, so it must be a dict. */
  function AsDict(v: Result<Value, Failure>): Result<Dict, Failure> {
    match v
    case Err(f) => Err(f)
    case Ok(Obj(m)) => Ok(m)
    case Ok(_) => Err(NoGetMethod)
  }

  /** `create_plan` strips the reply before looking for a fence. */
  function PlanText(t: string): string {
    Unfence(Strip(t))
  }

  /** The plan `create_plan` returns when anything in its `try` raised. */
  function ErrorPlan(message: string): Dict {
    map[
      "steps" := Arr([Obj(map[
        "step_number" := Num(1),
        "description" := Str("Wait"),
        "action_type" := Str("wait"),
        "params" := Obj(map["seconds" := Num(1)]),
        "reason" := Str("Planner error fallback")
      ])]),
      "estimated_time" := Str("unknown"),
      "complexity" := Str("high"),
      "error" := Str(message)
    ]
  }

  /** The error plan is safe and says why it was made. */
  lemma ErrorPlanIsSafe(message: string)
    ensures SafePlan(ErrorPlan(message))
    ensures var plan := ErrorPlan(message);
      && "complexity" in plan && plan["complexity"] == Str("high")
      && "estimated_time" in plan && plan["estimated_time"] == Str("unknown")
      && "error" in plan && plan["error"] == Str(message)
  {
    var step := ErrorPlan(message)["steps"].items[0];
    assert AllowedStep(step);
  }

  /** `create_plan`: always a safe plan. On any failure it is the one-step
      "wait" plan of complexity "high" carrying the error; otherwise it is the
      sanitized decoded reply. */
  method CreatePlan(reply: Result<string, string>, parse: string -> Result<Value, string>)
    returns (plan: Dict)
    ensures SafePlan(plan)
    ensures match AsDict(Answer(reply, parse, PlanText))
            case Err(f) => plan == ErrorPlan(Describe(f))
            case Ok(raw) =>
              plan == match Sanitized(raw) case Ok(p) => p case Err(f) => ErrorPlan(Describe(f))
    ensures AsDict(Answer(reply, parse, PlanText)).Err? ==>
              && "complexity" in plan && plan["complexity"] == Str("high")
              && "estimated_time" in plan && plan["estimated_time"] == Str("unknown")
              && "error" in plan
  {
    var raw := AsDict(Answer(reply, parse, PlanText));
    if raw.Err? {
      ErrorPlanIsSafe(Describe(raw.error));
      return ErrorPlan(Describe(raw.error));
    }
    var sanitized := SanitizePlan(raw.value);
    if sanitized.Err? {
      ErrorPlanIsSafe(Describe(sanitized.error));
      return ErrorPlan(Describe(sanitized.error));
    }
    plan := sanitized.value;
  }

  /** `analyze_failure`: the decoded diagnosis, or `None` when the service or
      the decoder fails. A reply that decodes to JSON `null` is `None` too. */
  function AnalyzeFailure(reply: Result<string, string>, parse: string -> Result<Value, string>)
    : (diagnosis: Option<Value>)
    ensures reply.Err? ==> diagnosis == None
    ensures reply.Ok? && parse(Unfence(reply.value)).Err? ==> diagnosis == None
    ensures diagnosis.Some? <==>
              reply.Ok? && parse(Unfence(reply.value)).Ok? && parse(Unfence(reply.value)).value != Null
    ensures diagnosis.Some? ==> diagnosis.value == parse(Unfence(reply.value)).value
  {
    match Answer(reply, parse, Unfence)
    case Err(_) => None
    case Ok(v) => if v == Null then None else Some(v)
  }

  predicate Failed(r: Dict) {
    !Succeeded(r)
  }

  /** `[r for r in execution_results if not r.get("success")]`. */
  function Failures(results: seq<Dict>): (failures: seq<Dict>)
    ensures failures == [] <==> forall k :: 0 <= k < |results| ==> Succeeded(results[k])
  {
    var failures := Ranking.Filter(results, Failed);
    Ranking.FilterMembers(results, Failed);
    assert failures != [] ==> failures[0] in results && Failed(failures[0]);
    failures
  }

  /** `optimize_plan`: the input plan itself when no result failed, whatever
      the service would answer; otherwise the sanitized decoded reply, or the
      input plan again when anything fails. */
  method OptimizePlan(plan: Dict, results: seq<Dict>, reply: Result<string, string>,
                      parse: string -> Result<Value, string>)
    returns (revised: Dict)
    ensures Failures(results) == [] ==> revised == plan
    ensures Failures(results) != [] ==>
              revised == match AsDict(Answer(reply, parse, Unfence))
                         case Err(_) => plan
                         case Ok(raw) => (match Sanitized(raw) case Ok(p) => p case Err(_) => plan)
    ensures revised == plan || SafePlan(revised)
  {
    var failures := Failures(results);
    if failures == [] {
      return plan;
    }
    var improved := AsDict(Answer(reply, parse, Unfence));
    if improved.Err? {
      return plan;
    }
    var sanitized := SanitizePlan(improved.value);
    if sanitized.Err? {
      return plan;
    }
    revised := sanitized.value;
  }
}
