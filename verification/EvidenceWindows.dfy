/** Packing of traces and task records into a character budget, measured on their JSON text. */
module EvidenceWindows {
  import opened Wrappers
  import opened Text
  import opened JsonText

  // ---- format_trace: from raw messages to steps ----

  /** The message list inside a trace; a wrapper object is asked for two keys before it is given up. */
  function MessagesOf(trace: Json): Option<seq<Json>> {
    match trace
    case Arr(items) => Some(items)
    case Obj(_) =>
      var first := Get(trace, "messages");
      var second := Get(trace, "trace");
      var found := if Truthy(first) then first else if Truthy(second) then second else trace;
      if found.Arr? then Some(found.items) else None
    case _ => None
  }

  /** One tool call; `show` is Python's `str`. */
  function ToolCallSummary(call: Json, show: Json -> string): Json {
    if !call.Obj? then Obj([("raw", Str(Clip(show(call), 200)))])
    else
      var function_ := Get(call, "function");
      if !Truthy(function_) then
        Obj([("id", Get(call, "id")), ("name", Null), ("arguments", Str(Clip(show(Str("")), 300)))])
      else if function_.Obj? then
        Obj([("id", Get(call, "id")), ("name", Get(function_, "name")),
             ("arguments", Str(Clip(show(GetOr(function_, "arguments", Str(""))), 300)))])
      else Obj([("id", Get(call, "id")), ("raw", Str(Clip(Dumps(call), 200)))])
  }

  function ToolCallSummaries(calls: seq<Json>, show: Json -> string): seq<Json> {
    seq(|calls|, i requires 0 <= i < |calls| => ToolCallSummary(calls[i], show))
  }

  function Contents(msg: Record, role: Json, show: Json -> string): seq<(string, Json)> {
    var content := Get(msg, "content");
    if !Truthy(content) then []
    else
      var text := Clip(show(content), if role == Str("assistant") then 600 else 400);
      [("content", Str(if role == Str("tool") then Clip(text, 400) else text))]
  }

  function ToolCalls(msg: Record, show: Json -> string): seq<(string, Json)> {
    var calls := Get(msg, "tool_calls");
    if !Truthy(calls) then []
    else
      var listed := if calls.Arr? then calls.items else [calls];
      [("tool_calls", Arr(ToolCallSummaries(listed[..Min(|listed|, 8)], show)))]
  }

  function ToolCallId(msg: Record, role: Json): seq<(string, Json)> {
    var id := Get(msg, "tool_call_id");
    if role == Str("tool") && Truthy(id) then [("tool_call_id", id)] else []
  }

  function StepOf(msg: Json, show: Json -> string): Json {
    if !msg.Obj? then Obj([("raw", Str(Clip(show(msg), 200)))])
    else
      var role := GetOr(msg, "role", Str("?"));
      Obj([("role", role)] + Contents(msg, role, show) + ToolCalls(msg, show) + ToolCallId(msg, role))
  }

  function Steps(messages: seq<Json>, show: Json -> string): seq<Json> {
    seq(|messages|, i requires 0 <= i < |messages| => StepOf(messages[i], show))
  }

  /** One tool call as it is told: who was called with what, or a text when there is no telling. */
  ghost predicate CallTold(call: Json, show: Json -> string, told: Json) {
    if !call.Obj? then exists t :: CutTo(show(call), t, 200) && told == Obj([("raw", Str(t))])
    else
      var callee := Get(call, "function");
      var arguments := if Truthy(callee) && callee.Obj? && Has(callee, "arguments") then Get(callee, "arguments")
                       else Str("");
      if Truthy(callee) && !callee.Obj?
      then exists t :: CutTo(Dumps(call), t, 200) && told == Obj([("id", Get(call, "id")), ("raw", Str(t))])
      else exists t ::
             && CutTo(show(arguments), t, 300)
             && told == Obj([("id", Get(call, "id")), ("name", if Truthy(callee) then Get(callee, "name") else Null),
                             ("arguments", Str(t))])
  }

  /** The first eight of the calls, each told in its place. */
  ghost predicate CallsTold(calls: Json, show: Json -> string, told: seq<Json>) {
    var listed := if calls.Arr? then calls.items else [calls];
    && |told| == (if |listed| < 8 then |listed| else 8)
    && forall i | 0 <= i < |told| :: CallTold(listed[i], show, told[i])
  }

  ghost predicate ContentTold(msg: Record, role: Json, show: Json -> string, told: seq<(string, Json)>) {
    if !Truthy(Get(msg, "content")) then told == []
    else exists t :: CutTo(show(Get(msg, "content")), t, if role == Str("assistant") then 600 else 400)
                     && told == [("content", Str(t))]
  }

  ghost predicate ToolCallsTold(msg: Record, show: Json -> string, told: seq<(string, Json)>) {
    if !Truthy(Get(msg, "tool_calls")) then told == []
    else exists calls :: CallsTold(Get(msg, "tool_calls"), show, calls) && told == [("tool_calls", Arr(calls))]
  }

  ghost predicate StepOfParts(msg: Record, role: Json, show: Json -> string, content: seq<(string, Json)>,
                              calls: seq<(string, Json)>, step: Json) {
    var id := Get(msg, "tool_call_id");
    && ContentTold(msg, role, show, content) && ToolCallsTold(msg, show, calls)
    && step == Obj([("role", role)] + content + calls
                   + if role == Str("tool") && Truthy(id) then [("tool_call_id", id)] else [])
  }

  /** What a step tells of its message: role, content, tool calls and the call it answers, each text cut to its own
      limit, nothing for what the message does not have. */
  ghost predicate StepTold(msg: Json, show: Json -> string, step: Json) {
    if !msg.Obj? then exists t :: CutTo(show(msg), t, 200) && step == Obj([("raw", Str(t))])
    else
      var role := if Has(msg, "role") then Get(msg, "role") else Str("?");
      exists content, calls :: StepOfParts(msg, role, show, content, calls, step)
  }

  lemma CallIsTold(call: Json, show: Json -> string)
    ensures CallTold(call, show, ToolCallSummary(call, show))
  {
    if !call.Obj? {
      ClipCuts(show(call), 200);
    } else {
      var callee := Get(call, "function");
      if Truthy(callee) && !callee.Obj? {
        ClipCuts(Dumps(call), 200);
      } else {
        ClipCuts(show(if Truthy(callee) then GetOr(callee, "arguments", Str("")) else Str("")), 300);
      }
    }
    hide Clip, CutTo, Dumps, GetField, Has;
  }

  lemma CallsAreTold(calls: Json, show: Json -> string)
    ensures var listed := if calls.Arr? then calls.items else [calls];
            CallsTold(calls, show, ToolCallSummaries(listed[..Min(|listed|, 8)], show))
  {
    hide CallTold, ToolCallSummary;
    var listed := if calls.Arr? then calls.items else [calls];
    forall i | 0 <= i < Min(|listed|, 8) ensures CallTold(listed[i], show, ToolCallSummary(listed[i], show)) {
      CallIsTold(listed[i], show);
    }
  }

  lemma ContentIsTold(msg: Record, role: Json, show: Json -> string)
    ensures ContentTold(msg, role, show, Contents(msg, role, show))
  {
    var full := show(Get(msg, "content"));
    ClipCuts(full, 600);
    ClipCuts(full, 400);
    assert Clip(Clip(full, 400), 400) == Clip(full, 400);
    hide Clip, CutTo, Get;
  }

  lemma StepIsTold(msg: Json, show: Json -> string)
    ensures StepTold(msg, show, StepOf(msg, show))
  {
    if !msg.Obj? {
      ClipCuts(show(msg), 200);
    } else {
      var role := GetOr(msg, "role", Str("?"));
      ContentIsTold(msg, role, show);
      CallsAreTold(Get(msg, "tool_calls"), show);
      hide Clip, CutTo, Get, Has, CallsTold, ContentTold, Contents, ToolCallSummaries;
      assert ToolCallsTold(msg, show, ToolCalls(msg, show));
      assert StepOfParts(msg, role, show, Contents(msg, role, show), ToolCalls(msg, show), StepOf(msg, show));
    }
  }

  // ---- format_trace: packing ----

  /** The `k` steps nearest to the preferred end. */
  function Window(steps: seq<Json>, k: nat, preferTail: bool): (r: seq<Json>)
    requires k <= |steps|
    ensures |r| == k
  {
    if preferTail then steps[|steps| - k..] else steps[..k]
  }

  /** The largest number of steps, at most `k`, whose window fits; found by trying downwards. */
  function LongestFit(steps: seq<Json>, k: nat, limit: int, preferTail: bool): (r: nat)
    requires k <= |steps|
    ensures r <= k
    ensures r == 0 || ListLength(Window(steps, r, preferTail)) <= limit
    ensures forall m | r < m <= k :: ListLength(Window(steps, m, preferTail)) > limit
  {
    if k == 0 || ListLength(Window(steps, k, preferTail)) <= limit then k
    else LongestFit(steps, k - 1, limit, preferTail)
  }

  function OmittedSteps(count: nat, preferTail: bool): Json {
    Note(ELLIPSIS + Decimal(count) + if preferTail then " earlier steps omitted" else " later steps omitted")
  }

  function Join(extra: Json, packed: seq<Json>, preferTail: bool): seq<Json> {
    if preferTail then [extra] + packed else packed + [extra]
  }

  /** What the packing amounts to: the longest fitting window, with a note when steps are missing and the
      note still fits. */
  function Packed(steps: seq<Json>, limit: int, preferTail: bool): seq<Json> {
    var kept := LongestFit(steps, |steps|, limit, preferTail);
    var window := Window(steps, kept, preferTail);
    var noted := Join(OmittedSteps(|steps| - kept, preferTail), window, preferTail);
    if kept < |steps| && ListLength(noted) <= limit then noted else window
  }

  /** Shorter windows are never longer texts, which is why stopping at the first misfit loses nothing. */
  lemma WindowsNest(steps: seq<Json>, k: nat, m: nat, preferTail: bool)
    requires k <= m <= |steps|
    ensures ListLength(Window(steps, k, preferTail)) <= ListLength(Window(steps, m, preferTail))
  {
    if preferTail {
      var n := |steps|;
      assert steps[n - m..] == steps[n - m..n - k] + steps[n - k..];
      ListLengthGrows(steps[n - m..n - k], steps[n - k..]);
    } else {
      assert steps[..m] == steps[..k] + steps[k..m];
      ListLengthGrows(steps[..k], steps[k..m]);
    }
  }

  lemma LongestFitIs(steps: seq<Json>, n: nat, limit: int, preferTail: bool, k: nat)
    requires k <= n <= |steps|
    requires k == 0 || ListLength(Window(steps, k, preferTail)) <= limit
    requires forall m | k < m <= n :: ListLength(Window(steps, m, preferTail)) > limit
    ensures LongestFit(steps, n, limit, preferTail) == k
  {
  }

  lemma WindowGrows(steps: seq<Json>, k: nat, preferTail: bool)
    requires k < |steps|
    ensures Join(if preferTail then steps[|steps| - 1 - k] else steps[k], Window(steps, k, preferTail), preferTail)
         == Window(steps, k + 1, preferTail)
  {
  }

  lemma EmptyWindow(steps: seq<Json>, preferTail: bool)
    ensures Window(steps, 0, preferTail) == []
  {
  }

  /** The greedy packing loop finds the longest window. */
  method PackSteps(steps: seq<Json>, limit: int, preferTail: bool) returns (packed: seq<Json>)
    ensures packed == Packed(steps, limit, preferTail)
  {
    hide ListLength, OmittedSteps, LongestFit, Window, Join;
    var n := |steps|;
    packed := [];
    EmptyWindow(steps, preferTail);
    ghost var k := 0;
    for i := 0 to n
      invariant k == i && packed == Window(steps, k, preferTail)
      invariant k == 0 || ListLength(packed) <= limit
    {
      var step := if preferTail then steps[n - 1 - i] else steps[i];
      var candidate := Join(step, packed, preferTail);
      WindowGrows(steps, k, preferTail);
      if ListLength(candidate) > limit {
        break;
      }
      packed := candidate;
      k := k + 1;
    }
    forall m | k < m <= n ensures ListLength(Window(steps, m, preferTail)) > limit {
      WindowsNest(steps, k + 1, m, preferTail);
    }
    LongestFitIs(steps, n, limit, preferTail, k);
    var omitted := n - |packed|;
    if omitted > 0 {
      var candidate := Join(OmittedSteps(omitted, preferTail), packed, preferTail);
      if ListLength(candidate) <= limit {
        packed := candidate;
      }
    }
  }

  /** What a trace is turned into: nothing, a clipped text, or packed steps. */
  function Formatted(trace: Option<Json>, limit: int, preferTail: bool, show: Json -> string): Json {
    if trace.None? then Str("")
    else
      match MessagesOf(trace.value)
      case None => Str(Clip(Dumps(trace.value), limit))
      case Some(messages) => Arr(Packed(Steps(messages, show), limit, preferTail))
  }

  /** `format_trace`. */
  method FormatTrace(trace: Option<Json>, limit: int, preferTail: bool, show: Json -> string)
    returns (formatted: Json)
    ensures formatted == Formatted(trace, limit, preferTail, show)
  {
    if trace.None? {
      return Str("");
    }
    var messages := MessagesOf(trace.value);
    if messages.None? {
      return Str(Clip(Dumps(trace.value), limit));
    }
    var steps: seq<Json> := [];
    for i := 0 to |messages.value|
      invariant steps == Steps(messages.value, show)[..i]
    {
      steps := steps + [StepOf(messages.value[i], show)];
    }
    assert Steps(messages.value, show)[..|messages.value|] == Steps(messages.value, show);
    var packed := PackSteps(steps, limit, preferTail);
    formatted := Arr(packed);
  }

  /** Main result: a packed trace meets its limit exactly when the limit admits the empty list, it keeps
      everything exactly when everything fits, and otherwise no window with one more step would have fitted. */
  lemma PackingIsOptimal(steps: seq<Json>, limit: int, preferTail: bool)
    ensures ListLength(Packed(steps, limit, preferTail)) <= limit <==> limit >= 2
    ensures var kept := LongestFit(steps, |steps|, limit, preferTail);
      && (kept == |steps| <==> steps == [] || ListLength(steps) <= limit)
      && (kept == |steps| ==> Packed(steps, limit, preferTail) == steps)
      && (forall m | m <= |steps| && 0 < m ::
            ListLength(Window(steps, m, preferTail)) <= limit <==> m <= kept)
  {
    var kept := LongestFit(steps, |steps|, limit, preferTail);
    ListLengthIsWeight(Packed(steps, limit, preferTail));
    assert Window(steps, |steps|, preferTail) == steps;
    forall m | m <= |steps| && 0 < m
      ensures ListLength(Window(steps, m, preferTail)) <= limit <==> m <= kept
    {
      if m <= kept {
        WindowsNest(steps, m, kept, preferTail);
      }
    }
    if kept == 0 {
      assert ListLength([]) == 2;
    }
  }

  /** The characters a formatted trace takes: a text its own, a list those of its JSON. */
  function Size(formatted: Json): nat {
    if formatted.Str? then |formatted.s| else |Dumps(formatted)|
  }

  /** Whatever the trace, a limit that admits the empty list is met. */
  lemma FormattedMeetsLimit(trace: Option<Json>, limit: int, preferTail: bool, show: Json -> string)
    requires limit >= 2
    ensures Size(Formatted(trace, limit, preferTail, show)) <= limit
  {
    if trace.Some? {
      ClipMeetsLimit(Dumps(trace.value), limit);
      var messages := MessagesOf(trace.value);
      if messages.Some? {
        PackingIsOptimal(Steps(messages.value, show), limit, preferTail);
      }
      hide Clip, Packed, Steps, MessagesOf;
    }
  }

  /** The packed list read from its two ends: `kept` steps of the preferred end, all of them when none is missing, and
      at the other end at most one remark, which counts the missing steps and stands there exactly when it fits. */
  predicate PacksWell(steps: seq<Json>, limit: int, preferTail: bool, kept: nat, packed: seq<Json>)
    requires kept <= |steps|
  {
    var n, missing := |packed|, |steps| - kept;
    var text := if preferTail then " earlier steps omitted" else " later steps omitted";
    var note := Obj([("_note", Str("\U{2026}" + Decimal(missing) + text))]);
    var window := if preferTail then steps[missing..] else steps[..kept];
    && kept <= n <= kept + 1
    && (if preferTail then packed[n - kept..] == window else packed[..kept] == window)
    && (n == kept + 1 ==> packed[if preferTail then 0 else kept] == note)
    && (n == kept + 1 <==> missing > 0 && ListLength(if preferTail then [note] + window else window + [note]) <= limit)
  }

  lemma NoteIs(count: nat, text: string, preferTail: bool)
    requires text == if preferTail then " earlier steps omitted" else " later steps omitted"
    ensures OmittedSteps(count, preferTail) == Obj([("_note", Str("\U{2026}" + Decimal(count) + text))])
  {
  }

  lemma PackedPacksWell(steps: seq<Json>, limit: int, preferTail: bool)
    ensures PacksWell(steps, limit, preferTail, LongestFit(steps, |steps|, limit, preferTail),
                      Packed(steps, limit, preferTail))
  {
    hide ListLength, Decimal, LongestFit;
    var kept := LongestFit(steps, |steps|, limit, preferTail);
    if preferTail {
      NoteIs(|steps| - kept, " earlier steps omitted", true);
    } else {
      NoteIs(|steps| - kept, " later steps omitted", false);
    }
  }

  /** The message list of a trace: the trace itself, or what a wrapper holds under the first of two keys that holds
      anything. */
  predicate ListedIn(trace: Json, messages: seq<Json>) {
    || trace == Arr(messages)
    || (trace.Obj? && if Truthy(Get(trace, "messages")) then Get(trace, "messages") == Arr(messages)
                      else Truthy(Get(trace, "trace")) && Get(trace, "trace") == Arr(messages))
  }

  lemma MessagesAreListed(trace: Json)
    ensures MessagesOf(trace).Some? ==> ListedIn(trace, MessagesOf(trace).value)
    ensures forall messages | ListedIn(trace, messages) :: MessagesOf(trace) == Some(messages)
  {
    hide Get, Truthy;
  }

  /** No window with more steps fits, and the one with this many does. */
  predicate KeepsMost(steps: seq<Json>, limit: int, preferTail: bool, kept: nat) {
    && kept <= |steps|
    && (kept == 0 || ListLength(if preferTail then steps[|steps| - kept..] else steps[..kept]) <= limit)
    && if preferTail then forall d | 0 <= d < |steps| - kept :: ListLength(steps[d..]) > limit
       else forall m | kept < m <= |steps| :: ListLength(steps[..m]) > limit
  }

  ghost predicate PackedOf(messages: seq<Json>, limit: int, preferTail: bool, show: Json -> string, steps: seq<Json>,
                           kept: nat, packed: seq<Json>) {
    && |steps| == |messages| && (forall i | 0 <= i < |messages| :: StepTold(messages[i], show, steps[i]))
    && KeepsMost(steps, limit, preferTail, kept) && PacksWell(steps, limit, preferTail, kept, packed)
  }

  lemma KeptIsMost(steps: seq<Json>, limit: int, preferTail: bool)
    ensures KeepsMost(steps, limit, preferTail, LongestFit(steps, |steps|, limit, preferTail))
  {
    hide ListLength, LongestFit;
    var kept := LongestFit(steps, |steps|, limit, preferTail);
    if preferTail {
      forall d | 0 <= d < |steps| - kept ensures ListLength(steps[d..]) > limit {
        assert ListLength(Window(steps, |steps| - d, preferTail)) > limit;
      }
    } else {
      forall m | kept < m <= |steps| ensures ListLength(steps[..m]) > limit {
        assert ListLength(Window(steps, m, preferTail)) > limit;
      }
    }
  }

  lemma StepsPack(messages: seq<Json>, limit: int, preferTail: bool, show: Json -> string)
    ensures var steps := Steps(messages, show); var kept := LongestFit(steps, |steps|, limit, preferTail);
            PackedOf(messages, limit, preferTail, show, steps, kept, Packed(steps, limit, preferTail))
  {
    var steps := Steps(messages, show);
    hide StepTold, StepOf, PacksWell, Packed, ListLength;
    forall i | 0 <= i < |messages| ensures StepTold(messages[i], show, steps[i]) {
      StepIsTold(messages[i], show);
    }
    PackedPacksWell(steps, limit, preferTail);
    KeptIsMost(steps, limit, preferTail);
  }

  /** Main result: what a formatted trace shows. A list of messages becomes as many of their steps as fit, from the
      preferred end, and the remark about the others; anything else its JSON, cut to the limit; no trace nothing. */
  lemma FormattedTells(trace: Option<Json>, limit: int, preferTail: bool, show: Json -> string)
    requires limit >= 1
    ensures trace == None ==> Formatted(trace, limit, preferTail, show) == Str("")
    ensures trace.Some? ==> forall messages | ListedIn(trace.value, messages) ::
              exists steps, kept, packed ::
                && Formatted(trace, limit, preferTail, show) == Arr(packed)
                && PackedOf(messages, limit, preferTail, show, steps, kept, packed)
    ensures trace.Some? && (forall messages :: !ListedIn(trace.value, messages)) ==>
              exists text ::
                Formatted(trace, limit, preferTail, show) == Str(text) && CutTo(Dumps(trace.value), text, limit)
  {
    if trace.Some? {
      MessagesAreListed(trace.value);
      if MessagesOf(trace.value).Some? {
        var messages := MessagesOf(trace.value).value;
        var steps := Steps(messages, show);
        var kept := LongestFit(steps, |steps|, limit, preferTail);
        StepsPack(messages, limit, preferTail, show);
        hide *;
      } else {
        ClipCuts(Dumps(trace.value), limit);
        hide Clip, CutTo, Dumps, ListedIn, MessagesOf;
      }
    }
  }

  // ---- fit_context_budget ----

  /** The entry as it competes for the remaining room: an over-long trace becomes a clipped text. */
  function Shortened(entry: Record, remaining: int): Record {
    if |Dumps(entry)| > remaining && Has(entry, "trace")
    then Set(entry, "trace", Str(Clip(Dumps(Get(entry, "trace")), Max(80, remaining - 160))))
    else entry
  }

  /** Whether and in which form the next entry joins those already kept. */
  function Admit(fitted: seq<Record>, entry: Record, budget: int): Option<Record> {
    var remaining := budget - ListLength(fitted);
    if remaining <= 80 then None
    else
      var candidate := Shortened(entry, remaining);
      if ListLength(fitted + [candidate]) <= budget then Some(candidate) else None
  }

  function Fitted(context: seq<Record>, budget: int): (r: seq<Record>)
    ensures |r| <= |context|
  {
    if context == [] then []
    else
      var before := Fitted(context[..|context| - 1], budget);
      var next := Admit(before, context[|context| - 1], budget);
      if next.Some? then before + [next.value] else before
  }

  function OmittedTasks(count: nat): Record {
    Note(Decimal(count) + " task context(s) omitted by section budget")
  }

  function WithNote(fitted: seq<Record>, omitted: nat, budget: int): seq<Record> {
    if omitted > 0 && ListLength(fitted + [OmittedTasks(omitted)]) <= budget
    then fitted + [OmittedTasks(omitted)] else fitted
  }

  lemma FittedStep(context: seq<Record>, i: nat, budget: int)
    requires i < |context|
    ensures var before := Fitted(context[..i], budget); var next := Admit(before, context[i], budget);
            Fitted(context[..i + 1], budget) == if next.Some? then before + [next.value] else before
  {
    assert context[..i + 1][..i] == context[..i];
    hide Admit;
  }

  lemma NothingFitted(budget: int)
    ensures Fitted([], budget) == []
  {
  }

  /** `fit_context_budget`. */
  method FitContextBudget(context: seq<Record>, budget: int) returns (result: seq<Record>)
    ensures budget <= 2 ==> result == []
    ensures budget > 2 ==> var kept := Fitted(context, budget);
                           result == WithNote(kept, |context| - |kept|, budget)
  {
    hide ListLength, Set, OmittedTasks, Fitted, Dumps, Has, Clip;
    if budget <= 2 {
      return [];
    }
    var fitted: seq<Record> := [];
    var omitted := 0;
    NothingFitted(budget);
    for i := 0 to |context|
      invariant fitted == Fitted(context[..i], budget)
      invariant omitted == i - |fitted|
    {
      FittedStep(context, i, budget);
      var remaining := budget - ListLength(fitted);
      if remaining <= 80 {
        omitted := omitted + 1;
      } else {
        var candidate := context[i];
        if |Dumps(candidate)| > remaining && Has(candidate, "trace") {
          candidate := Set(candidate, "trace", Str(Clip(Dumps(Get(candidate, "trace")), Max(80, remaining - 160))));
        }
        if ListLength(fitted + [candidate]) <= budget {
          fitted := fitted + [candidate];
        } else {
          omitted := omitted + 1;
        }
      }
    }
    assert context[..|context|] == context;
    result := fitted;
    if omitted > 0 {
      var note := OmittedTasks(omitted);
      if ListLength(fitted + [note]) <= budget {
        result := fitted + [note];
      }
    }
  }

  lemma {:induction false} FittedIsWithin(context: seq<Record>, budget: int)
    requires budget >= 2
    ensures ListLength(Fitted(context, budget)) <= budget
  {
    ListLengthIsWeight([]);
    if context != [] {
      FittedIsWithin(context[..|context| - 1], budget);
    }
  }

  /** Whatever the context, the section stays within any budget that admits the empty list. */
  lemma SectionIsWithinBudget(context: seq<Record>, budget: int)
    requires budget > 2
    ensures var kept := Fitted(context, budget);
            ListLength(WithNote(kept, |context| - |kept|, budget)) <= budget
  {
    FittedIsWithin(context, budget);
  }

  /** A record with every trace replaced by a text. */
  predicate WithTraceText(given: Record, text: string, entry: Record) {
    && |entry.fields| == |given.fields|
    && forall i | 0 <= i < |given.fields| ::
         entry.fields[i] == if given.fields[i].0 == "trace" then ("trace", Str(text)) else given.fields[i]
  }

  /** How a record may enter a section that has this much room left: as it is, or, when its JSON is longer than the room
      and it has a trace, with the JSON of that trace as a text, cut to the room less a reserve. */
  ghost predicate EntersAs(given: Record, entry: Record, room: int) {
    if |Dumps(given)| <= room || !Has(given, "trace") then entry == given
    else exists text ::
           CutTo(Dumps(Get(given, "trace")), text, Max(80, room - 160)) && WithTraceText(given, text, entry)
  }

  lemma ShortenedEnters(given: Record, room: int)
    ensures EntersAs(given, Shortened(given, room), room)
  {
    hide Dumps;
    if |Dumps(given)| > room && Has(given, "trace") {
      var full, limit := Dumps(Get(given, "trace")), Max(80, room - 160);
      ClipCuts(full, limit);
      var text := Clip(full, limit);
      hide Clip, CutTo;
      assert WithTraceText(given, text, Shortened(given, room));
    }
  }

  lemma CutsOneWay(full: string, s: string, t: string, limit: int)
    requires CutTo(full, s, limit) && CutTo(full, t, limit)
    ensures s == t
  {
    if |full| > limit {
      assert s == s[..limit - 1] + [s[limit - 1]] && t == t[..limit - 1] + [t[limit - 1]];
      assert s[..limit - 1] == full[..limit - 1] == t[..limit - 1];
    }
  }

  /** There is only one way to enter. */
  lemma EntersOneWay(given: Record, a: Record, b: Record, room: int)
    requires EntersAs(given, a, room) && EntersAs(given, b, room)
    ensures a == b
  {
    if |Dumps(given)| > room && Has(given, "trace") {
      var full, limit := Dumps(Get(given, "trace")), Max(80, room - 160);
      var s :| CutTo(full, s, limit) && WithTraceText(given, s, a);
      var t :| CutTo(full, t, limit) && WithTraceText(given, t, b);
      CutsOneWay(full, s, t, limit);
      hide CutTo, Dumps, Has;
      assert a.fields == b.fields;
    }
  }

  /** The places of the context whose records are kept. */
  function KeptPlaces(context: seq<Record>, budget: int): (places: seq<nat>)
    ensures |places| == |Fitted(context, budget)|
    ensures forall m | 0 <= m < |places| :: places[m] < |context|
    ensures forall l, m | 0 <= l < m < |places| :: places[l] < places[m]
  {
    if context == [] then []
    else
      var init := context[..|context| - 1];
      KeptPlaces(init, budget)
      + if Admit(Fitted(init, budget), context[|context| - 1], budget).Some? then [|init|] else []
  }

  /** Nothing enters behind the records kept so far: the room is used up, or the record in its form does not fit. */
  ghost predicate NoEntry(kept: seq<Record>, given: Record, budget: int) {
    var room := budget - ListLength(kept);
    room <= 80 || forall entry :: EntersAs(given, entry, room) ==> ListLength(kept + [entry]) > budget
  }

  /** The m-th record kept entered behind the ones before it. */
  ghost predicate EnteredAt(context: seq<Record>, budget: int, places: seq<nat>, kept: seq<Record>, m: nat)
    requires m < |kept| == |places|
  {
    var room := budget - ListLength(kept[..m]);
    && places[m] < |context| && room > 80 && EntersAs(context[places[m]], kept[m], room)
    && ListLength(kept[..m + 1]) <= budget
  }

  /** The i-th record did not enter, when `m` were kept. */
  ghost predicate OmittedAt(context: seq<Record>, budget: int, places: seq<nat>, kept: seq<Record>, i: nat, m: nat)
    requires i < |context|
  {
    && m <= |kept| && (forall l | 0 <= l < |places| :: places[l] < i <==> l < m)
    && NoEntry(kept[..m], context[i], budget)
  }

  /** The records kept are those at these places, in order, each in the form in which it entered behind the ones before
      it; at every other place nothing entered. */
  ghost predicate KeepsAt(context: seq<Record>, budget: int, places: seq<nat>, kept: seq<Record>) {
    && |places| == |kept| && (forall l, m | 0 <= l < m < |places| :: places[l] < places[m])
    && (forall m | 0 <= m < |kept| :: EnteredAt(context, budget, places, kept, m))
    && (forall i | 0 <= i < |context| && i !in places ::
          exists m: nat :: OmittedAt(context, budget, places, kept, i, m))
  }

  lemma AdmitEnters(kept: seq<Record>, given: Record, budget: int)
    ensures var room := budget - ListLength(kept); var next := Admit(kept, given, budget);
      && (next.Some? ==> room > 80 && EntersAs(given, next.value, room) && ListLength(kept + [next.value]) <= budget)
      && (next.None? ==> NoEntry(kept, given, budget))
  {
    var room := budget - ListLength(kept);
    ShortenedEnters(given, room);
    if Admit(kept, given, budget).None? && room > 80 {
      forall entry | EntersAs(given, entry, room) ensures ListLength(kept + [entry]) > budget {
        EntersOneWay(given, entry, Shortened(given, room), room);
      }
    }
    hide ListLength, EntersAs, Shortened;
  }

  /** One more record at the end that does not enter. */
  lemma OmitsOneMore(context: seq<Record>, budget: int, places: seq<nat>, kept: seq<Record>, last: Record)
    requires KeepsAt(context, budget, places, kept) && NoEntry(kept, last, budget)
    ensures KeepsAt(context + [last], budget, places, kept)
  {
    var longer := context + [last];
    hide NoEntry, EntersAs, ListLength;
    forall m | 0 <= m < |kept| ensures EnteredAt(longer, budget, places, kept, m) {
      assert EnteredAt(context, budget, places, kept, m);
    }
    forall i | 0 <= i < |longer| && i !in places
      ensures exists m: nat :: OmittedAt(longer, budget, places, kept, i, m)
    {
      if i < |context| {
        var m: nat :| OmittedAt(context, budget, places, kept, i, m);
        assert OmittedAt(longer, budget, places, kept, i, m);
      } else {
        assert kept[..|kept|] == kept;
        forall l | 0 <= l < |places| ensures places[l] < i {
          assert EnteredAt(context, budget, places, kept, l);
        }
        assert OmittedAt(longer, budget, places, kept, i, |kept|);
      }
    }
  }

  /** One more record at the end that does. */
  lemma KeepsOneMore(context: seq<Record>, budget: int, places: seq<nat>, kept: seq<Record>, last: Record, next: Record)
    requires KeepsAt(context, budget, places, kept)
    requires budget - ListLength(kept) > 80 && EntersAs(last, next, budget - ListLength(kept))
    requires ListLength(kept + [next]) <= budget
    ensures KeepsAt(context + [last], budget, places + [|context|], kept + [next])
  {
    var longer, places', kept' := context + [last], places + [|context|], kept + [next];
    hide NoEntry, EntersAs, ListLength;
    forall m | 0 <= m < |kept| ensures EnteredAt(longer, budget, places', kept', m) && places[m] < |context| {
      assert EnteredAt(context, budget, places, kept, m);
      assert kept'[..m] == kept[..m] && kept'[..m + 1] == kept[..m + 1];
    }
    assert kept'[..|kept|] == kept && kept'[..|kept| + 1] == kept';
    assert EnteredAt(longer, budget, places', kept', |kept|);
    assert places'[|places|] == |context|;
    forall i | 0 <= i < |longer| && i !in places'
      ensures exists m: nat :: OmittedAt(longer, budget, places', kept', i, m)
    {
      assert i < |context| && i !in places;
      var m: nat :| OmittedAt(context, budget, places, kept, i, m);
      assert kept'[..m] == kept[..m];
      assert OmittedAt(longer, budget, places', kept', i, m);
    }
  }

  lemma NothingKept(budget: int)
    ensures KeepsAt([], budget, KeptPlaces([], budget), Fitted([], budget))
  {
    hide ListLength, EntersAs, NoEntry;
  }

  lemma KeptStep(init: seq<Record>, last: Record, budget: int)
    ensures var places, kept := KeptPlaces(init, budget), Fitted(init, budget); var next := Admit(kept, last, budget);
      && KeptPlaces(init + [last], budget) == (if next.Some? then places + [|init|] else places)
      && Fitted(init + [last], budget) == (if next.Some? then kept + [next.value] else kept)
  {
    hide Admit;
    assert (init + [last])[..|init|] == init;
  }

  /** Main result: what is kept and what is not, record by record. */
  lemma {:induction false} FittedKeepsAt(context: seq<Record>, budget: int)
    ensures KeepsAt(context, budget, KeptPlaces(context, budget), Fitted(context, budget))
  {
    hide *;
    if context == [] {
      NothingKept(budget);
    } else {
      var init, last := context[..|context| - 1], context[|context| - 1];
      var places, kept := KeptPlaces(init, budget), Fitted(init, budget);
      var next := Admit(kept, last, budget);
      FittedKeepsAt(init, budget);
      AdmitEnters(kept, last, budget);
      KeptStep(init, last, budget);
      assert context == init + [last];
      if next.Some? {
        KeepsOneMore(init, budget, places, kept, last, next.value);
      } else {
        OmitsOneMore(init, budget, places, kept, last);
      }
    }
  }

  /** The section is what is kept, and behind it at most one remark, which counts the rest and stands there exactly when
      something is missing and the remark fits. */
  lemma SectionIsKeptAndNote(context: seq<Record>, budget: int)
    ensures var kept := Fitted(context, budget); var missing := |context| - |kept|;
            var note := Obj([("_note", Str(Decimal(missing) + " task context(s) omitted by section budget"))]);
            WithNote(kept, missing, budget)
            == if missing > 0 && ListLength(kept + [note]) <= budget then kept + [note] else kept
  {
    hide ListLength, Fitted;
  }

  predicate SameButTrace(a: Record, b: Record) {
    && |a.fields| == |b.fields|
    && forall i | 0 <= i < |a.fields| :: a.fields[i].0 == b.fields[i].0
                                         && (a.fields[i].0 != "trace" ==> a.fields[i] == b.fields[i])
  }

  /** The kept records are a selection of the context, in order, altered at most in their traces. */
  predicate SelectedFrom(kept: seq<Record>, context: seq<Record>) {
    if context == [] then kept == []
    else
      var init := context[..|context| - 1];
      || SelectedFrom(kept, init)
      || (kept != [] && SameButTrace(kept[|kept| - 1], context[|context| - 1])
          && SelectedFrom(kept[..|kept| - 1], init))
  }

  lemma {:induction false} FittedSelects(context: seq<Record>, budget: int)
    ensures SelectedFrom(Fitted(context, budget), context)
  {
    if context != [] {
      var init, entry := context[..|context| - 1], context[|context| - 1];
      var before := Fitted(init, budget);
      FittedSelects(init, budget);
      var next := Admit(before, entry, budget);
      if next.Some? {
        assert SameButTrace(next.value, entry);
        assert (before + [next.value])[..|before|] == before;
      }
    }
  }

  /** Every record still finds more than the reserve of eighty characters when its turn comes. */
  predicate EnoughSlack(context: seq<Record>, budget: int) {
    forall i | 0 <= i < |context| :: budget - ListLength(context[..i]) > 80
  }

  /** Within the budget and the reserve the next entry is admitted as it is. */
  lemma AdmitsUnchanged(fitted: seq<Record>, entry: Record, budget: int)
    requires budget - ListLength(fitted) > 80 && ListLength(fitted + [entry]) <= budget
    ensures Admit(fitted, entry, budget) == Some(entry)
  {
    ListLengthIsWeight(fitted);
    ListLengthIsWeight(fitted + [entry]);
    WeightOfJoin(fitted, [entry]);
    assert Weight([entry]) == |Dumps(entry)| + 2;
  }

  /** The records are all kept as they are exactly when all of it fits and no proper prefix eats into the reserve. */
  lemma {:induction false} KeepsEverythingIff(context: seq<Record>, budget: int)
    requires budget > 2
    ensures Fitted(context, budget) == context <==> ListLength(context) <= budget && EnoughSlack(context, budget)
  {
    if context == [] {
      ListLengthIsWeight(context);
    } else {
      var init, entry := context[..|context| - 1], context[|context| - 1];
      KeepsEverythingIff(init, budget);
      assert context == init + [entry] && context[..|init|] == init;
      assert forall i | 0 <= i < |init| :: context[..i] == init[..i];
      ListLengthGrows(init, [entry]);
      assert EnoughSlack(context, budget) <==> EnoughSlack(init, budget) && budget - ListLength(init) > 80;
      if ListLength(context) <= budget && EnoughSlack(context, budget) {
        AdmitsUnchanged(init, entry, budget);
      }
      assert Fitted(context, budget) == context ==> Fitted(init, budget) == init;
    }
  }

  /** The one context whose last record is dropped and comes back as the remark about it: it ends in that very
      remark, and only this last record finds the reserve used up. */
  predicate EndsInItsNote(context: seq<Record>, budget: int) {
    context != [] && context[|context| - 1] == OmittedTasks(1) && EnoughSlack(context[..|context| - 1], budget)
  }

  lemma NoteIsAdmittedAsItIs(fitted: seq<Record>, count: nat, budget: int)
    ensures Admit(fitted, OmittedTasks(count), budget).Some? ==>
              Admit(fitted, OmittedTasks(count), budget) == Some(OmittedTasks(count))
  {
    hide ListLength, Dumps;
  }

  /** A remark that was not admitted once is not admitted later. */
  lemma {:induction false} NoLateNote(context: seq<Record>, budget: int)
    requires context != [] && Fitted(context, budget) + [OmittedTasks(1)] == context
    ensures Admit(Fitted(context, budget), OmittedTasks(1), budget).None?
  {
    var init, note := context[..|context| - 1], OmittedTasks(1);
    var before := Fitted(init, budget);
    assert context[|context| - 1] == note && Fitted(context, budget) == init;
    NoteIsAdmittedAsItIs(before, 1, budget);
    hide Admit, OmittedTasks;
    if Admit(before, note, budget).Some? {
      assert before + [note] == init;
      NoLateNote(init, budget);
    }
  }

  lemma DroppedOnlyItsNote(context: seq<Record>, budget: int)
    requires context != [] && Fitted(context, budget) + [OmittedTasks(1)] == context
    ensures Fitted(context[..|context| - 1], budget) == context[..|context| - 1]
  {
    var init, note := context[..|context| - 1], OmittedTasks(1);
    assert context[|context| - 1] == note && Fitted(context, budget) == init;
    NoteIsAdmittedAsItIs(Fitted(init, budget), 1, budget);
    hide Admit, OmittedTasks;
    if Admit(Fitted(init, budget), note, budget).Some? {
      NoLateNote(init, budget);
    }
  }

  lemma PrefixSlack(context: seq<Record>, budget: int)
    requires context != []
    ensures EnoughSlack(context, budget)
       <==> EnoughSlack(context[..|context| - 1], budget) && budget - ListLength(context[..|context| - 1]) > 80
    ensures ListLength(context[..|context| - 1]) <= ListLength(context)
  {
    var init := context[..|context| - 1];
    assert forall i | 0 <= i < |init| :: context[..i] == init[..i];
    assert context == init + [context[|context| - 1]];
    ListLengthGrows(init, [context[|context| - 1]]);
    hide ListLength;
  }

  lemma ReturnsItsNote(context: seq<Record>, budget: int)
    requires budget > 2 && EndsInItsNote(context, budget)
    requires ListLength(context) <= budget && !EnoughSlack(context, budget)
    ensures Fitted(context, budget) == context[..|context| - 1]
    ensures WithNote(Fitted(context, budget), 1, budget) == context
  {
    var init := context[..|context| - 1];
    PrefixSlack(context, budget);
    KeepsEverythingIff(init, budget);
    assert init + [OmittedTasks(1)] == context;
    hide ListLength, OmittedTasks, EnoughSlack;
  }

  /** Main result: the section is the context itself exactly when all of it fits and either no proper prefix eats into
      the reserve, or only the last record finds the reserve used up and is the remark that replaces it. */
  lemma SectionPassesUntouchedIff(context: seq<Record>, budget: int)
    requires budget > 2
    ensures WithNote(Fitted(context, budget), |context| - |Fitted(context, budget)|, budget) == context
       <==> ListLength(context) <= budget && (EnoughSlack(context, budget) || EndsInItsNote(context, budget))
  {
    hide ListLength, OmittedTasks, EnoughSlack, Fitted;
    var kept := Fitted(context, budget);
    var section := WithNote(kept, |context| - |kept|, budget);
    KeepsEverythingIff(context, budget);
    SectionIsWithinBudget(context, budget);
    if section == context && kept != context {
      DroppedOnlyItsNote(context, budget);
      KeepsEverythingIff(context[..|context| - 1], budget);
    } else if ListLength(context) <= budget && !EnoughSlack(context, budget) && EndsInItsNote(context, budget) {
      ReturnsItsNote(context, budget);
    }
  }
}
