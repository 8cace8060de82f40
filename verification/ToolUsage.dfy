/** src/aec_bench/adapters/tool_loop.py (usage and payloads), advisor_usage.py and the advisor
    tool of tool_loop_local.py: totals are reported only when they are exact. */
module ToolUsage {
  import opened Results
  import opened Json
  import opened Ordering

  // ---------------------------------------------------------------------------- responses

  datatype ToolCall = ToolCall(id: string, name: string, arguments: Fields)

  datatype FailureKind =
    | ProviderError | TurnLimitReached | TokenBudgetReached | SubcallLimitReached
    | CostBudgetReached | BillableInputBudgetReached | ContextLimitReached
    | ToolCallLimitReached | Timeout | UndeclaredToolRequest | ToolExecutionFailed | MissingOutput

  datatype Response = Response(
    outputText: string,
    toolCall: Option<ToolCall>,
    errorMessage: Option<string>,
    failureKind: Option<FailureKind>,
    modelCalls: Option<int>,
    inputTokens: Option<int>,
    outputTokens: Option<int>,
    cacheReadTokens: Option<int>,
    cacheWriteTokens: Option<int>,
    maximumInput: Option<int>,
    maximumOutput: Option<int>,
    timedOut: bool,
    done: bool)

  // ----------------------------------------------------------------- exact sums and maxima

  ghost predicate AllReported(observed: seq<Option<int>>) {
    forall i :: 0 <= i < |observed| ==> observed[i].Some?
  }

  /** The sum of what was reported. */
  function Sum(observed: seq<Option<int>>): int {
    if observed == [] then 0
    else Sum(observed[..|observed| - 1]) + observed[|observed| - 1].GetOr(0)
  }

  /** No reported value is above m, and m is zero or reported. */
  ghost predicate IsMaximum(observed: seq<Option<int>>, m: int) {
    && m >= 0
    && (forall v :: Some(v) in observed ==> v <= m)
    && (m == 0 || Some(m) in observed)
  }

  /** What may be reported as a total: the sum when every response reported the dimension. */
  ghost predicate ExactTotal(observed: seq<Option<int>>, reported: Option<int>) {
    reported == if AllReported(observed) then Some(Sum(observed)) else None
  }

  ghost predicate ExactMaximum(observed: seq<Option<int>>, reported: Option<int>) {
    && (reported.Some? <==> AllReported(observed))
    && (reported.Some? ==> IsMaximum(observed, reported.value))
  }

  // ------------------------------------------------------------------ the pure accumulators

  /** A running figure and whether every response so far has reported it. */
  datatype Counter = Counter(figure: int, complete: bool)

  function RecordOptionalUsage(c: Counter, observed: Option<int>): Counter {
    if observed.None? then Counter(c.figure, false) else Counter(c.figure + observed.value, c.complete)
  }

  function RecordOptionalMaximum(c: Counter, observed: Option<int>): Counter {
    if observed.None? then Counter(c.figure, false)
    else Counter(if c.figure < observed.value then observed.value else c.figure, c.complete)
  }

  function CompleteUsage(c: Counter): Option<int> {
    if c.complete then Some(c.figure) else None
  }

  /** The counter tracks the sum of one dimension of the responses recorded so far. */
  ghost predicate Totals(observed: seq<Option<int>>, c: Counter) {
    c.figure == Sum(observed) && (c.complete <==> AllReported(observed))
  }

  ghost predicate Maxima(observed: seq<Option<int>>, c: Counter) {
    IsMaximum(observed, c.figure) && (c.complete <==> AllReported(observed))
  }

  lemma RecordKeepsTotals(observed: seq<Option<int>>, c: Counter, next: Option<int>)
    requires Totals(observed, c)
    ensures Totals(observed + [next], RecordOptionalUsage(c, next))
  {
    TotalAppend(observed, next);
  }

  lemma RecordKeepsMaxima(observed: seq<Option<int>>, c: Counter, next: Option<int>)
    requires Maxima(observed, c)
    ensures Maxima(observed + [next], RecordOptionalMaximum(c, next))
  {
    TotalAppend(observed, next);
    assert forall x :: x in observed + [next] <==> x in observed || x == next;
  }

  lemma TotalAppend(observed: seq<Option<int>>, next: Option<int>)
    ensures Sum(observed + [next]) == Sum(observed) + next.GetOr(0)
    ensures AllReported(observed + [next]) <==> AllReported(observed) && next.Some?
  {
    var longer := observed + [next];
    assert longer[..|longer| - 1] == observed;
    assert forall i :: 0 <= i < |observed| ==> longer[i] == observed[i];
    assert longer[|observed|] == next;
  }

  // -------------------------------------------------------------------- the run's usage object

  datatype Dimension =
    | ModelCalls | InputTokens | OutputTokens | CacheReadTokens | CacheWriteTokens | MaximumInput | MaximumOutput

  function Measure(d: Dimension, r: Response): Option<int> {
    match d
    case ModelCalls => r.modelCalls
    case InputTokens => r.inputTokens
    case OutputTokens => r.outputTokens
    case CacheReadTokens => r.cacheReadTokens
    case CacheWriteTokens => r.cacheWriteTokens
    case MaximumInput => r.maximumInput
    case MaximumOutput => r.maximumOutput
  }

  function Observed(d: Dimension, history: seq<Response>): seq<Option<int>> {
    seq(|history|, i requires 0 <= i < |history| => Measure(d, history[i]))
  }

  datatype UsageReport = UsageReport(
    modelCalls: Option<int>,
    inputTokens: Option<int>,
    outputTokens: Option<int>,
    cacheReadTokens: Option<int>,
    cacheWriteTokens: Option<int>,
    maximumInput: Option<int>,
    maximumOutput: Option<int>)

  /** Every figure of the report is exact for the given responses, or absent. */
  ghost predicate ExactReport(history: seq<Response>, u: UsageReport) {
    && ExactTotal(Observed(ModelCalls, history), u.modelCalls)
    && ExactTotal(Observed(InputTokens, history), u.inputTokens)
    && ExactTotal(Observed(OutputTokens, history), u.outputTokens)
    && ExactTotal(Observed(CacheReadTokens, history), u.cacheReadTokens)
    && ExactTotal(Observed(CacheWriteTokens, history), u.cacheWriteTokens)
    && ExactMaximum(Observed(MaximumInput, history), u.maximumInput)
    && ExactMaximum(Observed(MaximumOutput, history), u.maximumOutput)
  }

  lemma TotalsAfter(d: Dimension, history: seq<Response>, r: Response, c: Counter)
    requires Totals(Observed(d, history), c)
    ensures Totals(Observed(d, history + [r]), RecordOptionalUsage(c, Measure(d, r)))
  {
    assert Observed(d, history + [r]) == Observed(d, history) + [Measure(d, r)];
    RecordKeepsTotals(Observed(d, history), c, Measure(d, r));
  }

  lemma MaximaAfter(d: Dimension, history: seq<Response>, r: Response, c: Counter)
    requires Maxima(Observed(d, history), c)
    ensures Maxima(Observed(d, history + [r]), RecordOptionalMaximum(c, Measure(d, r)))
  {
    assert Observed(d, history + [r]) == Observed(d, history) + [Measure(d, r)];
    RecordKeepsMaxima(Observed(d, history), c, Measure(d, r));
  }

  /** `_ToolLoopUsage`; each total and its completeness flag are kept together. */
  class ToolLoopUsage {
    var modelCalls: Counter
    var inputTokens: Counter
    var outputTokens: Counter
    var cacheReadTokens: Counter
    var cacheWriteTokens: Counter
    var maximumInput: Counter
    var maximumOutput: Counter
    ghost var history: seq<Response>

    ghost predicate Valid()
      reads this
    {
      && Totals(Observed(ModelCalls, history), modelCalls)
      && Totals(Observed(InputTokens, history), inputTokens)
      && Totals(Observed(OutputTokens, history), outputTokens)
      && Totals(Observed(CacheReadTokens, history), cacheReadTokens)
      && Totals(Observed(CacheWriteTokens, history), cacheWriteTokens)
      && Maxima(Observed(MaximumInput, history), maximumInput)
      && Maxima(Observed(MaximumOutput, history), maximumOutput)
    }

    constructor ()
      ensures Valid() && history == []
    {
      var zero := Counter(0, true);
      modelCalls, inputTokens, outputTokens, cacheReadTokens, cacheWriteTokens := zero, zero, zero, zero, zero;
      maximumInput, maximumOutput := zero, zero;
      history := [];
    }

    method Record(response: Response)
      requires Valid()
      modifies this
      ensures Valid() && history == old(history) + [response]
    {
      hide Totals, Maxima, Observed, RecordOptionalUsage, RecordOptionalMaximum;
      TotalsAfter(ModelCalls, history, response, modelCalls);
      TotalsAfter(InputTokens, history, response, inputTokens);
      TotalsAfter(OutputTokens, history, response, outputTokens);
      TotalsAfter(CacheReadTokens, history, response, cacheReadTokens);
      TotalsAfter(CacheWriteTokens, history, response, cacheWriteTokens);
      MaximaAfter(MaximumInput, history, response, maximumInput);
      MaximaAfter(MaximumOutput, history, response, maximumOutput);
      modelCalls := RecordOptionalUsage(modelCalls, response.modelCalls);
      inputTokens := RecordOptionalUsage(inputTokens, response.inputTokens);
      outputTokens := RecordOptionalUsage(outputTokens, response.outputTokens);
      cacheReadTokens := RecordOptionalUsage(cacheReadTokens, response.cacheReadTokens);
      cacheWriteTokens := RecordOptionalUsage(cacheWriteTokens, response.cacheWriteTokens);
      maximumInput := RecordOptionalMaximum(maximumInput, response.maximumInput);
      maximumOutput := RecordOptionalMaximum(maximumOutput, response.maximumOutput);
      history := history + [response];
    }

    /** The figures that `_build_result` copies into the result. */
    method Report() returns (u: UsageReport)
      requires Valid()
      ensures ExactReport(history, u)
    {
      hide Observed;
      u := UsageReport(
        CompleteUsage(modelCalls), CompleteUsage(inputTokens), CompleteUsage(outputTokens),
        CompleteUsage(cacheReadTokens), CompleteUsage(cacheWriteTokens),
        CompleteUsage(maximumInput), CompleteUsage(maximumOutput));
    }
  }

  /** A total after one more response: known exactly if it was and the response reports the
      dimension, and then more by what that reports. */
  ghost predicate TotalGrows(before: Option<int>, reported: Option<int>, after: Option<int>) {
    after == if before.Some? && reported.Some? then Some(before.value + reported.value) else None
  }

  ghost predicate MaximumGrows(before: Option<int>, reported: Option<int>, after: Option<int>) {
    after == if before.Some? && reported.Some? then
               Some(if before.value < reported.value then reported.value else before.value)
             else None
  }

  /** What an exact report says, response by response and figure by figure. */
  lemma ReportGrows(history: seq<Response>, r: Response, before: UsageReport, after: UsageReport)
    requires ExactReport(history, before) && ExactReport(history + [r], after)
    ensures TotalGrows(before.modelCalls, r.modelCalls, after.modelCalls)
    ensures TotalGrows(before.inputTokens, r.inputTokens, after.inputTokens)
    ensures TotalGrows(before.outputTokens, r.outputTokens, after.outputTokens)
    ensures TotalGrows(before.cacheReadTokens, r.cacheReadTokens, after.cacheReadTokens)
    ensures TotalGrows(before.cacheWriteTokens, r.cacheWriteTokens, after.cacheWriteTokens)
    ensures MaximumGrows(before.maximumInput, r.maximumInput, after.maximumInput)
    ensures MaximumGrows(before.maximumOutput, r.maximumOutput, after.maximumOutput)
  {
    hide ExactTotal, ExactMaximum, TotalGrows, MaximumGrows, Observed;
    forall d | true
      ensures Observed(d, history + [r]) == Observed(d, history) + [Measure(d, r)]
    {
      ObservedNext(d, history, r);
    }
    TotalStep(Observed(ModelCalls, history), r.modelCalls, before.modelCalls, after.modelCalls);
    TotalStep(Observed(InputTokens, history), r.inputTokens, before.inputTokens, after.inputTokens);
    TotalStep(Observed(OutputTokens, history), r.outputTokens, before.outputTokens, after.outputTokens);
    TotalStep(Observed(CacheReadTokens, history), r.cacheReadTokens, before.cacheReadTokens, after.cacheReadTokens);
    TotalStep(Observed(CacheWriteTokens, history), r.cacheWriteTokens, before.cacheWriteTokens, after.cacheWriteTokens);
    MaximumStep(Observed(MaximumInput, history), r.maximumInput, before.maximumInput, after.maximumInput);
    MaximumStep(Observed(MaximumOutput, history), r.maximumOutput, before.maximumOutput, after.maximumOutput);
  }

  lemma ObservedNext(d: Dimension, history: seq<Response>, r: Response)
    ensures Observed(d, history + [r]) == Observed(d, history) + [Measure(d, r)]
  {
  }

  lemma TotalStep(observed: seq<Option<int>>, next: Option<int>, before: Option<int>, after: Option<int>)
    requires ExactTotal(observed, before) && ExactTotal(observed + [next], after)
    ensures TotalGrows(before, next, after)
  {
    hide Sum, AllReported;
    TotalAppend(observed, next);
  }

  lemma MaximumStep(observed: seq<Option<int>>, next: Option<int>, before: Option<int>, after: Option<int>)
    requires ExactMaximum(observed, before) && ExactMaximum(observed + [next], after)
    ensures MaximumGrows(before, next, after)
  {
    TotalAppend(observed, next);
    hide AllReported;
    var longer := observed + [next];
    assert forall x :: x in longer <==> x in observed || x == next;
  }

  /** Before the first response every figure is known to be zero. */
  lemma ReportStarts(u: UsageReport)
    requires ExactReport([], u)
    ensures u == UsageReport(Some(0), Some(0), Some(0), Some(0), Some(0), Some(0), Some(0))
  {
    assert Observed(ModelCalls, []) == [] && Observed(InputTokens, []) == [] && Observed(OutputTokens, []) == [];
    assert Observed(CacheReadTokens, []) == [] && Observed(CacheWriteTokens, []) == [];
    assert Observed(MaximumInput, []) == [] && Observed(MaximumOutput, []) == [];
  }

  // ------------------------------------------------------------------------- advisor usage

  datatype Tokens = Tokens(input: int, output: int)

  function InputsOf(outcomes: seq<Option<Tokens>>): seq<Option<int>> {
    seq(|outcomes|, i requires 0 <= i < |outcomes| =>
          if outcomes[i].Some? then Some(outcomes[i].value.input) else None)
  }

  function OutputsOf(outcomes: seq<Option<Tokens>>): seq<Option<int>> {
    seq(|outcomes|, i requires 0 <= i < |outcomes| =>
          if outcomes[i].Some? then Some(outcomes[i].value.output) else None)
  }

  lemma OutcomesAppend(outcomes: seq<Option<Tokens>>, next: Option<Tokens>)
    ensures InputsOf(outcomes + [next]) == InputsOf(outcomes) + [if next.Some? then Some(next.value.input) else None]
    ensures OutputsOf(outcomes + [next]) == OutputsOf(outcomes) + [if next.Some? then Some(next.value.output) else None]
  {
  }

  class AdvisorUsage {
    var calls: nat
    var inputTokens: Option<int>
    var outputTokens: Option<int>
    /** What each dispatched call came to: its tokens, or nothing when it raised. */
    ghost var outcomes: seq<Option<Tokens>>
    ghost var inFlight: bool

    ghost predicate Valid()
      reads this
    {
      && calls == |outcomes| + (if inFlight then 1 else 0)
      && ExactTotal(InputsOf(outcomes), inputTokens)
      && ExactTotal(OutputsOf(outcomes), outputTokens)
    }

    constructor ()
      ensures Valid() && !inFlight && outcomes == [] && calls == 0
    {
      calls, inputTokens, outputTokens := 0, Some(0), Some(0);
      outcomes, inFlight := [], false;
    }

    method BeginCall()
      requires Valid() && !inFlight
      modifies this
      ensures Valid() && inFlight && outcomes == old(outcomes) && calls == old(calls) + 1
    {
      calls := calls + 1;
      inFlight := true;
    }

    method RecordResult(result: Tokens)
      requires Valid() && inFlight
      modifies this
      ensures Valid() && !inFlight && outcomes == old(outcomes) + [Some(result)] && calls == old(calls)
    {
      OutcomesAppend(outcomes, Some(result));
      TotalAppend(InputsOf(outcomes), Some(result.input));
      TotalAppend(OutputsOf(outcomes), Some(result.output));
      if inputTokens.Some? {
        inputTokens := Some(inputTokens.value + result.input);
      }
      if outputTokens.Some? {
        outputTokens := Some(outputTokens.value + result.output);
      }
      outcomes, inFlight := outcomes + [Some(result)], false;
    }

    method MarkTokensUnknown()
      requires Valid() && inFlight
      modifies this
      ensures Valid() && !inFlight && outcomes == old(outcomes) + [None] && calls == old(calls)
      ensures inputTokens == None && outputTokens == None
    {
      OutcomesAppend(outcomes, None);
      TotalAppend(InputsOf(outcomes), None);
      TotalAppend(OutputsOf(outcomes), None);
      inputTokens, outputTokens := None, None;
      outcomes, inFlight := outcomes + [None], false;
    }

    method Snapshot() returns (s: (int, Option<int>, Option<int>))
      requires Valid()
      ensures s == (calls, inputTokens, outputTokens)
    {
      s := (calls, inputTokens, outputTokens);
    }
  }

  /** Once a dispatch has failed, the totals are unknown for ever. */
  lemma UnknownForEver(outcomes: seq<Option<Tokens>>, more: seq<Option<Tokens>>, reported: Option<int>)
    requires None in outcomes
    requires ExactTotal(InputsOf(outcomes + more), reported) || ExactTotal(OutputsOf(outcomes + more), reported)
    ensures reported == None
  {
    var i :| 0 <= i < |outcomes| && outcomes[i] == None;
    assert (outcomes + more)[i] == None;
    assert InputsOf(outcomes + more)[i] == None && OutputsOf(outcomes + more)[i] == None;
  }

  // ------------------------------------------------------------------------ the advisor tool

  datatype Advice = Advice(advice: string, suggestedAction: string, confidence: real, reasoning: string)

  /** One provider effect: the tokens it used and, unless it is missing, its advice. */
  datatype AdvisorResult = AdvisorResult(response: Option<Advice>, tokens: Tokens)

  /** The answer handed to the model (lines 517-533 and 479-488 of tool_loop.py). */
  datatype AdvisorAnswer = Advised(advice: Advice) | Unavailable | Exhausted(maxUses: int)

  function AnswerOf(result: AdvisorResult): AdvisorAnswer {
    if result.response.Some? then Advised(result.response.value) else Unavailable
  }

  /** `_invoke` and `_handle_advisor_call`: `attempt` is what the provider would do if asked,
      `None` when it raises. */
  method InvokeAdvisor(usage: AdvisorUsage, maxUses: int, attempt: Option<AdvisorResult>)
    returns (answer: Option<AdvisorAnswer>)
    requires usage.Valid() && !usage.inFlight
    modifies usage
    ensures usage.Valid() && !usage.inFlight
    ensures old(usage.calls) >= maxUses ==> answer == Some(Exhausted(maxUses)) && usage.outcomes == old(usage.outcomes)
    ensures old(usage.calls) < maxUses ==>
      && usage.outcomes == old(usage.outcomes) + [if attempt.Some? then Some(attempt.value.tokens) else None]
      && answer == if attempt.Some? then Some(AnswerOf(attempt.value)) else None
    ensures usage.calls <= maxUses || usage.calls == old(usage.calls)
  {
    if usage.calls >= maxUses {
      return Some(Exhausted(maxUses));
    }
    usage.BeginCall();
    if attempt.None? {
      usage.MarkTokensUnknown();
      return None;
    }
    usage.RecordResult(attempt.value.tokens);
    answer := Some(AnswerOf(attempt.value));
  }

  /** `PydanticAiAdvisorTool`, called any number of times in sequence. */
  class AdvisorTool {
    const maxUses: int
    const usage: AdvisorUsage

    /** The budget holds after every run of calls, failed ones included. */
    ghost predicate Valid()
      reads this, usage
    {
      usage.Valid() && !usage.inFlight && usage.calls <= (if maxUses < 0 then 0 else maxUses)
    }

    constructor (maxUses: int)
      ensures Valid() && this.maxUses == maxUses && fresh(usage) && usage.outcomes == []
    {
      this.maxUses := maxUses;
      usage := new AdvisorUsage();
    }

    method Invoke(attempt: Option<AdvisorResult>) returns (answer: Option<AdvisorAnswer>)
      requires Valid()
      modifies usage
      ensures Valid()
      ensures old(usage.calls) >= maxUses ==>
        answer == Some(Exhausted(maxUses)) && usage.outcomes == old(usage.outcomes)
      ensures old(usage.calls) < maxUses ==>
        && usage.outcomes == old(usage.outcomes) + [if attempt.Some? then Some(attempt.value.tokens) else None]
        && answer == if attempt.Some? then Some(AnswerOf(attempt.value)) else None
    {
      answer := InvokeAdvisor(usage, maxUses, attempt);
    }
  }

  // -------------------------------------------------------------------------------- payloads

  function FailureName(k: FailureKind): string {
    match k
    case ProviderError => "provider_error"
    case TurnLimitReached => "turn_limit_reached"
    case TokenBudgetReached => "token_budget_reached"
    case SubcallLimitReached => "subcall_limit_reached"
    case CostBudgetReached => "cost_budget_reached"
    case BillableInputBudgetReached => "billable_input_budget_reached"
    case ContextLimitReached => "context_limit_reached"
    case ToolCallLimitReached => "tool_call_limit_reached"
    case Timeout => "timeout"
    case UndeclaredToolRequest => "undeclared_tool_request"
    case ToolExecutionFailed => "tool_execution_failed"
    case MissingOutput => "missing_output"
  }

  /** `AdapterFailureKind(value)`; an unknown value raises. */
  function FailureFromName(s: string): Option<FailureKind> {
    if s == "provider_error" then Some(ProviderError)
    else if s == "turn_limit_reached" then Some(TurnLimitReached)
    else if s == "token_budget_reached" then Some(TokenBudgetReached)
    else if s == "subcall_limit_reached" then Some(SubcallLimitReached)
    else if s == "cost_budget_reached" then Some(CostBudgetReached)
    else if s == "billable_input_budget_reached" then Some(BillableInputBudgetReached)
    else if s == "context_limit_reached" then Some(ContextLimitReached)
    else if s == "tool_call_limit_reached" then Some(ToolCallLimitReached)
    else if s == "timeout" then Some(Timeout)
    else if s == "undeclared_tool_request" then Some(UndeclaredToolRequest)
    else if s == "tool_execution_failed" then Some(ToolExecutionFailed)
    else if s == "missing_output" then Some(MissingOutput)
    else None
  }

  function OptionalInt(v: Option<int>): Json {
    if v.None? then Null else Int(v.value)
  }

  function OptionalString(v: Option<string>): Json {
    if v.None? then Null else String(v.value)
  }

  function CallPayload(call: ToolCall): Json {
    Object(map["tool_call_id" := String(call.id), "tool_name" := String(call.name),
               "arguments" := Object(call.arguments)])
  }

  const PAYLOAD_KEYS: seq<string> := [
    "output_text", "tool_call", "error_message", "usage_input_tokens", "usage_output_tokens", "timed_out", "done",
    "usage_model_calls", "usage_cache_read_tokens", "usage_cache_write_tokens",
    "maximum_input_tokens_in_one_call", "maximum_output_tokens_in_one_call", "failure_kind"]

  /** The values written under those keys; the last six entries are left out at their default. */
  function PayloadValues(r: Response): (values: seq<Option<Json>>)
    ensures |values| == |PAYLOAD_KEYS|
  {
    [ Some(String(r.outputText)),
      Some(if r.toolCall.None? then Null else CallPayload(r.toolCall.value)),
      Some(OptionalString(r.errorMessage)),
      Some(OptionalInt(r.inputTokens)),
      Some(OptionalInt(r.outputTokens)),
      Some(Bool(r.timedOut)),
      Some(Bool(r.done)),
      if r.modelCalls != Some(1) then Some(OptionalInt(r.modelCalls)) else None,
      if r.cacheReadTokens.Some? then Some(OptionalInt(r.cacheReadTokens)) else None,
      if r.cacheWriteTokens.Some? then Some(OptionalInt(r.cacheWriteTokens)) else None,
      if r.maximumInput.Some? then Some(OptionalInt(r.maximumInput)) else None,
      if r.maximumOutput.Some? then Some(OptionalInt(r.maximumOutput)) else None,
      if r.failureKind.Some? then Some(String(FailureName(r.failureKind.value))) else None ]
  }

  /** Writes each present value under its key, one after the other. */
  function Write(keys: seq<string>, values: seq<Option<Json>>): Fields
    requires |keys| == |values|
  {
    if keys == [] then map[]
    else
      var n := |keys| - 1;
      var before := Write(keys[..n], values[..n]);
      if values[n].Some? then before[keys[n] := values[n].value] else before
  }

  lemma {:induction false} WrittenEntry(keys: seq<string>, values: seq<Option<Json>>, i: nat)
    requires |keys| == |values| && i < |keys| && NoRepeats(keys)
    ensures keys[i] in Write(keys, values) <==> values[i].Some?
    ensures values[i].Some? ==> Write(keys, values)[keys[i]] == values[i].value
  {
    var n := |keys| - 1;
    if i < n {
      WrittenEntry(keys[..n], values[..n], i);
      assert keys[i] != keys[n];
    } else {
      NothingElseWritten(keys[..n], values[..n], keys[n]);
    }
  }

  lemma {:induction false} NothingElseWritten(keys: seq<string>, values: seq<Option<Json>>, key: string)
    requires |keys| == |values| && key !in keys
    ensures key !in Write(keys, values)
  {
    if keys != [] {
      NothingElseWritten(keys[..|keys| - 1], values[..|keys| - 1], key);
      assert keys[|keys| - 1] in keys;
    }
  }

  lemma PayloadKeysDistinct()
    ensures NoRepeats(PAYLOAD_KEYS)
  {
    var k := PAYLOAD_KEYS;
    assert |k[0]| == 11 && |k[1]| == 9 && |k[2]| == 13 && |k[3]| == 18 && |k[4]| == 19 && |k[5]| == 9 && |k[6]| == 4;
    assert |k[7]| == 17 && |k[8]| == 23 && |k[9]| == 24 && |k[10]| == 32 && |k[11]| == 33 && |k[12]| == 12;
    assert k[1][1] == 'o' && k[5][1] == 'i';
  }

  function ResponsePayload(r: Response): Fields {
    Write(PAYLOAD_KEYS, PayloadValues(r))
  }

  function ToInt(j: Json): Option<int> {
    if j.Int? then Some(j.i) else None
  }

  function ToText(j: Json): Option<string> {
    if j.String? then Some(j.s) else None
  }

  function CallFromPayload(j: Json): Option<ToolCall> {
    if !j.Object? then None
    else
      var id, name, arguments := ToText(Get(j.fields, "tool_call_id")), ToText(Get(j.fields, "tool_name")),
        Get(j.fields, "arguments");
      Some(ToolCall(id.GetOr(""), name.GetOr(""), if arguments.Object? then arguments.fields else map[]))
  }

  function ResponseFromPayload(p: Fields): Response {
    Response(
      ToText(Get(p, "output_text")).GetOr(""),
      CallFromPayload(Get(p, "tool_call")),
      ToText(Get(p, "error_message")),
      if Get(p, "failure_kind").String? then FailureFromName(Get(p, "failure_kind").s) else None,
      if "usage_model_calls" in p then ToInt(p["usage_model_calls"]) else Some(1),
      ToInt(Get(p, "usage_input_tokens")),
      ToInt(Get(p, "usage_output_tokens")),
      ToInt(Get(p, "usage_cache_read_tokens")),
      ToInt(Get(p, "usage_cache_write_tokens")),
      ToInt(Get(p, "maximum_input_tokens_in_one_call")),
      ToInt(Get(p, "maximum_output_tokens_in_one_call")),
      Get(p, "timed_out") == Bool(true),
      Get(p, "done") == Bool(true))
  }

  predicate IsLimit(k: FailureKind) {
    k.TurnLimitReached? || k.TokenBudgetReached? || k.SubcallLimitReached? || k.CostBudgetReached?
    || k.BillableInputBudgetReached? || k.ContextLimitReached? || k.ToolCallLimitReached?
  }

  lemma LimitNameRoundTrip(k: FailureKind)
    requires IsLimit(k)
    ensures FailureFromName(FailureName(k)) == Some(k)
  {
  }

  lemma EarlyNameRoundTrip(k: FailureKind)
    requires k.ProviderError? || k.Timeout?
    ensures FailureFromName(FailureName(k)) == Some(k)
  {
  }

  lemma ToolNameRoundTrip(k: FailureKind)
    requires k.UndeclaredToolRequest? || k.ToolExecutionFailed?
    ensures FailureFromName(FailureName(k)) == Some(k)
  {
  }

  lemma OutputNameRoundTrip()
    ensures FailureFromName(FailureName(MissingOutput)) == Some(MissingOutput)
  {
  }

  /** The values of `AdapterFailureKind` in base.py. */
  lemma FailureNames()
    ensures FailureName(ProviderError) == "provider_error" && FailureName(Timeout) == "timeout"
    ensures FailureName(TurnLimitReached) == "turn_limit_reached"
    ensures FailureName(ToolCallLimitReached) == "tool_call_limit_reached"
    ensures FailureName(UndeclaredToolRequest) == "undeclared_tool_request"
    ensures FailureName(ToolExecutionFailed) == "tool_execution_failed"
    ensures FailureName(MissingOutput) == "missing_output"
    ensures FailureName(TokenBudgetReached) == "token_budget_reached"
    ensures FailureName(SubcallLimitReached) == "subcall_limit_reached"
    ensures FailureName(CostBudgetReached) == "cost_budget_reached"
    ensures FailureName(BillableInputBudgetReached) == "billable_input_budget_reached"
    ensures FailureName(ContextLimitReached) == "context_limit_reached"
  {
  }

  lemma FailureNameRoundTrip(k: FailureKind)
    ensures FailureFromName(FailureName(k)) == Some(k)
  {
    hide FailureName, FailureFromName;
    if IsLimit(k) {
      LimitNameRoundTrip(k);
    } else if k.ProviderError? || k.Timeout? {
      EarlyNameRoundTrip(k);
    } else if k.MissingOutput? {
      OutputNameRoundTrip();
    } else {
      ToolNameRoundTrip(k);
    }
  }

  lemma PayloadEntry(r: Response, i: nat)
    requires i < |PAYLOAD_KEYS|
    ensures Get(ResponsePayload(r), PAYLOAD_KEYS[i]) == PayloadValues(r)[i].GetOr(Null)
    ensures PAYLOAD_KEYS[i] in ResponsePayload(r) <==> PayloadValues(r)[i].Some?
  {
    PayloadKeysDistinct();
    WrittenEntry(PAYLOAD_KEYS, PayloadValues(r), i);
  }

  lemma FirstEntries(r: Response)
    ensures var p := ResponsePayload(r);
      && Get(p, "output_text") == String(r.outputText)
      && Get(p, "tool_call") == (if r.toolCall.None? then Null else CallPayload(r.toolCall.value))
      && Get(p, "error_message") == OptionalString(r.errorMessage)
      && Get(p, "usage_input_tokens") == OptionalInt(r.inputTokens)
      && Get(p, "usage_output_tokens") == OptionalInt(r.outputTokens)
      && Get(p, "timed_out") == Bool(r.timedOut)
      && Get(p, "done") == Bool(r.done)
  {
    hide ResponsePayload, CallPayload, Get;
    PayloadEntry(r, 0);
    PayloadEntry(r, 1);
    PayloadEntry(r, 2);
    PayloadEntry(r, 3);
    PayloadEntry(r, 4);
    PayloadEntry(r, 5);
    PayloadEntry(r, 6);
  }

  lemma LastEntries(r: Response)
    ensures var p := ResponsePayload(r);
      && ("usage_model_calls" in p <==> r.modelCalls != Some(1))
      && Get(p, "usage_model_calls") == (if r.modelCalls != Some(1) then OptionalInt(r.modelCalls) else Null)
      && Get(p, "usage_cache_read_tokens") == OptionalInt(r.cacheReadTokens)
      && Get(p, "usage_cache_write_tokens") == OptionalInt(r.cacheWriteTokens)
      && Get(p, "maximum_input_tokens_in_one_call") == OptionalInt(r.maximumInput)
      && Get(p, "maximum_output_tokens_in_one_call") == OptionalInt(r.maximumOutput)
      && Get(p, "failure_kind") == (if r.failureKind.Some? then String(FailureName(r.failureKind.value)) else Null)
  {
    hide ResponsePayload, FailureName, Get;
    PayloadEntry(r, 7);
    PayloadEntry(r, 8);
    PayloadEntry(r, 9);
    PayloadEntry(r, 10);
    PayloadEntry(r, 11);
    PayloadEntry(r, 12);
  }

  /** The call count is missing exactly at its default. */
  lemma AbsentCallCount(r: Response)
    ensures var p := ResponsePayload(r);
      (if "usage_model_calls" in p then ToInt(p["usage_model_calls"]) else Some(1)) == r.modelCalls
  {
    hide ResponsePayload, CallPayload;
    LastEntries(r);
  }

  lemma OptionRoundTrips()
    ensures forall v :: ToInt(OptionalInt(v)) == v
    ensures forall v :: ToText(OptionalString(v)) == v
    ensures forall s :: ToText(String(s)) == Some(s)
  {
  }

  lemma CallRoundTrip(call: ToolCall)
    ensures CallFromPayload(CallPayload(call)) == Some(call) && CallFromPayload(Null) == None
  {
  }

  /** Writing a response and reading it back gives the same response, although default values
      are left out of the payload. */
  lemma ResponseRoundTrip(r: Response)
    ensures ResponseFromPayload(ResponsePayload(r)) == r
  {
    hide FailureName, FailureFromName, ResponsePayload, CallPayload, CallFromPayload;
    hide ToInt, ToText, OptionalInt, OptionalString;
    OptionRoundTrips();
    AbsentCallCount(r);
    FirstEntries(r);
    LastEntries(r);
    CallRoundTrip(r.toolCall.GetOr(ToolCall("", "", map[])));
    if r.failureKind.Some? {
      FailureNameRoundTrip(r.failureKind.value);
    }
  }

  /** `ReplayToolLoopClient.serialize_client`. */
  function ReplayPayload(responses: seq<Response>): Fields {
    var payloads := seq(|responses|, i requires 0 <= i < |responses| => Object(ResponsePayload(responses[i])));
    map["responses" := Array(payloads)]
  }

  /** `replay_tool_loop_client_from_payload`. */
  function ReplayFromPayload(payload: Fields): seq<Response> {
    var responses := Get(payload, "responses");
    if !responses.Array? then []
    else seq(|responses.items|, i requires 0 <= i < |responses.items| =>
               ResponseFromPayload(if responses.items[i].Object? then responses.items[i].fields else map[]))
  }

  /** A serialized replay client is restored with the same responses in the same order. */
  lemma ReplayRoundTrip(responses: seq<Response>)
    ensures ReplayFromPayload(ReplayPayload(responses)) == responses
  {
    hide ResponsePayload, ResponseFromPayload;
    forall i | 0 <= i < |responses| ensures ReplayFromPayload(ReplayPayload(responses))[i] == responses[i] {
      ResponseRoundTrip(responses[i]);
    }
  }
}
