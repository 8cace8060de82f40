/** src/aec_bench/adapters/tool_loop.py, `ToolLoopAdapter.execute`: one run of the tool loop
    against a client, a tool executor and an advisor that may answer anything. */
module ToolLoop {
  import opened Results
  import opened ToolUsage

  // -------------------------------------------------------------------------- configuration

  /** A raw configuration value as far as `configured_positive_int` looks at it. `TextValue`
      holds the integer that `int(text)` parses, if it parses. */
  datatype Setting = Absent | IntValue(n: int) | TextValue(parsed: Option<int>) | BadValue

  /** runtime_limits.py, lines 24-50. */
  function ConfiguredPositiveInt(s: Setting): (r: Result<Option<nat>, string>)
    ensures r == Ok(None) <==> s.Absent?
    ensures forall n :: r == Ok(Some(n)) <==> n > 0 && (s == IntValue(n) || s == TextValue(Some(n)))
  {
    match s
    case Absent => Ok(None)
    case IntValue(n) => if n <= 0 then Raised("must be a positive integer") else Ok(Some(n))
    case TextValue(p) =>
      if p.None? || p.value <= 0 then Raised("must be a positive integer") else Ok(Some(p.value))
    case BadValue => Raised("must be a positive integer")
  }

  datatype Config = Config(
    allowedTools: set<string>,
    maxTurns: nat,
    maxToolCalls: Option<nat>,
    hasExecutor: bool,
    hasAdvisorClient: bool,
    advisor: Option<AdvisorConfig>)

  datatype AdvisorConfig = AdvisorConfig(enabled: bool, maxUses: int)

  // ------------------------------------------------------------------------------ transcript

  datatype Role = System | User | Assistant | Tool
  datatype Event = Message | CallEvent | ResultEvent

  /** Text written by the loop itself or by a provider, or an advisor answer as JSON. */
  datatype Content =
    | Text(text: string)
    | Calling(tool: string)
    | Undeclared(tool: string)
    | LimitReached(used: nat, limit: nat)
    | FromAdvisor(answer: AdvisorAnswer)

  datatype Entry = Entry(role: Role, content: Content, event: Event, toolName: Option<string>,
                         toolCallId: Option<string>)

  function CallEntry(call: ToolCall): Entry {
    Entry(Assistant, Calling(call.name), CallEvent, Some(call.name), Some(call.id))
  }

  function ResultEntry(call: ToolCall, content: Content): Entry {
    Entry(Tool, content, ResultEvent, Some(call.name), Some(call.id))
  }

  /** Every tool call is followed at once by a result for the same call, and no result
      stands alone. */
  ghost predicate Paired(entries: seq<Entry>) {
    && (forall i :: 0 <= i < |entries| && entries[i].event.CallEvent? ==>
          i + 1 < |entries| && entries[i + 1].event.ResultEvent?
          && entries[i + 1].toolCallId == entries[i].toolCallId && entries[i + 1].toolName == entries[i].toolName)
    && (forall i :: 0 <= i < |entries| && entries[i].event.ResultEvent? ==> i > 0 && entries[i - 1].event.CallEvent?)
  }

  lemma PairedConcat(a: seq<Entry>, b: seq<Entry>)
    requires Paired(a) && Paired(b)
    ensures Paired(a + b)
  {
    var s := a + b;
    forall i | 0 <= i < |s| && s[i].event.CallEvent?
      ensures i + 1 < |s| && s[i + 1].event.ResultEvent?
      ensures s[i + 1].toolCallId == s[i].toolCallId && s[i + 1].toolName == s[i].toolName
    {
      if i >= |a| {
        assert s[i] == b[i - |a|] && s[i + 1] == b[i + 1 - |a|];
      }
    }
    forall i | 0 <= i < |s| && s[i].event.ResultEvent? ensures i > 0 && s[i - 1].event.CallEvent? {
      if i >= |a| {
        assert s[i] == b[i - |a|];
        assert s[i - 1] == b[i - 1 - |a|];
      }
    }
  }

  // ----------------------------------------------------------------------- what a turn decides

  datatype Status = Completed | Partial | Failed | Empty

  datatype Decision =
    | RunTool(call: ToolCall)
    | AskAdvisor(call: ToolCall)
    | RejectCall(call: ToolCall)
    | RefuseCall(call: ToolCall, used: nat, limit: nat)
    | Fail(kind: FailureKind)
    | Finish
    | KeepGoing
  {
    predicate Stops() {
      RejectCall? || RefuseCall? || Fail? || Finish?
    }

    predicate Executes() {
      RunTool? || AskAdvisor?
    }
  }

  predicate IsAdvisorCall(c: Config, call: ToolCall) {
    call.name == "advisor" && c.hasAdvisorClient && c.advisor.Some? && c.advisor.value.enabled
  }

  /** The decision for one response when `executed` calls have been executed before it. */
  function Decide(c: Config, r: Response, executed: nat): Decision {
    if r.toolCall.Some? then
      var call := r.toolCall.value;
      if !IsAdvisorCall(c, call) && call.name !in c.allowedTools then RejectCall(call)
      else if c.maxToolCalls.Some? && executed >= c.maxToolCalls.value then
        RefuseCall(call, executed, c.maxToolCalls.value)
      else if IsAdvisorCall(c, call) then AskAdvisor(call)
      else RunTool(call)
    else if r.timedOut || r.errorMessage.Some? then
      Fail(r.failureKind.GetOr(if r.timedOut then Timeout else ProviderError))
    else if r.done then Finish
    else KeepGoing
  }

  /** One turn of a run: the response, its decision, and the content of the tool result if
      the turn has one. */
  datatype Turn = Turn(response: Response, decision: Decision, outcome: Content)

  function TurnEntries(t: Turn): seq<Entry> {
    match t.decision
    case RunTool(call) => [CallEntry(call), ResultEntry(call, t.outcome)]
    case AskAdvisor(call) => [CallEntry(call), ResultEntry(call, t.outcome)]
    case RejectCall(call) => [CallEntry(call), ResultEntry(call, Undeclared(call.name))]
    case RefuseCall(call, used, limit) => [CallEntry(call), ResultEntry(call, LimitReached(used, limit))]
    case _ =>
      if t.response.outputText == "" then []
      else [Entry(Assistant, Text(t.response.outputText), Message, None, None)]
  }

  function Entries(turns: seq<Turn>): seq<Entry> {
    if turns == [] then [] else Entries(turns[..|turns| - 1]) + TurnEntries(turns[|turns| - 1])
  }

  function Executed(turns: seq<Turn>): seq<ToolCall> {
    if turns == [] then []
    else
      var last := turns[|turns| - 1].decision;
      Executed(turns[..|turns| - 1]) + (if last.Executes() then [last.call] else [])
  }

  function Responses(turns: seq<Turn>): seq<Response> {
    seq(|turns|, i requires 0 <= i < |turns| => turns[i].response)
  }

  /** The history of a run: each turn is decided by its response and the calls executed
      before it, and only the last turn may stop. */
  ghost predicate RunHistory(c: Config, turns: seq<Turn>) {
    && |turns| <= c.maxTurns
    && forall i :: 0 <= i < |turns| ==>
         && turns[i].decision == Decide(c, turns[i].response, |Executed(turns[..i])|)
         && (turns[i].decision.Stops() ==> i == |turns| - 1)
  }

  // ------------------------------------------------------------------------------ the result

  datatype Ending = Ending(status: Status, failureKind: Option<FailureKind>, error: Option<Content>,
                           rawOutput: Option<string>)

  function NonEmpty(s: string): Option<string> {
    if s == "" then None else Some(s)
  }

  /** How a run that does not raise ends. */
  function EndingOf(turns: seq<Turn>): Ending {
    if turns == [] || !turns[|turns| - 1].decision.Stops() then
      Ending(Partial, Some(TurnLimitReached), Some(Text("turn limit reached")), None)
    else
      var t := turns[|turns| - 1];
      match t.decision
      case RejectCall(call) => Ending(Failed, Some(UndeclaredToolRequest), Some(Undeclared(call.name)), None)
      case RefuseCall(call, used, limit) =>
        Ending(Partial, Some(ToolCallLimitReached), Some(LimitReached(used, limit)), None)
      case Fail(kind) =>
        var error := if t.response.errorMessage.None? then None else Some(Text(t.response.errorMessage.value));
        Ending(Failed, Some(kind), error, NonEmpty(t.response.outputText))
      case _ =>
        if t.response.outputText == "" then Ending(Empty, Some(MissingOutput), None, None)
        else Ending(Completed, None, None, Some(t.response.outputText))
  }

  // ------------------------------------------------------------- promises about every history

  lemma {:induction false} ExecutedPrefix(turns: seq<Turn>, i: nat)
    requires i <= |turns|
    ensures |Executed(turns[..i])| <= |Executed(turns)|
  {
    if i < |turns| {
      var init := turns[..|turns| - 1];
      ExecutedPrefix(init, i);
      assert init[..i] == turns[..i];
    } else {
      assert turns[..i] == turns;
    }
  }

  lemma PrefixHistory(c: Config, turns: seq<Turn>, i: nat)
    requires RunHistory(c, turns) && i <= |turns|
    ensures RunHistory(c, turns[..i])
  {
    forall j | 0 <= j < i
      ensures turns[..i][j].decision == Decide(c, turns[..i][j].response, |Executed(turns[..i][..j])|)
      ensures turns[..i][j].decision.Stops() ==> j == i - 1
    {
      assert turns[..i][..j] == turns[..j];
    }
  }

  /** No more calls are executed than the configuration allows, and each one is a declared
      tool or the enabled advisor. */
  lemma {:induction false} ExecutedWithinLimits(c: Config, turns: seq<Turn>)
    requires RunHistory(c, turns)
    ensures c.maxToolCalls.Some? ==> |Executed(turns)| <= c.maxToolCalls.value
    ensures forall call :: call in Executed(turns) ==> call.name in c.allowedTools || IsAdvisorCall(c, call)
    ensures |Executed(turns)| <= |turns|
  {
    if turns != [] {
      var n := |turns| - 1;
      LastDecision(c, turns);
      PrefixHistory(c, turns, n);
      hide RunHistory, IsAdvisorCall, Decide;
      ExecutedWithinLimits(c, turns[..n]);
      if turns[n].decision.Executes() {
        ExecutionNeedsRoom(c, turns[n].response, |Executed(turns[..n])|);
      }
    }
  }

  lemma ExecutionNeedsRoom(c: Config, r: Response, executed: nat)
    requires Decide(c, r, executed).Executes()
    ensures c.maxToolCalls.Some? ==> executed < c.maxToolCalls.value
    ensures var call := Decide(c, r, executed).call; call.name in c.allowedTools || IsAdvisorCall(c, call)
  {
  }

  /** The transcript of every history pairs calls with their results. */
  lemma {:induction false} TranscriptIsPaired(turns: seq<Turn>)
    ensures Paired(Entries(turns))
  {
    if turns != [] {
      TranscriptIsPaired(turns[..|turns| - 1]);
      assert Paired(TurnEntries(turns[|turns| - 1]));
      PairedConcat(Entries(turns[..|turns| - 1]), TurnEntries(turns[|turns| - 1]));
    }
  }

  /** The transcript only grows: what the client saw in an earlier turn is a prefix of what
      it sees later. */
  lemma {:induction false} TranscriptGrows(turns: seq<Turn>, i: nat)
    requires i <= |turns|
    ensures Entries(turns[..i]) <= Entries(turns)
  {
    if i < |turns| {
      var init := turns[..|turns| - 1];
      TranscriptGrows(init, i);
      assert init[..i] == turns[..i];
    } else {
      assert turns[..i] == turns;
    }
  }

  /** A failure kind is absent exactly from completed runs, and completion needs output. */
  lemma EndingIsConsistent(turns: seq<Turn>)
    ensures EndingOf(turns).failureKind == None <==> EndingOf(turns).status == Completed
    ensures EndingOf(turns).status == Completed ==> EndingOf(turns).rawOutput.Some?
  {
  }

  /** A call is refused only when exactly the allowed number has been executed. */
  lemma RefusedAtTheLimit(c: Config, turns: seq<Turn>)
    requires RunHistory(c, turns) && turns != [] && turns[|turns| - 1].decision.RefuseCall?
    ensures c.maxToolCalls == Some(|Executed(turns)|)
  {
    hide RunHistory, Decide;
    var n := |turns| - 1;
    LastDecision(c, turns);
    RefusalNeedsLimit(c, turns[n].response, |Executed(turns[..n])|);
    PrefixHistory(c, turns, n);
    ExecutedWithinLimits(c, turns[..n]);
  }

  lemma LastDecision(c: Config, turns: seq<Turn>)
    requires RunHistory(c, turns) && turns != []
    ensures var n := |turns| - 1; turns[n].decision == Decide(c, turns[n].response, |Executed(turns[..n])|)
  {
    hide Decide, Executed;
  }

  lemma RefusalNeedsLimit(c: Config, r: Response, executed: nat)
    requires Decide(c, r, executed).RefuseCall?
    ensures c.maxToolCalls.Some? && executed >= c.maxToolCalls.value
  {
  }

  // ------------------------------------------------------------------------------ the world

  datatype ToolResult = ToolResult(outputText: string, errorMessage: Option<string>)

  /** `tool_result.error_message or tool_result.output_text`. */
  function ToolOutput(t: ToolResult): string {
    if t.errorMessage.Some? && t.errorMessage.value != "" then t.errorMessage.value else t.outputText
  }

  /** Everything outside the adapter, fixed in advance but arbitrary: what the client answers
      in each turn, what each tool run yields and what each advisor dispatch yields. `None`
      stands for an exception. The fields log what has been asked of the world. */
  class World {
    const client: nat -> Option<Response>
    const tools: nat -> Option<ToolResult>
    const advisor: nat -> Option<AdvisorResult>
    /** The transcripts handed to the client, one for each call of it. */
    var shown: seq<seq<Entry>>
    var toolRuns: seq<ToolCall>

    constructor (client: nat -> Option<Response>, tools: nat -> Option<ToolResult>,
                 advisor: nat -> Option<AdvisorResult>)
      ensures this.client == client && this.tools == tools && this.advisor == advisor
      ensures shown == [] && toolRuns == []
    {
      this.client, this.tools, this.advisor := client, tools, advisor;
      shown, toolRuns := [], [];
    }

    method NextTurn(transcript: seq<Entry>) returns (r: Option<Response>)
      modifies this`shown
      ensures r == client(|old(shown)|) && shown == old(shown) + [transcript]
    {
      r := client(|shown|);
      shown := shown + [transcript];
    }

    method ExecuteTool(call: ToolCall) returns (r: Option<ToolResult>)
      modifies this`toolRuns
      ensures r == tools(|old(toolRuns)|) && toolRuns == old(toolRuns) + [call]
    {
      r := tools(|toolRuns|);
      toolRuns := toolRuns + [call];
    }
  }

  function ToolRuns(turns: seq<Turn>): seq<ToolCall> {
    if turns == [] then []
    else
      var last := turns[|turns| - 1].decision;
      ToolRuns(turns[..|turns| - 1]) + (if last.RunTool? then [last.call] else [])
  }

  function AdvisorAsks(turns: seq<Turn>): nat {
    if turns == [] then 0
    else AdvisorAsks(turns[..|turns| - 1]) + (if turns[|turns| - 1].decision.AskAdvisor? then 1 else 0)
  }

  /** Of all calls for advice, only the first `maxUses` reach the provider. */
  function Dispatches(asks: nat, maxUses: int): nat {
    if asks <= maxUses then asks else if maxUses < 0 then 0 else maxUses
  }

  /** The tool result of a turn comes from the world, for the call made in that turn. */
  ghost predicate Explains(c: Config, w: World, before: seq<Turn>, t: Turn) {
    match t.decision
    case RunTool(call) =>
      var r := w.tools(|ToolRuns(before)|);
      c.hasExecutor && r.Some? && t.outcome == Text(ToolOutput(r.value))
    case AskAdvisor(call) =>
      c.advisor.Some?
      && (var most := c.advisor.value.maxUses;
          if AdvisorAsks(before) >= most then t.outcome == FromAdvisor(Exhausted(most))
          else var a := w.advisor(AdvisorAsks(before)); a.Some? && t.outcome == FromAdvisor(AnswerOf(a.value)))
    case _ => t.outcome == Text("")
  }

  ghost predicate FromWorld(c: Config, w: World, turns: seq<Turn>) {
    forall i :: 0 <= i < |turns| ==>
      w.client(i) == Some(turns[i].response) && Explains(c, w, turns[..i], turns[i])
  }

  /** Why a run ended in an exception after `turns`. */
  ghost predicate NextTurnRaises(c: Config, w: World, turns: seq<Turn>) {
    var r := w.client(|turns|);
    r.None?
    || match Decide(c, r.value, |Executed(turns)|)
       case RunTool(_) => !c.hasExecutor || w.tools(|ToolRuns(turns)|).None?
       case AskAdvisor(_) => AdvisorAsks(turns) < c.advisor.value.maxUses && w.advisor(AdvisorAsks(turns)).None?
       case _ => false
  }

  /** The call with which a tool run raises after `turns`, if that is what happens. */
  function RaisingCall(c: Config, w: World, turns: seq<Turn>): seq<ToolCall> {
    var r := w.client(|turns|);
    if r.None? then []
    else
      var d := Decide(c, r.value, |Executed(turns)|);
      if d.RunTool? && c.hasExecutor then [d.call] else []
  }

  /** The tokens of the advisor dispatches of a run. */
  function AdvisorTokens(w: World, n: nat): seq<Option<Tokens>> {
    seq(n, i requires 0 <= i < n => if w.advisor(i).Some? then Some(w.advisor(i).value.tokens) else None)
  }

  /** What one more turn adds to the run's lists and counts. */
  lemma ExtendTurns(turns: seq<Turn>, t: Turn)
    ensures Entries(turns + [t]) == Entries(turns) + TurnEntries(t)
    ensures Executed(turns + [t]) == Executed(turns) + (if t.decision.Executes() then [t.decision.call] else [])
    ensures ToolRuns(turns + [t]) == ToolRuns(turns) + (if t.decision.RunTool? then [t.decision.call] else [])
    ensures AdvisorAsks(turns + [t]) == AdvisorAsks(turns) + (if t.decision.AskAdvisor? then 1 else 0)
    ensures Responses(turns + [t]) == Responses(turns) + [t.response]
  {
    hide TurnEntries;
    var longer := turns + [t];
    assert longer[..|longer| - 1] == turns;
  }

  lemma AppendTurn(c: Config, w: World, turns: seq<Turn>, t: Turn)
    requires RunHistory(c, turns) && FromWorld(c, w, turns) && |turns| < c.maxTurns
    requires NoStop(turns)
    requires t.decision == Decide(c, t.response, |Executed(turns)|)
    requires w.client(|turns|) == Some(t.response) && Explains(c, w, turns, t)
    ensures RunHistory(c, turns + [t]) && FromWorld(c, w, turns + [t])
  {
    hide Decide, Explains, Executed;
    var longer := turns + [t];
    assert longer[..|turns|] == turns;
    forall i | 0 <= i < |longer|
      ensures longer[i].decision == Decide(c, longer[i].response, |Executed(longer[..i])|)
      ensures longer[i].decision.Stops() ==> i == |longer| - 1
      ensures w.client(i) == Some(longer[i].response) && Explains(c, w, longer[..i], longer[i])
    {
      if i < |turns| {
        assert longer[..i] == turns[..i];
      }
    }
  }

  // ------------------------------------------------------------------------------ the adapter

  datatype Request = Request(
    systemPrompt: Option<string>,
    instruction: string,
    tools: seq<string>,
    maxTurns: Setting,
    maxToolCalls: Setting)

  /** `initialize_transcript` (base.py, lines 94-100). */
  function Opening(q: Request): seq<Entry> {
    (if q.systemPrompt.Some? then [Entry(System, Text(q.systemPrompt.value), Message, None, None)] else [])
    + [Entry(User, Text(q.instruction), Message, None, None)]
  }

  const DEFAULT_MAX_TURNS := 8

  datatype AdvisorReport = AdvisorReport(calls: Option<int>, inputTokens: Option<int>, outputTokens: Option<int>)

  datatype RunResult = RunResult(
    ending: Ending,
    providerError: Option<Content>,
    transcript: seq<Entry>,
    turnsUsed: Option<int>,
    maxTurns: nat,
    usage: UsageReport,
    advisor: AdvisorReport)

  datatype Outcome = Returned(result: RunResult) | RaisedInRun | RejectedConfiguration

  /** The advisor figures of a finished run: nothing without an advisor, the client's own
      figures when it keeps them, else what the adapter counted. */
  ghost predicate ExactAdvisorReport(c: Config, w: World, own: Option<AdvisorReport>, asks: nat, a: AdvisorReport) {
    if c.advisor.None? then a == AdvisorReport(None, None, None)
    else if own.Some? then a == own.value
    else
      var n := Dispatches(asks, c.advisor.value.maxUses);
      && a.calls == Some(n)
      && ExactTotal(InputsOf(AdvisorTokens(w, n)), a.inputTokens)
      && ExactTotal(OutputsOf(AdvisorTokens(w, n)), a.outputTokens)
  }

  /** The adapter's counter has seen exactly the dispatches of the run. */
  ghost predicate AdvisorCounts(c: Config, w: World, usage: AdvisorUsage, asks: nat)
    reads usage
  {
    && usage.Valid() && !usage.inFlight
    && (c.advisor.Some? ==> usage.outcomes == AdvisorTokens(w, Dispatches(asks, c.advisor.value.maxUses)))
  }

  /** Before each turn the client sees the opening and the entries of all earlier turns. */
  ghost predicate Saw(shown: seq<seq<Entry>>, opening: seq<Entry>, turns: seq<Turn>) {
    && |turns| <= |shown| <= |turns| + 1
    && forall i :: 0 <= i < |shown| ==> shown[i] == opening + Entries(turns[..i])
  }

  lemma SawNext(shown: seq<seq<Entry>>, opening: seq<Entry>, turns: seq<Turn>)
    requires Saw(shown, opening, turns) && |shown| == |turns|
    ensures Saw(shown + [opening + Entries(turns)], opening, turns)
  {
    assert turns[..|turns|] == turns;
  }

  lemma SawTurn(shown: seq<seq<Entry>>, opening: seq<Entry>, turns: seq<Turn>, t: Turn)
    requires Saw(shown, opening, turns) && |shown| == |turns| + 1
    ensures Saw(shown, opening, turns + [t])
  {
    forall i | 0 <= i < |shown| ensures shown[i] == opening + Entries((turns + [t])[..i]) {
      assert (turns + [t])[..i] == turns[..i];
    }
  }

  /** The facts that hold between turns. */
  ghost predicate Running(c: Config, w: World, opening: seq<Entry>, turns: seq<Turn>, shown: seq<seq<Entry>>,
                          toolRuns: seq<ToolCall>)
  {
    && RunHistory(c, turns) && FromWorld(c, w, turns) && NoStop(turns)
    && Saw(shown, opening, turns)
    && toolRuns == ToolRuns(turns)
  }

  /** What a finished turn has changed. */
  ghost predicate Extends(opening: seq<Entry>, turns: seq<Turn>, t: Turn, longer: seq<Turn>) {
    && opening + Entries(longer) == opening + Entries(turns) + TurnEntries(t)
    && |Executed(longer)| == |Executed(turns)| + (if t.decision.Executes() then 1 else 0)
    && AdvisorAsks(longer) == AdvisorAsks(turns) + (if t.decision.AskAdvisor? then 1 else 0)
    && Responses(longer) == Responses(turns) + [t.response]
  }

  ghost predicate Done(c: Config, w: World, opening: seq<Entry>, turns: seq<Turn>, shown: seq<seq<Entry>>,
                       toolRuns: seq<ToolCall>)
  {
    && RunHistory(c, turns) && FromWorld(c, w, turns) && Finished(c, turns)
    && Saw(shown, opening, turns) && |shown| == |turns|
    && toolRuns == ToolRuns(turns)
  }

  lemma FinishTurn(c: Config, w: World, opening: seq<Entry>, turns: seq<Turn>, t: Turn, shown: seq<seq<Entry>>,
                   runsBefore: seq<ToolCall>)
    returns (longer: seq<Turn>)
    requires Running(c, w, opening, turns, shown, runsBefore) && |shown| == |turns| + 1 <= c.maxTurns
    requires w.client(|turns|) == Some(t.response)
    requires t.decision == Decide(c, t.response, |Executed(turns)|) && Explains(c, w, turns, t)
    ensures longer == turns + [t] && Extends(opening, turns, t, longer)
    ensures var runs := if t.decision.RunTool? then runsBefore + [t.decision.call] else runsBefore;
      if t.decision.Stops() then Done(c, w, opening, longer, shown, runs)
      else Running(c, w, opening, longer, shown, runs)
  {
    longer := turns + [t];
    hide Decide, Explains, TurnEntries, Entries, Executed, ToolRuns, AdvisorAsks, Responses;
    SawTurn(shown, opening, turns, t);
    AppendTurn(c, w, turns, t);
    ExtendTurns(turns, t);
    assert opening + (Entries(turns) + TurnEntries(t)) == opening + Entries(turns) + TurnEntries(t);
    hide RunHistory, FromWorld, Saw;
  }

  /** Each tool run is an executed call that the world served. */
  lemma {:induction false} ToolRunsAreExecuted(turns: seq<Turn>)
    ensures |ToolRuns(turns)| <= |Executed(turns)|
    ensures forall call :: call in ToolRuns(turns) ==> call in Executed(turns)
  {
    if turns != [] {
      ToolRunsAreExecuted(turns[..|turns| - 1]);
    }
  }

  lemma {:induction false} ToolRunsAreDeclared(c: Config, turns: seq<Turn>)
    requires RunHistory(c, turns)
    ensures forall call :: call in ToolRuns(turns) ==> call.name in c.allowedTools && !IsAdvisorCall(c, call)
  {
    if turns != [] {
      var n := |turns| - 1;
      LastDecision(c, turns);
      PrefixHistory(c, turns, n);
      hide RunHistory;
      ToolRunsAreDeclared(c, turns[..n]);
      if turns[n].decision.RunTool? {
        OnlyDeclaredToolsRun(c, turns[n].response, |Executed(turns[..n])|);
      }
    }
  }

  lemma OnlyDeclaredToolsRun(c: Config, r: Response, executed: nat)
    requires Decide(c, r, executed).RunTool?
    ensures var call := Decide(c, r, executed).call; call.name in c.allowedTools && !IsAdvisorCall(c, call)
  {
  }

  lemma ShownGrows(q: Request, turns: seq<Turn>, shown: seq<seq<Entry>>)
    requires Saw(shown, Opening(q), turns)
    ensures forall i, j :: 0 <= i <= j < |shown| ==> shown[i] <= shown[j] <= Opening(q) + Entries(turns)
  {
    hide Entries, Opening;
    forall i, j | 0 <= i <= j < |shown| ensures shown[i] <= shown[j] <= Opening(q) + Entries(turns) {
      TranscriptGrows(turns[..j], i);
      assert turns[..j][..i] == turns[..i];
      TranscriptGrows(turns, j);
    }
  }

  lemma ShownIsPaired(q: Request, turns: seq<Turn>)
    ensures Paired(Opening(q) + Entries(turns))
  {
    TranscriptIsPaired(turns);
    PairedConcat(Opening(q), Entries(turns));
  }

  // ------------------------------------------------------------------------------- replaying

  /** What `ReplayToolLoopClient` answers; past its last response it raises. */
  function ReplayClient(responses: seq<Response>): nat -> Option<Response> {
    (i: nat) => if i < |responses| then Some(responses[i]) else None
  }

  /** Both worlds answer a turn in the same way as long as the history is the same. */
  ghost predicate SameWorldUpTo(w: World, v: World, n: nat) {
    w.tools == v.tools && w.advisor == v.advisor && forall i: nat :: i < n ==> w.client(i) == v.client(i)
  }

  /** A turn is determined by what went before and by the world's answers. */
  lemma TurnDetermined(c: Config, w: World, v: World, before: seq<Turn>, t: Turn, u: Turn)
    requires w.tools == v.tools && w.advisor == v.advisor && t.response == u.response
    requires t.decision == Decide(c, t.response, |Executed(before)|)
    requires u.decision == Decide(c, u.response, |Executed(before)|)
    requires Explains(c, w, before, t) && Explains(c, v, before, u)
    ensures t == u
  {
    hide Decide, Executed, ToolRuns, AdvisorAsks;
  }

  /** Two histories from worlds with the same answers agree as far as both go. */
  lemma {:induction false} HistoriesAgree(c: Config, w: World, v: World, one: seq<Turn>, other: seq<Turn>, n: nat)
    requires RunHistory(c, one) && FromWorld(c, w, one) && RunHistory(c, other) && FromWorld(c, v, other)
    requires n <= |one| && n <= |other| && SameWorldUpTo(w, v, n)
    ensures one[..n] == other[..n]
  {
    hide Decide, Executed, Explains;
    if n > 0 {
      HistoriesAgree(c, w, v, one, other, n - 1);
      var i := n - 1;
      assert w.client(i) == Some(one[i].response) && v.client(i) == Some(other[i].response);
      TurnDetermined(c, w, v, one[..i], one[i], other[i]);
      assert one[..n] == one[..i] + [one[i]] && other[..n] == other[..i] + [other[i]];
    }
  }

  /** What the next turn of a history needs to go through did not raise. */
  lemma RecordedTurnDoesNotRaise(c: Config, w: World, v: World, turns: seq<Turn>, n: nat)
    requires RunHistory(c, turns) && FromWorld(c, w, turns) && n < |turns|
    requires SameWorldUpTo(w, v, |turns|)
    ensures !NextTurnRaises(c, v, turns[..n])
  {
    assert turns[n].decision == Decide(c, turns[n].response, |Executed(turns[..n])|);
    assert w.client(n) == Some(turns[n].response) && Explains(c, w, turns[..n], turns[n]);
    hide Decide, Executed, ToolRuns, AdvisorAsks;
  }

  /** A finished run is reproduced by replaying its responses against the same tools and the
      same advisor: the replay neither raises nor ends otherwise, and has the same history. */
  lemma ReplayReproduces(c: Config, w: World, v: World, turns: seq<Turn>, replayed: seq<Turn>)
    requires RunHistory(c, turns) && FromWorld(c, w, turns) && Finished(c, turns)
    requires v.tools == w.tools && v.advisor == w.advisor && v.client == ReplayClient(Responses(turns))
    requires RunHistory(c, replayed) && FromWorld(c, v, replayed)
    requires Finished(c, replayed)
          || (NoStop(replayed) && |replayed| < c.maxTurns && NextTurnRaises(c, v, replayed))
    ensures replayed == turns
  {
    hide Decide, Executed, Explains;
    assert SameWorldUpTo(w, v, |turns|) by {
      forall i: nat | i < |turns| ensures w.client(i) == v.client(i) {
        assert w.client(i) == Some(turns[i].response) == Some(Responses(turns)[i]);
      }
    }
    if replayed != [] {
      var last := |replayed| - 1;
      assert v.client(last) == Some(replayed[last].response);
      assert v.client(last) == ReplayClient(Responses(turns))(last);
    }
    HistoriesAgree(c, w, v, turns, replayed, |replayed|);
    assert replayed[..|replayed|] == replayed;
    if |replayed| < |turns| {
      RecordedTurnDoesNotRaise(c, w, v, turns, |replayed|);
      assert false;
    }
    assert turns[..|turns|] == turns;
  }

  /** A history that has not stopped goes on with at most one more call, the one with which a
      tool run raises; it keeps to the limits as well. */
  lemma RaisingCallIsSafe(c: Config, w: World, turns: seq<Turn>)
    requires RunHistory(c, turns) && NoStop(turns)
    ensures |RaisingCall(c, w, turns)| <= 1
    ensures c.maxToolCalls.Some? ==> |ToolRuns(turns) + RaisingCall(c, w, turns)| <= c.maxToolCalls.value
    ensures forall call :: call in RaisingCall(c, w, turns) ==> call.name in c.allowedTools
  {
    hide RunHistory, Executed, ToolRuns, IsAdvisorCall;
    ExecutedWithinLimits(c, turns);
    ToolRunsAreExecuted(turns);
    var r := w.client(|turns|);
    if r.Some? {
      var d := Decide(c, r.value, |Executed(turns)|);
      hide Decide;
      if d.RunTool? {
        ExecutionNeedsRoom(c, r.value, |Executed(turns)|);
        OnlyDeclaredToolsRun(c, r.value, |Executed(turns)|);
      }
    }
  }

  /** A history keeps to the limits, and what the client has been shown of it grows and pairs
      every call with its result. */
  lemma HistoryIsSafe(q: Request, c: Config, turns: seq<Turn>, shown: seq<seq<Entry>>)
    requires RunHistory(c, turns) && Saw(shown, Opening(q), turns)
    ensures c.maxToolCalls.Some? ==> |ToolRuns(turns)| <= |Executed(turns)| <= c.maxToolCalls.value
    ensures forall call :: call in ToolRuns(turns) ==> call.name in c.allowedTools
    ensures forall call :: call in Executed(turns) ==> call.name in c.allowedTools || IsAdvisorCall(c, call)
    ensures forall i, j :: 0 <= i <= j < |shown| ==> shown[i] <= shown[j] <= Opening(q) + Entries(turns)
    ensures Paired(Opening(q) + Entries(turns))
    ensures forall i :: 0 <= i < |shown| ==> Paired(shown[i])
  {
    hide Entries, Executed, ToolRuns, Opening;
    ExecutedWithinLimits(c, turns);
    ToolRunsAreExecuted(turns);
    ToolRunsAreDeclared(c, turns);
    hide RunHistory;
    ShownGrows(q, turns, shown);
    ShownIsPaired(q, turns);
    forall i | 0 <= i < |shown| ensures Paired(shown[i]) {
      ShownIsPaired(q, turns[..i]);
    }
  }

  ghost predicate NoStop(turns: seq<Turn>) {
    forall i :: 0 <= i < |turns| ==> !turns[i].decision.Stops()
  }

  ghost predicate Finished(c: Config, turns: seq<Turn>) {
    |turns| == c.maxTurns || (turns != [] && turns[|turns| - 1].decision.Stops())
  }

  lemma EmptyRun(c: Config, w: World, opening: seq<Entry>)
    ensures Running(c, w, opening, [], [], [])
    ensures opening == opening + Entries([]) && Executed([]) == [] && Responses([]) == [] && AdvisorAsks([]) == 0
  {
  }

  lemma ShowNext(c: Config, w: World, opening: seq<Entry>, turns: seq<Turn>, shown: seq<seq<Entry>>,
                 runs: seq<ToolCall>)
    requires Running(c, w, opening, turns, shown, runs) && |shown| == |turns|
    ensures Running(c, w, opening, turns, shown + [opening + Entries(turns)], runs)
  {
    SawNext(shown, opening, turns);
  }

  lemma RunsSoFar(c: Config, w: World, opening: seq<Entry>, turns: seq<Turn>, shown: seq<seq<Entry>>,
                  runs: seq<ToolCall>)
    requires Running(c, w, opening, turns, shown, runs)
    ensures runs == ToolRuns(turns)
  {
  }

  lemma OutOfTurns(c: Config, w: World, opening: seq<Entry>, turns: seq<Turn>, shown: seq<seq<Entry>>,
                   runs: seq<ToolCall>)
    requires Running(c, w, opening, turns, shown, runs) && |turns| == |shown| == c.maxTurns
    ensures Done(c, w, opening, turns, shown, runs)
    ensures EndingOf(turns) == Ending(Partial, Some(TurnLimitReached), Some(Text("turn limit reached")), None)
  {
  }

  lemma NoDispatchesYet(c: Config, w: World)
    ensures c.advisor.Some? ==> AdvisorTokens(w, Dispatches(0, c.advisor.value.maxUses)) == []
  {
  }

  lemma AdvisorTokensAppend(w: World, n: nat)
    ensures AdvisorTokens(w, n + 1) ==
            AdvisorTokens(w, n) + [if w.advisor(n).Some? then Some(w.advisor(n).value.tokens) else None]
  {
  }

  class ToolLoopAdapter {
    const hasExecutor: bool
    const hasAdvisorClient: bool
    const advisorConfig: Option<AdvisorConfig>
    /** What `client.advisor_usage()` returns, when the client has that method. */
    const clientAdvisorUsage: Option<AdvisorReport>

    constructor (hasExecutor: bool, hasAdvisorClient: bool, advisorConfig: Option<AdvisorConfig>,
                 clientAdvisorUsage: Option<AdvisorReport>)
      ensures this.hasExecutor == hasExecutor && this.hasAdvisorClient == hasAdvisorClient
      ensures this.advisorConfig == advisorConfig && this.clientAdvisorUsage == clientAdvisorUsage
    {
      this.hasExecutor, this.hasAdvisorClient := hasExecutor, hasAdvisorClient;
      this.advisorConfig, this.clientAdvisorUsage := advisorConfig, clientAdvisorUsage;
    }

    function ConfigFor(q: Request): Option<Config> {
      var turns, calls := ConfiguredPositiveInt(q.maxTurns), ConfiguredPositiveInt(q.maxToolCalls);
      if turns.Raised? || calls.Raised? then None
      else Some(Config((set t | t in q.tools), turns.value.GetOr(DEFAULT_MAX_TURNS), calls.value,
                       hasExecutor, hasAdvisorClient, advisorConfig))
    }

    /** `_advisor_usage`. */
    method AdvisorFigures(c: Config, w: World, usage: AdvisorUsage, ghost asks: nat) returns (a: AdvisorReport)
      requires AdvisorCounts(c, w, usage, asks)
      ensures ExactAdvisorReport(c, w, clientAdvisorUsage, asks, a)
    {
      if c.advisor.None? {
        return AdvisorReport(None, None, None);
      }
      if clientAdvisorUsage.Some? {
        return clientAdvisorUsage.value;
      }
      var s := usage.Snapshot();
      a := AdvisorReport(Some(s.0), s.1, s.2);
    }

    /** `_handle_advisor_call`: the next dispatch is answered by the world. */
    method HandleAdvisorCall(c: Config, w: World, usage: AdvisorUsage, ghost asks: nat)
      returns (answer: Option<AdvisorAnswer>)
      requires c.advisor.Some? && AdvisorCounts(c, w, usage, asks)
      modifies usage
      ensures answer.Some? ==> AdvisorCounts(c, w, usage, asks + 1)
      ensures asks >= c.advisor.value.maxUses ==> answer == Some(Exhausted(c.advisor.value.maxUses))
      ensures asks < c.advisor.value.maxUses ==>
        answer == if w.advisor(asks).Some? then Some(AnswerOf(w.advisor(asks).value)) else None
    {
      AdvisorTokensAppend(w, Dispatches(asks, c.advisor.value.maxUses));
      answer := InvokeAdvisor(usage, c.advisor.value.maxUses, w.advisor(usage.calls));
    }

    /** A result that reports the given finished history. */
    ghost predicate Reports(q: Request, c: Config, w: World, turns: seq<Turn>, r: RunResult) {
      && r.ending == EndingOf(turns)
      && r.providerError == (if r.ending.failureKind == Some(ProviderError) then r.ending.error else None)
      && r.transcript == Opening(q) + Entries(turns)
      && r.maxTurns == c.maxTurns
      && ExactReport(Responses(turns), r.usage)
      && r.turnsUsed == r.usage.modelCalls
      && ExactAdvisorReport(c, w, clientAdvisorUsage, AdvisorAsks(turns), r.advisor)
    }

    /** `_build_result` and the figures it is given. */
    method BuildResult(q: Request, c: Config, w: World, usage: ToolLoopUsage, advisorUsage: AdvisorUsage,
                       ending: Ending, transcript: seq<Entry>, ghost turns: seq<Turn>)
      returns (r: RunResult)
      requires usage.Valid() && usage.history == Responses(turns)
      requires AdvisorCounts(c, w, advisorUsage, AdvisorAsks(turns))
      requires ending == EndingOf(turns) && transcript == Opening(q) + Entries(turns)
      ensures Reports(q, c, w, turns, r)
    {
      hide ExactReport, AdvisorCounts, ExactAdvisorReport, EndingOf, Opening, Entries, Responses, AdvisorAsks;
      var advisor := AdvisorFigures(c, w, advisorUsage, AdvisorAsks(turns));
      var report := usage.Report();
      var providerError := if ending.failureKind == Some(ProviderError) then ending.error else None;
      r := RunResult(ending, providerError, transcript, report.modelCalls, c.maxTurns, report, advisor);
    }

    /** What a finished run owes its caller: a run that returns reports a history that the
        configuration allows and the world produces; a run that raises stopped after such a
        history because its next turn has to raise. */
    ghost predicate Accounted(q: Request, c: Config, w: World, turns: seq<Turn>, outcome: Outcome)
      reads w
    {
      match outcome
      case RejectedConfiguration => false
      case RaisedInRun =>
        && Running(c, w, Opening(q), turns, w.shown, ToolRuns(turns)) && |w.shown| == |turns| + 1 <= c.maxTurns
        && NextTurnRaises(c, w, turns) && w.toolRuns == ToolRuns(turns) + RaisingCall(c, w, turns)
      case Returned(result) =>
        && Done(c, w, Opening(q), turns, w.shown, w.toolRuns)
        && Reports(q, c, w, turns, result)
    }

    /** The local variables of a run that has taken `turns` and recorded `responses`. */
    ghost predicate InStep(q: Request, c: Config, w: World, usage: ToolLoopUsage, advisorUsage: AdvisorUsage,
                           executed: nat, transcript: seq<Entry>, turns: seq<Turn>, responses: seq<Response>)
      reads w, usage, advisorUsage
    {
      && Running(c, w, Opening(q), turns, w.shown, w.toolRuns)
      && |turns| <= |w.shown| <= c.maxTurns
      && transcript == Opening(q) + Entries(turns)
      && executed == |Executed(turns)|
      && usage.Valid() && usage.history == responses
      && AdvisorCounts(c, w, advisorUsage, AdvisorAsks(turns))
    }

    /** The rest of a turn whose response calls a tool (lines 247-363). */
    method CallTurn(q: Request, c: Config, w: World, usage: ToolLoopUsage, advisorUsage: AdvisorUsage,
                    response: Response, executed: nat, transcript: seq<Entry>, ghost turns: seq<Turn>)
      returns (outcome: Option<Outcome>, calls: nat, after: seq<Entry>, ghost longer: seq<Turn>)
      requires InStep(q, c, w, usage, advisorUsage, executed, transcript, turns, Responses(turns) + [response])
      requires |w.shown| == |turns| + 1 && w.client(|turns|) == Some(response) && response.toolCall.Some?
      modifies w`toolRuns, advisorUsage
      ensures outcome.None? ==>
        && InStep(q, c, w, usage, advisorUsage, calls, after, longer, Responses(longer)) && |longer| == |turns| + 1
      ensures outcome.Some? ==> Accounted(q, c, w, longer, outcome.value)
    {
      hide Running, Done, Reports, Entries, Executed, AdvisorAsks, Responses, ToolRuns, Opening;
      hide AdvisorCounts, ExactReport, ExactAdvisorReport, ToolLoopUsage.Valid;
      var call := response.toolCall.value;
      ghost var runs := w.toolRuns;
      RunsSoFar(c, w, Opening(q), turns, w.shown, runs);
      outcome, calls, after, longer := None, executed, transcript + [CallEntry(call)], turns;
      if !IsAdvisorCall(c, call) && call.name !in c.allowedTools {
        after := after + [ResultEntry(call, Undeclared(call.name))];
        longer := FinishTurn(c, w, Opening(q), turns, Turn(response, RejectCall(call), Text("")), w.shown, runs);
        var ending := Ending(Failed, Some(UndeclaredToolRequest), Some(Undeclared(call.name)), None);
        var result := BuildResult(q, c, w, usage, advisorUsage, ending, after, longer);
        outcome := Some(Returned(result));
        return;
      }
      if c.maxToolCalls.Some? && executed >= c.maxToolCalls.value {
        var refused := LimitReached(executed, c.maxToolCalls.value);
        after := after + [ResultEntry(call, refused)];
        ghost var turn := Turn(response, RefuseCall(call, executed, c.maxToolCalls.value), Text(""));
        longer := FinishTurn(c, w, Opening(q), turns, turn, w.shown, runs);
        var ending := Ending(Partial, Some(ToolCallLimitReached), Some(refused), None);
        var result := BuildResult(q, c, w, usage, advisorUsage, ending, after, longer);
        outcome := Some(Returned(result));
        return;
      }
      calls := executed + 1;
      if IsAdvisorCall(c, call) {
        var advice := HandleAdvisorCall(c, w, advisorUsage, AdvisorAsks(turns));
        if advice.None? {
          outcome := Some(RaisedInRun);
          return;
        }
        after := after + [ResultEntry(call, FromAdvisor(advice.value))];
        ghost var turn := Turn(response, AskAdvisor(call), FromAdvisor(advice.value));
        longer := FinishTurn(c, w, Opening(q), turns, turn, w.shown, runs);
        return;
      }
      if !c.hasExecutor {
        outcome := Some(RaisedInRun);
        return;
      }
      var toolResult := w.ExecuteTool(call);
      if toolResult.None? {
        outcome := Some(RaisedInRun);
        return;
      }
      var output := Text(ToolOutput(toolResult.value));
      after := after + [ResultEntry(call, output)];
      longer := FinishTurn(c, w, Opening(q), turns, Turn(response, RunTool(call), output), w.shown, runs);
    }

    /** The rest of a turn whose response calls no tool (lines 365-416). */
    method TextTurn(q: Request, c: Config, w: World, usage: ToolLoopUsage, advisorUsage: AdvisorUsage,
                    response: Response, executed: nat, transcript: seq<Entry>, ghost turns: seq<Turn>)
      returns (outcome: Option<Outcome>, after: seq<Entry>, ghost longer: seq<Turn>)
      requires InStep(q, c, w, usage, advisorUsage, executed, transcript, turns, Responses(turns) + [response])
      requires |w.shown| == |turns| + 1 && w.client(|turns|) == Some(response) && response.toolCall.None?
      ensures outcome.None? ==>
        && InStep(q, c, w, usage, advisorUsage, executed, after, longer, Responses(longer)) && |longer| == |turns| + 1
      ensures outcome.Some? ==> Accounted(q, c, w, longer, outcome.value)
    {
      hide Running, Done, Reports, Entries, Executed, AdvisorAsks, Responses, ToolRuns, Opening;
      hide AdvisorCounts, ExactReport, ExactAdvisorReport, ToolLoopUsage.Valid;
      ghost var turn := Turn(response, Decide(c, response, executed), Text(""));
      longer := FinishTurn(c, w, Opening(q), turns, turn, w.shown, w.toolRuns);
      outcome, after := None, transcript;
      if response.outputText != "" {
        after := after + [Entry(Assistant, Text(response.outputText), Message, None, None)];
      }
      assert after == Opening(q) + Entries(longer);
      if response.timedOut || response.errorMessage.Some? {
        var kind := response.failureKind.GetOr(if response.timedOut then Timeout else ProviderError);
        var error := if response.errorMessage.None? then None else Some(Text(response.errorMessage.value));
        var ending := Ending(Failed, Some(kind), error, NonEmpty(response.outputText));
        var result := BuildResult(q, c, w, usage, advisorUsage, ending, after, longer);
        outcome := Some(Returned(result));
        return;
      }
      if response.done {
        var ending := Ending(
          if response.outputText != "" then Completed else Empty,
          if response.outputText != "" then None else Some(MissingOutput),
          None,
          NonEmpty(response.outputText));
        var result := BuildResult(q, c, w, usage, advisorUsage, ending, after, longer);
        outcome := Some(Returned(result));
      }
    }

    /** Every run is accounted for by the history it leaves in `turns`. */
    method Execute(q: Request, w: World) returns (outcome: Outcome, ghost turns: seq<Turn>)
      requires w.shown == [] && w.toolRuns == []
      modifies w
      ensures outcome.RejectedConfiguration? <==> ConfigFor(q).None?
      ensures outcome.RejectedConfiguration? ==> w.shown == [] && w.toolRuns == []
      ensures ConfigFor(q).Some? ==> Accounted(q, ConfigFor(q).value, w, turns, outcome)
    {
      hide Running, Done, Reports, Entries, Executed, AdvisorAsks, Responses, Opening;
      hide ExactReport, ExactAdvisorReport, ToolLoopUsage.Valid;
      turns := [];
      var transcript := Opening(q);
      var settings := ConfigFor(q);
      if settings.None? {
        return RejectedConfiguration, [];
      }
      var c := settings.value;
      var executed: nat := 0;
      var usage := new ToolLoopUsage();
      var advisorUsage := new AdvisorUsage();
      EmptyRun(c, w, Opening(q));
      NoDispatchesYet(c, w);
      assert AdvisorCounts(c, w, advisorUsage, 0);
      hide AdvisorCounts, Accounted;
      var round := 0;
      while round < c.maxTurns
        invariant 0 <= round == |turns| == |w.shown| <= c.maxTurns
        invariant InStep(q, c, w, usage, advisorUsage, executed, transcript, turns, Responses(turns))
        invariant fresh(usage) && fresh(advisorUsage)
      {
        ShowNext(c, w, Opening(q), turns, w.shown, w.toolRuns);
        var answer := w.NextTurn(transcript);
        if answer.None? {
          RaisedByClient(q, c, w, turns);
          return RaisedInRun, turns;
        }
        usage.Record(answer.value);
        round := round + 1;
        var stopped: Option<Outcome>;
        if answer.value.toolCall.Some? {
          stopped, executed, transcript, turns :=
            CallTurn(q, c, w, usage, advisorUsage, answer.value, executed, transcript, turns);
        } else {
          stopped, transcript, turns :=
            TextTurn(q, c, w, usage, advisorUsage, answer.value, executed, transcript, turns);
        }
        if stopped.Some? {
          return stopped.value, turns;
        }
      }
      OutOfTurns(c, w, Opening(q), turns, w.shown, w.toolRuns);
      var limit := Ending(Partial, Some(TurnLimitReached), Some(Text("turn limit reached")), None);
      var result := BuildResult(q, c, w, usage, advisorUsage, limit, transcript, turns);
      outcome := Returned(result);
      Returns(q, c, w, turns, outcome);
    }

    lemma Returns(q: Request, c: Config, w: World, turns: seq<Turn>, outcome: Outcome)
      requires Done(c, w, Opening(q), turns, w.shown, w.toolRuns)
      requires outcome.Returned? && Reports(q, c, w, turns, outcome.result)
      ensures Accounted(q, c, w, turns, outcome)
    {
      hide Done, Reports;
    }

    lemma RaisedByClient(q: Request, c: Config, w: World, turns: seq<Turn>)
      requires Running(c, w, Opening(q), turns, w.shown, w.toolRuns) && |w.shown| == |turns| + 1 <= c.maxTurns
      requires w.client(|turns|).None?
      ensures Accounted(q, c, w, turns, RaisedInRun)
    {
      hide Decide, Executed;
    }

    /** Safety of every run of `Execute`, whether it returns or raises: the client is asked at
        most `maxTurns` times, no more tools run than allowed and only declared ones, the
        transcript handed to the client only grows, and it pairs every call with its result. A
        returned transcript continues the last one, and a failure kind is absent exactly from
        completed results. */
    lemma EveryRunIsSafe(q: Request, c: Config, w: World, turns: seq<Turn>, outcome: Outcome)
      requires Accounted(q, c, w, turns, outcome)
      ensures |w.shown| <= c.maxTurns
      ensures c.maxToolCalls.Some? ==> |w.toolRuns| <= c.maxToolCalls.value && |Executed(turns)| <= c.maxToolCalls.value
      ensures forall call :: call in w.toolRuns ==> call.name in c.allowedTools
      ensures forall call :: call in Executed(turns) ==> call.name in c.allowedTools || IsAdvisorCall(c, call)
      ensures forall i, j :: 0 <= i <= j < |w.shown| ==> w.shown[i] <= w.shown[j]
      ensures forall i :: 0 <= i < |w.shown| ==> Paired(w.shown[i])
      ensures outcome.Returned? ==>
        && Paired(outcome.result.transcript)
        && (forall i :: 0 <= i < |w.shown| ==> w.shown[i] <= outcome.result.transcript)
        && (outcome.result.ending.failureKind.None? <==> outcome.result.ending.status == Completed)
    {
      hide Entries, Executed, ToolRuns, Opening, Paired, RunHistory, FromWorld, NextTurnRaises, RaisingCall;
      hide ExactReport, ExactAdvisorReport, EndingOf, Saw, Finished;
      HistoryBounds(c, w, turns);
      HistoryIsSafe(q, c, turns, w.shown);
      EndingIsConsistent(turns);
      if outcome.RaisedInRun? {
        RaisingCallIsSafe(c, w, turns);
      }
    }
  }

  lemma HistoryBounds(c: Config, w: World, turns: seq<Turn>)
    requires RunHistory(c, turns)
    ensures |turns| <= c.maxTurns
  {
  }
}
