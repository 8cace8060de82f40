/** What a run of src/aec_bench/adapters/tool_loop.py, `ToolLoopAdapter.execute`, amounts to,
    said of the client's responses, the tools' and the advisor's answers and the result alone. */
module ToolLoopMeaning {
  import opened Results
  import opened ToolUsage
  import opened ToolLoop

  // ------------------------------------------------------------------------------ responses

  /** A final answer: no tool call, no failure, and the client says that it is done. */
  predicate Answers(r: Response) {
    r.toolCall.None? && !r.timedOut && r.errorMessage.None? && r.done
  }

  predicate Fails(r: Response) {
    r.toolCall.None? && (r.timedOut || r.errorMessage.Some?)
  }

  /** The call goes to the advisor that the configuration enables. */
  predicate ToAdvisor(c: Config, call: ToolCall) {
    c.hasAdvisorClient && c.advisor.Some? && c.advisor.value.enabled && call.name == "advisor"
  }

  /** The tool calls among the first n responses, those to the advisor or the others. */
  function CallsAmong(c: Config, w: World, advisor: bool, n: nat): seq<ToolCall> {
    if n == 0 then []
    else
      var r := w.client(n - 1);
      CallsAmong(c, w, advisor, n - 1)
      + (if r.Some? && r.value.toolCall.Some? && ToAdvisor(c, r.value.toolCall.value) == advisor
         then [r.value.toolCall.value] else [])
  }

  function CallCount(c: Config, w: World, n: nat): nat {
    |CallsAmong(c, w, true, n)| + |CallsAmong(c, w, false, n)|
  }

  /** The call asks for a tool that is neither declared nor the advisor. */
  predicate CallsUndeclared(c: Config, r: Response) {
    r.toolCall.Some? && !ToAdvisor(c, r.toolCall.value) && r.toolCall.value.name !in c.allowedTools
  }

  /** The call is allowed as such, and as many calls as allowed have come before it. */
  predicate CallsBeyondLimit(c: Config, w: World, n: nat, r: Response) {
    r.toolCall.Some? && !CallsUndeclared(c, r) && c.maxToolCalls.Some? && CallCount(c, w, n) >= c.maxToolCalls.value
  }

  /** Response n ends the run. */
  predicate EndsRun(c: Config, w: World, n: nat) {
    w.client(n).Some? &&
    var r := w.client(n).value;
    Answers(r) || Fails(r) || CallsUndeclared(c, r) || CallsBeyondLimit(c, w, n, r)
  }

  // ----------------------------------------------------------------- histories and responses

  /** A response that does not stop the run is a call that is carried out, or no call at all. */
  lemma GoingOn(c: Config, r: Response, executed: nat)
    requires !Decide(c, r, executed).Stops()
    ensures r.toolCall.None? ==> Decide(c, r, executed).KeepGoing?
    ensures r.toolCall.Some? ==>
      Decide(c, r, executed) ==
      if ToAdvisor(c, r.toolCall.value) then AskAdvisor(r.toolCall.value) else RunTool(r.toolCall.value)
  {
  }

  lemma {:induction false} ExecutedAreCalls(c: Config, w: World, turns: seq<Turn>)
    requires RunHistory(c, turns) && FromWorld(c, w, turns) && NoStop(turns)
    ensures ToolRuns(turns) == CallsAmong(c, w, false, |turns|)
    ensures AdvisorAsks(turns) == |CallsAmong(c, w, true, |turns|)|
    ensures |Executed(turns)| == CallCount(c, w, |turns|)
  {
    if turns != [] {
      var n := |turns| - 1;
      PrefixHistory(c, turns, n);
      PrefixFromWorld(c, w, turns, n);
      LastDecision(c, turns);
      assert w.client(n) == Some(turns[n].response) && !turns[n].decision.Stops();
      GoingOn(c, turns[n].response, |Executed(turns[..n])|);
      hide RunHistory, FromWorld, Decide, ToAdvisor;
      ExecutedAreCalls(c, w, turns[..n]);
    }
  }

  lemma PrefixFromWorld(c: Config, w: World, turns: seq<Turn>, n: nat)
    requires FromWorld(c, w, turns) && n <= |turns|
    ensures FromWorld(c, w, turns[..n])
  {
    hide Explains;
    forall i | 0 <= i < n
      ensures w.client(i) == Some(turns[..n][i].response) && Explains(c, w, turns[..n][..i], turns[..n][i])
    {
      assert turns[..n][..i] == turns[..i];
    }
  }

  lemma StoppingResponse(c: Config, w: World, n: nat, r: Response)
    requires w.client(n) == Some(r)
    ensures Decide(c, r, CallCount(c, w, n)).Stops() <==> EndsRun(c, w, n)
  {
    hide CallCount;
  }

  /** Each turn stops exactly if its response ends the run, and what came before it are
      exactly the calls of the earlier responses. */
  lemma TurnFacts(c: Config, w: World, turns: seq<Turn>, i: nat)
    requires RunHistory(c, turns) && FromWorld(c, w, turns) && i < |turns|
    ensures w.client(i) == Some(turns[i].response) && Explains(c, w, turns[..i], turns[i])
    ensures turns[i].decision == Decide(c, turns[i].response, CallCount(c, w, i))
    ensures ToolRuns(turns[..i]) == CallsAmong(c, w, false, i)
    ensures AdvisorAsks(turns[..i]) == |CallsAmong(c, w, true, i)|
    ensures turns[i].decision.Stops() <==> EndsRun(c, w, i)
    ensures i < |turns| - 1 ==> !turns[i].decision.Stops()
  {
    PrefixHistory(c, turns, i);
    PrefixFromWorld(c, w, turns, i);
    assert NoStop(turns[..i]);
    assert w.client(i) == Some(turns[i].response) && Explains(c, w, turns[..i], turns[i]);
    assert turns[i].decision == Decide(c, turns[i].response, |Executed(turns[..i])|);
    hide RunHistory, FromWorld, NoStop, Explains, CallsAmong, Executed, Decide, CallCount, EndsRun;
    ExecutedAreCalls(c, w, turns[..i]);
    StoppingResponse(c, w, i, turns[i].response);
  }

  // ------------------------------------------------------------------------------- the ending

  /** The ending that the last of n responses calls for. */
  ghost predicate EndsAsAnswered(c: Config, w: World, n: nat, e: Ending) {
    && (n == 0 || !EndsRun(c, w, n - 1) ==>
          e == Ending(Partial, Some(TurnLimitReached), Some(Text("turn limit reached")), None))
    && (n > 0 && EndsRun(c, w, n - 1) ==>
          var r := w.client(n - 1).value;
          && (Answers(r) && r.outputText != "" ==> e == Ending(Completed, None, None, Some(r.outputText)))
          && (Answers(r) && r.outputText == "" ==> e == Ending(Empty, Some(MissingOutput), None, None))
          && (Fails(r) ==>
                && e.status == Failed
                && e.failureKind == Some(
                     if r.failureKind.Some? then r.failureKind.value else if r.timedOut then Timeout else ProviderError)
                && (e.error.Some? <==> r.errorMessage.Some?)
                && (e.error.Some? ==> e.error.value == Text(r.errorMessage.value))
                && e.rawOutput == (if r.outputText == "" then None else Some(r.outputText)))
          && (CallsUndeclared(c, r) ==>
                e == Ending(Failed, Some(UndeclaredToolRequest), Some(Undeclared(r.toolCall.value.name)), None))
          && (CallsBeyondLimit(c, w, n - 1, r) ==>
                e == Ending(Partial, Some(ToolCallLimitReached),
                            Some(LimitReached(CallCount(c, w, n - 1), c.maxToolCalls.value)), None)))
  }

  lemma LastTurnEnding(c: Config, w: World, turns: seq<Turn>)
    requires RunHistory(c, turns) && FromWorld(c, w, turns)
    ensures EndsAsAnswered(c, w, |turns|, EndingOf(turns))
  {
    hide RunHistory, FromWorld, Explains, CallsAmong, CallCount;
    if turns != [] {
      TurnFacts(c, w, turns, |turns| - 1);
    }
  }

  /** No response but the last one asked for ends the run. A run that returns has asked for
      `maxTurns` responses or for one that ends it, and its ending is the one that its last
      response calls for; a run that raises has got no response that ends it. */
  lemma RunsEndAsAnswered(a: ToolLoopAdapter, q: Request, c: Config, w: World, turns: seq<Turn>, outcome: Outcome)
    requires a.Accounted(q, c, w, turns, outcome)
    ensures forall i: nat :: i < |w.shown| - 1 ==> w.client(i).Some? && !EndsRun(c, w, i)
    ensures outcome.RaisedInRun? ==> |w.shown| > 0 && !EndsRun(c, w, |w.shown| - 1)
    ensures outcome.Returned? ==>
      && (|w.shown| == c.maxTurns || (|w.shown| > 0 && EndsRun(c, w, |w.shown| - 1)))
      && (|w.shown| > 0 ==> w.client(|w.shown| - 1).Some?)
      && EndsAsAnswered(c, w, |w.shown|, outcome.result.ending)
  {
    hide RunHistory, FromWorld, Explains, CallsAmong, CallCount, Decide, EndingOf, EndsRun, ToolRuns;
    hide ExactReport, ExactAdvisorReport, NextTurnRaises, Saw, EndsAsAnswered;
    forall i: nat | i < |turns| ensures w.client(i).Some? && (EndsRun(c, w, i) <==> turns[i].decision.Stops())
    {
      TurnFacts(c, w, turns, i);
    }
    forall i: nat | i < |turns| - 1 ensures !turns[i].decision.Stops()
    {
      TurnFacts(c, w, turns, i);
    }
    if outcome.Returned? {
      LastTurnEnding(c, w, turns);
    } else {
      RaisingResponse(c, w, turns);
    }
  }

  lemma RaisingResponse(c: Config, w: World, turns: seq<Turn>)
    requires RunHistory(c, turns) && FromWorld(c, w, turns) && NoStop(turns) && NextTurnRaises(c, w, turns)
    ensures !EndsRun(c, w, |turns|)
  {
    hide RunHistory, FromWorld, CallsAmong, Executed;
    ExecutedAreCalls(c, w, turns);
  }

  /** A run is completed, with the text of its last response, exactly if that is a final
      answer with text; empty exactly if it is a final answer without; and the turn limit is
      reported, as a partial result, exactly if none of `maxTurns` responses ends the run. */
  lemma StatusIff(a: ToolLoopAdapter, q: Request, c: Config, w: World, turns: seq<Turn>, outcome: Outcome)
    requires a.Accounted(q, c, w, turns, outcome) && outcome.Returned?
    ensures var e, n := outcome.result.ending, |w.shown|;
      && (e.status == Completed <==>
            n > 0 && w.client(n - 1).Some? && Answers(w.client(n - 1).value) && w.client(n - 1).value.outputText != "")
      && (e.status == Empty <==>
            n > 0 && w.client(n - 1).Some? && Answers(w.client(n - 1).value) && w.client(n - 1).value.outputText == "")
      && (e.status == Partial && e.failureKind == Some(TurnLimitReached) <==>
            n == c.maxTurns && forall i: nat :: i < n ==> !EndsRun(c, w, i))
      && (e.status == Failed <==>
            n > 0 && w.client(n - 1).Some?
            && (Fails(w.client(n - 1).value) || CallsUndeclared(c, w.client(n - 1).value)))
  {
    hide CallsAmong, CallCount, ToolLoopAdapter.Accounted;
    RunsEndAsAnswered(a, q, c, w, turns, outcome);
  }

  /** A run raises only because the client does, because a tool raises or has no executor, or
      because an advisor dispatch within the budget raises; until then the executor has run the
      calls that are not for the advisor, the raising one included. */
  lemma RaisesBecause(a: ToolLoopAdapter, q: Request, c: Config, w: World, turns: seq<Turn>, outcome: Outcome)
    requires a.Accounted(q, c, w, turns, outcome) && outcome.RaisedInRun?
    ensures |w.shown| > 0
    ensures var n := |w.shown| - 1;
      var r, tools, asks := w.client(n), CallsAmong(c, w, false, n), |CallsAmong(c, w, true, n)|;
      || (r.None? && w.toolRuns == tools)
      || (r.Some? && r.value.toolCall.Some? &&
          var call := r.value.toolCall.value;
          if ToAdvisor(c, call) then
            asks < c.advisor.value.maxUses && w.advisor(asks).None? && w.toolRuns == tools
          else if !c.hasExecutor then w.toolRuns == tools
          else w.tools(|tools|).None? && w.toolRuns == tools + [call])
  {
    hide RunHistory, FromWorld, CallsAmong, Executed, ToolRuns, AdvisorAsks, Saw, Entries, Opening;
    ExecutedAreCalls(c, w, turns);
  }

  // ---------------------------------------------------------------------------- the transcript

  /** What the result of a call shows: a refusal, the advisor's answer or the tool's. */
  ghost predicate Shows(c: Config, w: World, n: nat, r: Response, content: Content)
    requires r.toolCall.Some?
  {
    var call := r.toolCall.value;
    if CallsUndeclared(c, r) then content == Undeclared(call.name)
    else if CallsBeyondLimit(c, w, n, r) then content == LimitReached(CallCount(c, w, n), c.maxToolCalls.value)
    else if ToAdvisor(c, call) then
      var asked := |CallsAmong(c, w, true, n)|;
      if asked >= c.advisor.value.maxUses then content == FromAdvisor(Exhausted(c.advisor.value.maxUses))
      else
        && w.advisor(asked).Some?
        && (w.advisor(asked).value.response.Some? ==>
              content == FromAdvisor(Advised(w.advisor(asked).value.response.value)))
        && (w.advisor(asked).value.response.None? ==> content == FromAdvisor(Unavailable))
    else
      var answer := w.tools(|CallsAmong(c, w, false, n)|);
      && answer.Some?
      && (answer.value.errorMessage.Some? && answer.value.errorMessage.value != "" ==>
            content == Text(answer.value.errorMessage.value))
      && (answer.value.errorMessage.None? || answer.value.errorMessage.value == "" ==>
            content == Text(answer.value.outputText))
  }

  /** What turn n adds to the transcript: the call and its result, or the text if there is any. */
  ghost predicate Adds(c: Config, w: World, n: nat, more: seq<Entry>) {
    w.client(n).Some? &&
    var r := w.client(n).value;
    if r.toolCall.None? then
      more == if r.outputText == "" then [] else [Entry(Assistant, Text(r.outputText), Message, None, None)]
    else
      var call := r.toolCall.value;
      && |more| == 2
      && more[0] == Entry(Assistant, Calling(call.name), CallEvent, Some(call.name), Some(call.id))
      && more[1] == Entry(Tool, more[1].content, ResultEvent, Some(call.name), Some(call.id))
      && Shows(c, w, n, r, more[1].content)
  }

  lemma TurnAdds(c: Config, w: World, turns: seq<Turn>, i: nat)
    requires RunHistory(c, turns) && FromWorld(c, w, turns) && i < |turns|
    ensures Adds(c, w, i, TurnEntries(turns[i]))
  {
    TurnFacts(c, w, turns, i);
    DecisionAdds(c, w, turns[..i], turns[i], i);
  }

  lemma DecisionAdds(c: Config, w: World, before: seq<Turn>, t: Turn, i: nat)
    requires w.client(i) == Some(t.response) && Explains(c, w, before, t)
    requires t.decision == Decide(c, t.response, CallCount(c, w, i))
    requires ToolRuns(before) == CallsAmong(c, w, false, i) && AdvisorAsks(before) == |CallsAmong(c, w, true, i)|
    ensures Adds(c, w, i, TurnEntries(t))
  {
    hide CallsAmong, CallCount, ToolRuns, AdvisorAsks;
  }

  lemma EntriesStep(turns: seq<Turn>, i: nat)
    requires i < |turns|
    ensures Entries(turns[..i + 1]) == Entries(turns[..i]) + TurnEntries(turns[i])
  {
    assert turns[..i + 1][..i] == turns[..i];
  }

  /** The transcript after n turns continues the one after i by what turn i adds. */
  ghost predicate Continues(c: Config, w: World, i: nat, before: seq<Entry>, after: seq<Entry>) {
    before <= after && Adds(c, w, i, after[|before|..])
  }

  lemma TurnContinues(q: Request, c: Config, w: World, turns: seq<Turn>, i: nat)
    requires RunHistory(c, turns) && FromWorld(c, w, turns) && i < |turns|
    ensures Continues(c, w, i, Opening(q) + Entries(turns[..i]), Opening(q) + Entries(turns[..i + 1]))
  {
    TurnAdds(c, w, turns, i);
    EntriesStep(turns, i);
    hide Adds, RunHistory, FromWorld, Entries, TurnEntries, Opening;
    var before := Opening(q) + Entries(turns[..i]);
    assert Opening(q) + Entries(turns[..i + 1]) == before + TurnEntries(turns[i]);
    assert (before + TurnEntries(turns[i]))[|before|..] == TurnEntries(turns[i]);
  }

  /** The client first sees the system prompt, if there is one, and the instruction; each turn
      then adds exactly what its response and the world's answers call for, up to the returned
      transcript. */
  lemma TranscriptFollows(a: ToolLoopAdapter, q: Request, c: Config, w: World, turns: seq<Turn>, outcome: Outcome)
    requires a.Accounted(q, c, w, turns, outcome)
    ensures w.shown != [] ==>
      w.shown[0] ==
        (if q.systemPrompt.None? then [] else [Entry(System, Text(q.systemPrompt.value), Message, None, None)])
        + [Entry(User, Text(q.instruction), Message, None, None)]
    ensures forall i :: 0 <= i < |w.shown| - 1 ==> Continues(c, w, i, w.shown[i], w.shown[i + 1])
    ensures outcome.Returned? && w.shown != [] ==>
      Continues(c, w, |w.shown| - 1, w.shown[|w.shown| - 1], outcome.result.transcript)
  {
    assert turns[..|turns|] == turns;
    if w.shown != [] {
      assert w.shown[0] == Opening(q) + Entries(turns[..0]) == Opening(q);
    }
    hide RunHistory, FromWorld, Entries, Opening, Continues, EndingOf, ExactReport, ExactAdvisorReport, NextTurnRaises;
    forall i | 0 <= i < |w.shown| - 1 ensures Continues(c, w, i, w.shown[i], w.shown[i + 1]) {
      TurnContinues(q, c, w, turns, i);
    }
    if outcome.Returned? && w.shown != [] {
      TurnContinues(q, c, w, turns, |turns| - 1);
    }
  }

  // ------------------------------------------------------------------------- tools and figures

  /** The number of responses that have not ended the run. */
  function TurnsTaken(c: Config, w: World, n: nat): nat {
    if n > 0 && EndsRun(c, w, n - 1) then n - 1 else n
  }

  lemma StoppedCalls(c: Config, w: World, turns: seq<Turn>)
    requires RunHistory(c, turns) && FromWorld(c, w, turns)
    ensures ToolRuns(turns) == CallsAmong(c, w, false, TurnsTaken(c, w, |turns|))
    ensures AdvisorAsks(turns) == |CallsAmong(c, w, true, TurnsTaken(c, w, |turns|))|
  {
    if turns != [] {
      var n := |turns| - 1;
      TurnFacts(c, w, turns, n);
      if !EndsRun(c, w, n) {
        NoStopAtEnd(c, turns);
        hide RunHistory, FromWorld, CallsAmong, EndsRun, Explains;
        ExecutedAreCalls(c, w, turns);
      }
    }
  }

  lemma NoStopAtEnd(c: Config, turns: seq<Turn>)
    requires RunHistory(c, turns) && turns != [] && !turns[|turns| - 1].decision.Stops()
    ensures NoStop(turns)
  {
  }

  /** The first n responses of the client. */
  function Answered(w: World, n: nat): seq<Response> {
    seq(n, i requires 0 <= i < n => w.client(i).GetOr(NO_RESPONSE))
  }

  lemma ResponsesAreAnswered(c: Config, w: World, turns: seq<Turn>)
    requires FromWorld(c, w, turns)
    ensures Responses(turns) == Answered(w, |turns|)
  {
  }

  /** The executor has run exactly the calls that are not for the advisor, in their order and
      without the one that ended the run; and every figure of the result is exact for the
      responses of the client. */
  lemma FiguresFollow(a: ToolLoopAdapter, q: Request, c: Config, w: World, turns: seq<Turn>, outcome: Outcome)
    requires a.Accounted(q, c, w, turns, outcome) && outcome.Returned?
    ensures w.toolRuns == CallsAmong(c, w, false, TurnsTaken(c, w, |w.shown|))
    ensures var asks := |CallsAmong(c, w, true, TurnsTaken(c, w, |w.shown|))|;
      ExactAdvisorReport(c, w, a.clientAdvisorUsage, asks, outcome.result.advisor)
    ensures ExactReport(Answered(w, |w.shown|), outcome.result.usage)
    ensures outcome.result.turnsUsed == outcome.result.usage.modelCalls && outcome.result.maxTurns == c.maxTurns
    ensures outcome.result.providerError ==
            if outcome.result.ending.failureKind == Some(ProviderError) then outcome.result.ending.error else None
  {
    hide ExactReport, ExactAdvisorReport, TurnsTaken, CallsAmong, Explains, Decide, RunHistory, EndingOf;
    hide FromWorld, Responses, Answered, Saw, ToolRuns, AdvisorAsks, Finished, Entries, Opening, EndsRun;
    ResponsesAreAnswered(c, w, turns);
    StoppedCalls(c, w, turns);
  }

  /** Stands for the response of a client that raises. */
  const NO_RESPONSE :=
    Response("", None, None, None, None, None, None, None, None, None, None, false, false)

  /** The configuration that a request and an adapter make. */
  lemma ConfigMeans(a: ToolLoopAdapter, q: Request)
    ensures a.ConfigFor(q).None? <==>
      (q.maxTurns.BadValue? || (q.maxTurns.IntValue? && q.maxTurns.n <= 0)
       || (q.maxTurns.TextValue? && (q.maxTurns.parsed.None? || q.maxTurns.parsed.value <= 0)))
      || (q.maxToolCalls.BadValue? || (q.maxToolCalls.IntValue? && q.maxToolCalls.n <= 0)
          || (q.maxToolCalls.TextValue? && (q.maxToolCalls.parsed.None? || q.maxToolCalls.parsed.value <= 0)))
    ensures a.ConfigFor(q).Some? ==>
      var c := a.ConfigFor(q).value;
      && (forall t :: t in c.allowedTools <==> t in q.tools)
      && (q.maxTurns.Absent? ==> c.maxTurns == 8)
      && (q.maxTurns.IntValue? ==> c.maxTurns == q.maxTurns.n)
      && (q.maxTurns.TextValue? ==> Some(c.maxTurns) == q.maxTurns.parsed)
      && (q.maxToolCalls.Absent? ==> c.maxToolCalls == None)
      && (q.maxToolCalls.IntValue? ==> c.maxToolCalls == Some(q.maxToolCalls.n))
      && (q.maxToolCalls.TextValue? ==> c.maxToolCalls == q.maxToolCalls.parsed)
      && c.hasExecutor == a.hasExecutor && c.hasAdvisorClient == a.hasAdvisorClient && c.advisor == a.advisorConfig
  {
  }

  /** Totals are known exactly if no dispatch raised. */
  lemma TotalsKnown(w: World, n: nat, input: Option<int>, output: Option<int>)
    requires ExactTotal(InputsOf(AdvisorTokens(w, n)), input) && ExactTotal(OutputsOf(AdvisorTokens(w, n)), output)
    ensures input.Some? <==> forall i: nat :: i < n ==> w.advisor(i).Some?
    ensures output.Some? <==> forall i: nat :: i < n ==> w.advisor(i).Some?
  {
    hide Sum;
    var outcomes := AdvisorTokens(w, n);
    forall i: nat | i < n
      ensures InputsOf(outcomes)[i].Some? <==> w.advisor(i).Some?
      ensures OutputsOf(outcomes)[i].Some? <==> w.advisor(i).Some?
    {
      assert outcomes[i].Some? <==> w.advisor(i).Some?;
    }
  }

  /** One more dispatch adds its own input tokens to the one total, its output to the other. */
  lemma DispatchAdds(w: World, n: nat, tokens: Tokens)
    requires w.advisor(n).Some? && w.advisor(n).value.tokens == tokens
    ensures Sum(InputsOf(AdvisorTokens(w, n + 1))) == Sum(InputsOf(AdvisorTokens(w, n))) + tokens.input
    ensures Sum(OutputsOf(AdvisorTokens(w, n + 1))) == Sum(OutputsOf(AdvisorTokens(w, n))) + tokens.output
  {
    hide Sum, InputsOf, OutputsOf;
    AdvisorTokensAppend(w, n);
    OutcomesAppend(AdvisorTokens(w, n), Some(tokens));
    TotalAppend(InputsOf(AdvisorTokens(w, n)), Some(tokens.input));
    TotalAppend(OutputsOf(AdvisorTokens(w, n)), Some(tokens.output));
  }

  /** Without figures of the client's own, the advisor is reported to have been dispatched for
      each call to it up to `maxUses`, with token totals exactly if no dispatch raised. */
  lemma AdvisorReportMeans(c: Config, w: World, asks: nat, r: AdvisorReport)
    requires c.advisor.Some? && ExactAdvisorReport(c, w, None, asks, r)
    ensures r.calls == Some(if asks <= c.advisor.value.maxUses then asks
                            else if c.advisor.value.maxUses <= 0 then 0 else c.advisor.value.maxUses)
    ensures r.inputTokens.Some? <==> forall i: nat :: i < r.calls.value ==> w.advisor(i).Some?
    ensures r.outputTokens.Some? <==> forall i: nat :: i < r.calls.value ==> w.advisor(i).Some?
    ensures r.inputTokens.Some? ==> r.inputTokens.value == Sum(InputsOf(AdvisorTokens(w, r.calls.value)))
    ensures r.outputTokens.Some? ==> r.outputTokens.value == Sum(OutputsOf(AdvisorTokens(w, r.calls.value)))
  {
    var n := Dispatches(asks, c.advisor.value.maxUses);
    TotalsKnown(w, n, r.inputTokens, r.outputTokens);
    hide Sum, InputsOf, OutputsOf, AdvisorTokens, AllReported;
  }
}
