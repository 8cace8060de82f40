/** src/aec_bench/adapters/direct_providers.py, `_retrying_request` and its streaming twin:
    how many requests one call sends, how long it keeps sending, and what it reports. */
module RetryLoop {
  import opened Results

  type Duration = r: real | r >= 0.0 witness 0.0

  datatype Limits = Limits(budget: int, initialBackoff: int, maxBackoff: int)

  const DEFAULTS := Limits(120, 2, 30)

  // ------------------------------------------------------------------------------ exchanges

  /** A `retry-after` header: `Unbounded` is a number that parses to infinity, `Unreadable`
      one that makes `float` or `time.sleep` raise (no number, NaN, minus infinity). */
  datatype Header = Missing | Number(value: real) | Unbounded | Unreadable

  datatype ErrorText = Http(code: int, body: string) | Connection(text: string) | BudgetExhausted

  datatype Completion = Completion(
    outputText: string,
    error: Option<ErrorText>,
    modelCalls: Option<int>,
    inputTokens: Option<int>,
    outputTokens: Option<int>)

  /** How one request ends. A parsed answer carries no call count yet; `Malformed` is an
      answer that makes the parser raise. `asksForStreaming` is the text test that
      `should_retry_with_streaming` applies to the error. */
  datatype Reply =
    | Parsed(answer: Completion)
    | Malformed
    | Refused(code: int, body: string, retryAfterMs: Header, retryAfter: Header, asksForStreaming: bool)
    | Unreachable(text: string)

  /** A request on the wire: its reply, the time it takes, and by how much a sleep after it
      overruns. The clock only moves forward. */
  datatype Exchange = Exchange(reply: Reply, elapsed: Duration, oversleep: Duration)

  // ------------------------------------------------------------------------- one attempt

  function Pow2(n: nat): (p: nat)
    ensures p > 0
  {
    if n == 0 then 1 else 2 * Pow2(n - 1)
  }

  function Min(a: real, b: real): real {
    if b < a then b else a
  }

  /** `min(initial * 2 ** (attempt - 1), maximum)`. */
  function Backoff(l: Limits, attempt: int): real
    requires attempt > 0
  {
    Min((l.initialBackoff * Pow2(attempt - 1)) as real, l.maxBackoff as real)
  }

  /** `_retry_after`; `None` stands for an exception. */
  function RetryAfter(l: Limits, r: Reply, attempt: int): Option<real>
    requires r.Refused? && attempt > 0
  {
    match r.retryAfterMs
    case Number(v) => Some(Min(v / 1000.0, l.maxBackoff as real))
    case Unbounded => Some(l.maxBackoff as real)
    case Unreadable => None
    case Missing =>
      match r.retryAfter
      case Number(v) => Some(Min(v, l.maxBackoff as real))
      case Unbounded => Some(l.maxBackoff as real)
      case Unreadable => None
      case Missing => Some(Backoff(l, attempt))
  }

  datatype Verdict = Answer(completion: Completion) | SwitchToStreaming | Wait(seconds: Duration) | Raise

  /** `time.sleep` refuses a negative time. */
  function Sleep(seconds: real): Verdict {
    if seconds < 0.0 then Raise else Wait(seconds)
  }

  function Failure(error: ErrorText): Completion {
    Completion("", Some(error), None, None, None)
  }

  function ErrorOf(r: Reply): ErrorText
    requires r.Refused? || r.Unreachable?
  {
    if r.Refused? then Http(r.code, r.body[..if |r.body| < 200 then |r.body| else 200]) else Connection(r.text)
  }

  /** What follows the given attempt; `mayStream` holds in `auto` mode before the switch. */
  function Judge(l: Limits, mayStream: bool, r: Reply, attempt: int): Verdict
    requires attempt > 0
  {
    match r
    case Parsed(answer) => Answer(answer)
    case Malformed => Raise
    case Unreachable(_) => Sleep(Backoff(l, attempt))
    case Refused(code, _, _, _, asksForStreaming) =>
      if mayStream && asksForStreaming then SwitchToStreaming
      else if code in {400, 401, 403, 404} then Answer(Failure(ErrorOf(r)))
      else if code == 429 then
        var wait := RetryAfter(l, r, attempt);
        if wait.None? then Raise else Sleep(wait.value)
      else if code >= 500 then Sleep(Backoff(l, attempt))
      else Answer(Failure(ErrorOf(r)))
  }

  /** The reply is followed by a wait, if the wait can be slept: a connection error, status 429
      or a server error. The four listed client errors need no branch of their own: every
      status below 500 other than 429 is final. */
  predicate Retried(mayStream: bool, r: Reply) {
    r.Unreachable? || (r.Refused? && (r.code == 429 || r.code >= 500) && !(mayStream && r.asksForStreaming))
  }

  /** The wait that a retried reply asks for: the backoff, unless status 429 comes with a
      header, milliseconds before seconds. `None` stands for a header that raises. */
  function AskedWait(l: Limits, r: Reply, attempt: int): Option<real>
    requires attempt > 0
  {
    if r.Refused? && r.code == 429 && !r.retryAfterMs.Missing? then Capped(l, r.retryAfterMs, 0.001)
    else if r.Refused? && r.code == 429 && !r.retryAfter.Missing? then Capped(l, r.retryAfter, 1.0)
    else Some(Backoff(l, attempt))
  }

  /** A header's number of units, each so many seconds, and at most the maximum. */
  function Capped(l: Limits, h: Header, unit: real): Option<real> {
    if h.Number? then
      var seconds := h.value * unit;
      Some(if seconds <= l.maxBackoff as real then seconds else l.maxBackoff as real)
    else if h.Unbounded? then Some(l.maxBackoff as real)
    else None
  }

  /** What follows each reply, and how long the wait is. */
  lemma VerdictsExactly(l: Limits, mayStream: bool, r: Reply, attempt: int)
    requires attempt > 0
    ensures var v := Judge(l, mayStream, r, attempt);
      && (v.SwitchToStreaming? <==> mayStream && r.Refused? && r.asksForStreaming)
      && (v.Answer? <==>
            r.Parsed? || (r.Refused? && r.code != 429 && r.code < 500 && !(mayStream && r.asksForStreaming)))
      && (v.Raise? <==> (
            r.Malformed?
            || (Retried(mayStream, r) && (AskedWait(l, r, attempt).None? || AskedWait(l, r, attempt).value < 0.0))))
      && (v.Wait? <==> Retried(mayStream, r) && AskedWait(l, r, attempt).Some? && AskedWait(l, r, attempt).value >= 0.0)
      && (v.Wait? ==> Some(v.seconds) == AskedWait(l, r, attempt) && v.seconds <= l.maxBackoff as real)
  {
  }

  /** The backoff starts at the initial one and doubles up to the maximum. */
  lemma BackoffDoubles(l: Limits, attempt: int)
    requires attempt > 0 && l.initialBackoff >= 0 && l.maxBackoff >= 0
    ensures Backoff(l, 1) == (if l.initialBackoff <= l.maxBackoff then l.initialBackoff else l.maxBackoff) as real
    ensures Backoff(l, attempt + 1) ==
            if 2.0 * Backoff(l, attempt) <= l.maxBackoff as real then 2.0 * Backoff(l, attempt)
            else l.maxBackoff as real
  {
    assert Pow2(attempt) == 2 * Pow2(attempt - 1);
    assert (l.initialBackoff * Pow2(attempt)) as real == 2.0 * (l.initialBackoff * Pow2(attempt - 1)) as real;
  }

  // --------------------------------------------------------------------------- one phase

  function WaitAfter(l: Limits, mayStream: bool, r: Reply, attempt: int): Duration
    requires attempt > 0
  {
    var v := Judge(l, mayStream, r, attempt);
    if v.Wait? then v.seconds else 0.0
  }

  /** The waits asked for after all requests of a log. */
  function TotalWait(l: Limits, mayStream: bool, log: seq<Exchange>): real {
    if log == [] then 0.0
    else TotalWait(l, mayStream, log[..|log| - 1]) + WaitAfter(l, mayStream, log[|log| - 1].reply, |log|)
  }

  /** The time that has passed once all requests of a log are over and slept upon. */
  function Clock(l: Limits, mayStream: bool, log: seq<Exchange>): real {
    if log == [] then 0.0
    else
      var e := log[|log| - 1];
      var v := Judge(l, mayStream, e.reply, |log|);
      Clock(l, mayStream, log[..|log| - 1]) + e.elapsed + (if v.Wait? then v.seconds + e.oversleep else 0.0)
  }

  /** A log that one phase can produce when `lead` passes between the computation of its
      deadline and the first look at the clock: each request starts within the budget, and all
      but the last are waited upon. */
  ghost predicate Phase(l: Limits, mayStream: bool, lead: Duration, log: seq<Exchange>) {
    forall i :: 0 <= i < |log| ==>
      && lead + Clock(l, mayStream, log[..i]) < l.budget as real
      && (i < |log| - 1 ==> Judge(l, mayStream, log[i].reply, i + 1).Wait?)
  }

  /** The phase goes no further: its last request settled it, or the budget is used up. */
  ghost predicate Settled(l: Limits, mayStream: bool, lead: Duration, log: seq<Exchange>) {
    || (log != [] && !Judge(l, mayStream, log[|log| - 1].reply, |log|).Wait?)
    || lead + Clock(l, mayStream, log) >= l.budget as real
  }

  /** What a settled phase that does not switch comes to, after `prior` earlier requests. */
  datatype Outcome = Returned(completion: Completion) | Aborted

  function NonZero(n: nat): Option<int> {
    if n == 0 then None else Some(n)
  }

  function Ending(l: Limits, mayStream: bool, log: seq<Exchange>, prior: nat): Outcome {
    if log == [] then Returned(Failure(BudgetExhausted).(modelCalls := NonZero(prior)))
    else
      var last := log[|log| - 1].reply;
      match Judge(l, mayStream, last, |log|)
      case Answer(c) => Returned(c.(modelCalls := Some(prior + |log|)))
      case Wait(_) => Returned(Failure(ErrorOf(last)).(modelCalls := Some(prior + |log|)))
      case _ => Aborted
  }

  /** What a phase that does not switch returns, by the last reply of its log: a parsed answer
      as it is, the error of a refusal or of a failed connection, or the exhausted budget; the
      number of calls is that of all requests sent. */
  ghost predicate Decided(l: Limits, log: seq<Exchange>, prior: nat, o: Outcome) {
    && (log == [] ==>
          o == Returned(Completion("", Some(BudgetExhausted), if prior == 0 then None else Some(prior), None, None)))
    && (log != [] ==>
          var r, calls := log[|log| - 1].reply, Some(prior + |log|);
          && (r.Parsed? ==> o == Returned(Completion(r.answer.outputText, r.answer.error, calls, r.answer.inputTokens,
                                                     r.answer.outputTokens)))
          && (o.Aborted? <==>
                || r.Malformed?
                || (Retried(false, r) && (AskedWait(l, r, |log|).None? || AskedWait(l, r, |log|).value < 0.0)))
          && (r.Refused? && o.Returned? ==>
                exists head: string ::
                  && head <= r.body && |head| == (if |r.body| < 200 then |r.body| else 200)
                  && o.completion == Completion("", Some(Http(r.code, head)), calls, None, None))
          && (r.Unreachable? && o.Returned? ==>
                o.completion == Completion("", Some(Connection(r.text)), calls, None, None)))
  }

  lemma EndingIsDecided(l: Limits, mayStream: bool, log: seq<Exchange>, prior: nat)
    requires log != [] ==> !(mayStream && log[|log| - 1].reply.Refused? && log[|log| - 1].reply.asksForStreaming)
    ensures Decided(l, log, prior, Ending(l, mayStream, log, prior))
  {
    if log != [] {
      var r := log[|log| - 1].reply;
      VerdictsExactly(l, mayStream, r, |log|);
      if Judge(l, mayStream, r, |log|).Answer? {
        JudgedAnswer(l, mayStream, r, |log|);
      }
      hide Judge, AskedWait;
      if r.Refused? {
        var head := r.body[..if |r.body| < 200 then |r.body| else 200];
        assert ErrorOf(r) == Http(r.code, head);
      }
    }
  }

  lemma JudgedAnswer(l: Limits, mayStream: bool, r: Reply, attempt: int)
    requires attempt > 0 && Judge(l, mayStream, r, attempt).Answer?
    ensures r.Parsed? ==> Judge(l, mayStream, r, attempt).completion == r.answer
    ensures !r.Parsed? ==> r.Refused? && Judge(l, mayStream, r, attempt).completion == Failure(ErrorOf(r))
  {
  }

  ghost predicate Switches(l: Limits, mayStream: bool, log: seq<Exchange>) {
    log != [] && Judge(l, mayStream, log[|log| - 1].reply, |log|).SwitchToStreaming?
  }

  lemma PhaseStep(l: Limits, mayStream: bool, lead: Duration, log: seq<Exchange>, e: Exchange)
    requires Phase(l, mayStream, lead, log) && lead + Clock(l, mayStream, log) < l.budget as real
    requires log == [] || Judge(l, mayStream, log[|log| - 1].reply, |log|).Wait?
    ensures Phase(l, mayStream, lead, log + [e])
  {
    hide Judge, Clock;
    var longer := log + [e];
    assert longer[..|log|] == log;
    forall i | 0 <= i < |longer|
      ensures lead + Clock(l, mayStream, longer[..i]) < l.budget as real
      ensures i < |longer| - 1 ==> Judge(l, mayStream, longer[i].reply, i + 1).Wait?
    {
      if i < |log| {
        assert longer[..i] == log[..i];
        assert longer[i] == log[i];
        assert i < |log| - 1 ==> Judge(l, mayStream, log[i].reply, i + 1).Wait?;
      }
    }
  }

  lemma ClockStep(l: Limits, mayStream: bool, log: seq<Exchange>, e: Exchange)
    ensures Clock(l, mayStream, log + [e]) == Clock(l, mayStream, log) + e.elapsed +
            (var v := Judge(l, mayStream, e.reply, |log| + 1); if v.Wait? then v.seconds + e.oversleep else 0.0)
  {
    hide Judge;
    var longer := log + [e];
    assert longer[..|longer| - 1] == log;
  }

  // ---------------------------------------------------------------------- bounds on a phase

  lemma {:induction false} ClockCoversWaits(l: Limits, mayStream: bool, log: seq<Exchange>)
    ensures TotalWait(l, mayStream, log) <= Clock(l, mayStream, log)
  {
    hide Judge;
    if log != [] {
      ClockCoversWaits(l, mayStream, log[..|log| - 1]);
    }
  }

  /** The waits before the last request together stay below the budget. */
  lemma WaitsFitBudget(l: Limits, mayStream: bool, lead: Duration, log: seq<Exchange>)
    requires Phase(l, mayStream, lead, log) && log != []
    ensures TotalWait(l, mayStream, log[..|log| - 1]) < l.budget as real
  {
    ClockCoversWaits(l, mayStream, log[..|log| - 1]);
  }

  lemma {:induction false} WaitsAddUp(l: Limits, mayStream: bool, log: seq<Exchange>, w: real)
    requires forall i :: 0 <= i < |log| ==> WaitAfter(l, mayStream, log[i].reply, i + 1) >= w
    ensures TotalWait(l, mayStream, log) >= |log| as real * w
  {
    hide WaitAfter;
    if log != [] {
      var init := log[..|log| - 1];
      WaitsAddUp(l, mayStream, init, w);
      assert |log| as real * w == |init| as real * w + w;
    }
  }

  /** If every wait lasts at least w, a phase sends fewer than budget / w + 1 requests. */
  lemma RequestBound(l: Limits, mayStream: bool, lead: Duration, log: seq<Exchange>, w: real)
    requires Phase(l, mayStream, lead, log) && log != []
    requires forall i :: 0 <= i < |log| - 1 ==> WaitAfter(l, mayStream, log[i].reply, i + 1) >= w
    ensures (|log| - 1) as real * w < l.budget as real
  {
    hide Phase, WaitAfter;
    WaitsFitBudget(l, mayStream, lead, log);
    WaitsAddUp(l, mayStream, log[..|log| - 1], w);
  }

  function TotalBackoff(l: Limits, n: nat): real {
    if n == 0 then 0.0 else TotalBackoff(l, n - 1) + Backoff(l, n)
  }

  ghost predicate NoHeaders(log: seq<Exchange>) {
    forall e :: e in log && e.reply.Refused? ==> e.reply.retryAfterMs.Missing? && e.reply.retryAfter.Missing?
  }

  lemma {:induction false} WaitsAreBackoffs(l: Limits, mayStream: bool, log: seq<Exchange>)
    requires NoHeaders(log)
    requires forall i :: 0 <= i < |log| ==> Judge(l, mayStream, log[i].reply, i + 1).Wait?
    ensures TotalWait(l, mayStream, log) == TotalBackoff(l, |log|)
  {
    if log != [] {
      var n := |log| - 1;
      WaitsAreBackoffs(l, mayStream, log[..n]);
      assert log[n] in log;
      assert Judge(l, mayStream, log[n].reply, n + 1).Wait?;
      WaitIsBackoff(l, mayStream, log[n].reply, n + 1);
    }
  }

  lemma WaitIsBackoff(l: Limits, mayStream: bool, r: Reply, attempt: int)
    requires attempt > 0 && Judge(l, mayStream, r, attempt).Wait?
    requires r.Refused? ==> r.retryAfterMs.Missing? && r.retryAfter.Missing?
    ensures WaitAfter(l, mayStream, r, attempt) == Backoff(l, attempt)
  {
  }

  /** Without headers the backoffs before the last request fit the budget. */
  lemma BackoffBound(l: Limits, mayStream: bool, lead: Duration, log: seq<Exchange>)
    requires Phase(l, mayStream, lead, log) && log != [] && NoHeaders(log)
    ensures TotalBackoff(l, |log| - 1) < l.budget as real
  {
    hide Judge;
    WaitsFitBudget(l, mayStream, lead, log);
    WaitsAreBackoffs(l, mayStream, log[..|log| - 1]);
  }

  lemma {:induction false} BackoffsAddUp(l: Limits, n: nat, w: int)
    requires w > 0 && l.initialBackoff >= w && l.maxBackoff >= w
    ensures TotalBackoff(l, n) >= (n * w) as real
  {
    if n > 0 {
      BackoffsAddUp(l, n - 1, w);
      assert Pow2(n - 1) >= 1;
      assert l.initialBackoff * Pow2(n - 1) >= l.initialBackoff;
      assert (n * w) as real == ((n - 1) * w) as real + w as real;
    }
  }

  /** Without headers, and with both backoff settings at least w seconds, a phase sends at
      most ceil(budget / w) requests. */
  lemma PositiveBackoffBound(l: Limits, mayStream: bool, lead: Duration, log: seq<Exchange>, w: int)
    requires Phase(l, mayStream, lead, log) && NoHeaders(log)
    requires w > 0 && l.initialBackoff >= w && l.maxBackoff >= w
    ensures log != [] ==> (|log| - 1) * w < l.budget
  {
    hide Phase, NoHeaders;
    if log != [] {
      BackoffBound(l, mayStream, lead, log);
      BackoffsAddUp(l, |log| - 1, w);
    }
  }

  /** A phase whose waits last at least w and add up to the budget is over: the loop ends. */
  lemma LongPhaseSettles(l: Limits, mayStream: bool, lead: Duration, log: seq<Exchange>, w: real)
    requires |log| as real * w >= l.budget as real
    requires forall i :: 0 <= i < |log| ==> WaitAfter(l, mayStream, log[i].reply, i + 1) >= w
    ensures Settled(l, mayStream, lead, log)
  {
    WaitsAddUp(l, mayStream, log, w);
    ClockCoversWaits(l, mayStream, log);
  }

  lemma DefaultBackoffs()
    ensures Backoff(DEFAULTS, 1) == 2.0 && Backoff(DEFAULTS, 2) == 4.0 && Backoff(DEFAULTS, 3) == 8.0 &&
      Backoff(DEFAULTS, 4) == 16.0
    ensures forall n: int :: n >= 5 ==> Backoff(DEFAULTS, n) == 30.0
  {
    assert Pow2(0) == 1 && Pow2(1) == 2 && Pow2(2) == 4 && Pow2(3) == 8;
    forall n: int | n >= 5 ensures Backoff(DEFAULTS, n) == 30.0 {
      Pow2Grows(4, n - 1);
      assert Pow2(4) == 16;
    }
  }

  lemma {:induction false} Pow2Grows(a: nat, b: nat)
    requires a <= b
    ensures Pow2(a) <= Pow2(b)
    decreases b
  {
    if a < b {
      Pow2Grows(a, b - 1);
    }
  }

  lemma {:induction false} DefaultTotal(n: nat)
    requires n >= 4
    ensures TotalBackoff(DEFAULTS, n) == 30.0 * (n - 3) as real
  {
    DefaultBackoffs();
    if n > 4 {
      DefaultTotal(n - 1);
    } else {
      assert TotalBackoff(DEFAULTS, 1) == 2.0 && TotalBackoff(DEFAULTS, 2) == 6.0 && TotalBackoff(DEFAULTS, 3) == 14.0;
    }
  }

  /** With the default settings and no header, a phase sends at most seven requests. */
  lemma DefaultRequestBound(mayStream: bool, lead: Duration, log: seq<Exchange>)
    requires Phase(DEFAULTS, mayStream, lead, log) && NoHeaders(log)
    ensures |log| <= 7
  {
    if |log| > 7 {
      hide Phase;
      BackoffBound(DEFAULTS, mayStream, lead, log);
      DefaultTotal(|log| - 1);
    }
  }

  /** n instant connection failures. */
  function Outage(n: nat): seq<Exchange> {
    seq(n, _ => Exchange(Unreachable("down"), 0.0, 0.0))
  }

  lemma {:induction false} OutageClock(mayStream: bool, n: nat)
    ensures Clock(DEFAULTS, mayStream, Outage(n)) == TotalBackoff(DEFAULTS, n)
  {
    if n > 0 {
      var e := Outage(n)[n - 1];
      assert Outage(n)[..n - 1] == Outage(n - 1);
      OutageClock(mayStream, n - 1);
      DefaultBackoffs();
    }
  }

  lemma DefaultTotals()
    ensures TotalBackoff(DEFAULTS, 0) == 0.0 && TotalBackoff(DEFAULTS, 1) == 2.0
    ensures TotalBackoff(DEFAULTS, 2) == 6.0 && TotalBackoff(DEFAULTS, 3) == 14.0
  {
    DefaultBackoffs();
  }

  lemma OutagePrefixClock(mayStream: bool, i: nat)
    requires i <= 7
    ensures Clock(DEFAULTS, mayStream, Outage(7)[..i]) == TotalBackoff(DEFAULTS, i)
    ensures i < 7 ==> TotalBackoff(DEFAULTS, i) < 120.0
    ensures i == 7 ==> TotalBackoff(DEFAULTS, i) == 120.0
  {
    assert Outage(7)[..i] == Outage(i);
    OutageClock(mayStream, i);
    DefaultTotals();
    if i >= 4 {
      DefaultTotal(i);
    }
  }

  lemma OutageIsWaitedUpon(mayStream: bool, attempt: int)
    requires attempt > 0
    ensures Judge(DEFAULTS, mayStream, Unreachable("down"), attempt).Wait?
  {
  }

  /** Seven requests are really sent when every connection fails at once. */
  lemma DefaultBoundIsReached(mayStream: bool)
    ensures Phase(DEFAULTS, mayStream, 0.0, Outage(7)) && Settled(DEFAULTS, mayStream, 0.0, Outage(7))
  {
    hide Judge, Clock, TotalBackoff;
    forall i | 0 <= i <= 7
      ensures Clock(DEFAULTS, mayStream, Outage(7)[..i]) <= 120.0
      ensures Clock(DEFAULTS, mayStream, Outage(7)[..i]) == 120.0 <==> i == 7
      ensures Judge(DEFAULTS, mayStream, Unreachable("down"), i + 1).Wait?
    {
      OutagePrefixClock(mayStream, i);
      OutageIsWaitedUpon(mayStream, i + 1);
    }
    assert Outage(7)[..7] == Outage(7);
  }

  // ------------------------------------------------------------------------- the two loops

  /** The provider and the clock: requests answered so far, and the exchanges to come. A run
      that would need more than these is cut off, so that what is proved of runs cut off
      anywhere is proved of every finite part of a run. */
  class Transport {
    var log: seq<Exchange>
    var coming: seq<Exchange>
    var now: real

    constructor (coming: seq<Exchange>)
      ensures log == [] && this.coming == coming && now == 0.0
    {
      log, this.coming, now := [], coming, 0.0;
    }

    method Send() returns (e: Exchange)
      requires coming != []
      modifies this
      ensures e == old(coming)[0] && coming == old(coming)[1..] && log == old(log) + [e] && now == old(now) + e.elapsed
    {
      e := coming[0];
      coming, log, now := coming[1..], log + [e], now + e.elapsed;
    }

    method SleepFor(seconds: Duration, oversleep: Duration)
      modifies this`now
      ensures now == old(now) + seconds + oversleep
    {
      now := now + seconds + oversleep;
    }
  }

  /** The loop shared by both functions: `_streaming_openai_compatible_request` is the case
      `mayStream == false`, `_retrying_request` goes on with it when `switched` holds. */
  method RunPhase(l: Limits, mayStream: bool, lead: Duration, t: Transport, prior: nat)
    returns (outcome: Option<Outcome>, switched: bool, attempts: nat, ghost phase: seq<Exchange>)
    modifies t
    ensures t.log == old(t.log) + phase && attempts == |phase|
    ensures old(t.coming) == phase + t.coming
    ensures Phase(l, mayStream, lead, phase)
    ensures switched <==> Switches(l, mayStream, phase)
    ensures outcome.Some? || switched ==> Settled(l, mayStream, lead, phase)
    ensures outcome.Some? ==> outcome.value == Ending(l, mayStream, phase, prior)
    ensures outcome.None? && !switched ==> t.coming == []
    ensures outcome.Some? ==> !switched
  {
    hide Judge, Phase, Clock;
    EmptyPhase(l, mayStream, lead);
    var deadline := t.now + l.budget as real;
    t.SleepFor(0.0, lead);
    var attempt := 0;
    var lastError: Option<ErrorText> := None;
    phase := [];
    while t.now < deadline && t.coming != []
      invariant attempt == |phase|
      invariant t.log == old(t.log) + phase && old(t.coming) == phase + t.coming
      invariant Phase(l, mayStream, lead, phase)
      invariant t.now == deadline - l.budget as real + lead + Clock(l, mayStream, phase)
      invariant phase != [] ==> Judge(l, mayStream, phase[|phase| - 1].reply, |phase|).Wait?
      invariant phase == [] <==> lastError.None?
      invariant phase != [] ==>
        (var r := phase[|phase| - 1].reply; (r.Refused? || r.Unreachable?) && lastError == Some(ErrorOf(r)))
      decreases |t.coming|
    {
      attempt := attempt + 1;
      var e := t.Send();
      PhaseStep(l, mayStream, lead, phase, e);
      ClockStep(l, mayStream, phase, e);
      phase := phase + [e];
      var verdict := Judge(l, mayStream, e.reply, attempt);
      match verdict
      case Answer(c) =>
        return Some(Returned(c.(modelCalls := Some(prior + attempt)))), false, attempt, phase;
      case SwitchToStreaming =>
        return None, true, attempt, phase;
      case Raise =>
        return Some(Aborted), false, attempt, phase;
      case Wait(seconds) =>
        WaitNamesError(l, mayStream, e.reply, attempt);
        lastError := Some(ErrorOf(e.reply));
        t.SleepFor(seconds, e.oversleep);
    }
    if t.now < deadline {
      return None, false, attempt, phase;
    }
    var error := lastError.GetOr(BudgetExhausted);
    return Some(Returned(Failure(error).(modelCalls := NonZero(prior + attempt)))), false, attempt, phase;
  }

  lemma WaitNamesError(l: Limits, mayStream: bool, r: Reply, attempt: int)
    requires attempt > 0 && Judge(l, mayStream, r, attempt).Wait?
    ensures r.Refused? || r.Unreachable?
  {
  }

  datatype StreamMode = Never | Auto | Always

  /** `_retrying_request`. `first` and `second` are the phases before and after the switch,
      `leads` the times that pass before their first look at the clock; no outcome means that
      the run was cut off. */
  method RetryingRequest(l: Limits, mode: StreamMode, leads: (Duration, Duration), t: Transport)
    returns (outcome: Option<Outcome>, ghost first: seq<Exchange>, ghost second: seq<Exchange>)
    modifies t
    ensures t.log == old(t.log) + first + second
    ensures old(t.coming) == first + second + t.coming
    ensures Phase(l, mode.Auto?, leads.0, first) && Phase(l, false, leads.1, second)
    ensures mode.Always? ==> first == []
    ensures second != [] ==> mode.Always? || Switches(l, mode.Auto?, first)
    ensures outcome.Some? ==>
      if mode.Always? || Switches(l, mode.Auto?, first) then
        Settled(l, false, leads.1, second) && outcome.value == Ending(l, false, second, |first|)
      else
        Settled(l, mode.Auto?, leads.0, first) && outcome.value == Ending(l, mode.Auto?, first, 0)
    ensures outcome.Some? && outcome.value.Returned? ==>
      outcome.value.completion.modelCalls == NonZero(|t.log| - |old(t.log)|)
    ensures forall i :: 0 <= i < |first| - 1 ==> Retried(mode.Auto?, first[i].reply)
    ensures forall i :: 0 <= i < |second| - 1 ==> Retried(false, second[i].reply)
    ensures outcome.Some? ==>
      if mode.Always? || (mode.Auto? && AsksToStream(first)) then Decided(l, second, |first|, outcome.value)
      else Decided(l, first, 0, outcome.value)
    ensures outcome.None? ==> t.coming == []
  {
    hide Judge, Phase, Settled;
    first, second := [], [];
    var switched := true;
    var attempts := 0;
    EmptyPhase(l, mode.Auto?, leads.0);
    EmptyPhase(l, false, leads.1);
    hide Decided, Ending, Retried;
    if !mode.Always? {
      outcome, switched, attempts, first := RunPhase(l, mode.Auto?, leads.0, t, 0);
    }
    if switched {
      var again;
      var more;
      outcome, again, more, second := RunPhase(l, false, leads.1, t, attempts);
      NoSecondSwitch(l, second);
    }
    RepliesBeforeLast(l, mode.Auto?, leads.0, first);
    RepliesBeforeLast(l, false, leads.1, second);
    SwitchesIff(l, mode.Auto?, first);
    EndingIsDecided(l, false, second, |first|);
    if !AsksToStream(first) || !mode.Auto? {
      EndingIsDecided(l, mode.Auto?, first, 0);
    }
  }

  /** The last request was refused with an error that asks for streaming. */
  predicate AsksToStream(log: seq<Exchange>) {
    log != [] && log[|log| - 1].reply.Refused? && log[|log| - 1].reply.asksForStreaming
  }

  lemma SwitchesIff(l: Limits, mayStream: bool, log: seq<Exchange>)
    ensures Switches(l, mayStream, log) <==> mayStream && AsksToStream(log)
  {
    if log != [] {
      VerdictsExactly(l, mayStream, log[|log| - 1].reply, |log|);
    }
  }

  lemma RepliesBeforeLast(l: Limits, mayStream: bool, lead: Duration, log: seq<Exchange>)
    requires Phase(l, mayStream, lead, log)
    ensures forall i :: 0 <= i < |log| - 1 ==> Retried(mayStream, log[i].reply)
  {
    forall i | 0 <= i < |log| - 1 ensures Retried(mayStream, log[i].reply) {
      VerdictsExactly(l, mayStream, log[i].reply, i + 1);
    }
  }

  lemma EmptyPhase(l: Limits, mayStream: bool, lead: Duration)
    ensures Phase(l, mayStream, lead, []) && !Switches(l, mayStream, []) && Clock(l, mayStream, []) == 0.0
  {
  }

  lemma NoSecondSwitch(l: Limits, log: seq<Exchange>)
    ensures !Switches(l, false, log)
  {
  }

  /** Every way out of a phase names the number of requests sent, its predecessors' included. */
  lemma EndingCountsRequests(l: Limits, mayStream: bool, log: seq<Exchange>, prior: nat)
    ensures var o := Ending(l, mayStream, log, prior); o.Returned? ==> o.completion.modelCalls == NonZero(prior + |log|)
  {
    hide Judge;
  }
}
