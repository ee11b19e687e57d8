/**
 The retry loop of one request as a state machine. The host is an adversary: a script says, call by call,
 what the context, the scheduler callbacks, the reply, the runtime metadata and the wait turn out to be.
 A finite script is a prefix of a run, so a fact about every script is a fact about every reachable state.
 Scheduler callbacks happen only inside the host call they belong to.
 */
module RetryLoop {
  import opened Wrappers
  import opened Config
  import opened ErrorStatus
  import opened RetryRules
  import opened Scheduler
  import opened Cooldown
  import Backoff

  datatype HostCall<R> = HostCall(
    ctx: Option<Err>,                       // ctx.Err() at the top of the loop
    picks: seq<seq<Candidate>>,             // candidate lists of the scheduler callbacks, in order
    reply: R,
    authList: Option<seq<AuthEntry>>,       // runtime metadata, None when it cannot be read
    wait: Timer)                            // what becomes of the wait that follows, if there is one

  /** A failure event found in the first stream payload. */
  datatype Startup = Startup(status: int, details: string)

  /** What the loop sees of a reply. Only stream replies can carry a startup failure. */
  datatype Reply = Reply(status: int, err: Option<Err>, startup: Option<Startup>)

  datatype Kind = Poll | Release | Stop | Accepted | Matched | Unmatched

  predicate Attempted(kind: Kind) {
    kind.Accepted? || kind.Matched? || kind.Unmatched?
  }

  datatype Sent = Sent(id: string, round: int)

  /** The trace entry of one host call: its class, attempt number, pin, and the dispatch it made. */
  datatype Record = Record(kind: Kind, attempt: int, pin: string, sent: Option<Sent>)

  datatype Result = Completed | Failed(err: Err)

  datatype Loop = Loop(
    creds: Option<State>,                   // None when same-credential retries are off
    attempt: int,
    lastErr: Option<Err>,
    log: seq<Record>,
    result: Option<Result>)

  function Start(cfg: PluginConfig): Loop {
    Loop(if cfg.sameAuthRetries == 0 then None else Some(Initial(cfg.sameAuthRetries)), 1, None, [], None)
  }

  /** All callbacks of one host call, with the dispatch that one of them made. */
  function Callbacks(s: State, picks: seq<seq<Candidate>>): (State, Option<Sent>)
    decreases |picks|
  {
    if picks == [] then (s, None)
    else
      var (t, response) := Pick(s, picks[0]);
      var (u, later) := Callbacks(t, picks[1..]);
      (u, if response.Use? then Some(Sent(response.authID, t.round)) else later)
  }

  function StartupErr(f: Startup): Err {
    StartupError(f.status, f.details)
  }

  /** A startup failure becomes an error only when it may be retried; otherwise its bytes are forwarded. */
  function StartupOutcome(cfg: PluginConfig, attempt: int, f: Option<Startup>): Option<Err> {
    if f.Some? && RuleMatches(cfg, f.value.status, Some(StartupErr(f.value))) && BelowCap(cfg, attempt)
    then Some(StartupErr(f.value)) else None
  }

  function Outcome(cfg: PluginConfig, attempt: int, r: Reply): Option<Err> {
    if r.err.Some? then r.err else StartupOutcome(cfg, attempt, r.startup)
  }

  /** The status the decision uses, and the error kept as the last failure. */
  function FailureStatus(env: Env, e: Option<Err>, status: int): int {
    if e.Some? then StatusFromError(env.pattern, e.value) else status
  }

  function FailureErr(env: Env, e: Option<Err>, status: int): Err {
    if e.Some? then ErrorWithStatus(e.value, StatusFromError(env.pattern, e.value)) else StatusError(status, None)
  }

  function CapReached(cfg: PluginConfig): Err {
    Plain("max_attempts reached (" + Decimal(cfg.maxAttempts) + ")")
  }

  function Ended(env: Env, last: Option<Err>, reason: Err): Option<Result> {
    Some(Failed(RetryTerminationError(env.pattern, last, reason)))
  }

  function DelayOf(cfg: PluginConfig, attempt: int): int {
    Backoff.Delay(cfg.initialDelayMS, cfg.maxDelayMS, attempt)
  }

  datatype Conclusion = Conclusion(creds: Option<State>, matched: bool, last: Err, result: Option<Result>)

  /** After a failed attempt: stop with its failure, or update the scheduler, wait, and go on. */
  function Conclude(env: Env, cfg: PluginConfig, creds: Option<State>, attempt: int, e: Option<Err>, status: int,
                    wait: Timer): Conclusion {
    var matched := RuleMatches(cfg, FailureStatus(env, e, status), e);
    var last := FailureErr(env, e, status);
    var failover := !matched && creds.Some? && MayRelease(creds.value, cfg.maxAttempts, attempt);
    if !(matched && BelowCap(cfg, attempt)) && !failover then
      var capped := creds.Some? && cfg.maxAttempts > 0 && attempt >= cfg.maxAttempts;
      Conclusion(creds, matched, last, if capped then Ended(env, Some(last), CapReached(cfg)) else Some(Failed(last)))
    else
      var waited := WaitResult(DelayOf(cfg, attempt), wait);
      Conclusion(Continued(creds, failover, matched), matched, last,
                 if waited.Some? then Ended(env, Some(last), waited.value) else None)
  }

  function Continued(creds: Option<State>, failover: bool, matched: bool): Option<State> {
    if creds.None? then None
    else Some(AfterFailure(if failover then Retired(creds.value, false) else creds.value, matched))
  }

  /** A call that counts as an attempt: accept it, or conclude its failure. */
  function Settle(env: Env, cfg: PluginConfig, st: Loop, pin: string, sent: Option<Sent>, r: Reply,
                  wait: Timer): Loop {
    var e := Outcome(cfg, st.attempt, r);
    if e.None? && !ShouldRetryStatus(cfg, r.status) then
      st.(log := st.log + [Record(Accepted, st.attempt, pin, sent)], result := Some(Completed))
    else
      var x := Conclude(env, cfg, st.creds, st.attempt, e, r.status, wait);
      Loop(x.creds, if x.result.None? then st.attempt + 1 else st.attempt, Some(x.last),
           st.log + [Record(if x.matched then Matched else Unmatched, st.attempt, pin, sent)], x.result)
  }

  /** What one host call did: scheduler state after it, pin before it, its dispatch, and its class. */
  datatype Called = Called(creds: Option<State>, pin: string, sent: Option<Sent>, verdict: Verdict)

  function Call<R>(env: Env, cfg: PluginConfig, creds: Option<State>, attempt: int, h: HostCall<R>,
                   e: Option<Err>): Called {
    if creds.None? then Called(None, "", None, Dispatched)
    else
      var (during, sent) := Callbacks(Prepared(creds.value), h.picks);
      var (after, verdict) := SelectionFailure(env, cfg, during, e, attempt, h.authList, h.wait);
      Called(Some(after), creds.value.authID, sent, verdict)
  }

  function KindOf(v: Verdict): Kind {
    if v.Polled? then Poll else if v.Released? then Release else Stop
  }

  /** The error that ends the loop after a call that was not an attempt, if it ends. */
  function SelectionEnd(v: Verdict, e: Option<Err>): Option<Err> {
    match v
    case Polled(wait) => wait
    case NoCredential => e
    case _ => None
  }

  /** A call that was not an attempt: its class goes into the trace, and its wait or error may end the loop. */
  function Uncounted(env: Env, st: Loop, pin: string, sent: Option<Sent>, v: Verdict, e: Option<Err>): Loop {
    var end := SelectionEnd(v, e);
    Loop(st.creds, st.attempt, st.lastErr, st.log + [Record(KindOf(v), st.attempt, pin, sent)],
         if end.Some? then Ended(env, st.lastErr, end.value) else None)
  }

  /** One turn of the loop. A finished loop stays as it is. */
  function Step(env: Env, cfg: PluginConfig, st: Loop, h: HostCall<Reply>): Loop {
    if st.result.Some? then st
    else if h.ctx.Some? then st.(result := Ended(env, st.lastErr, h.ctx.value))
    else
      var c := Call(env, cfg, st.creds, st.attempt, h, h.reply.err);
      if c.verdict.Dispatched? then Settle(env, cfg, st.(creds := c.creds), c.pin, c.sent, h.reply, h.wait)
      else Uncounted(env, st.(creds := c.creds), c.pin, c.sent, c.verdict, h.reply.err)
  }

  function Run(env: Env, cfg: PluginConfig, st: Loop, script: seq<HostCall<Reply>>): Loop
    decreases |script|
  {
    if script == [] then st else Run(env, cfg, Step(env, cfg, st, script[0]), script[1..])
  }

  lemma {:induction false} RunFinished(env: Env, cfg: PluginConfig, st: Loop, script: seq<HostCall<Reply>>)
    requires st.result.Some?
    ensures Run(env, cfg, st, script) == st
  {
    if script != [] { RunFinished(env, cfg, st, script[1..]); }
  }

  lemma {:induction false} RunAppend(env: Env, cfg: PluginConfig, st: Loop, a: seq<HostCall<Reply>>,
                                     b: seq<HostCall<Reply>>)
    ensures Run(env, cfg, st, a + b) == Run(env, cfg, Run(env, cfg, st, a), b)
    decreases |a|
  {
    if a == [] {
      assert a + b == b;
    } else {
      assert (a + b)[1..] == a[1..] + b;
      RunAppend(env, cfg, Step(env, cfg, st, a[0]), a[1..], b);
    }
  }

  /** How many callbacks of one host call are answered with a credential. */
  function Uses(s: State, picks: seq<seq<Candidate>>): nat
    decreases |picks|
  {
    if picks == [] then 0
    else (if Pick(s, picks[0]).1.Use? then 1 else 0) + Uses(Pick(s, picks[0]).0, picks[1..])
  }

  /** Everything the callbacks of one host call can do to the scheduler. */
  predicate CallRules(s: State, t: State, sent: Option<Sent>, offered: set<string>) {
    && t.retries == s.retries && t.excluded == s.excluded && t.failures == s.failures
    && s.candidates <= t.candidates <= s.candidates + offered
    && (sent.Some? <==> !s.dispatched && t.dispatched)
    && (sent.None? ==> t == s.(candidates := t.candidates, deferred := t.deferred))
    && (sent.None? && !s.dispatched ==> t == s.(candidates := s.candidates + offered))
    && (sent.Some? ==>
          && t.authID == sent.value.id && t.round == sent.value.round
          && sent.value.id in offered && sent.value.id !in s.excluded
          && (s.authID != "" ==> sent.value.id == s.authID && t.round == s.round)
          && (t.round == s.round ==> t.exhausted == s.exhausted && sent.value.id !in s.exhausted)
          && (t.round != s.round ==>
                t.round == s.round + 1 && t.exhausted == {} && s.authID == "" && sent.value.id in s.exhausted))
  }

  lemma {:induction false} CallbackRules(s: State, picks: seq<seq<Candidate>>)
    requires InCall(s)
    ensures var (t, sent) := Callbacks(s, picks); InCall(t) && CallRules(s, t, sent, AllOffered(picks))
    ensures Uses(s, picks) == if Callbacks(s, picks).1.Some? then 1 else 0
    decreases |picks|
  {
    if picks != [] {
      PickRules(s, picks[0]);
      CallbackRules(Pick(s, picks[0]).0, picks[1..]);
    }
  }

  /** After the dispatch, every further callback of the call is rejected and only noted. */
  lemma {:induction false} RestRejected(s: State, picks: seq<seq<Candidate>>)
    requires s.dispatched
    ensures Callbacks(s, picks) == (s.(deferred := s.deferred || picks != []), None)
    decreases |picks|
  {
    if picks != [] { RestRejected(s.(deferred := true), picks[1..]); }
  }

  function AllOffered(picks: seq<seq<Candidate>>): set<string> {
    if picks == [] then {} else OfferedIDs(picks[0]) + AllOffered(picks[1..])
  }
}
