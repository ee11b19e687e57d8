/** The non-streaming executor: its loop, statement by statement, against the loop machine. */
module Executor {
  import opened Wrappers
  import opened Config
  import opened ErrorStatus
  import opened RetryRules
  import opened Scheduler
  import opened Cooldown
  import opened RetryLoop
  import opened CredentialRetry
  import Backoff

  /** The answer to host.model.execute. */
  datatype ExecuteReply = CallError(err: Err) | Undecodable(err: Err) | Response(code: int)

  function ExecuteOutcome(env: Env, r: ExecuteReply): Reply {
    match r
    case CallError(e) => Reply(StatusFromError(env.pattern, e), Some(e), None)
    case Undecodable(e) => Reply(0, Some(e), None)
    case Response(code) => Reply(code, if code >= 400 then Some(StatusError(code, None)) else None, None)
  }

  function Seen(env: Env, h: HostCall<ExecuteReply>): HostCall<Reply> {
    HostCall(h.ctx, h.picks, ExecuteOutcome(env, h.reply), h.authList, h.wait)
  }

  function SeenAll(env: Env, script: seq<HostCall<ExecuteReply>>): seq<HostCall<Reply>> {
    if script == [] then [] else [Seen(env, script[0])] + SeenAll(env, script[1..])
  }

  function ViewOf(c: Credentials?): Option<State>
    reads c
  {
    if c == null then None else Some(c.View())
  }

  method Begin(cfg: PluginConfig) returns (c: Credentials?)
    ensures c != null ==> fresh(c)
    ensures ViewOf(c) == Start(cfg).creds
  {
    if cfg.sameAuthRetries == 0 {
      return null;
    }
    c := new Credentials(cfg.sameAuthRetries);
  }

  /** The host call's scheduler callbacks, one after the other. */
  method HostCallbacks(c: Credentials, picks: seq<seq<Candidate>>) returns (sent: Option<Sent>)
    modifies c
    ensures (c.View(), sent) == Callbacks(old(c.View()), picks)
  {
    sent := None;
    var i := 0;
    while i < |picks|
      invariant 0 <= i <= |picks|
      invariant Callbacks(old(c.View()), picks)
             == (Callbacks(c.View(), picks[i..]).0, if sent.Some? then sent else Callbacks(c.View(), picks[i..]).1)
    {
      ghost var before := c.View();
      var response := c.Choose(picks[i]);
      assert picks[i..][1..] == picks[i + 1..];
      if sent.None? && response.Use? {
        sent := Some(Sent(response.authID, c.round));
      }
      i := i + 1;
    }
  }

  /** The status and the error a failed attempt is remembered by, and whether it matches a retry rule. */
  method NoteFailure(env: Env, cfg: PluginConfig, e: Option<Err>, code: int)
    returns (status: int, last: Err, matched: bool)
    ensures status == FailureStatus(env, e, code) && last == FailureErr(env, e, code)
    ensures matched <==> RuleMatches(cfg, status, e)
  {
    status := code;
    if e.Some? {
      status := StatusFromError(env.pattern, e.value);
      last := ErrorWithStatus(e.value, status);
    } else {
      last := StatusError(status, None);
    }
    var keyword := RetryKeywordFromError(cfg, e);
    matched := ShouldRetryStatus(cfg, status) || keyword != "";
  }

  /** The part of both loops after a failed attempt has been decided upon: stop, wait, or go on. */
  method AfterAttempt(env: Env, cfg: PluginConfig, c: Credentials?, attempt: int, e: Option<Err>, code: int,
                      wait: Timer)
    returns (matched: bool, last: Err, result: Option<Result>)
    requires ValidPolicy(cfg)
    modifies if c == null then {} else {c}
    ensures Conclusion(ViewOf(c), matched, last, result) == Conclude(env, cfg, old(ViewOf(c)), attempt, e, code, wait)
  {
    var status;
    status, last, matched := NoteFailure(env, cfg, e, code);
    var shouldRetry, _ := ShouldRetryFailure(cfg, attempt, status, e);
    var failover := false;
    if !matched && c != null {
      failover := c.ReleaseForFailover(cfg.maxAttempts, attempt);
    }
    if !shouldRetry && !failover {
      if c != null && cfg.maxAttempts > 0 && attempt >= cfg.maxAttempts {
        result := Some(Failed(RetryTerminationError(env.pattern, Some(last), CapReached(cfg))));
      } else {
        result := Some(Failed(last));
      }
      return;
    }
    if c != null {
      c.Failed(matched);
    }
    var delay := Backoff.RetryDelay(cfg.initialDelayMS, cfg.maxDelayMS, attempt);
    var waited := WaitResult(delay, wait);
    if waited.Some? {
      result := Some(Failed(RetryTerminationError(env.pattern, Some(last), waited.value)));
    } else {
      result := None;
    }
  }

  /** The rest of a turn whose attempt failed with `e` or under a status to retry. */
  method FailAttempt(env: Env, cfg: PluginConfig, c: Credentials?, attempt: int, lastErr: Option<Err>, log: seq<Record>,
                     pin: string, sent: Option<Sent>, ghost reply: Reply, e: Option<Err>, status: int,
                     wait: Timer) returns (next: Loop, kind: Kind)
    requires ValidPolicy(cfg)
    requires e == Outcome(cfg, attempt, reply) && status == reply.status && (e.Some? || ShouldRetryStatus(cfg, status))
    modifies if c == null then {} else {c}
    ensures next == Settle(env, cfg, Loop(old(ViewOf(c)), attempt, lastErr, log, None), pin, sent, reply, wait)
    ensures next.creds == ViewOf(c)
    ensures (kind == Matched || kind == Unmatched) && next.log == log + [Record(kind, attempt, pin, sent)]
  {
    var matched, last, result := AfterAttempt(env, cfg, c, attempt, e, status, wait);
    kind := if matched then Matched else Unmatched;
    next := Loop(ViewOf(c), if result.None? then attempt + 1 else attempt, Some(last),
                 log + [Record(kind, attempt, pin, sent)], result);
  }

  /** Prepare, make the host call with its callbacks, and classify a failure that was never dispatched. */
  method MakeCall<R>(env: Env, cfg: PluginConfig, c: Credentials?, attempt: int, h: HostCall<R>, e: Option<Err>)
    returns (pin: string, sent: Option<Sent>, verdict: Verdict)
    requires ValidPolicy(cfg)
    modifies if c == null then {} else {c}
    ensures Called(ViewOf(c), pin, sent, verdict) == Call(env, cfg, old(ViewOf(c)), attempt, h, e)
  {
    if c == null {
      return "", None, Dispatched;
    }
    pin := c.Prepare();
    sent := HostCallbacks(c, h.picks);
    verdict := c.HandleSelectionFailure(env, cfg, e, attempt, h.authList, h.wait);
  }

  lemma Turn(env: Env, cfg: PluginConfig, st: Loop, script: seq<HostCall<ExecuteReply>>, n: nat)
    requires n < |script|
    ensures Run(env, cfg, st, SeenAll(env, script[n..]))
         == Run(env, cfg, Step(env, cfg, st, Seen(env, script[n])), SeenAll(env, script[n + 1..]))
  {
    assert script[n..][1..] == script[n + 1..];
    assert SeenAll(env, script[n..])[1..] == SeenAll(env, script[n + 1..]);
  }

  lemma AcceptedSettles(env: Env, cfg: PluginConfig, st: Loop, pin: string, sent: Option<Sent>, r: Reply,
                        wait: Timer)
    requires Outcome(cfg, st.attempt, r).None? && !ShouldRetryStatus(cfg, r.status)
    ensures Settle(env, cfg, st, pin, sent, r, wait)
         == st.(log := st.log + [Record(Accepted, st.attempt, pin, sent)], result := Some(Completed))
  {
  }

  /** The part of the loop after a dispatched call: accept the reply, or decide on its failure. */
  method SettleExecute(env: Env, cfg: PluginConfig, c: Credentials?, attempt: int, lastErr: Option<Err>,
                       log: seq<Record>, pin: string, sent: Option<Sent>, reply: Reply, wait: Timer)
    returns (next: Loop)
    requires ValidPolicy(cfg) && reply.startup.None?
    modifies if c == null then {} else {c}
    ensures next == Settle(env, cfg, Loop(old(ViewOf(c)), attempt, lastErr, log, None), pin, sent, reply, wait)
    ensures next.creds == ViewOf(c)
  {
    assert Outcome(cfg, attempt, reply) == reply.err;
    if reply.err.None? && !ShouldRetryStatus(cfg, reply.status) {
      AcceptedSettles(env, cfg, Loop(ViewOf(c), attempt, lastErr, log, None), pin, sent, reply, wait);
      return Loop(ViewOf(c), attempt, lastErr, log + [Record(Accepted, attempt, pin, sent)], Some(Completed));
    }
    var kind;
    next, kind := FailAttempt(env, cfg, c, attempt, lastErr, log, pin, sent, reply, reply.err, reply.status, wait);
  }

  /** One turn of runModelExecuteWithRetry, from the context check to the next attempt or the result. */
  method ExecuteTurn(env: Env, cfg: PluginConfig, c: Credentials?, attempt: int, lastErr: Option<Err>, log: seq<Record>,
                     h: HostCall<ExecuteReply>) returns (next: Loop)
    requires ValidPolicy(cfg)
    modifies if c == null then {} else {c}
    ensures next == Step(env, cfg, Loop(old(ViewOf(c)), attempt, lastErr, log, None), Seen(env, h))
    ensures next.creds == ViewOf(c)
  {
    if h.ctx.Some? {
      return Loop(ViewOf(c), attempt, lastErr, log, Ended(env, lastErr, h.ctx.value));
    }
    var reply := ExecuteOutcome(env, h.reply);
    var pin, sent, verdict := MakeCall(env, cfg, c, attempt, h, reply.err);
    if verdict != Dispatched {
      return Uncounted(env, Loop(ViewOf(c), attempt, lastErr, log, None), pin, sent, verdict, reply.err);
    }
    next := SettleExecute(env, cfg, c, attempt, lastErr, log, pin, sent, reply, h.wait);
  }

  /** runModelExecuteWithRetry: for every script the loop does exactly what the machine does. */
  method RunModelExecuteWithRetry(env: Env, cfg: PluginConfig, script: seq<HostCall<ExecuteReply>>)
    returns (final: Loop)
    requires ValidPolicy(cfg)
    ensures final == Run(env, cfg, Start(cfg), SeenAll(env, script))
  {
    var c := Begin(cfg);
    var attempt, lastErr, log := 1, None, [];
    var n := 0;
    assert script[0..] == script;
    while n < |script|
      invariant 0 <= n <= |script|
      invariant c != null ==> fresh(c)
      invariant Run(env, cfg, Start(cfg), SeenAll(env, script))
             == Run(env, cfg, Loop(ViewOf(c), attempt, lastErr, log, None), SeenAll(env, script[n..]))
    {
      Turn(env, cfg, Loop(ViewOf(c), attempt, lastErr, log, None), script, n);
      final := ExecuteTurn(env, cfg, c, attempt, lastErr, log, script[n]);
      n := n + 1;
      if final.result.Some? {
        RunFinished(env, cfg, final, SeenAll(env, script[n..]));
        return;
      }
      attempt, lastErr, log := final.attempt, final.lastErr, final.log;
    }
    final := Loop(ViewOf(c), attempt, lastErr, log, None);
  }
}
