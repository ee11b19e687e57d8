/** Without same-credential retries the loop is a plain bounded retry; cancellation stops both forms. */
module PlainLoop {
  import opened Wrappers
  import opened Config
  import opened RetryRules
  import opened Cooldown
  import opened RetryLoop
  import Backoff

  /** The context never reports an error and no wait is interrupted. */
  ghost predicate Uncancelled<R>(script: seq<HostCall<R>>) {
    forall i :: 0 <= i < |script| ==> script[i].ctx.None? && Uncut(script[i].wait)
  }

  /** Reply number `attempt` ends a plain loop: it is accepted, or it failed and may not be retried. */
  predicate Ends(env: Env, cfg: PluginConfig, attempt: int, r: Reply) {
    var e := Outcome(cfg, attempt, r);
    || (e.None? && !ShouldRetryStatus(cfg, r.status))
    || !RuleMatches(cfg, FailureStatus(env, e, r.status), e)
    || (cfg.maxAttempts > 0 && attempt >= cfg.maxAttempts)
  }

  /** Which replies of a script would end a loop that starts at `attempt`. */
  function Endings(env: Env, cfg: PluginConfig, script: seq<HostCall<Reply>>, attempt: int): (ends: seq<bool>)
    ensures |ends| == |script|
    decreases |script|
  {
    if script == [] then []
    else [Ends(env, cfg, attempt, script[0].reply)] + Endings(env, cfg, script[1..], attempt + 1)
  }

  lemma {:induction false} EndingsAt(env: Env, cfg: PluginConfig, script: seq<HostCall<Reply>>, attempt: int, i: nat)
    requires i < |script|
    ensures Endings(env, cfg, script, attempt)[i] == Ends(env, cfg, attempt + i, script[i].reply)
    decreases |script|
  {
    if i > 0 { EndingsAt(env, cfg, script[1..], attempt + 1, i - 1); }
  }

  /** The number of host calls: up to and including the first one that ends the loop. */
  function CallsNeeded(ends: seq<bool>): nat {
    if ends == [] then 0 else if ends[0] then 1 else 1 + CallsNeeded(ends[1..])
  }

  /** `CallsNeeded` is the least index that ends the loop, or the whole script when none does. */
  lemma {:induction false} LeastEnding(ends: seq<bool>)
    ensures var k := CallsNeeded(ends);
      && k <= |ends|
      && (forall i :: 0 <= i < k - 1 ==> !ends[i])
      && (if true in ends then k > 0 && ends[k - 1] else k == |ends|)
  {
    if ends != [] && !ends[0] {
      LeastEnding(ends[1..]);
      assert ends == [false] + ends[1..];
    }
  }

  lemma OneMoreEnding(first: bool, rest: seq<bool>)
    ensures CallsNeeded([first] + rest) == if first then 1 else 1 + CallsNeeded(rest)
    ensures true in [first] + rest <==> first || true in rest
  {
    assert ([first] + rest)[1..] == rest;
  }

  lemma PlainStep(env: Env, cfg: PluginConfig, st: Loop, h: HostCall<Reply>)
    requires ValidPolicy(cfg) && st.creds.None? && st.result.None? && h.ctx.None? && Uncut(h.wait)
    ensures PlainTurn(st, Step(env, cfg, st, h), Ends(env, cfg, st.attempt, h.reply))
  {
    var e := Outcome(cfg, st.attempt, h.reply);
    var x := Conclude(env, cfg, None, st.attempt, e, h.reply.status, h.wait);
    assert x.result.Some? <==> !(x.matched && BelowCap(cfg, st.attempt));
  }

  /** `end` is `st` after the calls that `ends` asks for. */
  predicate PlainlyRun(st: Loop, end: Loop, ends: seq<bool>) {
    |end.log| == |st.log| + CallsNeeded(ends) && (end.result.Some? <==> true in ends)
  }

  lemma PlainlyMore(st: Loop, next: Loop, end: Loop, first: bool, rest: seq<bool>)
    requires |next.log| == |st.log| + 1 && (next.result.Some? <==> first)
    requires if first then end == next else PlainlyRun(next, end, rest)
    ensures PlainlyRun(st, end, [first] + rest)
  {
    OneMoreEnding(first, rest);
  }

  /** What one plain turn says about the first reply. */
  predicate PlainTurn(st: Loop, next: Loop, ends: bool) {
    && |next.log| == |st.log| + 1 && next.creds.None? && (next.result.Some? <==> ends)
    && (next.result.None? ==> next.attempt == st.attempt + 1)
  }

  lemma {:induction false} PlainFrom(env: Env, cfg: PluginConfig, st: Loop, script: seq<HostCall<Reply>>)
    requires ValidPolicy(cfg) && st.creds.None? && st.result.None? && Uncancelled(script)
    ensures PlainlyRun(st, Run(env, cfg, st, script), Endings(env, cfg, script, st.attempt))
    decreases |script|
  {
    if script != [] {
      var next, first := Step(env, cfg, st, script[0]), Ends(env, cfg, st.attempt, script[0].reply);
      PlainStep(env, cfg, st, script[0]);
      if first {
        RunFinished(env, cfg, next, script[1..]);
      } else {
        PlainFrom(env, cfg, next, script[1..]);
      }
      PlainlyMore(st, next, Run(env, cfg, next, script[1..]), first, Endings(env, cfg, script[1..], st.attempt + 1));
    }
  }

  /** Uncancelled, a plain loop makes exactly as many host calls as it takes to meet the first ending reply. */
  lemma PlainRetryCount(env: Env, cfg: PluginConfig, script: seq<HostCall<Reply>>)
    requires ValidPolicy(cfg) && cfg.sameAuthRetries == 0 && Uncancelled(script)
    ensures |Run(env, cfg, Start(cfg), script).log| == CallsNeeded(Endings(env, cfg, script, 1))
    ensures Run(env, cfg, Start(cfg), script).result.Some? <==> true in Endings(env, cfg, script, 1)
  {
    PlainFrom(env, cfg, Start(cfg), script);
  }

  /** Once the context reports an error at the top of the loop, no further host call is made. */
  lemma CancellationStops(env: Env, cfg: PluginConfig, before: seq<HostCall<Reply>>, after: seq<HostCall<Reply>>)
    requires after != [] && after[0].ctx.Some?
    ensures Run(env, cfg, Start(cfg), before + after).log == Run(env, cfg, Start(cfg), before).log
    ensures Run(env, cfg, Start(cfg), before + after).result.Some?
  {
    RunAppend(env, cfg, Start(cfg), before, after);
    var st := Run(env, cfg, Start(cfg), before);
    RunFinished(env, cfg, Step(env, cfg, st, after[0]), after[1..]);
  }

  /** When the wait after a failed attempt or a poll is cut short, the loop has ended and makes no further host call. */
  lemma CancelledWaitStops(env: Env, cfg: PluginConfig, before: seq<HostCall<Reply>>, h: HostCall<Reply>,
                           after: seq<HostCall<Reply>>)
    requires ValidPolicy(cfg) && Cut(h.wait)
    requires var st, next := Run(env, cfg, Start(cfg), before), Run(env, cfg, Start(cfg), before + [h]);
      |next.log| == |st.log| + 1 && !next.log[|st.log|].kind.Release?
    ensures var next := Run(env, cfg, Start(cfg), before + [h]);
      next.result.Some? && Run(env, cfg, Start(cfg), before + [h] + after) == next
  {
    var st := Run(env, cfg, Start(cfg), before);
    RunAppend(env, cfg, Start(cfg), before, [h]);
    assert Run(env, cfg, st, [h]) == Step(env, cfg, st, h) by { assert [h][1..] == []; }
    CancelledTurn(env, cfg, st, h);
    RunAppend(env, cfg, Start(cfg), before + [h], after);
    RunFinished(env, cfg, Step(env, cfg, st, h), after);
  }

  lemma CancelledTurn(env: Env, cfg: PluginConfig, st: Loop, h: HostCall<Reply>)
    requires ValidPolicy(cfg) && Cut(h.wait)
    requires |Step(env, cfg, st, h).log| == |st.log| + 1 && !Step(env, cfg, st, h).log[|st.log|].kind.Release?
    ensures Step(env, cfg, st, h).result.Some?
  {
    DelayPositive(cfg, st.attempt);
    var c := Call(env, cfg, st.creds, st.attempt, h, h.reply.err);
    if c.verdict.Dispatched? { CancelledAttempt(env, cfg, st.(creds := c.creds), c.pin, c.sent, h.reply, h.wait); }
  }

  lemma CancelledAttempt(env: Env, cfg: PluginConfig, st: Loop, pin: string, sent: Option<Sent>, r: Reply,
                         wait: Timer)
    requires ValidPolicy(cfg) && Cut(wait)
    ensures Settle(env, cfg, st, pin, sent, r, wait).result.Some?
  {
    DelayPositive(cfg, st.attempt);
  }

  lemma DelayPositive(cfg: PluginConfig, attempt: int)
    requires ValidPolicy(cfg)
    ensures DelayOf(cfg, attempt) > 0
  {
    if attempt >= 1 { Backoff.ValidatedDelay(cfg.initialDelayMS, cfg.maxDelayMS, attempt); }
  }
}
