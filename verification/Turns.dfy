/** What one turn of the loop does to the scheduler and the trace, whatever the host does. */
module Turns {
  import opened Wrappers
  import opened Config
  import opened ErrorStatus
  import opened RetryRules
  import opened Scheduler
  import opened Cooldown
  import opened RetryLoop

  /** The dispatch respects the scheduler: the pin, the exclusions, and the round it opens, if any. */
  predicate LegalDispatch(s: State, sent: Sent) {
    && sent.id != "" && sent.id !in s.excluded
    && (s.authID != "" ==> sent.id == s.authID && sent.round == s.round)
    && (sent.round == s.round ==> sent.id !in s.exhausted)
    && (sent.round != s.round ==> sent.round == s.round + 1 && sent.id in s.exhausted)
  }

  /** The scheduler between two host calls, from the class of the call and its dispatch. */
  function Turned(s: State, kind: Kind, sent: Option<Sent>, seen: set<string>): State {
    var base := Prepared(s).(candidates := seen);
    if sent.None? then if kind.Poll? then base else Retired(base, false)
    else
      var d := base.(authID := sent.value.id, round := sent.value.round,
                     exhausted := if sent.value.round == s.round then s.exhausted else {});
      if kind.Unmatched? then Retired(d, false)
      else if d.failures + 1 > d.retries then Retired(d, true)
      else d.(failures := d.failures + 1)
  }

  /** How a failed attempt leaves the scheduler, and why the loop went on. */
  lemma ConcludeShape(env: Env, cfg: PluginConfig, during: State, attempt: int, e: Option<Err>, status: int,
                      wait: Timer)
    requires ValidPolicy(cfg)
    ensures var x := Conclude(env, cfg, Some(during), attempt, e, status, wait);
      && x.creds.Some?
      && (x.result.None? ==> BelowCap(cfg, attempt) && x.creds.value == Settled(during, x.matched))
      && (x.result.None? && !x.matched ==> during.authID != "")
      && (x.result.Some? ==> x.creds.value == during || x.creds.value == Settled(during, x.matched))
      && (!x.matched ==> e.Some? || !ShouldRetryStatus(cfg, status))
  {
  }

  function Settled(during: State, matched: bool): State {
    if matched then AfterFailure(during, true) else Retired(during, false)
  }

  /** A call that was not an attempt. */
  predicate Skipped(st: Loop, next: Loop, entry: Record) {
    && entry.sent.None? && next.attempt == st.attempt && next.lastErr == st.lastErr
    && (entry.kind.Release? ==> entry.pin != "" && next.result.None?)
    && (entry.kind.Stop? ==> entry.pin == "" && next.result.Some?)
  }

  /** A call that was an attempt. */
  predicate Tried(cfg: PluginConfig, st: Loop, next: Loop, entry: Record) {
    && (entry.kind.Accepted? ==> next.result == Some(Completed) && next.attempt == st.attempt)
    && (!entry.kind.Accepted? ==> next.attempt == st.attempt + if next.result.None? then 1 else 0)
    && (next.result.None? ==> !entry.kind.Accepted? && BelowCap(cfg, st.attempt))
    && (next.result.None? && entry.kind.Unmatched? ==> entry.sent.Some?)
  }

  /** What every running turn does to the loop when the context is still alive. */
  predicate GoodTurn(cfg: PluginConfig, st: Loop, next: Loop, entry: Record, offered: set<string>)
    requires st.creds.Some? && next.creds.Some?
  {
    var s, t := st.creds.value, next.creds.value;
    && next.log == st.log + [entry]
    && entry.attempt == st.attempt && entry.pin == s.authID
    && (if Attempted(entry.kind) then Tried(cfg, st, next, entry) else Skipped(st, next, entry))
    && Valid(t) && t.retries == s.retries && s.excluded <= t.excluded
    && s.candidates <= t.candidates <= s.candidates + offered
    && (entry.sent.Some? ==> LegalDispatch(s, entry.sent.value) && entry.sent.value.id in t.candidates)
    && (next.result.None? ==> Prepared(t) == Turned(s, entry.kind, entry.sent, t.candidates))
  }

  /** One turn under the scheduler: it ends on the context's error, or is a good turn. */
  lemma TurnShape(env: Env, cfg: PluginConfig, st: Loop, h: HostCall<Reply>) returns (entry: Record)
    requires ValidPolicy(cfg) && st.result.None? && st.creds.Some? && Valid(st.creds.value)
    ensures Step(env, cfg, st, h).creds.Some?
    ensures h.ctx.Some? ==> Step(env, cfg, st, h) == st.(result := Ended(env, st.lastErr, h.ctx.value))
    ensures h.ctx.None? ==> GoodTurn(cfg, st, Step(env, cfg, st, h), entry, AllOffered(h.picks))
  {
    entry := Record(Stop, 0, "", None);
    if h.ctx.None? {
      var s := st.creds.value;
      StepsKeepValid(s, false);
      CallbackRules(Prepared(s), h.picks);
      var (during, sent) := Callbacks(Prepared(s), h.picks);
      var c := Call(env, cfg, st.creds, st.attempt, h, h.reply.err);
      if c.verdict.Dispatched? {
        assert c == Called(Some(during), s.authID, sent, Dispatched);
        entry := AttemptTurn(env, cfg, st, h, during, sent);
      } else {
        entry := SelectionTurn(env, cfg, st, h, during, sent);
      }
    }
  }

  lemma AttemptTurn(env: Env, cfg: PluginConfig, st: Loop, h: HostCall<Reply>, during: State, sent: Option<Sent>)
    returns (entry: Record)
    requires ValidPolicy(cfg) && st.result.None? && st.creds.Some? && Valid(st.creds.value)
    requires (during, sent) == Callbacks(Prepared(st.creds.value), h.picks)
    requires during.dispatched || h.reply.err.None?
    ensures var next := Settle(env, cfg, st.(creds := Some(during)), st.creds.value.authID, sent, h.reply, h.wait);
      next.creds.Some? && GoodTurn(cfg, st, next, entry, AllOffered(h.picks))
  {
    var s := st.creds.value;
    StepsKeepValid(s, false);
    CallbackRules(Prepared(s), h.picks);
    var during' := st.(creds := Some(during));
    entry := SettledTurn(env, cfg, during', s.authID, sent, h.reply, h.wait);
    GoodAttempt(cfg, st, Settle(env, cfg, during', s.authID, sent, h.reply, h.wait), entry, during,
                AllOffered(h.picks));
  }

  /** What settling an attempt under the scheduler does to the loop. */
  predicate SettledAttempt(cfg: PluginConfig, st: Loop, next: Loop, entry: Record, during: State) {
    && next.log == st.log + [entry] && entry.attempt == st.attempt && Attempted(entry.kind)
    && Tried(cfg, st, next, entry) && next.creds.Some?
    && (next.result.None? ==> next.creds.value == Settled(during, entry.kind.Matched?))
    && (next.result.Some? ==> next.creds.value == during || next.creds.value == Settled(during, entry.kind.Matched?))
  }

  lemma SettledTurn(env: Env, cfg: PluginConfig, st: Loop, pin: string, sent: Option<Sent>, r: Reply, wait: Timer)
    returns (entry: Record)
    requires ValidPolicy(cfg) && st.result.None? && st.creds.Some?
    requires (st.creds.value.dispatched || r.err.None?) && InCall(st.creds.value)
    requires sent.Some? <==> st.creds.value.dispatched
    ensures SettledAttempt(cfg, st, Settle(env, cfg, st, pin, sent, r, wait), entry, st.creds.value)
    ensures entry.pin == pin && entry.sent == sent
  {
    ConcludeShape(env, cfg, st.creds.value, st.attempt, Outcome(cfg, st.attempt, r), r.status, wait);
    var next := Settle(env, cfg, st, pin, sent, r, wait);
    entry := next.log[|st.log|];
  }

  /** A settled attempt is a good turn, by the rules of its callbacks. */
  lemma GoodAttempt(cfg: PluginConfig, st: Loop, next: Loop, entry: Record, during: State, offered: set<string>)
    requires st.creds.Some? && Valid(st.creds.value) && InCall(during)
    requires SettledAttempt(cfg, st.(creds := Some(during)), next, entry, during) && entry.pin == st.creds.value.authID
    requires CallRules(Prepared(st.creds.value), during, entry.sent, offered)
    ensures next.creds.Some? && GoodTurn(cfg, st, next, entry, offered)
  {
    StepsKeepValid(during, true);
    StepsKeepValid(during, false);
    if next.result.None? { TurnedAttempt(st.creds.value, during, entry.sent, entry.kind.Matched?); }
  }

  /** The scheduler after a settled attempt is the one-turn summary of its class and dispatch. */
  lemma TurnedAttempt(s: State, during: State, sent: Option<Sent>, matched: bool)
    requires Valid(s) && InCall(during)
    requires during.retries == s.retries && during.excluded == s.excluded && during.failures == s.failures
    requires sent.Some? <==> during.dispatched
    requires sent.None? ==> during == Prepared(s).(candidates := during.candidates, deferred := during.deferred)
    requires sent.Some? ==> during.authID == sent.value.id && during.round == sent.value.round
    requires sent.Some? ==> during.exhausted == if during.round == s.round then s.exhausted else {}
    requires !matched ==> sent.Some?
    ensures Prepared(Settled(during, matched))
      == Turned(s, if matched then Matched else Unmatched, sent, during.candidates)
  {
  }

  lemma SelectionTurn(env: Env, cfg: PluginConfig, st: Loop, h: HostCall<Reply>, during: State, sent: Option<Sent>)
    returns (entry: Record)
    requires ValidPolicy(cfg) && st.result.None? && st.creds.Some? && Valid(st.creds.value) && h.ctx.None?
    requires (during, sent) == Callbacks(Prepared(st.creds.value), h.picks)
    requires !Call(env, cfg, st.creds, st.attempt, h, h.reply.err).verdict.Dispatched?
    ensures Step(env, cfg, st, h).creds.Some?
    ensures GoodTurn(cfg, st, Step(env, cfg, st, h), entry, AllOffered(h.picks))
  {
    var s := st.creds.value;
    StepsKeepValid(s, false);
    CallbackRules(Prepared(s), h.picks);
    StepsKeepValid(during, false);
    var c := Call(env, cfg, st.creds, st.attempt, h, h.reply.err);
    entry := Record(KindOf(c.verdict), st.attempt, c.pin, c.sent);
    assert !during.dispatched && sent.None?;
    assert during.authID == s.authID;
  }
}
