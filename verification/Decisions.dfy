/**
 Whether the loop goes on after a failed attempt, in terms of the configuration, the error and the host's callbacks
 alone.
 */
module Decisions {
  import opened Wrappers
  import opened Text
  import opened Config
  import opened ErrorStatus
  import opened RetryRules
  import opened Scheduler
  import opened Cooldown
  import opened RetryLoop
  import Backoff

  // ---- what the callbacks asked for ---------------------------------------

  /** The host offers something that this request may use. */
  ghost predicate Answers(s: State, offers: seq<Candidate>) {
    exists c :: c in offers && c.id != "" && c.id !in s.excluded && (s.authID != "" ==> c.id == s.authID)
  }

  /** Some callback of the call can be answered with a credential. */
  ghost predicate Answered(s: State, picks: seq<seq<Candidate>>) {
    exists i :: 0 <= i < |picks| && Answers(s, picks[i])
  }

  /** The host asks once more after it has been given a credential: it wants to try another one. */
  ghost predicate AskedAgain(s: State, picks: seq<seq<Candidate>>) {
    exists i :: 0 <= i < |picks| - 1 && Answers(s, picks[i])
  }

  lemma AskedLater(s: State, first: seq<Candidate>, picks: seq<seq<Candidate>>)
    ensures Answered(s, [first] + picks) <==> Answers(s, first) || Answered(s, picks)
    ensures AskedAgain(s, [first] + picks) <==> (Answers(s, first) && picks != []) || AskedAgain(s, picks)
  {
    var all := [first] + picks;
    if Answered(s, picks) {
      var i :| 0 <= i < |picks| && Answers(s, picks[i]);
      assert Answers(s, all[i + 1]);
    }
    if AskedAgain(s, picks) {
      var i :| 0 <= i < |picks| - 1 && Answers(s, picks[i]);
      assert Answers(s, all[i + 1]);
    }
    if Answers(s, first) { assert Answers(s, all[0]); }
  }

  /** The scheduler notes exactly that: a dispatch, and a further request after it. */
  lemma {:induction false} CallbacksAnswer(s: State, picks: seq<seq<Candidate>>)
    requires InCall(s) && !s.dispatched
    ensures var t := Callbacks(s, picks).0;
      (t.dispatched <==> Answered(s, picks)) && (t.deferred <==> AskedAgain(s, picks))
    decreases |picks|
  {
    if picks != [] {
      PickRules(s, picks[0]);
      var (t, response) := Pick(s, picks[0]);
      assert picks == [picks[0]] + picks[1..];
      AskedLater(s, picks[0], picks[1..]);
      SameAnswers(s, t, picks[1..]);
      if response.Use? { RestRejected(t, picks[1..]); } else { CallbacksAnswer(t, picks[1..]); }
    }
  }

  lemma SameAnswers(s: State, t: State, picks: seq<seq<Candidate>>)
    ensures s.excluded == t.excluded && s.authID == t.authID ==>
      (Answered(s, picks) <==> Answered(t, picks)) && (AskedAgain(s, picks) <==> AskedAgain(t, picks))
  {
    if s.excluded == t.excluded && s.authID == t.authID {
      forall i | 0 <= i < |picks| ensures Answers(s, picks[i]) <==> Answers(t, picks[i]) { }
    }
  }

  // ---- the decision -------------------------------------------------------

  /** The status a failure is judged by: the one found in its error, else the one of the reply. */
  function StatusOfFailure(env: Env, e: Option<Err>, status: int): int {
    match e
    case Some(err) => StatusFromError(env.pattern, err)
    case None => status
  }

  /** A configured status, or a configured keyword in the text of the error. */
  ghost predicate Matches(env: Env, cfg: PluginConfig, e: Option<Err>, status: int) {
    || (StatusOfFailure(env, e, status) > 0 && StatusOfFailure(env, e, status) in cfg.statusCodes)
    || (e.Some? && exists k :: k in cfg.retryKeywords && NormalizeKey(k) != ""
                            && Contains(KeywordText(e.value), NormalizeKey(k)))
  }

  predicate MoreAttempts(cfg: PluginConfig, attempt: int) {
    cfg.maxAttempts == 0 || attempt < cfg.maxAttempts
  }

  /** The reply is a failure: an error, or a status that is configured to be retried. */
  predicate IsFailure(cfg: PluginConfig, attempt: int, r: Reply) {
    Outcome(cfg, attempt, r).Some? || (r.status > 0 && r.status in cfg.statusCodes)
  }

  lemma MatchesIsRule(env: Env, cfg: PluginConfig, e: Option<Err>, status: int)
    ensures RuleMatches(cfg, FailureStatus(env, e, status), e) <==> Matches(env, cfg, e, status)
  {
    if e.Some? {
      assert KeywordRule(cfg, e) <==> exists k :: k in cfg.retryKeywords && KeywordMatches(k, KeywordText(e.value)) by {
        if k :| k in cfg.retryKeywords && KeywordMatches(k, KeywordText(e.value)) {
          var i :| 0 <= i < |cfg.retryKeywords| && cfg.retryKeywords[i] == k;
        }
      }
      forall k ensures KeywordMatches(k, KeywordText(e.value))
        <==> NormalizeKey(k) != "" && Contains(KeywordText(e.value), NormalizeKey(k)) { }
    }
  }

  /** The error that a loop remembers: the failure itself, found under the status it was judged by. */
  predicate Remembers(env: Env, last: Err, e: Option<Err>, status: int) {
    match e
    case Some(err) =>
      && ErrorText(last) == ErrorText(err)
      && StatusFromError(env.pattern, last) == StatusFromError(env.pattern, err)
    case None => last == StatusError(status, None)
  }

  /** How the loop ends on a failure: with it, or at the cap, under a scheduler, with an error that names both. */
  predicate EndsOn(cfg: PluginConfig, scheduled: bool, attempt: int, last: Err, result: Option<Result>) {
    && result.Some? && result.value.Failed?
    && if scheduled && cfg.maxAttempts > 0 && attempt >= cfg.maxAttempts then
         Stopped(result, "max_attempts reached (" + Decimal(cfg.maxAttempts) + ")", last)
       else result.value.err == last
  }

  /** The loop ended with an error that names this reason and the last failure. */
  predicate Stopped(result: Option<Result>, reason: string, last: Err) {
    && result.Some? && result.value.Failed?
    && ErrorText(result.value.err) == "retry stopped: " + reason + "; last error: " + ErrorText(last)
  }

  /** How long the loop waits after a failed attempt: the initial delay, doubled after each one, up to the maximum. */
  function WaitAfter(cfg: PluginConfig, attempt: nat): int
    requires attempt >= 1
  {
    1_000_000 * Backoff.Min(cfg.initialDelayMS * Backoff.Pow2(attempt - 1), cfg.maxDelayMS)
  }

  lemma WaitIsDelay(cfg: PluginConfig, attempt: nat)
    requires ValidPolicy(cfg) && attempt >= 1
    ensures DelayOf(cfg, attempt) == WaitAfter(cfg, attempt) > 0
  {
    Backoff.ValidatedDelay(cfg.initialDelayMS, cfg.maxDelayMS, attempt);
  }

  lemma EndedText(env: Env, last: Err, reason: Err)
    ensures Stopped(Ended(env, Some(last), reason), ErrorText(reason), last)
  {
  }

  lemma RemembersFailure(env: Env, e: Option<Err>, status: int)
    ensures Remembers(env, FailureErr(env, e, status), e, status)
  {
    if e.Some? { RecordedStatus(env.pattern, e.value); }
  }

  /** What one failed attempt leads to: `goes` says whether another one is due after the wait. */
  ghost predicate Decision(cfg: PluginConfig, st: Loop, next: Loop, goes: bool, wait: Timer)
    requires st.attempt >= 1 && next.lastErr.Some?
  {
    var cut := wait(WaitAfter(cfg, st.attempt));
    && (next.result.None? <==> goes && cut.None?)
    && next.attempt == (if next.result.None? then st.attempt + 1 else st.attempt)
    && (goes && cut.Some? ==> Stopped(next.result, ErrorText(cut.value), next.lastErr.value))
    && (!goes ==> EndsOn(cfg, st.creds.Some?, st.attempt, next.lastErr.value, next.result))
  }

  /** Another attempt is due: the cap allows it, and a rule matches or the host asked again. */
  ghost predicate Due(env: Env, cfg: PluginConfig, attempt: int, e: Option<Err>, status: int, again: bool) {
    MoreAttempts(cfg, attempt) && (Matches(env, cfg, e, status) || again)
  }

  /** The decision itself, from the failure and whether the host asked again. */
  lemma ConcludeDecided(env: Env, cfg: PluginConfig, creds: Option<State>, attempt: nat, e: Option<Err>, status: int,
                        wait: Timer)
    requires ValidPolicy(cfg) && (creds.Some? ==> InCall(creds.value)) && attempt >= 1
    ensures var x, cut := Conclude(env, cfg, creds, attempt, e, status, wait), wait(WaitAfter(cfg, attempt));
      && x.last == FailureErr(env, e, status)
      && x.result ==
           if Due(env, cfg, attempt, e, status, creds.Some? && creds.value.deferred) then
             if cut.Some? then Ended(env, Some(x.last), cut.value) else None
           else if creds.Some? && cfg.maxAttempts > 0 && attempt >= cfg.maxAttempts then
             Ended(env, Some(x.last), CapReached(cfg))
           else Some(Failed(x.last))
  {
    MatchesIsRule(env, cfg, e, status);
    WaitIsDelay(cfg, attempt);
  }

  lemma SettleDecided(env: Env, cfg: PluginConfig, st: Loop, pin: string, sent: Option<Sent>, r: Reply, wait: Timer)
    requires ValidPolicy(cfg) && (st.creds.Some? ==> InCall(st.creds.value)) && st.attempt >= 1
    requires st.result.None? && IsFailure(cfg, st.attempt, r)
    ensures var next, e := Settle(env, cfg, st, pin, sent, r, wait), Outcome(cfg, st.attempt, r);
      && next.lastErr.Some? && Remembers(env, next.lastErr.value, e, r.status)
      && Decision(cfg, st, next,
                  Due(env, cfg, st.attempt, e, r.status, st.creds.Some? && st.creds.value.deferred), wait)
  {
    var e := Outcome(cfg, st.attempt, r);
    ConcludeDecided(env, cfg, st.creds, st.attempt, e, r.status, wait);
    RemembersFailure(env, e, r.status);
    EndedText(env, FailureErr(env, e, r.status), CapReached(cfg));
    var cut := wait(WaitAfter(cfg, st.attempt));
    if cut.Some? { EndedText(env, FailureErr(env, e, r.status), cut.value); }
  }

  /**
   After a failed attempt another one is due if and only if the cap allows it and either the failure matches a rule or
   the host asked for another credential after it had been given one. The loop then waits for the doubled delay, and
   goes on unless that wait is cut short. Otherwise it ends with that failure, or with an error that names the cap.
   */
  lemma AttemptDecided(env: Env, cfg: PluginConfig, st: Loop, h: HostCall<Reply>)
    requires ValidPolicy(cfg) && st.result.None? && st.attempt >= 1
    requires h.ctx.None? && IsFailure(cfg, st.attempt, h.reply)
    requires st.creds.Some? ==> Valid(st.creds.value) && (Answered(st.creds.value, h.picks) || h.reply.err.None?)
    ensures var next, e := Step(env, cfg, st, h), Outcome(cfg, st.attempt, h.reply);
      && next.lastErr.Some? && Remembers(env, next.lastErr.value, e, h.reply.status)
      && Decision(cfg, st, next,
                  Due(env, cfg, st.attempt, e, h.reply.status, st.creds.Some? && AskedAgain(st.creds.value, h.picks)),
                  h.wait)
  {
    var c := Call(env, cfg, st.creds, st.attempt, h, h.reply.err);
    if st.creds.Some? {
      var s := st.creds.value;
      StepsKeepValid(s, false);
      CallbackRules(Prepared(s), h.picks);
      CallbacksAnswer(Prepared(s), h.picks);
      SameAnswers(s, Prepared(s), h.picks);
    }
    SettleDecided(env, cfg, st.(creds := c.creds), c.pin, c.sent, h.reply, h.wait);
    Redecided(cfg, st.(creds := c.creds), st, Step(env, cfg, st, h),
              Due(env, cfg, st.attempt, Outcome(cfg, st.attempt, h.reply), h.reply.status,
                  st.creds.Some? && AskedAgain(st.creds.value, h.picks)), h.wait);
  }

  lemma Redecided(cfg: PluginConfig, during: Loop, st: Loop, next: Loop, goes: bool, wait: Timer)
    requires during.attempt >= 1 && next.lastErr.Some? && Decision(cfg, during, next, goes, wait)
    requires during == st.(creds := during.creds) && (during.creds.Some? <==> st.creds.Some?)
    ensures Decision(cfg, st, next, goes, wait)
  {
  }

  /** A counted attempt completes the loop exactly when it is not a failure. */
  lemma AcceptedExactly(env: Env, cfg: PluginConfig, st: Loop, h: HostCall<Reply>)
    requires ValidPolicy(cfg) && st.result.None? && h.ctx.None? && st.attempt >= 1
    requires st.creds.Some? ==> Valid(st.creds.value) && (Answered(st.creds.value, h.picks) || h.reply.err.None?)
    ensures Step(env, cfg, st, h).result == Some(Completed) <==> !IsFailure(cfg, st.attempt, h.reply)
  {
    if IsFailure(cfg, st.attempt, h.reply) {
      AttemptDecided(env, cfg, st, h);
    } else if st.creds.Some? {
      StepsKeepValid(st.creds.value, false);
    }
  }
}
