/** The status of the last counted failure survives to the error the loop returns. */
module StatusKept {
  import opened Wrappers
  import opened Config
  import opened ErrorStatus
  import opened RetryRules
  import opened Scheduler
  import opened Cooldown
  import opened RetryLoop

  /** The status of the most recent attempt that failed, 0 before any did. */
  function LastStatus(env: Env, cfg: PluginConfig, st: Loop, script: seq<HostCall<Reply>>, known: int): int
    decreases |script|
  {
    if script == [] then known
    else
      var next := Step(env, cfg, st, script[0]);
      LastStatus(env, cfg, next, script[1..],
                 if FailedHere(st, next) then StatusSeen(env, cfg, st, script[0]) else known)
  }

  /** The turn counted a failed attempt. */
  predicate FailedHere(st: Loop, next: Loop) {
    |next.log| > |st.log| && (next.log[|next.log| - 1].kind.Matched? || next.log[|next.log| - 1].kind.Unmatched?)
  }

  function StatusSeen(env: Env, cfg: PluginConfig, st: Loop, h: HostCall<Reply>): int {
    FailureStatus(env, Outcome(cfg, st.attempt, h.reply), h.reply.status)
  }

  /** The last failure is recorded under its status, and so is the error that ends the loop. */
  predicate Keeps(env: Env, st: Loop, status: int) {
    && StatusOf(env.pattern, st.lastErr) == status
    && (st.result.Some? && st.result.value.Failed? && status != 0 ==>
         StatusFromError(env.pattern, st.result.value.err) == status)
  }

  lemma EndedKeeps(env: Env, last: Option<Err>, reason: Err)
    requires StatusOf(env.pattern, last) != 0
    ensures StatusFromError(env.pattern, Ended(env, last, reason).value.err) == StatusOf(env.pattern, last)
  {
    TerminationKeepsStatus(env.pattern, last.value, reason);
  }

  lemma ConcludeKeeps(env: Env, cfg: PluginConfig, creds: Option<State>, attempt: int, e: Option<Err>, status: int,
                      wait: Timer)
    requires e.Some? || 100 <= status <= 599
    ensures var x, seen := Conclude(env, cfg, creds, attempt, e, status, wait), FailureStatus(env, e, status);
      && StatusFromError(env.pattern, x.last) == seen
      && (x.result.Some? && seen != 0 ==>
           x.result.value.Failed? && StatusFromError(env.pattern, x.result.value.err) == seen)
  {
    RecordedFailure(env, e, status);
    var x := Conclude(env, cfg, creds, attempt, e, status, wait);
    EndsOnFailure(env, cfg, creds, attempt, e, status, wait);
    ReasonsKeep(env, x.last, CapReached(cfg), wait, x.result);
  }

  /** A failed attempt ends the loop with itself, at the cap, or because its wait was cancelled. */
  ghost predicate EndsWith(env: Env, last: Err, cap: Err, wait: Timer, result: Option<Result>) {
    result.None? || result == Some(Failed(last)) || result == Ended(env, Some(last), cap)
      || (exists delay :: wait(delay).Some? && result == Ended(env, Some(last), wait(delay).value))
  }

  lemma EndsOnFailure(env: Env, cfg: PluginConfig, creds: Option<State>, attempt: int, e: Option<Err>, status: int,
                      wait: Timer)
    ensures var x := Conclude(env, cfg, creds, attempt, e, status, wait);
      x.last == FailureErr(env, e, status) && EndsWith(env, x.last, CapReached(cfg), wait, x.result)
  {
  }

  lemma ReasonsKeep(env: Env, last: Err, cap: Err, wait: Timer, result: Option<Result>)
    requires EndsWith(env, last, cap, wait, result)
    ensures result.Some? && StatusFromError(env.pattern, last) != 0
        ==> result.value.Failed? && StatusFromError(env.pattern, result.value.err) == StatusFromError(env.pattern, last)
  {
    if StatusFromError(env.pattern, last) != 0 {
      EndedKeeps(env, Some(last), cap);
      if delay :| wait(delay).Some? && result == Ended(env, Some(last), wait(delay).value) {
        EndedKeeps(env, Some(last), wait(delay).value);
      }
    }
  }

  /** The failure a loop remembers has the status its decision used. */
  lemma RecordedFailure(env: Env, e: Option<Err>, status: int)
    requires e.Some? || 100 <= status <= 599
    ensures StatusFromError(env.pattern, FailureErr(env, e, status)) == FailureStatus(env, e, status)
  {
    if e.Some? { RecordedStatus(env.pattern, e.value); }
  }

  lemma StepKeeps(env: Env, cfg: PluginConfig, st: Loop, h: HostCall<Reply>, known: int)
    requires RealCodes(cfg) && st.result.None? && Keeps(env, st, known)
    ensures Keeps(env, Step(env, cfg, st, h),
                  if FailedHere(st, Step(env, cfg, st, h)) then StatusSeen(env, cfg, st, h) else known)
  {
    if h.ctx.Some? {
      if known != 0 { EndedKeeps(env, st.lastErr, h.ctx.value); }
    } else {
      var c := Call(env, cfg, st.creds, st.attempt, h, h.reply.err);
      if !c.verdict.Dispatched? {
        var end := SelectionEnd(c.verdict, h.reply.err);
        if known != 0 && end.Some? { EndedKeeps(env, st.lastErr, end.value); }
      } else {
        SettleKeeps(env, cfg, st.(creds := c.creds), c.pin, c.sent, h, known);
      }
    }
  }

  lemma SettleKeeps(env: Env, cfg: PluginConfig, st: Loop, pin: string, sent: Option<Sent>, h: HostCall<Reply>,
                    known: int)
    requires RealCodes(cfg) && st.result.None? && Keeps(env, st, known)
    ensures var next := Settle(env, cfg, st, pin, sent, h.reply, h.wait);
      Keeps(env, next, if FailedHere(st, next) then StatusSeen(env, cfg, st, h) else known)
  {
    var e := Outcome(cfg, st.attempt, h.reply);
    if e.Some? || ShouldRetryStatus(cfg, h.reply.status) {
      ConcludeKeeps(env, cfg, st.creds, st.attempt, e, h.reply.status, h.wait);
    }
  }

  lemma {:induction false} RunKeeps(env: Env, cfg: PluginConfig, st: Loop, script: seq<HostCall<Reply>>, known: int)
    requires RealCodes(cfg) && Keeps(env, st, known)
    ensures Keeps(env, Run(env, cfg, st, script), LastStatus(env, cfg, st, script, known))
    decreases |script|
  {
    if script != [] {
      if st.result.None? { StepKeeps(env, cfg, st, script[0], known); }
      var next := Step(env, cfg, st, script[0]);
      RunKeeps(env, cfg, next, script[1..],
               if FailedHere(st, next) then StatusSeen(env, cfg, st, script[0]) else known);
    }
  }

  /**
   Whatever ends the run (the cap, a rule, a cancelled wait, or a selection error with a status of its own), the
   error returned carries the status of the last counted failure whenever that failure had one.
   */
  lemma FinalErrorKeepsStatus(env: Env, cfg: PluginConfig, script: seq<HostCall<Reply>>)
    requires RealCodes(cfg)
    ensures var end := Run(env, cfg, Start(cfg), script);
      var status := LastStatus(env, cfg, Start(cfg), script, 0);
      end.result.Some? && end.result.value.Failed? && status != 0 ==>
        StatusFromError(env.pattern, end.result.value.err) == status
  {
    RunKeeps(env, cfg, Start(cfg), script, 0);
  }
}
