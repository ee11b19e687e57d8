/** Cooldown polls are invisible: they change nothing that a later call depends on. */
module Polls {
  import opened Wrappers
  import opened Config
  import opened Scheduler
  import opened Cooldown
  import opened RetryLoop
  import opened Collections

  /** An undispatched call that only waits for a cooldown and learns of no new credential. */
  predicate IsPoll(env: Env, cfg: PluginConfig, st: Loop, h: HostCall<Reply>) {
    && st.result.None? && st.creds.Some? && Valid(st.creds.value)
    && h.ctx.None?
    && AllOffered(h.picks) <= st.creds.value.candidates
    && Call(env, cfg, st.creds, st.attempt, h, h.reply.err).verdict == Polled(None)
  }

  predicate ArePolls(env: Env, cfg: PluginConfig, st: Loop, polls: seq<HostCall<Reply>>)
    decreases |polls|
  {
    polls == [] || (IsPoll(env, cfg, st, polls[0]) && ArePolls(env, cfg, Step(env, cfg, st, polls[0]), polls[1..]))
  }

  /** Equal but for the trace so far and the per-call flags, which the next call clears anyway. */
  predicate Alike(a: Loop, b: Loop) {
    && a.attempt == b.attempt && a.lastErr == b.lastErr && a.result == b.result
    && (a.creds.Some? <==> b.creds.Some?)
    && (a.creds.Some? ==> Prepared(a.creds.value) == Prepared(b.creds.value))
  }

  lemma PollStep(env: Env, cfg: PluginConfig, st: Loop, h: HostCall<Reply>)
    requires IsPoll(env, cfg, st, h)
    ensures Alike(Step(env, cfg, st, h), st)
    ensures Step(env, cfg, st, h).log == st.log + [Record(Poll, st.attempt, st.creds.value.authID, None)]
  {
    StepsKeepValid(st.creds.value, false);
    CallbackRules(Prepared(st.creds.value), h.picks);
  }

  /** Settling does not look at the trace. */
  lemma SettleAlike(env: Env, cfg: PluginConfig, a: Loop, b: Loop, pin: string, sent: Option<Sent>, r: Reply,
                    wait: Timer)
    returns (entry: Record)
    requires a == b.(log := a.log)
    ensures var x, y := Settle(env, cfg, a, pin, sent, r, wait), Settle(env, cfg, b, pin, sent, r, wait);
      x == y.(log := x.log) && x.log == a.log + [entry] && y.log == b.log + [entry]
  {
    entry := Settle(env, cfg, a, pin, sent, r, wait).log[|a.log|];
  }

  lemma CallAlike(env: Env, cfg: PluginConfig, a: Loop, b: Loop, h: HostCall<Reply>)
    requires Alike(a, b)
    ensures Call(env, cfg, a.creds, a.attempt, h, h.reply.err) == Call(env, cfg, b.creds, b.attempt, h, h.reply.err)
  {
  }

  lemma StepAlike(env: Env, cfg: PluginConfig, a: Loop, b: Loop, h: HostCall<Reply>) returns (tail: seq<Record>)
    requires Alike(a, b)
    ensures Alike(Step(env, cfg, a, h), Step(env, cfg, b, h))
    ensures Step(env, cfg, a, h).log == a.log + tail && Step(env, cfg, b, h).log == b.log + tail
  {
    if a.result.Some? || h.ctx.Some? {
      tail := [];
    } else {
      CallAlike(env, cfg, a, b, h);
      var c := Call(env, cfg, a.creds, a.attempt, h, h.reply.err);
      if c.verdict.Dispatched? {
        var entry := SettleAlike(env, cfg, a.(creds := c.creds), b.(creds := c.creds), c.pin, c.sent, h.reply, h.wait);
        tail := [entry];
      } else {
        tail := [Record(KindOf(c.verdict), a.attempt, c.pin, c.sent)];
      }
    }
  }

  lemma {:induction false} RunAlike(env: Env, cfg: PluginConfig, a: Loop, b: Loop, script: seq<HostCall<Reply>>)
    returns (tail: seq<Record>)
    requires Alike(a, b)
    ensures Alike(Run(env, cfg, a, script), Run(env, cfg, b, script))
    ensures Run(env, cfg, a, script).log == a.log + tail && Run(env, cfg, b, script).log == b.log + tail
    decreases |script|
  {
    if script == [] {
      tail := [];
    } else {
      var first := StepAlike(env, cfg, a, b, script[0]);
      var a', b' := Step(env, cfg, a, script[0]), Step(env, cfg, b, script[0]);
      var rest := RunAlike(env, cfg, a', b', script[1..]);
      tail := first + rest;
      Regroup(a.log, first, rest);
      Regroup(b.log, first, rest);
    }
  }

  predicate OnlyPolls(waits: seq<Record>) {
    forall i :: 0 <= i < |waits| ==> waits[i].kind.Poll? && waits[i].sent.None?
  }

  lemma {:induction false} PollsRun(env: Env, cfg: PluginConfig, st: Loop, polls: seq<HostCall<Reply>>)
    returns (waits: seq<Record>)
    requires ArePolls(env, cfg, st, polls)
    ensures Alike(Run(env, cfg, st, polls), st)
    ensures Run(env, cfg, st, polls).log == st.log + waits
    ensures |waits| == |polls| && OnlyPolls(waits)
    decreases |polls|
  {
    if polls == [] {
      waits := [];
    } else {
      PollStep(env, cfg, st, polls[0]);
      var wait := Record(Poll, st.attempt, st.creds.value.authID, None);
      var more := PollsRun(env, cfg, Step(env, cfg, st, polls[0]), polls[1..]);
      waits := [wait] + more;
      Regroup(st.log, [wait], more);
    }
  }

  /**
   Inserting any number of polls at any point of any run changes neither its result nor its attempt numbers nor
   its dispatches: the trace is the same but for the polls themselves.
   */
  lemma PollsAreInvisible(env: Env, cfg: PluginConfig, st: Loop, polls: seq<HostCall<Reply>>,
                          script: seq<HostCall<Reply>>)
    returns (waits: seq<Record>, tail: seq<Record>)
    requires ArePolls(env, cfg, st, polls)
    ensures var with, without := Run(env, cfg, st, polls + script), Run(env, cfg, st, script);
      && Alike(with, without)
      && without.log == st.log + tail && with.log == st.log + waits + tail
    ensures |waits| == |polls| && OnlyPolls(waits)
  {
    waits := PollsRun(env, cfg, st, polls);
    RunAppend(env, cfg, st, polls, script);
    tail := RunAlike(env, cfg, Run(env, cfg, st, polls), st, script);
  }
}
