/** Budgets, permanent exclusion, and termination bounds over every run of the loop. */
module Budget {
  import opened Wrappers
  import opened Config
  import opened Scheduler
  import opened Cooldown
  import opened RetryLoop
  import opened Turns
  import Collections

  // ---- counting in the trace ----------------------------------------------

  function Sends(log: seq<Record>, id: string, round: int): nat {
    if log == [] then 0
    else Sends(log[..|log| - 1], id, round) + if log[|log| - 1].sent == Some(Sent(id, round)) then 1 else 0
  }

  /** Dispatches whose failure matched a retry rule. */
  function MatchedSends(log: seq<Record>, id: string, round: int): nat {
    if log == [] then 0
    else
      var last := log[|log| - 1];
      MatchedSends(log[..|log| - 1], id, round) +
      if last.sent == Some(Sent(id, round)) && last.kind.Matched? then 1 else 0
  }

  lemma CountOneMore(log: seq<Record>, entry: Record, id: string, round: int)
    ensures Sends(log + [entry], id, round)
         == Sends(log, id, round) + if entry.sent == Some(Sent(id, round)) then 1 else 0
    ensures MatchedSends(log + [entry], id, round)
         == MatchedSends(log, id, round) + if entry.sent == Some(Sent(id, round)) && entry.kind.Matched? then 1 else 0
  {
    assert (log + [entry])[..|log|] == log;
  }

  /** The credential a call retired for the rest of the request, "" when it retired none. */
  function RetiredBy(entry: Record): string {
    if entry.kind.Unmatched? && entry.sent.Some? then entry.sent.value.id
    else if entry.kind.Release? || (entry.kind.Matched? && entry.sent.None?) then entry.pin
    else ""
  }

  // ---- the accounting invariant -------------------------------------------

  /** Between two calls: the current round's counts of one credential, from its place in the scheduler. */
  predicate AccountOf(s: State, log: seq<Record>, id: string) {
    && (id in s.exhausted ==> Sends(log, id, s.round) == MatchedSends(log, id, s.round) == s.retries + 1)
    && (id != "" && id == s.authID ==> Sends(log, id, s.round) == MatchedSends(log, id, s.round) == s.failures)
    && (id != "" && id !in s.exhausted && id !in s.excluded && id != s.authID ==>
         Sends(log, id, s.round) == MatchedSends(log, id, s.round) == 0)
  }

  ghost predicate WithinBudget(log: seq<Record>, retries: int) {
    forall id, round :: Sends(log, id, round) <= retries + 1
  }

  ghost predicate NothingAhead(log: seq<Record>, round: int) {
    forall id, later :: later > round ==> Sends(log, id, later) == 0 && MatchedSends(log, id, later) == 0
  }

  /** A retired credential is never dispatched again. */
  ghost predicate NoComeback(log: seq<Record>) {
    forall i, j :: 0 <= i < j < |log| && RetiredBy(log[i]) != "" && log[j].sent.Some?
      ==> log[j].sent.value.id != RetiredBy(log[i])
  }

  ghost predicate RetiredAreExcluded(s: State, log: seq<Record>) {
    forall i :: 0 <= i < |log| && RetiredBy(log[i]) != "" ==> RetiredBy(log[i]) in s.excluded
  }

  ghost predicate Accounted(cfg: PluginConfig, st: Loop) {
    && st.creds.Some? && Valid(st.creds.value) && st.creds.value.retries == cfg.sameAuthRetries
    && WithinBudget(st.log, cfg.sameAuthRetries) && NoComeback(st.log)
    && (st.result.None? ==>
          && NothingAhead(st.log, st.creds.value.round)
          && RetiredAreExcluded(st.creds.value, st.log)
          && forall id :: AccountOf(st.creds.value, st.log, id))
  }

  lemma StepAccounted(env: Env, cfg: PluginConfig, st: Loop, h: HostCall<Reply>)
    requires ValidPolicy(cfg) && Accounted(cfg, st)
    ensures Accounted(cfg, Step(env, cfg, st, h))
  {
    if st.result.None? {
      var entry := TurnShape(env, cfg, st, h);
      if h.ctx.None? { TurnAccounted(cfg, st, Step(env, cfg, st, h), entry, AllOffered(h.picks)); }
    }
  }

  lemma TurnAccounted(cfg: PluginConfig, st: Loop, next: Loop, entry: Record, offered: set<string>)
    requires Accounted(cfg, st) && st.result.None? && next.creds.Some? && GoodTurn(cfg, st, next, entry, offered)
    ensures Accounted(cfg, next)
  {
    var s, t := st.creds.value, next.creds.value;
    BudgetKept(s, st.log, entry, cfg.sameAuthRetries);
    NoneComesBack(s, st.log, entry);
    if next.result.None? {
      forall id ensures AccountOf(t, next.log, id) {
        AccountTurn(s, t, st.log, entry, id);
      }
      StillNothingAhead(s, t, st.log, entry);
      StillExcluded(s, t, st.log, entry);
    }
  }

  lemma BudgetKept(s: State, log: seq<Record>, entry: Record, retries: int)
    requires Valid(s) && s.retries == retries && WithinBudget(log, retries) && NothingAhead(log, s.round)
    requires forall id :: AccountOf(s, log, id)
    requires entry.sent.Some? ==> LegalDispatch(s, entry.sent.value)
    ensures WithinBudget(log + [entry], retries)
  {
    forall id, round ensures Sends(log + [entry], id, round) <= retries + 1 {
      CountOneMore(log, entry, id, round);
      assert AccountOf(s, log, id);
    }
  }

  lemma NoneComesBack(s: State, log: seq<Record>, entry: Record)
    requires NoComeback(log) && RetiredAreExcluded(s, log)
    requires entry.sent.Some? ==> LegalDispatch(s, entry.sent.value)
    ensures NoComeback(log + [entry])
  {
  }

  lemma StillNothingAhead(s: State, t: State, log: seq<Record>, entry: Record)
    requires NothingAhead(log, s.round) && t.round >= s.round
    requires entry.sent.Some? ==> entry.sent.value.round <= t.round
    ensures NothingAhead(log + [entry], t.round)
  {
    forall id, later | later > t.round
      ensures Sends(log + [entry], id, later) == 0 && MatchedSends(log + [entry], id, later) == 0
    {
      CountOneMore(log, entry, id, later);
    }
  }

  lemma StillExcluded(s: State, t: State, log: seq<Record>, entry: Record)
    requires RetiredAreExcluded(s, log) && s.excluded <= t.excluded
    requires RetiredBy(entry) != "" ==> RetiredBy(entry) in t.excluded
    ensures RetiredAreExcluded(t, log + [entry])
  {
  }

  lemma AccountTurn(s: State, t: State, log: seq<Record>, entry: Record, id: string)
    requires Valid(s) && Valid(t) && entry.pin == s.authID
    requires Prepared(t) == Turned(s, entry.kind, entry.sent, t.candidates)
    requires entry.sent.Some? ==> LegalDispatch(s, entry.sent.value) && !entry.kind.Poll?
    requires entry.kind.Unmatched? ==> entry.sent.Some?
    requires entry.kind.Matched? || entry.kind.Unmatched? || entry.sent.None?
    requires AccountOf(s, log, id) && NothingAhead(log, s.round)
    ensures AccountOf(t, log + [entry], id)
  {
    CountOneMore(log, entry, id, t.round);
  }

  lemma {:induction false} RunAccounted(env: Env, cfg: PluginConfig, st: Loop, script: seq<HostCall<Reply>>)
    requires ValidPolicy(cfg) && Accounted(cfg, st)
    ensures Accounted(cfg, Run(env, cfg, st, script))
    decreases |script|
  {
    if script != [] {
      StepAccounted(env, cfg, st, script[0]);
      RunAccounted(env, cfg, Step(env, cfg, st, script[0]), script[1..]);
    }
  }

  /**
   Budget safety, for every host behaviour: no credential is dispatched more than r+1 times in one round,
   a retired one never returns, and while the loop runs an exhausted credential has had exactly r+1
   dispatches this round, all of them matching failures.
   */
  lemma BudgetSafety(env: Env, cfg: PluginConfig, script: seq<HostCall<Reply>>)
    requires ValidPolicy(cfg) && cfg.sameAuthRetries > 0
    ensures var end := Run(env, cfg, Start(cfg), script);
      && WithinBudget(end.log, cfg.sameAuthRetries)
      && NoComeback(end.log)
      && end.creds.Some? && Valid(end.creds.value)
      && (end.result.None? ==> forall id :: AccountOf(end.creds.value, end.log, id))
  {
    RunAccounted(env, cfg, Start(cfg), script);
  }

  // ---- bounded termination ------------------------------------------------

  datatype Tally = Tally(attempts: nat, dispatches: nat, releases: nat, stops: nat, polls: nat, unmatched: nat)

  /** How many calls of each class the trace holds. */
  function Count(log: seq<Record>): Tally {
    if log == [] then Tally(0, 0, 0, 0, 0, 0)
    else
      var t, last := Count(log[..|log| - 1]), log[|log| - 1];
      Tally(t.attempts + if Attempted(last.kind) then 1 else 0,
            t.dispatches + if last.sent.Some? then 1 else 0,
            t.releases + if last.kind.Release? then 1 else 0,
            t.stops + if last.kind.Stop? then 1 else 0,
            t.polls + if last.kind.Poll? then 1 else 0,
            t.unmatched + if last.kind.Unmatched? then 1 else 0)
  }

  lemma {:induction false} CountsEveryCall(log: seq<Record>)
    ensures var t := Count(log); |log| == t.attempts + t.releases + t.stops + t.polls
  {
    if log != [] { CountsEveryCall(log[..|log| - 1]); }
  }

  function Pinned(st: Loop): nat
    requires st.creds.Some?
  {
    if st.creds.value.authID != "" then 1 else 0
  }

  /** Each release gives back a pin that an earlier dispatch took; each dispatch belongs to an attempt. */
  predicate Bounded(cfg: PluginConfig, st: Loop)
  {
    var t := Count(st.log);
    && st.creds.Some? && Valid(st.creds.value)
    && st.attempt >= 1
    && (cfg.maxAttempts > 0 ==> st.attempt <= cfg.maxAttempts)
    && t.dispatches <= t.attempts <= st.attempt
    && (st.result.None? ==>
          && t.attempts == st.attempt - 1 && t.stops == 0
          && t.releases + Pinned(st) <= t.dispatches
          && t.unmatched <= |st.creds.value.excluded|)
    && t.attempts + t.releases + t.stops <= 2 * st.attempt - 1
    && (st.log != [] ==> Count(st.log[..|st.log| - 1]).unmatched <= |st.creds.value.excluded|)
  }

  lemma StepBounded(env: Env, cfg: PluginConfig, st: Loop, h: HostCall<Reply>)
    requires ValidPolicy(cfg) && Bounded(cfg, st)
    ensures Bounded(cfg, Step(env, cfg, st, h))
  {
    if st.result.None? {
      var entry := TurnShape(env, cfg, st, h);
      if h.ctx.None? { TurnBounded(cfg, st, Step(env, cfg, st, h), entry, AllOffered(h.picks)); }
    }
  }

  lemma TurnBounded(cfg: PluginConfig, st: Loop, next: Loop, entry: Record, offered: set<string>)
    requires Bounded(cfg, st) && st.result.None? && next.creds.Some? && GoodTurn(cfg, st, next, entry, offered)
    ensures Bounded(cfg, next)
  {
    var s, t := st.creds.value, next.creds.value;
    assert next.log[..|next.log| - 1] == st.log;
    Collections.SubsetSize(s.excluded, t.excluded);
    if next.result.None? && entry.kind.Unmatched? {
      var id := entry.sent.value.id;
      assert Prepared(t).excluded == s.excluded + {id};
    }
  }

  function OfferedBy(script: seq<HostCall<Reply>>): set<string> {
    if script == [] then {} else AllOffered(script[0].picks) + OfferedBy(script[1..])
  }

  lemma {:induction false} RunBounded(env: Env, cfg: PluginConfig, st: Loop, script: seq<HostCall<Reply>>)
    requires ValidPolicy(cfg) && Bounded(cfg, st)
    ensures var end := Run(env, cfg, st, script);
      Bounded(cfg, end) && end.creds.value.candidates <= st.creds.value.candidates + OfferedBy(script)
    decreases |script|
  {
    if script != [] {
      StepBounded(env, cfg, st, script[0]);
      if st.result.None? { var _ := TurnShape(env, cfg, st, script[0]); }
      RunBounded(env, cfg, Step(env, cfg, st, script[0]), script[1..]);
    }
  }

  /**
   With a cap, the attempt number never passes it, the dispatches of all rounds together stay within it, and
   the host calls that are not cooldown polls number fewer than twice the cap.
   */
  lemma CapBoundsCalls(env: Env, cfg: PluginConfig, script: seq<HostCall<Reply>>)
    requires ValidPolicy(cfg) && cfg.sameAuthRetries > 0 && cfg.maxAttempts > 0
    ensures var end := Run(env, cfg, Start(cfg), script);
      && end.attempt <= cfg.maxAttempts
      && Count(end.log).dispatches <= cfg.maxAttempts
      && |end.log| - Count(end.log).polls <= 2 * cfg.maxAttempts - 1
  {
    RunBounded(env, cfg, Start(cfg), script);
    CountsEveryCall(Run(env, cfg, Start(cfg), script).log);
  }

  /**
   With or without a cap, the failures outside the rules after which the loop went on are no more than
   the credentials ever offered: each retires one for good. Only the last call of a finished run is exempt.
   */
  lemma UnmatchedFailuresBounded(env: Env, cfg: PluginConfig, script: seq<HostCall<Reply>>)
    requires ValidPolicy(cfg) && cfg.sameAuthRetries > 0
    ensures var end := Run(env, cfg, Start(cfg), script);
      && (end.result.None? ==> Count(end.log).unmatched <= |OfferedBy(script)|)
      && (end.log != [] ==> Count(end.log[..|end.log| - 1]).unmatched <= |OfferedBy(script)|)
  {
    RunBounded(env, cfg, Start(cfg), script);
    var s := Run(env, cfg, Start(cfg), script).creds.value;
    Collections.SubsetSize(s.excluded, s.candidates);
    Collections.SubsetSize(s.candidates, OfferedBy(script));
  }
}
