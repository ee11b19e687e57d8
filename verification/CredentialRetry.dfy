/** The mutable per-request scheduler object; each method is one mutex region and matches its atomic step. */
module CredentialRetry {
  import opened Wrappers
  import opened Config
  import opened ErrorStatus
  import opened Scheduler
  import Ids
  import opened Cooldown
  import Backoff

  class Credentials {
    var authID: string
    const retries: int
    var failures: int
    var dispatched: bool
    var exhausted: set<string>
    var excluded: set<string>
    var candidates: set<string>
    var round: int
    var newRound: bool
    var deferred: bool

    function View(): State
      reads this
    {
      State(authID, retries, failures, dispatched, exhausted, excluded, candidates, round, newRound, deferred)
    }

    constructor (retries: int)
      ensures View() == Initial(retries)
    {
      this.retries := retries;
      authID, failures, dispatched := "", 0, false;
      exhausted, excluded, candidates := {}, {}, {};
      round, newRound, deferred := 1, false, false;
    }

    method Prepare() returns (pinned: string)
      modifies this
      ensures View() == Prepared(old(View()))
      ensures pinned == old(authID)
    {
      dispatched := false;
      newRound := false;
      deferred := false;
      pinned := authID;
    }

    method Retire(isExhausted: bool)
      modifies this
      ensures View() == Retired(old(View()), isExhausted)
    {
      if authID != "" {
        if isExhausted {
          exhausted := exhausted + {authID};
        } else {
          excluded := excluded + {authID};
        }
      }
      authID := "";
      failures := 0;
    }

    method Failed(retryable: bool)
      modifies this
      ensures View() == AfterFailure(old(View()), retryable)
    {
      if authID == "" {
        return;
      }
      if !dispatched || !retryable {
        Retire(false);
        return;
      }
      failures := failures + 1;
      if failures > retries {
        Retire(true);
      }
    }

    method ReleaseForFailover(maxAttempts: int, attempt: int) returns (released: bool)
      modifies this
      ensures released == MayRelease(old(View()), maxAttempts, attempt)
      ensures View() == if released then Retired(old(View()), false) else old(View())
    {
      if maxAttempts > 0 && attempt >= maxAttempts {
        return false;
      }
      if !deferred || authID == "" {
        return false;
      }
      Retire(false);
      released := true;
    }

    method Select(offers: seq<Candidate>, nextRound: bool) returns (selected: Option<Candidate>)
      ensures IsSelection(View(), offers, nextRound, selected)
      ensures selected == Selection(View(), offers, nextRound)
    {
      selected := None;
      for i := 0 to |offers|
        invariant selected == Selection(View(), offers[..i], nextRound)
      {
        var c := offers[i];
        assert offers[..i + 1][..i] == offers[..i];
        if c.id == "" || c.id in excluded || (c.id in exhausted && !nextRound) || (authID != "" && c.id != authID) {
          continue;
        }
        if selected == None || c.priority > selected.value.priority
           || (c.priority == selected.value.priority && Ids.Less(c.id, selected.value.id))
        {
          selected := Some(c);
        }
      }
      assert offers[..|offers|] == offers;
      SelectionIsBest(View(), offers, nextRound);
    }

    /** Every non-empty ID the host offers is remembered. */
    method Observe(offers: seq<Candidate>)
      modifies this`candidates
      ensures candidates == old(candidates) + OfferedIDs(offers)
    {
      for i := 0 to |offers|
        invariant candidates == old(candidates) + OfferedIDs(offers[..i])
      {
        assert offers[..i + 1] == offers[..i] + [offers[i]];
        OfferedOneMore(offers[..i], offers[i]);
        if offers[i].id != "" {
          candidates := candidates + {offers[i].id};
        }
      }
      assert offers[..|offers|] == offers;
    }

    /** One scheduler callback that carried this request's token. */
    method Choose(offers: seq<Candidate>) returns (response: PickResponse)
      modifies this
      ensures (View(), response) == Pick(old(View()), offers)
    {
      if dispatched {
        deferred := true;
        return Reject;
      }
      Observe(offers);
      var selected := Select(offers, false);
      if selected.None? && authID == "" && exhausted != {} {
        selected := Select(offers, true);
        if selected.Some? {
          exhausted := {};
          round := round + 1;
          newRound := true;
        }
      }
      if selected.None? {
        return Reject;
      }
      if authID == "" {
        authID := selected.value.id;
      }
      dispatched := true;
      response := Use(selected.value.id);
    }

    method ShortestCooldown(entries: seq<AuthEntry>) returns (known: Option<int>)
      ensures known == MinWait(View(), entries) && LeastWait(View(), entries, known)
    {
      known := None;
      for i := 0 to |entries|
        invariant known == MinWait(View(), entries[..i])
      {
        var entry := entries[i];
        assert entries[..i + 1][..i] == entries[..i];
        var related := entry.id in candidates - excluded;
        if !entry.disabled && ((authID != "" && entry.id == authID) || (authID == "" && related)) {
          if entry.remaining > 0 {
            var until := entry.remaining / Backoff.NS_PER_SECOND + 1;
            if known.None? || until < known.value {
              known := Some(until);
            }
          }
        }
      }
      assert entries[..|entries|] == entries;
      MinWaitIsLeast(View(), entries);
    }

    method ReportedRecovery(env: Env, e: Err, list: Option<seq<AuthEntry>>) returns (known: Option<int>)
      ensures known == RecoverySeconds(env, View(), e, list)
    {
      var eligible := candidates - excluded;
      if candidates != {} && eligible == {} {
        return None;
      }
      var message := ErrorText(e);
      known := KnownCooldown(env, message);
      if known.None? {
        if !NamesUnavailable(message) || list.None? {
          return None;
        }
        known := ShortestCooldown(list.value);
      }
    }

    method CooldownWait(env: Env, cfg: PluginConfig, e: Err, attempt: int, list: Option<seq<AuthEntry>>)
      returns (delay: Option<int>)
      requires ValidPolicy(cfg)
      ensures delay == CooldownDelay(env, cfg, View(), e, attempt, list)
    {
      if dispatched {
        return None;
      }
      var known := ReportedRecovery(env, e, list);
      if known.None? {
        return None;
      }
      var wait := BoundedWait(cfg, attempt, known.value);
      delay := Some(wait);
    }

    static method BoundedWait(cfg: PluginConfig, attempt: int, reported: int) returns (wait: int)
      requires ValidPolicy(cfg)
      ensures wait == PollDelay(cfg, attempt, reported)
    {
      var seconds := reported;
      if seconds < 1 {
        seconds := 1;
      }
      var most := cfg.maxDelayMS * Backoff.NS_PER_MILLI;
      wait := Backoff.Wrap64(cfg.maxDelayMS * Backoff.NS_PER_MILLI);
      assert wait == most;
      if seconds <= wait / Backoff.NS_PER_SECOND {
        assert 0 <= seconds * Backoff.NS_PER_SECOND <= most;
        wait := Backoff.Wrap64(seconds * Backoff.NS_PER_SECOND);
      }
      assert wait == Backoff.Min(most, seconds * Backoff.NS_PER_SECOND);
      var backoff := Backoff.RetryDelay(cfg.initialDelayMS, cfg.maxDelayMS, attempt);
      if backoff > wait {
        wait := backoff;
      }
    }

    method HandleSelectionFailure(env: Env, cfg: PluginConfig, e: Option<Err>, attempt: int,
                                  list: Option<seq<AuthEntry>>, wait: Timer) returns (verdict: Verdict)
      requires ValidPolicy(cfg)
      modifies this
      ensures (View(), verdict) == SelectionFailure(env, cfg, old(View()), e, attempt, list, wait)
    {
      if dispatched || e.None? {
        return Dispatched;
      }
      var delay := CooldownWait(env, cfg, e.value, attempt, list);
      if delay.Some? {
        return Polled(WaitResult(delay.value, wait));
      }
      if authID != "" {
        Retire(false);
        return Released;
      }
      verdict := NoCredential;
    }
  }
}
