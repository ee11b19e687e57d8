/**
 What becomes of a call that fails before any credential was given out, in terms of the error's text, the credentials
 seen and the runtime metadata alone.
 */
module Recovery {
  import opened Wrappers
  import opened Config
  import opened ErrorStatus
  import opened Scheduler
  import opened Cooldown
  import opened RetryLoop
  import opened Decisions

  /** The word occurs in the text. */
  ghost predicate Names(text: string, word: string) {
    exists i {:trigger text[i..]} :: 0 <= i <= |text| && word <= text[i..]
  }

  ghost predicate FirstBrace(text: string, i: nat) {
    i < |text| && text[i] == '{' && forall j :: 0 <= j < i ==> text[j] != '{'
  }

  /** A cooldown of so many seconds is decoded from the text, from its first brace on. */
  ghost predicate Decodes(env: Env, text: string, seconds: int) {
    exists i: nat :: FirstBrace(text, i) && env.recovery(text[i..]) == Some(seconds)
  }

  /** Not everything this request has seen is excluded. */
  ghost predicate SomethingLeft(s: State) {
    s.candidates == {} || exists id :: id in s.candidates && id !in s.excluded
  }

  /** The entry is enabled, cooling, and one that this request may still use. */
  predicate Concerns(s: State, entry: AuthEntry) {
    && !entry.disabled && entry.remaining > 0
    && if s.authID != "" then entry.id == s.authID else entry.id in s.candidates && entry.id !in s.excluded
  }

  ghost predicate SomeConcerns(s: State, list: Option<seq<AuthEntry>>) {
    list.Some? && exists entry :: entry in list.value && Concerns(s, entry)
  }

  /** `seconds` is the least wait the metadata gives, rounded up to a whole second past it. */
  ghost predicate LeastConcern(s: State, list: Option<seq<AuthEntry>>, seconds: int) {
    && list.Some?
    && (exists entry :: entry in list.value && Concerns(s, entry) && entry.remaining / 1_000_000_000 + 1 == seconds)
    && forall entry :: entry in list.value && Concerns(s, entry) ==> seconds <= entry.remaining / 1_000_000_000 + 1
  }

  ghost predicate NamesCooldown(text: string) {
    Names(text, "auth_unavailable") || Names(text, "auth_not_found")
  }

  /** The failure is a cooldown to wait for. */
  ghost predicate WillRecover(env: Env, s: State, text: string, list: Option<seq<AuthEntry>>) {
    && SomethingLeft(s)
    && ((exists n :: Decodes(env, text, n)) || (NamesCooldown(text) && SomeConcerns(s, list)))
  }

  /** The seconds it takes: those decoded, else the least in the metadata. */
  ghost predicate RecoversIn(env: Env, s: State, text: string, list: Option<seq<AuthEntry>>, seconds: int) {
    if exists n :: Decodes(env, text, n) then Decodes(env, text, seconds) else LeastConcern(s, list, seconds)
  }

  // ---- the parts ----------------------------------------------------------

  lemma {:induction false} IndexIsFirst(text: string)
    ensures IndexOf(text, '{') >= 0 ==> FirstBrace(text, IndexOf(text, '{'))
    ensures IndexOf(text, '{') < 0 ==> forall j :: 0 <= j < |text| ==> text[j] != '{'
  {
    if text != [] && text[0] != '{' { IndexIsFirst(text[1..]); }
  }

  lemma KnownDecodes(env: Env, text: string)
    ensures forall n :: KnownCooldown(env, text) == Some(n) <==> Decodes(env, text, n)
  {
    IndexIsFirst(text);
    var at := IndexOf(text, '{');
    forall n ensures KnownCooldown(env, text) == Some(n) <==> Decodes(env, text, n) {
      if Decodes(env, text, n) {
        var i: nat :| FirstBrace(text, i) && env.recovery(text[i..]) == Some(n);
        assert i == at by { assert at >= 0; }
      }
    }
  }

  lemma LeftExactly(s: State)
    ensures AllExcluded(s) <==> !SomethingLeft(s)
  {
    if s.candidates != {} && EligibleIDs(s) != {} {
      var id :| id in EligibleIDs(s);
      assert id in s.candidates && id !in s.excluded;
    }
    if id :| id in s.candidates && id !in s.excluded { assert id in EligibleIDs(s); }
  }

  lemma CoolingExactly(s: State, list: Option<seq<AuthEntry>>)
    requires list.Some?
    ensures MinWait(s, list.value).Some? <==> SomeConcerns(s, list)
    ensures MinWait(s, list.value).Some? ==> LeastConcern(s, list, MinWait(s, list.value).value)
  {
    MinWaitIsLeast(s, list.value);
    forall entry ensures Cooling(s, entry) <==> Concerns(s, entry) { }
    var found := MinWait(s, list.value);
    if found.Some? {
      var entry :| entry in list.value && Cooling(s, entry) && WholeSeconds(entry) == found.value;
      assert Concerns(s, entry) && entry.remaining / 1_000_000_000 + 1 == found.value;
      forall other | other in list.value && Concerns(s, other)
        ensures found.value <= other.remaining / 1_000_000_000 + 1
      {
        assert Cooling(s, other) && WholeSeconds(other) == other.remaining / 1_000_000_000 + 1;
      }
    }
  }

  lemma RecoveryExactly(env: Env, s: State, e: Err, list: Option<seq<AuthEntry>>)
    ensures var found := RecoverySeconds(env, s, e, list);
      && (found.Some? <==> WillRecover(env, s, ErrorText(e), list))
      && (found.Some? ==> RecoversIn(env, s, ErrorText(e), list, found.value))
  {
    var text := ErrorText(e);
    LeftExactly(s);
    KnownDecodes(env, text);
    assert NamesUnavailable(text) <==> NamesCooldown(text);
    if list.Some? { CoolingExactly(s, list); }
    assert (exists n :: Decodes(env, text, n)) <==> KnownCooldown(env, text).Some? by {
      if KnownCooldown(env, text).Some? { assert Decodes(env, text, KnownCooldown(env, text).value); }
    }
  }

  // ---- the verdict --------------------------------------------------------

  /**
   A failure before any dispatch is a cooldown to wait for if and only if not everything seen is excluded and either a
   cooldown is decoded from its text, or the text names one and the metadata lists a credential of this request as
   cooling. The wait is for the decoded seconds, else for the least that the metadata gives. Any other such failure
   gives the pin up for good, and without a pin there is no credential left.
   */
  lemma PolledExactly(env: Env, cfg: PluginConfig, s: State, e: Err, attempt: nat, list: Option<seq<AuthEntry>>,
                      wait: Timer)
    requires ValidPolicy(cfg) && attempt >= 1 && !s.dispatched
    ensures var (t, verdict) := SelectionFailure(env, cfg, s, Some(e), attempt, list, wait);
      if WillRecover(env, s, ErrorText(e), list) then t == s && PollsFor(env, cfg, s, e, attempt, list, wait, verdict)
      else if s.authID != "" then
        verdict == Released && t == s.(authID := "", failures := 0, excluded := s.excluded + {s.authID})
      else verdict == NoCredential && t == s
  {
    RecoveryExactly(env, s, e, list);
    var found := RecoverySeconds(env, s, e, list);
    if found.Some? { PollDelayBounds(cfg, attempt, found.value); }
  }

  /** The wait is for the seconds it takes to recover, between the backoff and the maximum delay. */
  ghost predicate PollsFor(env: Env, cfg: PluginConfig, s: State, e: Err, attempt: nat, list: Option<seq<AuthEntry>>,
                           wait: Timer, verdict: Verdict) {
    exists seconds ::
      RecoversIn(env, s, ErrorText(e), list, seconds) && verdict == Polled(wait(PollDelay(cfg, attempt, seconds)))
  }

  // ---- the turn -----------------------------------------------------------

  /** The scheduler after callbacks that offered nothing it could use: it has seen more credentials. */
  function AfterOffers(s: State, picks: seq<seq<Candidate>>): State {
    Prepared(s).(candidates := s.candidates + AllOffered(picks))
  }

  function EndedByWait(env: Env, st: Loop, cut: Option<Err>): Option<Result> {
    if cut.Some? then Ended(env, st.lastErr, cut.value) else None
  }

  /** What an undispatched failure does to the loop. */
  ghost predicate Unselected(env: Env, cfg: PluginConfig, st: Loop, next: Loop, s: State, h: HostCall<Reply>)
    requires h.reply.err.Some?
  {
    var e := h.reply.err.value;
    && next.attempt == st.attempt && next.lastErr == st.lastErr
    && if WillRecover(env, s, ErrorText(e), h.authList) then
         && next.creds == Some(s)
         && exists seconds :: RecoversIn(env, s, ErrorText(e), h.authList, seconds)
                           && next.result == EndedByWait(env, st, h.wait(PollDelay(cfg, st.attempt, seconds)))
       else if s.authID != "" then
         && next.creds == Some(s.(authID := "", failures := 0, excluded := s.excluded + {s.authID}))
         && next.result.None?
       else
         next.creds == Some(s) && next.result == Ended(env, st.lastErr, e)
  }

  /** A call that fails without having been answered: wait and make the same attempt again, drop the pin, or end. */
  lemma UnselectedTurn(env: Env, cfg: PluginConfig, st: Loop, h: HostCall<Reply>)
    requires ValidPolicy(cfg) && st.result.None? && st.attempt >= 1 && st.creds.Some? && Valid(st.creds.value)
    requires h.ctx.None? && h.reply.err.Some? && !Answered(st.creds.value, h.picks)
    ensures Unselected(env, cfg, st, Step(env, cfg, st, h), AfterOffers(st.creds.value, h.picks), h)
  {
    var s := st.creds.value;
    StepsKeepValid(s, false);
    CallbackRules(Prepared(s), h.picks);
    CallbacksAnswer(Prepared(s), h.picks);
    SameAnswers(s, Prepared(s), h.picks);
    PolledExactly(env, cfg, AfterOffers(s, h.picks), h.reply.err.value, st.attempt, h.authList, h.wait);
    assert Callbacks(Prepared(s), h.picks) == (AfterOffers(s, h.picks), None);
  }
}
