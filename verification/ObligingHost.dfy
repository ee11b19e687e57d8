/** Hosts that the closed form and the polls are about exist, for runs of every length. */
module ObligingHost {
  import opened Wrappers
  import opened Config
  import opened ErrorStatus
  import opened RetryRules
  import opened Scheduler
  import opened Cooldown
  import opened RetryLoop
  import opened Schedule
  import opened Polls
  import opened Executor
  import opened Recovery

  /** A reply of the host that fails, at any attempt, with or without a rule that matches it. */
  ghost predicate Fails(env: Env, cfg: PluginConfig, r: ExecuteReply, matches: bool) {
    forall attempt :: FailsAs(env, cfg, attempt, ExecuteOutcome(env, r), matches)
  }

  /** A configured status is a failure that matches. */
  lemma ConfiguredStatusMatches(env: Env, cfg: PluginConfig, code: int)
    requires code in cfg.statusCodes && 100 <= code <= 599
    ensures Fails(env, cfg, Response(code), true)
  {
  }

  /** Without keywords, any other error status is a failure that does not match. */
  lemma OtherStatusDoesNotMatch(env: Env, cfg: PluginConfig, code: int)
    requires cfg.retryKeywords == [] && code !in cfg.statusCodes && 400 <= code <= 599
    ensures Fails(env, cfg, Response(code), false)
  {
  }

  /** Offer everything twice, and fail as the credential that was used should. */
  lemma ObligingCall(env: Env, cfg: PluginConfig, l: seq<Candidate>, x: set<string>, st: Loop, hit: ExecuteReply,
                     miss: ExecuteReply)
    returns (h: HostCall<ExecuteReply>)
    requires st.creds.Some? && BelowCap(cfg, st.attempt) && Fails(env, cfg, hit, true)
      && (x != {} ==> Fails(env, cfg, miss, false))
    ensures Obliges(env, cfg, l, x, st, Seen(env, h))
  {
    var picks := [l, l];
    var sent := Callbacks(Prepared(st.creds.value), picks).1;
    h := HostCall(None, picks, if sent.Some? && sent.value.id in x then miss else hit, None, FULL_WAIT);
    assert FailsAs(env, cfg, st.attempt, ExecuteOutcome(env, hit), true);
    assert x != {} ==> FailsAs(env, cfg, st.attempt, ExecuteOutcome(env, miss), false);
  }

  lemma StaysValid(env: Env, cfg: PluginConfig, st: Loop, h: HostCall<Reply>)
    requires ValidPolicy(cfg) && st.creds.Some? && Valid(st.creds.value)
    ensures Step(env, cfg, st, h).creds.Some? && Valid(Step(env, cfg, st, h).creds.value)
  {
    if st.result.None? { TurnValid(env, cfg, st, h); }
  }

  lemma {:induction false} ObligingScript(env: Env, cfg: PluginConfig, l: seq<Candidate>, x: set<string>, st: Loop,
                                          n: nat, hit: ExecuteReply, miss: ExecuteReply)
    returns (script: seq<HostCall<ExecuteReply>>)
    requires ValidPolicy(cfg) && cfg.maxAttempts == 0 && Fails(env, cfg, hit, true)
      && (x != {} ==> Fails(env, cfg, miss, false))
    requires st.creds.Some? && Valid(st.creds.value)
    ensures |script| == n && ObligesAll(env, cfg, l, x, st, SeenAll(env, script))
    decreases n
  {
    if n == 0 {
      script := [];
    } else {
      var h := ObligingCall(env, cfg, l, x, st, hit, miss);
      StaysValid(env, cfg, st, Seen(env, h));
      var rest := ObligingScript(env, cfg, l, x, Step(env, cfg, st, Seen(env, h)), n - 1, hit, miss);
      script := [h] + rest;
      SeenAllMore(env, h, rest);
    }
  }

  lemma SeenAllMore(env: Env, h: HostCall<ExecuteReply>, rest: seq<HostCall<ExecuteReply>>)
    ensures SeenAll(env, [h] + rest) == [Seen(env, h)] + SeenAll(env, rest)
    ensures SeenAll(env, [h] + rest)[1..] == SeenAll(env, rest)
  {
    assert ([h] + rest)[1..] == rest;
  }

  lemma {:induction false} SeenAllLength(env: Env, script: seq<HostCall<ExecuteReply>>)
    ensures |SeenAll(env, script)| == |script|
  {
    if script != [] { SeenAllLength(env, script[1..]); }
  }

  /**
   The closed form is attained: without a cap, and with survivors, a host that can fail both ways has runs of every
   length that follow it.
   */
  lemma ScheduleAttained(env: Env, cfg: PluginConfig, l: seq<Candidate>, x: set<string>, n: nat, hit: ExecuteReply,
                         miss: ExecuteReply)
    returns (script: seq<HostCall<ExecuteReply>>)
    requires ValidPolicy(cfg) && cfg.sameAuthRetries > 0 && cfg.maxAttempts == 0
    requires Ordered(l) && Live(l, x) != [] && Fails(env, cfg, hit, true) && (x != {} ==> Fails(env, cfg, miss, false))
    ensures var end := Run(env, cfg, Start(cfg), SeenAll(env, script));
      |end.log| == n && end.result.None? && Dispatches(l, x, cfg.sameAuthRetries, end.log)
  {
    InitialValid(cfg.sameAuthRetries);
    script := ObligingScript(env, cfg, l, x, Start(cfg), n, hit, miss);
    SeenAllLength(env, script);
    ObligedRun(env, cfg, l, x, SeenAll(env, script));
  }

  // ---- polls --------------------------------------------------------------

  /** A host call that asks for nothing and fails with this error. */
  function FailingCall(e: Err): HostCall<ExecuteReply> {
    HostCall(None, [], CallError(e), None, FULL_WAIT)
  }

  /** A host that reports a cooldown again and again makes a running request poll any number of times. */
  lemma {:induction false} PollsHappen(env: Env, cfg: PluginConfig, st: Loop, e: Err, n: nat)
    returns (polls: seq<HostCall<ExecuteReply>>)
    requires st.result.None? && st.creds.Some? && Valid(st.creds.value) && !AllExcluded(st.creds.value)
    requires KnownCooldown(env, ErrorText(e)).Some?
    ensures |polls| == n && ArePolls(env, cfg, st, SeenAll(env, polls))
    decreases n
  {
    if n == 0 {
      polls := [];
    } else {
      var h := FailingCall(e);
      CoolingDownPolls(env, cfg, st, e);
      PollStep(env, cfg, st, Seen(env, h));
      var next := Step(env, cfg, st, Seen(env, h));
      StillEligible(st.creds.value, next.creds.value);
      var rest := PollsHappen(env, cfg, next, e, n - 1);
      polls := [h] + rest;
      SeenAllMore(env, h, rest);
    }
  }

  lemma StillEligible(s: State, t: State)
    requires Prepared(s) == Prepared(t) && Valid(s) && !AllExcluded(s)
    ensures t == s.(dispatched := t.dispatched, newRound := t.newRound, deferred := t.deferred) && !AllExcluded(t)
  {
  }

  lemma CoolingDownPolls(env: Env, cfg: PluginConfig, st: Loop, e: Err)
    requires st.result.None? && st.creds.Some? && Valid(st.creds.value) && !AllExcluded(st.creds.value)
    requires KnownCooldown(env, ErrorText(e)).Some?
    ensures IsPoll(env, cfg, st, Seen(env, FailingCall(e)))
    ensures Valid(Step(env, cfg, st, Seen(env, FailingCall(e))).creds.value)
  {
    var s := Prepared(st.creds.value);
    assert Callbacks(s, []) == (s, None);
    StepsKeepValid(st.creds.value, false);
  }

  /** A host call that fails because the credential is unavailable, with metadata that lists this entry. */
  function UnavailableCall(entry: AuthEntry): HostCall<ExecuteReply> {
    HostCall(None, [], CallError(Plain("auth_unavailable")), Some([entry]), FULL_WAIT)
  }

  lemma UnavailableRecovers(env: Env, s: State, entry: AuthEntry)
    requires !AllExcluded(s) && Cooling(s, entry)
    ensures WillRecover(env, s, "auth_unavailable", Some([entry]))
  {
    var text := "auth_unavailable";
    LeftExactly(s);
    assert text[0..] == text;
    assert Names(text, "auth_unavailable");
    assert entry in [entry] && Concerns(s, entry);
  }

  lemma UnavailablePolls(env: Env, cfg: PluginConfig, st: Loop, entry: AuthEntry)
    requires ValidPolicy(cfg) && st.attempt >= 1
    requires st.result.None? && st.creds.Some? && Valid(st.creds.value) && !AllExcluded(st.creds.value)
    requires Cooling(st.creds.value, entry)
    ensures IsPoll(env, cfg, st, Seen(env, UnavailableCall(entry)))
    ensures Valid(Step(env, cfg, st, Seen(env, UnavailableCall(entry))).creds.value)
  {
    var s := Prepared(st.creds.value);
    assert Callbacks(s, []) == (s, None);
    UnavailableRecovers(env, s, entry);
    PolledExactly(env, cfg, s, Plain("auth_unavailable"), st.attempt, Some([entry]), FULL_WAIT);
    StepsKeepValid(st.creds.value, false);
  }

  /** The same from the runtime metadata: a host that lists a credential of this request as cooling. */
  lemma {:induction false} MetadataPollsHappen(env: Env, cfg: PluginConfig, st: Loop, entry: AuthEntry, n: nat)
    returns (polls: seq<HostCall<ExecuteReply>>)
    requires ValidPolicy(cfg) && st.attempt >= 1
    requires st.result.None? && st.creds.Some? && Valid(st.creds.value) && !AllExcluded(st.creds.value)
    requires Cooling(st.creds.value, entry)
    ensures |polls| == n && ArePolls(env, cfg, st, SeenAll(env, polls))
    decreases n
  {
    if n == 0 {
      polls := [];
    } else {
      var h := UnavailableCall(entry);
      UnavailablePolls(env, cfg, st, entry);
      PollStep(env, cfg, st, Seen(env, h));
      var next := Step(env, cfg, st, Seen(env, h));
      StillEligible(st.creds.value, next.creds.value);
      var rest := MetadataPollsHappen(env, cfg, next, entry, n - 1);
      polls := [h] + rest;
      SeenAllMore(env, h, rest);
    }
  }
}
