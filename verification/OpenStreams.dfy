/** Which opened host streams are closed, and which one is not. */
module OpenStreams {
  import opened Wrappers
  import opened Text
  import opened Config
  import opened ErrorStatus
  import opened Scheduler
  import opened Cooldown
  import opened RetryLoop
  import opened StreamExecutor
  import opened Downstream

  /** The reply opened the host stream `id`. */
  predicate Opens(r: StreamReply, id: string) {
    && r.StreamResponse? && r.streamID == id
    && if r.code >= 400 then id != "" else TrimSpace(id) != ""
  }

  /** How often the stream `id` was closed. */
  function ClosesOf(effects: seq<Effect>, id: string): nat {
    if effects == [] then 0 else Bit(effects[0] == Close(id)) + ClosesOf(effects[1..], id)
  }

  function Bit(b: bool): nat {
    if b then 1 else 0
  }

  lemma {:induction false} ClosesAppend(a: seq<Effect>, b: seq<Effect>, id: string)
    ensures ClosesOf(a + b, id) == ClosesOf(a, id) + ClosesOf(b, id)
  {
    if a == [] {
      assert a + b == b;
    } else {
      assert (a + b)[1..] == a[1..] + b;
      ClosesAppend(a[1..], b, id);
    }
  }

  lemma {:induction false} EmitsCloseNothing(effects: seq<Effect>, id: string)
    requires OnlyEmits(effects)
    ensures ClosesOf(effects, id) == 0
  {
    if effects != [] { EmitsCloseNothing(effects[1..], id); }
  }

  // ---- the guard ----------------------------------------------------------

  /** The call fails although the scheduler is on and no callback of it dispatched a credential. */
  predicate FailsUnselected(x: Setting, st: Loop, h: HostCall<StreamReply>) {
    && st.creds.Some? && StreamOutcome(x, h.reply).err.Some?
    && !Callbacks(Prepared(st.creds.value), h.picks).0.dispatched
  }

  /** The call leaves the stream `id` open: its reply opened and tracked it, and the call fails unselected. */
  predicate LeavesOpen(x: Setting, st: Loop, h: HostCall<StreamReply>, id: string) {
    OpenStream(h.reply) == id != "" && FailsUnselected(x, st, h)
  }

  /** Exactly these calls do not count as attempts. */
  lemma AttemptedUnlessUnselected(x: Setting, st: Loop, h: HostCall<StreamReply>)
    requires st.result.None? && h.ctx.None?
    ensures var kind := ClassOf(st, Step(EnvOf(x), x.cfg, st, SeenStream(x, h)));
      kind.Some? && (Attempted(kind.value) <==> !FailsUnselected(x, st, h))
  {
    var r := SeenStream(x, h).reply;
    var c := Call(EnvOf(x), x.cfg, st.creds, st.attempt, SeenStream(x, h), r.err);
    if c.verdict.Dispatched? {
      SettleClass(EnvOf(x), x.cfg, st.(creds := c.creds), c.pin, c.sent, r, h.wait);
    }
  }

  // ---- one turn -----------------------------------------------------------

  lemma StartCloses(attempt: int, r: StreamReply, id: string)
    ensures ClosesOf(StartEffects(attempt, r), id) == Bit(Opens(r, id) && OpenStream(r) == "")
    ensures OpenStream(r) == id != "" ==> Opens(r, id)
    ensures ClosesOf(ClosingOf(OpenStream(r)), id) == Bit(OpenStream(r) == id != "")
  {
    ClosesAppend([ModelCall(attempt)], StartEffects(attempt, r)[1..], id);
  }

  lemma DeliveryCloses(x: Setting, r: StreamReply, id: string)
    requires Readable(r) && StartupRead(x, r).0.Gathered?
    ensures ClosesOf(Delivered(x, r).0, id) == Bit(r.streamID == id) && OpenStream(r) == r.streamID != ""
  {
    Delivers(x, r);
    DeliveredAs(x, r);
    ClosesAppend(SendsOf(x, r).0, [Close(r.streamID)], id);
    EmitsCloseNothing(SendsOf(x, r).0, id);
    assert ClosesOf([Close(r.streamID)], id) == Bit(r.streamID == id);
  }

  /** The closes at the end of a call of this class. */
  lemma EndCloses(x: Setting, kind: Kind, r: StreamReply, id: string)
    requires kind.Accepted? ==> Readable(r) && StartupRead(x, r).0.Gathered?
    ensures ClosesOf(EndEffects(x, kind, r).0, id) == Bit(Attempted(kind) && OpenStream(r) == id != "")
  {
    StartCloses(0, r, id);
    if kind.Accepted? { DeliveryCloses(x, r, id); }
  }

  /** The same turn that opens a stream closes it, and closes no other, unless the call fails unselected. */
  lemma TurnCloses(x: Setting, st: Loop, h: HostCall<StreamReply>, id: string)
    requires st.result.None? && h.ctx.None?
    ensures var next := Step(EnvOf(x), x.cfg, st, SeenStream(x, h));
      ClosesOf(TurnEffects(x, st, next, h.reply).0, id) + Bit(LeavesOpen(x, st, h, id)) == Bit(Opens(h.reply, id))
  {
    var next := Step(EnvOf(x), x.cfg, st, SeenStream(x, h));
    AttemptedUnlessUnselected(x, st, h);
    StepClass(EnvOf(x), x.cfg, st, SeenStream(x, h));
    var kind := ClassOf(st, next).value;
    if kind.Accepted? { AcceptedIsReadable(x, st, h); }
    ClassCloses(x, st, next, h.reply, kind, id);
  }

  lemma ClassCloses(x: Setting, st: Loop, next: Loop, r: StreamReply, kind: Kind, id: string)
    requires ClassOf(st, next) == Some(kind)
    requires kind.Accepted? ==> Readable(r) && StartupRead(x, r).0.Gathered?
    ensures ClosesOf(TurnEffects(x, st, next, r).0, id) + Bit(!Attempted(kind) && OpenStream(r) == id != "")
         == Bit(Opens(r, id))
  {
    EndCloses(x, kind, r, id);
    StartCloses(st.attempt, r, id);
    ClosesAppend(StartEffects(st.attempt, r), EndEffects(x, kind, r).0, id);
  }

  // ---- whole runs ---------------------------------------------------------

  /** How many calls of a run opened the stream `id`. */
  function Opened(x: Setting, s: Stream, script: seq<HostCall<StreamReply>>, id: string): nat
    decreases |script|
  {
    if script == [] || s.loop.result.Some? || script[0].ctx.Some? then 0
    else Bit(Opens(script[0].reply, id)) + Opened(x, StreamStep(x, s, script[0]), script[1..], id)
  }

  /** How many calls of a run meet the guard above for the stream `id`. */
  function LeftOpen(x: Setting, s: Stream, script: seq<HostCall<StreamReply>>, id: string): nat
    decreases |script|
  {
    if script == [] || s.loop.result.Some? || script[0].ctx.Some? then 0
    else Bit(LeavesOpen(x, s.loop, script[0], id)) + LeftOpen(x, StreamStep(x, s, script[0]), script[1..], id)
  }

  /**
   For every stream, over every run: it is closed exactly as often as it was opened, less the calls that opened it
   and failed unselected. Those calls never close it.
   */
  lemma {:induction false} StreamsAccountedFor(x: Setting, s: Stream, script: seq<HostCall<StreamReply>>, id: string)
    ensures ClosesOf(StreamRun(x, s, script).effects, id) + LeftOpen(x, s, script, id)
         == ClosesOf(s.effects, id) + Opened(x, s, script, id)
    decreases |script|
  {
    if script != [] {
      if s.loop.result.Some? {
        StreamFinished(x, s, script);
      } else {
        var t := StreamStep(x, s, script[0]);
        StreamsAccountedFor(x, t, script[1..], id);
        StepCloses(x, s, script[0], id);
        if script[0].ctx.Some? { StreamFinished(x, t, script[1..]); }
      }
    }
  }

  lemma StepCloses(x: Setting, s: Stream, h: HostCall<StreamReply>, id: string)
    requires s.loop.result.None?
    ensures var t := StreamStep(x, s, h);
      if h.ctx.Some? then t.loop.result.Some? && t.effects == s.effects
      else
        ClosesOf(t.effects, id) + Bit(LeavesOpen(x, s.loop, h, id)) == ClosesOf(s.effects, id) + Bit(Opens(h.reply, id))
  {
    var next := Step(EnvOf(x), x.cfg, s.loop, SeenStream(x, h));
    if h.ctx.Some? {
      StepClass(EnvOf(x), x.cfg, s.loop, SeenStream(x, h));
    } else {
      TurnCloses(x, s.loop, h, id);
      ClosesAppend(s.effects, TurnEffects(x, s.loop, next, h.reply).0, id);
    }
  }

  // ---- such a stream exists -----------------------------------------------

  lemma {:induction false} DigitsOnly(n: nat)
    ensures forall i :: 0 <= i < |Digits(n)| ==> '0' <= Digits(n)[i] <= '9'
  {
    if n >= 10 { DigitsOnly(n / 10); }
  }

  lemma {:induction false} NotFound(s: string, c: char)
    requires c !in s
    ensures IndexOf(s, c) == -1
  {
    if s != [] { NotFound(s[1..], c); }
  }

  /** A status error tells of no cooldown, so before any dispatch it means that there is no credential. */
  lemma StatusStopsSelection(env: Env, cfg: PluginConfig, s: State, code: int)
    requires !s.dispatched && s.authID == "" && code > 0
    ensures SelectionFailure(env, cfg, s, Some(StatusError(code, None)), 1, None, FULL_WAIT) == (s, NoCredential)
  {
    DigitsOnly(code);
    NotFound(ErrorText(StatusError(code, None)), '{');
  }

  function FailedCall(id: string, code: int, host: Host): HostCall<StreamReply> {
    HostCall(None, [], StreamResponse(code, id, None, host), None, FULL_WAIT)
  }

  lemma FailedCallStops(x: Setting, id: string, code: int, host: Host)
    requires x.cfg.sameAuthRetries > 0 && code >= 400
    ensures var next := Step(EnvOf(x), x.cfg, Start(x.cfg), SeenStream(x, FailedCall(id, code, host)));
      next.log == [Record(Stop, 1, "", None)] && next.result.Some?
  {
    var s := Prepared(Start(x.cfg).creds.value);
    assert Callbacks(s, []) == (s, None);
    StatusStopsSelection(EnvOf(x), x.cfg, s, code);
  }

  /**
   A host that fails with a status and a stream ID before it asks for a credential: the executor ends and the stream
   stays open.
   */
  lemma LeftOpenOnce(x: Setting, id: string, code: int, host: Host)
    requires x.cfg.sameAuthRetries > 0 && id != "" && code >= 400
    ensures var start, script := StreamStart(x.cfg), [FailedCall(id, code, host)];
      var end := StreamRun(x, start, script);
      && end.loop.result.Some? && end.effects == [ModelCall(1)]
      && Opened(x, start, script, id) == 1 && ClosesOf(end.effects, id) == 0
  {
    var h := FailedCall(id, code, host);
    FailedCallStops(x, id, code, host);
    SkippedEffects(x, Start(x.cfg), Step(EnvOf(x), x.cfg, Start(x.cfg), SeenStream(x, h)), h.reply);
    OneStep(x, StreamStart(x.cfg), h);
    assert Opens(h.reply, id);
  }

  lemma OneStep(x: Setting, s: Stream, h: HostCall<StreamReply>)
    ensures StreamRun(x, s, [h]) == StreamStep(x, s, h)
  {
    assert [h][1..] == [];
  }
}
