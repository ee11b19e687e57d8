/** What a streaming request sends downstream, over any number of failed startups. */
module Downstream {
  import opened Wrappers
  import opened Text
  import opened Config
  import opened ErrorStatus
  import opened RetryRules
  import opened Scheduler
  import opened Cooldown
  import opened RetryLoop
  import opened StreamStartup
  import opened StreamExecutor
  import opened Collections
  import Chunking
  import Json

  /** The bytes sent downstream by some effects. */
  function Emitted(effects: seq<Effect>): Bytes {
    if effects == [] then [] else (if effects[0].Emit? then effects[0].payload else []) + Emitted(effects[1..])
  }

  predicate NoEmits(effects: seq<Effect>) {
    forall i :: 0 <= i < |effects| ==> !effects[i].Emit?
  }

  predicate OnlyEmits(effects: seq<Effect>) {
    forall i :: 0 <= i < |effects| ==> effects[i].Emit?
  }

  /** Once the host has said it is done, it sends no more bytes. */
  predicate QuietAfterDone(script: seq<Read>) {
    forall i, j :: 0 <= i < j < |script| && script[i].Chunk? && script[i].done ==> PayloadOf(script[j]) == []
  }

  // ---- one host stream ----------------------------------------------------

  lemma {:induction false} EmittedAppend(a: seq<Effect>, b: seq<Effect>)
    ensures Emitted(a + b) == Emitted(a) + Emitted(b)
  {
    if a == [] {
      assert a + b == b;
    } else {
      assert (a + b)[1..] == a[1..] + b;
      EmittedAppend(a[1..], b);
    }
  }

  lemma {:induction false} NothingMore(script: seq<Read>)
    requires forall i :: 0 <= i < |script| ==> PayloadOf(script[i]) == []
    ensures AllPayloads(script) == []
  {
    if script != [] { NothingMore(script[1..]); }
  }

  lemma {:induction false} PayloadsSplit(script: seq<Read>, k: nat)
    requires k <= |script|
    ensures AllPayloads(script) == AllPayloads(script[..k]) + AllPayloads(script[k..])
  {
    if k > 0 {
      PayloadsSplit(script[1..], k - 1);
      assert script[1..][..k - 1] == script[..k][1..] && script[1..][k - 1..] == script[k..];
    } else {
      assert script[0..] == script;
    }
  }

  lemma PayloadsFrom(script: seq<Read>, i: nat)
    requires i < |script|
    ensures AllPayloads(script[i..]) == PayloadOf(script[i]) + AllPayloads(script[i + 1..])
  {
    assert script[i..][1..] == script[i + 1..];
  }

  /** What one read sends is what it carries, or nothing when it ends the stream. */
  function SentBy(payload: Bytes): (sent: seq<Effect>)
    ensures OnlyEmits(sent) && Emitted(sent) == payload
  {
    if payload != [] then [Emit(payload)] else []
  }

  /** What is sent of the reads from i on: a beginning of their bytes, and all of them when nothing broke. */
  predicate SendsRest(script: seq<Read>, i: nat, effects: seq<Effect>, broken: Option<Err>)
    requires i <= |script|
  {
    && OnlyEmits(effects) && Emitted(effects) <= AllPayloads(script[i..])
    && (broken.None? && QuietAfterDone(script) ==> Emitted(effects) == AllPayloads(script[i..]))
  }

  /** What one read sends: what it carries, unless an error ends the loop there; without one it ends on Done. */
  lemma PassOneSends(host: Host, i: nat, n: nat)
    requires i < |host.script|
    ensures var one, next := PassOne(host, i, n), host.script[i];
      && OnlyEmits(one.sent)
      && Emitted(one.sent) <= PayloadOf(next)
      && (!one.ended || one.result.None? ==> Emitted(one.sent) == PayloadOf(next))
      && (one.ended && one.result.None? ==> next.Chunk? && next.done)
  {
  }

  lemma SendsMore(script: seq<Read>, i: nat, sent: seq<Effect>, more: seq<Effect>, broken: Option<Err>)
    requires i < |script| && SendsRest(script, i + 1, more, broken)
    requires OnlyEmits(sent) && Emitted(sent) == PayloadOf(script[i])
    ensures SendsRest(script, i, sent + more, broken)
  {
    PayloadsFrom(script, i);
    EmittedAppend(sent, more);
  }

  lemma SendsLast(script: seq<Read>, i: nat, sent: seq<Effect>, broken: Option<Err>)
    requires i < |script| && OnlyEmits(sent) && Emitted(sent) <= PayloadOf(script[i])
    requires broken.None? ==> Emitted(sent) == PayloadOf(script[i]) && script[i].Chunk? && script[i].done
    ensures SendsRest(script, i, sent, broken)
  {
    PayloadsFrom(script, i);
    if broken.None? && QuietAfterDone(script) { NothingMore(script[i + 1..]); }
  }

  lemma {:induction false} ForwardSends(host: Host, i: nat, n: nat)
    requires i <= |host.script|
    ensures SendsRest(host.script, i, Forward(host, i, n).0, Forward(host, i, n).1)
    decreases |host.script| - i
  {
    if i < |host.script| {
      var one := PassOne(host, i, n);
      PassOneSends(host, i, n);
      if one.ended {
        SendsLast(host.script, i, one.sent, one.result);
      } else {
        var n' := n + |one.sent|;
        ForwardSends(host, i + 1, n');
        SendsMore(host.script, i, one.sent, Forward(host, i + 1, n').0, Forward(host, i + 1, n').1);
      }
    }
  }

  lemma LongerFront(held: Bytes, script: seq<Read>, k: nat)
    requires 0 < k <= |script|
    ensures held + AllPayloads(script[..k]) == (held + PayloadOf(script[0])) + AllPayloads(script[1..][..k - 1])
  {
    assert script[..k][1..] == script[1..][..k - 1];
  }

  /** The payload of a startup read is what its reads carried. */
  predicate HoldsReads(script: seq<Read>, held: Bytes, g: Gathered, n: int) {
    0 <= n <= |script| && (g.Gathered? ==> g.payload == held + AllPayloads(script[..n]))
  }

  /** A reader ends with everything it has been given, or fails. */
  ghost predicate Keeps(after: (Bytes, Read) -> Option<Gathered>) {
    forall held, next :: after(held, next).Some? && after(held, next).value.Gathered?
                         ==> after(held, next).value.payload == held + PayloadOf(next)
  }

  lemma HoldsOneMore(script: seq<Read>, held: Bytes, g: Gathered, n: int)
    requires script != []
    requires HoldsReads(script[1..], held + PayloadOf(script[0]), g, n - 1)
          || (n == 1 && (g.Gathered? ==> g.payload == held + PayloadOf(script[0])))
    ensures HoldsReads(script, held, g, n)
  {
    LongerFront(held, script, n);
  }

  lemma {:induction false} GatherHolds(after: (Bytes, Read) -> Option<Gathered>, script: seq<Read>, held: Bytes,
                                       used: nat)
    requires Keeps(after)
    ensures var (g, n) := Gather(after, script, held, used); HoldsReads(script, held, g, n - used)
    decreases |script|
  {
    if script != [] {
      var (g, n) := Gather(after, script, held, used);
      if after(held, script[0]).None? { GatherHolds(after, script[1..], held + PayloadOf(script[0]), used + 1); }
      HoldsOneMore(script, held, g, n - used);
    }
  }

  lemma ReaderKeeps(d: Decoder, format: string)
    ensures Keeps(Reader(d, format))
  {
  }

  /** The whole delivery of a stream, startup payload included. */
  lemma ForwardAllSends(host: Host, first: Bytes, used: nat)
    requires used <= |host.script| && first == AllPayloads(host.script[..used])
    ensures var (sends, broken) := ForwardAll(host, first, used);
      && OnlyEmits(sends) && Emitted(sends) <= AllPayloads(host.script)
      && (broken.None? && QuietAfterDone(host.script) ==> Emitted(sends) == AllPayloads(host.script))
  {
    PayloadsSplit(host.script, used);
    var (more, broken) := Forward(host, used, |SentBy(first)|);
    ForwardSends(host, used, |SentBy(first)|);
    AfterFirst(SentBy(first), more, first, AllPayloads(host.script[used..]));
  }

  lemma AfterFirst(sent: seq<Effect>, more: seq<Effect>, first: Bytes, rest: Bytes)
    requires OnlyEmits(sent) && OnlyEmits(more) && Emitted(sent) == first && Emitted(more) <= rest
    ensures OnlyEmits(sent + more) && Emitted(sent + more) <= first + rest
    ensures Emitted(sent + more) == first + Emitted(more)
  {
    EmittedAppend(sent, more);
  }

  /** Bytes that went out of one host stream, and how that ended. */
  predicate DeliversFrom(host: Host, sends: seq<Effect>, broken: Option<Err>) {
    && OnlyEmits(sends) && Emitted(sends) <= AllPayloads(host.script)
    && (broken.None? && QuietAfterDone(host.script) ==> Emitted(sends) == AllPayloads(host.script))
  }

  /** What an accepted reply sends downstream. */
  function SendsOf(x: Setting, r: StreamReply): (seq<Effect>, Option<Err>)
    requires Readable(r) && StartupRead(x, r).0.Gathered?
  {
    ForwardAll(r.host, StartupRead(x, r).0.payload, StartupRead(x, r).1)
  }

  lemma DeliveredAs(x: Setting, r: StreamReply)
    requires Readable(r) && StartupRead(x, r).0.Gathered?
    ensures Delivered(x, r) == (SendsOf(x, r).0 + [Close(r.streamID)], SendsOf(x, r).1)
  {
  }

  lemma StartupHolds(x: Setting, r: StreamReply)
    requires Readable(r) && StartupRead(x, r).0.Gathered?
    ensures StartupRead(x, r).0.payload == AllPayloads(r.host.script[..StartupRead(x, r).1])
  {
    ReaderKeeps(x.d, x.format);
    GatherHolds(Reader(x.d, x.format), r.host.script, [], 0);
  }

  lemma Delivers(x: Setting, r: StreamReply)
    requires Readable(r) && StartupRead(x, r).0.Gathered?
    ensures DeliversFrom(r.host, SendsOf(x, r).0, SendsOf(x, r).1)
  {
    StartupHolds(x, r);
    ForwardAllSends(r.host, StartupRead(x, r).0.payload, StartupRead(x, r).1);
  }

  // ---- whole runs ---------------------------------------------------------

  /** Only a stream whose startup payload was read can be accepted. */
  lemma AcceptedIsReadable(x: Setting, st: Loop, h: HostCall<StreamReply>)
    requires st.result.None? && h.ctx.None?
    requires Step(EnvOf(x), x.cfg, st, SeenStream(x, h)).result == Some(Completed)
    ensures Readable(h.reply) && StartupRead(x, h.reply).0.Gathered?
  {
    var r := StreamOutcome(x, h.reply);
    var c := Call(EnvOf(x), x.cfg, st.creds, st.attempt, SeenStream(x, h), r.err);
    if c.verdict.Dispatched? && r.err.Some? {
      ConcludeFails(EnvOf(x), x.cfg, c.creds, st.attempt, r.err, r.status, h.wait);
    }
  }

  /** One turn: its call, then either one delivery, which completes the request, or no bytes at all. */
  predicate TurnDelivery(x: Setting, st: Loop, next: Loop, r: StreamReply) {
    var (did, broken) := TurnEffects(x, st, next, r);
    if next.result == Some(Completed) then
      && did == StartEffects(st.attempt, r) + Delivered(x, r).0 && broken == Delivered(x, r).1
      && Readable(r) && StartupRead(x, r).0.Gathered?
    else NoEmits(did) && broken.None?
  }

  lemma DeliveryByClass(x: Setting, st: Loop, next: Loop, r: StreamReply)
    requires ClassOf(st, next) == Some(Accepted) <==> next.result == Some(Completed)
    requires next.result == Some(Completed) ==> Readable(r) && StartupRead(x, r).0.Gathered?
    ensures TurnDelivery(x, st, next, r)
  {
  }

  lemma TurnDelivers(x: Setting, st: Loop, h: HostCall<StreamReply>)
    requires st.result.None?
    ensures TurnDelivery(x, st, Step(EnvOf(x), x.cfg, st, SeenStream(x, h)), h.reply)
  {
    var next := Step(EnvOf(x), x.cfg, st, SeenStream(x, h));
    StepClass(EnvOf(x), x.cfg, st, SeenStream(x, h));
    if h.ctx.None? && next.result == Some(Completed) { AcceptedIsReadable(x, st, h); }
    DeliveryByClass(x, st, next, h.reply);
  }

  /** The request after a turn: still silent, or completed by the delivery it just made. */
  ghost predicate AfterTurn(x: Setting, s: Stream, t: Stream, r: StreamReply) {
    if t.loop.result == Some(Completed) then
      && Readable(r) && StartupRead(x, r).0.Gathered?
      && t.effects == s.effects + [ModelCall(s.loop.attempt)] + SendsOf(x, r).0 + [Close(r.streamID)]
      && t.broken == SendsOf(x, r).1
      && DeliversFrom(r.host, SendsOf(x, r).0, t.broken)
    else NoEmits(t.effects) && t.broken.None?
  }

  lemma TurnAdds(x: Setting, s: Stream, t: Stream, r: StreamReply)
    requires NoEmits(s.effects) && TurnDelivery(x, s.loop, t.loop, r)
    requires t.effects == s.effects + TurnEffects(x, s.loop, t.loop, r).0
    requires t.broken == TurnEffects(x, s.loop, t.loop, r).1
    ensures AfterTurn(x, s, t, r)
  {
    if t.loop.result == Some(Completed) {
      Delivers(x, r);
      DeliveredAs(x, r);
      JoinFour(s.effects, StartEffects(s.loop.attempt, r), SendsOf(x, r).0, [Close(r.streamID)]);
    }
  }

  lemma JoinFour<T>(a: seq<T>, b: seq<T>, c: seq<T>, d: seq<T>)
    ensures a + (b + (c + d)) == a + b + c + d
  {
  }

  lemma StepDelivers(x: Setting, s: Stream, h: HostCall<StreamReply>)
    requires s.loop.result.None? && NoEmits(s.effects)
    ensures AfterTurn(x, s, StreamStep(x, s, h), h.reply)
  {
    TurnDelivers(x, s.loop, h);
    TurnAdds(x, s, StreamStep(x, s, h), h.reply);
  }

  /** Until a call is accepted nothing is sent. */
  lemma {:induction false} SilentRun(x: Setting, s: Stream, script: seq<HostCall<StreamReply>>)
    requires s.loop.result.None? && NoEmits(s.effects) && s.broken.None?
    requires StreamRun(x, s, script).loop.result != Some(Completed)
    ensures NoEmits(StreamRun(x, s, script).effects) && StreamRun(x, s, script).broken.None?
    decreases |script|
  {
    if script != [] {
      var t := StreamStep(x, s, script[0]);
      if t.loop.result.Some? { StreamFinished(x, t, script[1..]); }
      StepDelivers(x, s, script[0]);
      if t.loop.result.None? { SilentRun(x, t, script[1..]); }
    }
  }

  /** Call n is the one that completes the run: the run was open before it, and its turn ends the run. */
  ghost predicate CompletedBy(x: Setting, s: Stream, script: seq<HostCall<StreamReply>>, n: nat) {
    && n < |script|
    && StreamRun(x, s, script[..n]).loop.result.None?
    && StreamRun(x, s, script) == StreamStep(x, StreamRun(x, s, script[..n]), script[n])
    && StreamRun(x, s, script).loop.result == Some(Completed)
  }

  lemma {:induction false} CompletingCall(x: Setting, s: Stream, script: seq<HostCall<StreamReply>>) returns (n: nat)
    requires s.loop.result.None? && StreamRun(x, s, script).loop.result == Some(Completed)
    ensures CompletedBy(x, s, script, n)
    decreases |script|
  {
    n := 0;
    var t := StreamStep(x, s, script[0]);
    if t.loop.result.Some? {
      StreamFinished(x, t, script[1..]);
      assert script[..0] == [];
    } else {
      var m := CompletingCall(x, t, script[1..]);
      CutTail(script, m);
      n := m + 1;
    }
  }

  /**
   Over any run, whatever the host does. Without an accepted call nothing is sent. Otherwise call n is the accepted one:
   the run was open and silent before it, its turn is the last, and after that call only a beginning of the bytes of
   its own host stream is sent, and the stream closed. When the executor returns nil and the host sends nothing after
   Done, the bytes are all the bytes of that stream.
   */
  lemma DownstreamBytes(x: Setting, script: seq<HostCall<StreamReply>>) returns (n: nat, sends: seq<Effect>)
    ensures var start := StreamStart(x.cfg);
      var end := StreamRun(x, start, script);
      if end.loop.result != Some(Completed) then Emitted(end.effects) == []
      else
        && CompletedBy(x, start, script, n)
        && var before, r := StreamRun(x, start, script[..n]), script[n].reply;
        && NoEmits(before.effects) && r.StreamResponse?
        && end.effects == before.effects + [ModelCall(before.loop.attempt)] + sends + [Close(r.streamID)]
        && OnlyEmits(sends) && Emitted(end.effects) == Emitted(sends) <= AllPayloads(r.host.script)
        && (StreamError(end).None? && QuietAfterDone(r.host.script) ==> Emitted(sends) == AllPayloads(r.host.script))
  {
    var start := StreamStart(x.cfg);
    var end := StreamRun(x, start, script);
    n, sends := 0, [];
    if end.loop.result == Some(Completed) {
      n := CompletingCall(x, start, script);
      var before := StreamRun(x, start, script[..n]);
      SilentRun(x, start, script[..n]);
      StepDelivers(x, before, script[n]);
      sends := SendsOf(x, script[n].reply).0;
      EmittedOnly(before.effects, before.loop.attempt, sends, script[n].reply.streamID);
    } else {
      SilentRun(x, start, script);
      SilentIsEmpty(end.effects);
    }
  }

  lemma EmittedOnly(before: seq<Effect>, attempt: int, sends: seq<Effect>, streamID: string)
    requires NoEmits(before)
    ensures Emitted(before + [ModelCall(attempt)] + sends + [Close(streamID)]) == Emitted(sends)
  {
    SilentIsEmpty(before + [ModelCall(attempt)]);
    EmittedAppend(before + [ModelCall(attempt)], sends);
    EmittedAppend(before + [ModelCall(attempt)] + sends, [Close(streamID)]);
    SilentIsEmpty([Close(streamID)]);
  }

  lemma {:induction false} SilentIsEmpty(effects: seq<Effect>)
    requires NoEmits(effects)
    ensures Emitted(effects) == []
  {
    if effects != [] { SilentIsEmpty(effects[1..]); }
  }

  // ---- a failure in the first payload -------------------------------------

  /** The failure the startup payload of a reply reports, if any. */
  function StartupFailure(x: Setting, r: StreamReply): Option<Startup>
    requires Readable(r)
  {
    var g := StartupRead(x, r).0;
    if g.ReadFailed? then None else Inspect(x.d, x.format, g.payload).failure
  }

  predicate Retryable(cfg: PluginConfig, attempt: int, f: Startup) {
    RuleMatches(cfg, f.status, Some(StartupErr(f))) && BelowCap(cfg, attempt)
  }

  /** A failure event carries no status, or a real one. */
  lemma FailureStatusIsReal(d: Decoder, format: string, payload: Bytes)
    ensures var f := Inspect(d, format, payload).failure;
      f.Some? ==> f.value.status == 0 || 100 <= f.value.status <= 599
  {
  }

  /** The decision made on the inspector's failure and the one made again from the error agree. */
  lemma RetryableConcludes(x: Setting, creds: Option<State>, attempt: int, f: Startup, status: int, wait: Timer)
    requires ValidPolicy(x.cfg) && Retryable(x.cfg, attempt, f) && (f.status == 0 || 100 <= f.status <= 599)
    ensures var c := Conclude(EnvOf(x), x.cfg, creds, attempt, Some(StartupErr(f)), status, wait);
      && c.matched && StatusFromError(x.d.pattern, c.last) == f.status
      && (Uncut(wait) ==> c.result.None?)
  {
    StartupStatus(x.d.pattern, f.status, f.details);
    RecordedStatus(x.d.pattern, StartupErr(f));
  }

  /** How a startup failure is decided: retried without a byte, or forwarded as it is. */
  ghost predicate Decided(x: Setting, st: Loop, next: Loop, r: StreamReply, wait: Timer, f: Startup) {
    var (did, kind) := (TurnEffects(x, st, next, r).0, ClassOf(st, next));
    if Retryable(x.cfg, st.attempt, f) then
      && kind == Some(Matched) && did == [ModelCall(st.attempt), Close(OpenStream(r))]
      && next.lastErr.Some? && StatusFromError(x.d.pattern, next.lastErr.value) == f.status
      && (Uncut(wait) ==> next.result.None? && next.attempt == st.attempt + 1)
    else
      && (kind == Some(Accepted) <==> !ShouldRetryStatus(x.cfg, 200))
      && (if kind == Some(Accepted) then did == [ModelCall(st.attempt)] + Delivered(x, r).0 else NoEmits(did))
  }

  /**
   A failure in the first payload that the rules and the cap allow to retry is retried: the status and the decision
   computed again from the error agree with the inspector's, its stream is closed, and none of its bytes go out.
   Any other is forwarded byte for byte, unless the configuration retries status 200 itself.
   */
  lemma StartupFailureDecided(x: Setting, st: Loop, h: HostCall<StreamReply>, f: Startup)
    requires ValidPolicy(x.cfg) && st.result.None? && h.ctx.None?
    requires Readable(h.reply) && StartupFailure(x, h.reply) == Some(f)
    ensures Decided(x, st, Step(EnvOf(x), x.cfg, st, SeenStream(x, h)), h.reply, h.wait, f)
  {
    var (g, used) := StartupRead(x, h.reply);
    FailureStatusIsReal(x.d, x.format, g.payload);
    OpenedReply(x, h.reply, g.payload, used);
    var c := AttemptStep(EnvOf(x), x.cfg, st, SeenStream(x, h));
    StartupSettles(x, st.(creds := c.creds), c.pin, c.sent, f, h.wait);
    DecidedByClass(x, st, Step(EnvOf(x), x.cfg, st, SeenStream(x, h)), h.reply, h.wait, f);
  }

  lemma DecidedByClass(x: Setting, st: Loop, next: Loop, r: StreamReply, wait: Timer, f: Startup)
    requires Readable(r) && StartupFailure(x, r) == Some(f) && StartupSettled(x, st, next, wait, f)
    ensures Decided(x, st, next, r, wait, f)
  {
    EffectsByClass(x, st, next, r, next.log[|st.log|].kind);
  }

  lemma EffectsByClass(x: Setting, st: Loop, next: Loop, r: StreamReply, kind: Kind)
    requires Readable(r) && ClassOf(st, next) == Some(kind) && Attempted(kind)
    ensures TurnEffects(x, st, next, r).0 ==
      if kind.Accepted? then [ModelCall(st.attempt)] + Delivered(x, r).0
      else [ModelCall(st.attempt), Close(OpenStream(r))]
  {
    var call, close := StartEffects(st.attempt, r), Close(OpenStream(r));
    assert call == [ModelCall(st.attempt)] && OpenStream(r) != "";
    assert call + [close] == [ModelCall(st.attempt), close];
  }

  /** Without an error of its own a call is an attempt: a startup failure is no failure to select a credential. */
  lemma AttemptStep(env: Env, cfg: PluginConfig, st: Loop, h: HostCall<Reply>) returns (c: Called)
    requires st.result.None? && h.ctx.None? && h.reply.err.None?
    ensures Step(env, cfg, st, h) == Settle(env, cfg, st.(creds := c.creds), c.pin, c.sent, h.reply, h.wait)
  {
    c := Call(env, cfg, st.creds, st.attempt, h, None);
  }

  ghost predicate StartupSettled(x: Setting, st: Loop, next: Loop, wait: Timer, f: Startup) {
    && |next.log| == |st.log| + 1
    && Attempted(next.log[|st.log|].kind)
    && if Retryable(x.cfg, st.attempt, f) then
         && next.log[|st.log|].kind == Matched
         && next.lastErr.Some? && StatusFromError(x.d.pattern, next.lastErr.value) == f.status
         && (Uncut(wait) ==> next.result.None? && next.attempt == st.attempt + 1)
       else next.log[|st.log|].kind.Accepted? <==> !ShouldRetryStatus(x.cfg, 200)
  }

  lemma StartupSettles(x: Setting, st: Loop, pin: string, sent: Option<Sent>, f: Startup, wait: Timer)
    requires ValidPolicy(x.cfg) && st.result.None? && (f.status == 0 || 100 <= f.status <= 599)
    ensures StartupSettled(x, st, Settle(EnvOf(x), x.cfg, st, pin, sent, Reply(200, None, Some(f)), wait), wait, f)
  {
    if Retryable(x.cfg, st.attempt, f) {
      RetryableConcludes(x, st.creds, st.attempt, f, 200, wait);
    }
  }

  /** A model with one attempt and no keywords, for which the given statuses are retryable. */
  function OneAttempt(codes: seq<int>): PluginConfig {
    PluginConfig(codes, [], 1, 0, 1, 1, 0, map[])
  }

  /** A host stream that is one failure event. */
  function FailureStream(id: string, event: Bytes): StreamReply {
    StreamResponse(200, id, None, Host([Chunk(event, true, "")], _ => None, _ => None))
  }

  lemma FailureStreamRead(x: Setting, id: string, event: Bytes)
    requires Inspected(x.format) && TrimSpace(id) != "" && Json.ExactObject(event) && |event| < MAX_STARTUP_BYTES
    ensures var r := FailureStream(id, event);
      Readable(r) && StartupRead(x, r) == (Gathered(event), 1) && StartupFailure(x, r) == Classify(x.d, event)
  {
    var w := Chunking.FirstEvent([], None, event);
    assert Chunking.Wire(w) == event && [] + event == event;
    Chunking.WholePrefix(x.d, x.format, w, event);
  }

  /**
   Where forwarding byte for byte fails: with 200 among the retryable statuses, a failure event at the last attempt is
   neither retried nor forwarded. Without it the same event is forwarded.
   */
  lemma SuccessStatusWithheld(x: Setting, codes: seq<int>, id: string, event: Bytes)
    requires Inspected(x.format) && TrimSpace(id) != "" && Json.ExactObject(event) && |event| < MAX_STARTUP_BYTES
    requires x.cfg == OneAttempt(codes) && Classify(x.d, event).Some?
    ensures var h := HostCall(None, [], FailureStream(id, event), None, FULL_WAIT);
      var next := Step(EnvOf(x), x.cfg, Start(x.cfg), SeenStream(x, h));
      var did := TurnEffects(x, Start(x.cfg), next, h.reply).0;
      if 200 in codes then next.result.Some? && next.result != Some(Completed) && NoEmits(did)
      else did == [ModelCall(1), Emit(event), Close(id)]
  {
    var h := HostCall(None, [], FailureStream(id, event), None, FULL_WAIT);
    FailureStreamRead(x, id, event);
    var f := Classify(x.d, event).value;
    StartupFailureDecided(x, Start(x.cfg), h, f);
    StepClass(EnvOf(x), x.cfg, Start(x.cfg), SeenStream(x, h));
    CappedEnds(x, h);
    DeliversEvent(x, id, event);
  }

  lemma DeliversEvent(x: Setting, id: string, event: Bytes)
    requires Inspected(x.format) && TrimSpace(id) != "" && Json.ExactObject(event) && |event| < MAX_STARTUP_BYTES
    ensures [ModelCall(1)] + Delivered(x, FailureStream(id, event)).0 == [ModelCall(1), Emit(event), Close(id)]
  {
    FailureStreamRead(x, id, event);
    DeliveredAs(x, FailureStream(id, event));
    OneChunk(FailureStream(id, event).host, event);
    assert [ModelCall(1)] + ([Emit(event)] + [Close(id)]) == [ModelCall(1), Emit(event), Close(id)];
  }

  lemma OneChunk(host: Host, first: Bytes)
    requires |host.script| == 1 && first != [] && host.emit(0).None?
    ensures ForwardAll(host, first, 1) == ([Emit(first)], None)
  {
    assert Forward(host, 1, 1) == ([], None);
    assert [Emit(first)] + [] == [Emit(first)];
  }

  /** One attempt is all there is. */
  lemma CappedEnds(x: Setting, h: HostCall<StreamReply>)
    requires x.cfg.maxAttempts == 1 && x.cfg.sameAuthRetries == 0
    ensures Step(EnvOf(x), x.cfg, Start(x.cfg), SeenStream(x, h)).result.Some?
  {
  }
}
