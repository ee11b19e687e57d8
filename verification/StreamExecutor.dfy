/** The streaming executor: retries before the first byte, then forwards one host stream byte for byte. */
module StreamExecutor {
  import opened Wrappers
  import opened Text
  import opened Config
  import opened ErrorStatus
  import opened RetryRules
  import opened Scheduler
  import opened Cooldown
  import opened RetryLoop
  import opened CredentialRetry
  import opened Executor
  import opened StreamStartup
  import opened Collections

  /**
   The host stream behind one reply, as this plugin will see it: every read in order, the error of the n-th emission
   downstream, and the context's error after read i. After the listed reads the host reports an empty end.
   */
  datatype Host = Host(script: seq<Read>, emit: nat -> Option<Err>, ctx: nat -> Option<Err>)

  /** The answer to host.model.execute_stream. */
  datatype StreamReply =
    | StreamCallError(err: Err)
    | StreamUndecodable(err: Err)
    | StreamResponse(code: int, streamID: string, track: Option<Err>, host: Host)

  /** What the plugin asks of the host. */
  datatype Effect = ModelCall(attempt: int) | Emit(payload: Bytes) | Close(streamID: string)

  /** What stays fixed during one request: the decoders, the exit protocol, and the configuration of its model. */
  datatype Setting = Setting(d: Decoder, recovery: string -> Option<int>, format: string, cfg: PluginConfig)

  function EnvOf(x: Setting): Env {
    Env(x.d.pattern, x.recovery)
  }

  const NO_STREAM_ID := Plain("host model stream returned empty stream_id")

  /** An opened stream that was tracked: its startup payload is read. */
  predicate Readable(r: StreamReply) {
    r.StreamResponse? && r.code < 400 && TrimSpace(r.streamID) != "" && r.track.None?
  }

  /** The startup read of an opened stream: its payload, and how many reads it took. */
  function StartupRead(x: Setting, r: StreamReply): (g: (Gathered, nat))
    requires Readable(r)
    ensures g.1 <= |r.host.script|
  {
    Gather(Reader(x.d, x.format), r.host.script, [], 0)
  }

  /** The loop's view of a reply. */
  function StreamOutcome(x: Setting, r: StreamReply): Reply {
    match r
    case StreamCallError(e) => Reply(StatusFromError(x.d.pattern, e), Some(e), None)
    case StreamUndecodable(e) => Reply(0, Some(e), None)
    case StreamResponse(code, id, track, _) =>
      if code >= 400 then Reply(code, Some(StatusError(code, None)), None)
      else if TrimSpace(id) == "" then Reply(0, Some(NO_STREAM_ID), None)
      else if track.Some? then Reply(0, track, None)
      else
        match StartupRead(x, r).0
        case ReadFailed(e) => Reply(StatusFromError(x.d.pattern, e), Some(e), None)
        case Gathered(payload) => Reply(200, None, Inspect(x.d, x.format, payload).failure)
  }

  /** The stream a failed attempt leaves open, "" when there is none. */
  function OpenStream(r: StreamReply): string {
    if r.StreamResponse? && (r.code >= 400 || Readable(r)) then r.streamID else ""
  }

  /** Effects of starting a stream: the call, and an immediate close when the stream cannot be tracked. */
  function StartEffects(attempt: int, r: StreamReply): seq<Effect> {
    [ModelCall(attempt)] +
    if r.StreamResponse? && r.code < 400 && TrimSpace(r.streamID) != "" && r.track.Some? then [Close(r.streamID)]
    else []
  }

  // ---- forwarding ---------------------------------------------------------

  /** What one read of the forwarding loop leads to: what it sends, and whether and how it ends the loop. */
  datatype Passed = Passed(sent: seq<Effect>, ended: bool, result: Option<Err>)

  function PassOne(host: Host, i: nat, n: nat): Passed
    requires i < |host.script|
  {
    match host.script[i]
    case ReadError(e) => Passed([], true, Some(e))
    case Chunk(payload, done, error) =>
      if error != "" then Passed([], true, Some(Plain(error)))
      else if payload != [] && host.emit(n).Some? then Passed([], true, host.emit(n))
      else
        var sent := if payload != [] then [Emit(payload)] else [];
        if done then Passed(sent, true, None) else Passed(sent, host.ctx(i).Some?, host.ctx(i))
  }

  /** Forwarding from read i on, after n emissions: what is sent downstream, and the error that ended it. */
  function Forward(host: Host, i: nat, n: nat): (seq<Effect>, Option<Err>)
    requires i <= |host.script|
    decreases |host.script| - i
  {
    if i == |host.script| then ([], None)
    else
      var one := PassOne(host, i, n);
      if one.ended then (one.sent, one.result)
      else var (more, result) := Forward(host, i + 1, n + |one.sent|); (one.sent + more, result)
  }

  /** The whole of forwardHostStream: the startup payload first, then the rest of the stream. */
  function ForwardAll(host: Host, first: Bytes, used: nat): (seq<Effect>, Option<Err>)
    requires used <= |host.script|
  {
    if first == [] then Forward(host, used, 0)
    else if host.emit(0).Some? then ([], host.emit(0))
    else var (more, result) := Forward(host, used, 1); ([Emit(first)] + more, result)
  }

  /** One read of the forwarding loop. */
  method ForwardOne(host: Host, i: nat, n: nat) returns (sent: seq<Effect>, ended: bool, result: Option<Err>)
    requires i < |host.script|
    ensures Passed(sent, ended, result) == PassOne(host, i, n)
  {
    match host.script[i] {
      case ReadError(e) => return [], true, Some(e);
      case Chunk(payload, done, error) =>
        if error != "" {
          return [], true, Some(Plain(error));
        }
        sent := [];
        if payload != [] {
          if host.emit(n).Some? {
            return [], true, host.emit(n);
          }
          sent := [Emit(payload)];
        }
        if done {
          return sent, true, None;
        }
        ended, result := host.ctx(i).Some?, host.ctx(i);
    }
  }

  /** The reading loop of forwardHostStream. */
  method ForwardRest(host: Host, start: nat, sent: nat) returns (effects: seq<Effect>, result: Option<Err>)
    requires start <= |host.script|
    ensures (effects, result) == Forward(host, start, sent)
  {
    effects, result := [], None;
    var i := start;
    assert [] + Forward(host, start, sent).0 == Forward(host, start, sent).0;
    while i < |host.script|
      invariant start <= i <= |host.script|
      invariant Forward(host, start, sent)
        == (effects + Forward(host, i, sent + |effects|).0, Forward(host, i, sent + |effects|).1)
    {
      var n := sent + |effects|;
      var more, ended, err := ForwardOne(host, i, n);
      if ended {
        return effects + more, err;
      }
      Regroup(effects, more, Forward(host, i + 1, n + |more|).0);
      effects := effects + more;
      i := i + 1;
    }
    assert effects + [] == effects;
  }

  method ForwardHostStream(host: Host, streamID: string, first: Bytes, used: nat)
    returns (effects: seq<Effect>, result: Option<Err>)
    requires used <= |host.script|
    ensures effects == ForwardAll(host, first, used).0 + [Close(streamID)]
    ensures result == ForwardAll(host, first, used).1
  {
    effects := [];
    if first != [] {
      if host.emit(0).Some? {
        return [Close(streamID)], host.emit(0);
      }
      effects := [Emit(first)];
    }
    var more;
    more, result := ForwardRest(host, used, |effects|);
    assert [] + more == more;
    effects := effects + more + [Close(streamID)];
  }

  /**
   A running turn whose context is alive adds one call to the trace, and completes exactly when it accepts that call.
   */
  lemma StepClass(env: Env, cfg: PluginConfig, st: Loop, h: HostCall<Reply>)
    requires st.result.None?
    ensures var next := Step(env, cfg, st, h);
      if h.ctx.Some? then next == st.(result := Ended(env, st.lastErr, h.ctx.value))
      else ClassOf(st, next).Some? && (next.result == Some(Completed) <==> ClassOf(st, next).value.Accepted?)
  {
    if h.ctx.None? {
      var c := Call(env, cfg, st.creds, st.attempt, h, h.reply.err);
      SettleClass(env, cfg, st.(creds := c.creds), c.pin, c.sent, h.reply, h.wait);
    }
  }

  /** A counted attempt is accepted, completing the loop, or failed, and then it never completes. */
  lemma SettleClass(env: Env, cfg: PluginConfig, st: Loop, pin: string, sent: Option<Sent>, r: Reply, wait: Timer)
    requires st.result.None?
    ensures var next := Settle(env, cfg, st, pin, sent, r, wait);
      && |next.log| == |st.log| + 1
      && (next.result == Some(Completed) <==> next.log[|st.log|].kind.Accepted?)
  {
    ConcludeFails(env, cfg, st.creds, st.attempt, Outcome(cfg, st.attempt, r), r.status, wait);
  }

  lemma ConcludeFails(env: Env, cfg: PluginConfig, creds: Option<State>, attempt: int, e: Option<Err>, status: int,
                      wait: Timer)
    ensures Conclude(env, cfg, creds, attempt, e, status, wait).result != Some(Completed)
  {
  }

  // ---- one turn -----------------------------------------------------------

  function SeenStream(x: Setting, h: HostCall<StreamReply>): HostCall<Reply> {
    HostCall(h.ctx, h.picks, StreamOutcome(x, h.reply), h.authList, h.wait)
  }

  function SeenStreams(x: Setting, script: seq<HostCall<StreamReply>>): seq<HostCall<Reply>> {
    if script == [] then [] else [SeenStream(x, script[0])] + SeenStreams(x, script[1..])
  }

  /** What accepting a reply does downstream: all of its stream, then the close. */
  function Delivered(x: Setting, r: StreamReply): (seq<Effect>, Option<Err>) {
    if !Readable(r) || StartupRead(x, r).0.ReadFailed? then ([], None)
    else
      var (g, used) := StartupRead(x, r);
      (ForwardAll(r.host, g.payload, used).0 + [Close(r.streamID)], ForwardAll(r.host, g.payload, used).1)
  }

  function ClosingOf(streamID: string): seq<Effect> {
    if streamID != "" then [Close(streamID)] else []
  }

  /**
   How a call of the given class ends: its stream is forwarded, closed, or (when nothing was dispatched) left alone.
   */
  function EndEffects(x: Setting, kind: Kind, r: StreamReply): (seq<Effect>, Option<Err>) {
    match kind
    case Accepted => Delivered(x, r)
    case Matched | Unmatched => (ClosingOf(OpenStream(r)), None)
    case Poll | Release | Stop => ([], None)
  }

  /** The class of the call that took the loop from `st` to `next`, if one was made. */
  function ClassOf(st: Loop, next: Loop): Option<Kind> {
    if |next.log| > |st.log| then Some(next.log[|next.log| - 1].kind) else None
  }

  /** The request in progress: the loop, all it has asked of the host, and the error that broke forwarding. */
  datatype Stream = Stream(loop: Loop, effects: seq<Effect>, broken: Option<Err>)

  function TurnEffects(x: Setting, st: Loop, next: Loop, r: StreamReply): (seq<Effect>, Option<Err>) {
    match ClassOf(st, next)
    case None => ([], None)
    case Some(kind) =>
      (StartEffects(st.attempt, r) + EndEffects(x, kind, r).0, EndEffects(x, kind, r).1)
  }

  function StreamStep(x: Setting, s: Stream, h: HostCall<StreamReply>): Stream {
    if s.loop.result.Some? then s
    else
      var next := Step(EnvOf(x), x.cfg, s.loop, SeenStream(x, h));
      var (did, broken) := TurnEffects(x, s.loop, next, h.reply);
      Stream(next, s.effects + did, broken)
  }

  function StreamRun(x: Setting, s: Stream, script: seq<HostCall<StreamReply>>): Stream
    decreases |script|
  {
    if script == [] then s else StreamRun(x, StreamStep(x, s, script[0]), script[1..])
  }

  function StreamStart(cfg: PluginConfig): Stream {
    Stream(Start(cfg), [], None)
  }

  /** The error runModelStreamWithRetry returns, None for nil; an unfinished run has none yet. */
  function StreamError(s: Stream): Option<Err> {
    if s.loop.result.Some? && s.loop.result.value.Failed? then Some(s.loop.result.value.err) else s.broken
  }

  /** The loop inside the streaming executor is the same machine that the plain executor runs. */
  lemma {:induction false} StreamRunsTheLoop(x: Setting, s: Stream, script: seq<HostCall<StreamReply>>)
    ensures StreamRun(x, s, script).loop == Run(EnvOf(x), x.cfg, s.loop, SeenStreams(x, script))
    decreases |script|
  {
    if script != [] {
      assert SeenStreams(x, script)[1..] == SeenStreams(x, script[1..]);
      StreamRunsTheLoop(x, StreamStep(x, s, script[0]), script[1..]);
    }
  }

  // ---- the executor -------------------------------------------------------

  /** Opens a host stream and reads its startup payload. */
  method StartHostModelStream(x: Setting, attempt: int, r: StreamReply)
    returns (status: int, first: Bytes, streamID: string, e: Option<Err>, used: nat, effects: seq<Effect>)
    ensures status == StreamOutcome(x, r).status && e == StreamOutcome(x, r).err
    ensures streamID == OpenStream(r) && effects == StartEffects(attempt, r)
    ensures e.None? ==> Readable(r) && StartupRead(x, r) == (Gathered(first), used)
  {
    effects, first, used := [ModelCall(attempt)], [], 0;
    match r {
      case StreamCallError(err) => return StatusFromError(x.d.pattern, err), [], "", Some(err), 0, effects;
      case StreamUndecodable(err) => return 0, [], "", Some(err), 0, effects;
      case StreamResponse(code, id, track, host) =>
        if code >= 400 {
          return code, [], id, Some(StatusError(code, None)), 0, effects;
        }
        if TrimSpace(id) == "" {
          return 0, [], "", Some(NO_STREAM_ID), 0, effects;
        }
        if track.Some? {
          return 0, [], "", track, 0, effects + [Close(id)];
        }
        var read;
        read, used := ReadStreamStartupPayload(x.d, x.format, host.script);
        if read.ReadFailed? {
          return StatusFromError(x.d.pattern, read.err), [], id, Some(read.err), used, effects;
        }
        return 200, read.payload, id, None, used, effects;
    }
  }

  /** The error a first payload stands for, when it is a failure that may be retried. */
  method RetryableStreamStartupError(x: Setting, attempt: int, payload: Bytes) returns (e: Option<Err>)
    ensures e == StartupOutcome(x.cfg, attempt, Inspect(x.d, x.format, payload).failure)
  {
    var _, failure := InspectStreamStartup(x.d, x.format, payload);
    if failure.Some? {
      var retry, _ := ShouldRetryFailure(x.cfg, attempt, failure.value.status, Some(StartupErr(failure.value)));
      if retry {
        return Some(StartupErr(failure.value));
      }
    }
    e := None;
  }

  lemma OpenedReply(x: Setting, r: StreamReply, first: Bytes, used: nat)
    requires Readable(r) && StartupRead(x, r) == (Gathered(first), used)
    ensures StreamOutcome(x, r) == Reply(200, None, Inspect(x.d, x.format, first).failure)
    ensures Delivered(x, r).0 == ForwardAll(r.host, first, used).0 + [Close(OpenStream(r))]
    ensures Delivered(x, r).1 == ForwardAll(r.host, first, used).1
  {
  }

  /** The part of the loop after a dispatched call: forward its stream, or close it and decide on its failure. */
  method SettleStream(x: Setting, c: Credentials?, attempt: int, lastErr: Option<Err>, log: seq<Record>, pin: string,
                      sent: Option<Sent>, ghost reply: Reply, r: StreamReply, wait: Timer, status: int,
                      first: Bytes, streamID: string, start: Option<Err>, used: nat)
    returns (next: Loop, kind: Kind, did: seq<Effect>, broken: Option<Err>)
    requires ValidPolicy(x.cfg) && status == reply.status && start == reply.err
    requires start.None? ==>
      Readable(r) && used <= |r.host.script| && reply.startup == Inspect(x.d, x.format, first).failure
    modifies if c == null then {} else {c}
    ensures next == Settle(EnvOf(x), x.cfg, Loop(old(ViewOf(c)), attempt, lastErr, log, None), pin, sent, reply, wait)
    ensures next.creds == ViewOf(c) && next.log == log + [Record(kind, attempt, pin, sent)]
    ensures Attempted(kind) && (kind.Accepted? ==> start.None?)
    ensures if kind.Accepted? then
              next.result.Some? && Readable(r) && used <= |r.host.script|
                && did == ForwardAll(r.host, first, used).0 + [Close(streamID)]
                && broken == ForwardAll(r.host, first, used).1
            else did == ClosingOf(streamID) && broken.None?
  {
    var e := start;
    if e.None? {
      e := RetryableStreamStartupError(x, attempt, first);
    }
    if e.None? && !ShouldRetryStatus(x.cfg, status) {
      AcceptedSettles(EnvOf(x), x.cfg, Loop(ViewOf(c), attempt, lastErr, log, None), pin, sent, reply, wait);
      did, broken := ForwardHostStream(r.host, streamID, first, used);
      next := Loop(ViewOf(c), attempt, lastErr, log + [Record(Accepted, attempt, pin, sent)], Some(Completed));
      return next, Accepted, did, broken;
    }
    did, broken := ClosingOf(streamID), None;
    next, kind := FailAttempt(EnvOf(x), x.cfg, c, attempt, lastErr, log, pin, sent, reply, e, status, wait);
  }

  lemma DispatchedEffects(x: Setting, st: Loop, next: Loop, r: StreamReply, kind: Kind, first: Bytes, used: nat,
                          did: seq<Effect>, broken: Option<Err>)
    requires |next.log| == |st.log| + 1 && next.log[|st.log|].kind == kind && Attempted(kind)
    requires if kind.Accepted? then
               Readable(r) && StartupRead(x, r) == (Gathered(first), used)
                 && did == ForwardAll(r.host, first, used).0 + [Close(OpenStream(r))]
                 && broken == ForwardAll(r.host, first, used).1
             else did == ClosingOf(OpenStream(r)) && broken.None?
    ensures TurnEffects(x, st, next, r) == (StartEffects(st.attempt, r) + did, broken)
  {
  }

  lemma SkippedEffects(x: Setting, st: Loop, next: Loop, r: StreamReply)
    requires |next.log| == |st.log| + 1 && !Attempted(next.log[|st.log|].kind)
    ensures TurnEffects(x, st, next, r) == (StartEffects(st.attempt, r), None)
  {
    var before := StartEffects(st.attempt, r);
    assert before + [] == before;
  }

  /** The same, with the host's requests as the machine lists them. */
  method SettleTurn(x: Setting, c: Credentials?, attempt: int, lastErr: Option<Err>, log: seq<Record>, pin: string,
                    sent: Option<Sent>, r: StreamReply, wait: Timer, status: int, first: Bytes, streamID: string,
                    start: Option<Err>, used: nat)
    returns (next: Loop, did: seq<Effect>, broken: Option<Err>)
    requires ValidPolicy(x.cfg)
    requires status == StreamOutcome(x, r).status && start == StreamOutcome(x, r).err && streamID == OpenStream(r)
    requires start.None? ==> Readable(r) && StartupRead(x, r) == (Gathered(first), used)
    modifies if c == null then {} else {c}
    ensures next == Settle(EnvOf(x), x.cfg, Loop(old(ViewOf(c)), attempt, lastErr, log, None), pin, sent,
                           StreamOutcome(x, r), wait)
    ensures next.creds == ViewOf(c) && (next.result.None? ==> broken.None?)
    ensures (StartEffects(attempt, r) + did, broken)
      == TurnEffects(x, Loop(old(ViewOf(c)), attempt, lastErr, log, None), next, r)
  {
    if start.None? { OpenedReply(x, r, first, used); }
    var kind;
    next, kind, did, broken := SettleStream(x, c, attempt, lastErr, log, pin, sent, StreamOutcome(x, r), r, wait,
                                            status, first, streamID, start, used);
    DispatchedEffects(x, Loop(old(ViewOf(c)), attempt, lastErr, log, None), next, r, kind, first, used, did, broken);
  }

  /** One turn of runModelStreamWithRetry, from the context check to the next attempt or the result. */
  method StreamTurn(x: Setting, c: Credentials?, attempt: int, lastErr: Option<Err>, log: seq<Record>,
                    h: HostCall<StreamReply>)
    returns (next: Loop, did: seq<Effect>, broken: Option<Err>)
    requires ValidPolicy(x.cfg)
    modifies if c == null then {} else {c}
    ensures next == Step(EnvOf(x), x.cfg, Loop(old(ViewOf(c)), attempt, lastErr, log, None), SeenStream(x, h))
    ensures next.creds == ViewOf(c)
    ensures (did, broken) == TurnEffects(x, Loop(old(ViewOf(c)), attempt, lastErr, log, None), next, h.reply)
    ensures next.result.None? ==> broken.None?
  {
    if h.ctx.Some? {
      return Loop(ViewOf(c), attempt, lastErr, log, Ended(EnvOf(x), lastErr, h.ctx.value)), [], None;
    }
    ghost var st := Loop(ViewOf(c), attempt, lastErr, log, None);
    var status, first, streamID, e, used, effects := StartHostModelStream(x, attempt, h.reply);
    var pin, sent, verdict := MakeCall(EnvOf(x), x.cfg, c, attempt, h, e);
    if verdict != Dispatched {
      next := Uncounted(EnvOf(x), Loop(ViewOf(c), attempt, lastErr, log, None), pin, sent, verdict, e);
      SkippedEffects(x, st, next, h.reply);
      return next, effects, None;
    }
    next, did, broken := SettleTurn(x, c, attempt, lastErr, log, pin, sent, h.reply, h.wait, status, first, streamID,
                                    e, used);
    did := effects + did;
  }

  /** runModelStreamWithRetry: for every script, the same loop and the same requests to the host as the machine. */
  method RunModelStreamWithRetry(x: Setting, script: seq<HostCall<StreamReply>>) returns (final: Stream)
    requires ValidPolicy(x.cfg)
    ensures final == StreamRun(x, StreamStart(x.cfg), script)
  {
    var c := Begin(x.cfg);
    var attempt, lastErr, log := 1, None, [];
    var effects: seq<Effect> := [];
    var n := 0;
    ghost var s, goal := StreamStart(x.cfg), StreamRun(x, StreamStart(x.cfg), script);
    assert script[0..] == script;
    while n < |script|
      invariant 0 <= n <= |script|
      invariant c != null ==> fresh(c)
      invariant s == Stream(Loop(ViewOf(c), attempt, lastErr, log, None), effects, None)
      invariant goal == StreamRun(x, s, script[n..])
    {
      var next, did, broken := StreamTurn(x, c, attempt, lastErr, log, script[n]);
      RunTurn(x, s, script, n, next, did, broken);
      effects := effects + did;
      s := Stream(next, effects, broken);
      n := n + 1;
      if next.result.Some? {
        return Stream(next, effects, broken);
      }
      attempt, lastErr, log := next.attempt, next.lastErr, next.log;
    }
    final := Stream(Loop(ViewOf(c), attempt, lastErr, log, None), effects, None);
  }

  lemma RunTurn(x: Setting, s: Stream, script: seq<HostCall<StreamReply>>, n: nat, next: Loop, did: seq<Effect>,
                broken: Option<Err>)
    requires n < |script| && s.loop.result.None? && next == Step(EnvOf(x), x.cfg, s.loop, SeenStream(x, script[n]))
    requires (did, broken) == TurnEffects(x, s.loop, next, script[n].reply)
    ensures StreamRun(x, s, script[n..]) == StreamRun(x, Stream(next, s.effects + did, broken), script[n + 1..])
    ensures next.result.Some? ==> StreamRun(x, s, script[n..]) == Stream(next, s.effects + did, broken)
  {
    assert script[n..][1..] == script[n + 1..];
    if next.result.Some? { StreamFinished(x, Stream(next, s.effects + did, broken), script[n + 1..]); }
  }

  lemma {:induction false} StreamFinished(x: Setting, s: Stream, script: seq<HostCall<StreamReply>>)
    requires s.loop.result.Some?
    ensures StreamRun(x, s, script) == s
  {
    if script != [] { StreamFinished(x, s, script[1..]); }
  }
}
