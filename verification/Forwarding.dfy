/** How forwarding a host stream ends, and with which error, read by read. */
module Forwarding {
  import opened Wrappers
  import opened Text
  import opened ErrorStatus
  import opened RetryLoop
  import opened StreamStartup
  import opened StreamExecutor
  import opened Downstream

  function Emission(payload: Bytes): seq<Effect> {
    if payload != [] then [Emit(payload)] else []
  }

  /** The emissions for the payloads of the reads from `i` up to `j`, empty payloads left out. */
  function Emissions(script: seq<Read>, i: nat, j: nat): seq<Effect>
    requires i <= j <= |script|
    decreases j - i
  {
    if i == j then []
    else Emission(PayloadOf(script[i])) + Emissions(script, i + 1, j)
  }

  /** The read went well, its payload was passed on, the stream is not over and the request is alive. */
  predicate WentOn(r: Read, emitted: Option<Err>, ctx: Option<Err>) {
    r.Chunk? && r.error == "" && (r.payload != [] ==> emitted.None?) && !r.done && ctx.None?
  }

  /** Read `j` ends the loop, for the first of these reasons that holds. */
  predicate EndsWith(r: Read, emitted: Option<Err>, ctx: Option<Err>, result: Option<Err>) {
    && !WentOn(r, emitted, ctx)
    && (r.ReadError? ==> result == Some(r.err))
    && (r.Chunk? && r.error != "" ==> result == Some(Plain(r.error)))
    && (r.Chunk? && r.error == "" && r.payload != [] && emitted.Some? ==> result == emitted)
    && (PassedOn(r, emitted) ==> result == if r.done then None else ctx)
  }

  /** The payload of the last read was passed on as well. */
  predicate PassedOn(r: Read, emitted: Option<Err>) {
    r.Chunk? && r.error == "" && (r.payload != [] ==> emitted.None?)
  }

  /** The reads from `i` up to `j` went well; `n` emissions came before them. */
  ghost predicate AllWentOn(host: Host, i: nat, n: nat, j: nat)
    requires i <= j <= |host.script|
  {
    forall k :: i <= k < j ==> WentOnAt(host, i, n, k)
  }

  predicate WentOnAt(host: Host, i: nat, n: nat, k: nat)
    requires i <= k < |host.script|
  {
    WentOn(host.script[k], host.emit(n + |Emissions(host.script, i, k)|), host.ctx(k))
  }

  /** Read `j` ended the loop, or the script did; the payloads up to there were sent. */
  predicate EndedAt(host: Host, i: nat, n: nat, j: nat, sent: seq<Effect>, result: Option<Err>)
    requires i <= j <= |host.script|
  {
    if j == |host.script| then result.None? && sent == Emissions(host.script, i, j)
    else
      var emitted := host.emit(n + |Emissions(host.script, i, j)|);
      && EndsWith(host.script[j], emitted, host.ctx(j), result)
      && sent == Emissions(host.script, i, if PassedOn(host.script[j], emitted) then j + 1 else j)
  }

  /**
   Forwarding ends at the first read that fails, carries an error, cannot be passed on, is the last one or is
   followed by the context's end; the error returned is that one's, and every payload before it was sent.
   */
  lemma {:induction false} ForwardExactly(host: Host, i: nat, n: nat) returns (j: nat)
    requires i <= |host.script|
    ensures i <= j <= |host.script|
    ensures AllWentOn(host, i, n, j)
    ensures EndedAt(host, i, n, j, Forward(host, i, n).0, Forward(host, i, n).1)
    decreases |host.script| - i
  {
    if i == |host.script| {
      j := i;
    } else if PassOne(host, i, n).ended {
      j := i;
      EndsHere(host, i, n);
    } else {
      j := ForwardExactly(host, i + 1, n + |PassOne(host, i, n).sent|);
      GoesOn(host, i, n, PassOne(host, i, n), j, Forward(host, i, n));
    }
  }

  lemma EndsHere(host: Host, i: nat, n: nat)
    requires i < |host.script| && PassOne(host, i, n).ended
    ensures AllWentOn(host, i, n, i) && EndedAt(host, i, n, i, Forward(host, i, n).0, Forward(host, i, n).1)
  {
    var one := PassOne(host, i, n);
    OneEnds(host, i, n, one);
    var payload := PayloadOf(host.script[i]);
    assert Emissions(host.script, i, i + 1) == Emission(payload) + Emissions(host.script, i + 1, i + 1);
    assert host.emit(n + |Emissions(host.script, i, i)|) == host.emit(n);
  }

  lemma ForwardMore(host: Host, i: nat, n: nat, one: Passed)
    requires i < |host.script| && one == PassOne(host, i, n) && !one.ended
    ensures Forward(host, i, n)
         == (one.sent + Forward(host, i + 1, n + |one.sent|).0, Forward(host, i + 1, n + |one.sent|).1)
  {
  }

  lemma GoesOn(host: Host, i: nat, n: nat, one: Passed, j: nat, all: (seq<Effect>, Option<Err>))
    requires i < j <= |host.script| && one == PassOne(host, i, n) && !one.ended && all == Forward(host, i, n)
    requires var rest := Forward(host, i + 1, n + |one.sent|);
      AllWentOn(host, i + 1, n + |one.sent|, j) && EndedAt(host, i + 1, n + |one.sent|, j, rest.0, rest.1)
    ensures AllWentOn(host, i, n, j) && EndedAt(host, i, n, j, all.0, all.1)
  {
    ForwardMore(host, i, n, one);
    Prepend(host, i, n, one, j, Forward(host, i + 1, n + |one.sent|));
  }

  lemma Prepend(host: Host, i: nat, n: nat, one: Passed, j: nat, rest: (seq<Effect>, Option<Err>))
    requires i < j <= |host.script| && one == PassOne(host, i, n) && !one.ended
    requires AllWentOn(host, i + 1, n + |one.sent|, j) && EndedAt(host, i + 1, n + |one.sent|, j, rest.0, rest.1)
    ensures AllWentOn(host, i, n, j) && EndedAt(host, i, n, j, one.sent + rest.0, rest.1)
  {
    OneGoes(host, i, n, one);
    OnePasses(host, i, n, j, one.sent);
    OneBefore(host, i, n, j, one.sent, rest.0, rest.1);
  }

  lemma OnePasses(host: Host, i: nat, n: nat, j: nat, first: seq<Effect>)
    requires i < j <= |host.script| && WentOn(host.script[i], host.emit(n), host.ctx(i))
    requires first == Emission(PayloadOf(host.script[i])) && AllWentOn(host, i + 1, n + |first|, j)
    ensures AllWentOn(host, i, n, j)
  {
    forall k | i <= k < j ensures WentOnAt(host, i, n, k) {
      if k > i {
        OnePass(host, i, n, k, first);
      } else {
        assert Emissions(host.script, i, i) == [];
      }
    }
  }

  lemma OnePass(host: Host, i: nat, n: nat, k: nat, first: seq<Effect>)
    requires i < k < |host.script| && first == Emission(PayloadOf(host.script[i]))
    requires WentOnAt(host, i + 1, n + |first|, k)
    ensures WentOnAt(host, i, n, k)
  {
    EmittedBefore(host.script, i, k, n, first);
  }

  lemma EmittedBefore(script: seq<Read>, i: nat, k: nat, n: nat, first: seq<Effect>)
    requires i < k <= |script| && first == Emission(PayloadOf(script[i]))
    ensures n + |first| + |Emissions(script, i + 1, k)| == n + |Emissions(script, i, k)|
  {
  }

  lemma OneBefore(host: Host, i: nat, n: nat, j: nat, first: seq<Effect>, more: seq<Effect>, result: Option<Err>)
    requires i < j <= |host.script| && first == Emission(PayloadOf(host.script[i]))
    requires EndedAt(host, i + 1, n + |first|, j, more, result)
    ensures EndedAt(host, i, n, j, first + more, result)
  {
    assert Emissions(host.script, i, j) == first + Emissions(host.script, i + 1, j);
  }

  lemma OneEnds(host: Host, i: nat, n: nat, one: Passed)
    requires i < |host.script| && one == PassOne(host, i, n) && one.ended
    ensures EndsWith(host.script[i], host.emit(n), host.ctx(i), one.result)
    ensures one.sent == if PassedOn(host.script[i], host.emit(n)) then Emission(PayloadOf(host.script[i])) else []
  {
  }

  lemma OneGoes(host: Host, i: nat, n: nat, one: Passed)
    requires i < |host.script| && one == PassOne(host, i, n) && !one.ended
    ensures WentOn(host.script[i], host.emit(n), host.ctx(i)) && one.sent == Emission(PayloadOf(host.script[i]))
  {
  }

  // ---- the error of the request -------------------------------------------

  /** What a completed request asked of the host in its last call, and the error it returns. */
  ghost predicate DeliveredWith(host: Host, first: Bytes, used: nat, j: nat, sent: seq<Effect>, e: Option<Err>)
    requires used <= j <= |host.script|
  {
    if first != [] && host.emit(0).Some? then sent == [] && e == host.emit(0)
    else exists more :: sent == Emission(first) + more
                     && AllWentOn(host, used, |Emission(first)|, j)
                     && EndedAt(host, used, |Emission(first)|, j, more, e)
  }

  lemma ForwardAllExactly(host: Host, first: Bytes, used: nat) returns (j: nat)
    requires used <= |host.script|
    ensures used <= j <= |host.script|
    ensures DeliveredWith(host, first, used, j, ForwardAll(host, first, used).0, ForwardAll(host, first, used).1)
  {
    var n := |Emission(first)|;
    j := ForwardExactly(host, used, n);
    var (more, result) := Forward(host, used, n);
    assert first == [] ==> Emission(first) + more == more;
  }

  /**
   A request whose call was accepted returns the error that its forwarding ended with, and nil when the stream ended
   well; what it sent downstream is the payloads up to there.
   */
  lemma ReturnedError(x: Setting, s: Stream, h: HostCall<StreamReply>) returns (first: Bytes, used: nat, j: nat)
    requires s.loop.result.None? && StreamStep(x, s, h).loop.result == Some(Completed)
    ensures Readable(h.reply) && StartupRead(x, h.reply) == (Gathered(first), used)
    ensures used <= j <= |h.reply.host.script|
    ensures DeliveredWith(h.reply.host, first, used, j, SendsOf(x, h.reply).0, StreamError(StreamStep(x, s, h)))
  {
    TurnDelivers(x, s.loop, h);
    DeliveredAs(x, h.reply);
    first, used := StartupRead(x, h.reply).0.payload, StartupRead(x, h.reply).1;
    j := ForwardAllExactly(h.reply.host, first, used);
  }
}
