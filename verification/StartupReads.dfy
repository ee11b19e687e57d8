/** Which reads a stream's startup takes, when it succeeds, and with which error it fails. */
module StartupReads {
  import opened Wrappers
  import opened Text
  import opened ErrorStatus
  import opened RetryLoop
  import opened StreamStartup
  import opened StreamExecutor
  import opened Downstream
  import opened Collections

  /** The read delivered a chunk and no error. */
  predicate Clean(r: Read) {
    r.Chunk? && r.error == ""
  }

  /** The error a read carries. */
  predicate Carries(r: Read, e: Err) {
    r == ReadError(e) || (r.Chunk? && r.error != "" && e == Plain(r.error))
  }

  /** Nothing in what is held so far ends the startup. */
  predicate Undecided(d: Decoder, format: string, held: Bytes, r: Read) {
    Clean(r) && !r.done && (r.payload == [] || Inspect(d, format, held + r.payload).pending)
  }

  /** One read, in the reader's own terms: it goes on, ends with everything held, or fails with the read's error. */
  lemma OneRead(d: Decoder, format: string, held: Bytes, r: Read)
    ensures var result := Reader(d, format)(held, r);
      && (result.None? <==> Undecided(d, format, held, r))
      && (result.Some? && result.value.Gathered? ==> Clean(r) && result.value.payload == held + r.payload)
      && (result.Some? && result.value.ReadFailed? ==> Carries(r, result.value.err))
  {
  }

  /** The reads before number `n` go on, for this test of when to stop. */
  ghost predicate AllGoOn(after: (Bytes, Read) -> Option<Gathered>, script: seq<Read>, held: Bytes, n: nat)
    requires n <= |script|
  {
    forall i {:trigger GoesOn(after, script, held, i)} :: 0 <= i < n ==> GoesOn(after, script, held, i)
  }

  predicate GoesOn(after: (Bytes, Read) -> Option<Gathered>, script: seq<Read>, held: Bytes, i: nat)
    requires i < |script|
  {
    after(held + AllPayloads(script[..i]), script[i]).None?
  }

  /** The reads taken: all but the last go on, and the last one gives the result, unless all of them were taken. */
  ghost predicate Takes(after: (Bytes, Read) -> Option<Gathered>, script: seq<Read>, held: Bytes, g: Gathered, n: nat) {
    && n <= |script|
    && (|| (n == |script| && AllGoOn(after, script, held, n) && g == Gathered(held + AllPayloads(script)))
        || (n > 0 && AllGoOn(after, script, held, n - 1)
              && after(held + AllPayloads(script[..n - 1]), script[n - 1]) == Some(g)))
  }

  lemma ShiftHeld(script: seq<Read>, held: Bytes, i: nat)
    requires i < |script|
    ensures held + AllPayloads(script[..i + 1]) == (held + PayloadOf(script[0])) + AllPayloads(script[1..][..i])
  {
    CutTail(script, i);
    Regroup(held, PayloadOf(script[0]), AllPayloads(script[1..][..i]));
  }

  lemma TakesOneMore(after: (Bytes, Read) -> Option<Gathered>, script: seq<Read>, held: Bytes, g: Gathered, n: nat)
    requires script != [] && after(held, script[0]).None?
    requires Takes(after, script[1..], held + PayloadOf(script[0]), g, n)
    ensures Takes(after, script, held, g, n + 1)
  {
    var longer := held + PayloadOf(script[0]);
    assert held + AllPayloads(script[..0]) == held;
    forall i | 0 <= i < |script| ensures GoesOn(after, script, held, i)
      <==> if i == 0 then true else GoesOn(after, script[1..], longer, i - 1)
    {
      if i > 0 { ShiftHeld(script, held, i - 1); }
    }
    if n > 0 { ShiftHeld(script, held, n - 1); }
    Regroup(held, PayloadOf(script[0]), AllPayloads(script[1..]));
  }

  lemma {:induction false} GatherTakes(after: (Bytes, Read) -> Option<Gathered>, script: seq<Read>, held: Bytes,
                                       used: nat)
    ensures var (g, n) := Gather(after, script, held, used); n >= used && Takes(after, script, held, g, n - used)
    decreases |script|
  {
    assert held + [] == held;
    if script != [] {
      var (g, n) := Gather(after, script, held, used);
      assert AllPayloads(script[..0]) == [];
      if after(held, script[0]).None? {
        GatherTakes(after, script[1..], held + PayloadOf(script[0]), used + 1);
        TakesOneMore(after, script, held, g, n - used - 1);
      }
    }
  }

  // ---- the startup read ---------------------------------------------------

  /** The startup goes on after these reads, all of them clean. */
  ghost predicate StillReading(d: Decoder, format: string, script: seq<Read>, n: nat)
    requires n <= |script|
  {
    forall i {:trigger script[i]} :: 0 <= i < n ==> Undecided(d, format, AllPayloads(script[..i]), script[i])
  }

  /** How the startup ends, in terms of the reads alone. */
  ghost predicate Ends(d: Decoder, format: string, script: seq<Read>, g: Gathered, n: nat) {
    && n <= |script|
    && match g
       case ReadFailed(e) => n > 0 && StillReading(d, format, script, n - 1) && Carries(script[n - 1], e)
       case Gathered(payload) =>
         && payload == AllPayloads(script[..n])
         && (|| (n == |script| && StillReading(d, format, script, n))
             || (n > 0 && StillReading(d, format, script, n - 1) && Clean(script[n - 1])
                   && !Undecided(d, format, AllPayloads(script[..n - 1]), script[n - 1])))
  }

  lemma AllStillReading(d: Decoder, format: string, script: seq<Read>, n: nat)
    requires n <= |script|
    ensures AllGoOn(Reader(d, format), script, [], n) <==> StillReading(d, format, script, n)
  {
    forall i | 0 <= i < n
      ensures GoesOn(Reader(d, format), script, [], i) <==> Undecided(d, format, AllPayloads(script[..i]), script[i])
    {
      assert [] + AllPayloads(script[..i]) == AllPayloads(script[..i]);
      OneRead(d, format, AllPayloads(script[..i]), script[i]);
    }
  }

  lemma LastRead(script: seq<Read>, n: nat)
    requires 0 < n <= |script|
    ensures AllPayloads(script[..n]) == AllPayloads(script[..n - 1]) + PayloadOf(script[n - 1])
  {
    PayloadsSplit(script[..n], n - 1);
    assert script[..n][..n - 1] == script[..n - 1] && script[..n][n - 1..] == [script[n - 1]];
    assert [script[n - 1]][1..] == [] && PayloadOf(script[n - 1]) + [] == PayloadOf(script[n - 1]);
  }

  /**
   For every script, the startup takes reads until one of them is in error, says Done, or completes what the inspector
   waits for. It returns a payload exactly when every read it took is a chunk without an error, and then all of their
   bytes; it fails exactly when the last read it took carries an error, and then with that error.
   */
  lemma ReadsExactly(d: Decoder, format: string, script: seq<Read>)
    ensures var (g, n) := Gather(Reader(d, format), script, [], 0);
      && Ends(d, format, script, g, n)
      && (g.Gathered? <==> forall i :: 0 <= i < n ==> Clean(script[i]))
  {
    GatherTakes(Reader(d, format), script, [], 0);
    TakenEnds(d, format, script, Gather(Reader(d, format), script, [], 0));
  }

  lemma TakenEnds(d: Decoder, format: string, script: seq<Read>, r: (Gathered, nat))
    requires Takes(Reader(d, format), script, [], r.0, r.1)
    ensures Ends(d, format, script, r.0, r.1)
    ensures r.1 <= |script| && (r.0.Gathered? <==> forall i :: 0 <= i < r.1 ==> Clean(script[i]))
  {
    TakesEnds(d, format, script, r.0, r.1);
  }

  lemma TakesEnds(d: Decoder, format: string, script: seq<Read>, g: Gathered, n: nat)
    requires Takes(Reader(d, format), script, [], g, n)
    ensures Ends(d, format, script, g, n)
    ensures n <= |script| && (g.Gathered? <==> forall i :: 0 <= i < n ==> Clean(script[i]))
  {
    AllStillReading(d, format, script, n);
    if n > 0 {
      AllStillReading(d, format, script, n - 1);
      OneRead(d, format, AllPayloads(script[..n - 1]), script[n - 1]);
      LastRead(script, n);
      assert [] + AllPayloads(script[..n - 1]) == AllPayloads(script[..n - 1]);
    }
    assert [] + AllPayloads(script) == AllPayloads(script) && script[..|script|] == script;
    EndsClean(d, format, script, g, n);
  }

  lemma EndsClean(d: Decoder, format: string, script: seq<Read>, g: Gathered, n: nat)
    requires Ends(d, format, script, g, n)
    ensures n <= |script| && (g.Gathered? <==> forall i :: 0 <= i < n ==> Clean(script[i]))
  {
  }

  // ---- the attempt --------------------------------------------------------

  /** A readable stream fails its attempt exactly when a read of its startup is in error, and with that read's error. */
  lemma FailedRead(x: Setting, r: StreamReply)
    requires Readable(r)
    ensures var n, reply := StartupRead(x, r).1, StreamOutcome(x, r);
      && (reply.err.None? <==> forall i :: 0 <= i < n ==> Clean(r.host.script[i]))
      && (reply.err.Some? ==>
            n > 0 && Carries(r.host.script[n - 1], reply.err.value)
              && reply.status == StatusFromError(x.d.pattern, reply.err.value))
  {
    ReadsExactly(x.d, x.format, r.host.script);
  }

  /** Such an attempt is not accepted and sends nothing. */
  lemma FailedReadSendsNothing(x: Setting, st: Loop, h: HostCall<StreamReply>)
    requires st.result.None? && h.ctx.None? && Readable(h.reply)
    requires exists i :: 0 <= i < StartupRead(x, h.reply).1 && !Clean(h.reply.host.script[i])
    ensures var next := Step(EnvOf(x), x.cfg, st, SeenStream(x, h));
      next.result != Some(Completed) && NoEmits(TurnEffects(x, st, next, h.reply).0)
  {
    ReadsExactly(x.d, x.format, h.reply.host.script);
    TurnDelivers(x, st, h);
    if Step(EnvOf(x), x.cfg, st, SeenStream(x, h)).result == Some(Completed) { AcceptedIsReadable(x, st, h); }
  }

  /** Every other reply to the call is a failed attempt, with the error of the step that failed. */
  lemma FailedStart(x: Setting, r: StreamReply)
    requires !Readable(r)
    ensures var reply := StreamOutcome(x, r);
      && reply.err.Some? && reply.startup.None?
      && match r
         case StreamCallError(e) => reply.err.value == e && reply.status == StatusFromError(x.d.pattern, e)
         case StreamUndecodable(e) => reply.err.value == e && reply.status == 0
         case StreamResponse(code, id, track, _) =>
           if code >= 400 then reply.err.value == StatusError(code, None) && reply.status == code
           else if TrimSpace(id) == "" then
             reply.err.value == Plain("host model stream returned empty stream_id") && reply.status == 0
           else track.Some? && reply.err == track && reply.status == 0
  {
  }
}
