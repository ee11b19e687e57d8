/** Where the streaming executor meets the lifecycle: which streams it left open a shutdown will close. */
module StreamTracking {
  import opened Wrappers
  import opened RetryLoop
  import opened StreamExecutor
  import opened Downstream
  import opened OpenStreams
  import opened Lifecycle
  import opened LifecycleRuns
  import opened Collections

  /** A close of a tracked stream takes it off the lifecycle's list. */
  function Untracks(effects: seq<Effect>): seq<Event> {
    if effects == [] then [] else UntrackBy(effects[0]) + Untracks(effects[1..])
  }

  function UntrackBy(effect: Effect): seq<Event> {
    if effect.Close? then [Untrack(effect.streamID)] else []
  }

  /**
   What one turn tells the lifecycle: a readable stream is tracked when it is opened, and every close at the end of
   the turn untracks. A stream that could not be tracked is closed without either.
   */
  function Tracking(x: Setting, st: Loop, next: Loop, r: StreamReply): seq<Event> {
    match ClassOf(st, next)
    case None => []
    case Some(kind) => (if Readable(r) then [Track(r.streamID)] else []) + Untracks(EndEffects(x, kind, r).0)
  }

  lemma {:induction false} UntracksAppend(a: seq<Effect>, b: seq<Effect>)
    ensures Untracks(a + b) == Untracks(a) + Untracks(b)
  {
    if a == [] {
      assert a + b == b;
    } else {
      assert (a + b)[1..] == a[1..] + b;
      UntracksAppend(a[1..], b);
      Regroup(UntrackBy(a[0]), Untracks(a[1..]), Untracks(b));
    }
  }

  lemma {:induction false} EmitsUntrackNothing(effects: seq<Effect>)
    requires OnlyEmits(effects)
    ensures Untracks(effects) == []
  {
    if effects != [] { EmitsUntrackNothing(effects[1..]); }
  }

  /** A call of this class untracks the stream it was given, if there is one and the call was an attempt. */
  lemma EndUntracks(x: Setting, kind: Kind, r: StreamReply)
    requires kind.Accepted? ==> Readable(r) && StartupRead(x, r).0.Gathered?
    ensures Untracks(EndEffects(x, kind, r).0)
         == if Attempted(kind) && OpenStream(r) != "" then [Untrack(OpenStream(r))] else []
  {
    var id := OpenStream(r);
    assert [Close(id)][1..] == [] && Untracks([Close(id)]) == [Untrack(id)];
    if kind.Accepted? {
      Delivers(x, r);
      DeliveredAs(x, r);
      UntracksAppend(SendsOf(x, r).0, [Close(r.streamID)]);
      EmitsUntrackNothing(SendsOf(x, r).0);
      DeliveryCloses(x, r, r.streamID);
    }
  }

  /** A turn that fails unselected tracks and never untracks; any other untracks whatever it was given. */
  lemma TurnTracking(x: Setting, st: Loop, h: HostCall<StreamReply>)
    requires st.result.None? && h.ctx.None?
    ensures var id := OpenStream(h.reply);
      Tracking(x, st, Step(EnvOf(x), x.cfg, st, SeenStream(x, h)), h.reply)
        == (if Readable(h.reply) then [Track(id)] else [])
           + if FailsUnselected(x, st, h) || id == "" then [] else [Untrack(id)]
  {
    var next := Step(EnvOf(x), x.cfg, st, SeenStream(x, h));
    AttemptedUnlessUnselected(x, st, h);
    StepClass(EnvOf(x), x.cfg, st, SeenStream(x, h));
    if next.result == Some(Completed) { AcceptedIsReadable(x, st, h); }
    EndUntracks(x, ClassOf(st, next).value, h.reply);
  }

  // ---- the lifecycle afterwards -------------------------------------------

  /** Neither takes the stream off the list nor ends the life of the list. */
  predicate KeepsTracked(ev: Event, id: string) {
    ev != Untrack(id) && !ev.Shutdown? && !ev.Reopen?
  }

  lemma {:induction false} StaysTracked(s: Life, events: seq<Event>, id: string)
    requires Possible(s, events) && !Closed(s) && id in s.streams
    requires forall i :: 0 <= i < |events| ==> KeepsTracked(events[i], id)
    ensures !Closed(Play(s, events)) && id in Play(s, events).streams
    decreases |events|
  {
    if events != [] { StaysTracked(Next(s, events[0]), events[1..], id); }
  }

  predicate KeepsUntracked(ev: Event, id: string) {
    ev != Track(id) && !ev.Shutdown? && !ev.Reopen?
  }

  lemma {:induction false} StaysUntracked(s: Life, events: seq<Event>, id: string)
    requires Possible(s, events) && !Closed(s) && id !in s.streams
    requires forall i :: 0 <= i < |events| ==> KeepsUntracked(events[i], id)
    ensures !Closed(Play(s, events)) && id !in Play(s, events).streams
    decreases |events|
  {
    if events != [] { StaysUntracked(Next(s, events[0]), events[1..], id); }
  }

  /** From `s` on: `between`, a shutdown, and `rest` without a reopen. */
  ghost predicate ShutsDown(s: Life, between: seq<Event>, rest: seq<Event>) {
    && Possible(s, between) && Possible(Next(Play(s, between), Shutdown), rest)
    && forall i :: 0 <= i < |rest| ==> !rest[i].Reopen?
  }

  function AfterShutdown(s: Life, between: seq<Event>, rest: seq<Event>): Life
    requires ShutsDown(s, between, rest)
  {
    Play(Next(Play(s, between), Shutdown), rest)
  }

  /**
   A readable stream left open by an unselected failure stays on the list: in every interleaving the next shutdown
   closes it before it returns.
   */
  lemma LeftOpenIsClosedByShutdown(x: Setting, st: Loop, h: HostCall<StreamReply>, id: string, s: Life,
                                   between: seq<Event>, rest: seq<Event>)
    requires st.result.None? && h.ctx.None? && LeavesOpen(x, st, h, id) && h.reply.code < 400
    requires Inv(s) && !Closed(s)
    requires ShutsDown(Next(s, Track(id)), between, rest)
    requires forall i :: 0 <= i < |between| ==> KeepsTracked(between[i], id)
    ensures Tracking(x, st, Step(EnvOf(x), x.cfg, st, SeenStream(x, h)), h.reply) == [Track(id)]
    ensures var end := AfterShutdown(Next(s, Track(id)), between, rest);
      end.phase.Stopped? ==> id in end.closeCalls
  {
    TurnTracking(x, st, h);
    NextInv(s, Track(id));
    TrackedIsClosed(Next(s, Track(id)), between, rest, id);
  }

  lemma TrackedIsClosed(s: Life, between: seq<Event>, rest: seq<Event>, id: string)
    requires Inv(s) && !Closed(s) && id in s.streams && ShutsDown(s, between, rest)
    requires forall i :: 0 <= i < |between| ==> KeepsTracked(between[i], id)
    ensures AfterShutdown(s, between, rest).phase.Stopped? ==> id in AfterShutdown(s, between, rest).closeCalls
  {
    StaysTracked(s, between, id);
    AlwaysInv(s, between);
    ShutdownCompletes(Play(s, between), rest);
  }

  /** A stream that was taken off the list is not closed again, unless another call tracks a stream of the same ID. */
  lemma UntrackedIsNotClosed(s: Life, id: string, between: seq<Event>, rest: seq<Event>)
    requires Inv(s) && !Closed(s) && ShutsDown(Next(s, Untrack(id)), between, rest)
    requires forall i :: 0 <= i < |between| ==> KeepsUntracked(between[i], id)
    ensures var end := AfterShutdown(Next(s, Untrack(id)), between, rest);
      end.phase.Stopped? ==> id !in end.closeCalls
  {
    var t := Next(s, Untrack(id));
    NextInv(s, Untrack(id));
    StaysUntracked(t, between, id);
    AlwaysInv(t, between);
    ShutdownCompletes(Play(t, between), rest);
  }

  /**
   A stream that came with an error status was never on the list: left open by an unselected failure it stays open,
   past every shutdown, unless some other call tracks a stream of the same ID.
   */
  lemma ErrorStreamIsNeverClosed(x: Setting, st: Loop, h: HostCall<StreamReply>, id: string, s: Life,
                                 between: seq<Event>, rest: seq<Event>)
    requires st.result.None? && h.ctx.None? && LeavesOpen(x, st, h, id) && h.reply.code >= 400
    requires Inv(s) && !Closed(s) && id !in s.streams
    requires ShutsDown(s, between, rest)
    requires forall i :: 0 <= i < |between| ==> KeepsUntracked(between[i], id)
    ensures Tracking(x, st, Step(EnvOf(x), x.cfg, st, SeenStream(x, h)), h.reply) == []
    ensures var end := AfterShutdown(s, between, rest);
      end.phase.Stopped? ==> id !in end.closeCalls
  {
    TurnTracking(x, st, h);
    StaysUntracked(s, between, id);
    AlwaysInv(s, between);
    ShutdownCompletes(Play(s, between), rest);
  }
}
