/** Facts about whole runs of the lifecycle, over every interleaving of its events. */
module LifecycleRuns {
  import opened Lifecycle

  ghost predicate Possible(s: Life, events: seq<Event>)
    decreases |events|
  {
    events == [] || (Enabled(s, events[0]) && Possible(Next(s, events[0]), events[1..]))
  }

  function Play(s: Life, events: seq<Event>): Life
    requires Possible(s, events)
    decreases |events|
  {
    if events == [] then s else Play(Next(s, events[0]), events[1..])
  }

  /** The registry invariants hold in every reachable state. */
  lemma {:induction false} AlwaysInv(s: Life, events: seq<Event>)
    requires Inv(s) && Possible(s, events)
    ensures Inv(Play(s, events))
    decreases |events|
  {
    if events != [] {
      NextInv(s, events[0]);
      AlwaysInv(Next(s, events[0]), events[1..]);
    }
  }

  /** Every reachable state has the invariants. */
  lemma ReachableInv(events: seq<Event>)
    requires Possible(Fresh(), events)
    ensures Inv(Play(Fresh(), events))
  {
    FreshInv();
    AlwaysInv(Fresh(), events);
  }

  // ---- cancellation is never lost -----------------------------------------

  /** Once a cancel is underway it stays so until it has happened; once it has happened it stays. */
  lemma {:induction false} UnderwayPersists(s: Life, events: seq<Event>, e: nat)
    requires Inv(s) && Possible(s, events) && e < |s.registrations|
    ensures CancelUnderway(s, e) ==> CancelUnderway(Play(s, events), e)
    ensures e in s.cancelled ==> e in Play(s, events).cancelled
    ensures e < |Play(s, events).registrations|
    decreases |events|
  {
    if events != [] {
      NextInv(s, events[0]);
      assert CancelUnderway(s, e) ==> CancelUnderway(Next(s, events[0]), e);
      UnderwayPersists(Next(s, events[0]), events[1..], e);
    }
  }

  /** No released lock owes a call and no shutdown is under way. */
  predicate Quiet(s: Life) {
    s.owed == {} && !s.phase.Draining?
  }

  /** When no call is owed any more, every superseded, cleaned or dropped registration has been cancelled. */
  lemma SupersededAreCancelled(s: Life, e: nat)
    requires Inv(s) && Quiet(s) && e < |s.registrations| && s.registrations[e].id != ""
    requires !(Latest(s, e) && e >= s.since && e !in s.cleaned)
    ensures e in s.cancelled
  {
    assert EntryRule(s, e) && NotForgotten(s, e);
  }

  /** A cleanup, first or repeated, never removes the entry of any other registration. */
  lemma CleanupSparesOthers(s: Life, e: nat, other: nat)
    requires Inv(s) && e < |s.registrations| && other < |s.registrations| && other != e && IsActive(s, other)
    ensures IsActive(Next(s, Cleanup(e)), other)
  {
  }

  /** A cancel that comes after registration and before cleanup reaches that registration. */
  lemma CancelAfterRegistration(s: Life, e: nat, remember: bool, now: int, victim: string)
    requires Inv(s) && e < |s.registrations| && s.registrations[e].id != ""
    requires Latest(s, e) && e >= s.since && e !in s.cleaned
    requires Enabled(s, Cancel(s.registrations[e].id, remember, now, victim))
    ensures CancelUnderway(Next(s, Cancel(s.registrations[e].id, remember, now, victim)), e)
  {
    assert EntryRule(s, e);
  }

  /** The tombstone is there and will outlive `until`. */
  predicate Held(s: Life, id: string, until: int) {
    !Closed(s) && id != "" && id !in s.active && id in s.pending && until < s.pending[id]
  }

  /** An event between the remembered cancel and the registration: no shutdown, no eviction, no earlier registration. */
  predicate Harmless(ev: Event, id: string, since: int, until: int) {
    match ev
    case Register(other, _, now) => other != id && now <= until
    case Cancel(other, _, now, victim) => since <= now <= until && (other == id || victim != id)
    case Shutdown => false
    case _ => true
  }

  lemma HeldStep(s: Life, ev: Event, id: string, since: int, until: int)
    requires Held(s, id, until) && Enabled(s, ev) && Harmless(ev, id, since, until) && until < since + PENDING_TTL
    ensures Held(Next(s, ev), id, until)
  {
  }

  lemma {:induction false} HeldRun(s: Life, events: seq<Event>, id: string, since: int, until: int)
    requires Held(s, id, until) && Possible(s, events) && until < since + PENDING_TTL
    requires forall i :: 0 <= i < |events| ==> Harmless(events[i], id, since, until)
    ensures Held(Play(s, events), id, until)
    decreases |events|
  {
    if events != [] {
      HeldStep(s, events[0], id, since, until);
      HeldRun(Next(s, events[0]), events[1..], id, since, until);
    }
  }

  /**
   A remembered cancel reaches the first later registration of its ID within the time to live, in every
   interleaving without a shutdown or an eviction of its tombstone; the tombstone is spent on it.
   */
  lemma RememberedCancelReaches(s: Life, id: string, since: int, victim: string, events: seq<Event>, root: nat,
                                now: int)
    requires Inv(s) && !Closed(s) && id != "" && id !in s.active
    requires Enabled(s, Cancel(id, true, since, victim)) && since <= now < since + PENDING_TTL
    requires Possible(Next(s, Cancel(id, true, since, victim)), events)
    requires forall i :: 0 <= i < |events| ==> Harmless(events[i], id, since, now)
    requires root <= Play(Next(s, Cancel(id, true, since, victim)), events).generation
    ensures var before := Play(Next(s, Cancel(id, true, since, victim)), events);
      var after := Next(before, Register(id, root, now));
      && |after.registrations| == |before.registrations| + 1
      && CancelUnderway(after, |before.registrations|)
      && id !in after.pending
  {
    var marked := Next(s, Cancel(id, true, since, victim));
    assert Held(marked, id, now);
    HeldRun(marked, events, id, since, now);
  }

  /** End to end: however the run goes on, once no call is owed any more that registration's context is cancelled. */
  lemma RememberedCancelLands(s: Life, id: string, since: int, victim: string, events: seq<Event>, root: nat, now: int,
                              rest: seq<Event>)
    requires Inv(s) && !Closed(s) && id != "" && id !in s.active
    requires Enabled(s, Cancel(id, true, since, victim)) && since <= now < since + PENDING_TTL
    requires Possible(Next(s, Cancel(id, true, since, victim)), events)
    requires forall i :: 0 <= i < |events| ==> Harmless(events[i], id, since, now)
    requires root <= Play(Next(s, Cancel(id, true, since, victim)), events).generation
    requires var before := Play(Next(s, Cancel(id, true, since, victim)), events);
      Possible(Next(before, Register(id, root, now)), rest) && Quiet(Play(Next(before, Register(id, root, now)), rest))
    ensures var before := Play(Next(s, Cancel(id, true, since, victim)), events);
      |before.registrations| in Play(Next(before, Register(id, root, now)), rest).cancelled
  {
    var marked := Next(s, Cancel(id, true, since, victim));
    var before := Play(marked, events);
    RememberedCancelReaches(s, id, since, victim, events, root, now);
    NextInv(s, Cancel(id, true, since, victim));
    AlwaysInv(marked, events);
    NextInv(before, Register(id, root, now));
    UnderwayPersists(Next(before, Register(id, root, now)), rest, |before.registrations|);
  }

  /** Without a tombstone a registration owes no cancel to itself. */
  lemma NoTombstoneNoCancel(s: Life, id: string, root: nat, now: int)
    requires Inv(s) && !Closed(s) && root <= s.generation && id !in s.pending
    ensures !CancelUnderway(Next(s, Register(id, root, now)), |s.registrations|)
    ensures id !in Next(s, Register(id, root, now)).pending
  {
    if id in s.active { assert EntryNamed(s, id); }
  }

  /** Only a remembering cancel of the same ID lays a tombstone. */
  lemma {:induction false} TombstonesNeedCancels(s: Life, events: seq<Event>, id: string)
    requires Possible(s, events) && id !in s.pending
    requires forall i :: 0 <= i < |events| ==> !(events[i].Cancel? && events[i].id == id && events[i].remember)
    ensures id !in Play(s, events).pending
    decreases |events|
  {
    if events != [] { TombstonesNeedCancels(Next(s, events[0]), events[1..], id); }
  }

  /**
   One tombstone cancels at most one registration: whatever happens after a registration, unless the cancel is
   remembered once more, the next registration of the ID is not born with a cancel underway.
   */
  lemma TombstoneSpentOnce(s: Life, id: string, root: nat, now: int, events: seq<Event>, again: nat, later: int)
    requires Inv(s) && !Closed(s) && id != "" && root <= s.generation
    requires Possible(Next(s, Register(id, root, now)), events)
    requires forall i :: 0 <= i < |events| ==> !(events[i].Cancel? && events[i].id == id && events[i].remember)
    requires var before := Play(Next(s, Register(id, root, now)), events);
      !Closed(before) && again <= before.generation
    ensures var before := Play(Next(s, Register(id, root, now)), events);
      !CancelUnderway(Next(before, Register(id, again, later)), |before.registrations|)
  {
    var after := Next(s, Register(id, root, now));
    NextInv(s, Register(id, root, now));
    TombstonesNeedCancels(after, events, id);
    AlwaysInv(after, events);
    NoTombstoneNoCancel(Play(after, events), id, again, later);
  }

  // ---- shutdown -----------------------------------------------------------

  /** After shutdown begins nothing is added, and every context of the plugin reports cancellation. */
  lemma ClosedAddsNothing(s: Life, ev: Event)
    requires Inv(s) && Closed(s) && Enabled(s, ev) && !ev.Reopen?
    ensures var t := Next(s, ev);
      && Closed(t) && t.tasks <= s.tasks && t.streams <= s.streams && t.registrations == s.registrations
      && t.active == map[]
      && forall e :: 0 <= e < |t.registrations| ==> ContextDone(t, e)
  {
    NextInv(s, ev);
  }

  /** Where a shutdown stands: it still owes, or has made, a call for every entry and stream it found. */
  predicate Progress(found: set<nat>, streams: set<string>, s: Life) {
    match s.phase
    case Running => false
    case Draining(cancels, closes, _) => found <= cancels + s.cancelled && streams == closes + s.closeCalls
    case Stopped => found <= s.cancelled && streams == s.closeCalls && s.tasks == 0
  }

  lemma ShutdownBegins(s: Life)
    requires !Closed(s)
    ensures Progress(s.active.Values, s.streams, Next(s, Shutdown))
  {
  }

  lemma ProgressStep(found: set<nat>, streams: set<string>, s: Life, ev: Event)
    requires Inv(s) && Progress(found, streams, s) && Enabled(s, ev) && !ev.Reopen?
    ensures Progress(found, streams, Next(s, ev))
  {
  }

  lemma {:induction false} ProgressRun(found: set<nat>, streams: set<string>, s: Life, events: seq<Event>)
    requires Inv(s) && Progress(found, streams, s) && Possible(s, events)
    requires forall i :: 0 <= i < |events| ==> !events[i].Reopen?
    ensures Progress(found, streams, Play(s, events))
    decreases |events|
  {
    if events != [] {
      ProgressStep(found, streams, s, events[0]);
      NextInv(s, events[0]);
      ProgressRun(found, streams, Next(s, events[0]), events[1..]);
    }
  }

  /**
   When a shutdown has returned, no stream task is left, every registration that was active when it began is
   cancelled, and exactly the host streams tracked then have been closed.
   */
  lemma ShutdownCompletes(s: Life, events: seq<Event>)
    requires Inv(s) && !Closed(s) && Possible(Next(s, Shutdown), events)
    requires forall i :: 0 <= i < |events| ==> !events[i].Reopen?
    ensures var end := Play(Next(s, Shutdown), events);
      end.phase.Stopped? ==> end.tasks == 0 && s.active.Values <= end.cancelled && s.streams == end.closeCalls
  {
    NextInv(s, Shutdown);
    ShutdownBegins(s);
    ProgressRun(s.active.Values, s.streams, Next(s, Shutdown), events);
  }
}
