/** What can cancel a request, close a stream or end a task: nothing but its own cause. */
module LifecycleCauses {
  import opened Lifecycle
  import opened LifecycleRuns

  /** The registration that a cancel of its ID would reach now. */
  ghost predicate Current(s: Life, e: nat)
    requires e < |s.registrations|
  {
    s.registrations[e].id != "" && Latest(s, e) && e >= s.since && e !in s.cleaned
  }

  /** Exactly these events ask for the cancellation of registration `e`. */
  ghost predicate Cancels(s: Life, ev: Event, e: nat)
    requires e < |s.registrations|
  {
    match ev
    case Register(id, _, _) => !Closed(s) && id == s.registrations[e].id && Current(s, e)
    case Cancel(id, _, _, _) => id == s.registrations[e].id && Current(s, e)
    case Cleanup(other) => other == e && e !in s.cleaned
    case Shutdown => !Closed(s) && Current(s, e)
    case _ => false
  }

  lemma CurrentIsActive(s: Life, e: nat)
    requires Inv(s) && e < |s.registrations|
    ensures Current(s, e) <==> s.registrations[e].id != "" && IsActive(s, e)
    ensures Current(s, e) ==> e in s.active.Values
    ensures e in s.active.Values ==> Current(s, e)
  {
    assert EntryRule(s, e);
    if e in s.active.Values {
      var id :| id in s.active && s.active[id] == e;
      assert EntryNamed(s, id);
    }
  }

  lemma CancelByRegister(s: Life, id: string, root: nat, now: int, e: nat)
    requires Inv(s) && root <= s.generation && e < |s.registrations|
    ensures CancelUnderway(Next(s, Register(id, root, now)), e)
       <==> CancelUnderway(s, e) || Cancels(s, Register(id, root, now), e)
  {
    CurrentIsActive(s, e);
    if id in s.active { assert EntryNamed(s, id); }
  }

  lemma CancelByCancel(s: Life, id: string, remember: bool, now: int, victim: string, e: nat)
    requires Inv(s) && Enabled(s, Cancel(id, remember, now, victim)) && e < |s.registrations|
    ensures CancelUnderway(Next(s, Cancel(id, remember, now, victim)), e)
       <==> CancelUnderway(s, e) || Cancels(s, Cancel(id, remember, now, victim), e)
  {
    CurrentIsActive(s, e);
    if id in s.active { assert EntryNamed(s, id); }
  }

  /** An event starts the cancellation of a registration exactly when it is a cause, whoever else it concerns. */
  lemma CancelExactly(s: Life, ev: Event, e: nat)
    requires Inv(s) && Enabled(s, ev) && e < |s.registrations|
    ensures CancelUnderway(Next(s, ev), e) <==> CancelUnderway(s, e) || Cancels(s, ev, e)
  {
    match ev
    case Register(id, root, now) => CancelByRegister(s, id, root, now, e);
    case Cancel(id, remember, now, victim) => CancelByCancel(s, id, remember, now, victim, e);
    case Shutdown => CurrentIsActive(s, e);
    case _ =>
  }

  /** None of these events is a cause, in the state it finds. */
  ghost predicate Spares(s: Life, events: seq<Event>, e: nat)
    requires Possible(s, events) && e < |s.registrations|
    decreases |events|
  {
    events == [] || (!Cancels(s, events[0], e) && Spares(Next(s, events[0]), events[1..], e))
  }

  /** A request that nothing asks to cancel is never cancelled, in any interleaving. */
  lemma {:induction false} SparedIsNotCancelled(s: Life, events: seq<Event>, e: nat)
    requires Inv(s) && Possible(s, events) && e < |s.registrations| && Spares(s, events, e) && !CancelUnderway(s, e)
    ensures !CancelUnderway(Play(s, events), e)
    decreases |events|
  {
    if events != [] {
      CancelExactly(s, events[0], e);
      NextInv(s, events[0]);
      SparedIsNotCancelled(Next(s, events[0]), events[1..], e);
    }
  }

  // ---- remembered cancels -------------------------------------------------

  /** A tombstone cancels the next registration of its ID exactly while it has not expired. */
  lemma BornCancelledExactly(s: Life, id: string, root: nat, now: int)
    requires Inv(s) && !Closed(s) && root <= s.generation && id != ""
    ensures CancelUnderway(Next(s, Register(id, root, now)), |s.registrations|)
       <==> id in s.pending && now < s.pending[id]
  {
    if id in s.active { assert EntryNamed(s, id); }
  }

  /**
   A cancel of an ID without a registration lasts thirty seconds, and replaces an older one. Every other tombstone
   stays until it expires; only a full table gives up one, the victim.
   */
  lemma TombstonesAfter(s: Life, id: string, now: int, victim: string, other: string)
    requires id != "" && id !in s.active && Enabled(s, Cancel(id, true, now, victim)) && other != id
    ensures var t, live := Next(s, Cancel(id, true, now, victim)), Pruned(s.pending, now);
      && id in t.pending && t.pending[id] == now + 30_000_000_000
      && (other in t.pending <==> other in s.pending && now < s.pending[other] && !(|live| >= 1024 && other == victim))
      && (other in t.pending ==> t.pending[other] == s.pending[other])
  {
  }

  // ---- tasks and generations ----------------------------------------------

  function Count(events: seq<Event>, kind: Event -> bool): nat {
    if events == [] then 0 else (if kind(events[0]) then 1 else 0) + Count(events[1..], kind)
  }

  const BEGINS := (ev: Event) => ev.BeginTask?
  const ENDS := (ev: Event) => ev.EndTask?

  /** While the plugin runs, the tasks are those begun less those ended; after a shutdown none begins any more. */
  lemma {:induction false} TasksCounted(s: Life, events: seq<Event>)
    requires Possible(s, events)
    requires forall i :: 0 <= i < |events| ==> !events[i].Reopen? && (!Closed(s) ==> !events[i].Shutdown?)
    ensures Closed(Play(s, events)) == Closed(s)
    ensures Play(s, events).tasks == s.tasks + (if Closed(s) then 0 else Count(events, BEGINS)) - Count(events, ENDS)
    decreases |events|
  {
    if events != [] {
      assert forall i :: 0 <= i < |events[1..]| ==> events[1..][i] == events[i + 1];
      TasksCounted(Next(s, events[0]), events[1..]);
    }
  }

  /** A reopened plugin starts empty, and a request registered under the new context is alive. */
  lemma ReopenedIsUsable(s: Life, id: string, now: int)
    requires Inv(s) && s.phase.Stopped?
    ensures var t := Next(s, Reopen);
      && t.phase.Running? && t.generation == s.generation + 1
      && t.tasks == 0 && t.streams == {} && t.active == map[] && t.pending == map[]
      && var u := Next(t, Register(id, t.generation, now));
      && |u.registrations| == |s.registrations| + 1 && !ContextDone(u, |s.registrations|)
  {
    NextInv(s, Reopen);
  }
}
