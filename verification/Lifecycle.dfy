/**
 The plugin lifecycle as a state machine. Every mutex region is one step; cancel calls run after the lock is
 released, so they are owed and happen as later steps of their own, in any interleaving.
 */
module Lifecycle {
  import opened Text
  import Collections

  const MAX_PENDING := 1024
  const PENDING_TTL := 30_000_000_000
  const MAX_REQUEST_ID := 128

  function NormalizeRequestID(value: string): string {
    var id := TrimSpace(value);
    if |id| > MAX_REQUEST_ID then "" else id
  }

  /** A request ID is what stands between the outer white space, unless that is too long to be one. */
  lemma RequestIDExactly(pad: string, id: string, tail: string)
    requires AllSpace(pad) && AllSpace(tail) && Trimmed(id)
    ensures NormalizeRequestID(pad + id + tail) == if |id| <= 128 then id else ""
  {
    TrimExactly(pad, id, tail);
  }

  /** A registered executor: its request ID, "" when it has none, and the lifecycle context it descends from. */
  datatype Registration = Registration(id: string, root: nat)

  /** `Draining` is a shutdown between its unlock and its return, with the calls it still owes. */
  datatype Phase = Running | Draining(cancels: set<nat>, closes: set<string>, tracked: set<string>) | Stopped

  datatype Life = Life(
    phase: Phase,
    generation: nat,                     // number of the current lifecycle context
    tasks: nat,
    streams: set<string>,
    active: map<string, nat>,            // request ID to registration number
    pending: map<string, int>,           // remembered cancels and their expiry
    registrations: seq<Registration>,    // every registration there ever was
    since: nat,                          // registrations older than this were dropped by a shutdown
    cleaned: set<nat>,
    cancelled: set<nat>,                 // registrations whose own cancel function has run
    owed: set<nat>,                      // cancel calls that a released lock still owes
    closeCalls: set<string>)             // streams the latest shutdown has closed so far

  function Fresh(): Life {
    Life(Running, 0, 0, {}, map[], map[], [], 0, {}, {}, {}, {})
  }

  predicate Closed(s: Life) { !s.phase.Running? }

  datatype Event =
    | Register(id: string, root: nat, now: int)
    | Cancel(id: string, remember: bool, now: int, victim: string)
    | Cleanup(e: nat)
    | Fire(e: nat)
    | BeginTask
    | EndTask
    | Track(stream: string)
    | Untrack(stream: string)
    | Shutdown
    | ShutdownCancel(e: nat)
    | ShutdownClose(stream: string)
    | ShutdownReturn
    | Reopen

  /** Tombstones that have not expired. */
  function Pruned(pending: map<string, int>, now: int): map<string, int> {
    map id | id in pending && now < pending[id] :: pending[id]
  }

  /** Evicting one tombstone makes room when the table is full. */
  function Remembered(pending: map<string, int>, id: string, now: int, victim: string): map<string, int> {
    var kept := Pruned(pending, now);
    (if |kept| >= MAX_PENDING then kept - {victim} else kept)[id := now + PENDING_TTL]
  }

  function Lookup(m: map<string, nat>, id: string): set<nat> {
    if id in m then {m[id]} else {}
  }

  /** The critical section of registerRequest. */
  function Registered(s: Life, id: string, root: nat, now: int): Life {
    if Closed(s) then s
    else
      var e := |s.registrations|;
      var t := s.(registrations := s.registrations + [Registration(id, root)]);
      if id == "" then t
      else
        var kept := Pruned(s.pending, now);
        t.(pending := kept - {id}, active := s.active[id := e],
           owed := s.owed + Lookup(s.active, id) + if id in kept then {e} else {})
  }

  /** The critical section of cancelRequest. */
  function CancelMarked(s: Life, id: string, remember: bool, now: int, victim: string): Life {
    if id == "" then s
    else if id in s.active then s.(owed := s.owed + {s.active[id]})
    else if remember then s.(pending := Remembered(s.pending, id, now, victim))
    else s
  }

  /** The critical section of a registration's cleanup; repeating it does nothing. */
  function Cleaned(s: Life, e: nat): Life
    requires e < |s.registrations|
  {
    if e in s.cleaned then s
    else
      var id := s.registrations[e].id;
      s.(cleaned := s.cleaned + {e}, owed := s.owed + {e},
         active := if id != "" && id in s.active && s.active[id] == e then s.active - {id} else s.active)
  }

  /** The critical section of shutdown. */
  function ShutDown(s: Life): Life {
    if Closed(s) then s
    else
      s.(phase := Draining(s.active.Values, s.streams, s.streams), closeCalls := {},
         active := map[], pending := map[], since := |s.registrations|)
  }

  function Reopened(s: Life): Life {
    if !Closed(s) then s
    else
      s.(phase := Running, generation := s.generation + 1, tasks := 0, streams := {}, active := map[], pending := map[])
  }

  /**
   What may happen next. A shutdown waits for its calls and for the stream tasks; reopening waits for the shutdown.
   */
  predicate Enabled(s: Life, ev: Event) {
    match ev
    case Register(_, root, _) => root <= s.generation
    case Cancel(id, _, now, victim) => |Pruned(s.pending, now)| >= MAX_PENDING ==> victim in Pruned(s.pending, now)
    case Cleanup(e) => e < |s.registrations|
    case Fire(e) => e in s.owed
    case EndTask => s.tasks > 0
    case ShutdownCancel(e) => s.phase.Draining? && e in s.phase.cancels
    case ShutdownClose(stream) => s.phase.Draining? && s.phase.cancels == {} && stream in s.phase.closes
    case ShutdownReturn => s.phase.Draining? && s.phase.cancels == {} && s.phase.closes == {} && s.tasks == 0
    case Reopen => !s.phase.Draining?
    case _ => true
  }

  function Next(s: Life, ev: Event): Life
    requires Enabled(s, ev)
  {
    match ev
    case Register(id, root, now) => Registered(s, id, root, now)
    case Cancel(id, remember, now, victim) => CancelMarked(s, id, remember, now, victim)
    case Cleanup(e) => Cleaned(s, e)
    case Fire(e) => s.(owed := s.owed - {e}, cancelled := s.cancelled + {e})
    case BeginTask => if Closed(s) then s else s.(tasks := s.tasks + 1)
    case EndTask => s.(tasks := s.tasks - 1)
    case Track(stream) => if stream == "" || Closed(s) then s else s.(streams := s.streams + {stream})
    case Untrack(stream) => s.(streams := s.streams - {stream})
    case Shutdown => ShutDown(s)
    case ShutdownCancel(e) => s.(phase := s.phase.(cancels := s.phase.cancels - {e}), cancelled := s.cancelled + {e})
    case ShutdownClose(stream) =>
      s.(phase := s.phase.(closes := s.phase.closes - {stream}), closeCalls := s.closeCalls + {stream})
    case ShutdownReturn => s.(phase := Stopped)
    case Reopen => Reopened(s)
  }

  // ---- invariants ---------------------------------------------------------

  /** The newest registration of its request ID. */
  ghost predicate Latest(s: Life, e: nat)
    requires e < |s.registrations|
  {
    forall later :: e < later < |s.registrations| ==> s.registrations[later].id != s.registrations[e].id
  }

  predicate IsActive(s: Life, e: nat)
    requires e < |s.registrations|
  {
    s.registrations[e].id in s.active && s.active[s.registrations[e].id] == e
  }

  predicate CancelUnderway(s: Life, e: nat) {
    e in s.cancelled || e in s.owed || (s.phase.Draining? && e in s.phase.cancels)
  }

  /** The context reports cancellation: its own cancel ran, or its lifecycle context was shut down. */
  predicate ContextDone(s: Life, e: nat)
    requires e < |s.registrations|
  {
    e in s.cancelled || s.registrations[e].root < s.generation || (s.registrations[e].root == s.generation && Closed(s))
  }

  /** An ID's entry is exactly its newest registration, unless that one was cleaned up or dropped by a shutdown. */
  ghost predicate EntryRule(s: Life, e: nat)
    requires e < |s.registrations|
  {
    s.registrations[e].id != "" ==> (IsActive(s, e) <==> Latest(s, e) && e >= s.since && e !in s.cleaned)
  }

  /** A named registration that lost its entry, and any cleaned one, is cancelled or about to be. */
  predicate NotForgotten(s: Life, e: nat)
    requires e < |s.registrations|
  {
    (s.registrations[e].id != "" && !IsActive(s, e)) || e in s.cleaned ==> CancelUnderway(s, e)
  }

  predicate EntryNamed(s: Life, id: string)
    requires id in s.active
  {
    id != "" && s.active[id] < |s.registrations| && s.registrations[s.active[id]].id == id
  }

  ghost predicate Registry(s: Life) {
    && s.since <= |s.registrations|
    && (forall id :: id in s.active ==> EntryNamed(s, id))
    && (forall e :: 0 <= e < |s.registrations| ==> EntryRule(s, e))
    && s.active.Keys !! s.pending.Keys
    && |s.pending| <= MAX_PENDING
    && Known(s, s.owed) && Known(s, s.cleaned) && Known(s, s.cancelled)
  }

  ghost predicate Known(s: Life, numbers: set<nat>) {
    forall e :: e in numbers ==> e < |s.registrations|
  }

  ghost predicate NoneForgotten(s: Life) {
    forall e :: 0 <= e < |s.registrations| ==> NotForgotten(s, e)
  }

  ghost predicate ShutdownSound(s: Life) {
    && (forall e :: 0 <= e < |s.registrations| ==> s.registrations[e].root <= s.generation)
    && "" !in s.streams
    && (Closed(s) ==> s.active == map[] && s.since == |s.registrations|)
    && (s.phase.Draining? ==> s.phase.tracked <= s.phase.closes + s.closeCalls)
    && (s.phase.Draining? ==> Known(s, s.phase.cancels))
    && (s.phase.Stopped? ==> s.tasks == 0)
  }

  ghost predicate Inv(s: Life) {
    Registry(s) && NoneForgotten(s) && ShutdownSound(s)
  }

  lemma FreshInv()
    ensures Inv(Fresh())
  {
  }

  lemma PrunedSize(pending: map<string, int>, now: int)
    ensures |Pruned(pending, now)| <= |pending|
    ensures Pruned(pending, now).Keys <= pending.Keys
  {
    Collections.SubsetSize(Pruned(pending, now).Keys, pending.Keys);
    assert |Pruned(pending, now)| == |Pruned(pending, now).Keys| && |pending| == |pending.Keys|;
  }

  lemma WithoutKey(m: map<string, int>, id: string)
    requires id in m
    ensures |m - {id}| == |m| - 1 && (m - {id}).Keys == m.Keys - {id}
  {
    assert (m - {id}).Keys == m.Keys - {id};
    assert |m - {id}| == |(m - {id}).Keys| && |m| == |m.Keys|;
  }

  lemma WithKey(m: map<string, int>, id: string, v: int)
    ensures |m[id := v]| <= |m| + 1 && m[id := v].Keys == m.Keys + {id}
  {
    assert m[id := v].Keys == m.Keys + {id};
    assert |m[id := v]| == |m[id := v].Keys| && |m| == |m.Keys|;
  }

  lemma RememberedBounds(pending: map<string, int>, id: string, now: int, victim: string)
    requires |pending| <= MAX_PENDING
    requires |Pruned(pending, now)| >= MAX_PENDING ==> victim in Pruned(pending, now)
    ensures |Remembered(pending, id, now, victim)| <= MAX_PENDING
    ensures Remembered(pending, id, now, victim).Keys <= pending.Keys + {id}
  {
    var kept := Pruned(pending, now);
    PrunedSize(pending, now);
    if |kept| >= MAX_PENDING {
      WithoutKey(kept, victim);
      WithKey(kept - {victim}, id, now + PENDING_TTL);
    } else {
      WithKey(kept, id, now + PENDING_TTL);
    }
  }

  /** A new registration is the newest of its ID and leaves the other IDs as they were. */
  lemma LatestAfter(s: Life, t: Life, added: Registration, e: nat)
    requires e < |s.registrations| && t.registrations == s.registrations + [added]
    ensures Latest(t, e) <==> Latest(s, e) && s.registrations[e].id != added.id
  {
    var n := |s.registrations|;
    assert t.registrations[n] == added;
    assert forall k :: 0 <= k < n ==> t.registrations[k] == s.registrations[k];
  }

  /** `t` follows `s` by one registration under `id`, whatever became of the tombstones. */
  predicate OneMore(s: Life, t: Life, id: string, root: nat) {
    var n := |s.registrations|;
    && t.registrations == s.registrations + [Registration(id, root)]
    && t.active == (if id == "" then s.active else s.active[id := n])
    && t.since == s.since && t.cleaned == s.cleaned && t.cancelled == s.cancelled && t.phase == s.phase
    && s.owed <= t.owed && (id in s.active ==> s.active[id] in t.owed)
    && t.owed <= s.owed + Lookup(s.active, id) + {n}
  }

  lemma OlderEntry(s: Life, t: Life, id: string, root: nat, e: nat)
    requires OneMore(s, t, id, root) && e < |s.registrations| && EntryRule(s, e) && NotForgotten(s, e)
    ensures EntryRule(t, e) && NotForgotten(t, e)
  {
    LatestAfter(s, t, Registration(id, root), e);
    assert t.registrations[e] == s.registrations[e];
  }

  lemma NewestEntry(s: Life, t: Life, id: string, root: nat)
    requires OneMore(s, t, id, root) && Known(s, s.cleaned) && s.since <= |s.registrations|
    ensures EntryRule(t, |s.registrations|) && NotForgotten(t, |s.registrations|)
  {
    assert t.registrations[|s.registrations|].id == id;
  }

  lemma RegisterInv(s: Life, id: string, root: nat, now: int)
    requires Inv(s) && root <= s.generation
    ensures Inv(Registered(s, id, root, now))
  {
    if !Closed(s) {
      var t := Registered(s, id, root, now);
      RegisteredPending(s, id, root, now);
      OneMoreInv(s, t, id, root);
    }
  }

  lemma OneMoreInv(s: Life, t: Life, id: string, root: nat)
    requires Inv(s) && !Closed(s) && OneMore(s, t, id, root) && root <= s.generation
    requires t.generation == s.generation && t.streams == s.streams && t.active.Keys !! t.pending.Keys
      && |t.pending| <= MAX_PENDING
    ensures Inv(t)
  {
    var n := |s.registrations|;
    forall e | 0 <= e < |t.registrations|
      ensures EntryRule(t, e) && NotForgotten(t, e) && t.registrations[e].root <= s.generation
    {
      if e < n {
        OlderEntry(s, t, id, root, e);
      } else {
        NewestEntry(s, t, id, root);
      }
    }
    forall other | other in t.active ensures EntryNamed(t, other) {
      assert other != id ==> EntryNamed(s, other);
    }
    forall e | e in t.owed ensures e <= n {
      if e in Lookup(s.active, id) { assert EntryNamed(s, id); }
    }
  }

  lemma RegisteredPending(s: Life, id: string, root: nat, now: int)
    requires Inv(s) && !Closed(s)
    ensures var t := Registered(s, id, root, now);
      OneMore(s, t, id, root) && t.active.Keys !! t.pending.Keys && |t.pending| <= MAX_PENDING
  {
    var t := Registered(s, id, root, now);
    PrunedSize(s.pending, now);
    Collections.SubsetSize(t.pending.Keys, s.pending.Keys);
    assert |t.pending| == |t.pending.Keys| && |s.pending| == |s.pending.Keys|;
  }

  lemma CancelInv(s: Life, id: string, remember: bool, now: int, victim: string)
    requires Inv(s) && Enabled(s, Cancel(id, remember, now, victim))
    ensures Inv(CancelMarked(s, id, remember, now, victim))
  {
    if id != "" && id !in s.active && remember {
      RememberedBounds(s.pending, id, now, victim);
    }
    SameEntries(s, CancelMarked(s, id, remember, now, victim));
  }

  /** A step that keeps registrations and entries, and forgets no cancel, keeps the invariants. */
  lemma SameEntries(s: Life, t: Life)
    requires Inv(s)
    requires t.registrations == s.registrations && t.active == s.active && t.since == s.since && t.cleaned == s.cleaned
    requires forall e :: CancelUnderway(s, e) ==> CancelUnderway(t, e)
    requires Known(t, t.owed) && Known(t, t.cancelled)
    requires t.active.Keys !! t.pending.Keys && |t.pending| <= MAX_PENDING
    requires ShutdownSound(t)
    ensures Inv(t)
  {
    forall e | 0 <= e < |t.registrations| ensures EntryRule(t, e) && NotForgotten(t, e) {
      assert EntryRule(s, e) && NotForgotten(s, e);
    }
    forall id | id in t.active ensures EntryNamed(t, id) {
      assert EntryNamed(s, id);
    }
  }

  lemma CleanupInv(s: Life, e: nat)
    requires Inv(s) && e < |s.registrations|
    ensures Inv(Cleaned(s, e))
  {
    var t := Cleaned(s, e);
    forall k | 0 <= k < |t.registrations| ensures EntryRule(t, k) && NotForgotten(t, k) {
      assert EntryRule(s, k) && NotForgotten(s, k);
    }
    forall id | id in t.active ensures EntryNamed(t, id) {
      assert EntryNamed(s, id);
    }
  }

  lemma ShutdownInv(s: Life)
    requires Inv(s)
    ensures Inv(ShutDown(s))
  {
    if !Closed(s) {
      var t := ShutDown(s);
      forall e | 0 <= e < |t.registrations| ensures EntryRule(t, e) && NotForgotten(t, e) {
        assert NotForgotten(s, e);
        assert IsActive(s, e) ==> e in s.active.Values;
      }
      forall e | e in s.active.Values ensures e < |s.registrations| {
        var id :| id in s.active && s.active[id] == e;
        assert EntryNamed(s, id);
      }
    }
  }

  /** A cancel call is made. */
  lemma FireInv(s: Life, e: nat)
    requires Inv(s) && e in s.owed
    ensures Inv(Next(s, Fire(e)))
  {
    SameEntries(s, Next(s, Fire(e)));
  }

  lemma ShutdownCancelInv(s: Life, e: nat)
    requires Inv(s) && Enabled(s, ShutdownCancel(e))
    ensures Inv(Next(s, ShutdownCancel(e)))
  {
    SameEntries(s, Next(s, ShutdownCancel(e)));
  }

  /** The events about stream tasks and host streams. */
  lemma StreamInv(s: Life, ev: Event)
    requires Inv(s) && (ev.BeginTask? || ev.EndTask? || ev.Track? || ev.Untrack?) && Enabled(s, ev)
    ensures Inv(Next(s, ev))
  {
    SameEntries(s, Next(s, ev));
  }

  lemma ShutdownEndInv(s: Life, ev: Event)
    requires Inv(s) && (ev.ShutdownClose? || ev.ShutdownReturn?) && Enabled(s, ev)
    ensures Inv(Next(s, ev))
  {
    SameEntries(s, Next(s, ev));
  }

  lemma ReopenInv(s: Life)
    requires Inv(s) && !s.phase.Draining?
    ensures Inv(Reopened(s))
  {
    SameEntries(s, Reopened(s));
  }

  /** Every event of every interleaving keeps the invariants. */
  lemma NextInv(s: Life, ev: Event)
    requires Inv(s) && Enabled(s, ev)
    ensures Inv(Next(s, ev))
  {
    match ev
    case Register(id, root, now) => RegisterInv(s, id, root, now);
    case Cancel(id, remember, now, victim) => CancelInv(s, id, remember, now, victim);
    case Cleanup(e) => CleanupInv(s, e);
    case Shutdown => ShutdownInv(s);
    case Reopen => ReopenInv(s);
    case Fire(e) => FireInv(s, e);
    case ShutdownCancel(e) => ShutdownCancelInv(s, e);
    case ShutdownClose(_) => ShutdownEndInv(s, ev);
    case ShutdownReturn => ShutdownEndInv(s, ev);
    case _ => StreamInv(s, ev);
  }

  /** A shutdown that has made all its cancel calls, or all its close calls. */
  lemma DrainedInv(s: Life)
    requires Inv(s) && s.phase.Draining?
    ensures Inv(CancelsDrained(s)) && Inv(ClosesDrained(s))
  {
    SameEntries(s, CancelsDrained(s));
    SameEntries(s, ClosesDrained(s));
  }

  function CancelsDrained(s: Life): Life
    requires s.phase.Draining?
  {
    s.(phase := s.phase.(cancels := {}), cancelled := s.cancelled + s.phase.cancels)
  }

  function ClosesDrained(s: Life): Life
    requires s.phase.Draining?
  {
    s.(phase := s.phase.(closes := {}), closeCalls := s.closeCalls + s.phase.closes)
  }
}
