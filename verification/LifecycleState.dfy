/**
 The mutable lifecycle object. A context is known by its registration number; `cancelled` holds those whose cancel
 ran.
 */
module LifecycleState {
  import opened Wrappers
  import opened Lifecycle

  function Found(m: map<string, nat>, id: string): Option<nat> {
    if id in m then Some(m[id]) else None
  }

  /** After these cancel calls have been made. */
  function Fired(s: Life, entries: set<nat>): Life {
    s.(cancelled := s.cancelled + entries, owed := s.owed - entries)
  }

  /** The cancel calls a registration owes when it unlocks. */
  function Due(s: Life, id: string, now: int): set<nat> {
    if Closed(s) || id == "" then {}
    else Lookup(s.active, id) + if id in Pruned(s.pending, now) then {|s.registrations|} else {}
  }

  function Listed(e: Option<nat>): set<nat> {
    if e.Some? then {e.value} else {}
  }

  /** Firing one after the other is firing both. */
  lemma FiredParts(s: Life, a: Option<nat>, b: Option<nat>)
    ensures a.None? ==> Fired(s, Listed(a)) == s
    ensures b.None? ==> Fired(Fired(s, Listed(a)), Listed(b)) == Fired(s, Listed(a))
    ensures Fired(Fired(s, Listed(a)), Listed(b)) == Fired(s, Listed(a) + Listed(b))
  {
  }

  /** What is due is owed once the registration is made, and it is not due to itself as its own predecessor. */
  lemma DueIsOwed(s: Life, id: string, root: nat, now: int, previous: Option<nat>, self: Option<nat>)
    requires Inv(s)
    requires previous == if Closed(s) || id == "" then None else Found(s.active, id)
    requires self == if !Closed(s) && id != "" && id in Pruned(s.pending, now) then Some(|s.registrations|) else None
    ensures Listed(previous) + Listed(self) == Due(s, id, now) <= Registered(s, id, root, now).owed
    ensures previous.Some? ==> previous != self
  {
    if id in s.active { assert EntryNamed(s, id); }
  }

  class PluginLifecycle {
    var closed: bool
    var generation: nat
    var streamTasks: nat
    var activeHostStreams: set<string>
    var activeRequests: map<string, nat>
    var pendingCancels: map<string, int>
    var registrations: seq<Registration>
    var cleaned: set<nat>
    var cancelled: set<nat>
    var closeCalls: set<string>
    ghost var phase: Phase
    ghost var since: nat
    ghost var owed: set<nat>

    ghost function View(): Life
      reads this
    {
      Life(phase, generation, streamTasks, activeHostStreams, activeRequests, pendingCancels, registrations, since,
           cleaned, cancelled, owed, closeCalls)
    }

    /** The flag and the ghost phase agree. */
    ghost predicate Agrees()
      reads this
    {
      closed <==> Closed(View())
    }

    /** Every invariant of the state machine holds. */
    ghost predicate Valid()
      reads this
    {
      Agrees() && Inv(View())
    }

    constructor ()
      ensures Valid() && View() == Fresh()
    {
      closed, generation, streamTasks := false, 0, 0;
      activeHostStreams, activeRequests, pendingCancels := {}, map[], map[];
      registrations, cleaned, cancelled, closeCalls := [], {}, {}, {};
      phase, since, owed := Running, 0, {};
      FreshInv();
    }

    method Prune(now: int)
      modifies this`pendingCancels
      ensures pendingCancels == Pruned(old(pendingCancels), now)
    {
      var ids := pendingCancels.Keys;
      ghost var visited: set<string> := {};
      while ids != {}
        invariant visited !! ids && visited + ids == old(pendingCancels.Keys)
        invariant pendingCancels
               == map id | id in old(pendingCancels) && (id in visited ==> now < old(pendingCancels)[id])
                         :: old(pendingCancels)[id]
        decreases ids
      {
        var id :| id in ids;
        if now >= pendingCancels[id] {
          pendingCancels := pendingCancels - {id};
        }
        ids, visited := ids - {id}, visited + {id};
      }
    }

    /** A new registration takes over its request ID: what it supersedes, and whether a tombstone was waiting. */
    method TakeOver(id: string, e: nat, now: int) returns (previous: Option<nat>, pendingCancel: bool)
      modifies this`pendingCancels, this`activeRequests, this`owed
      ensures pendingCancels == Pruned(old(pendingCancels), now) - {id}
        && activeRequests == old(activeRequests)[id := e]
      ensures previous == Found(old(activeRequests), id) && (pendingCancel <==> id in Pruned(old(pendingCancels), now))
      ensures owed == old(owed) + Lookup(old(activeRequests), id) + if pendingCancel then {e} else {}
    {
      previous, pendingCancel := None, false;
      Prune(now);
      if id in pendingCancels {
        pendingCancel := now < pendingCancels[id];
        pendingCancels := pendingCancels - {id};
      }
      if id in activeRequests {
        previous := Some(activeRequests[id]);
      }
      owed := owed + Lookup(activeRequests, id) + if pendingCancel then {e} else {};
      activeRequests := activeRequests[id := e];
    }

    /** The assignments of registerRequest's critical section. */
    method Enter(root: nat, id: string, now: int)
      returns (entry: Option<nat>, previous: Option<nat>, pendingCancel: bool)
      requires Agrees()
      modifies this
      ensures Agrees() && View() == Registered(old(View()), id, root, now)
      ensures entry == if old(closed) then None else Some(old(|registrations|))
      ensures previous == if old(closed) || id == "" then None else Found(old(activeRequests), id)
      ensures pendingCancel <==> !old(closed) && id != "" && id in Pruned(old(pendingCancels), now)
    {
      entry, previous, pendingCancel := None, None, false;
      if closed {
        return;
      }
      entry := Some(|registrations|);
      registrations := registrations + [Registration(id, root)];
      if id != "" {
        previous, pendingCancel := TakeOver(id, entry.value, now);
      }
    }

    /** registerRequest up to its unlock: the new entry, the one it supersedes, and whether a tombstone was waiting. */
    method RegisterLocked(root: nat, id: string, now: int)
      returns (entry: Option<nat>, previous: Option<nat>, pendingCancel: bool)
      requires Valid() && root <= generation
      modifies this
      ensures Valid() && View() == Registered(old(View()), id, root, now)
      ensures entry == if old(closed) then None else Some(old(|registrations|))
      ensures previous == if old(closed) || id == "" then None else Found(old(activeRequests), id)
      ensures pendingCancel <==> !old(closed) && id != "" && id in Pruned(old(pendingCancels), now)
    {
      RegisterInv(View(), id, root, now);
      entry, previous, pendingCancel := Enter(root, id, now);
    }

    /** One owed cancel call. */
    method FireCancel(e: nat)
      requires Valid() && e in owed
      modifies this
      ensures Valid() && View() == Fired(old(View()), {e})
    {
      FireInv(View(), e);
      cancelled := cancelled + {e};
      owed := owed - {e};
    }

    /** The calls that a registration owes after its unlock, one after the other. */
    method FireBoth(previous: Option<nat>, self: Option<nat>)
      requires Valid() && Listed(previous) + Listed(self) <= owed && (previous.Some? ==> previous != self)
      modifies this
      ensures Valid() && View() == Fired(old(View()), Listed(previous) + Listed(self))
    {
      FiredParts(View(), previous, self);
      if previous.Some? {
        FireCancel(previous.value);
      }
      if self.Some? {
        FireCancel(self.value);
      }
    }

    /**
     registerRequest without interference: the new entry is registered, and the cancel calls it owes (to the one it
     supersedes, and to itself when a tombstone waited) are all made.
     */
    method RegisterRequest(root: nat, requestID: string, now: int) returns (entry: Option<nat>)
      requires Valid() && root <= generation
      modifies this
      ensures Valid() && entry == if old(closed) then None else Some(old(|registrations|))
      ensures var id := NormalizeRequestID(requestID);
        View() == Fired(Registered(old(View()), id, root, now), Due(old(View()), id, now))
    {
      var id := NormalizeRequestID(requestID);
      ghost var before := View();
      var previous, pendingCancel;
      entry, previous, pendingCancel := RegisterLocked(root, id, now);
      var self := if pendingCancel then entry else None;
      DueIsOwed(before, id, root, now, previous, self);
      FireBoth(previous, self);
    }

    /** cancelRequest up to its unlock. */
    method CancelLocked(id: string, remember: bool, now: int) returns (entry: Option<nat>, victim: string)
      requires Valid()
      modifies this
      ensures Enabled(old(View()), Cancel(id, remember, now, victim))
      ensures Valid() && View() == CancelMarked(old(View()), id, remember, now, victim)
      ensures entry == if id == "" then None else Found(old(activeRequests), id)
    {
      victim := "";
      var kept := Pruned(pendingCancels, now);
      if |kept| >= MAX_PENDING {
        assert kept != map[];
        victim :| victim in kept;
      }
      CancelInv(View(), id, remember, now, victim);
      entry := None;
      if id == "" {
        return;
      }
      if id in activeRequests {
        entry := Some(activeRequests[id]);
        owed := owed + {activeRequests[id]};
      } else if remember {
        Prune(now);
        if |pendingCancels| >= MAX_PENDING {
          pendingCancels := pendingCancels - {victim};
        }
        pendingCancels := pendingCancels[id := now + PENDING_TTL];
      }
    }

    /**
     cancelRequest without interference: an active entry is cancelled, otherwise the cancel is remembered or ignored.
     */
    method CancelRequest(requestID: string, remember: bool, now: int) returns (matched: bool, ghost victim: string)
      requires Valid()
      modifies this
      ensures Valid() && Enabled(old(View()), Cancel(NormalizeRequestID(requestID), remember, now, victim))
      ensures var id := NormalizeRequestID(requestID);
        matched <==> id != "" && (id in old(activeRequests) || remember)
      ensures var id := NormalizeRequestID(requestID);
        View() == if id != "" && id in old(activeRequests) then Fired(old(View()), {old(activeRequests)[id]})
                  else CancelMarked(old(View()), id, remember, now, victim)
    {
      var id := NormalizeRequestID(requestID);
      var entry, evicted := CancelLocked(id, remember, now);
      victim := evicted;
      if id == "" {
        return false, victim;
      }
      if entry.None? {
        return remember, victim;
      }
      FireCancel(entry.value);
      matched := true;
    }

    /** The assignments of a cleanup's critical section. */
    method Leave(e: nat)
      requires Agrees() && e < |registrations|
      modifies this`cleaned, this`owed, this`activeRequests
      ensures View() == Cleaned(old(View()), e)
    {
      if e in cleaned {
        return;
      }
      var id := registrations[e].id;
      cleaned := cleaned + {e};
      owed := owed + {e};
      if id != "" && id in activeRequests && activeRequests[id] == e {
        activeRequests := activeRequests - {id};
      }
    }

    /** The cleanup function of a registration: its first call up to the unlock, nothing on later ones. */
    method CleanupLocked(e: nat)
      requires Valid() && e < |registrations|
      modifies this
      ensures Valid() && View() == Cleaned(old(View()), e)
    {
      CleanupInv(View(), e);
      Leave(e);
    }

    method BeginStreamTask() returns (context: Option<nat>)
      requires Valid()
      modifies this
      ensures Valid() && View() == Next(old(View()), BeginTask)
      ensures context == if old(closed) then None else Some(generation)
    {
      StreamInv(View(), BeginTask);
      if closed {
        return None;
      }
      streamTasks := streamTasks + 1;
      context := Some(generation);
    }

    method EndStreamTask()
      requires Valid() && streamTasks > 0
      modifies this
      ensures Valid() && View() == Next(old(View()), EndTask)
    {
      StreamInv(View(), EndTask);
      streamTasks := streamTasks - 1;
    }

    method TrackHostStream(stream: string) returns (ok: bool)
      requires Valid()
      modifies this
      ensures Valid() && View() == Next(old(View()), Track(stream))
      ensures ok <==> stream == "" || !old(closed)
    {
      StreamInv(View(), Track(stream));
      if stream == "" {
        return true;
      }
      if closed {
        return false;
      }
      activeHostStreams := activeHostStreams + {stream};
      ok := true;
    }

    method UntrackHostStream(stream: string)
      requires Valid()
      modifies this
      ensures Valid() && View() == Next(old(View()), Untrack(stream))
    {
      StreamInv(View(), Untrack(stream));
      if stream == "" {
        return;
      }
      activeHostStreams := activeHostStreams - {stream};
    }

    /** The assignments of shutdown's critical section. */
    method Close() returns (cancels: set<nat>, streams: set<string>)
      requires Agrees()
      modifies this
      ensures Agrees() && View() == ShutDown(old(View()))
      ensures !old(closed) ==> phase == Draining(cancels, streams, streams)
      ensures old(closed) ==> cancels == {} && streams == {}
    {
      if closed {
        return {}, {};
      }
      closed := true;
      closeCalls := {};
      streams := activeHostStreams;
      cancels := activeRequests.Values;
      phase := Draining(cancels, streams, streams);
      since := |registrations|;
      activeRequests, pendingCancels := map[], map[];
    }

    /** shutdown up to its unlock: what this call must cancel and close, nothing when it is not the first. */
    method ShutdownLocked() returns (cancels: set<nat>, streams: set<string>)
      requires Valid()
      modifies this
      ensures Valid() && View() == ShutDown(old(View()))
      ensures !old(closed) ==> phase == Draining(cancels, streams, streams)
      ensures old(closed) ==> cancels == {} && streams == {}
    {
      ShutdownInv(View());
      cancels, streams := Close();
    }

    method CancelAll(cancels: set<nat>)
      requires phase.Draining? && phase.cancels == cancels
      modifies this`phase, this`cancelled
      ensures View() == CancelsDrained(old(View()))
    {
      var left := cancels;
      while left != {}
        invariant left <= cancels
        invariant phase == old(phase).(cancels := left) && cancelled == old(cancelled) + (cancels - left)
        decreases left
      {
        var e :| e in left;
        assert cancels - (left - {e}) == (cancels - left) + {e};
        cancelled := cancelled + {e};
        left := left - {e};
        phase := phase.(cancels := left);
      }
      assert cancels - left == cancels;
    }

    /** The first loop of shutdown after its unlock: cancel what was active. */
    method DrainCancels(cancels: set<nat>)
      requires Valid() && phase.Draining? && phase.cancels == cancels
      modifies this`phase, this`cancelled
      ensures Valid() && View() == CancelsDrained(old(View()))
    {
      DrainedInv(View());
      CancelAll(cancels);
    }

    method CloseAll(streams: set<string>)
      requires phase.Draining? && phase.closes == streams
      modifies this`phase, this`closeCalls
      ensures View() == ClosesDrained(old(View()))
    {
      var open := streams;
      while open != {}
        invariant open <= streams
        invariant phase == old(phase).(closes := open) && closeCalls == old(closeCalls) + (streams - open)
        decreases open
      {
        var stream :| stream in open;
        assert streams - (open - {stream}) == (streams - open) + {stream};
        closeCalls := closeCalls + {stream};
        open := open - {stream};
        phase := phase.(closes := open);
      }
      assert streams - open == streams;
    }

    /** The second loop: close the host streams that were tracked. */
    method DrainCloses(streams: set<string>)
      requires Valid() && phase.Draining? && phase.cancels == {} && phase.closes == streams
      modifies this`phase, this`closeCalls
      ensures Valid() && View() == ClosesDrained(old(View()))
    {
      DrainedInv(View());
      CloseAll(streams);
    }

    /** The assignments of reopen's critical section. */
    method Reset()
      requires Agrees() && closed
      modifies this`closed, this`generation, this`streamTasks, this`activeHostStreams, this`activeRequests,
               this`pendingCancels, this`phase
      ensures Agrees() && View() == Reopened(old(View()))
    {
      generation := generation + 1;
      closed := false;
      streamTasks := 0;
      activeHostStreams := {};
      activeRequests, pendingCancels := map[], map[];
      phase := Running;
    }

    method ReopenLifecycle()
      requires Valid() && !phase.Draining?
      modifies this
      ensures Valid() && View() == Reopened(old(View()))
    {
      ReopenInv(View());
      if closed {
        Reset();
      }
    }
  }
}
