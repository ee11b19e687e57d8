/**
 The credential scheduler of one request: which credential the host may dispatch next, how often
 each one is retried within a round, and which ones are out for good.
 */
module Scheduler {
  import opened Wrappers
  import Ids

  datatype Candidate = Candidate(id: string, priority: int)

  /** The scheduler's fields as a value. An empty `authID` means that nothing is pinned. */
  datatype State = State(
    authID: string,
    retries: int,
    failures: int,
    dispatched: bool,
    exhausted: set<string>,
    excluded: set<string>,
    candidates: set<string>,
    round: int,
    newRound: bool,
    deferred: bool)

  datatype PickResponse = Unhandled | Reject | Use(authID: string)

  function Initial(retries: int): State {
    State("", retries, 0, false, {}, {}, {}, 1, false, false)
  }

  // ---- selection ----------------------------------------------------------

  /** `a` goes before `b`: higher priority first, equal priorities by ID. */
  predicate Better(a: Candidate, b: Candidate) {
    a.priority > b.priority || (a.priority == b.priority && Ids.Less(a.id, b.id))
  }

  predicate Eligible(s: State, c: Candidate, nextRound: bool) {
    && c.id != ""
    && c.id !in s.excluded
    && (c.id in s.exhausted ==> nextRound)
    && (s.authID != "" ==> c.id == s.authID)
  }

  /** The best eligible offer, or none when no offer is eligible. */
  ghost predicate IsSelection(s: State, offers: seq<Candidate>, nextRound: bool, r: Option<Candidate>) {
    if r.None? then forall c :: c in offers ==> !Eligible(s, c, nextRound)
    else
      && r.value in offers && Eligible(s, r.value, nextRound)
      && forall c :: c in offers && Eligible(s, c, nextRound) ==> !Better(c, r.value)
  }

  /** The order is total, so the best offer is one value whatever the order of the offers. */
  lemma SelectionUnique(s: State, offers: seq<Candidate>, nextRound: bool, a: Option<Candidate>, b: Option<Candidate>)
    requires IsSelection(s, offers, nextRound, a) && IsSelection(s, offers, nextRound, b)
    ensures a == b
  {
    if a.Some? && b.Some? { Ids.Connected(a.value.id, b.value.id); }
  }

  lemma BetterIsStrictOrder(a: Candidate, b: Candidate, c: Candidate)
    ensures !Better(a, a)
    ensures a == b || Better(a, b) || Better(b, a)
    ensures Better(a, b) && Better(b, c) ==> Better(a, c)
  {
    Ids.Irreflexive(a.id);
    Ids.Connected(a.id, b.id);
    if Ids.Less(a.id, b.id) && Ids.Less(b.id, c.id) { Ids.Transitive(a.id, b.id, c.id); }
  }

  /** One more offer: it replaces the selection only when it is eligible and better. */
  function KeepBetter(s: State, nextRound: bool, selected: Option<Candidate>, c: Candidate): Option<Candidate> {
    if Eligible(s, c, nextRound) && (selected.None? || Better(c, selected.value)) then Some(c) else selected
  }

  function Selection(s: State, offers: seq<Candidate>, nextRound: bool): Option<Candidate> {
    if offers == [] then None
    else KeepBetter(s, nextRound, Selection(s, offers[..|offers| - 1], nextRound), offers[|offers| - 1])
  }

  lemma {:induction false} SelectionIsBest(s: State, offers: seq<Candidate>, nextRound: bool)
    ensures IsSelection(s, offers, nextRound, Selection(s, offers, nextRound))
  {
    if offers != [] {
      var n := |offers| - 1;
      var c := offers[n];
      SelectionIsBest(s, offers[..n], nextRound);
      var before := Selection(s, offers[..n], nextRound);
      var r := Selection(s, offers, nextRound);
      assert offers == offers[..n] + [c];
      if r.Some? {
        forall d | d in offers && Eligible(s, d, nextRound) ensures !Better(d, r.value) {
          BetterIsStrictOrder(c, c, c);
          if before.Some? { BetterIsStrictOrder(d, c, before.value); }
        }
      }
    }
  }

  // ---- the atomic steps, one per mutex region -----------------------------

  /** Start of a host call: the per-call flags are cleared and the pin is read. */
  function Prepared(s: State): State {
    s.(dispatched := false, newRound := false, deferred := false)
  }

  /** The pinned credential leaves: out of this round, or out of the whole request. */
  function Retired(s: State, exhausted: bool): State {
    var s' := s.(authID := "", failures := 0);
    if s.authID == "" then s'
    else if exhausted then s'.(exhausted := s.exhausted + {s.authID})
    else s'.(excluded := s.excluded + {s.authID})
  }

  /** The bookkeeping after a failed attempt that will be retried. */
  function AfterFailure(s: State, retryable: bool): State {
    if s.authID == "" then s
    else if !s.dispatched || !retryable then Retired(s, false)
    else if s.failures + 1 > s.retries then Retired(s, true)
    else s.(failures := s.failures + 1)
  }

  predicate MayRelease(s: State, maxAttempts: int, attempt: int) {
    !(maxAttempts > 0 && attempt >= maxAttempts) && s.deferred && s.authID != ""
  }

  function OfferedIDs(offers: seq<Candidate>): set<string> {
    set c | c in offers && c.id != "" :: c.id
  }

  lemma OfferedOneMore(offers: seq<Candidate>, c: Candidate)
    ensures OfferedIDs(offers + [c]) == OfferedIDs(offers) + if c.id != "" then {c.id} else {}
  {
    assert forall d :: d in offers + [c] <==> d in offers || d == c;
    assert c.id != "" ==> c in offers + [c] && c.id in OfferedIDs(offers + [c]);
  }

  /** One scheduler callback of the host. */
  function Pick(s: State, offers: seq<Candidate>): (State, PickResponse) {
    if s.dispatched then (s.(deferred := true), Reject)
    else
      var seen := s.(candidates := s.candidates + OfferedIDs(offers));
      var now := Selection(seen, offers, false);
      var next := if now.None? && s.authID == "" && s.exhausted != {} then Selection(seen, offers, true) else None;
      if now.Some? then (Dispatch(seen, now.value.id), Use(now.value.id))
      else if next.Some? then
        (Dispatch(seen.(exhausted := {}, round := s.round + 1, newRound := true), next.value.id), Use(next.value.id))
      else (seen, Reject)
  }

  function Dispatch(s: State, id: string): State {
    s.(authID := if s.authID == "" then id else s.authID, dispatched := true)
  }

  // ---- the invariant of every step ----------------------------------------

  predicate Valid(s: State) {
    && s.exhausted !! s.excluded
    && s.exhausted + s.excluded <= s.candidates
    && "" !in s.candidates
    && (s.authID != "" ==> s.authID in s.candidates && s.authID !in s.exhausted && s.authID !in s.excluded)
    && 0 <= s.failures <= s.retries
    && (s.authID == "" ==> s.failures == 0)
    && (s.deferred || s.newRound ==> s.dispatched)
    && s.round >= 1
  }

  /** While a host call is in flight, whatever it dispatched is pinned. */
  predicate InCall(s: State) {
    Valid(s) && (s.dispatched ==> s.authID != "")
  }

  lemma InitialValid(retries: int)
    requires retries >= 0
    ensures Valid(Initial(retries))
  {
  }

  /** Nothing bars this offer for good: it has an ID, is not excluded, and is the pinned one when there is a pin. */
  predicate Dispatchable(s: State, c: Candidate) {
    c.id != "" && c.id !in s.excluded && (s.authID != "" ==> c.id == s.authID)
  }

  /**
   The first pick of a call dispatches exactly when the host offers something dispatchable: exhausted credentials
   never starve a request.
   A pick that dispatches does so at most once per call, never an excluded credential, and only the pinned one
   when there is a pin. It opens a new round only when every offered ID is exhausted or excluded and at
   least one is merely exhausted; a rejection changes nothing but `deferred` and `candidates`.
   */
  lemma PickRules(s: State, offers: seq<Candidate>)
    requires InCall(s)
    ensures var (t, response) := Pick(s, offers);
      && InCall(t)
      && t.retries == s.retries && t.excluded == s.excluded && t.failures == s.failures
      && t.candidates == s.candidates + (if s.dispatched then {} else OfferedIDs(offers))
      && response != Unhandled
      && (!s.dispatched ==> (response.Use? <==> exists c :: c in offers && Dispatchable(s, c)))
      && (s.dispatched ==> response == Reject)
      && (response.Reject? ==>
            && t == s.(candidates := t.candidates, deferred := t.deferred)
            && t.deferred == (s.deferred || s.dispatched))
      && (response.Use? ==>
            && t.dispatched && !t.deferred && t.authID == response.authID
            && response.authID in OfferedIDs(offers) && response.authID !in s.excluded
            && (s.authID != "" ==> response.authID == s.authID && t.round == s.round && t.exhausted == s.exhausted)
            && (t.round == s.round ==> t.exhausted == s.exhausted && response.authID !in s.exhausted)
            && (t.round != s.round ==>
                  && t.round == s.round + 1 && t.exhausted == {} && s.authID == ""
                  && OfferedIDs(offers) <= s.exhausted + s.excluded
                  && response.authID in s.exhausted))
  {
    var seen := s.(candidates := s.candidates + OfferedIDs(offers));
    SelectionIsBest(seen, offers, false);
    SelectionIsBest(seen, offers, true);
    var now, next := Selection(seen, offers, false), Selection(seen, offers, true);
    if now.Some? { assert now.value.id in OfferedIDs(offers); }
    if next.Some? { assert next.value.id in OfferedIDs(offers); }
    if !s.dispatched { PickDispatches(s, seen, offers, now, next); }
    if !s.dispatched && now.None? && s.authID == "" {
      forall id | id in OfferedIDs(offers) ensures id in s.exhausted + s.excluded {
        var c :| c in offers && c.id == id;
        assert !Eligible(seen, c, false);
      }
    }
  }

  lemma PickDispatches(s: State, seen: State, offers: seq<Candidate>, now: Option<Candidate>, next: Option<Candidate>)
    requires InCall(s) && seen == s.(candidates := seen.candidates)
    requires IsSelection(seen, offers, false, now) && IsSelection(seen, offers, true, next)
    ensures now.Some? || (next.Some? && s.authID == "" && s.exhausted != {})
       <==> exists c :: c in offers && Dispatchable(s, c)
  {
    if now.Some? { assert Dispatchable(s, now.value); }
    if next.Some? { assert Dispatchable(s, next.value); }
    if c :| c in offers && Dispatchable(s, c) {
      assert Eligible(seen, c, true);
      assert c.id !in s.exhausted ==> Eligible(seen, c, false);
    }
  }

  /** Every other step keeps the invariant; the set of excluded credentials only grows. */
  lemma StepsKeepValid(s: State, flag: bool)
    requires Valid(s)
    ensures InCall(Prepared(s)) && Prepared(s).excluded == s.excluded
    ensures Valid(Retired(s, flag)) && s.excluded <= Retired(s, flag).excluded
    ensures Valid(AfterFailure(s, flag)) && s.excluded <= AfterFailure(s, flag).excluded
  {
  }

  /** The scheduler after `n` dispatched failures of the pinned credential that match a rule. */
  function FailedTimes(s: State, n: nat): State {
    if n == 0 then s else AfterFailure(FailedTimes(s, n - 1).(dispatched := true), true)
  }

  /** A credential stays pinned through as many matching failures as there are retries; one more exhausts it. */
  lemma {:induction false} FailureBudget(s: State, n: nat)
    requires s.authID != "" && s.failures == 0 <= s.retries && n <= s.retries + 1
    ensures var t := FailedTimes(s, n);
      if n <= s.retries then t == s.(failures := n, dispatched := t.dispatched)
      else t == s.(authID := "", failures := 0, exhausted := s.exhausted + {s.authID}, dispatched := true)
  {
    if n > 0 { FailureBudget(s, n - 1); }
  }

  /** Any other failure puts it out for the rest of the request. */
  lemma OtherFailureExcludes(s: State, retryable: bool)
    requires s.authID != "" && !(s.dispatched && retryable)
    ensures AfterFailure(s, retryable) == s.(authID := "", failures := 0, excluded := s.excluded + {s.authID})
  {
  }
}
