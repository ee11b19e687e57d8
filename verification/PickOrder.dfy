/** Which credential a callback is given: the highest priority first, and the first ID byte by byte among equals. */
module PickOrder {
  import opened Wrappers
  import opened Scheduler
  import Ids

  /** `a` comes before `b`: it is a shorter beginning of it, or smaller at the first byte where they differ. */
  ghost predicate Before(a: string, b: string) {
    exists k: nat :: DifferAt(a, b, k)
  }

  predicate DifferAt(a: string, b: string, k: nat) {
    k <= |a| && k < |b| && a[..k] == b[..k] && (k == |a| || a[k] < b[k])
  }

  lemma {:induction false} LessDiffers(a: string, b: string) returns (k: nat)
    requires Ids.Less(a, b)
    ensures DifferAt(a, b, k)
  {
    k := 0;
    if a != [] && a[0] == b[0] {
      var rest := LessDiffers(a[1..], b[1..]);
      k := rest + 1;
      assert a[..k] == [a[0]] + a[1..][..rest] && b[..k] == [b[0]] + b[1..][..rest];
    }
  }

  lemma {:induction false} DifferingIsLess(a: string, b: string, k: nat)
    requires DifferAt(a, b, k)
    ensures Ids.Less(a, b)
  {
    if k > 0 {
      assert a[0] == a[..k][0] && b[0] == b[..k][0];
      assert a[1..][..k - 1] == a[..k][1..] && b[1..][..k - 1] == b[..k][1..];
      DifferingIsLess(a[1..], b[1..], k - 1);
    }
  }

  lemma LessExactly(a: string, b: string)
    ensures Ids.Less(a, b) <==> Before(a, b)
  {
    if Ids.Less(a, b) { var k := LessDiffers(a, b); }
    if k: nat :| DifferAt(a, b, k) { DifferingIsLess(a, b, k); }
  }

  /** The offer may be taken now: not excluded, not against the pin, and not exhausted unless a round begins. */
  predicate Open(s: State, c: Candidate, newRound: bool) {
    c.id != "" && c.id !in s.excluded && (newRound || c.id !in s.exhausted) && (s.authID != "" ==> c.id == s.authID)
  }

  /** No offer that may be taken has a higher priority, nor the same one and an earlier ID. */
  ghost predicate Foremost(s: State, offers: seq<Candidate>, newRound: bool, r: Candidate) {
    && r in offers && Open(s, r, newRound)
    && forall c :: c in offers && Open(s, c, newRound) ==>
         c.priority <= r.priority && (c.priority == r.priority ==> c.id == r.id || Before(r.id, c.id))
  }

  lemma SelectionForemost(s: State, offers: seq<Candidate>, newRound: bool, r: Candidate)
    requires IsSelection(s, offers, newRound, Some(r))
    ensures Foremost(s, offers, newRound, r)
  {
    forall c | c in offers && Open(s, c, newRound)
      ensures c.priority <= r.priority && (c.priority == r.priority ==> c.id == r.id || Before(r.id, c.id))
    {
      assert Eligible(s, c, newRound) && !Better(c, r);
      Ids.Connected(c.id, r.id);
      LessExactly(r.id, c.id);
    }
  }

  /** The credential a callback is given is the foremost offer, in this round or in the one that it begins. */
  lemma PickForemost(s: State, offers: seq<Candidate>)
    requires InCall(s) && !s.dispatched && Pick(s, offers).1.Use?
    ensures var (t, response) := Pick(s, offers);
      exists r: Candidate :: r.id == response.authID && Foremost(s, offers, t.round != s.round, r)
  {
    var seen := s.(candidates := s.candidates + OfferedIDs(offers));
    SelectionIsBest(seen, offers, false);
    SelectionIsBest(seen, offers, true);
    var now, next := Selection(seen, offers, false), Selection(seen, offers, true);
    if now.Some? { SelectionForemost(seen, offers, false, now.value); }
    if next.Some? { SelectionForemost(seen, offers, true, next.value); }
    forall c: Candidate, newRound: bool ensures Open(seen, c, newRound) <==> Open(s, c, newRound) { }
    var r := if now.Some? then now.value else next.value;
    assert Foremost(s, offers, now.None?, r);
  }
}
