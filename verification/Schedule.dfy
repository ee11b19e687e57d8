/**
 The whole schedule in closed form, for a host that keeps offering the same credentials while every dispatch
 fails: by a retry rule, or, for a fixed set of credentials, outside the rules but asking for failover.
 */
module Schedule {
  import opened Wrappers
  import opened Config
  import opened RetryRules
  import opened Scheduler
  import opened Cooldown
  import opened RetryLoop
  import opened Turns
  import Arith

  // ---- the closed form ----------------------------------------------------

  /** Distinct non-empty IDs, best first. */
  ghost predicate Ordered(l: seq<Candidate>) {
    && (forall i :: 0 <= i < |l| ==> l[i].id != "")
    && (forall i, j :: 0 <= i < j < |l| ==> Better(l[i], l[j]) && l[i].id != l[j].id)
  }

  function Repeat(id: string, n: nat): (r: seq<string>)
    ensures |r| == n && forall i :: 0 <= i < n ==> r[i] == id
  {
    seq(n, _ => id)
  }

  /** One credential's share of a round: a single dispatch if it will be retired, else the full budget. */
  function Share(c: Candidate, x: set<string>, r: nat): seq<string> {
    if c.id in x then [c.id] else Repeat(c.id, r + 1)
  }

  function Blocks(l: seq<Candidate>, x: set<string>, r: nat): seq<string> {
    if l == [] then [] else Blocks(l[..|l| - 1], x, r) + Share(l[|l| - 1], x, r)
  }

  /** The credentials that survive the first round, in order. */
  function Live(l: seq<Candidate>, x: set<string>): seq<Candidate> {
    if l == [] then []
    else Live(l[..|l| - 1], x) + if l[|l| - 1].id in x then [] else [l[|l| - 1]]
  }

  function IDs(l: seq<Candidate>): set<string> {
    set c | c in l :: c.id
  }

  /** Dispatch number k, counted from zero: round one goes through everybody, later rounds through the survivors. */
  function Nth(l: seq<Candidate>, x: set<string>, r: nat, k: nat): Sent
    requires Scheduled(l, x, r, k)
  {
    Entry(Blocks(l, x, r), Blocks(Live(l, x), x, r), k)
  }

  predicate Scheduled(l: seq<Candidate>, x: set<string>, r: nat, k: nat) {
    HasEntry(Blocks(l, x, r), Blocks(Live(l, x), x, r), k)
  }

  predicate HasEntry(first: seq<string>, later: seq<string>, k: nat) {
    k < |first| || |later| > 0
  }

  /** Entry k when round one is `first` and every later round is `later`. */
  function Entry(first: seq<string>, later: seq<string>, k: nat): Sent
    requires HasEntry(first, later, k)
  {
    if k < |first| then Sent(first[k], 1)
    else Sent(later[(k - |first|) % |later|], 2 + (k - |first|) / |later|)
  }

  /** The same entry, found round by round. */
  function Slot(first: seq<string>, later: seq<string>, k: nat): Sent
    requires HasEntry(first, later, k)
  {
    if k < |first| then Sent(first[k], 1) else Cyclic(later, k - |first|, 2)
  }

  function Cyclic(later: seq<string>, k: nat, round: int): Sent
    requires |later| > 0
    decreases k
  {
    if k < |later| then Sent(later[k], round) else Cyclic(later, k - |later|, round + 1)
  }

  lemma {:induction false} CyclicByDivision(later: seq<string>, k: nat, round: int)
    requires |later| > 0
    ensures Cyclic(later, k, round) == Sent(later[k % |later|], round + k / |later|)
    decreases k
  {
    Arith.OneCycleLess(k, |later|);
    if k >= |later| { CyclicByDivision(later, k - |later|, round + 1); }
  }

  lemma SlotIsEntry(first: seq<string>, later: seq<string>, k: nat)
    requires HasEntry(first, later, k)
    ensures Slot(first, later, k) == Entry(first, later, k)
  {
    if k >= |first| { CyclicByDivision(later, k - |first|, 2); }
  }

  // ---- the host the closed form is about ----------------------------------

  /** A callback offers all of `l` when nothing is pinned, and at least the pinned one otherwise; nothing foreign. */
  ghost predicate Offers(l: seq<Candidate>, pin: string, offers: seq<Candidate>) {
    && (forall c :: c in offers && c.id != "" ==> c in l)
    && (forall c :: c in l && (pin == "" || c.id == pin) ==> c in offers)
  }

  /** The reply is a failure; whether it matches a rule is decided by the credential that was used. */
  predicate FailsAs(env: Env, cfg: PluginConfig, attempt: int, r: Reply, matches: bool) {
    var e := Outcome(cfg, attempt, r);
    && (e.Some? || ShouldRetryStatus(cfg, r.status))
    && RuleMatches(cfg, FailureStatus(env, e, r.status), e) == matches
  }

  ghost predicate Obliges(env: Env, cfg: PluginConfig, l: seq<Candidate>, x: set<string>, st: Loop, h: HostCall<Reply>)
    requires st.creds.Some?
  {
    var s := st.creds.value;
    var sent := Callbacks(Prepared(s), h.picks).1;
    && h.ctx.None? && Uncut(h.wait) && BelowCap(cfg, st.attempt)
    && h.picks != [] && Offers(l, s.authID, h.picks[0])
    && (sent.Some? ==>
          if sent.value.id in x then FailsAs(env, cfg, st.attempt, h.reply, false) && |h.picks| >= 2
          else FailsAs(env, cfg, st.attempt, h.reply, true))
  }

  ghost predicate ObligesAll(env: Env, cfg: PluginConfig, l: seq<Candidate>, x: set<string>, st: Loop,
                             script: seq<HostCall<Reply>>)
    decreases |script|
  {
    script == [] ||
    (st.creds.Some? && Obliges(env, cfg, l, x, st, script[0])
      && ObligesAll(env, cfg, l, x, Step(env, cfg, st, script[0]), script[1..]))
  }

  // ---- the place of the scheduler in the schedule -------------------------

  function Members(l: seq<Candidate>, x: set<string>, round: int): seq<Candidate> {
    if round == 1 then l else Live(l, x)
  }

  /** Round `m`, the first `i` members served, `f` failures so far on member `i`. */
  ghost predicate At(l: seq<Candidate>, x: set<string>, s: State, m: int, i: nat, f: nat) {
    var members := Members(l, x, m);
    && m >= 1 && i <= |members| && f <= s.retries && (f > 0 ==> i < |members| && members[i].id !in x)
    && s.round == m && s.failures == f
    && s.authID == (if f > 0 then members[i].id else "")
    && s.exhausted == IDs(members[..i]) - x
    && s.excluded == if m == 1 then IDs(members[..i]) * x else IDs(l) * x
  }

  lemma {:induction false} LiveMembers(l: seq<Candidate>, x: set<string>)
    requires Ordered(l)
    ensures forall c :: c in Live(l, x) <==> c in l && c.id !in x
    ensures Ordered(Live(l, x))
  {
    if l != [] {
      var n := |l| - 1;
      LiveMembers(l[..n], x);
      LiveOneMore(l, l[..n], l[n], Live(l[..n], x), x);
    }
  }

  /** Adding a last entry to an ordered list and, unless it is in X, to the list of its live ones. */
  lemma LiveOneMore(l: seq<Candidate>, before: seq<Candidate>, last: Candidate, live: seq<Candidate>, x: set<string>)
    requires Ordered(l) && l == before + [last] && Ordered(live)
    requires forall c :: c in live <==> c in before && c.id !in x
    ensures var more := live + if last.id in x then [] else [last];
      Ordered(more) && forall c :: c in more <==> c in l && c.id !in x
  {
    forall c | c in before ensures Better(c, last) && c.id != last.id {
      var i :| 0 <= i < |before| && before[i] == c;
      assert l[i] == c && l[|before|] == last;
    }
    assert l[|before|].id != "";
  }

  /** In an ordered list nothing at or after position i is better than entry i. */
  lemma NotBetterLater(l: seq<Candidate>, i: nat, c: Candidate)
    requires Ordered(l) && i < |l| && c in l && c.id !in IDs(l[..i])
    ensures !Better(c, l[i])
  {
    var p :| 0 <= p < |l| && l[p] == c;
    assert p >= i by { assert forall q :: 0 <= q < i ==> l[..i][q] == l[q]; }
    BetterIsStrictOrder(l[i], l[p], l[i]);
  }

  lemma SameID(l: seq<Candidate>, a: Candidate, b: Candidate)
    requires Ordered(l) && a in l && b in l && a.id == b.id
    ensures a == b
  {
    var p :| 0 <= p < |l| && l[p] == a;
    var q :| 0 <= q < |l| && l[q] == b;
    assert p == q;
  }

  /** While members are left, the next one is selected in the current round. */
  lemma SelectsMember(l: seq<Candidate>, x: set<string>, s: State, m: int, i: nat, f: nat, offers: seq<Candidate>)
    requires Ordered(l) && At(l, x, s, m, i, f) && Offers(l, s.authID, offers)
    requires i < |Members(l, x, m)|
    ensures Selection(s, offers, false) == Some(Members(l, x, m)[i])
  {
    LiveMembers(l, x);
    var members := Members(l, x, m);
    var c := members[i];
    assert c in members && c in l && c in offers;
    assert c.id !in IDs(members[..i]);
    forall d | d in offers && Eligible(s, d, false) ensures !Better(d, c) {
      if f > 0 {
        SameID(l, c, d);
        BetterIsStrictOrder(c, c, c);
      } else {
        assert d in members by { if m > 1 { assert d.id in IDs(l) ==> d.id !in x; } }
        assert d.id !in IDs(members[..i]);
        NotBetterLater(members, i, d);
      }
    }
    SelectionIsBest(s, offers, false);
    SelectionUnique(s, offers, false, Selection(s, offers, false), Some(c));
  }

  /** When every member is served, the best survivor opens the next round. */
  lemma SelectsNextRound(l: seq<Candidate>, x: set<string>, s: State, m: int, offers: seq<Candidate>)
    requires Ordered(l) && At(l, x, s, m, |Members(l, x, m)|, 0) && Offers(l, "", offers)
    requires Live(l, x) != []
    ensures Selection(s, offers, false).None? && s.exhausted != {}
    ensures Selection(s, offers, true) == Some(Live(l, x)[0])
  {
    LiveMembers(l, x);
    var members, c := Members(l, x, m), Live(l, x)[0];
    assert members[..|members|] == members;
    assert c in Live(l, x) && c in members && c in l && c in offers;
    assert c.id in s.exhausted;
    forall d | d in offers ensures !Eligible(s, d, false) {
      if d.id != "" {
        assert d in l && d.id in IDs(l);
        if d.id !in x { assert d in Live(l, x) && d in members && d.id in IDs(members); }
      }
    }
    SelectionIsBest(s, offers, false);
    assert Selection(s, offers, false).None?;
    forall d | d in offers && Eligible(s, d, true) ensures !Better(d, c) {
      assert d in l && d.id in IDs(l) && d in Live(l, x);
      NotBetterLater(Live(l, x), 0, d);
    }
    SelectionIsBest(s, offers, true);
    SelectionUnique(s, offers, true, Selection(s, offers, true), Some(c));
  }

  // ---- one call -----------------------------------------------------------

  /** The scheduler as the next round finds it, once every member of this one is served. */
  function Entered(l: seq<Candidate>, x: set<string>, s: State, i: nat): State {
    if i < |Members(l, x, s.round)| then s else s.(exhausted := {}, round := s.round + 1)
  }

  function EnteredMember(l: seq<Candidate>, x: set<string>, s: State, i: nat): nat {
    if i < |Members(l, x, s.round)| then i else 0
  }

  lemma EnteredAt(l: seq<Candidate>, x: set<string>, s: State, m: int, i: nat, f: nat)
    requires Ordered(l) && At(l, x, s, m, i, f)
    requires i < |Members(l, x, m)| || Live(l, x) != []
    ensures At(l, x, Entered(l, x, s, i), Entered(l, x, s, i).round, EnteredMember(l, x, s, i), f)
    ensures EnteredMember(l, x, s, i) < |Members(l, x, Entered(l, x, s, i).round)|
  {
    if i == |Members(l, x, m)| {
      assert Members(l, x, m)[..i] == Members(l, x, m);
      assert Live(l, x)[..0] == [];
    }
  }

  /** The scheduler during a call that dispatched member `c` of the entered round. */
  predicate Serving(s0: State, c: Candidate, deferred: bool, during: State) {
    && during.authID == c.id && during.dispatched && during.deferred == deferred
    && during.retries == s0.retries && during.failures == s0.failures && during.round == s0.round
    && during.exhausted == s0.exhausted && during.excluded == s0.excluded
  }

  /** The call's only dispatch goes to the next member of the schedule. */
  lemma DispatchesNext(l: seq<Candidate>, x: set<string>, s: State, m: int, i: nat, f: nat, picks: seq<seq<Candidate>>)
    requires Ordered(l) && Valid(s) && At(l, x, s, m, i, f) && picks != [] && Offers(l, s.authID, picks[0])
    requires i < |Members(l, x, m)| || Live(l, x) != []
    ensures EnteredMember(l, x, s, i) < |Members(l, x, Entered(l, x, s, i).round)|
    ensures var c := Members(l, x, Entered(l, x, s, i).round)[EnteredMember(l, x, s, i)];
      var (during, sent) := Callbacks(Prepared(s), picks);
      sent == Some(Sent(c.id, Entered(l, x, s, i).round)) && Serving(Entered(l, x, s, i), c, |picks| >= 2, during)
  {
    EnteredAt(l, x, s, m, i, f);
    FirstPick(l, x, s, m, i, f, picks[0]);
    RestRejected(Pick(Prepared(s), picks[0]).0, picks[1..]);
  }

  lemma FirstPick(l: seq<Candidate>, x: set<string>, s: State, m: int, i: nat, f: nat, offers: seq<Candidate>)
    requires Ordered(l) && Valid(s) && At(l, x, s, m, i, f) && Offers(l, s.authID, offers)
    requires i < |Members(l, x, m)| || Live(l, x) != []
    ensures EnteredMember(l, x, s, i) < |Members(l, x, Entered(l, x, s, i).round)|
    ensures var c := Members(l, x, Entered(l, x, s, i).round)[EnteredMember(l, x, s, i)];
      var (t, response) := Pick(Prepared(s), offers);
      response == Use(c.id) && Serving(Entered(l, x, s, i), c, false, t)
  {
    var seen := Prepared(s).(candidates := s.candidates + OfferedIDs(offers));
    if i < |Members(l, x, m)| {
      SelectsMember(l, x, seen, m, i, f, offers);
    } else {
      SelectsNextRound(l, x, seen, m, offers);
    }
  }

  /** A dispatched failure below the cap keeps the loop running, whichever way it is decided. */
  lemma FailedTurn(env: Env, cfg: PluginConfig, st: Loop, h: HostCall<Reply>, matches: bool)
    requires ValidPolicy(cfg) && st.result.None? && st.creds.Some? && h.ctx.None? && Uncut(h.wait)
      && BelowCap(cfg, st.attempt)
    requires FailsAs(env, cfg, st.attempt, h.reply, matches)
    requires var (during, sent) := Callbacks(Prepared(st.creds.value), h.picks);
      during.dispatched && during.authID != "" && (!matches ==> during.deferred)
    ensures var (during, sent) := Callbacks(Prepared(st.creds.value), h.picks);
      var next := Step(env, cfg, st, h);
      && next.result.None? && next.attempt == st.attempt + 1 && next.creds == Some(Settled(during, matches))
      && next.log == st.log + [Record(if matches then Matched else Unmatched, st.attempt, st.creds.value.authID, sent)]
  {
    var (during, sent) := Callbacks(Prepared(st.creds.value), h.picks);
    var e := Outcome(cfg, st.attempt, h.reply);
    assert Call(env, cfg, st.creds, st.attempt, h, h.reply.err)
      == Called(Some(during), st.creds.value.authID, sent, Dispatched);
    var x := Conclude(env, cfg, Some(during), st.attempt, e, h.reply.status, h.wait);
    assert x.matched == matches && x.result.None?;
  }

  lemma OneMoreMember(members: seq<Candidate>, i: nat)
    requires i < |members|
    ensures IDs(members[..i + 1]) == IDs(members[..i]) + {members[i].id}
  {
    assert members[..i + 1] == members[..i] + [members[i]];
    forall id ensures id in IDs(members[..i + 1]) <==> id in IDs(members[..i]) + {members[i].id} {
      if id == members[i].id { assert members[i] in members[..i + 1]; }
    }
  }

  /** Serving member i once moves the scheduler to its next place in the schedule. */
  lemma Served(l: seq<Candidate>, x: set<string>, s: State, m: int, i: nat, f: nat, deferred: bool, during: State)
    requires Ordered(l) && At(l, x, s, m, i, f) && i < |Members(l, x, m)|
    requires Serving(s, Members(l, x, m)[i], deferred, during)
    ensures var c := Members(l, x, m)[i];
      var t := Settled(during, c.id !in x);
      && t.retries == s.retries
      && (if c.id !in x && f < s.retries then At(l, x, t, m, i, f + 1) else At(l, x, t, m, i + 1, 0))
      && (c.id in x ==> f == 0)
  {
    LiveMembers(l, x);
    OneMoreMember(Members(l, x, m), i);
    assert Members(l, x, m)[i] in Members(l, x, m);
  }

  // ---- positions in the closed form ---------------------------------------

  /** The dispatches of all rounds before round m, from the lengths of the first and of a later round. */
  function Before(first: nat, later: nat, m: int): nat
    requires m >= 1
    decreases m
  {
    if m == 1 then 0 else if m == 2 then first else Before(first, later, m - 1) + later
  }

  function Position(l: seq<Candidate>, x: set<string>, r: nat, m: int, i: nat, f: nat): nat
    requires m >= 1 && i <= |Members(l, x, m)|
  {
    Before(|Blocks(l, x, r)|, |Blocks(Live(l, x), x, r)|, m) + |Blocks(Members(l, x, m)[..i], x, r)| + f
  }

  /** A share that starts after `served` dispatches of `all` gives its owner the f-th of them. */
  predicate HasShare(all: seq<string>, served: nat, f: nat, id: string) {
    served + f < |all| && all[served + f] == id
  }

  /** Credential i's share sits in the schedule right after the shares of those before it. */
  lemma BlockAt(l: seq<Candidate>, x: set<string>, r: nat, i: nat, f: nat)
    requires i < |l| && f < |Share(l[i], x, r)|
    ensures |Blocks(l[..i + 1], x, r)| == |Blocks(l[..i], x, r)| + |Share(l[i], x, r)|
    ensures HasShare(Blocks(l, x, r), |Blocks(l[..i], x, r)|, f, l[i].id)
  {
    BlocksOneMore(l, x, r, i);
    BlocksPrefix(l, x, r, i + 1);
    assert Blocks(l[..i + 1], x, r)[|Blocks(l[..i], x, r)| + f] == Share(l[i], x, r)[f];
  }

  lemma {:induction false} BlocksPrefix(l: seq<Candidate>, x: set<string>, r: nat, k: nat)
    requires k <= |l|
    ensures Blocks(l[..k], x, r) <= Blocks(l, x, r)
    decreases |l|
  {
    if k == |l| {
      assert l[..k] == l;
    } else {
      BlocksPrefix(l[..|l| - 1], x, r, k);
      assert l[..|l| - 1][..k] == l[..k];
    }
  }

  lemma BlocksOneMore(l: seq<Candidate>, x: set<string>, r: nat, i: nat)
    requires i < |l|
    ensures Blocks(l[..i + 1], x, r) == Blocks(l[..i], x, r) + Share(l[i], x, r)
  {
    assert l[..i + 1][..i] == l[..i];
  }

  predicate IsSlot(first: seq<string>, later: seq<string>, k: nat, s: Sent) {
    HasEntry(first, later, k) && Slot(first, later, k) == s
  }

  /** The blocks of round m. */
  function Round(l: seq<Candidate>, x: set<string>, r: nat, m: int): seq<string> {
    if m == 1 then Blocks(l, x, r) else Blocks(Live(l, x), x, r)
  }

  lemma RoundBlocks(l: seq<Candidate>, x: set<string>, r: nat, m: int)
    ensures Blocks(Members(l, x, m), x, r) == Round(l, x, r, m)
  {
  }

  /** The member at a place is the closed form's entry for its position. */
  lemma PositionEntry(l: seq<Candidate>, x: set<string>, r: nat, m: int, i: nat, f: nat, k: nat)
    requires m >= 1 && i < |Members(l, x, m)| && f < |Share(Members(l, x, m)[i], x, r)|
    requires k == Position(l, x, r, m, i, f)
    ensures IsSlot(Blocks(l, x, r), Blocks(Live(l, x), x, r), k, Sent(Members(l, x, m)[i].id, m))
  {
    MemberShare(l, x, r, m, i, f);
    PlaceEntry(l, x, r, m, |Blocks(Members(l, x, m)[..i], x, r)|, f, Members(l, x, m)[i].id, k);
  }

  lemma MemberShare(l: seq<Candidate>, x: set<string>, r: nat, m: int, i: nat, f: nat)
    requires i < |Members(l, x, m)| && f < |Share(Members(l, x, m)[i], x, r)|
    ensures HasShare(Round(l, x, r, m), |Blocks(Members(l, x, m)[..i], x, r)|, f, Members(l, x, m)[i].id)
  {
    BlockAt(Members(l, x, m), x, r, i, f);
    RoundBlocks(l, x, r, m);
  }

  lemma PlaceEntry(l: seq<Candidate>, x: set<string>, r: nat, m: int, served: nat, f: nat, id: string, k: nat)
    requires m >= 1 && HasShare(Round(l, x, r, m), served, f, id)
    requires k == Before(|Blocks(l, x, r)|, |Blocks(Live(l, x), x, r)|, m) + served + f
    ensures IsSlot(Blocks(l, x, r), Blocks(Live(l, x), x, r), k, Sent(id, m))
  {
    SlotInRound(Blocks(l, x, r), Blocks(Live(l, x), x, r), Round(l, x, r, m), m, served, f, id, k);
  }

  lemma SlotInRound(first: seq<string>, later: seq<string>, all: seq<string>, m: int, served: nat, f: nat, id: string,
                    k: nat)
    requires m >= 1 && all == (if m == 1 then first else later) && HasShare(all, served, f, id)
    requires k == Before(|first|, |later|, m) + served + f
    ensures IsSlot(first, later, k, Sent(id, m))
  {
    if m >= 2 { SlotInLater(first, later, m, served + f); }
  }

  lemma SlotInLater(first: seq<string>, later: seq<string>, m: int, within: nat)
    requires m >= 2 && within < |later|
    ensures IsSlot(first, later, Before(|first|, |later|, m) + within, Sent(later[within], m))
  {
    CyclicInRound(|first|, later, m, within, 2);
  }

  lemma {:induction false} CyclicInRound(first: nat, later: seq<string>, m: int, within: nat, round: int)
    requires m >= 2 && within < |later|
    ensures Before(first, |later|, m) >= first
    ensures Cyclic(later, Before(first, |later|, m) - first + within, round) == Sent(later[within], round + m - 2)
    decreases m
  {
    if m > 2 { CyclicInRound(first, later, m - 1, within, round + 1); }
  }

  lemma PositionNext(l: seq<Candidate>, x: set<string>, r: nat, m: int, i: nat)
    requires m >= 1 && i < |Members(l, x, m)|
    ensures Position(l, x, r, m, i + 1, 0) == Position(l, x, r, m, i, 0) + |Share(Members(l, x, m)[i], x, r)|
  {
    BlockAt(Members(l, x, m), x, r, i, 0);
  }

  lemma NextRoundPosition(l: seq<Candidate>, x: set<string>, r: nat, m: int)
    requires m >= 1
    ensures Position(l, x, r, m, |Members(l, x, m)|, 0) == Position(l, x, r, m + 1, 0, 0)
  {
    assert Members(l, x, m)[..|Members(l, x, m)|] == Members(l, x, m);
    RoundBlocks(l, x, r, m);
    BeforeNext(|Blocks(l, x, r)|, |Blocks(Live(l, x), x, r)|, m);
  }

  lemma BeforeNext(first: nat, later: nat, m: int)
    requires m >= 1
    ensures Before(first, later, m + 1) == Before(first, later, m) + if m == 1 then first else later
  {
  }

  // ---- the theorem --------------------------------------------------------

  ghost predicate Follows(l: seq<Candidate>, x: set<string>, r: nat, log: seq<Record>) {
    forall k :: 0 <= k < |log| ==>
      log[k].sent.Some? && IsSlot(Blocks(l, x, r), Blocks(Live(l, x), x, r), k, log[k].sent.value)
  }

  ghost predicate OnSchedule(cfg: PluginConfig, l: seq<Candidate>, x: set<string>, st: Loop, m: int, i: nat, f: nat) {
    && st.result.None? && st.creds.Some? && Valid(st.creds.value)
    && st.creds.value.retries == cfg.sameAuthRetries > 0
    && At(l, x, st.creds.value, m, i, f)
    && |st.log| == Position(l, x, cfg.sameAuthRetries, m, i, f) && st.attempt == |st.log| + 1
    && Follows(l, x, cfg.sameAuthRetries, st.log)
  }

  /** The next place after serving member i with f failures so far. */
  function NextMember(c: Candidate, x: set<string>, r: int, i: nat, f: nat): nat {
    if c.id !in x && f < r then i else i + 1
  }

  function NextFailures(c: Candidate, x: set<string>, r: int, f: nat): nat {
    if c.id !in x && f < r then f + 1 else 0
  }

  /** The loop after it served the member at `i` of the entered round, `f` failures in. */
  ghost predicate ServedTo(cfg: PluginConfig, l: seq<Candidate>, x: set<string>, st: Loop, next: Loop, m: int, i: nat,
                           f: nat) {
    && m >= 1 && i < |Members(l, x, m)|
    && var c := Members(l, x, m)[i];
    && next.result.None? && next.creds.Some? && next.attempt == st.attempt + 1
    && next.creds.value.retries == cfg.sameAuthRetries
    && At(l, x, next.creds.value, m, NextMember(c, x, cfg.sameAuthRetries, i, f),
          NextFailures(c, x, cfg.sameAuthRetries, f))
    && |next.log| == |st.log| + 1 && next.log[..|st.log|] == st.log && next.log[|st.log|].sent == Some(Sent(c.id, m))
    && (c.id in x ==> f == 0)
    && (Live(l, x) == [] ==> c.id in x)
  }

  /** What the obliging host does with the member it was given. */
  lemma ObligedFailure(env: Env, cfg: PluginConfig, l: seq<Candidate>, x: set<string>, st: Loop, h: HostCall<Reply>,
                       m: int, i: nat, f: nat)
    requires Ordered(l) && OnSchedule(cfg, l, x, st, m, i, f) && Obliges(env, cfg, l, x, st, h)
    requires i < |Members(l, x, m)| || Live(l, x) != []
    ensures var s0, i0 := Entered(l, x, st.creds.value, i), EnteredMember(l, x, st.creds.value, i);
      s0.round >= 1 && i0 < |Members(l, x, s0.round)|
    ensures var s0, i0 := Entered(l, x, st.creds.value, i), EnteredMember(l, x, st.creds.value, i);
      var c := Members(l, x, s0.round)[i0];
      var (during, sent) := Callbacks(Prepared(st.creds.value), h.picks);
      && sent == Some(Sent(c.id, s0.round)) && Serving(s0, c, |h.picks| >= 2, during) && c.id != ""
      && FailsAs(env, cfg, st.attempt, h.reply, c.id !in x) && (c.id in x ==> during.deferred)
      && (Live(l, x) == [] ==> c.id in x)
  {
    var s := st.creds.value;
    DispatchesNext(l, x, s, m, i, f, h.picks);
    EnteredAt(l, x, s, m, i, f);
    LiveMembers(l, x);
    var c := Members(l, x, Entered(l, x, s, i).round)[EnteredMember(l, x, s, i)];
    assert c in l;
  }

  /** The next place, from the scheduler that entered the round and the one left by the failure. */
  lemma ServedInto(cfg: PluginConfig, l: seq<Candidate>, x: set<string>, st: Loop, next: Loop, s0: State, i0: nat,
                   f: nat, deferred: bool, during: State)
    requires Ordered(l) && s0.round >= 1 && i0 < |Members(l, x, s0.round)| && At(l, x, s0, s0.round, i0, f)
    requires s0.retries == cfg.sameAuthRetries && Serving(s0, Members(l, x, s0.round)[i0], deferred, during)
    requires var c := Members(l, x, s0.round)[i0];
      && next.result.None? && next.attempt == st.attempt + 1 && next.creds == Some(Settled(during, c.id !in x))
      && |next.log| == |st.log| + 1 && next.log[..|st.log|] == st.log
      && next.log[|st.log|].sent == Some(Sent(c.id, s0.round))
      && (Live(l, x) == [] ==> c.id in x)
    ensures ServedTo(cfg, l, x, st, next, s0.round, i0, f)
  {
    Served(l, x, s0, s0.round, i0, f, deferred, during);
  }

  /** One obliging call: the scheduler moves to the next place and the trace grows by that place's dispatch. */
  lemma ServedTurn(env: Env, cfg: PluginConfig, l: seq<Candidate>, x: set<string>, st: Loop, h: HostCall<Reply>,
                   m: int, i: nat, f: nat)
    requires ValidPolicy(cfg) && Ordered(l) && OnSchedule(cfg, l, x, st, m, i, f) && Obliges(env, cfg, l, x, st, h)
    requires i < |Members(l, x, m)| || Live(l, x) != []
    ensures var s0, i0 := Entered(l, x, st.creds.value, i), EnteredMember(l, x, st.creds.value, i);
      ServedTo(cfg, l, x, st, Step(env, cfg, st, h), s0.round, i0, f)
  {
    var s := st.creds.value;
    var s0, i0 := Entered(l, x, s, i), EnteredMember(l, x, s, i);
    ObligedFailure(env, cfg, l, x, st, h, m, i, f);
    var c := Members(l, x, s0.round)[i0];
    FailedTurn(env, cfg, st, h, c.id !in x);
    EnteredAt(l, x, s, m, i, f);
    ServedInto(cfg, l, x, st, Step(env, cfg, st, h), s0, i0, f, |h.picks| >= 2, Callbacks(Prepared(s), h.picks).0);
  }

  lemma TurnValid(env: Env, cfg: PluginConfig, st: Loop, h: HostCall<Reply>)
    requires ValidPolicy(cfg) && st.result.None? && st.creds.Some? && Valid(st.creds.value)
    ensures Step(env, cfg, st, h).creds.Some? && Valid(Step(env, cfg, st, h).creds.value)
  {
    var _ := TurnShape(env, cfg, st, h);
  }

  lemma OnScheduleNext(cfg: PluginConfig, l: seq<Candidate>, x: set<string>, st: Loop, next: Loop, m: int, i: nat,
                       f: nat)
    requires cfg.sameAuthRetries > 0 && Follows(l, x, cfg.sameAuthRetries, st.log) && st.attempt == |st.log| + 1
    requires ServedTo(cfg, l, x, st, next, m, i, f) && f <= cfg.sameAuthRetries
      && |st.log| == Position(l, x, cfg.sameAuthRetries, m, i, f)
    requires Valid(next.creds.value)
    ensures var c, r := Members(l, x, m)[i], cfg.sameAuthRetries;
      OnSchedule(cfg, l, x, next, m, NextMember(c, x, r, i, f), NextFailures(c, x, r, f))
  {
    LogFollows(l, x, cfg.sameAuthRetries, st.log, next.log, m, i, f);
  }

  lemma OnScheduleStep(env: Env, cfg: PluginConfig, l: seq<Candidate>, x: set<string>, st: Loop, h: HostCall<Reply>,
                       m: int, i: nat, f: nat)
    returns (m': int, i': nat, f': nat)
    requires ValidPolicy(cfg) && Ordered(l) && OnSchedule(cfg, l, x, st, m, i, f) && Obliges(env, cfg, l, x, st, h)
    requires i < |Members(l, x, m)| || Live(l, x) != []
    ensures OnSchedule(cfg, l, x, Step(env, cfg, st, h), m', i', f')
    ensures |Step(env, cfg, st, h).log| == |st.log| + 1
    ensures Live(l, x) == [] ==> m' == m && i' == i + 1 && f' == 0
  {
    var r, s := cfg.sameAuthRetries, st.creds.value;
    ServedTurn(env, cfg, l, x, st, h, m, i, f);
    TurnValid(env, cfg, st, h);
    EnteredPosition(l, x, r, s, m, i, f);
    var i0 := EnteredMember(l, x, s, i);
    m' := Entered(l, x, s, i).round;
    var c := Members(l, x, m')[i0];
    i', f' := NextMember(c, x, r, i0, f), NextFailures(c, x, r, f);
    OnScheduleNext(cfg, l, x, st, Step(env, cfg, st, h), m', i0, f);
  }

  lemma EnteredPosition(l: seq<Candidate>, x: set<string>, r: nat, s: State, m: int, i: nat, f: nat)
    requires At(l, x, s, m, i, f)
    requires i < |Members(l, x, m)| || Live(l, x) != []
    ensures Position(l, x, r, m, i, f) == Position(l, x, r, Entered(l, x, s, i).round, EnteredMember(l, x, s, i), f)
  {
    var members := |Members(l, x, m)|;
    assert s.round == m && i <= members && (i == members ==> f == 0);
    PositionEntered(l, x, r, s, i, f);
  }

  lemma PositionEntered(l: seq<Candidate>, x: set<string>, r: nat, s: State, i: nat, f: nat)
    requires s.round >= 1 && i <= |Members(l, x, s.round)| && (i == |Members(l, x, s.round)| ==> f == 0)
    ensures Position(l, x, r, s.round, i, f)
         == Position(l, x, r, Entered(l, x, s, i).round, EnteredMember(l, x, s, i), f)
  {
    if i == |Members(l, x, s.round)| { NextRoundPosition(l, x, r, s.round); }
  }

  lemma LogFollows(l: seq<Candidate>, x: set<string>, r: nat, log: seq<Record>, longer: seq<Record>, m: int, i: nat,
                   f: nat)
    requires m >= 1 && i < |Members(l, x, m)| && f < |Share(Members(l, x, m)[i], x, r)|
    requires Follows(l, x, r, log) && |log| == Position(l, x, r, m, i, f)
    requires |longer| == |log| + 1 && longer[..|log|] == log
    requires longer[|log|].sent == Some(Sent(Members(l, x, m)[i].id, m))
    ensures Follows(l, x, r, longer)
    ensures Position(l, x, r, m, i + 1, 0) == Position(l, x, r, m, i, 0) + |Share(Members(l, x, m)[i], x, r)|
    ensures Position(l, x, r, m, i, f + 1) == |longer|
  {
    PositionEntry(l, x, r, m, i, f, |log|);
    PositionNext(l, x, r, m, i);
    forall k | 0 <= k < |longer|
      ensures longer[k].sent.Some? && IsSlot(Blocks(l, x, r), Blocks(Live(l, x), x, r), k, longer[k].sent.value)
    {
      if k < |log| { assert longer[k] == log[k]; }
    }
  }

  lemma {:induction false} StaysOnSchedule(env: Env, cfg: PluginConfig, l: seq<Candidate>, x: set<string>, st: Loop,
                                           script: seq<HostCall<Reply>>, m: int, i: nat, f: nat)
    returns (m': int, i': nat, f': nat)
    requires ValidPolicy(cfg) && Ordered(l) && OnSchedule(cfg, l, x, st, m, i, f)
      && ObligesAll(env, cfg, l, x, st, script)
    requires Live(l, x) != [] || (m == 1 && f == 0 && |script| <= |l| - i)
    ensures OnSchedule(cfg, l, x, Run(env, cfg, st, script), m', i', f')
    ensures |Run(env, cfg, st, script).log| == |st.log| + |script|
    ensures Live(l, x) == [] ==> m' == 1 && i' == i + |script|
    decreases |script|
  {
    if script == [] {
      m', i', f' := m, i, f;
    } else {
      m', i', f' := OnScheduleStep(env, cfg, l, x, st, script[0], m, i, f);
      m', i', f' := StaysOnSchedule(env, cfg, l, x, Step(env, cfg, st, script[0]), script[1..], m', i', f');
    }
  }

  lemma OnScheduleAtStart(cfg: PluginConfig, l: seq<Candidate>, x: set<string>)
    requires cfg.sameAuthRetries > 0
    ensures OnSchedule(cfg, l, x, Start(cfg), 1, 0, 0)
  {
    assert l[..0] == [];
  }

  /** Where the scheduler stands decides the next dispatch, whatever becomes of the call that makes it. */
  lemma NextDispatch(cfg: PluginConfig, l: seq<Candidate>, x: set<string>, st: Loop, picks: seq<seq<Candidate>>,
                     m: int, i: nat, f: nat)
    requires Ordered(l) && OnSchedule(cfg, l, x, st, m, i, f)
    requires i < |Members(l, x, m)| || Live(l, x) != []
    requires picks != [] && Offers(l, st.creds.value.authID, picks[0])
    ensures Scheduled(l, x, cfg.sameAuthRetries, |st.log|)
    ensures Callbacks(Prepared(st.creds.value), picks).1 == Some(Nth(l, x, cfg.sameAuthRetries, |st.log|))
  {
    var s, r := st.creds.value, cfg.sameAuthRetries;
    var s0, i0 := Entered(l, x, s, i), EnteredMember(l, x, s, i);
    DispatchesNext(l, x, s, m, i, f, picks);
    EnteredAt(l, x, s, m, i, f);
    EnteredPosition(l, x, r, s, m, i, f);
    ShareHolds(l, x, s0, i0, f);
    PositionEntry(l, x, r, s0.round, i0, f, |st.log|);
    SlotIsEntry(Blocks(l, x, r), Blocks(Live(l, x), x, r), |st.log|);
  }

  /** A member is not served beyond its share. */
  lemma ShareHolds(l: seq<Candidate>, x: set<string>, s: State, i: nat, f: nat)
    requires At(l, x, s, s.round, i, f) && i < |Members(l, x, s.round)| && s.retries >= 0
    ensures f < |Share(Members(l, x, s.round)[i], x, s.retries)|
  {
  }

  /** While the host obliges nothing ends the loop, and every call dispatches its entry of the schedule. */
  lemma ObligedRun(env: Env, cfg: PluginConfig, l: seq<Candidate>, x: set<string>, script: seq<HostCall<Reply>>)
    requires ValidPolicy(cfg) && cfg.sameAuthRetries > 0
    requires Ordered(l) && ObligesAll(env, cfg, l, x, Start(cfg), script)
    requires Live(l, x) != [] || |script| <= |l|
    ensures var end := Run(env, cfg, Start(cfg), script);
      && end.result.None? && end.creds.Some? && |end.log| == |script| && end.attempt == |script| + 1
      && Dispatches(l, x, cfg.sameAuthRetries, end.log)
  {
    OnScheduleAtStart(cfg, l, x);
    var m, i, f := StaysOnSchedule(env, cfg, l, x, Start(cfg), script, 1, 0, 0);
    FollowsEntries(l, x, cfg.sameAuthRetries, Run(env, cfg, Start(cfg), script).log);
  }

  /** The trace entry of a call that dispatched. */
  lemma DispatchLogged(env: Env, cfg: PluginConfig, st: Loop, h: HostCall<Reply>)
    requires st.result.None? && st.creds.Some? && Valid(st.creds.value) && h.ctx.None?
    requires Callbacks(Prepared(st.creds.value), h.picks).1.Some?
    ensures var next := Step(env, cfg, st, h);
      |next.log| == |st.log| + 1 && next.log[..|st.log|] == st.log
      && next.log[|st.log|].sent == Callbacks(Prepared(st.creds.value), h.picks).1
  {
    StepsKeepValid(st.creds.value, false);
    CallbackRules(Prepared(st.creds.value), h.picks);
    var (during, sent) := Callbacks(Prepared(st.creds.value), h.picks);
    assert Call(env, cfg, st.creds, st.attempt, h, h.reply.err)
      == Called(Some(during), st.creds.value.authID, sent, Dispatched);
  }

  /**
   The closed form. The host obliges for some calls and then makes one more, `last`, of which nothing is asked but
   that it happens and offers the credentials: it may be accepted, fail either way, reach the cap or be cancelled.
   Then every call k, the last one included, dispatches entry k of the schedule: round one gives every credential in
   order its full budget, or one dispatch if it fails outside the rules, and every later round repeats the survivors'
   budgets. Without survivors the schedule ends after round one.
   */
  lemma ClosedFormSchedule(env: Env, cfg: PluginConfig, l: seq<Candidate>, x: set<string>, script: seq<HostCall<Reply>>,
                           last: HostCall<Reply>)
    requires ValidPolicy(cfg) && cfg.sameAuthRetries > 0
    requires Ordered(l) && ObligesAll(env, cfg, l, x, Start(cfg), script)
    requires Live(l, x) != [] || |script| < |l|
    requires last.ctx.None? && last.picks != []
    requires var st := Run(env, cfg, Start(cfg), script);
      st.creds.Some? ==> Offers(l, st.creds.value.authID, last.picks[0])
    ensures var end := Run(env, cfg, Start(cfg), script + [last]);
      |end.log| == |script| + 1 && Dispatches(l, x, cfg.sameAuthRetries, end.log)
  {
    ObligedRun(env, cfg, l, x, script);
    OnScheduleAtStart(cfg, l, x);
    var m, i, f := StaysOnSchedule(env, cfg, l, x, Start(cfg), script, 1, 0, 0);
    var st := Run(env, cfg, Start(cfg), script);
    NextDispatch(cfg, l, x, st, last.picks, m, i, f);
    DispatchLogged(env, cfg, st, last);
    OneMoreDispatch(l, x, cfg.sameAuthRetries, st.log, Step(env, cfg, st, last).log);
    RunOneMore(env, cfg, Start(cfg), script, last);
  }

  lemma OneMoreDispatch(l: seq<Candidate>, x: set<string>, r: nat, log: seq<Record>, longer: seq<Record>)
    requires Dispatches(l, x, r, log) && |longer| == |log| + 1 && longer[..|log|] == log
    requires DispatchesEntry(l, x, r, |log|, longer[|log|])
    ensures Dispatches(l, x, r, longer)
  {
    assert forall k: nat :: k < |log| ==> longer[k] == log[k];
    LastToo((k: nat, entry: Record) => DispatchesEntry(l, x, r, k, entry), log, longer);
  }

  /** What holds of every entry and of one more holds of all. */
  lemma LastToo(p: (nat, Record) -> bool, log: seq<Record>, longer: seq<Record>)
    requires |longer| == |log| + 1 && forall k: nat :: k < |log| ==> longer[k] == log[k]
    requires (forall k: nat :: k < |log| ==> p(k, log[k])) && p(|log|, longer[|log|])
    ensures forall k: nat :: k < |longer| ==> p(k, longer[k])
  {
  }

  lemma RunOneMore(env: Env, cfg: PluginConfig, st: Loop, script: seq<HostCall<Reply>>, last: HostCall<Reply>)
    ensures Run(env, cfg, st, script + [last]) == Step(env, cfg, Run(env, cfg, st, script), last)
  {
    RunAppend(env, cfg, st, script, [last]);
    assert [last][1..] == [];
  }

  /** This call dispatched entry k of the closed form. */
  predicate DispatchesEntry(l: seq<Candidate>, x: set<string>, r: nat, k: nat, entry: Record) {
    Scheduled(l, x, r, k) && entry.sent == Some(Nth(l, x, r, k))
  }

  /** Every call of the trace dispatched its entry of the closed form. */
  ghost predicate Dispatches(l: seq<Candidate>, x: set<string>, r: nat, log: seq<Record>) {
    forall k: nat :: k < |log| ==> DispatchesEntry(l, x, r, k, log[k])
  }

  lemma FollowsEntries(l: seq<Candidate>, x: set<string>, r: nat, log: seq<Record>)
    requires Follows(l, x, r, log)
    ensures Dispatches(l, x, r, log)
  {
    forall k: nat | k < |log| ensures DispatchesEntry(l, x, r, k, log[k]) {
      assert IsSlot(Blocks(l, x, r), Blocks(Live(l, x), x, r), k, log[k].sent.value);
      SlotIsEntry(Blocks(l, x, r), Blocks(Live(l, x), x, r), k);
    }
  }

  // ---- reading the closed form --------------------------------------------

  lemma UniformBlocks(l: seq<Candidate>, r: nat, k: nat)
    requires k < |l| * (r + 1)
    ensures k / (r + 1) < |l| && k < |Blocks(l, {}, r)| && Blocks(l, {}, r)[k] == l[k / (r + 1)].id
  {
    Arith.DivLess(k, |l|, r + 1);
    var i, w := k / (r + 1), k % (r + 1);
    UniformEntry(l, r, i, w);
  }

  lemma UniformEntry(l: seq<Candidate>, r: nat, i: nat, w: nat)
    requires i < |l| && w <= r
    ensures 0 <= i * (r + 1) + w < |Blocks(l, {}, r)| && Blocks(l, {}, r)[i * (r + 1) + w] == l[i].id
  {
    UniformLength(l[..i], r);
    BlockAt(l, {}, r, i, w);
  }

  lemma {:induction false} UniformLength(l: seq<Candidate>, r: nat)
    ensures |Blocks(l, {}, r)| == |l| * (r + 1)
    decreases |l|
  {
    if l != [] {
      UniformLength(l[..|l| - 1], r);
      Arith.Distribute(1, |l| - 1, 1, r + 1);
    }
  }

  lemma {:induction false} EverybodyLives(l: seq<Candidate>)
    ensures Live(l, {}) == l
  {
    if l != [] { EverybodyLives(l[..|l| - 1]); }
  }

  /** Entry j of the blocks repeated for ever, when every failure matches a rule. */
  lemma UniformCycle(l: seq<Candidate>, r: nat, j: nat)
    requires l != []
    ensures |Blocks(l, {}, r)| == |l| * (r + 1) > 0
    ensures Blocks(l, {}, r)[j % |Blocks(l, {}, r)|] == l[(j / (r + 1)) % |l|].id
  {
    Arith.BlockOfCycle(j, |l|, r + 1);
    UniformLength(l, r);
    UniformBlocks(l, r, j % (|l| * (r + 1)));
  }

  /** When every failure matches a rule: r+1 dispatches a credential, n credentials a round, round after round. */
  lemma UniformSchedule(l: seq<Candidate>, r: nat, k: nat)
    requires l != []
    ensures |l| * (r + 1) > 0 && Scheduled(l, {}, r, k)
    ensures Nth(l, {}, r, k) == Sent(l[(k / (r + 1)) % |l|].id, 1 + k / (|l| * (r + 1)))
  {
    EverybodyLives(l);
    UniformCycle(l, r, k);
    Arith.OneCycleLess(k, |Blocks(l, {}, r)|);
  }

  lemma {:induction false} BlockEntries(l: seq<Candidate>, x: set<string>, r: nat)
    requires Ordered(l)
    ensures forall k :: 0 <= k < |Blocks(l, x, r)| ==> Blocks(l, x, r)[k] in IDs(l)
    ensures forall j, k :: 0 <= j < k < |Blocks(l, x, r)| && Blocks(l, x, r)[k] in x ==>
      Blocks(l, x, r)[j] != Blocks(l, x, r)[k]
    decreases |l|
  {
    if l != [] {
      var n := |l| - 1;
      BlockEntries(l[..n], x, r);
      OneMoreMember(l, n);
      assert l[..n + 1] == l;
      assert l[n].id !in IDs(l[..n]);
    }
  }

  lemma {:induction false} LiveIsOutside(l: seq<Candidate>, x: set<string>)
    ensures forall c :: c in Live(l, x) ==> c.id !in x
    decreases |l|
  {
    if l != [] { LiveIsOutside(l[..|l| - 1], x); }
  }

  lemma {:induction false} BlocksOutside(l: seq<Candidate>, x: set<string>, r: nat)
    requires forall c :: c in l ==> c.id !in x
    ensures Blocks(l, x, r) == Blocks(l, {}, r)
    decreases |l|
  {
    if l != [] {
      BlocksOutside(l[..|l| - 1], x, r);
      assert l[|l| - 1] in l;
    }
  }

  /** The length of round one, from the number of credentials and of survivors. */
  predicate IsFirstLength(length: nat, live: nat, n: nat, r: nat) {
    live <= n && length == live * (r + 1) + n - live
  }

  lemma OneMoreLength(length: nat, live: nat, n: nat, r: nat)
    requires IsFirstLength(length, live, n, r)
    ensures IsFirstLength(length + 1, live, n + 1, r)
    ensures IsFirstLength(length + (r + 1), live + 1, n + 1, r)
  {
    Arith.OneMore(live, r + 1);
  }

  /** Round one has r+1 dispatches for every survivor and one for every other credential. */
  lemma {:induction false} FirstRoundLength(l: seq<Candidate>, x: set<string>, r: nat)
    ensures IsFirstLength(|Blocks(l, x, r)|, |Live(l, x)|, |l|, r)
    decreases |l|
  {
    if l != [] {
      FirstRoundLength(l[..|l| - 1], x, r);
      OneMoreLength(|Blocks(l[..|l| - 1], x, r)|, |Live(l[..|l| - 1], x)|, |l| - 1, r);
    }
  }

  /** Dispatch f of credential i in round one, whichever way its failures go. */
  lemma FirstRound(l: seq<Candidate>, x: set<string>, r: nat, i: nat, f: nat) returns (k: nat)
    requires i < |l| && f <= (if l[i].id in x then 0 else r)
    ensures var live := |Live(l[..i], x)|; live <= i && k == live * (r + 1) + i - live + f
    ensures Scheduled(l, x, r, k) && Nth(l, x, r, k) == Sent(l[i].id, 1)
  {
    k := |Blocks(l[..i], x, r)| + f;
    FirstRoundLength(l[..i], x, r);
    BlockAt(l, x, r, i, f);
    NthInFirst(l, x, r, k, l[i].id);
  }

  lemma NthInFirst(l: seq<Candidate>, x: set<string>, r: nat, k: nat, id: string)
    requires k < |Blocks(l, x, r)| && Blocks(l, x, r)[k] == id
    ensures Scheduled(l, x, r, k) && Nth(l, x, r, k) == Sent(id, 1)
  {
  }

  /** After round one the survivors take turns, r+1 dispatches each, round after round. */
  lemma LaterRounds(l: seq<Candidate>, x: set<string>, r: nat, k: nat)
    requires Live(l, x) != [] && k >= |Blocks(l, x, r)|
    ensures Scheduled(l, x, r, k) && |Live(l, x)| * (r + 1) > 0
    ensures var j, live := k - |Blocks(l, x, r)|, Live(l, x);
      Nth(l, x, r, k) == Sent(live[(j / (r + 1)) % |live|].id, 2 + j / (|live| * (r + 1)))
  {
    var j, live := k - |Blocks(l, x, r)|, Live(l, x);
    LiveIsOutside(l, x);
    BlocksOutside(live, x, r);
    UniformCycle(live, r, j);
    EntryLater(Blocks(l, x, r), Blocks(live, x, r), k, j, |live| * (r + 1), live[(j / (r + 1)) % |live|].id);
  }

  lemma EntryLater(first: seq<string>, later: seq<string>, k: nat, j: nat, cycle: nat, id: string)
    requires k == |first| + j && |later| == cycle > 0 && later[j % |later|] == id
    ensures HasEntry(first, later, k) && Entry(first, later, k) == Sent(id, 2 + j / cycle)
  {
  }

  /** A credential whose failures never match is scheduled exactly once, in the first round. */
  lemma RetiredOnce(l: seq<Candidate>, x: set<string>, r: nat, i: nat) returns (k: nat)
    requires Ordered(l) && i < |l| && l[i].id in x
    ensures Scheduled(l, x, r, k) && Nth(l, x, r, k) == Sent(l[i].id, 1)
    ensures forall j: nat :: Scheduled(l, x, r, j) && Nth(l, x, r, j).id == l[i].id ==> j == k
  {
    k := FirstRound(l, x, r, i, 0);
    forall j: nat | Scheduled(l, x, r, j) && Nth(l, x, r, j).id == l[i].id ensures j == k {
      AtMostOnce(l, x, r, j, k);
    }
  }

  lemma AtMostOnce(l: seq<Candidate>, x: set<string>, r: nat, j: nat, k: nat)
    requires Ordered(l) && Scheduled(l, x, r, j) && Scheduled(l, x, r, k)
    requires Nth(l, x, r, j).id == Nth(l, x, r, k).id && Nth(l, x, r, k).id in x
    ensures j == k && Nth(l, x, r, k).round == 1
  {
    LiveMembers(l, x);
    BlockEntries(l, x, r);
    BlockEntries(Live(l, x), x, r);
    assert forall id :: id in IDs(Live(l, x)) ==> id !in x;
  }
}
