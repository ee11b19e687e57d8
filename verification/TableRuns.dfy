/** A retry loop's turns as moves on the shared table, and what interleaved requests can do to them: nothing. */
module TableRuns {
  import opened Wrappers
  import opened Config
  import opened ErrorStatus
  import opened RetryRules
  import opened Scheduler
  import opened Cooldown
  import opened RetryLoop
  import opened Turns
  import opened Sequences

  function Moves(token: string, ops: seq<Op>): seq<Move> {
    if ops == [] then [] else [Move(token, ops[0])] + Moves(token, ops[1..])
  }

  /** The host's callbacks, as they reach the table. */
  function Asks(picks: seq<seq<Candidate>>): seq<Op> {
    if picks == [] then [] else [Callback(picks[0])] + Asks(picks[1..])
  }

  /** The credentials that these answers hand out, in order. */
  function Granted(answers: seq<Response>): seq<string> {
    if answers == [] then []
    else
      var first := answers[0];
      (if first.Picked? && first.pick.Use? then [first.pick.authID] else []) + Granted(answers[1..])
  }

  /** The dispatches in a piece of the trace, in order. */
  function Sends(log: seq<Record>): seq<string> {
    if log == [] then []
    else Sends(log[..|log| - 1]) + SendOf(log[|log| - 1].sent)
  }

  function SendOf(sent: Option<Sent>): seq<string> {
    if sent.Some? then [sent.value.id] else []
  }

  lemma {:induction false} MovesAppend(token: string, a: seq<Op>, b: seq<Op>)
    ensures Moves(token, a + b) == Moves(token, a) + Moves(token, b)
    decreases |a|
  {
    if a == [] {
      assert a + b == b;
    } else {
      assert (a + b)[1..] == a[1..] + b;
      MovesAppend(token, a[1..], b);
    }
  }

  lemma {:induction false} PlayAppend(w: World, a: seq<Move>, b: seq<Move>)
    ensures Play(w, a + b) == Play(Play(w, a), b)
    decreases |a|
  {
    if a == [] {
      assert a + b == b;
    } else {
      assert (a + b)[1..] == a[1..] + b;
      PlayAppend(Apply(w, a[0].token, a[0].op).0, a[1..], b);
    }
  }

  lemma {:induction false} AnswersAppend(w: World, a: seq<Move>, b: seq<Move>, token: string)
    ensures Answers(w, a + b, token) == Answers(w, a, token) + Answers(Play(w, a), b, token)
    decreases |a|
  {
    if a == [] {
      assert a + b == b;
    } else {
      assert (a + b)[1..] == a[1..] + b;
      var (next, response) := Apply(w, a[0].token, a[0].op);
      var head := if a[0].token == token then [response] else [];
      AnswersAppend(next, a[1..], b, token);
      assert Answers(w, a + b, token) == head + (Answers(next, a[1..], token) + Answers(Play(next, a[1..]), b, token));
    }
  }

  lemma {:induction false} GrantedAppend(a: seq<Response>, b: seq<Response>)
    ensures Granted(a + b) == Granted(a) + Granted(b)
  {
    if a == [] {
      assert a + b == b;
    } else {
      assert (a + b)[1..] == a[1..] + b;
      GrantedAppend(a[1..], b);
    }
  }

  /** A callback reaches the scheduler of its token's request and is answered by it; without one it is unhandled. */
  lemma CallbackReaches(w: World, token: string, offers: seq<Candidate>)
    requires token != "" && token in w ==> InCall(w[token])
    ensures var (next, response) := Apply(w, token, Callback(offers));
      if token == "" || token !in w then next == w && response == Picked(Unhandled)
      else
        && response.Picked? && response.pick != Unhandled
        && (response.pick.Use? <==> !w[token].dispatched && exists c :: c in offers && Dispatchable(w[token], c))
        && (response.pick.Use? ==> next[token].dispatched && next[token].authID == response.pick.authID)
  {
    if token != "" && token in w { PickRules(w[token], offers); }
  }

  /** The callbacks of a host call are these moves: same scheduler, same credential. */
  lemma {:induction false} CallbacksAreMoves(w: World, token: string, picks: seq<seq<Candidate>>)
    requires token != "" && token in w && InCall(w[token])
    ensures Play(w, Moves(token, Asks(picks))) == w[token := Callbacks(w[token], picks).0]
    ensures Granted(Answers(w, Moves(token, Asks(picks)), token)) == SendOf(Callbacks(w[token], picks).1)
    decreases |picks|
  {
    if picks == [] {
      assert w[token := w[token]] == w;
    } else {
      var (t, response) := Pick(w[token], picks[0]);
      CallbacksFrom(w[token], picks);
      CallbacksAreMoves(w[token := t], token, picks[1..]);
      var u := Callbacks(t, picks[1..]).0;
      OneMoreCallback(w, token, picks, t, response, u, Answers(w[token := t], Moves(token, Asks(picks[1..])), token));
    }
  }

  lemma CallbacksFrom(s: State, picks: seq<seq<Candidate>>)
    requires InCall(s) && picks != []
    ensures var (t, response) := Pick(s, picks[0]);
      && InCall(t) && Callbacks(s, picks).0 == Callbacks(t, picks[1..]).0
      && SendOf(Callbacks(s, picks).1)
           == (if response.Use? then [response.authID] else []) + SendOf(Callbacks(t, picks[1..]).1)
  {
    PickRules(s, picks[0]);
    var t := Pick(s, picks[0]).0;
    if t.dispatched { RestRejected(t, picks[1..]); }
  }

  lemma OneMoreCallback(w: World, token: string, picks: seq<seq<Candidate>>, t: State, response: PickResponse, u: State,
                        later: seq<Response>)
    requires token != "" && token in w && picks != [] && Pick(w[token], picks[0]) == (t, response)
    requires later == Answers(w[token := t], Moves(token, Asks(picks[1..])), token)
    requires Play(w[token := t], Moves(token, Asks(picks[1..]))) == w[token := t][token := u]
    ensures Play(w, Moves(token, Asks(picks))) == w[token := u]
    ensures Granted(Answers(w, Moves(token, Asks(picks)), token))
         == (if response.Use? then [response.authID] else []) + Granted(later)
  {
    var moves, rest := Moves(token, Asks(picks)), Moves(token, Asks(picks[1..]));
    assert Asks(picks)[1..] == Asks(picks[1..]);
    assert moves == [Move(token, Callback(picks[0]))] + rest && moves[1..] == rest;
    assert Answers(w, moves, token) == [Picked(response)] + later;
    assert ([Picked(response)] + later)[1..] == later;
    assert w[token := t][token := u] == w[token := u];
  }

  // ---- one turn -----------------------------------------------------------

  /** What the loop itself does to its scheduler after a call, by the class of that call. */
  predicate Closes(cfg: PluginConfig, attempt: int, kind: Kind, released: bool, tail: seq<Op>) {
    match kind
    case Release => tail == [Unpin]
    case Matched => tail == if MoreLeft(cfg, attempt) then [Fail(true)] else []
    case Unmatched =>
      tail == [Failover(cfg.maxAttempts, attempt)] + if released then [Fail(false)] else []
    case _ => tail == []
  }

  predicate MoreLeft(cfg: PluginConfig, attempt: int) {
    cfg.maxAttempts == 0 || attempt < cfg.maxAttempts
  }

  function OwnMoves(picks: seq<seq<Candidate>>, tail: seq<Op>): seq<Op> {
    [Prepare] + Asks(picks) + tail
  }

  /**
   In every table where the request's scheduler is `s`, these moves lead it to `t`, and their answers hand out these
   credentials.
   */
  ghost predicate Leads(token: string, s: State, ops: seq<Op>, ids: seq<string>, t: State) {
    forall w: World :: token in w && w[token] == s ==> LeadsIn(w, token, ops, ids, t)
  }

  predicate LeadsIn(w: World, token: string, ops: seq<Op>, ids: seq<string>, t: State) {
    Play(w, Moves(token, ops)) == w[token := t] && Granted(Answers(w, Moves(token, ops), token)) == ids
  }

  lemma LeadsNowhere(token: string, s: State)
    ensures Leads(token, s, [], [], s)
  {
    forall w: World | token in w && w[token] == s ensures LeadsIn(w, token, [], [], s) {
      assert w[token := s] == w;
    }
  }

  lemma LeadsOne(token: string, s: State, op: Op, t: State)
    requires (op.Fail? || op.Failover? || op.Unpin? || op.Prepare?) && Own(s, op).0 == t
    ensures Leads(token, s, [op], [], t)
  {
    forall w: World | token in w && w[token] == s ensures LeadsIn(w, token, [op], [], t) {
      var moves := Moves(token, [op]);
      assert [op][1..] == [] && Moves(token, [op][1..]) == [];
      assert moves == [Move(token, op)] && moves[1..] == [];
      var (next, response) := Apply(w, token, op);
      assert Play(next, []) == next && Answers(w, moves, token) == [response] + [];
      assert ([response] + [])[1..] == [] && !response.Picked?;
    }
  }

  lemma LeadsOn(token: string, s: State, a: seq<Op>, i: seq<string>, t: State, b: seq<Op>, j: seq<string>, u: State)
    requires Leads(token, s, a, i, t) && Leads(token, t, b, j, u)
    ensures Leads(token, s, a + b, i + j, u)
  {
    forall w: World | token in w && w[token] == s ensures LeadsIn(w, token, a + b, i + j, u) {
      assert LeadsIn(w, token, a, i, t) && LeadsIn(w[token := t], token, b, j, u);
      LeadsInBoth(w, token, a, i, t, b, j, u);
    }
  }

  lemma LeadsInBoth(w: World, token: string, a: seq<Op>, i: seq<string>, t: State, b: seq<Op>, j: seq<string>, u: State)
    requires LeadsIn(w, token, a, i, t) && LeadsIn(w[token := t], token, b, j, u)
    ensures LeadsIn(w, token, a + b, i + j, u)
  {
    MovesAppend(token, a, b);
    PlayAppend(w, Moves(token, a), Moves(token, b));
    AnswersAppend(w, Moves(token, a), Moves(token, b), token);
    GrantedAppend(Answers(w, Moves(token, a), token), Answers(w[token := t], Moves(token, b), token));
    assert w[token := t][token := u] == w[token := u];
  }

  lemma LeadsThroughCallbacks(token: string, s: State, picks: seq<seq<Candidate>>)
    requires token != "" && InCall(s)
    ensures Leads(token, s, Asks(picks), SendOf(Callbacks(s, picks).1), Callbacks(s, picks).0)
  {
    forall w: World | token in w && w[token] == s
      ensures LeadsIn(w, token, Asks(picks), SendOf(Callbacks(s, picks).1), Callbacks(s, picks).0)
    {
      CallbacksAreMoves(w, token, picks);
    }
  }

  /** The loop's own moves after a call that counted as an attempt and failed. */
  lemma ConcludeMoves(env: Env, cfg: PluginConfig, token: string, s: State, attempt: int, e: Option<Err>, status: int,
                      wait: Timer) returns (released: bool, tail: seq<Op>)
    requires ValidPolicy(cfg)
    ensures var x := Conclude(env, cfg, Some(s), attempt, e, status, wait);
      && x.creds.Some? && Leads(token, s, tail, [], x.creds.value)
      && Closes(cfg, attempt, if x.matched then Matched else Unmatched, released, tail)
      && (!x.matched && x.result.None? ==> released)
  {
    var x := Conclude(env, cfg, Some(s), attempt, e, status, wait);
    released := MayRelease(s, cfg.maxAttempts, attempt);
    LeadsNowhere(token, s);
    if x.matched {
      tail := if MoreLeft(cfg, attempt) then [Fail(true)] else [];
      LeadsOne(token, s, Fail(true), AfterFailure(s, true));
    } else {
      var failover, t := Failover(cfg.maxAttempts, attempt), Retired(s, false);
      LeadsOne(token, s, failover, if released then t else s);
      LeadsOne(token, t, Fail(false), AfterFailure(t, false));
      tail := [failover] + if released then [Fail(false)] else [];
      if released { LeadsOn(token, s, [failover], [], t, [Fail(false)], [], AfterFailure(t, false)); }
    }
  }

  /** The class of a turn, and the moves that follow its callbacks. */
  ghost predicate ClosedBy(cfg: PluginConfig, token: string, st: Loop, next: Loop, during: State, released: bool,
                           tail: seq<Op>) {
    && |next.log| == |st.log| + 1 && next.creds.Some?
    && Leads(token, during, tail, [], next.creds.value)
    && Closes(cfg, st.attempt, next.log[|st.log|].kind, released, tail)
    && (next.log[|st.log|].kind.Unmatched? && next.result.None? ==> released)
  }

  lemma SettleMoves(env: Env, cfg: PluginConfig, token: string, st: Loop, pin: string, sent: Option<Sent>, r: Reply,
                    wait: Timer) returns (released: bool, tail: seq<Op>)
    requires ValidPolicy(cfg) && st.result.None? && st.creds.Some?
    ensures ClosedBy(cfg, token, st, Settle(env, cfg, st, pin, sent, r, wait), st.creds.value, released, tail)
  {
    var e := Outcome(cfg, st.attempt, r);
    released, tail := ConcludeMoves(env, cfg, token, st.creds.value, st.attempt, e, r.status, wait);
    if e.None? && !ShouldRetryStatus(cfg, r.status) {
      tail := [];
      LeadsNowhere(token, st.creds.value);
    }
  }

  lemma UncountedMoves(env: Env, cfg: PluginConfig, token: string, st: Loop, during: State, pin: string,
                       sent: Option<Sent>, h: HostCall<Reply>) returns (tail: seq<Op>)
    requires st.result.None?
    requires var (after, v) := SelectionFailure(env, cfg, during, h.reply.err, st.attempt, h.authList, h.wait);
      !v.Dispatched? && st.creds == Some(after)
    ensures var v := SelectionFailure(env, cfg, during, h.reply.err, st.attempt, h.authList, h.wait).1;
      ClosedBy(cfg, token, st, Uncounted(env, st, pin, sent, v, h.reply.err), during, false, tail)
  {
    var (after, v) := SelectionFailure(env, cfg, during, h.reply.err, st.attempt, h.authList, h.wait);
    LeadsNowhere(token, during);
    LeadsOne(token, during, Unpin, Retired(during, false));
    tail := if v.Released? then [Unpin] else [];
  }

  /** The trace entry of a turn, and its dispatch. */
  lemma TurnRecord(env: Env, cfg: PluginConfig, st: Loop, h: HostCall<Reply>)
    requires st.result.None? && h.ctx.None? && st.creds.Some?
    ensures var next := Step(env, cfg, st, h);
      next.log == st.log + next.log[|st.log|..] && |next.log[|st.log|..]| == 1
        && Sends(next.log[|st.log|..]) == SendOf(Callbacks(Prepared(st.creds.value), h.picks).1)
  {
    var next := Step(env, cfg, st, h);
    var sent := Callbacks(Prepared(st.creds.value), h.picks).1;
    assert |next.log| == |st.log| + 1 && next.log[|st.log|].sent == sent;
    var entry := next.log[|st.log|];
    assert next.log[|st.log|..] == [entry] && [entry][..0] == [];
    assert Sends([entry]) == [] + SendOf(sent);
  }

  /**
   A turn of the loop is a sequence of moves on the table: the preparation, the host's callbacks, and then what the
   class of the call asks for. They take the table from the scheduler before the turn to the one after it, and hand out
   the credential that the trace records.
   */
  lemma TurnIsMoves(env: Env, cfg: PluginConfig, token: string, st: Loop, h: HostCall<Reply>)
    returns (released: bool, tail: seq<Op>)
    requires ValidPolicy(cfg) && token != "" && st.result.None? && h.ctx.None?
    requires st.creds.Some? && Valid(st.creds.value)
    ensures var next := Step(env, cfg, st, h);
      && |next.log| == |st.log| + 1 && next.creds.Some?
      && Leads(token, st.creds.value, OwnMoves(h.picks, tail), Sends(next.log[|st.log|..]), next.creds.value)
      && Closes(cfg, st.attempt, next.log[|st.log|].kind, released, tail)
      && (next.log[|st.log|].kind.Unmatched? && next.result.None? ==> released)
  {
    var s, next := st.creds.value, Step(env, cfg, st, h);
    var (during, sent) := Callbacks(Prepared(s), h.picks);
    var c := Call(env, cfg, st.creds, st.attempt, h, h.reply.err);
    if c.verdict.Dispatched? {
      released, tail := SettleMoves(env, cfg, token, st.(creds := c.creds), c.pin, c.sent, h.reply, h.wait);
    } else {
      released := false;
      tail := UncountedMoves(env, cfg, token, st.(creds := c.creds), during, c.pin, c.sent, h);
    }
    TurnRecord(env, cfg, st, h);
    ThroughCall(token, s, h.picks, tail, next.creds.value);
  }

  lemma ThroughCall(token: string, s: State, picks: seq<seq<Candidate>>, tail: seq<Op>, t: State)
    requires token != "" && Valid(s) && Leads(token, Callbacks(Prepared(s), picks).0, tail, [], t)
    ensures Leads(token, s, OwnMoves(picks, tail), SendOf(Callbacks(Prepared(s), picks).1), t)
  {
    var (during, sent) := Callbacks(Prepared(s), picks);
    StepsKeepValid(s, false);
    LeadsOne(token, s, Prepare, Prepared(s));
    LeadsThroughCallbacks(token, Prepared(s), picks);
    LeadsOn(token, s, [Prepare], [], Prepared(s), Asks(picks), SendOf(sent), during);
    LeadsOn(token, s, [Prepare] + Asks(picks), [] + SendOf(sent), during, tail, [], t);
    assert [] + SendOf(sent) + [] == SendOf(sent);
  }

  // ---- whole runs ---------------------------------------------------------

  lemma {:induction false} SendsAppend(a: seq<Record>, b: seq<Record>)
    ensures Sends(a + b) == Sends(a) + Sends(b)
    decreases |b|
  {
    if b == [] {
      assert a + b == a;
    } else {
      assert (a + b)[..|a + b| - 1] == a + b[..|b| - 1];
      SendsAppend(a, b[..|b| - 1]);
    }
  }

  /** The host's callbacks among these moves, in order. */
  function CallbacksIn(ops: seq<Op>): seq<seq<Candidate>> {
    if ops == [] then []
    else (if ops[0].Callback? then [ops[0].offers] else []) + CallbacksIn(ops[1..])
  }

  /** The callbacks of the first `n` calls of a script. */
  function PicksOf(script: seq<HostCall<Reply>>, n: nat): seq<seq<Candidate>>
    requires n <= |script|
  {
    if n == 0 then [] else script[0].picks + PicksOf(script[1..], n - 1)
  }

  lemma {:induction false} CallbacksInBoth(a: seq<Op>, b: seq<Op>)
    ensures CallbacksIn(a + b) == CallbacksIn(a) + CallbacksIn(b)
  {
    if a == [] {
      assert a + b == b;
    } else {
      assert (a + b)[1..] == a[1..] + b;
      CallbacksInBoth(a[1..], b);
    }
  }

  lemma {:induction false} CallbacksInAsks(picks: seq<seq<Candidate>>)
    ensures CallbacksIn(Asks(picks)) == picks
  {
    if picks != [] {
      assert Asks(picks)[1..] == Asks(picks[1..]);
      CallbacksInAsks(picks[1..]);
    }
  }

  lemma {:induction false} NoCallbacksIn(ops: seq<Op>)
    requires forall i :: 0 <= i < |ops| ==> !ops[i].Callback?
    ensures CallbacksIn(ops) == []
  {
    if ops != [] { NoCallbacksIn(ops[1..]); }
  }

  lemma OwnCallbacks(cfg: PluginConfig, attempt: int, kind: Kind, released: bool, picks: seq<seq<Candidate>>,
                     tail: seq<Op>)
    requires Closes(cfg, attempt, kind, released, tail)
    ensures CallbacksIn(OwnMoves(picks, tail)) == picks
  {
    assert forall i :: 0 <= i < |tail| ==> !tail[i].Callback?;
    NoCallbacksIn([Prepare]);
    NoCallbacksIn(tail);
    CallbacksInAsks(picks);
    CallbacksInBoth([Prepare] + Asks(picks), tail);
    CallbacksInBoth([Prepare], Asks(picks));
  }

  /** These moves are those of a run over the script: same callbacks, same scheduler, same credentials. */
  ghost predicate RunLeads(token: string, st: Loop, end: Loop, script: seq<HostCall<Reply>>, ops: seq<Op>) {
    && st.creds.Some? && end.creds.Some? && st.log <= end.log && |end.log| - |st.log| <= |script|
    && Leads(token, st.creds.value, ops, Sends(end.log[|st.log|..]), end.creds.value)
    && CallbacksIn(ops) == PicksOf(script, |end.log| - |st.log|)
  }

  /** A whole run is a sequence of moves that hands out exactly the credentials of its trace. */
  lemma {:induction false} RunIsMoves(env: Env, cfg: PluginConfig, token: string, st: Loop,
                                      script: seq<HostCall<Reply>>) returns (ops: seq<Op>)
    requires ValidPolicy(cfg) && token != "" && st.creds.Some? && Valid(st.creds.value)
    ensures RunLeads(token, st, Run(env, cfg, st, script), script, ops)
    decreases |script|
  {
    ops := [];
    LeadsNowhere(token, st.creds.value);
    if st.result.Some? {
      RunFinished(env, cfg, st, script);
    } else if script != [] {
      var next := Step(env, cfg, st, script[0]);
      var entry := TurnShape(env, cfg, st, script[0]);
      if script[0].ctx.Some? {
        RunFinished(env, cfg, next, script[1..]);
      } else {
        var released, tail := TurnIsMoves(env, cfg, token, st, script[0]);
        var rest := RunIsMoves(env, cfg, token, next, script[1..]);
        ops := OwnMoves(script[0].picks, tail) + rest;
        OwnCallbacks(cfg, st.attempt, next.log[|st.log|].kind, released, script[0].picks, tail);
        RunOn(token, st, next, Run(env, cfg, st, script), script, OwnMoves(script[0].picks, tail), rest);
      }
    }
  }

  lemma RunOn(token: string, st: Loop, next: Loop, end: Loop, script: seq<HostCall<Reply>>, turn: seq<Op>,
              rest: seq<Op>)
    requires script != [] && st.creds.Some? && next.creds.Some? && st.log <= next.log && |next.log| == |st.log| + 1
    requires Leads(token, st.creds.value, turn, Sends(next.log[|st.log|..]), next.creds.value)
    requires CallbacksIn(turn) == script[0].picks && RunLeads(token, next, end, script[1..], rest)
    ensures RunLeads(token, st, end, script, turn + rest)
  {
    var a, b := next.log[|st.log|..], end.log[|next.log|..];
    LeadsOn(token, st.creds.value, turn, Sends(a), next.creds.value, rest, Sends(b), end.creds.value);
    SendsAppend(a, b);
    Slices(st.log, next.log, end.log);
    CallbacksInBoth(turn, rest);
  }

  lemma Slices<T>(a: seq<T>, b: seq<T>, c: seq<T>)
    requires a <= b <= c
    ensures c[|a|..] == b[|a|..] + c[|b|..]
  {
  }

  /**
   Whatever other requests do to the table meanwhile, a request's callbacks are handed exactly the credentials of the
   run its loop would make alone, in order, and its scheduler ends as that run's.
   */
  lemma RunUndisturbed(env: Env, cfg: PluginConfig, token: string, st: Loop, script: seq<HostCall<Reply>>)
    returns (ops: seq<Op>)
    requires ValidPolicy(cfg) && token != "" && st.creds.Some? && Valid(st.creds.value)
    ensures var end := Run(env, cfg, st, script);
      && end.creds.Some? && st.log <= end.log
      && |end.log| - |st.log| <= |script| && CallbacksIn(ops) == PicksOf(script, |end.log| - |st.log|)
      && forall w: World, moves ::
           token in w && w[token] == st.creds.value && Only(moves, token) == Moves(token, ops) ==>
             && token in Play(w, moves) && Play(w, moves)[token] == end.creds.value
             && Granted(Answers(w, moves, token)) == Sends(end.log[|st.log|..])
  {
    ops := RunIsMoves(env, cfg, token, st, script);
    var end := Run(env, cfg, st, script);
    forall w: World, moves | token in w && w[token] == st.creds.value && Only(moves, token) == Moves(token, ops)
      ensures token in Play(w, moves) && Play(w, moves)[token] == end.creds.value
      ensures Granted(Answers(w, moves, token)) == Sends(end.log[|st.log|..])
    {
      assert LeadsIn(w, token, ops, Sends(end.log[|st.log|..]), end.creds.value);
      Isolation(w, w, moves, token);
    }
  }

  /** A request's moves from its beginning to its release. */
  function WholeRequest(retries: int, ops: seq<Op>): seq<Op> {
    [Begin(retries)] + ops + [Op.Release]
  }

  lemma BeginAndRelease(w: World, token: string, retries: int, ops: seq<Op>, ids: seq<string>, t: State)
    requires Leads(token, Initial(retries), ops, ids, t)
    ensures token !in Play(w, Moves(token, WholeRequest(retries, ops)))
    ensures Granted(Answers(w, Moves(token, WholeRequest(retries, ops)), token)) == ids
  {
    var begun := w[token := Initial(retries)];
    var first, mid, last := Moves(token, [Begin(retries)]), Moves(token, ops), Moves(token, [Op.Release]);
    OneMove(w, token, Begin(retries));
    OneMove(begun[token := t], token, Op.Release);
    assert LeadsIn(begun, token, ops, ids, t);
    MovesAppend(token, [Begin(retries)] + ops, [Op.Release]);
    MovesAppend(token, [Begin(retries)], ops);
    PlayAppend(w, first + mid, last);
    PlayAppend(w, first, mid);
    AnswersAppend(w, first + mid, last, token);
    AnswersAppend(w, first, mid, token);
    GrantedAppend(Answers(w, first + mid, token), Answers(begun[token := t], last, token));
    GrantedAppend(Answers(w, first, token), Answers(begun, mid, token));
  }

  lemma OneMove(w: World, token: string, op: Op)
    requires op.Begin? || op.Release?
    ensures Play(w, Moves(token, [op])) == Apply(w, token, op).0
    ensures Granted(Answers(w, Moves(token, [op]), token)) == []
  {
    var moves := Moves(token, [op]);
    assert [op][1..] == [] && Moves(token, [op][1..]) == [];
    assert moves == [Move(token, op)] && moves[1..] == [];
    var (next, response) := Apply(w, token, op);
    assert Play(next, []) == next && Answers(w, moves, token) == [response] + [];
    assert ([response] + [])[1..] == [] && !response.Picked?;
  }

  /**
   A whole request from its token's beginning to its release, in every table and every interleaving: its callbacks are
   handed exactly the credentials of the run that its loop makes alone from the start, and nothing of it remains.
   */
  lemma RequestUndisturbed(env: Env, cfg: PluginConfig, token: string, script: seq<HostCall<Reply>>)
    returns (ops: seq<Op>)
    requires ValidPolicy(cfg) && token != "" && cfg.sameAuthRetries > 0
    ensures var end := Run(env, cfg, Start(cfg), script);
      && |end.log| <= |script| && CallbacksIn(ops) == PicksOf(script, |end.log|)
      && forall w: World, moves :: Only(moves, token) == Moves(token, WholeRequest(cfg.sameAuthRetries, ops)) ==>
           token !in Play(w, moves) && Granted(Answers(w, moves, token)) == Sends(end.log)
  {
    InitialValid(cfg.sameAuthRetries);
    ops := RunIsMoves(env, cfg, token, Start(cfg), script);
    var end := Run(env, cfg, Start(cfg), script);
    assert end.log[0..] == end.log;
    forall w: World, moves | Only(moves, token) == Moves(token, WholeRequest(cfg.sameAuthRetries, ops))
      ensures token !in Play(w, moves) && Granted(Answers(w, moves, token)) == Sends(end.log)
    {
      BeginAndRelease(w, token, cfg.sameAuthRetries, ops, Sends(end.log), end.creds.value);
      Isolation(w, w, moves, token);
    }
  }
}
