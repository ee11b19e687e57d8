/** The table of live requests, keyed by an opaque token, and the isolation of requests from one another. */
module Sequences {
  import opened Scheduler
  import opened CredentialRetry

  type World = map<string, State>

  /** A step of one request: its owner's moves while it is live, or a host callback carrying its token. */
  datatype Op =
    | Begin(retries: int)
    | Release
    | Callback(offers: seq<Candidate>)
    | Prepare
    | Fail(retryable: bool)
    | Failover(maxAttempts: int, attempt: int)
    | Unpin

  datatype Response = Nothing | Picked(pick: PickResponse) | Pin(authID: string) | Gave(released: bool)

  /** One step of the request with this token; a token that is empty or not live is not handled. */
  function Apply(w: World, token: string, op: Op): (World, Response) {
    match op
    case Begin(retries) => (w[token := Initial(retries)], Nothing)
    case Release => (map k | k in w && k != token :: w[k], Nothing)
    case Callback(offers) =>
      if token == "" || token !in w then (w, Picked(Unhandled))
      else var (t, response) := Pick(w[token], offers); (w[token := t], Picked(response))
    case _ =>
      if token !in w then (w, Nothing)
      else var (t, response) := Own(w[token], op); (w[token := t], response)
  }

  function Own(s: State, op: Op): (State, Response) {
    match op
    case Prepare => (Prepared(s), Pin(s.authID))
    case Fail(retryable) => (AfterFailure(s, retryable), Nothing)
    case Failover(maxAttempts, attempt) =>
      if MayRelease(s, maxAttempts, attempt) then (Retired(s, false), Gave(true)) else (s, Gave(false))
    case Unpin => (Retired(s, false), Nothing)
    case _ => (s, Nothing)
  }

  datatype Move = Move(token: string, op: Op)

  /** The moves of one token, in order. */
  function Only(moves: seq<Move>, token: string): seq<Move> {
    if moves == [] then []
    else (if moves[0].token == token then [moves[0]] else []) + Only(moves[1..], token)
  }

  function Play(w: World, moves: seq<Move>): World
    decreases |moves|
  {
    if moves == [] then w else Play(Apply(w, moves[0].token, moves[0].op).0, moves[1..])
  }

  /** What one token's moves are answered during an interleaving. */
  function Answers(w: World, moves: seq<Move>, token: string): seq<Response>
    decreases |moves|
  {
    if moves == [] then []
    else
      var (next, response) := Apply(w, moves[0].token, moves[0].op);
      (if moves[0].token == token then [response] else []) + Answers(next, moves[1..], token)
  }

  predicate SameFor(a: World, b: World, token: string) {
    (token in a <==> token in b) && (token in a ==> a[token] == b[token])
  }

  lemma OthersUntouched(w: World, token: string, op: Op, other: string)
    requires other != token
    ensures SameFor(Apply(w, token, op).0, w, other)
  {
  }

  lemma OwnOnly(a: World, b: World, token: string, op: Op)
    requires SameFor(a, b, token)
    ensures SameFor(Apply(a, token, op).0, Apply(b, token, op).0, token)
    ensures Apply(a, token, op).1 == Apply(b, token, op).1
  {
  }

  /** Interleaving with any other requests changes neither a request's answers nor its final state. */
  lemma {:induction false} Isolation(a: World, b: World, moves: seq<Move>, token: string)
    requires SameFor(a, b, token)
    ensures SameFor(Play(a, moves), Play(b, Only(moves, token)), token)
    ensures Answers(a, moves, token) == Answers(b, Only(moves, token), token)
    decreases |moves|
  {
    if moves != [] {
      var m := moves[0];
      var rest := Only(moves[1..], token);
      var a' := Apply(a, m.token, m.op).0;
      if m.token == token {
        assert Only(moves, token) == [m] + rest && ([m] + rest)[1..] == rest;
        OwnOnly(a, b, token, m.op);
        Isolation(a', Apply(b, token, m.op).0, moves[1..], token);
      } else {
        assert Only(moves, token) == rest;
        OthersUntouched(a, m.token, m.op, token);
        Isolation(a', b, moves[1..], token);
      }
    }
  }

  /** The concurrent table. Each live token has an object of its own. */
  class Table {
    var live: map<string, Credentials>

    ghost predicate Distinct()
      reads this
    {
      forall a, b :: a in live && b in live && a != b ==> live[a] != live[b]
    }

    ghost function View(): World
      reads this, live.Values
    {
      map k | k in live :: live[k].View()
    }

    constructor ()
      ensures Distinct() && View() == map[]
    {
      live := map[];
    }

    /** Without same-credential retries there is no scheduler and nothing is stored. */
    method BeginCredentialRetry(token: string, retries: int) returns (c: Credentials?)
      requires Distinct()
      modifies this
      ensures Distinct()
      ensures retries == 0 ==> c == null && live == old(live) && View() == old(View())
      ensures retries != 0 ==> c != null && fresh(c) && live == old(live)[token := c]
      ensures retries != 0 ==> View() == Apply(old(View()), token, Begin(retries)).0
    {
      if retries == 0 {
        return null;
      }
      c := new Credentials(retries);
      live := live[token := c];
    }

    static method OwnerStep(c: Credentials, op: Op) returns (response: Response)
      modifies c
      ensures (c.View(), response) == Own(old(c.View()), op)
    {
      response := Nothing;
      match op {
        case Prepare =>
          var pin := c.Prepare();
          response := Pin(pin);
        case Fail(retryable) =>
          c.Failed(retryable);
        case Failover(maxAttempts, attempt) =>
          var released := c.ReleaseForFailover(maxAttempts, attempt);
          response := Gave(released);
        case Unpin =>
          c.Retire(false);
        case _ =>
      }
    }

    /** A move of the request's owner reaches its own scheduler and leaves every other request as it was. */
    method OwnerMove(token: string, op: Op) returns (response: Response)
      requires Distinct() && token in live && (op.Prepare? || op.Fail? || op.Failover? || op.Unpin?)
      modifies live[token]
      ensures Distinct() && live == old(live)
      ensures (View(), response) == Apply(old(View()), token, op)
    {
      response := OwnerStep(live[token], op);
      assert View() == old(View())[token := live[token].View()];
    }

    method ReleaseCredentials(token: string)
      requires Distinct()
      modifies this
      ensures Distinct()
      ensures View() == Apply(old(View()), token, Release).0
    {
      live := map k | k in live && k != token :: live[k];
    }

    method PickRetryCredential(token: string, offers: seq<Candidate>) returns (response: PickResponse)
      requires Distinct()
      modifies live.Values
      ensures Distinct() && live == old(live)
      ensures (View(), Picked(response)) == Apply(old(View()), token, Callback(offers))
    {
      if token == "" || token !in live {
        return Unhandled;
      }
      var c := live[token];
      response := c.Choose(offers);
      assert (c.View(), response) == Pick(old(View())[token], offers);
      assert View() == old(View())[token := c.View()];
    }
  }
}
