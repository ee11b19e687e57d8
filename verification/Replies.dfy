/** What the plain executor makes of each answer of the host. */
module Replies {
  import opened Wrappers
  import opened Config
  import opened ErrorStatus
  import opened Scheduler
  import opened Cooldown
  import opened RetryLoop
  import opened Executor
  import opened Decisions

  /** The error an answer stands for; a response with an error status is one, a body that cannot be decoded is too. */
  function ErrorOfReply(r: ExecuteReply): Option<Err> {
    match r
    case CallError(e) => Some(e)
    case Undecodable(e) => Some(e)
    case Response(code) => if code < 400 then None else Some(StatusError(code, None))
  }

  /** The host answered with a status that is neither an error nor configured to be retried. */
  predicate Good(cfg: PluginConfig, r: ExecuteReply) {
    r.Response? && r.code < 400 && !(r.code > 0 && r.code in cfg.statusCodes)
  }

  /**
   An answer completes the request exactly when it is a decoded response below 400 whose status is not configured;
   any other is judged, remembered and retried by the error it stands for.
   */
  lemma ReplyDecided(env: Env, cfg: PluginConfig, st: Loop, h: HostCall<ExecuteReply>)
    requires ValidPolicy(cfg) && st.result.None? && h.ctx.None? && st.attempt >= 1
    requires st.creds.Some? ==>
      Valid(st.creds.value) && (Answered(st.creds.value, h.picks) || ErrorOfReply(h.reply).None?)
    ensures var next, e := Step(env, cfg, st, Seen(env, h)), ErrorOfReply(h.reply);
      var status := if h.reply.Response? then h.reply.code else 0;
      && (next.result == Some(Completed) <==> Good(cfg, h.reply))
      && (!Good(cfg, h.reply) ==>
            && next.lastErr.Some? && Remembers(env, next.lastErr.value, e, status)
            && Decision(cfg, st, next,
                        Due(env, cfg, st.attempt, e, status, st.creds.Some? && AskedAgain(st.creds.value, h.picks)),
                        h.wait))
  {
    AcceptedExactly(env, cfg, st, Seen(env, h));
    if !Good(cfg, h.reply) {
      AttemptDecided(env, cfg, st, Seen(env, h));
      StatusOfError(env, cfg, ErrorOfReply(h.reply), Seen(env, h).reply.status,
                    if h.reply.Response? then h.reply.code else 0);
    }
  }

  /** A failure that is an error is judged and remembered by that error. */
  lemma StatusOfError(env: Env, cfg: PluginConfig, e: Option<Err>, a: int, b: int)
    requires e.Some? || a == b
    ensures forall last :: Remembers(env, last, e, a) <==> Remembers(env, last, e, b)
    ensures Matches(env, cfg, e, a) <==> Matches(env, cfg, e, b)
  {
  }
}
