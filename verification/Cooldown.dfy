/** What an undispatched host call means: a cooldown to wait for, a lost pin, or no credential at all. */
module Cooldown {
  import opened Wrappers
  import opened Text
  import opened Config
  import opened ErrorStatus
  import opened Scheduler
  import Backoff

  /**
   Decoders outside this plugin. `pattern` finds a status in a message; `recovery` decodes a JSON object
   and yields its reset_seconds when its error code is model_cooldown.
   */
  datatype Env = Env(pattern: StatusPattern, recovery: string -> Option<int>)

  /** Runtime metadata of one credential; `remaining` is the time until it may be retried, in nanoseconds. */
  datatype AuthEntry = AuthEntry(id: string, disabled: bool, remaining: int)

  function IndexOf(s: string, c: char): (i: int)
    ensures -1 <= i < |s|
  {
    if s == [] then -1
    else if s[0] == c then 0
    else if IndexOf(s[1..], c) < 0 then -1
    else 1 + IndexOf(s[1..], c)
  }

  function KnownCooldown(env: Env, message: string): Option<int> {
    var start := IndexOf(message, '{');
    if start < 0 then None else env.recovery(message[start..])
  }

  /** Credentials this request has seen and not excluded. */
  function EligibleIDs(s: State): set<string> {
    s.candidates - s.excluded
  }

  predicate AllExcluded(s: State) {
    s.candidates != {} && EligibleIDs(s) == {}
  }

  predicate NamesUnavailable(message: string) {
    Contains(message, "auth_unavailable") || Contains(message, "auth_not_found")
  }

  /** The entry is cooling and concerns this request: the pinned credential, or any eligible one without a pin. */
  predicate Cooling(s: State, entry: AuthEntry) {
    && !entry.disabled
    && entry.remaining > 0
    && (if s.authID != "" then entry.id == s.authID else entry.id in EligibleIDs(s))
  }

  function WholeSeconds(entry: AuthEntry): int {
    entry.remaining / Backoff.NS_PER_SECOND + 1
  }

  /** `seconds` is the least wait among the cooling entries, when there is one. */
  ghost predicate LeastWait(s: State, entries: seq<AuthEntry>, seconds: Option<int>) {
    if seconds.None? then forall e :: e in entries ==> !Cooling(s, e)
    else
      && (exists e :: e in entries && Cooling(s, e) && WholeSeconds(e) == seconds.value)
      && forall e :: e in entries && Cooling(s, e) ==> seconds.value <= WholeSeconds(e)
  }

  function MinWait(s: State, entries: seq<AuthEntry>): Option<int> {
    if entries == [] then None
    else
      var before := MinWait(s, entries[..|entries| - 1]);
      var e := entries[|entries| - 1];
      if Cooling(s, e) && (before.None? || WholeSeconds(e) < before.value) then Some(WholeSeconds(e)) else before
  }

  lemma {:induction false} MinWaitIsLeast(s: State, entries: seq<AuthEntry>)
    ensures LeastWait(s, entries, MinWait(s, entries))
  {
    if entries != [] {
      var n := |entries| - 1;
      MinWaitIsLeast(s, entries[..n]);
      assert entries == entries[..n] + [entries[n]];
      var before := MinWait(s, entries[..n]);
      if MinWait(s, entries).Some? {
        if MinWait(s, entries) == before {
          var e :| e in entries[..n] && Cooling(s, e) && WholeSeconds(e) == before.value;
          assert e in entries;
        } else {
          assert entries[n] in entries;
        }
      }
    }
  }

  /** The recovery time the host reported: from the error itself, else from the runtime metadata. */
  function RecoverySeconds(env: Env, s: State, e: Err, list: Option<seq<AuthEntry>>): Option<int> {
    var message := ErrorText(e);
    if AllExcluded(s) then None
    else if KnownCooldown(env, message).Some? then KnownCooldown(env, message)
    else if !NamesUnavailable(message) || list.None? then None
    else MinWait(s, list.value)
  }

  /** max(backoff, min(max_delay, at least one second)), for any reported number of seconds. */
  function PollDelay(cfg: PluginConfig, attempt: int, seconds: int): int {
    Backoff.Max(Backoff.Delay(cfg.initialDelayMS, cfg.maxDelayMS, attempt),
                Backoff.Min(cfg.maxDelayMS * Backoff.NS_PER_MILLI, Backoff.Max(1, seconds) * Backoff.NS_PER_SECOND))
  }

  function CooldownDelay(env: Env, cfg: PluginConfig, s: State, e: Err, attempt: int,
                         list: Option<seq<AuthEntry>>): Option<int> {
    var seconds := RecoverySeconds(env, s, e, list);
    if s.dispatched || seconds.None? then None else Some(PollDelay(cfg, attempt, seconds.value))
  }

  /** A poll always waits at least the backoff and never beyond the configured maximum delay. */
  lemma PollDelayBounds(cfg: PluginConfig, attempt: nat, seconds: int)
    requires ValidPolicy(cfg) && attempt >= 1
    ensures 0 < Backoff.Delay(cfg.initialDelayMS, cfg.maxDelayMS, attempt) <= PollDelay(cfg, attempt, seconds)
    ensures PollDelay(cfg, attempt, seconds) <= cfg.maxDelayMS * Backoff.NS_PER_MILLI <= Backoff.MAX_INT64
  {
    Backoff.ValidatedDelay(cfg.initialDelayMS, cfg.maxDelayMS, attempt);
  }

  /** Between the backoff and the maximum delay a poll waits the reported seconds, and otherwise the nearer bound. */
  lemma PollDelayExactly(cfg: PluginConfig, attempt: nat, seconds: int)
    requires ValidPolicy(cfg) && attempt >= 1
    ensures var least := Backoff.Delay(cfg.initialDelayMS, cfg.maxDelayMS, attempt);
      var most, wait := cfg.maxDelayMS * 1_000_000, PollDelay(cfg, attempt, seconds);
      && (least <= seconds * 1_000_000_000 <= most && seconds >= 1 ==> wait == seconds * 1_000_000_000)
      && (seconds * 1_000_000_000 >= most ==> wait == most)
      && (seconds * 1_000_000_000 <= least && least >= 1_000_000_000 ==> wait == least)
  {
    Backoff.ValidatedDelay(cfg.initialDelayMS, cfg.maxDelayMS, attempt);
  }

  /** What becomes of a wait of so many nanoseconds: nothing, or the error of the context that cuts it short. */
  type Timer = int -> Option<Err>

  const FULL_WAIT: Timer := (delay: int) => None

  /** No wait is cut short. */
  ghost predicate Uncut(wait: Timer) {
    forall delay :: wait(delay).None?
  }

  /** The context is done: every wait is cut short. */
  ghost predicate Cut(wait: Timer) {
    forall delay :: delay > 0 ==> wait(delay).Some?
  }

  /** A wait reports an error only when it actually waits. */
  function WaitResult(delay: int, wait: Timer): Option<Err> {
    if delay <= 0 then None else wait(delay)
  }

  datatype Verdict =
    | Dispatched                     // the failure, if any, belongs to a dispatched attempt
    | Polled(wait: Option<Err>)      // cooling down: the same attempt will be made again
    | Released                       // the pinned credential is gone
    | NoCredential                   // nothing left to dispatch

  /** How the failure of a host call is classified before it may count as an attempt. */
  function SelectionFailure(env: Env, cfg: PluginConfig, s: State, e: Option<Err>, attempt: int,
                            list: Option<seq<AuthEntry>>, wait: Timer): (State, Verdict) {
    if s.dispatched || e.None? then (s, Dispatched)
    else
      var delay := CooldownDelay(env, cfg, s, e.value, attempt, list);
      if delay.Some? then (s, Polled(WaitResult(delay.value, wait)))
      else if s.authID != "" then (Retired(s, false), Released)
      else (s, NoCredential)
  }
}
