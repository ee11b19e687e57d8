/**
 How errors.As walks an error tree, against the plain list of the tree's parts in depth-first order, and what that
 means for the status and the keywords an error is judged by.
 */
module ErrorSearch {
  import opened Wrappers
  import opened Text
  import opened Config
  import opened ErrorStatus
  import opened RetryRules

  /** The error and everything wrapped in it, depth first. */
  function Parts(e: Err): seq<Err> {
    match e
    case StatusError(_, Some(cause)) => [e] + Parts(cause)
    case Joined(_, causes) => [e] + PartsOf(causes)
    case _ => [e]
  }

  function PartsOf(causes: seq<Err>): seq<Err> {
    if causes == [] then [] else Parts(causes[0]) + PartsOf(causes[1..])
  }

  /** Part number `i` is the first one of its kind. */
  ghost predicate First(parts: seq<Err>, kind: Err -> bool, i: nat) {
    i < |parts| && kind(parts[i]) && forall j :: 0 <= j < i ==> !kind(parts[j])
  }

  ghost predicate Lacks(parts: seq<Err>, kind: Err -> bool) {
    forall j :: 0 <= j < |parts| ==> !kind(parts[j])
  }

  /** The first part of two lists: in the one list, or in the other behind it. */
  lemma FirstOfBoth(a: seq<Err>, b: seq<Err>, kind: Err -> bool, i: nat)
    requires First(a + b, kind, i)
    ensures i < |a| ==> First(a, kind, i)
    ensures i >= |a| ==> Lacks(a, kind) && First(b, kind, i - |a|)
  {
    forall j | 0 <= j < |a| && j < i ensures !kind(a[j]) { assert (a + b)[j] == a[j]; }
    forall j | 0 <= j < |b| && |a| + j < i ensures !kind(b[j]) { assert (a + b)[|a| + j] == b[j]; }
  }

  lemma LacksBoth(a: seq<Err>, b: seq<Err>, kind: Err -> bool)
    requires Lacks(a + b, kind)
    ensures Lacks(a, kind) && Lacks(b, kind)
  {
    forall j | 0 <= j < |a| ensures !kind(a[j]) { assert (a + b)[j] == a[j]; }
    forall j | 0 <= j < |b| ensures !kind(b[j]) { assert (a + b)[|a| + j] == b[j]; }
  }

  // ---- the status ---------------------------------------------------------

  const HAS_STATUS := (e: Err) => e.Coded? || e.StatusError? || e.StartupError?

  function StatusOfPart(e: Err): int
    requires HAS_STATUS(e)
  {
    e.status
  }

  /** The structured status is that of the first part with a StatusCode method; without such a part there is none. */
  lemma {:induction false} StatusInOrder(e: Err, i: nat)
    ensures First(Parts(e), HAS_STATUS, i) ==> FirstStatus(e) == Some(StatusOfPart(Parts(e)[i]))
    ensures Lacks(Parts(e), HAS_STATUS) ==> FirstStatus(e) == None
    decreases e
  {
    assert Parts(e)[0] == e;
    if e.Joined? {
      if First(Parts(e), HAS_STATUS, i) { FirstOfBoth([e], PartsOf(e.causes), HAS_STATUS, i); }
      if Lacks(Parts(e), HAS_STATUS) { LacksBoth([e], PartsOf(e.causes), HAS_STATUS); }
      StatusInCauses(e.causes, if i > 0 then i - 1 else 0);
    }
  }

  lemma {:induction false} StatusInCauses(causes: seq<Err>, i: nat)
    ensures First(PartsOf(causes), HAS_STATUS, i) ==> FirstStatusOf(causes) == Some(StatusOfPart(PartsOf(causes)[i]))
    ensures Lacks(PartsOf(causes), HAS_STATUS) ==> FirstStatusOf(causes) == None
    decreases causes
  {
    if causes != [] {
      var a, b := Parts(causes[0]), PartsOf(causes[1..]);
      if First(a + b, HAS_STATUS, i) { FirstOfBoth(a, b, HAS_STATUS, i); }
      if Lacks(a + b, HAS_STATUS) { LacksBoth(a, b, HAS_STATUS); }
      StatusInOrder(causes[0], i);
      StatusInCauses(causes[1..], if i >= |a| then i - |a| else 0);
    }
  }

  lemma {:induction false} DigitShown(s: string)
    ensures HasDigit(s) <==> exists i :: 0 <= i < |s| && '0' <= s[i] <= '9'
  {
    if s != [] {
      DigitShown(s[1..]);
      assert forall i :: 1 <= i < |s| ==> s[i] == s[1..][i - 1];
      if HasDigit(s[1..]) {
        var i :| 0 <= i < |s[1..]| && '0' <= s[1..][i] <= '9';
        assert s[i + 1] == s[1..][i];
      }
    }
  }

  /**
   Without a usable structured status, the status is the error status that the pattern reads in the text, and 0 when
   it reads none.
   */
  lemma StatusInText(p: StatusPattern, e: Err, status: int)
    requires StructuredStatus(e) == 0 && status != 0
    ensures StatusFromError(p, e) == status
       <==> 400 <= status <= 599 && p(ErrorText(e)) == Some(status)
              && exists i :: 0 <= i < |ErrorText(e)| && '0' <= ErrorText(e)[i] <= '9'
  {
    DigitShown(ErrorText(e));
  }

  // ---- the keywords -------------------------------------------------------

  const IS_STARTUP := (e: Err) => e.StartupError?

  lemma {:induction false} StartupInOrder(e: Err, i: nat)
    ensures First(Parts(e), IS_STARTUP, i) ==> FirstStartup(e) == Some(Parts(e)[i].details)
    ensures Lacks(Parts(e), IS_STARTUP) ==> FirstStartup(e) == None
    decreases e
  {
    assert Parts(e)[0] == e;
    match e
    case StatusError(_, Some(cause)) =>
      if First(Parts(e), IS_STARTUP, i) { FirstOfBoth([e], Parts(cause), IS_STARTUP, i); }
      if Lacks(Parts(e), IS_STARTUP) { LacksBoth([e], Parts(cause), IS_STARTUP); }
      StartupInOrder(cause, if i > 0 then i - 1 else 0);
    case Joined(_, causes) =>
      if First(Parts(e), IS_STARTUP, i) { FirstOfBoth([e], PartsOf(causes), IS_STARTUP, i); }
      if Lacks(Parts(e), IS_STARTUP) { LacksBoth([e], PartsOf(causes), IS_STARTUP); }
      StartupInCauses(causes, if i > 0 then i - 1 else 0);
    case _ =>
  }

  lemma {:induction false} StartupInCauses(causes: seq<Err>, i: nat)
    ensures First(PartsOf(causes), IS_STARTUP, i) ==> FirstStartupOf(causes) == Some(PartsOf(causes)[i].details)
    ensures Lacks(PartsOf(causes), IS_STARTUP) ==> FirstStartupOf(causes) == None
    decreases causes
  {
    if causes != [] {
      var a, b := Parts(causes[0]), PartsOf(causes[1..]);
      if First(a + b, IS_STARTUP, i) { FirstOfBoth(a, b, IS_STARTUP, i); }
      if Lacks(a + b, IS_STARTUP) { LacksBoth(a, b, IS_STARTUP); }
      StartupInOrder(causes[0], i);
      StartupInCauses(causes[1..], if i >= |a| then i - |a| else 0);
    }
  }

  ghost predicate Occurs(part: Bytes, text: Bytes) {
    exists before, after :: text == before + part + after
  }

  /** A configured keyword, blank ones aside, occurs in the text; case and outer white space do not count. */
  ghost predicate SomeKeywordIn(cfg: PluginConfig, text: string) {
    exists k :: k in cfg.retryKeywords && NormalizeKey(k) != "" && Occurs(NormalizeKey(k), NormalizeKey(text))
  }

  lemma OccursIsContains(part: Bytes, text: Bytes)
    ensures Contains(text, part) <==> Occurs(part, text)
  {
    if Contains(text, part) {
      var at :| 0 <= at <= |text| && part <= text[at..];
      assert text == text[..at] + part + text[at + |part|..];
    }
    if Occurs(part, text) {
      var before, after :| text == before + part + after;
      assert text[|before|..] == part + after;
    }
  }

  lemma KeywordOccurs(cfg: PluginConfig, e: Err, text: string)
    requires KeywordText(e) == NormalizeKey(text)
    ensures KeywordRule(cfg, Some(e)) <==> SomeKeywordIn(cfg, text)
  {
    forall k ensures KeywordMatches(k, KeywordText(e))
                <==> NormalizeKey(k) != "" && Occurs(NormalizeKey(k), NormalizeKey(text)) {
      OccursIsContains(NormalizeKey(k), NormalizeKey(text));
    }
    RuleIsMembership(cfg, e);
  }

  lemma RuleIsMembership(cfg: PluginConfig, e: Err)
    ensures KeywordRule(cfg, Some(e)) <==> exists k :: k in cfg.retryKeywords && KeywordMatches(k, KeywordText(e))
  {
    if k :| k in cfg.retryKeywords && KeywordMatches(k, KeywordText(e)) {
      var i :| 0 <= i < |cfg.retryKeywords| && cfg.retryKeywords[i] == k;
    }
  }

  /**
   A failure found in a stream is matched by the details the upstream sent, wherever in the error it is wrapped;
   every other error by its message.
   */
  lemma KeywordDecided(cfg: PluginConfig, e: Err, i: nat)
    ensures First(Parts(e), IS_STARTUP, i) ==>
      (KeywordRule(cfg, Some(e)) <==> SomeKeywordIn(cfg, Parts(e)[i].details))
    ensures Lacks(Parts(e), IS_STARTUP) ==> (KeywordRule(cfg, Some(e)) <==> SomeKeywordIn(cfg, ErrorText(e)))
  {
    StartupInOrder(e, i);
    if First(Parts(e), IS_STARTUP, i) { KeywordOccurs(cfg, e, Parts(e)[i].details); }
    if Lacks(Parts(e), IS_STARTUP) { KeywordOccurs(cfg, e, ErrorText(e)); }
  }
}
