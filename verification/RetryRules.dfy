/** When a failed attempt matches a retry rule, and when it may be retried. */
module RetryRules {
  import opened Wrappers
  import opened Text
  import opened Config
  import opened ErrorStatus

  predicate ShouldRetryStatus(cfg: PluginConfig, status: int) {
    status > 0 && status in cfg.statusCodes
  }

  /** The text keywords are matched against: the upstream details of a startup failure, else the message. */
  function KeywordText(e: Err): string {
    NormalizeKey(if FirstStartup(e).Some? then FirstStartup(e).value else ErrorText(e))
  }

  predicate KeywordMatches(keyword: string, text: string) {
    NormalizeKey(keyword) != "" && Contains(text, NormalizeKey(keyword))
  }

  predicate KeywordRule(cfg: PluginConfig, e: Option<Err>) {
    e.Some? && exists i :: 0 <= i < |cfg.retryKeywords| && KeywordMatches(cfg.retryKeywords[i], KeywordText(e.value))
  }

  /** The configured keyword that matched first, in normal form, or "" when none matches. */
  method RetryKeywordFromError(cfg: PluginConfig, e: Option<Err>) returns (keyword: string)
    ensures keyword != "" <==> KeywordRule(cfg, e)
    ensures keyword != "" ==> exists i :: 0 <= i < |cfg.retryKeywords| && FirstMatch(cfg, KeywordText(e.value), i)
                                        && keyword == NormalizeKey(cfg.retryKeywords[i])
  {
    if e.None? || |cfg.retryKeywords| == 0 {
      return "";
    }
    var text := NormalizeKey(ErrorText(e.value));
    var startup := FirstStartup(e.value);
    if startup.Some? {
      text := NormalizeKey(startup.value);
    }
    if text == "" {
      NothingInEmptyText();
      return "";
    }
    for i := 0 to |cfg.retryKeywords|
      invariant forall j :: 0 <= j < i ==> !KeywordMatches(cfg.retryKeywords[j], text)
    {
      keyword := NormalizeKey(cfg.retryKeywords[i]);
      if keyword != "" && Contains(text, keyword) {
        assert KeywordMatches(cfg.retryKeywords[i], text);
        assert FirstMatch(cfg, text, i);
        return;
      }
    }
    keyword := "";
  }

  ghost predicate FirstMatch(cfg: PluginConfig, text: string, i: nat)
    requires i < |cfg.retryKeywords|
  {
    KeywordMatches(cfg.retryKeywords[i], text) && forall j :: 0 <= j < i ==> !KeywordMatches(cfg.retryKeywords[j], text)
  }

  lemma NothingInEmptyText()
    ensures forall k :: !KeywordMatches(k, "")
  {
    forall k | NormalizeKey(k) != "" ensures !Contains("", NormalizeKey(k)) {
    }
  }

  /** Either rule makes a failure retryable. */
  predicate RuleMatches(cfg: PluginConfig, status: int, e: Option<Err>) {
    ShouldRetryStatus(cfg, status) || KeywordRule(cfg, e)
  }

  predicate BelowCap(cfg: PluginConfig, attempt: int) {
    cfg.maxAttempts == 0 || attempt < cfg.maxAttempts
  }

  /** The retry decision: the status rule first, then the keyword rule, each under the attempt cap. */
  method ShouldRetryFailure(cfg: PluginConfig, attempt: int, status: int, e: Option<Err>)
    returns (retry: bool, keyword: string)
    ensures retry <==> RuleMatches(cfg, status, e) && BelowCap(cfg, attempt)
    ensures keyword != "" ==> !ShouldRetryStatus(cfg, status) && KeywordRule(cfg, e)
  {
    if ShouldRetryStatus(cfg, status) {
      return BelowCap(cfg, attempt), "";
    }
    keyword := RetryKeywordFromError(cfg, e);
    if keyword == "" {
      return false, "";
    }
    retry := cfg.maxAttempts == 0 || attempt < cfg.maxAttempts;
  }
}
