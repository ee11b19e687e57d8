/** The policy a request runs under, field by field, from the configuration as it was decoded. */
module EffectivePolicy {
  import opened Wrappers
  import opened Text
  import opened Config

  /** The model name stands for this override's name: same letters up to case, white space around it aside. */
  ghost predicate Names(model: string, name: string) {
    NormalizeKey(model) == NormalizeKey(name)
  }

  /** The effective codes are the real HTTP statuses of the list that applies. */
  ghost predicate CodesFrom(effective: seq<int>, decoded: seq<int>) {
    && (forall code :: code in effective <==> code in decoded && 100 <= code <= 599)
    && (forall i, j :: 0 <= i < j < |effective| ==> effective[i] != effective[j])
  }

  /** The effective keywords are the normal forms of the list that applies, blank ones aside. */
  ghost predicate KeywordsFrom(effective: seq<string>, decoded: seq<string>) {
    && (forall key :: key in effective <==> key != "" && exists k :: k in decoded && NormalizeKey(k) == key)
    && (forall i, j :: 0 <= i < j < |effective| ==> effective[i] != effective[j])
  }

  function Chosen<T>(own: Option<T>, inherited: T): T {
    match own
    case Some(value) => value
    case None => inherited
  }

  /** Each field of `effective` is the override's where it is given, and the decoded configuration's otherwise. */
  ghost predicate FieldByField(effective: PluginConfig, decoded: PluginConfig, o: Override) {
    && CodesFrom(effective.statusCodes, Chosen(o.statusCodes, decoded.statusCodes))
    && KeywordsFrom(effective.retryKeywords, Chosen(o.retryKeywords, decoded.retryKeywords))
    && effective.maxAttempts == Chosen(o.maxAttempts, decoded.maxAttempts)
    && effective.sameAuthRetries == Chosen(o.sameAuthRetries, decoded.sameAuthRetries)
    && effective.initialDelayMS == Chosen(o.initialDelayMS, decoded.initialDelayMS)
    && effective.maxDelayMS == Chosen(o.maxDelayMS, decoded.maxDelayMS)
    && effective.maxElapsedMS == Chosen(o.maxElapsedMS, decoded.maxElapsedMS)
  }

  lemma KeptCodes(codes: seq<int>)
    ensures CodesFrom(Kept(codes, SAME_CODE, KEEP_STATUS), codes)
  {
    KeptExactly(codes, SAME_CODE, KEEP_STATUS);
    forall code ensures code in Kept(codes, SAME_CODE, KEEP_STATUS) <==> code in codes && 100 <= code <= 599 {
      if code in codes {
        var k :| 0 <= k < |codes| && codes[k] == code;
        assert SAME_CODE(codes[k]) == code;
      }
    }
  }

  lemma KeptKeywords(keywords: seq<string>)
    ensures KeywordsFrom(Kept(keywords, NORMAL_KEY, KEEP_KEY), keywords)
  {
    KeptExactly(keywords, NORMAL_KEY, KEEP_KEY);
    forall key ensures key in Kept(keywords, NORMAL_KEY, KEEP_KEY)
                  <==> key != "" && exists k :: k in keywords && NormalizeKey(k) == key {
      if k :| k in keywords && NormalizeKey(k) == key {
        var i :| 0 <= i < |keywords| && keywords[i] == k;
        assert NORMAL_KEY(keywords[i]) == key;
      }
    }
  }

  /** A model with an override runs under that override, whatever letter case and padding the request uses. */
  lemma OverrideApplies(decoded: PluginConfig, cfg: PluginConfig, model: string, name: string)
    requires FinishedFrom(decoded, cfg) && name in decoded.modelOverrides && Names(model, name)
    ensures FieldByField(RetryConfigForModel(cfg, model), decoded, decoded.modelOverrides[name])
  {
    var o := decoded.modelOverrides[name];
    assert HoldsNormalized(decoded, name, cfg.modelOverrides);
    KeptCodes(decoded.statusCodes);
    KeptKeywords(decoded.retryKeywords);
    if o.statusCodes.Some? { KeptCodes(o.statusCodes.value); }
    if o.retryKeywords.Some? { KeptKeywords(o.retryKeywords.value); }
  }

  /** Every other model runs under the configuration itself. */
  lemma NoOverrideApplies(decoded: PluginConfig, cfg: PluginConfig, model: string)
    requires FinishedFrom(decoded, cfg)
    requires forall name :: name in decoded.modelOverrides ==> !Names(model, name)
    ensures FieldByField(RetryConfigForModel(cfg, model), decoded, NO_OVERRIDE)
  {
    KeptCodes(decoded.statusCodes);
    KeptKeywords(decoded.retryKeywords);
  }
}
