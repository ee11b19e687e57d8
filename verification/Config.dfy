/** The plugin configuration, its validation, and the per-model overrides. */
module Config {
  import opened Wrappers
  import opened Text
  import Backoff

  datatype Override = Override(
    statusCodes: Option<seq<int>>,
    retryKeywords: Option<seq<string>>,
    maxAttempts: Option<int>,
    sameAuthRetries: Option<int>,
    initialDelayMS: Option<int>,
    maxDelayMS: Option<int>,
    maxElapsedMS: Option<int>)

  const NO_OVERRIDE := Override(None, None, None, None, None, None, None)

  /** `models` and `source_formats` only decide routing and are not part of this model. */
  datatype PluginConfig = PluginConfig(
    statusCodes: seq<int>,
    retryKeywords: seq<string>,
    maxAttempts: int,
    sameAuthRetries: int,
    initialDelayMS: int,
    maxDelayMS: int,
    maxElapsedMS: int,
    modelOverrides: map<string, Override>)

  datatype ConfigError =
    | NegativeRetries
    | NegativeAttempts
    | BadInitialDelay
    | BadMaxDelay
    | BadMaxElapsed
    | InitialAboveMax
    | BlankModel
    | DuplicateModel(model: string)
    | InvalidOverride(name: string, cause: ConfigError)

  datatype Checked = Usable(value: PluginConfig) | Rejected(error: ConfigError)

  function ValidateRetryConfig(cfg: PluginConfig): (e: Option<ConfigError>)
    ensures e.None? <==> ValidPolicy(cfg)
  {
    if cfg.sameAuthRetries < 0 then Some(NegativeRetries)
    else if cfg.maxAttempts < 0 then Some(NegativeAttempts)
    else if !(0 < cfg.initialDelayMS <= Backoff.MAX_DURATION_MILLIS) then Some(BadInitialDelay)
    else if !(0 < cfg.maxDelayMS <= Backoff.MAX_DURATION_MILLIS) then Some(BadMaxDelay)
    else if !(0 <= cfg.maxElapsedMS <= Backoff.MAX_DURATION_MILLIS) then Some(BadMaxElapsed)
    else if cfg.initialDelayMS > cfg.maxDelayMS then Some(InitialAboveMax)
    else None
  }

  /** What every retry loop may rely on. */
  predicate ValidPolicy(cfg: PluginConfig) {
    && cfg.sameAuthRetries >= 0
    && cfg.maxAttempts >= 0
    && Backoff.ValidBounds(cfg.initialDelayMS, cfg.maxDelayMS)
    && 0 <= cfg.maxElapsedMS <= Backoff.MAX_DURATION_MILLIS
  }

  /** Converting the milliseconds to nanoseconds keeps their value. */
  predicate Converts(millis: int) {
    Backoff.DurationFromMillis(millis) == millis * 1_000_000
  }

  /** The accepted policies are those whose counts are not negative, whose delays are positive and ordered, and whose
      durations all survive the conversion to nanoseconds. */
  lemma ValidExactly(cfg: PluginConfig)
    ensures ValidPolicy(cfg)
       <==> && cfg.sameAuthRetries >= 0 && cfg.maxAttempts >= 0
            && 0 < cfg.initialDelayMS <= cfg.maxDelayMS
            && Converts(cfg.initialDelayMS) && Converts(cfg.maxDelayMS) && Converts(cfg.maxElapsedMS)
  {
  }

  function Get<T>(o: Option<T>, default: T): T {
    if o.Some? then o.value else default
  }

  function ApplyModelRetryOverride(cfg: PluginConfig, o: Override): PluginConfig {
    cfg.(statusCodes := Get(o.statusCodes, cfg.statusCodes),
    retryKeywords := Get(o.retryKeywords, cfg.retryKeywords),
    maxAttempts := Get(o.maxAttempts, cfg.maxAttempts),
    sameAuthRetries := Get(o.sameAuthRetries, cfg.sameAuthRetries),
    initialDelayMS := Get(o.initialDelayMS, cfg.initialDelayMS),
    maxDelayMS := Get(o.maxDelayMS, cfg.maxDelayMS),
    maxElapsedMS := Get(o.maxElapsedMS, cfg.maxElapsedMS))
  }

  /** A model without an override gets the zero override, which inherits everything. */
  function RetryConfigForModel(cfg: PluginConfig, model: string): PluginConfig {
    var key := NormalizeKey(model);
    ApplyModelRetryOverride(cfg, if key in cfg.modelOverrides then cfg.modelOverrides[key] else NO_OVERRIDE)
  }

  // ---- list normalization -------------------------------------------------

  /** The kept normal forms of `values`, each once, in order of first appearance. */
  function Kept<T(==)>(values: seq<T>, norm: T -> T, keep: T -> bool): seq<T> {
    if values == [] then []
    else
      var earlier := Kept(values[..|values| - 1], norm, keep);
      var key := norm(values[|values| - 1]);
      if keep(key) && key !in earlier then earlier + [key] else earlier
  }

  /** The loop behind the list normalizers, with its set of entries already seen. */
  method NormalizeList<T(==)>(values: seq<T>, norm: T -> T, keep: T -> bool) returns (out: seq<T>)
    ensures out == Kept(values, norm, keep)
  {
    out := [];
    var seen: set<T> := {};
    for n := 0 to |values|
      invariant seen == set x | x in out
      invariant out == Kept(values[..n], norm, keep)
    {
      var key := norm(values[n]);
      assert values[..n + 1][..n] == values[..n];
      if keep(key) && key !in seen {
        seen := seen + {key};
        out := out + [key];
      }
    }
    assert values[..|values|] == values;
  }

  /** Nothing kept is lost, nothing else appears, nothing appears twice. */
  lemma {:induction false} KeptExactly<T>(values: seq<T>, norm: T -> T, keep: T -> bool)
    ensures forall x :: x in Kept(values, norm, keep)
                   <==> exists k :: 0 <= k < |values| && norm(values[k]) == x && keep(x)
    ensures forall i, j :: 0 <= i < j < |Kept(values, norm, keep)|
                       ==> Kept(values, norm, keep)[i] != Kept(values, norm, keep)[j]
  {
    if values != [] {
      var n := |values| - 1;
      KeptExactly(values[..n], norm, keep);
      forall x | exists k :: 0 <= k < |values| && norm(values[k]) == x && keep(x)
        ensures x in Kept(values, norm, keep)
      {
        var k :| 0 <= k < |values| && norm(values[k]) == x && keep(x);
        if k < n { assert norm(values[..n][k]) == x; }
      }
    }
  }

  const KEEP_STATUS := (code: int) => 100 <= code <= 599
  const KEEP_KEY := (key: string) => key != ""
  const SAME_CODE := (code: int) => code
  const NORMAL_KEY := (key: string) => NormalizeKey(key)

  function NormalizeOverride(o: Override): Override {
    o.(statusCodes := if o.statusCodes.None? then None else Some(Kept(o.statusCodes.value, SAME_CODE, KEEP_STATUS)),
    retryKeywords := if o.retryKeywords.None? then None else Some(Kept(o.retryKeywords.value, NORMAL_KEY, KEEP_KEY)))
  }

  // ---- model overrides ----------------------------------------------------

  /** These names are acceptable: none blank, no two with one normal form, every effective policy valid. */
  ghost predicate AcceptableNames(cfg: PluginConfig, names: set<string>)
    requires names <= cfg.modelOverrides.Keys
  {
    && (forall name :: name in names ==> NormalizeKey(name) != "")
    && (forall a, b :: a in names && b in names && NormalizeKey(a) == NormalizeKey(b) ==> a == b)
    && (forall name :: name in names ==> ValidWith(cfg, cfg.modelOverrides[name]))
  }

  ghost predicate AcceptableOverrides(cfg: PluginConfig) {
    AcceptableNames(cfg, cfg.modelOverrides.Keys)
  }

  predicate ValidWith(cfg: PluginConfig, o: Override) {
    ValidPolicy(ApplyModelRetryOverride(cfg, NormalizeOverride(o)))
  }

  /** `normal` holds, under the normal form of each processed name, that name's normalized override. */
  ghost predicate NormalizedOver(cfg: PluginConfig, names: set<string>, normal: map<string, Override>)
    requires names <= cfg.modelOverrides.Keys
  {
    && (forall key :: key in normal ==> exists name :: name in names && NormalizeKey(name) == key)
    && (forall name :: name in names ==> HoldsNormalized(cfg, name, normal))
  }

  predicate HoldsNormalized(cfg: PluginConfig, name: string, normal: map<string, Override>)
    requires name in cfg.modelOverrides
  {
    NormalizeKey(name) in normal && normal[NormalizeKey(name)] == NormalizeOverride(cfg.modelOverrides[name])
  }

  /** What normalizing the overrides may yield: acceptance is decided by the names and policies, and so is the map. */
  ghost predicate IsOutcome(cfg: PluginConfig, r: Checked) {
    && (r.Usable? <==> AcceptableOverrides(cfg))
    && (r.Usable? ==>
          && r.value == cfg.(modelOverrides := r.value.modelOverrides)
          && NormalizedOver(cfg, cfg.modelOverrides.Keys, r.value.modelOverrides))
  }

  /** Go visits the map in an arbitrary order; the arbitrary choice below is that order. */
  method NormalizeModelOverrides(cfg: PluginConfig) returns (r: Checked)
    ensures IsOutcome(cfg, r)
  {
    var normalized: map<string, Override> := map[];
    var remaining := cfg.modelOverrides.Keys;
    ghost var done: set<string> := {};
    while remaining != {}
      invariant done + remaining == cfg.modelOverrides.Keys && done !! remaining
      invariant NormalizedOver(cfg, done, normalized)
      invariant AcceptableNames(cfg, done)
      decreases remaining
    {
      var name :| name in remaining;
      var model := NormalizeKey(name);
      if model == "" {
        assert !AcceptableOverrides(cfg);
        return Rejected(BlankModel);
      }
      if model in normalized {
        ghost var earlier :| earlier in done && NormalizeKey(earlier) == model;
        assert !AcceptableOverrides(cfg);
        return Rejected(DuplicateModel(model));
      }
      var o := NormalizeOne(cfg.modelOverrides[name]);
      var invalid := ValidateRetryConfig(ApplyModelRetryOverride(cfg, o));
      if invalid.Some? {
        assert !ValidWith(cfg, cfg.modelOverrides[name]);
        assert !AcceptableOverrides(cfg);
        return Rejected(InvalidOverride(name, invalid.value));
      }
      AddOne(cfg, done, name, normalized);
      normalized := normalized[model := o];
      remaining, done := remaining - {name}, done + {name};
    }
    assert done == cfg.modelOverrides.Keys;
    r := Usable(cfg.(modelOverrides := normalized));
  }

  method NormalizeOne(o: Override) returns (r: Override)
    ensures r == NormalizeOverride(o)
  {
    var codes, keywords := o.statusCodes, o.retryKeywords;
    if codes.Some? {
      var kept := NormalizeList(codes.value, SAME_CODE, KEEP_STATUS);
      codes := Some(kept);
    }
    if keywords.Some? {
      var kept := NormalizeList(keywords.value, NORMAL_KEY, KEEP_KEY);
      keywords := Some(kept);
    }
    r := o.(statusCodes := codes, retryKeywords := keywords);
  }

  lemma AddOne(cfg: PluginConfig, done: set<string>, name: string, normal: map<string, Override>)
    requires done <= cfg.modelOverrides.Keys && name in cfg.modelOverrides && name !in done
    requires AcceptableNames(cfg, done) && NormalizedOver(cfg, done, normal)
    requires NormalizeKey(name) != "" && NormalizeKey(name) !in normal && ValidWith(cfg, cfg.modelOverrides[name])
    ensures AcceptableNames(cfg, done + {name})
    ensures NormalizedOver(cfg, done + {name},
                           normal[NormalizeKey(name) := NormalizeOverride(cfg.modelOverrides[name])])
  {
    forall other | other in done ensures NormalizeKey(other) != NormalizeKey(name) {
      assert HoldsNormalized(cfg, other, normal);
    }
    AddName(cfg, done, name);
    AddNormal(cfg, done, name, normal);
  }

  lemma AddName(cfg: PluginConfig, done: set<string>, name: string)
    requires done <= cfg.modelOverrides.Keys && name in cfg.modelOverrides && AcceptableNames(cfg, done)
    requires NormalizeKey(name) != "" && ValidWith(cfg, cfg.modelOverrides[name])
    requires forall other :: other in done ==> NormalizeKey(other) != NormalizeKey(name)
    ensures AcceptableNames(cfg, done + {name})
  {
  }

  lemma AddNormal(cfg: PluginConfig, done: set<string>, name: string, normal: map<string, Override>)
    requires done <= cfg.modelOverrides.Keys && name in cfg.modelOverrides && NormalizedOver(cfg, done, normal)
    requires forall other :: other in done ==> NormalizeKey(other) != NormalizeKey(name)
    ensures NormalizedOver(cfg, done + {name},
                           normal[NormalizeKey(name) := NormalizeOverride(cfg.modelOverrides[name])])
  {
    var longer := normal[NormalizeKey(name) := NormalizeOverride(cfg.modelOverrides[name])];
    forall other | other in done ensures HoldsNormalized(cfg, other, longer) {
      assert HoldsNormalized(cfg, other, normal);
    }
    forall k | k in longer ensures exists n :: n in done + {name} && NormalizeKey(n) == k {
      if k == NormalizeKey(name) {
        assert name in done + {name};
      } else {
        var n :| n in done && NormalizeKey(n) == k;
        assert n in done + {name};
      }
    }
  }

  /** Two visiting orders of one configuration accept or reject alike, and accept the same configuration. */
  lemma OverridesOrderIndependent(cfg: PluginConfig, one: Checked, other: Checked)
    requires IsOutcome(cfg, one) && IsOutcome(cfg, other)
    ensures one.Usable? <==> other.Usable?
    ensures one.Usable? ==> one == other
  {
    if one.Usable? { SameMap(cfg, one.value.modelOverrides, other.value.modelOverrides); }
  }

  lemma SameMap(cfg: PluginConfig, one: map<string, Override>, other: map<string, Override>)
    requires NormalizedOver(cfg, cfg.modelOverrides.Keys, one)
    requires NormalizedOver(cfg, cfg.modelOverrides.Keys, other)
    ensures one == other
  {
    forall key ensures key in one <==> key in other {
      if key in one {
        var name :| name in cfg.modelOverrides.Keys && NormalizeKey(name) == key;
        assert HoldsNormalized(cfg, name, other);
      }
      if key in other {
        var name :| name in cfg.modelOverrides.Keys && NormalizeKey(name) == key;
        assert HoldsNormalized(cfg, name, one);
      }
    }
    forall key | key in one ensures one[key] == other[key] {
      var name :| name in cfg.modelOverrides.Keys && NormalizeKey(name) == key;
      assert HoldsNormalized(cfg, name, one) && HoldsNormalized(cfg, name, other);
    }
  }

  /** The decoded configuration with its lists in normal form and these overrides; every other field is as decoded. */
  function Finished(decoded: PluginConfig, overrides: map<string, Override>): PluginConfig {
    decoded.(statusCodes := Kept(decoded.statusCodes, SAME_CODE, KEEP_STATUS),
    retryKeywords := Kept(decoded.retryKeywords, NORMAL_KEY, KEEP_KEY),
    modelOverrides := overrides)
  }

  /** What a successful load hands to the executors. */
  ghost predicate FinishedFrom(decoded: PluginConfig, cfg: PluginConfig) {
    && AcceptableOverrides(decoded)
    && NormalizedOver(decoded, decoded.modelOverrides.Keys, cfg.modelOverrides)
    && cfg == Finished(decoded, cfg.modelOverrides)
  }

  /** The steps that follow YAML decoding: normalize the lists, validate, then treat the overrides. */
  method FinishConfig(decoded: PluginConfig) returns (r: Checked)
    ensures r.Usable? <==> ValidPolicy(decoded) && AcceptableOverrides(decoded)
    ensures r.Usable? ==> ForEveryModelValid(r.value)
    ensures r.Usable? ==> FinishedFrom(decoded, r.value)
  {
    var codes := NormalizeList(decoded.statusCodes, SAME_CODE, KEEP_STATUS);
    var keywords := NormalizeList(decoded.retryKeywords, NORMAL_KEY, KEEP_KEY);
    var cfg := decoded.(statusCodes := codes, retryKeywords := keywords);
    var invalid := ValidateRetryConfig(cfg);
    SamePolicyOverrides(decoded, cfg);
    KeptInRange(decoded.statusCodes);
    if invalid.Some? {
      return Rejected(invalid.value);
    }
    r := NormalizeModelOverrides(cfg);
    if r.Usable? {
      AcceptedModelsValid(cfg, r.value.modelOverrides);
    }
  }

  /** Only real HTTP statuses are configured. */
  predicate RealCodes(cfg: PluginConfig) {
    forall i :: 0 <= i < |cfg.statusCodes| ==> 100 <= cfg.statusCodes[i] <= 599
  }

  /** Every request, for any model name at all, runs under a valid policy with real status codes. */
  ghost predicate ForEveryModelValid(cfg: PluginConfig) {
    forall model :: ValidPolicy(RetryConfigForModel(cfg, model)) && RealCodes(RetryConfigForModel(cfg, model))
  }

  lemma AcceptedModelsValid(cfg: PluginConfig, normal: map<string, Override>)
    requires ValidPolicy(cfg) && RealCodes(cfg) && AcceptableOverrides(cfg)
    requires NormalizedOver(cfg, cfg.modelOverrides.Keys, normal)
    ensures ForEveryModelValid(cfg.(modelOverrides := normal))
  {
    forall model
      ensures var effective := RetryConfigForModel(cfg.(modelOverrides := normal), model);
        ValidPolicy(effective) && RealCodes(effective)
    {
      var key := NormalizeKey(model);
      if key in normal {
        var name :| name in cfg.modelOverrides.Keys && NormalizeKey(name) == key;
        assert HoldsNormalized(cfg, name, normal) && ValidWith(cfg, cfg.modelOverrides[name]);
        var codes := cfg.modelOverrides[name].statusCodes;
        if codes.Some? { KeptInRange(codes.value); }
      }
    }
  }

  lemma {:induction false} KeptInRange(codes: seq<int>)
    ensures forall i :: 0 <= i < |Kept(codes, SAME_CODE, KEEP_STATUS)| ==>
      100 <= Kept(codes, SAME_CODE, KEEP_STATUS)[i] <= 599
  {
    if codes != [] { KeptInRange(codes[..|codes| - 1]); }
  }

  /** The list fields play no part in what is acceptable. */
  lemma SamePolicyOverrides(a: PluginConfig, b: PluginConfig)
    requires b == a.(statusCodes := b.statusCodes, retryKeywords := b.retryKeywords)
    ensures AcceptableOverrides(a) <==> AcceptableOverrides(b)
    ensures forall o :: ValidPolicy(ApplyModelRetryOverride(a, o)) <==> ValidPolicy(ApplyModelRetryOverride(b, o))
  {
  }

  /** Looking a model up ignores its letter case and the white space around it. */
  lemma LookupIgnoresCaseAndPads(cfg: PluginConfig, pad: string, model: string, tail: string, variant: string)
    requires AllSpace(pad) && AllSpace(tail) && ToLower(variant) == ToLower(model)
    ensures RetryConfigForModel(cfg, pad + variant + tail) == RetryConfigForModel(cfg, model)
  {
    NormalizeKeyIgnoresCaseAndPads(pad, model, tail, variant);
  }
}
