/**
 The layered resolution of `src/execution.rs`: explicit server mode, inferred
 canonical mode, matching root defaults, then the mode's preset.
 */
module PolicyResolve {
  import opened Basics
  import opened Text
  import opened Tokens
  import opened Policy

  /** An execution object as the resolver reads it; integers are within 64 bits. */
  datatype Json =
    | NotObject
    | Object(
        mode: Option<string>, affinity: Option<seq<string>>, queueTimeoutMs: Option<int>, reusePolicy: Option<string>,
        minWorkers: Option<int>, maxWorkers: Option<int>, maxInFlight: Option<int>, maxQueueDepth: Option<int>,
        idleTtlMs: Option<int>)

  /** A canonical server policy as the resolver reads it. */
  datatype Canonical = Canonical(
    startupStrategy: Option<string>, routingGroup: Option<string>, concurrencyPolicy: Option<string>,
    scopeClass: Option<string>, stateBinding: Option<string>, stateClass: Option<string>,
    maxWorkers: Option<int>, parallelismLimit: Option<int>, maxInFlight: Option<int>)

  // ---------------------------------------------------------------- modes

  function ModeName(mode: Mode): string {
    match mode
    case Shared => "shared"
    case Serialized => "serialized"
    case SessionIsolated => "session-isolated"
    case ProjectIsolated => "project-isolated"
    case Pool => "pool"
    case Disabled => "disabled"
  }

  /** `ExecutionMode::parse` */
  function ParseMode(raw: string): Option<Mode> {
    var t := Token(raw);
    if t == "shared" || t == "parallel" || t == "parallel-safe" || t == "multi-reader" then Some(Shared)
    else if t == "serialized" || t == "serial" || t == "single-writer" || t == "queue" || t == "queued" then
      Some(Serialized)
    else if t == "session" || t == "session-isolated" || t == "per-session" || t == "single-session" then
      Some(SessionIsolated)
    else if t == "project" || t == "project-isolated" || t == "per-project" || t == "isolated-per-project" then
      Some(ProjectIsolated)
    else if t == "pool" || t == "process-pool" || t == "worker-pool" then Some(Pool)
    else if t == "disabled" || t == "off" || t == "plan-only" || t == "not-runnable" then Some(Disabled)
    else None
  }

  lemma {:induction false} ModeNameParses(mode: Mode)
    ensures ParseMode(ModeName(mode)) == Some(mode)
  {
    hide Token, Plain;
    ModeNamePlain(mode);
    PlainToken(ModeName(mode));
  }

  lemma {:induction false} ModeNamePlain(mode: Mode)
    ensures Plain(ModeName(mode))
  {
  }

  function ModeAt(json: Option<Json>): Option<Mode> {
    if json.Some? && json.value.Object? && json.value.mode.Some? then ParseMode(json.value.mode.value) else None
  }

  predicate Says(text: Option<string>, word: string) {
    text.Some? && Token(text.value) == word
  }

  /** `canonical_policy_disabled` */
  predicate CanonicalDisabled(c: Canonical) {
    || Says(c.startupStrategy, "disabled") || Says(c.routingGroup, "disabled")
    || Says(c.concurrencyPolicy, "plan-only") || Says(c.scopeClass, "not-runnable")
  }

  /** `inferred_mode` */
  function InferredMode(c: Canonical): Mode {
    if Says(c.concurrencyPolicy, "plan-only") || Says(c.scopeClass, "not-runnable") then Disabled
    else if Says(c.concurrencyPolicy, "isolated-per-project") || Says(c.scopeClass, "project-local")
            || Says(c.stateClass, "project-stateful") then ProjectIsolated
    else if Says(c.concurrencyPolicy, "single-session") || Says(c.stateClass, "session-stateful")
            || Says(c.stateBinding, "host-session") then SessionIsolated
    else if Says(c.concurrencyPolicy, "multi-reader")
            && (Says(c.stateClass, "stateless") || Says(c.stateClass, "credential-stateful")
                || Says(c.stateClass, "remote-session-stateful")) then Shared
    else Serialized
  }

  // ---------------------------------------------------------------- applying a layer

  function NonNegative(value: Option<int>, default: nat): nat {
    if value.Some? && value.value >= 0 then value.value else default
  }

  function Positive(value: Option<int>, default: nat): nat {
    if value.Some? && value.value > 0 then value.value else default
  }

  /** `strings_from_array` */
  function Strings(values: seq<string>): seq<string> {
    if values == [] then []
    else
      var t := Trim(values[|values| - 1]);
      Strings(values[..|values| - 1]) + (if t == "" then [] else [t])
  }

  function ModeWarnings(p: Policy, raw: Option<string>, name: string): seq<Warning> {
    if raw.None? then []
    else match ParseMode(raw.value)
      case Some(mode) => if mode == p.mode then [] else [ModeIgnored(name, mode, p.mode)]
      case None => [UnsupportedMode(Token(raw.value))]
  }

  /** `apply_json` */
  function Applied(p: Policy, json: Json, name: string): Policy {
    match json
    case NotObject => p.(warnings := p.warnings + [NotAnObject(name)])
    case Object(mode, affinity, queue, reuse, min, max, flight, depth, idle) =>
      p.(warnings := p.warnings + ModeWarnings(p, mode, name),
         affinity := if affinity.Some? then Strings(affinity.value) else p.affinity,
         queueTimeoutMs := NonNegative(queue, p.queueTimeoutMs),
         reusePolicy := if reuse.Some? && Token(reuse.value) != "" then Token(reuse.value) else p.reusePolicy,
         minWorkers := NonNegative(min, p.minWorkers),
         maxWorkers := NonNegative(max, p.maxWorkers),
         maxInFlight := NonNegative(flight, p.maxInFlight),
         maxQueueDepth := Positive(depth, p.maxQueueDepth),
         idleTtlMs := Positive(idle, p.idleTtlMs))
  }

  /** `apply_global_limits` */
  function Limited(p: Policy, json: Json): Policy {
    if json.NotObject? then p
    else p.(maxQueueDepth := Positive(json.maxQueueDepth, p.maxQueueDepth),
            idleTtlMs := Positive(json.idleTtlMs, p.idleTtlMs))
  }

  /** `apply_canonical_json` */
  function Canonized(p: Policy, c: Canonical): Policy {
    if CanonicalDisabled(c) then p.(mode := Disabled, maxWorkers := 0, maxInFlight := 0)
    else
      p.(maxWorkers := NonNegative(c.maxWorkers, NonNegative(c.parallelismLimit, p.maxWorkers)),
         maxInFlight := NonNegative(c.maxInFlight, p.maxInFlight))
  }

  // ---------------------------------------------------------------- resolution

  function Selected(canonical: Option<Canonical>, server: Option<Json>, fallback: Mode): Mode {
    if canonical.Some? && CanonicalDisabled(canonical.value) then Disabled else ModeAt(server).Or(fallback)
  }

  function Layered(defaults: Option<Json>, canonical: Option<Canonical>, server: Option<Json>, mode: Mode): Policy {
    var base :=
      if defaults.None? then ForMode(mode)
      else if ModeAt(server).None? && ModeAt(defaults) == Some(mode) then
        Applied(ForMode(mode), defaults.value, "executionDefaults")
      else Limited(ForMode(mode), defaults.value);
    var policed := if canonical.Some? then Canonized(base, canonical.value) else base;
    var served := if server.Some? then Applied(policed, server.value, "server.execution") else policed;
    served.(mode := mode)
  }

  function SourceOf(defaults: Option<Json>, canonical: Option<Canonical>, server: Option<Json>, mode: Mode): Source {
    if canonical.Some? && CanonicalDisabled(canonical.value) then ServerPolicy
    else if ModeAt(server).Some? then ServerExecution
    else if canonical.Some? then ServerPolicy
    else if ModeAt(defaults) == Some(mode) then ExecutionDefaults
    else InferredPolicy
  }

  /** `resolve_with_canonical` */
  function Resolve(defaults: Option<Json>, canonical: Option<Canonical>, server: Option<Json>, fallback: Mode): Policy {
    var mode := Selected(canonical, server, fallback);
    var p := if canonical.Some? && CanonicalDisabled(canonical.value) then ForMode(mode)
             else Layered(defaults, canonical, server, mode);
    Normalized(p.(source := SourceOf(defaults, canonical, server, mode)))
  }

  /** `to_config_json_value` */
  function Config(p: Policy): Json {
    Object(Some(ModeName(p.mode)), Some(p.affinity), Some(p.queueTimeoutMs), Some(p.reusePolicy), Some(p.minWorkers),
           Some(p.maxWorkers), Some(p.maxInFlight), Some(p.maxQueueDepth), Some(p.idleTtlMs))
  }

  /** `for_server` */
  function ForServer(defaults: Policy, canonical: Option<Canonical>, server: Option<Json>): Policy {
    Resolve(Some(Config(defaults)), canonical, server,
            if canonical.Some? then InferredMode(canonical.value) else defaults.mode)
  }

  // ---------------------------------------------------------------- what resolution keeps

  /** The same policy apart from where it came from. */
  predicate SameFields(p: Policy, q: Policy) {
    p.(source := q.source, warnings := q.warnings) == q
  }

  /** The final mode is the selected one or Disabled, and limits stay positive. */
  lemma {:induction false} ModeSelectedOrDisabled(
    defaults: Option<Json>, canonical: Option<Canonical>, server: Option<Json>, fallback: Mode)
    ensures var p := Resolve(defaults, canonical, server, fallback);
      && Settled(p) && p.maxQueueDepth > 0 && p.idleTtlMs > 0
      && (p.mode == Selected(canonical, server, fallback) || p.mode == Disabled)
  {
    var mode := Selected(canonical, server, fallback);
    LayeredLimits(defaults, canonical, server, mode);
    var p := if canonical.Some? && CanonicalDisabled(canonical.value) then ForMode(mode)
             else Layered(defaults, canonical, server, mode);
    var q := p.(source := SourceOf(defaults, canonical, server, mode));
    hide Layered, Selected, SourceOf, Settled, CanonicalDisabled;
    NormalizedSettles(q);
    NormalizedMode(q);
  }

  lemma {:induction false} LayeredLimits(
    defaults: Option<Json>, canonical: Option<Canonical>, server: Option<Json>, mode: Mode)
    ensures var p := Layered(defaults, canonical, server, mode);
      p.mode == mode && p.maxQueueDepth > 0 && p.idleTtlMs > 0
  {
    var preset := ForMode(mode);
    assert Open(preset);
    if defaults.Some? { LayersStayOpen(preset, defaults.value, "executionDefaults"); }
    hide ForMode, Applied, Limited, Canonized, ModeAt;
    forall p, c | Open(p) ensures Open(Canonized(p, c)) { CanonizedStaysOpen(p, c); }
    forall p, json | Open(p) ensures Open(Applied(p, json, "server.execution")) {
      LayersStayOpen(p, json, "server.execution");
    }
  }

  predicate Open(p: Policy) { p.maxQueueDepth > 0 && p.idleTtlMs > 0 }

  lemma {:induction false} LayersStayOpen(p: Policy, json: Json, name: string)
    requires Open(p)
    ensures Open(Applied(p, json, name)) && Open(Limited(p, json))
  {
    hide Strings, ModeWarnings, Token;
  }

  lemma {:induction false} CanonizedStaysOpen(p: Policy, c: Canonical)
    requires Open(p)
    ensures Open(Canonized(p, c))
  {
    hide CanonicalDisabled;
  }

  lemma {:induction false} NormalizedMode(p: Policy)
    ensures Normalized(p).mode == if Off(p) then Disabled else p.mode
    ensures p.maxQueueDepth > 0 && p.idleTtlMs > 0 ==> Normalized(p).maxQueueDepth > 0 && Normalized(p).idleTtlMs > 0
  {
    hide Affinities, Unkept, AllowedReuse, HasSession;
  }

  lemma {:induction false} StringsStay(values: seq<string>)
    requires forall i | 0 <= i < |values| :: Supported(values[i])
    ensures Strings(values) == values
  {
    hide Supported, Trim;
    if values != [] {
      var n := |values| - 1;
      StringsStay(values[..n]);
      SupportedIsPlain(values[n]);
      assert values == values[..n] + [values[n]];
    }
  }

  lemma {:induction false} ReuseStays(p: Policy)
    requires Settled(p)
    ensures Token(p.reusePolicy) == p.reusePolicy != "" && Strings(p.affinity) == p.affinity
  {
    hide Token, Strings, Sorted, HasSession, Supported;
    assert AllowedReuse(p.reusePolicy);
    assert Plain(p.reusePolicy);
    PlainToken(p.reusePolicy);
    assert forall i | 0 <= i < |p.affinity| :: Supported(p.affinity[i]);
    StringsStay(p.affinity);
  }

  /** Applying a settled policy's own config to its mode's preset gives back its fields. */
  lemma {:induction false} ConfigRestores(p: Policy, name: string)
    requires Settled(p) && p.maxQueueDepth > 0 && p.idleTtlMs > 0
    ensures SameFields(Applied(ForMode(p.mode), Config(p), name), p)
  {
    ReuseStays(p);
    hide Settled, Token, Strings, ModeWarnings;
  }

  lemma {:induction false} SettledFields(p: Policy, q: Policy)
    requires Settled(p) && SameFields(p, q)
    ensures Settled(q)
  {
    hide SettledAffinity, HasSession, AllowedReuse;
  }

  /** Re-resolving a resolved policy through its config JSON gives the same fields. */
  lemma {:induction false} ConfigIsFixedPoint(
    defaults: Option<Json>, canonical: Option<Canonical>, server: Option<Json>, fallback: Mode)
    ensures var p := Resolve(defaults, canonical, server, fallback);
      && SameFields(Resolve(Some(Config(p)), None, None, p.mode), p)
      && SameFields(ForServer(p, None, None), p)
  {
    ModeSelectedOrDisabled(defaults, canonical, server, fallback);
    var p := Resolve(defaults, canonical, server, fallback);
    hide Settled, Normalized, Applied, SourceOf, CanonicalDisabled, ParseMode;
    ModeNameParses(p.mode);
    ConfigRestores(p, "executionDefaults");
    var q := Applied(ForMode(p.mode), Config(p), "executionDefaults").(mode := p.mode);
    var r := q.(source := SourceOf(Some(Config(p)), None, None, p.mode));
    assert SameFields(p, r);
    SettledFields(p, r);
    SettledStays(r);
  }

  // ---------------------------------------------------------------- which layer wins

  lemma {:induction false} NormalizedNumbers(p: Policy)
    requires !Off(p)
    ensures var q := Normalized(p);
      && q.mode == p.mode && q.maxInFlight == Min(p.maxInFlight, MAX_IN_FLIGHT)
      && q.maxWorkers == (if p.mode == Pool then Min(p.maxWorkers, MAX_WORKERS) else 1)
      && q.queueTimeoutMs == Min(p.queueTimeoutMs, MAX_QUEUE_TIMEOUT_MS)
  {
    hide Affinities, Unkept, AllowedReuse, HasSession, Excess;
  }

  /** What a server's execution object says wins over its canonical policy and over the defaults, within the limits. */
  lemma {:induction false} ServerSettingsWin(
    defaults: Option<Json>, canonical: Option<Canonical>, server: Json, fallback: Mode, mode: Mode)
    requires ModeAt(Some(server)) == Some(mode) && mode != Disabled
    requires canonical.Some? ==> !CanonicalDisabled(canonical.value)
    requires server.maxWorkers.Some? && server.maxWorkers.value > 0
    requires server.maxInFlight.Some? && server.maxInFlight.value > 0
    requires server.queueTimeoutMs.Some? && server.queueTimeoutMs.value >= 0
    ensures var p := Resolve(defaults, canonical, Some(server), fallback);
      && p.mode == mode && p.source == ServerExecution
      && p.maxWorkers == (if mode == Pool then Min(server.maxWorkers.value, MAX_WORKERS) else 1)
      && p.maxInFlight == Min(server.maxInFlight.value, MAX_IN_FLIGHT)
      && p.queueTimeoutMs == Min(server.queueTimeoutMs.value, MAX_QUEUE_TIMEOUT_MS)
  {
    hide ParseMode, CanonicalDisabled, Normalized, Strings, ModeWarnings, Token, ForMode, Limited, Canonized;
    var l := Layered(defaults, canonical, Some(server), mode);
    assert l.mode == mode && l.maxWorkers == server.maxWorkers.value && l.maxInFlight == server.maxInFlight.value
        && l.queueTimeoutMs == server.queueTimeoutMs.value;
    hide Layered, Applied;
    var q := l.(source := ServerExecution);
    NormalizedNumbers(q);
    NormalizedSource(q);
  }

  lemma {:induction false} NormalizedSource(p: Policy)
    ensures Normalized(p).source == p.source
  {
    hide Affinities, Unkept, AllowedReuse, HasSession, Excess, Min, Max;
  }

  /** A canonical policy that disables a server wins over everything else. */
  lemma {:induction false} DisabledPolicyWins(defaults: Option<Json>, canonical: Canonical, server: Option<Json>,
      fallback: Mode)
    requires CanonicalDisabled(canonical)
    ensures var p := Resolve(defaults, Some(canonical), server, fallback);
      p.mode == Disabled && p.source == ServerPolicy && forall transport :: Capacity(p, transport) == 0
  {
    hide Normalized, CanonicalDisabled, Layered;
    var q := ForMode(Disabled).(source := ServerPolicy);
    NormalizedMode(q);
    NormalizedSource(q);
  }
}
