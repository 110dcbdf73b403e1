/**
 What a server's canonical policy and the words in a config come to: the mode it
 runs in, the workers it gets, and the dimensions it is kept apart by.
 */
module PolicyLaws {
  import opened Basics
  import opened Text
  import opened Tokens
  import opened Policy
  import opened PolicyResolve

  // ---------------------------------------------------------------- the inferred mode

  predicate ProjectBound(c: Canonical) {
    || Says(c.scopeClass, "project-local") || Says(c.stateClass, "project-stateful")
    || Says(c.concurrencyPolicy, "isolated-per-project")
  }

  predicate SessionBound(c: Canonical) {
    || Says(c.stateClass, "session-stateful") || Says(c.stateBinding, "host-session")
    || Says(c.concurrencyPolicy, "single-session")
  }

  /** A state that many readers may share. */
  predicate Shareable(c: Canonical) {
    || Says(c.stateClass, "stateless") || Says(c.stateClass, "credential-stateful")
    || Says(c.stateClass, "remote-session-stateful")
  }

  /** A canonical policy under which nothing may run. */
  predicate Forbidden(c: Canonical) {
    || Says(c.startupStrategy, "disabled") || Says(c.routingGroup, "disabled")
    || Says(c.scopeClass, "not-runnable") || Says(c.concurrencyPolicy, "plan-only")
  }

  /** A forbidden server admits nothing, whatever its execution object says. */
  lemma {:induction false} ForbiddenAdmitsNothing(
    defaults: Option<Json>, c: Canonical, server: Option<Json>, fallback: Mode, transport: string)
    requires Forbidden(c)
    ensures var p := Resolve(defaults, Some(c), server, fallback);
      p.mode == Disabled && Capacity(p, transport) == 0
  {
    assert CanonicalDisabled(c) by { hide Says; }
    hide CanonicalDisabled, Resolve;
    DisabledPolicyWins(defaults, c, server, fallback);
  }

  predicate NoZero(limit: Option<int>) { limit != Some(0) }

  /** The canonical limits turn nothing off. */
  predicate Allows(c: Canonical) {
    !Forbidden(c) && NoZero(c.maxWorkers) && NoZero(c.parallelismLimit) && NoZero(c.maxInFlight)
  }

  lemma {:induction false} LayeredStays(defaults: Policy, c: Canonical, mode: Mode)
    requires Settled(defaults) && defaults.mode != Disabled && Allows(c) && mode != Disabled
    ensures var l := Layered(Some(Config(defaults)), Some(c), None, mode);
      l.mode == mode && !Off(l)
  {
    AllowsNot(c);
    hide ParseMode, CanonicalDisabled, Strings, ModeWarnings, Token, SettledAffinity, HasSession, AllowedReuse,
         Forbidden;
  }

  /**
   A server without an execution object runs in the mode its canonical policy
   calls for: kept apart by project, else by session, else shared by readers, else
   one request at a time.
   */
  lemma {:induction false} InferredServer(defaults: Policy, c: Canonical)
    requires Settled(defaults) && defaults.mode != Disabled && Allows(c)
    ensures var p := ForServer(defaults, Some(c), None);
      && (p.mode == ProjectIsolated <==> ProjectBound(c))
      && (p.mode == SessionIsolated <==> !ProjectBound(c) && SessionBound(c))
      && (p.mode == Shared <==>
            !ProjectBound(c) && !SessionBound(c) && Says(c.concurrencyPolicy, "multi-reader") && Shareable(c))
      && p.mode != Pool && p.mode != Disabled && p.source == ServerPolicy
      && (p.mode == ProjectIsolated ==> "project" in p.affinity)
      && (p.mode == SessionIsolated ==> HasSession(p.affinity))
  {
    var mode := InferredMode(c);
    assert mode != Disabled && mode != Pool;
    LayeredStays(defaults, c, mode);
    hide InferredMode, Layered, Allows, Settled, Says, Normalized, CanonicalDisabled, Off;
    assert !CanonicalDisabled(c) by { AllowsNot(c); }
    var q := Layered(Some(Config(defaults)), Some(c), None, mode).(source := ServerPolicy);
    SourceOff(Layered(Some(Config(defaults)), Some(c), None, mode), ServerPolicy);
    NormalizedMode(q);
    NormalizedSource(q);
    NormalizedSettles(q);
    SettledAffinities(Normalized(q));
    InferredCases(c);
  }

  lemma {:induction false} AllowsNot(c: Canonical)
    requires Allows(c)
    ensures !CanonicalDisabled(c)
  {
    hide Says;
  }

  lemma {:induction false} SourceOff(p: Policy, source: Source)
    ensures Off(p.(source := source)) <==> Off(p)
  {
  }

  lemma {:induction false} SettledAffinities(p: Policy)
    requires Settled(p)
    ensures p.mode == ProjectIsolated ==> "project" in p.affinity
    ensures p.mode == SessionIsolated ==> HasSession(p.affinity)
  {
    hide SettledAffinity, HasSession, AllowedReuse;
  }

  lemma {:induction false} InferredCases(c: Canonical)
    requires !CanonicalDisabled(c)
    ensures var mode := InferredMode(c);
      && (mode == ProjectIsolated <==> ProjectBound(c))
      && (mode == SessionIsolated <==> !ProjectBound(c) && SessionBound(c))
      && (mode == Shared <==>
            !ProjectBound(c) && !SessionBound(c) && Says(c.concurrencyPolicy, "multi-reader") && Shareable(c))
      && mode != Pool && mode != Disabled
  {
    hide Says;
  }

  // ---------------------------------------------------------------- the canonical limits

  predicate Unset(limit: Option<int>) { limit.None? || limit.value < 0 }

  /** A pool gets the workers its canonical policy names, the worker limit before the parallelism limit. */
  lemma {:induction false} CanonicalWorkers(
    defaults: Option<Json>, c: Canonical, server: Json, fallback: Mode, workers: nat)
    requires ModeAt(Some(server)) == Some(Pool) && Unset(server.maxWorkers) && !CanonicalDisabled(c)
    requires workers > 0 &&
      (c.maxWorkers == Some(workers) || (Unset(c.maxWorkers) && c.parallelismLimit == Some(workers)))
    requires NoZero(c.maxInFlight) && NoZero(server.maxInFlight)
    ensures var p := Resolve(defaults, Some(c), Some(server), fallback);
      p.mode == Pool && p.maxWorkers == Min(workers, MAX_WORKERS)
  {
    PoolLayers(defaults, c, server, workers);
    hide ParseMode, CanonicalDisabled, Normalized, Layered, Min;
    var q := Layered(defaults, Some(c), Some(server), Pool).(source := ServerExecution);
    NormalizedNumbers(q);
  }

  lemma {:induction false} PoolLayers(defaults: Option<Json>, c: Canonical, server: Json, workers: nat)
    requires ModeAt(Some(server)) == Some(Pool) && Unset(server.maxWorkers) && !CanonicalDisabled(c)
    requires workers > 0 &&
      (c.maxWorkers == Some(workers) || (Unset(c.maxWorkers) && c.parallelismLimit == Some(workers)))
    requires NoZero(c.maxInFlight) && NoZero(server.maxInFlight)
    ensures var l := Layered(defaults, Some(c), Some(server), Pool);
      l.mode == Pool && l.maxWorkers == workers && l.maxInFlight > 0 && !Off(l)
  {
    hide ParseMode, CanonicalDisabled, Strings, ModeWarnings, Token;
  }

  // ---------------------------------------------------------------- capacity

  /** An enabled policy admits its workers times what one worker takes, which is one request over stdio. */
  lemma {:induction false} CapacityIs(p: Policy, transport: string)
    requires Settled(p)
    ensures Capacity(p, transport) ==
      if p.mode == Disabled then 0 else p.maxWorkers * (if Lower(transport) == "stdio" then 1 else p.maxInFlight)
  {
    hide Lower, SettledAffinity, HasSession, AllowedReuse;
  }

  // ---------------------------------------------------------------- words

  /** The dimension a word in an affinity list stands for. */
  predicate StandsFor(raw: string, t: string) {
    Supported(t) &&
    (|| Token(raw) == t
     || (Token(raw) == "conversation" && t == "chat")
     || (Token(raw) == "workspace" && t == "project")
     || (Token(raw) == "credentials" && t == "credential"))
  }

  lemma {:induction false} TokenMeans(raw: string, t: string)
    requires Supported(t)
    ensures AffinityToken(raw) == t <==> StandsFor(raw, t)
  {
    hide Token;
  }

  /** A normalized list holds exactly the dimensions that some word of it stands for. */
  lemma {:induction false} AffinitiesMean(values: seq<string>, t: string)
    ensures t in Affinities(values) <==> exists i | 0 <= i < |values| :: StandsFor(values[i], t)
  {
    hide SortDedup, Kept, StandsFor;
    SortDedupSorts(Kept(values));
    KeptMeans(values, t);
  }

  lemma {:induction false} KeptMeans(values: seq<string>, t: string)
    ensures t in Kept(values) <==> exists i | 0 <= i < |values| :: StandsFor(values[i], t)
  {
    hide AffinityToken, Supported, StandsFor;
    if values != [] {
      var n := |values| - 1;
      KeptMeans(values[..n], t);
      KeptOne(values[n], t);
      if i :| 0 <= i < n && StandsFor(values[..n][i], t) { assert StandsFor(values[i], t); }
      if i :| 0 <= i < |values| && StandsFor(values[i], t) {
        assert i < n ==> StandsFor(values[..n][i], t);
      }
    }
  }

  lemma {:induction false} KeptOne(raw: string, t: string)
    ensures Supported(AffinityToken(raw)) && AffinityToken(raw) == t <==> StandsFor(raw, t)
  {
    hide AffinityToken, Token, Supported;
    if Supported(t) { TokenMeans(raw, t); }
  }

  /** The words a config may use for each mode. */
  function Words(mode: Mode): set<string> {
    match mode
    case Shared => {"shared", "parallel", "parallel-safe", "multi-reader"}
    case Serialized => {"serialized", "serial", "single-writer", "queue", "queued"}
    case SessionIsolated => {"session", "session-isolated", "per-session", "single-session"}
    case ProjectIsolated => {"project", "project-isolated", "per-project", "isolated-per-project"}
    case Pool => {"pool", "process-pool", "worker-pool"}
    case Disabled => {"disabled", "off", "plan-only", "not-runnable"}
  }

  lemma {:induction false} FirstWords(raw: string)
    ensures ParseMode(raw) == Some(Shared) <==> Token(raw) in Words(Shared)
    ensures ParseMode(raw) == Some(Serialized) <==> Token(raw) in Words(Serialized)
  {
    hide Token;
  }

  lemma {:induction false} SessionWords(raw: string)
    ensures ParseMode(raw) == Some(SessionIsolated) <==> Token(raw) in Words(SessionIsolated)
  {
    hide Token;
  }

  lemma {:induction false} ProjectWords(raw: string)
    ensures ParseMode(raw) == Some(ProjectIsolated) <==> Token(raw) in Words(ProjectIsolated)
  {
    hide Token;
  }

  lemma {:induction false} PoolWords(raw: string)
    ensures ParseMode(raw) == Some(Pool) <==> Token(raw) in Words(Pool)
  {
    hide Token;
  }

  lemma {:induction false} DisabledWords(raw: string)
    ensures ParseMode(raw) == Some(Disabled) <==> Token(raw) in Words(Disabled)
  {
    hide Token;
  }

  /** A word names at most one mode, in any case and with underscores for dashes. */
  lemma {:induction false} ModeWords(raw: string, mode: Mode)
    ensures ParseMode(raw) == Some(mode) <==> Token(raw) in Words(mode)
  {
    hide Token, ParseMode, Words;
    FirstWords(raw);
    SessionWords(raw);
    ProjectWords(raw);
    PoolWords(raw);
    DisabledWords(raw);
  }

  // ---------------------------------------------------------------- limits, reuse and presets

  /** An enabled policy is cut to the limits, and its reuse policy is kept if it is one of the seven there are. */
  lemma {:induction false} NormalizedIs(p: Policy)
    requires !Off(p)
    ensures var q := Normalized(p);
      && q.mode == p.mode && q.source == p.source
      && q.queueTimeoutMs == Min(p.queueTimeoutMs, 300_000) && q.maxInFlight == Min(p.maxInFlight, 64)
      && q.maxWorkers == (if p.mode == Pool then Min(p.maxWorkers, 64) else 1)
      && q.minWorkers == Min(p.minWorkers, q.maxWorkers)
      && q.maxQueueDepth == Clamp(p.maxQueueDepth, 1, 10_000) && q.idleTtlMs == Clamp(p.idleTtlMs, 1_000, 86_400_000)
      && q.reusePolicy ==
           if p.reusePolicy in {"shared", "sticky", "sticky-session", "sticky-project", "least-busy", "ttl", "never"}
           then p.reusePolicy else ForMode(p.mode).reusePolicy
  {
    hide Affinities, Unkept, HasSession, Excess, AllowedReuse, ForMode;
    ReuseWords(p.reusePolicy);
  }

  lemma {:induction false} ReuseWords(t: string)
    ensures AllowedReuse(t) <==>
      t in {"shared", "sticky", "sticky-session", "sticky-project", "least-busy", "ttl", "never"}
  {
  }

  /** The affinity of a mode's preset, in the order `normalize` leaves it. */
  function PresetAffinity(mode: Mode): seq<string> {
    match mode case SessionIsolated => ["chat", "client"] case ProjectIsolated => ["project"] case _ => []
  }

  /** A preset is settled but for the order of its affinity: `normalize` changes nothing else and gives no warning. */
  lemma {:induction false} PresetStays(mode: Mode)
    ensures Normalized(ForMode(mode)) == ForMode(mode).(affinity := PresetAffinity(mode))
  {
    var p := ForMode(mode);
    var q := p.(affinity := PresetAffinity(mode));
    PresetSettled(mode);
    SettledStays(q);
    if mode == SessionIsolated {
      ClientChat();
      SettledAffinityStays(q.affinity);
      assert Listed(p) == q == Listed(q) by { hide Affinities, Unkept; }
      hide Listed, Affinities, Unkept, Settled;
      assert Normalized(p) == Normalized(q);
    }
  }

  lemma {:induction false} PresetSettled(mode: Mode)
    ensures Settled(ForMode(mode).(affinity := PresetAffinity(mode)))
  {
    var a := PresetAffinity(mode);
    assert mode == SessionIsolated ==> Less(a[0], a[1]);
    assert mode == SessionIsolated ==> SessionLike(a[0]);
  }

  lemma {:induction false} ClientChat()
    ensures Affinities(["client", "chat"]) == ["chat", "client"] && Unkept(["client", "chat"]) == []
  {
    KeptSupported(["client", "chat"]);
    assert Less("chat", "client") && !Less("client", "chat");
    assert ["client", "chat"][1..] == ["chat"] && ["chat"][1..] == [];
    hide Less, Kept, Unkept;
    assert SortDedup(["chat"]) == ["chat"];
  }

  /** What each mode comes to without further settings, over stdio and over HTTP. */
  lemma {:induction false} PresetsAre(mode: Mode)
    ensures var p := Normalized(ForMode(mode));
      && Capacity(p, "stdio") == (match mode case Pool => 4 case Disabled => 0 case _ => 1)
      && Capacity(p, "http") == (match mode case Pool => 4 case Shared => 4 case Disabled => 0 case _ => 1)
      && p.queueTimeoutMs ==
           (match mode case Shared => 2_000 case Pool => 5_000 case Disabled => 0 case _ => 10_000)
      && p.affinity == PresetAffinity(mode) && p.warnings == []
      && p.minWorkers == (if mode == Pool then 1 else 0) && p.maxQueueDepth == 256 && p.idleTtlMs == 300_000
  {
    hide Normalized, Lower;
    PresetStays(mode);
    Transports();
  }

  lemma {:induction false} Transports()
    ensures Lower("stdio") == "stdio" && Lower("http") != "stdio"
  {
  }
}
