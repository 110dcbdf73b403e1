/**
 Execution policies of `src/execution.rs`: which mode a server runs in, how many
 requests it takes at once, and which defaults win. JSON is seen through the
 fields the resolver reads; a missing or ill-typed field is `None`.
 */
module Policy {
  import opened Basics
  import opened Text
  import opened Tokens

  datatype Mode = Shared | Serialized | SessionIsolated | ProjectIsolated | Pool | Disabled

  /** The messages a policy carries, with their arguments. */
  datatype Warning =
    | NotAnObject(name: string)
    | ModeIgnored(name: string, asked: Mode, kept: Mode)
    | UnsupportedMode(token: string)
    | UnsupportedAffinity(text: string)
    | TooMuch(name: string, value: nat, maximum: nat)
    | OneProcess(mode: Mode, from: nat)
    | ProjectAdded
    | SessionAdded
    | UnsupportedReuse(was: string, now: string)

  datatype Source = ModePreset | ServerPolicy | ServerExecution | ExecutionDefaults | InferredPolicy

  datatype Policy = Policy(
    mode: Mode,
    affinity: seq<string>,
    queueTimeoutMs: nat,
    reusePolicy: string,
    minWorkers: nat,
    maxWorkers: nat,
    maxInFlight: nat,
    maxQueueDepth: nat,
    idleTtlMs: nat,
    source: Source,
    warnings: seq<Warning>)

  const DEFAULT_MAX_QUEUE_DEPTH := 256
  const DEFAULT_IDLE_TTL_MS := 300_000
  const MAX_QUEUE_TIMEOUT_MS := 300_000
  const MAX_WORKERS := 64
  const MAX_IN_FLIGHT := 64
  const MAX_QUEUE_DEPTH := 10_000
  const MAX_IDLE_TTL_MS := 86_400_000

  function Preset(mode: Mode, affinity: seq<string>, queue: nat, reuse: string, min: nat, max: nat,
      flight: nat): Policy {
    Policy(mode, affinity, queue, reuse, min, max, flight, DEFAULT_MAX_QUEUE_DEPTH, DEFAULT_IDLE_TTL_MS, ModePreset, [])
  }

  /** `for_mode` */
  function ForMode(mode: Mode): Policy {
    match mode
    case Shared => Preset(mode, [], 2_000, "shared", 0, 1, 4)
    case Serialized => Preset(mode, [], 10_000, "sticky", 0, 1, 1)
    case SessionIsolated => Preset(mode, ["client", "chat"], 10_000, "sticky-session", 0, 1, 1)
    case ProjectIsolated => Preset(mode, ["project"], 10_000, "sticky-project", 0, 1, 1)
    case Pool => Preset(mode, [], 5_000, "least-busy", 1, 4, 1)
    case Disabled => Preset(mode, [], 0, "never", 0, 0, 0)
  }

  // ---------------------------------------------------------------- affinity lists

  /** `normalize_affinity_token` */
  function AffinityToken(raw: string): string {
    var t := Token(raw);
    if t == "conversation" then "chat"
    else if t == "workspace" then "project"
    else if t == "credentials" then "credential"
    else t
  }

  predicate Supported(t: string) {
    || t == "client" || t == "project" || t == "chat" || t == "session" || t == "credential"
    || t == "application" || t == "metadata" || t == "transport" || t == "transport-session" || t == "client-instance"
  }

  /** The supported tokens of a list, in order. */
  function Kept(values: seq<string>): seq<string> {
    if values == [] then []
    else
      var t := AffinityToken(values[|values| - 1]);
      Kept(values[..|values| - 1]) + (if Supported(t) then [t] else [])
  }

  /** A warning for each token that is neither blank nor supported. */
  function Unkept(values: seq<string>): seq<Warning> {
    if values == [] then []
    else
      var raw := values[|values| - 1];
      var t := AffinityToken(raw);
      Unkept(values[..|values| - 1]) + (if t != "" && !Supported(t) then [UnsupportedAffinity(Trim(raw))] else [])
  }

  function Affinities(values: seq<string>): seq<string> { SortDedup(Kept(values)) }

  predicate SettledAffinity(values: seq<string>) {
    Sorted(values) && forall i | 0 <= i < |values| :: Supported(values[i])
  }

  // ---------------------------------------------------------------- normalize

  function Excess(name: string, value: nat, maximum: nat): seq<Warning> {
    if value > maximum then [TooMuch(name, value, maximum)] else []
  }

  predicate Off(p: Policy) {
    p.mode == Disabled || p.maxWorkers == 0 || p.maxInFlight == 0
  }

  function TurnedOff(p: Policy): Policy {
    p.(mode := Disabled, affinity := [], queueTimeoutMs := 0, reusePolicy := "never",
       minWorkers := 0, maxWorkers := 0, maxInFlight := 0)
  }

  function Listed(p: Policy): Policy {
    p.(affinity := Affinities(p.affinity), warnings := p.warnings + Unkept(p.affinity))
  }

  function Clamped(p: Policy): Policy {
    var depth, idle := Max(p.maxQueueDepth, 1), Max(p.idleTtlMs, 1_000);
    p.(queueTimeoutMs := Min(p.queueTimeoutMs, MAX_QUEUE_TIMEOUT_MS),
       maxWorkers := Min(p.maxWorkers, MAX_WORKERS),
       maxInFlight := Min(p.maxInFlight, MAX_IN_FLIGHT),
       maxQueueDepth := Min(depth, MAX_QUEUE_DEPTH),
       idleTtlMs := Min(idle, MAX_IDLE_TTL_MS),
       warnings := p.warnings
         + Excess("queueTimeoutMs", p.queueTimeoutMs, MAX_QUEUE_TIMEOUT_MS)
         + Excess("maxWorkers", p.maxWorkers, MAX_WORKERS)
         + Excess("maxInFlightPerWorker", p.maxInFlight, MAX_IN_FLIGHT)
         + Excess("maxQueueDepth", depth, MAX_QUEUE_DEPTH)
         + Excess("idleTtlMs", idle, MAX_IDLE_TTL_MS))
  }

  function OneWorker(p: Policy): Policy {
    var q := if p.mode != Pool && p.maxWorkers > 1
             then p.(maxWorkers := 1, warnings := p.warnings + [OneProcess(p.mode, p.maxWorkers)]) else p;
    q.(minWorkers := Min(q.minWorkers, q.maxWorkers))
  }

  predicate SessionLike(t: string) {
    t == "chat" || t == "session" || t == "application" || t == "transport-session"
  }

  predicate HasSession(values: seq<string>) {
    exists i | 0 <= i < |values| :: SessionLike(values[i])
  }

  function Required(p: Policy): Policy {
    if p.mode == ProjectIsolated && "project" !in p.affinity then
      p.(affinity := p.affinity + ["project"], warnings := p.warnings + [ProjectAdded])
    else if p.mode == SessionIsolated && !HasSession(p.affinity) then
      p.(affinity := p.affinity + ["session"], warnings := p.warnings + [SessionAdded])
    else p
  }

  predicate AllowedReuse(t: string) {
    || t == "shared" || t == "sticky" || t == "sticky-session" || t == "sticky-project"
    || t == "least-busy" || t == "ttl" || t == "never"
  }

  function Reused(p: Policy): Policy {
    if AllowedReuse(p.reusePolicy) then p
    else
      var reuse := ForMode(p.mode).reusePolicy;
      p.(reusePolicy := reuse, warnings := p.warnings + [UnsupportedReuse(p.reusePolicy, reuse)])
  }

  /** `normalize` */
  function Normalized(p: Policy): Policy {
    var q := Listed(p);
    if Off(q) then TurnedOff(q) else Reused(Listed(Required(OneWorker(Clamped(q)))))
  }

  // ---------------------------------------------------------------- settled policies

  /** What a policy looks like that `normalize` leaves alone. */
  predicate Settled(p: Policy) {
    if p.mode == Disabled then p == TurnedOff(p)
    else
      && SettledAffinity(p.affinity)
      && (p.mode == ProjectIsolated ==> "project" in p.affinity)
      && (p.mode == SessionIsolated ==> HasSession(p.affinity))
      && p.queueTimeoutMs <= MAX_QUEUE_TIMEOUT_MS
      && 1 <= p.maxWorkers <= (if p.mode == Pool then MAX_WORKERS else 1) && p.minWorkers <= p.maxWorkers
      && 1 <= p.maxInFlight <= MAX_IN_FLIGHT
      && 1 <= p.maxQueueDepth <= MAX_QUEUE_DEPTH
      && 1_000 <= p.idleTtlMs <= MAX_IDLE_TTL_MS
      && AllowedReuse(p.reusePolicy)
  }

  lemma {:induction false} SupportedIsPlain(t: string)
    requires Supported(t)
    ensures AffinityToken(t) == t && t != "" && Trim(t) == t
  {
    hide Token, Trim;
    assert Plain(t);
    PlainToken(t);
  }

  lemma {:induction false} KeptSupported(values: seq<string>)
    requires forall i | 0 <= i < |values| :: Supported(values[i])
    ensures Kept(values) == values && Unkept(values) == []
  {
    hide AffinityToken, Supported, Trim;
    if values != [] {
      var n := |values| - 1;
      KeptSupported(values[..n]);
      SupportedIsPlain(values[n]);
      assert values == values[..n] + [values[n]];
    }
  }

  lemma {:induction false} KeptIsSupported(values: seq<string>)
    ensures forall t | t in Kept(values) :: Supported(t)
  {
    hide AffinityToken, Supported;
    if values != [] { KeptIsSupported(values[..|values| - 1]); }
  }

  /** A normalized list is sorted, without repetition, and holds supported dimensions only. */
  lemma {:induction false} AffinitiesSettle(values: seq<string>)
    ensures SettledAffinity(Affinities(values))
    ensures forall t :: t in Affinities(values) <==> t in Kept(values)
  {
    hide SortDedup, Kept, Supported, Less;
    KeptIsSupported(values);
    SortDedupSorts(Kept(values));
  }

  lemma {:induction false} SettledAffinityStays(values: seq<string>)
    requires SettledAffinity(values)
    ensures Affinities(values) == values && Unkept(values) == []
  {
    hide Supported, Less;
    KeptSupported(values);
    SortedStays(values);
  }

  lemma {:induction false} ListedSettles(p: Policy, required: string)
    ensures SettledAffinity(Listed(p).affinity)
    ensures (forall i | 0 <= i < |p.affinity| :: Supported(p.affinity[i])) ==>
      Listed(p).warnings == p.warnings && (required in p.affinity <==> required in Listed(p).affinity)
  {
    hide Kept, Unkept, SortDedup, Supported, SettledAffinity, Affinities;
    AffinitiesSettle(p.affinity);
    if forall i | 0 <= i < |p.affinity| :: Supported(p.affinity[i]) { KeptSupported(p.affinity); }
  }

  /** The numeric part of a settled policy. */
  predicate Bounded(p: Policy) {
    && p.queueTimeoutMs <= MAX_QUEUE_TIMEOUT_MS
    && 1 <= p.maxWorkers <= (if p.mode == Pool then MAX_WORKERS else 1) && p.minWorkers <= p.maxWorkers
    && 1 <= p.maxInFlight <= MAX_IN_FLIGHT
    && 1 <= p.maxQueueDepth <= MAX_QUEUE_DEPTH
    && 1_000 <= p.idleTtlMs <= MAX_IDLE_TTL_MS
  }

  lemma {:induction false} ClampedBounded(q: Policy)
    requires !Off(q)
    ensures var c := OneWorker(Clamped(q)); Bounded(c) && c.mode == q.mode && c.affinity == q.affinity
  {
    hide Excess;
  }

  lemma {:induction false} ReusedSettles(p: Policy)
    requires p.mode != Disabled && Bounded(p) && SettledAffinity(p.affinity)
    requires (p.mode == ProjectIsolated ==> "project" in p.affinity) &&
      (p.mode == SessionIsolated ==> HasSession(p.affinity))
    ensures Settled(Reused(p))
  {
    hide SettledAffinity, HasSession;
  }

  /** After the required dimension is added and the list normalized again. */
  lemma {:induction false} RequiredListed(c: Policy)
    requires c.mode != Disabled && Bounded(c) && SettledAffinity(c.affinity)
    ensures var l := Listed(Required(c));
      && l.mode == c.mode && Bounded(l) && SettledAffinity(l.affinity)
      && (l.mode == ProjectIsolated ==> "project" in l.affinity) &&
          (l.mode == SessionIsolated ==> HasSession(l.affinity))
  {
    hide Affinities, Unkept, Supported, Sorted;
    RequiredKeeps(c);
    var r := Required(c);
    hide SettledAffinity, Required;
    ListedSettles(r, "project");
    if r.mode == SessionIsolated {
      var i :| 0 <= i < |r.affinity| && SessionLike(r.affinity[i]);
      ListedSettles(r, r.affinity[i]);
    }
  }

  /** What `normalize` produces is settled. */
  lemma {:induction false} NormalizedSettles(p: Policy)
    ensures Settled(Normalized(p))
  {
    var q := Listed(p);
    ListedSettles(p, "");
    hide Listed, SettledAffinity;
    if !Off(q) {
      ClampedBounded(q);
      var c := OneWorker(Clamped(q));
      hide Clamped, OneWorker, Bounded, HasSession, Required, Settled;
      RequiredListed(c);
      ReusedSettles(Listed(Required(c)));
    }
  }

  lemma {:induction false} RequiredKeeps(c: Policy)
    requires SettledAffinity(c.affinity)
    ensures var r := Required(c);
      && r == c.(affinity := r.affinity, warnings := r.warnings)
      && (forall i | 0 <= i < |r.affinity| :: Supported(r.affinity[i]))
      && (r.mode == ProjectIsolated ==> "project" in r.affinity)
      && (r.mode == SessionIsolated ==> HasSession(r.affinity))
  {
    hide Sorted;
    var r := Required(c);
    if c.mode == SessionIsolated && !HasSession(c.affinity) {
      assert r.affinity[|c.affinity|] == "session" && SessionLike("session");
    }
  }

  /** A settled policy is left alone, warnings included. */
  lemma {:induction false} SettledStays(p: Policy)
    requires Settled(p)
    ensures Normalized(p) == p
  {
    hide Affinities, Unkept, Supported, Sorted;
    if p.mode == Disabled {
      NothingListed();
      assert Listed(p) == p;
    } else {
      SettledAffinityStays(p.affinity);
      hide SettledAffinity;
      assert Listed(p) == p;
      assert Clamped(p) == p;
      assert OneWorker(p) == p;
    }
  }

  lemma {:induction false} NothingListed()
    ensures Affinities([]) == [] && Unkept([]) == []
  {
  }

  /** `normalize` is idempotent, warnings included, and its fixed points are exactly the settled policies. */
  lemma {:induction false} NormalizeIdempotent(p: Policy)
    ensures Normalized(Normalized(p)) == Normalized(p)
    ensures Settled(p) <==> Normalized(p) == p
  {
    hide Normalized, Settled;
    NormalizedSettles(p);
    SettledStays(Normalized(p));
    if Settled(p) { SettledStays(p); }
  }

  // ---------------------------------------------------------------- capacity

  function WorkerLimit(p: Policy): nat {
    match p.mode
    case Disabled => 0
    case Pool => Max(p.maxWorkers, 1)
    case _ => 1
  }

  function InFlight(p: Policy, transport: string): nat {
    if p.mode == Disabled || p.maxWorkers == 0 then 0
    else if Lower(transport) == "stdio" then 1
    else Max(p.maxInFlight, 1)
  }

  /** `effective_capacity` */
  function Capacity(p: Policy, transport: string): nat { WorkerLimit(p) * InFlight(p, transport) }

  /**
   A normalized policy admits nothing exactly when it is disabled, and one
   stdio child serves one request at a time.
   */
  lemma {:induction false} CapacityBounds(p: Policy, transport: string)
    ensures var q := Normalized(p);
      && (Capacity(q, transport) == 0 <==> q.mode == Disabled)
      && Capacity(q, transport) <= MAX_WORKERS * MAX_IN_FLIGHT
      && (q.mode != Disabled && q.mode != Pool && Lower(transport) == "stdio" ==> Capacity(q, transport) == 1)
      && (q.mode != Disabled ==> q.minWorkers <= q.maxWorkers == WorkerLimit(q))
  {
    hide Normalized, Lower, SettledAffinity, HasSession, AllowedReuse;
    NormalizedSettles(p);
    var q := Normalized(p);
    if q.mode != Disabled {
      Product(WorkerLimit(q), InFlight(q, transport));
    }
  }

  lemma {:induction false} Product(a: nat, b: nat)
    requires 1 <= a <= MAX_WORKERS && 1 <= b <= MAX_IN_FLIGHT
    ensures 1 <= a * b <= MAX_WORKERS * MAX_IN_FLIGHT
  {
    assert a * b <= MAX_WORKERS * b;
  }
}
