/** The policy object of `src/execution.rs`, whose fields are filled and normalized in place. */
module ExecutionPolicy {
  import opened Basics
  import opened Text
  import opened Tokens
  import P = Policy
  import R = PolicyResolve

  class ExecutionPolicy {
    var mode: P.Mode
    var affinity: seq<string>
    var queueTimeoutMs: nat
    var reusePolicy: string
    var minWorkers: nat
    var maxWorkers: nat
    var maxInFlight: nat
    var maxQueueDepth: nat
    var idleTtlMs: nat
    var source: P.Source
    var warnings: seq<P.Warning>

    function View(): P.Policy
      reads this
    {
      P.Policy.Policy(mode, affinity, queueTimeoutMs, reusePolicy, minWorkers, maxWorkers, maxInFlight, maxQueueDepth,
                      idleTtlMs, source, warnings)
    }

    constructor (preset: P.Mode)
      ensures View() == P.ForMode(preset)
    {
      var p := P.ForMode(preset);
      mode, affinity, queueTimeoutMs, reusePolicy := p.mode, p.affinity, p.queueTimeoutMs, p.reusePolicy;
      minWorkers, maxWorkers, maxInFlight := p.minWorkers, p.maxWorkers, p.maxInFlight;
      maxQueueDepth, idleTtlMs, source, warnings := p.maxQueueDepth, p.idleTtlMs, p.source, p.warnings;
    }

    /** `normalize_affinity`: drains the list into tokens and warnings, then sorts. */
    method NormalizeAffinity()
      modifies this`affinity, this`warnings
      ensures View() == P.Listed(old(View()))
    {
      hide P.AffinityToken, P.Supported, Trim;
      var values, normalized := affinity, [];
      assert values[..0] == [];
      for i := 0 to |values|
        invariant normalized == P.Kept(values[..i])
        invariant warnings == old(warnings) + P.Unkept(values[..i])
        invariant affinity == values
      {
        assert values[..i + 1][..i] == values[..i];
        var value := P.AffinityToken(values[i]);
        EmptyUnsupported();
        if value == "" {
        } else if P.Supported(value) {
          normalized := normalized + [value];
        } else {
          warnings := warnings + [P.UnsupportedAffinity(Trim(values[i]))];
        }
      }
      assert values[..|values|] == values;
      affinity := SortDedup(normalized);
    }

    /** `clamp_with_warning` */
    method Clamp(value: nat, maximum: nat, name: string) returns (clamped: nat)
      modifies this`warnings
      ensures clamped == Min(value, maximum)
      ensures warnings == old(warnings) + P.Excess(name, value, maximum)
    {
      clamped := value;
      if value > maximum {
        warnings := warnings + [P.TooMuch(name, value, maximum)];
        clamped := maximum;
      }
    }

    method ClampAll()
      modifies this
      requires maxWorkers >= 1 && maxInFlight >= 1
      ensures View() == P.Clamped(old(View()))
    {
      hide Min, Max;
      maxQueueDepth := Max(maxQueueDepth, 1);
      idleTtlMs := Max(idleTtlMs, 1_000);
      queueTimeoutMs := Clamp(queueTimeoutMs, P.MAX_QUEUE_TIMEOUT_MS, "queueTimeoutMs");
      maxWorkers := Clamp(maxWorkers, P.MAX_WORKERS, "maxWorkers");
      maxInFlight := Clamp(maxInFlight, P.MAX_IN_FLIGHT, "maxInFlightPerWorker");
      maxQueueDepth := Clamp(maxQueueDepth, P.MAX_QUEUE_DEPTH, "maxQueueDepth");
      idleTtlMs := Clamp(idleTtlMs, P.MAX_IDLE_TTL_MS, "idleTtlMs");
    }

    method FitWorkers()
      modifies this`maxWorkers, this`minWorkers, this`warnings
      ensures View() == P.OneWorker(old(View()))
    {
      if mode != P.Pool && maxWorkers > 1 {
        warnings := warnings + [P.OneProcess(mode, maxWorkers)];
        maxWorkers := 1;
      }
      minWorkers := Min(minWorkers, maxWorkers);
    }

    method RequireAffinity()
      modifies this`affinity, this`warnings
      ensures View() == P.Required(old(View()))
    {
      if mode == P.ProjectIsolated && "project" !in affinity {
        affinity := affinity + ["project"];
        warnings := warnings + [P.ProjectAdded];
      }
      if mode == P.SessionIsolated && !P.HasSession(affinity) {
        affinity := affinity + ["session"];
        warnings := warnings + [P.SessionAdded];
      }
    }

    /** `normalize`: the fields end up settled. */
    method Normalize()
      modifies this
      ensures View() == P.Normalized(old(View())) && P.Settled(View())
    {
      ghost var was := View();
      P.NormalizedSettles(was);
      hide P.Listed, P.Clamped, P.OneWorker, P.Required, P.Settled, P.AllowedReuse;
      NormalizeAffinity();
      if mode == P.Disabled || maxWorkers == 0 || maxInFlight == 0 {
        mode := P.Disabled;
        affinity, queueTimeoutMs, reusePolicy := [], 0, "never";
        minWorkers, maxWorkers, maxInFlight := 0, 0, 0;
        return;
      }
      ClampAll();
      FitWorkers();
      RequireAffinity();
      NormalizeAffinity();
      if !P.AllowedReuse(reusePolicy) {
        var fallback := P.ForMode(mode).reusePolicy;
        warnings := warnings + [P.UnsupportedReuse(reusePolicy, fallback)];
        reusePolicy := fallback;
      }
    }

    method NoteMode(raw: Option<string>, name: string)
      modifies this`warnings
      ensures View() == old(View()).(warnings := old(warnings) + R.ModeWarnings(old(View()), raw, name))
    {
      hide R.ParseMode, Token;
      if raw.Some? {
        match R.ParseMode(raw.value) {
          case Some(asked) =>
            if asked != mode { warnings := warnings + [P.ModeIgnored(name, asked, mode)]; }
          case None => warnings := warnings + [P.UnsupportedMode(Token(raw.value))];
        }
      }
    }

    /** `apply_json` */
    method ApplyJson(value: R.Json, name: string)
      modifies this
      ensures View() == R.Applied(old(View()), value, name)
    {
      hide R.ModeWarnings, Token, R.Strings, R.NonNegative, R.Positive;
      if value.NotObject? {
        warnings := warnings + [P.NotAnObject(name)];
        return;
      }
      NoteMode(value.mode, name);
      if value.affinity.Some? { affinity := R.Strings(value.affinity.value); }
      queueTimeoutMs := R.NonNegative(value.queueTimeoutMs, queueTimeoutMs);
      if value.reusePolicy.Some? && Token(value.reusePolicy.value) != "" {
        reusePolicy := Token(value.reusePolicy.value);
      }
      minWorkers := R.NonNegative(value.minWorkers, minWorkers);
      maxWorkers := R.NonNegative(value.maxWorkers, maxWorkers);
      maxInFlight := R.NonNegative(value.maxInFlight, maxInFlight);
      maxQueueDepth := R.Positive(value.maxQueueDepth, maxQueueDepth);
      idleTtlMs := R.Positive(value.idleTtlMs, idleTtlMs);
    }

    /** `apply_global_limits` */
    method ApplyGlobalLimits(value: R.Json)
      modifies this`maxQueueDepth, this`idleTtlMs
      ensures View() == R.Limited(old(View()), value)
    {
      if value.Object? {
        maxQueueDepth := R.Positive(value.maxQueueDepth, maxQueueDepth);
        idleTtlMs := R.Positive(value.idleTtlMs, idleTtlMs);
      }
    }

    /** `apply_canonical_json` */
    method ApplyCanonicalJson(value: R.Canonical)
      modifies this`mode, this`maxWorkers, this`maxInFlight
      ensures View() == R.Canonized(old(View()), value)
    {
      if R.CanonicalDisabled(value) {
        mode, maxWorkers, maxInFlight := P.Disabled, 0, 0;
        return;
      }
      if value.maxWorkers.Some? && value.maxWorkers.value >= 0 {
        maxWorkers := value.maxWorkers.value;
      } else if value.parallelismLimit.Some? && value.parallelismLimit.value >= 0 {
        maxWorkers := value.parallelismLimit.value;
      }
      maxInFlight := R.NonNegative(value.maxInFlight, maxInFlight);
    }
  }

  lemma {:induction false} EmptyUnsupported()
    ensures !P.Supported("")
  {
  }

  /** `resolve_with_canonical` */
  method ResolveWithCanonical(
    defaults: Option<R.Json>, canonical: Option<R.Canonical>, server: Option<R.Json>, fallback: P.Mode)
    returns (resolved: ExecutionPolicy)
    ensures fresh(resolved) && resolved.View() == R.Resolve(defaults, canonical, server, fallback)
  {
    hide P.ForMode, P.Normalized, P.Settled, R.Applied, R.Limited, R.Canonized, R.CanonicalDisabled, R.ParseMode,
         R.SourceOf;
    var disabled := canonical.Some? && R.CanonicalDisabled(canonical.value);
    var selected := if disabled then P.Disabled else R.ModeAt(server).Or(fallback);
    resolved := new ExecutionPolicy(selected);
    if !disabled {
      if R.ModeAt(server).None? && R.ModeAt(defaults) == Some(selected) && defaults.Some? {
        resolved.ApplyJson(defaults.value, "executionDefaults");
      } else if defaults.Some? {
        resolved.ApplyGlobalLimits(defaults.value);
      }
      if canonical.Some? { resolved.ApplyCanonicalJson(canonical.value); }
      if server.Some? { resolved.ApplyJson(server.value, "server.execution"); }
      resolved.mode := selected;
    }
    resolved.source := R.SourceOf(defaults, canonical, server, selected);
    resolved.Normalize();
  }
}
