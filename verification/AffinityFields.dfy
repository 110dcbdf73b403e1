/**
 Affinity on a request's own fields: what a request carries for each dimension
 is said field by field, without an order of evaluation, and isolation follows.
 */
module AffinityFields {
  import opened Text
  import opened Tokens
  import opened Policy
  import opened PolicyResolve
  import opened Affinity

  // ---------------------------------------------------------------- what a request carries

  /** A field that is there and not blank, without the blanks around it. */
  predicate Holds(field: Option<string>, v: string) {
    field.Some? && !Blank(field.value) && v == Trim(field.value)
  }

  predicate Empty(field: Option<string>) { field.None? || Blank(field.value) }

  predicate Given(c: Context, path: seq<string>, v: string) {
    c.metadata.Some? && path in c.metadata.value.strings && Holds(Some(c.metadata.value.strings[path]), v)
  }

  /** Nothing but blanks at any of the paths. */
  ghost predicate NoneGiven(c: Context, paths: seq<seq<string>>) {
    forall i, v | 0 <= i < |paths| :: !Given(c, paths[i], v)
  }

  /** The first of the paths that has more than blanks has `v`. */
  ghost predicate FirstGiven(c: Context, paths: seq<seq<string>>, v: string) {
    exists i :: 0 <= i < |paths| && Given(c, paths[i], v) && NoneGiven(c, paths[..i])
  }

  const APPLICATION_PATHS: seq<seq<string>> :=
    [["mcpace", "applicationSessionId"], ["mcpace", "chatId"], ["applicationSessionId"], ["chatId"], ["conversationId"]]

  const CREDENTIAL_PATHS: seq<seq<string>> :=
    [["mcpace", "credentialId"], ["mcpace", "credential"], ["credentialId"], ["credential"]]

  const TRANSPORT_PATHS: seq<seq<string>> := [["mcpace", "transportSessionId"], ["transportSessionId"]]

  const INSTANCE_PATHS: seq<seq<string>> := [["mcpace", "clientInstanceId"], ["clientInstanceId"]]

  predicate HoldsOr(field: Option<string>, otherwise: string, v: string) {
    Holds(field, v) || (Empty(field) && v == otherwise)
  }

  /** The value a request carries for a dimension. */
  ghost predicate Carries(dimension: string, c: Context, hash: Hash, v: string) {
    match dimension
    case "client" => HoldsOr(c.clientId, "mcpace-upstream-bridge", v)
    case "project" => Holds(c.projectRoot, v)
    case "chat" => CarriesSession(c, v)
    case "session" => CarriesSession(c, v)
    case "application" => CarriesSession(c, v)
    case "credential" => FirstGiven(c, CREDENTIAL_PATHS, v)
    case "metadata" => c.metadata.Some? && v == hash(c.metadata.value.compact)
    case "transport" => HoldsOr(c.transport, "stdio", v)
    case "transport-session" =>
      FirstGiven(c, TRANSPORT_PATHS, v) || (NoneGiven(c, TRANSPORT_PATHS) && Holds(c.sessionId, v))
    case "client-instance" =>
      || FirstGiven(c, INSTANCE_PATHS, v)
      || (NoneGiven(c, INSTANCE_PATHS) && HoldsOr(c.clientId, "mcpace-upstream-bridge", v))
    case _ => false
  }

  /** The application's session in the metadata, and otherwise the transport's session id. */
  ghost predicate CarriesSession(c: Context, v: string) {
    FirstGiven(c, APPLICATION_PATHS, v) || (NoneGiven(c, APPLICATION_PATHS) && Holds(c.sessionId, v))
  }

  // ---------------------------------------------------------------- the resolution gives exactly that

  lemma {:induction false} TrimmedHolds(field: Option<string>, v: string)
    ensures Trimmed(field) == Some(v) <==> Holds(field, v)
    ensures Trimmed(field).None? <==> Empty(field)
  {
    hide Trim;
    if field.Some? { TrimBlank(field.value); }
  }

  lemma {:induction false} GivenAt(c: Context, path: seq<string>, v: string)
    requires c.metadata.Some?
    ensures var strings := c.metadata.value.strings;
      var here := if path in strings then Trimmed(Some(strings[path])) else None;
      here == Some(v) <==> Given(c, path, v)
  {
    hide Trimmed, Holds;
    if path in c.metadata.value.strings { TrimmedHolds(Some(c.metadata.value.strings[path]), v); }
  }

  /** The search through the paths finds the first one that has more than blanks. */
  lemma {:induction false} MetadataMeans(c: Context, paths: seq<seq<string>>)
    ensures MetadataString(c, paths).None? <==> NoneGiven(c, paths)
    ensures forall v :: MetadataString(c, paths) == Some(v) <==> FirstGiven(c, paths, v)
  {
    hide Trimmed, Given;
    if c.metadata.None? {
      forall path, v ensures !Given(c, path, v) { NotGiven(c, path, v); }
    } else if paths != [] {
      var strings := c.metadata.value.strings;
      var here := if paths[0] in strings then Trimmed(Some(strings[paths[0]])) else None;
      MetadataMeans(c, paths[1..]);
      forall v ensures here == Some(v) <==> Given(c, paths[0], v) { GivenAt(c, paths[0], v); }
      if here.Some? {
        FirstHere(c, paths, here.value);
      } else {
        FirstLater(c, paths);
      }
    }
  }

  lemma {:induction false} NotGiven(c: Context, path: seq<string>, v: string)
    requires c.metadata.None?
    ensures !Given(c, path, v)
  {
  }

  lemma {:induction false} FirstHere(c: Context, paths: seq<seq<string>>, here: string)
    requires paths != [] && forall v :: here == v <==> Given(c, paths[0], v)
    ensures !NoneGiven(c, paths) && forall v :: here == v <==> FirstGiven(c, paths, v)
  {
    hide Given;
    assert Given(c, paths[0], here) && paths[..0] == [];
    assert FirstGiven(c, paths, here);
    forall v | FirstGiven(c, paths, v) ensures v == here {
      var i :| 0 <= i < |paths| && Given(c, paths[i], v) && NoneGiven(c, paths[..i]);
      HeadNotGiven(c, paths, i, here);
    }
  }

  lemma {:induction false} HeadNotGiven(c: Context, paths: seq<seq<string>>, i: nat, v: string)
    requires i <= |paths| && NoneGiven(c, paths[..i])
    ensures i == 0 || !Given(c, paths[0], v)
  {
    hide Given;
    if i > 0 { assert paths[..i][0] == paths[0]; }
  }

  lemma {:induction false} FirstLater(c: Context, paths: seq<seq<string>>)
    requires paths != [] && forall v :: !Given(c, paths[0], v)
    ensures NoneGiven(c, paths) <==> NoneGiven(c, paths[1..])
    ensures forall v :: FirstGiven(c, paths, v) <==> FirstGiven(c, paths[1..], v)
  {
    hide Given;
    var rest := paths[1..];
    NoneAhead(c, paths);
    forall v ensures FirstGiven(c, paths, v) <==> FirstGiven(c, rest, v) {
      if FirstGiven(c, paths, v) {
        var i :| 0 <= i < |paths| && Given(c, paths[i], v) && NoneGiven(c, paths[..i]);
        assert i > 0;
        NoneAhead(c, paths[..i]);
        assert paths[..i][1..] == rest[..i - 1] && rest[i - 1] == paths[i];
      }
      if FirstGiven(c, rest, v) {
        var i :| 0 <= i < |rest| && Given(c, rest[i], v) && NoneGiven(c, rest[..i]);
        NoneAhead(c, paths[..i + 1]);
        assert paths[..i + 1][1..] == rest[..i] && rest[i] == paths[i + 1];
      }
    }
  }

  lemma {:induction false} NoneAhead(c: Context, paths: seq<seq<string>>)
    requires paths != [] && forall v :: !Given(c, paths[0], v)
    ensures NoneGiven(c, paths) <==> NoneGiven(c, paths[1..])
  {
    hide Given;
    if NoneGiven(c, paths) {
      forall i, v | 0 <= i < |paths[1..]| ensures !Given(c, paths[1..][i], v) { assert paths[1..][i] == paths[i + 1]; }
    } else {
      var i, v :| 0 <= i < |paths| && Given(c, paths[i], v);
      assert i > 0 && paths[1..][i - 1] == paths[i];
    }
  }

  lemma {:induction false} SessionMeans(c: Context, v: string)
    ensures Session(c) == Some(v) <==> CarriesSession(c, v)
  {
    hide MetadataString, Trimmed, Holds, NoneGiven, FirstGiven;
    MetadataMeans(c, APPLICATION_PATHS);
    TrimmedHolds(c.sessionId, v);
  }

  lemma {:induction false} FieldsMean(c: Context, hash: Hash, v: string)
    ensures Value("client", c, hash) == Some(v) <==> Carries("client", c, hash, v)
    ensures Value("project", c, hash) == Some(v) <==> Carries("project", c, hash, v)
    ensures Value("transport", c, hash) == Some(v) <==> Carries("transport", c, hash, v)
    ensures Value("metadata", c, hash) == Some(v) <==> Carries("metadata", c, hash, v)
  {
    hide MetadataString, Trimmed, Holds, Empty, NoneGiven, FirstGiven, Session, CarriesSession;
    TrimmedHolds(c.clientId, v);
    TrimmedHolds(c.projectRoot, v);
    TrimmedHolds(c.transport, v);
  }

  lemma {:induction false} SessionsMean(c: Context, hash: Hash, v: string)
    ensures Value("chat", c, hash) == Some(v) <==> Carries("chat", c, hash, v)
    ensures Value("session", c, hash) == Some(v) <==> Carries("session", c, hash, v)
    ensures Value("application", c, hash) == Some(v) <==> Carries("application", c, hash, v)
  {
    hide MetadataString, Trimmed, Holds, Empty, NoneGiven, FirstGiven, Session, CarriesSession;
    SessionMeans(c, v);
  }

  lemma {:induction false} PathsMean(c: Context, hash: Hash, v: string)
    ensures Value("credential", c, hash) == Some(v) <==> Carries("credential", c, hash, v)
    ensures Value("transport-session", c, hash) == Some(v) <==> Carries("transport-session", c, hash, v)
  {
    hide MetadataString, Trimmed, Holds, Empty, NoneGiven, FirstGiven, Session, CarriesSession;
    TrimmedHolds(c.sessionId, v);
    MetadataMeans(c, CREDENTIAL_PATHS);
    MetadataMeans(c, TRANSPORT_PATHS);
  }

  lemma {:induction false} InstanceMeans(c: Context, hash: Hash, v: string)
    ensures Value("client-instance", c, hash) == Some(v) <==> Carries("client-instance", c, hash, v)
  {
    hide MetadataString, Trimmed, Holds, Empty, NoneGiven, FirstGiven, Session, CarriesSession;
    TrimmedHolds(c.clientId, v);
    MetadataMeans(c, INSTANCE_PATHS);
  }

  lemma {:induction false} OthersMean(dimension: string, c: Context, hash: Hash, v: string)
    requires !Supported(dimension)
    ensures Value(dimension, c, hash).None? && !Carries(dimension, c, hash, v)
  {
    hide MetadataString, Trimmed, Holds, Empty, NoneGiven, FirstGiven, Session, CarriesSession;
  }

  /** The resolved value of every dimension is what the request carries. */
  lemma {:induction false} ValueMeans(dimension: string, c: Context, hash: Hash, v: string)
    ensures Value(dimension, c, hash) == Some(v) <==> Carries(dimension, c, hash, v)
  {
    hide Value, Carries;
    if Supported(dimension) {
      FieldsMean(c, hash, v);
      SessionsMean(c, hash, v);
      PathsMean(c, hash, v);
      InstanceMeans(c, hash, v);
    } else {
      OthersMean(dimension, c, hash, v);
    }
  }

  // ---------------------------------------------------------------- keys

  ghost predicate Without(dimension: string, c: Context, hash: Hash) {
    forall v :: !Carries(dimension, c, hash, v)
  }

  /** The key is missing a dimension exactly when it is the first declared one the request carries nothing for. */
  lemma {:induction false} MissingMeans(p: Policy, c: Context, hash: Hash, t: string)
    ensures KeyOf(p, c, hash) == Missing(t) <==>
      (exists k :: 0 <= k < |p.affinity| && p.affinity[k] == t && Without(t, c, hash)
                   && forall j | 0 <= j < k :: !Without(p.affinity[j], c, hash))
  {
    hide Value, Without, FingerprintOf, Entries, FirstMissing;
    var dimensions := p.affinity;
    forall d: string ensures Value(d, c, hash).None? <==> Without(d, c, hash) { NoneMeans(d, c, hash); }
    if KeyOf(p, c, hash) == Missing(t) {
      var k := FirstMissing(dimensions, c, hash);
      forall j | 0 <= j < k ensures !Without(dimensions[j], c, hash) { assert dimensions[..k][j] == dimensions[j]; }
      assert dimensions[k] == t && Value(t, c, hash).None?;
    }
    if k :| 0 <= k < |dimensions| && dimensions[k] == t && Without(t, c, hash)
            && forall j | 0 <= j < k :: !Without(dimensions[j], c, hash) {
      FirstIs(dimensions, k, c, hash);
    }
  }

  lemma {:induction false} FirstIs(dimensions: seq<string>, k: nat, c: Context, hash: Hash)
    requires k < |dimensions| && Value(dimensions[k], c, hash).None?
    requires forall j | 0 <= j < k :: Value(dimensions[j], c, hash).Some?
    ensures !Affinity.Complete(dimensions, c, hash) && FirstMissing(dimensions, c, hash) == k
  {
    hide Value;
    forall j | 0 <= j < k ensures Value(dimensions[..k][j], c, hash).Some? {
      assert dimensions[..k][j] == dimensions[j];
    }
    MissingHere(dimensions, k, c, hash);
  }

  lemma {:induction false} NoneMeans(dimension: string, c: Context, hash: Hash)
    ensures Value(dimension, c, hash).None? <==> Without(dimension, c, hash)
  {
    hide Value, Carries;
    forall v ensures Value(dimension, c, hash) == Some(v) <==> Carries(dimension, c, hash, v) {
      ValueMeans(dimension, c, hash, v);
    }
    if Value(dimension, c, hash).Some? { assert Carries(dimension, c, hash, Value(dimension, c, hash).value); }
  }

  /** Requests that carry two values for a declared dimension never share a key. */
  lemma {:induction false} ValuesStayApart(
    p: Policy, c: Context, d: Context, hash: Hash, dimension: string, v: string, w: string)
    requires Affinity.Faithful(hash) && SettledAffinity(p.affinity) && dimension in p.affinity
    requires Carries(dimension, c, hash, v) && Carries(dimension, d, hash, w) && v != w
    requires KeyOf(p, c, hash).Fingerprint?
    ensures KeyOf(p, c, hash) != KeyOf(p, d, hash)
  {
    hide Value, Carries, Affinity.Faithful, SettledAffinity, KeyOf;
    ValueMeans(dimension, c, hash, v);
    ValueMeans(dimension, d, hash, w);
    if KeyOf(p, d, hash).Fingerprint? {
      SameFingerprintIffAgree(p, c, d, hash);
      var i :| 0 <= i < |p.affinity| && p.affinity[i] == dimension;
      assert Value(p.affinity[i], c, hash) != Value(p.affinity[i], d, hash);
    }
  }

  predicate ByApplication(t: string) { t == "chat" || t == "session" || t == "application" }

  lemma {:induction false} ByApplicationCarries(t: string, c: Context, hash: Hash, v: string)
    requires ByApplication(t)
    ensures Carries(t, c, hash, v) <==> CarriesSession(c, v)
  {
    hide CarriesSession;
  }

  /** Without an application session in the metadata, a session-isolated policy never merges two session ids. */
  lemma {:induction false} SessionIdsStayApart(
    q: Policy, c: Context, d: Context, hash: Hash, t: string, v: string, w: string)
    requires var p := Normalized(q);
      && p.mode == SessionIsolated && t in p.affinity && ByApplication(t) && Affinity.Faithful(hash)
      && KeyOf(p, c, hash).Fingerprint?
    requires NoneGiven(c, APPLICATION_PATHS) && NoneGiven(d, APPLICATION_PATHS)
    requires Holds(c.sessionId, v) && Holds(d.sessionId, w) && v != w
    ensures KeyOf(Normalized(q), c, hash) != KeyOf(Normalized(q), d, hash)
  {
    var p := Normalized(q);
    NormalizedSettles(q);
    assert SettledAffinity(p.affinity);
    hide Normalized, Settled, SettledAffinity, Affinity.Faithful, NoneGiven, FirstGiven, Holds, KeyOf, Carries,
         ByApplication;
    ByApplicationCarries(t, c, hash, v);
    ByApplicationCarries(t, d, hash, w);
    ValuesStayApart(p, c, d, hash, t, v, w);
  }

  /** Two application sessions named in the metadata never share a key, whatever the session ids. */
  lemma {:induction false} ApplicationsStayApart(
    q: Policy, c: Context, d: Context, hash: Hash, t: string, v: string, w: string)
    requires var p := Normalized(q);
      && p.mode == SessionIsolated && t in p.affinity && ByApplication(t) && Affinity.Faithful(hash)
      && KeyOf(p, c, hash).Fingerprint?
    requires FirstGiven(c, APPLICATION_PATHS, v) && FirstGiven(d, APPLICATION_PATHS, w) && v != w
    ensures KeyOf(Normalized(q), c, hash) != KeyOf(Normalized(q), d, hash)
  {
    var p := Normalized(q);
    NormalizedSettles(q);
    assert SettledAffinity(p.affinity);
    hide Normalized, Settled, SettledAffinity, Affinity.Faithful, NoneGiven, FirstGiven, Holds, KeyOf, Carries,
         ByApplication;
    ByApplicationCarries(t, c, hash, v);
    ByApplicationCarries(t, d, hash, w);
    ValuesStayApart(p, c, d, hash, t, v, w);
  }

  /** A request without either gets no key from a policy that declares such a dimension. */
  lemma {:induction false} NoSessionNoKey(p: Policy, c: Context, hash: Hash, t: string)
    requires t in p.affinity && ByApplication(t) && NoneGiven(c, APPLICATION_PATHS) && Empty(c.sessionId)
    ensures KeyOf(p, c, hash).Missing?
  {
    hide Value, Carries, NoneGiven, FingerprintOf, Entries, ByApplication, Empty, CarriesSession;
    forall v ensures !Carries(t, c, hash, v) {
      NothingCarried(c, v);
      ByApplicationCarries(t, c, hash, v);
    }
    NoneMeans(t, c, hash);
    var i :| 0 <= i < |p.affinity| && p.affinity[i] == t;
    assert Value(p.affinity[i], c, hash).None?;
  }

  lemma {:induction false} NothingCarried(c: Context, v: string)
    requires NoneGiven(c, APPLICATION_PATHS) && Empty(c.sessionId)
    ensures !CarriesSession(c, v)
  {
    hide Given;
  }

  lemma {:induction false} ModeNamesDiffer(a: Mode, b: Mode)
    ensures ModeName(a) == ModeName(b) <==> a == b
  {
    hide ModeName, ParseMode;
    ModeNameParses(a);
    ModeNameParses(b);
  }

  lemma {:induction false} ModeNameHasNoBar(mode: Mode)
    ensures '|' !in "mode=" + ModeName(mode)
  {
  }

  lemma {:induction false} FingerprintMode(a: Mode, x: seq<string>, b: Mode, y: seq<string>, hash: Hash)
    ensures FingerprintOf(a, x, hash) == FingerprintOf(b, y, hash) ==> a == b
  {
    hide ModeName, Joined, ProtectedAll;
    var m, n := "mode=" + ModeName(a), "mode=" + ModeName(b);
    var s := if x == [] then "affinity=global" else Joined(ProtectedAll(x, hash));
    var t := if y == [] then "affinity=global" else Joined(ProtectedAll(y, hash));
    if FingerprintOf(a, x, hash) == FingerprintOf(b, y, hash) {
      ModeNameHasNoBar(a);
      ModeNameHasNoBar(b);
      FirstBar(m, s, n, t);
      assert m[5..] == ModeName(a) && n[5..] == ModeName(b);
      ModeNamesDiffer(a, b);
    }
  }

  /** Two modes never share a key. */
  lemma {:induction false} ModesStayApart(p: Policy, q: Policy, c: Context, d: Context, hash: Hash)
    requires p.mode != q.mode && KeyOf(p, c, hash).Fingerprint?
    ensures KeyOf(p, c, hash) != KeyOf(q, d, hash)
  {
    hide Entries, Value, FingerprintOf;
    if KeyOf(q, d, hash).Fingerprint? {
      FingerprintMode(p.mode, Entries(p.affinity, c, hash), q.mode, Entries(q.affinity, d, hash), hash);
    }
  }
}
