/**
 Affinity keys of `src/execution.rs`: which requests may share a worker. The
 text fingerprint is a parameter; the theorems take it to be injective and free
 of the separator, as its hash is meant to be.
 */
module Affinity {
  import opened Text
  import opened Tokens
  import opened Policy
  import opened PolicyResolve

  /** A request's metadata: the strings found at paths, and the whole as compact text. */
  datatype Metadata = Metadata(strings: map<seq<string>, string>, compact: string)

  datatype Context = Context(
    clientId: Option<string>, sessionId: Option<string>, projectRoot: Option<string>, transport: Option<string>,
    metadata: Option<Metadata>)

  type Hash = string -> string

  function Trimmed(value: Option<string>): Option<string> {
    if value.Some? && Trim(value.value) != "" then Some(Trim(value.value)) else None
  }

  function OrElse(a: Option<string>, b: Option<string>): Option<string> {
    if a.Some? then a else b
  }

  /** `metadata_string`: the first path with a non-blank string */
  function MetadataString(c: Context, paths: seq<seq<string>>): Option<string> {
    if c.metadata.None? || paths == [] then None
    else
      var strings := c.metadata.value.strings;
      var here := if paths[0] in strings then Trimmed(Some(strings[paths[0]])) else None;
      OrElse(here, MetadataString(c, paths[1..]))
  }

  function Client(c: Context): string { Trimmed(c.clientId).Or("mcpace-upstream-bridge") }

  function Session(c: Context): Option<string> {
    OrElse(MetadataString(c, [["mcpace", "applicationSessionId"], ["mcpace", "chatId"], ["applicationSessionId"],
                              ["chatId"], ["conversationId"]]),
           Trimmed(c.sessionId))
  }

  /** The value of one dimension in a request. */
  function Value(dimension: string, c: Context, hash: Hash): Option<string> {
    if dimension == "client" then Some(Client(c))
    else if dimension == "project" then Trimmed(c.projectRoot)
    else if dimension == "chat" || dimension == "session" || dimension == "application" then Session(c)
    else if dimension == "credential" then
      MetadataString(c, [["mcpace", "credentialId"], ["mcpace", "credential"], ["credentialId"], ["credential"]])
    else if dimension == "metadata" then
      (if c.metadata.Some? then Some(hash(c.metadata.value.compact)) else None)
    else if dimension == "transport" then Some(Trimmed(c.transport).Or("stdio"))
    else if dimension == "transport-session" then
      OrElse(MetadataString(c, [["mcpace", "transportSessionId"], ["transportSessionId"]]), Trimmed(c.sessionId))
    else if dimension == "client-instance" then
      OrElse(MetadataString(c, [["mcpace", "clientInstanceId"], ["clientInstanceId"]]), Some(Client(c)))
    else None
  }

  // ---------------------------------------------------------------- keys

  datatype Key = Missing(dimension: string) | Fingerprint(text: string)

  function Entry(dimension: string, value: string): string { dimension + "=" + value }

  /** The declared dimensions that have no value in a request. */
  predicate Complete(dimensions: seq<string>, c: Context, hash: Hash) {
    forall i | 0 <= i < |dimensions| :: Value(dimensions[i], c, hash).Some?
  }

  function Entries(dimensions: seq<string>, c: Context, hash: Hash): seq<string>
    requires Complete(dimensions, c, hash)
  {
    if dimensions == [] then []
    else
      var n := |dimensions| - 1;
      Entries(dimensions[..n], c, hash) + [Entry(dimensions[n], Value(dimensions[n], c, hash).value)]
  }

  /** An entry with its value replaced by the value's fingerprint. */
  function Protected(entry: string, hash: Hash): string {
    match Find(entry, "=")
    case Some(k) => Entry(entry[..k], hash(entry[k + 1..]))
    case None => Entry("unknown", hash(entry))
  }

  function ProtectedAll(entries: seq<string>, hash: Hash): (r: seq<string>)
    ensures |r| == |entries|
  {
    if entries == [] then [] else [Protected(entries[0], hash)] + ProtectedAll(entries[1..], hash)
  }

  function Joined(parts: seq<string>): string {
    if parts == [] then "" else if |parts| == 1 then parts[0] else parts[0] + "|" + Joined(parts[1..])
  }

  function FingerprintOf(mode: Mode, entries: seq<string>, hash: Hash): string {
    "mode=" + ModeName(mode) + "|" + (if entries == [] then "affinity=global" else Joined(ProtectedAll(entries, hash)))
  }

  /** The first dimension without a value. */
  function FirstMissing(dimensions: seq<string>, c: Context, hash: Hash): (k: nat)
    requires !Complete(dimensions, c, hash)
    ensures k < |dimensions| && Value(dimensions[k], c, hash).None?
    ensures Complete(dimensions[..k], c, hash)
  {
    if Value(dimensions[0], c, hash).None? then 0
    else
      assert forall i | 0 < i < |dimensions| :: dimensions[1..][i - 1] == dimensions[i];
      1 + FirstMissing(dimensions[1..], c, hash)
  }

  function KeyOf(p: Policy, c: Context, hash: Hash): Key {
    if Complete(p.affinity, c, hash) then Fingerprint(FingerprintOf(p.mode, Entries(p.affinity, c, hash), hash))
    else Missing(p.affinity[FirstMissing(p.affinity, c, hash)])
  }

  /** `affinity_key`: a loop over the declared dimensions. */
  method AffinityKey(p: Policy, c: Context, hash: Hash) returns (key: Key)
    ensures key == KeyOf(p, c, hash)
  {
    hide Value;
    var values: seq<string> := [];
    var dimensions := p.affinity;
    for i := 0 to |dimensions|
      invariant Complete(dimensions[..i], c, hash)
      invariant values == Entries(dimensions[..i], c, hash)
    {
      var value := Value(dimensions[i], c, hash);
      if value.None? {
        MissingHere(dimensions, i, c, hash);
        return Missing(dimensions[i]);
      }
      assert dimensions[..i + 1][..i] == dimensions[..i];
      values := values + [Entry(dimensions[i], value.value)];
    }
    assert dimensions[..|dimensions|] == dimensions;
    return Fingerprint(FingerprintOf(p.mode, values, hash));
  }

  lemma {:induction false} MissingHere(dimensions: seq<string>, i: nat, c: Context, hash: Hash)
    requires i < |dimensions| && Complete(dimensions[..i], c, hash) && Value(dimensions[i], c, hash).None?
    ensures !Complete(dimensions, c, hash) && FirstMissing(dimensions, c, hash) == i
  {
    hide Value;
    var k := FirstMissing(dimensions, c, hash);
    forall j | 0 <= j < i ensures Value(dimensions[j], c, hash).Some? { assert dimensions[..i][j] == dimensions[j]; }
    forall j | 0 <= j < k ensures Value(dimensions[j], c, hash).Some? { assert dimensions[..k][j] == dimensions[j]; }
  }

  // ---------------------------------------------------------------- equal fingerprints

  ghost predicate Faithful(hash: Hash) {
    && (forall a, b :: hash(a) == hash(b) ==> a == b)
    && (forall a :: '|' !in hash(a))
  }

  lemma {:induction false} ProtectedEntry(dimension: string, value: string, hash: Hash)
    requires '=' !in dimension
    ensures Protected(Entry(dimension, value), hash) == Entry(dimension, hash(value))
  {
    var e, n := Entry(dimension, value), |dimension|;
    forall j: nat | j < n ensures !At(e, "=", j) { AtChar(e, "=", j, 0); }
    assert At(e, "=", n);
    FindIs(e, "=", n);
    assert e[..n] == dimension && e[n + 1..] == value;
  }

  lemma {:induction false} FirstBar(a: string, x: string, b: string, y: string)
    requires '|' !in a && '|' !in b && a + "|" + x == b + "|" + y
    ensures a == b && x == y
  {
    var s := a + "|" + x;
    assert s[|a|] == '|' && s[|b|] == '|';
    assert forall j | 0 <= j < |a| :: s[j] == a[j];
    assert s == b + "|" + y && forall j | 0 <= j < |b| :: s[j] == b[j];
    assert s[..|a|] == a && s[..|b|] == b && s[|a| + 1..] == x && s[|b| + 1..] == y;
  }

  lemma {:induction false} JoinedInjective(a: seq<string>, b: seq<string>)
    requires |a| == |b| && Joined(a) == Joined(b)
    requires forall i | 0 <= i < |a| :: '|' !in a[i] && '|' !in b[i]
    ensures a == b
  {
    if |a| == 1 {
      assert a == [a[0]] && b == [b[0]];
    } else if |a| > 1 {
      FirstBar(a[0], Joined(a[1..]), b[0], Joined(b[1..]));
      JoinedInjective(a[1..], b[1..]);
      assert a == [a[0]] + a[1..] && b == [b[0]] + b[1..];
    }
  }

  lemma {:induction false} SupportedText(d: string)
    requires Supported(d)
    ensures '=' !in d && '|' !in d
  {
  }

  lemma {:induction false} EntriesAt(dimensions: seq<string>, c: Context, hash: Hash, i: nat)
    requires Complete(dimensions, c, hash) && i < |dimensions|
    ensures |Entries(dimensions, c, hash)| == |dimensions|
    ensures Entries(dimensions, c, hash)[i] == Entry(dimensions[i], Value(dimensions[i], c, hash).value)
  {
    hide Value;
    var n := |dimensions| - 1;
    if i < n {
      EntriesAt(dimensions[..n], c, hash, i);
    } else if n > 0 {
      EntriesAt(dimensions[..n], c, hash, 0);
    }
  }

  lemma {:induction false} ProtectedAt(entries: seq<string>, hash: Hash, i: nat)
    requires i < |entries|
    ensures ProtectedAll(entries, hash)[i] == Protected(entries[i], hash)
  {
    if i > 0 { ProtectedAt(entries[1..], hash, i - 1); }
  }

  /** One part of a fingerprint: the dimension and the fingerprint of its value. */
  lemma {:induction false} PartAt(dimensions: seq<string>, c: Context, hash: Hash, i: nat)
    requires Complete(dimensions, c, hash) && i < |dimensions| && Supported(dimensions[i]) && Faithful(hash)
    ensures var parts := ProtectedAll(Entries(dimensions, c, hash), hash);
      && |parts| == |dimensions| && '|' !in parts[i]
      && parts[i] == Entry(dimensions[i], hash(Value(dimensions[i], c, hash).value))
  {
    hide Value, Entries, ProtectedAll, Supported, Protected;
    EntriesAt(dimensions, c, hash, i);
    ProtectedAt(Entries(dimensions, c, hash), hash, i);
    SupportedText(dimensions[i]);
    ProtectedEntry(dimensions[i], Value(dimensions[i], c, hash).value, hash);
  }

  /** Two requests agree on every declared dimension. */
  predicate Agree(dimensions: seq<string>, c: Context, d: Context, hash: Hash) {
    forall i | 0 <= i < |dimensions| :: Value(dimensions[i], c, hash) == Value(dimensions[i], d, hash)
  }

  lemma {:induction false} EntryInjective(d: string, a: string, b: string)
    ensures Entry(d, a) == Entry(d, b) <==> a == b
  {
    assert Entry(d, a)[|d| + 1..] == a && Entry(d, b)[|d| + 1..] == b;
  }

  lemma {:induction false} PartsAgree(dimensions: seq<string>, c: Context, d: Context, hash: Hash)
    requires Faithful(hash) && forall i | 0 <= i < |dimensions| :: Supported(dimensions[i])
    requires Complete(dimensions, c, hash) && Complete(dimensions, d, hash)
    ensures ProtectedAll(Entries(dimensions, c, hash), hash) == ProtectedAll(Entries(dimensions, d, hash), hash)
        <==> Agree(dimensions, c, d, hash)
  {
    var a, b := ProtectedAll(Entries(dimensions, c, hash), hash), ProtectedAll(Entries(dimensions, d, hash), hash);
    if dimensions != [] {
      PartAt(dimensions, c, hash, 0);
      PartAt(dimensions, d, hash, 0);
    }
    hide Value, Entries, ProtectedAll, Supported, Entry;
    forall i | 0 <= i < |dimensions|
      ensures a[i] == b[i] <==> Value(dimensions[i], c, hash) == Value(dimensions[i], d, hash)
    {
      PartAt(dimensions, c, hash, i);
      PartAt(dimensions, d, hash, i);
      EntryInjective(dimensions[i], hash(Value(dimensions[i], c, hash).value),
                     hash(Value(dimensions[i], d, hash).value));
    }
  }

  /** Two requests get the same fingerprint exactly when they agree on every declared dimension. */
  lemma {:induction false} SameFingerprintIffAgree(p: Policy, c: Context, d: Context, hash: Hash)
    requires Faithful(hash) && SettledAffinity(p.affinity)
    requires KeyOf(p, c, hash).Fingerprint? && KeyOf(p, d, hash).Fingerprint?
    ensures KeyOf(p, c, hash) == KeyOf(p, d, hash) <==> Agree(p.affinity, c, d, hash)
  {
    hide Value, Supported, Sorted;
    var a, b := Entries(p.affinity, c, hash), Entries(p.affinity, d, hash);
    if p.affinity != [] {
      var prefix := "mode=" + ModeName(p.mode) + "|";
      EntriesAt(p.affinity, c, hash, 0);
      EntriesAt(p.affinity, d, hash, 0);
      var x, y := ProtectedAll(a, hash), ProtectedAll(b, hash);
      assert (prefix + Joined(x))[|prefix|..] == Joined(x) && (prefix + Joined(y))[|prefix|..] == Joined(y);
      forall i | 0 <= i < |p.affinity| ensures '|' !in x[i] && '|' !in y[i] {
        PartAt(p.affinity, c, hash, i);
        PartAt(p.affinity, d, hash, i);
      }
      PartsAgree(p.affinity, c, d, hash);
      hide Joined, Entries, ProtectedAll, ModeName;
      if Joined(x) == Joined(y) { JoinedInjective(x, y); }
    }
  }

  /**
   Nothing but the declared dimensions matters: requests that agree on them get
   the same key, or miss the same dimension.
   */
  lemma {:induction false} AgreeSameKey(p: Policy, c: Context, d: Context, hash: Hash)
    requires Agree(p.affinity, c, d, hash)
    ensures KeyOf(p, c, hash) == KeyOf(p, d, hash)
  {
    hide Value, Entries, FirstMissing, FingerprintOf;
    var dimensions := p.affinity;
    if Complete(dimensions, c, hash) {
      SameEntries(dimensions, c, d, hash);
    } else {
      var k := FirstMissing(dimensions, c, hash);
      forall i | 0 <= i < k ensures Value(dimensions[..k][i], d, hash).Some? {
        assert dimensions[..k][i] == dimensions[i];
      }
      MissingHere(dimensions, k, d, hash);
    }
  }

  lemma {:induction false} SameEntries(dimensions: seq<string>, c: Context, d: Context, hash: Hash)
    requires Agree(dimensions, c, d, hash) && Complete(dimensions, c, hash)
    ensures Complete(dimensions, d, hash) && Entries(dimensions, c, hash) == Entries(dimensions, d, hash)
  {
    hide Value;
    assert forall i | 0 <= i < |dimensions| :: Value(dimensions[i], c, hash) == Value(dimensions[i], d, hash);
    if dimensions != [] {
      var n := |dimensions| - 1;
      forall i | 0 <= i < n
        ensures Value(dimensions[..n][i], c, hash) == Value(dimensions[..n][i], d, hash)
        ensures Value(dimensions[..n][i], c, hash).Some?
      {
        assert dimensions[..n][i] == dimensions[i];
      }
      SameEntries(dimensions[..n], c, d, hash);
    }
  }

  // ---------------------------------------------------------------- isolation

  /** A normalized project-isolated policy never gives two project roots one worker. */
  lemma {:induction false} ProjectsStayApart(q: Policy, c: Context, d: Context, hash: Hash)
    requires var p := Normalized(q);
      && p.mode == ProjectIsolated && Faithful(hash)
      && KeyOf(p, c, hash).Fingerprint? && KeyOf(p, c, hash) == KeyOf(p, d, hash)
    ensures Trimmed(c.projectRoot).Some? && Trimmed(c.projectRoot) == Trimmed(d.projectRoot)
  {
    var p := Normalized(q);
    NormalizedSettles(q);
    assert "project" in p.affinity && SettledAffinity(p.affinity);
    hide Normalized, Settled, SettledAffinity, Faithful;
    SameFingerprintIffAgree(p, c, d, hash);
    var i :| 0 <= i < |p.affinity| && p.affinity[i] == "project";
    assert Value(p.affinity[i], c, hash) == Value(p.affinity[i], d, hash);
    assert Value("project", c, hash) == Trimmed(c.projectRoot) && Value("project", d, hash) == Trimmed(d.projectRoot);
    assert Value(p.affinity[i], c, hash).Some?;
  }

  /** A normalized session-isolated policy declares a session dimension and never merges two of its values. */
  lemma {:induction false} SessionsStayApart(q: Policy, c: Context, d: Context, hash: Hash)
    requires var p := Normalized(q);
      && p.mode == SessionIsolated && Faithful(hash)
      && KeyOf(p, c, hash).Fingerprint? && KeyOf(p, c, hash) == KeyOf(p, d, hash)
    ensures HasSession(Normalized(q).affinity)
    ensures forall t | t in Normalized(q).affinity && SessionLike(t) ::
      Value(t, c, hash).Some? && Value(t, c, hash) == Value(t, d, hash)
  {
    var p := Normalized(q);
    NormalizedSettles(q);
    assert HasSession(p.affinity) && SettledAffinity(p.affinity);
    hide Normalized, Settled, SettledAffinity, Value, Faithful;
    SameFingerprintIffAgree(p, c, d, hash);
  }
}
