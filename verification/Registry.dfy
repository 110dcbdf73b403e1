/**
 The MCP server registry of `src/mcp_sources.rs`, merged from settings files in
 source order. A source is seen through what one file-system snapshot gives for
 its path; the servers of a file come in key order.
 */
module Registry {
  import opened Text
  import opened Tokens

  datatype Contents = Missing | Unsafe | Unreadable | NoServers | Servers(entries: seq<(string, string)>)

  datatype Source = Source(path: string, origin: string, contents: Contents)

  datatype Entry = Entry(name: string, value: string, source: string)

  datatype Status = Status(path: string, origin: string, present: bool, servers: nat)

  // ---------------------------------------------------------------- names

  predicate NameChar(c: char) {
    'a' <= c <= 'z' || 'A' <= c <= 'Z' || '0' <= c <= '9' || c == '-' || c == '_' || c == '.'
  }

  function Dashed(s: string): (r: string)
    ensures |r| == |s| && forall i | 0 <= i < |s| :: r[i] == if NameChar(s[i]) then s[i] else '-'
  {
    seq(|s|, i requires 0 <= i < |s| => if NameChar(s[i]) then s[i] else '-')
  }

  function TrimDashes(s: string): (r: string)
    ensures |r| <= |s| && (r != "" ==> r[0] != '-' && r[|r| - 1] != '-')
    ensures forall c | c in r :: c in s
  {
    if s != "" && s[0] == '-' then TrimDashes(s[1..])
    else if s != "" && s[|s| - 1] == '-' then TrimDashes(s[..|s| - 1])
    else s
  }

  /** `normalize_server_name` */
  function Normalized(value: string): string { Lower(TrimDashes(Dashed(Trim(value)))) }

  lemma {:induction false} NormalizedChars(value: string)
    ensures var n := Normalized(value);
      && (forall i | 0 <= i < |n| :: NameChar(n[i]) && LowerChar(n[i]) == n[i])
      && (n != "" ==> n[0] != '-' && n[|n| - 1] != '-')
  {
    hide Trim, TrimDashes;
    var t := TrimDashes(Dashed(Trim(value)));
    forall i | 0 <= i < |t| ensures Lower(t)[i] == LowerChar(t[i]) && NameChar(t[i]) {
      LowerAt(t, i);
      assert t[i] in t && t[i] in Dashed(Trim(value));
    }
    hide Lower, Dashed;
  }

  lemma {:induction false} LowerStays(s: string)
    requires forall i | 0 <= i < |s| :: LowerChar(s[i]) == s[i]
    ensures Lower(s) == s
  {
    forall i | 0 <= i < |s| ensures Lower(s)[i] == s[i] { LowerAt(s, i); }
  }

  /** Normalizing a name twice is normalizing it once, so lookups by normalized name are stable. */
  lemma {:induction false} NormalizedIdempotent(value: string)
    ensures Normalized(Normalized(value)) == Normalized(value)
  {
    hide Trim, Lower;
    NormalizedChars(value);
    var n := Normalized(value);
    assert Tight(n);
    TrimCore("", n, "");
    assert "" + n + "" == n;
    assert Dashed(n) == n;
    LowerStays(n);
  }

  predicate Dashes(s: string) { forall c | c in s :: c == '-' }

  lemma {:induction false} TrimDashesSplit(s: string) returns (before: string, after: string)
    ensures s == before + TrimDashes(s) + after && Dashes(before) && Dashes(after)
  {
    if s != "" && s[0] == '-' {
      before, after := TrimDashesSplit(s[1..]);
      before := "-" + before;
      assert s == "-" + s[1..];
    } else if s != "" && s[|s| - 1] == '-' {
      before, after := TrimDashesSplit(s[..|s| - 1]);
      after := after + "-";
      assert s == s[..|s| - 1] + "-";
    } else {
      before, after := "", "";
      assert s == "" + s + "";
    }
  }

  /** A normalized name is the trimmed name in lower case, with dashes for other characters, less the outer dashes. */
  lemma {:induction false} NormalizedMeans(value: string) returns (lo: nat, hi: nat)
    ensures lo <= hi <= |Trim(value)| && |Normalized(value)| == hi - lo
    ensures forall i | 0 <= i < |Trim(value)| ::
      lo <= i < hi ==> Normalized(value)[i - lo] == if NameChar(Trim(value)[i]) then LowerChar(Trim(value)[i]) else '-'
    ensures forall i | 0 <= i < |Trim(value)| :: !(lo <= i < hi) ==> Trim(value)[i] == '-' || !NameChar(Trim(value)[i])
  {
    hide Trim, TrimDashes, Lower, NameChar;
    var t := Trim(value);
    var d := Dashed(t);
    var core := TrimDashes(d);
    var before, after := TrimDashesSplit(d);
    lo, hi := |before|, |before| + |core|;
    forall i | 0 <= i < |t| && lo <= i < hi
      ensures Normalized(value)[i - lo] == if NameChar(t[i]) then LowerChar(t[i]) else '-'
    {
      LowerAt(core, i - lo);
      assert core[i - lo] == d[i];
    }
    forall i | 0 <= i < |t| && !(lo <= i < hi) ensures t[i] == '-' || !NameChar(t[i]) {
      assert d[i] == if i < lo then before[i] else after[i - hi];
      assert i < lo ==> before[i] in before;
      assert i >= hi ==> after[i - hi] in after;
    }
  }

  // ---------------------------------------------------------------- the meaning of a registry

  datatype Occurrence = Occurrence(key: string, entry: Entry)

  /** The named servers of some entries of one file, in order. */
  function Named(entries: seq<(string, string)>, path: string): seq<Occurrence> {
    if entries == [] then []
    else
      var (name, value) := entries[|entries| - 1];
      Named(entries[..|entries| - 1], path)
      + (if Normalized(name) == "" then [] else [Occurrence(Normalized(name), Entry(name, value, path))])
  }

  /** Every server of every readable source, in source order and then key order. */
  function Occurrences(sources: seq<Source>): seq<Occurrence> {
    if sources == [] then []
    else
      var s := sources[|sources| - 1];
      Occurrences(sources[..|sources| - 1]) + (if s.contents.Servers? then Named(s.contents.entries, s.path) else [])
  }

  /** The last occurrence of a key wins. */
  function Last(occurrences: seq<Occurrence>, key: string): Option<Entry> {
    if occurrences == [] then None
    else
      var o := occurrences[|occurrences| - 1];
      if o.key == key then Some(o.entry) else Last(occurrences[..|occurrences| - 1], key)
  }

  function Lookup(servers: map<string, Entry>, key: string): Option<Entry> {
    if key in servers then Some(servers[key]) else None
  }

  ghost predicate Holds(servers: map<string, Entry>, occurrences: seq<Occurrence>) {
    forall key :: Lookup(servers, key) == Last(occurrences, key)
  }

  lemma {:induction false} HoldsMore(servers: map<string, Entry>, occurrences: seq<Occurrence>, o: Occurrence)
    requires Holds(servers, occurrences)
    ensures Holds(servers[o.key := o.entry], occurrences + [o])
  {
    var more := occurrences + [o];
    assert more[..|more| - 1] == occurrences;
    forall key ensures Lookup(servers[o.key := o.entry], key) == Last(more, key) {
      assert Lookup(servers, key) == Last(occurrences, key);
    }
  }

  /** Two registries of the same occurrences are equal. */
  lemma {:induction false} OneRegistry(a: map<string, Entry>, b: map<string, Entry>, occurrences: seq<Occurrence>)
    requires Holds(a, occurrences) && Holds(b, occurrences)
    ensures a == b
  {
    forall key ensures (key in a <==> key in b) && (key in a ==> a[key] == b[key]) {
      assert Lookup(a, key) == Last(occurrences, key) && Lookup(b, key) == Last(occurrences, key);
    }
  }

  // ---------------------------------------------------------------- the loaders

  /** The inner loop of both loaders. */
  method AddServers(servers: map<string, Entry>, ghost before: seq<Occurrence>, entries: seq<(string, string)>,
      path: string)
    returns (now: map<string, Entry>)
    requires Holds(servers, before)
    ensures Holds(now, before + Named(entries, path))
  {
    hide Normalized, Holds;
    now := servers;
    assert entries[..0] == [] && before + [] == before;
    for i := 0 to |entries|
      invariant Holds(now, before + Named(entries[..i], path))
    {
      assert entries[..i + 1][..i] == entries[..i];
      ghost var so := before + Named(entries[..i], path);
      var (name, value) := entries[i];
      var key := Normalized(name);
      if key == "" {
        assert Named(entries[..i + 1], path) == Named(entries[..i], path) + [] == Named(entries[..i], path);
      } else {
        HoldsMore(now, so, Occurrence(key, Entry(name, value, path)));
        assert so + [Occurrence(key, Entry(name, value, path))] == before + Named(entries[..i + 1], path);
        now := now[key := Entry(name, value, path)];
      }
    }
    assert entries[..|entries|] == entries;
  }

  /** `load_mcp_server_registry` */
  method LoadRegistry(sources: seq<Source>) returns (servers: map<string, Entry>)
    ensures Holds(servers, Occurrences(sources))
  {
    hide Named, Last;
    servers := map[];
    assert sources[..0] == [];
    EmptyHolds();
    for i := 0 to |sources|
      invariant Holds(servers, Occurrences(sources[..i]))
    {
      assert sources[..i + 1][..i] == sources[..i];
      ghost var before := Occurrences(sources[..i]);
      assert before + [] == before;
      if sources[i].contents.Servers? {
        servers := AddServers(servers, before, sources[i].contents.entries, sources[i].path);
      }
    }
    assert sources[..|sources|] == sources;
  }

  lemma {:induction false} EmptyHolds()
    ensures Holds(map[], Occurrences([]))
  {
  }

  // ---------------------------------------------------------------- the report

  function StatusOf(s: Source): Status {
    Status(s.path, s.origin, !s.contents.Missing?, if s.contents.Servers? then |s.contents.entries| else 0)
  }

  /** The statuses of one path, in order. */
  function With(statuses: seq<Status>, path: string): seq<Status> {
    if statuses == [] then []
    else
      var s := statuses[|statuses| - 1];
      With(statuses[..|statuses| - 1], path) + (if s.path == path then [s] else [])
  }

  predicate ByPath(statuses: seq<Status>) {
    forall i | 0 <= i < |statuses| - 1 :: !Less(statuses[i + 1].path, statuses[i].path)
  }

  /** A stable sort takes up one status after the other. */
  function Placed(s: Status, statuses: seq<Status>): (r: seq<Status>)
    ensures r != [] && (r[|r| - 1] == s || (statuses != [] && r[|r| - 1] == statuses[|statuses| - 1]))
  {
    if statuses == [] then [s]
    else
      var n := |statuses| - 1;
      if Less(s.path, statuses[n].path) then Placed(s, statuses[..n]) + [statuses[n]] else statuses + [s]
  }

  function SortedByPath(statuses: seq<Status>): seq<Status> {
    if statuses == [] then [] else Placed(statuses[|statuses| - 1], SortedByPath(statuses[..|statuses| - 1]))
  }

  lemma {:induction false} LessOneWay(a: string, b: string)
    ensures !(Less(a, b) && Less(b, a))
  {
    if a != "" && b != "" { LessOneWay(a[1..], b[1..]); }
  }

  lemma {:induction false} WithSnoc(statuses: seq<Status>, s: Status, path: string)
    ensures With(statuses + [s], path) == With(statuses, path) + (if s.path == path then [s] else [])
  {
    assert (statuses + [s])[..|statuses|] == statuses;
  }

  lemma {:induction false} LessDiffers(a: string, b: string)
    requires Less(a, b)
    ensures a != b && !Less(b, a)
  {
    hide Less;
    LessTotal(a, b);
    LessOneWay(a, b);
  }

  lemma {:induction false} PlacedWith(s: Status, statuses: seq<Status>, path: string)
    ensures With(Placed(s, statuses), path) == With(statuses, path) + (if s.path == path then [s] else [])
  {
    hide Less, With;
    if statuses == [] {
      assert [] + [s] == [s];
      WithSnoc([], s, path);
    } else {
      var n := |statuses| - 1;
      assert statuses == statuses[..n] + [statuses[n]];
      WithSnoc(statuses[..n], statuses[n], path);
      if Less(s.path, statuses[n].path) {
        LessDiffers(s.path, statuses[n].path);
        PlacedWith(s, statuses[..n], path);
        WithSnoc(Placed(s, statuses[..n]), statuses[n], path);
      } else {
        WithSnoc(statuses, s, path);
      }
    }
  }

  lemma {:induction false} PlacedByPath(s: Status, statuses: seq<Status>)
    requires ByPath(statuses)
    ensures ByPath(Placed(s, statuses))
  {
    hide Less;
    if statuses != [] {
      var n := |statuses| - 1;
      if Less(s.path, statuses[n].path) {
        LessDiffers(s.path, statuses[n].path);
        PlacedByPath(s, statuses[..n]);
        assert n > 0 ==> !Less(statuses[n].path, statuses[n - 1].path);
      }
    }
  }

  /** Sorting orders the statuses by path and keeps the order of those of one path. */
  lemma {:induction false} SortIsStable(statuses: seq<Status>)
    ensures ByPath(SortedByPath(statuses))
    ensures forall path :: With(SortedByPath(statuses), path) == With(statuses, path)
  {
    hide Less, Placed;
    if statuses != [] {
      var n := |statuses| - 1;
      SortIsStable(statuses[..n]);
      PlacedByPath(statuses[n], SortedByPath(statuses[..n]));
      forall path ensures With(SortedByPath(statuses), path) == With(statuses, path) {
        PlacedWith(statuses[n], SortedByPath(statuses[..n]), path);
      }
    }
  }

  function Statuses(sources: seq<Source>): seq<Status> {
    seq(|sources|, i requires 0 <= i < |sources| => StatusOf(sources[i]))
  }

  /** The paths of the files that could be read. */
  function ReadPaths(sources: seq<Source>): seq<string> {
    if sources == [] then []
    else
      var s := sources[|sources| - 1];
      ReadPaths(sources[..|sources| - 1]) + (if s.contents.NoServers? || s.contents.Servers? then [s.path] else [])
  }

  /** `load_mcp_source_report`: the same registry, the paths that were read, and the status of every source by path. */
  method LoadReport(sources: seq<Source>)
    returns (servers: map<string, Entry>, read: seq<string>, statuses: seq<Status>)
    ensures Holds(servers, Occurrences(sources))
    ensures Sorted(read) && forall path :: path in read <==> path in ReadPaths(sources)
    ensures ByPath(statuses) && forall path :: With(statuses, path) == With(Statuses(sources), path)
  {
    hide Named, Last, Less, With, SortDedup;
    servers, read, statuses := map[], [], [];
    assert sources[..0] == [];
    EmptyHolds();
    for i := 0 to |sources|
      invariant Holds(servers, Occurrences(sources[..i]))
      invariant read == ReadPaths(sources[..i])
      invariant statuses == Statuses(sources[..i])
    {
      assert sources[..i + 1][..i] == sources[..i];
      ghost var before := Occurrences(sources[..i]);
      assert before + [] == before;
      var s := sources[i];
      var present, count := true, 0;
      match s.contents {
        case Missing => present := false;
        case Unsafe =>
        case Unreadable =>
        case NoServers => read := read + [s.path];
        case Servers(entries) =>
          read := read + [s.path];
          count := |entries|;
          servers := AddServers(servers, before, entries, s.path);
      }
      assert Status(s.path, s.origin, present, count) == StatusOf(s);
      statuses := statuses + [Status(s.path, s.origin, present, count)];
    }
    assert sources[..|sources|] == sources;
    SortDedupSorts(read);
    SortIsStable(statuses);
    read, statuses := SortDedup(read), SortedByPath(statuses);
  }

  // ---------------------------------------------------------------- the path search

  /** A readable source that declares the key. */
  predicate Declares(s: Source, key: string) {
    s.contents.Servers? && exists i | 0 <= i < |s.contents.entries| :: Normalized(s.contents.entries[i].0) == key
  }

  /** `source_paths_for_normalized_server`; the source sorts the paths, here they are a set. */
  method SourcePaths(sources: seq<Source>, key: string) returns (paths: set<string>)
    ensures forall path :: path in paths <==> exists i | 0 <= i < |sources| ::
      sources[i].path == path && Declares(sources[i], key)
  {
    hide Declares;
    paths := {};
    for i := 0 to |sources|
      invariant forall path ::
        path in paths <==> exists k | 0 <= k < i :: sources[k].path == path && Declares(sources[k], key)
    {
      if Declares(sources[i], key) { paths := paths + {sources[i].path}; }
    }
  }

  lemma {:induction false} NamedFrom(entries: seq<(string, string)>, path: string)
    ensures forall o | o in Named(entries, path) :: o.entry.source == path
  {
    hide Normalized;
    if entries != [] { NamedFrom(entries[..|entries| - 1], path); }
  }

  lemma {:induction false} NamedHas(entries: seq<(string, string)>, path: string, key: string)
    requires key != ""
    ensures (exists o :: o in Named(entries, path) && o.key == key)
        <==> exists i | 0 <= i < |entries| :: Normalized(entries[i].0) == key
  {
    hide Normalized;
    if entries != [] {
      var n := |entries| - 1;
      NamedHas(entries[..n], path, key);
      var (name, value) := entries[n];
      if i :| 0 <= i < n && Normalized(entries[..n][i].0) == key { assert Normalized(entries[i].0) == key; }
      if i :| 0 <= i < |entries| && Normalized(entries[i].0) == key {
        if i < n {
          assert Normalized(entries[..n][i].0) == key;
        } else {
          assert Occurrence(key, Entry(name, value, path)) in Named(entries, path);
        }
      }
    }
  }

  lemma {:induction false} LastIsSome(occurrences: seq<Occurrence>, key: string)
    ensures Last(occurrences, key).Some? <==> exists o :: o in occurrences && o.key == key
    ensures Last(occurrences, key).Some? ==> Occurrence(key, Last(occurrences, key).value) in occurrences
  {
    if occurrences != [] { LastIsSome(occurrences[..|occurrences| - 1], key); }
  }

  /** What one source adds. */
  function Added(s: Source): seq<Occurrence> {
    if s.contents.Servers? then Named(s.contents.entries, s.path) else []
  }

  lemma {:induction false} AddedHas(s: Source, key: string)
    requires key != ""
    ensures (exists o :: o in Added(s) && o.key == key) <==> Declares(s, key)
    ensures forall o | o in Added(s) :: o.entry.source == s.path
  {
    hide Named, Normalized;
    if s.contents.Servers? {
      NamedHas(s.contents.entries, s.path, key);
      NamedFrom(s.contents.entries, s.path);
    }
  }

  lemma {:induction false} OccurrencesSnoc(sources: seq<Source>)
    requires sources != []
    ensures var n := |sources| - 1; Occurrences(sources) == Occurrences(sources[..n]) + Added(sources[n])
  {
    hide Named;
  }

  /** An occurrence of a key comes from a source that declares it. */
  lemma {:induction false} OccurrenceDeclared(sources: seq<Source>, key: string, o: Occurrence) returns (i: nat)
    requires key != "" && o in Occurrences(sources) && o.key == key
    ensures i < |sources| && sources[i].path == o.entry.source && Declares(sources[i], key)
  {
    hide Declares, Added;
    OccurrencesSnoc(sources);
    i := |sources| - 1;
    AddedHas(sources[i], key);
    if o in Occurrences(sources[..i]) { i := OccurrenceDeclared(sources[..i], key, o); }
  }

  /** Every source that declares a key gives an occurrence of it. */
  lemma {:induction false} DeclaredOccurs(sources: seq<Source>, key: string, i: nat)
    requires key != "" && i < |sources| && Declares(sources[i], key)
    ensures exists o :: o in Occurrences(sources) && o.key == key
  {
    hide Declares, Added, Occurrences;
    OccurrencesSnoc(sources);
    var n := |sources| - 1;
    if i < n {
      DeclaredOccurs(sources[..n], key, i);
      var o :| o in Occurrences(sources[..n]) && o.key == key;
      assert o in Occurrences(sources);
    } else {
      AddedHas(sources[n], key);
      var o :| o in Added(sources[n]) && o.key == key;
      assert o in Occurrences(sources);
    }
  }

  // ---------------------------------------------------------------- agreement

  /**
   On one snapshot the two loaders agree, the last declaration wins, and the
   path search finds exactly the keys there are.
   */
  lemma {:induction false} LoadersAgree(
    sources: seq<Source>, registry: map<string, Entry>, report: map<string, Entry>, key: string, paths: set<string>)
    requires Holds(registry, Occurrences(sources)) && Holds(report, Occurrences(sources)) && key != ""
    requires forall path :: path in paths <==> exists i | 0 <= i < |sources| ::
      sources[i].path == path && Declares(sources[i], key)
    ensures registry == report
    ensures key in registry <==> paths != {}
    ensures key in registry ==> registry[key].source in paths
  {
    hide Declares, Named;
    OneRegistry(registry, report, Occurrences(sources));
    LastIsSome(Occurrences(sources), key);
    assert Lookup(registry, key) == Last(Occurrences(sources), key);
    hide Last, Occurrences, Holds;
    if key in registry {
      var i := OccurrenceDeclared(sources, key, Occurrence(key, registry[key]));
      assert registry[key].source in paths;
    }
    if paths != {} {
      var path :| path in paths;
      var i :| 0 <= i < |sources| && sources[i].path == path && Declares(sources[i], key);
      DeclaredOccurs(sources, key, i);
    }
  }
}
