/**
 The projection catalogue of `src/adapter.rs`: running counters over every
 server's tools, a bounded list of candidates, and the decision whether to
 expose tools natively.
 */
module Catalogue {
  import opened Basics
  import opened Text

  datatype Safety = All | Review | Safe

  /** The length of a tool definition written as compact JSON. */
  type Size = n: nat | n >= 1 witness 1

  /** A listed tool: its trimmed name if it has one, the signals the decision reads, and its size once projected. */
  datatype Entry = Entry(
    name: Option<string>, guarded: bool, readOnly: bool, destructive: bool, readName: bool, mutatingName: bool,
    size: Size)

  datatype Listing = Listing(name: string, ok: bool, tools: seq<Entry>)

  datatype Report = Report(
    name: string, ok: bool, raw: nat, projectable: nat, brokerOnly: nat, candidates: seq<Entry>, samples: seq<Entry>)

  datatype Catalog = Catalog(
    ok: bool, reports: seq<Report>, raw: nat, projectable: nat, brokerOnly: nat, candidates: nat, samples: nat)

  /** `projection_decision`, after the check for a name */
  predicate Projectable(e: Entry, safety: Safety) {
    e.name.Some? &&
    match safety
    case All => true
    case Review => !e.guarded && !e.destructive && !e.mutatingName
    case Safe => !e.guarded && (e.readOnly || (e.readName && !e.destructive && !e.mutatingName))
  }

  // ---------------------------------------------------------------- what a catalogue should hold

  function Chosen(tools: seq<Entry>, safety: Safety): seq<Entry> {
    if tools == [] then []
    else
      var e := tools[|tools| - 1];
      Chosen(tools[..|tools| - 1], safety) + (if Projectable(e, safety) then [e] else [])
  }

  function Brokered(tools: seq<Entry>, safety: Safety): seq<Entry> {
    if tools == [] then []
    else
      var e := tools[|tools| - 1];
      Brokered(tools[..|tools| - 1], safety) + (if Projectable(e, safety) then [] else [e])
  }

  /** The tools of every server that answered, in catalogue order. */
  function AllTools(listings: seq<Listing>): seq<Entry> {
    if listings == [] then []
    else
      var l := listings[|listings| - 1];
      AllTools(listings[..|listings| - 1]) + (if l.ok then l.tools else [])
  }

  function Take(s: seq<Entry>, n: nat): seq<Entry> {
    if |s| <= n then s else s[..n]
  }

  function Candidates(reports: seq<Report>): seq<Entry> {
    if reports == [] then [] else Candidates(reports[..|reports| - 1]) + reports[|reports| - 1].candidates
  }

  lemma {:induction false} ChosenSnoc(tools: seq<Entry>, e: Entry, safety: Safety)
    ensures Chosen(tools + [e], safety) == Chosen(tools, safety) + (if Projectable(e, safety) then [e] else [])
    ensures Brokered(tools + [e], safety) == Brokered(tools, safety) + (if Projectable(e, safety) then [] else [e])
  {
    hide Projectable;
    assert (tools + [e])[..|tools|] == tools;
  }

  lemma {:induction false} ChosenConcat(a: seq<Entry>, b: seq<Entry>, safety: Safety)
    ensures Chosen(a + b, safety) == Chosen(a, safety) + Chosen(b, safety)
    ensures Brokered(a + b, safety) == Brokered(a, safety) + Brokered(b, safety)
  {
    if b == [] {
      assert a + b == a;
    } else {
      hide Projectable, Chosen, Brokered;
      var front, e := b[..|b| - 1], b[|b| - 1];
      ChosenConcat(a, front, safety);
      assert b == front + [e] && a + b == a + front + [e];
      ChosenSnoc(front, e, safety);
      ChosenSnoc(a + front, e, safety);
    }
  }

  /** A tool may be exposed: always if it is read-only, else by the signals that the safety level heeds. */
  predicate Exposable(e: Entry, safety: Safety) {
    && (safety != All ==> !e.guarded)
    && (safety == Review ==> !(e.destructive || e.mutatingName))
    && (safety == Safe && !e.readOnly ==> e.readName && !(e.destructive || e.mutatingName))
  }

  /** The chosen tools are exactly the named ones that may be exposed. */
  lemma {:induction false} ChosenExactly(tools: seq<Entry>, safety: Safety, e: Entry)
    ensures e in Chosen(tools, safety) <==> e in tools && e.name.Some? && Exposable(e, safety)
  {
    if tools != [] {
      var n := |tools| - 1;
      ChosenExactly(tools[..n], safety, e);
      assert tools == tools[..n] + [tools[n]];
    }
  }

  /** Every tool is chosen or brokered. */
  lemma {:induction false} NothingLost(tools: seq<Entry>, safety: Safety)
    ensures |tools| == |Chosen(tools, safety)| + |Brokered(tools, safety)|
    ensures multiset(tools) == multiset(Chosen(tools, safety)) + multiset(Brokered(tools, safety))
  {
    hide Projectable;
    if tools != [] {
      var n, e := |tools| - 1, tools[|tools| - 1];
      var chosen, brokered := Chosen(tools[..n], safety), Brokered(tools[..n], safety);
      NothingLost(tools[..n], safety);
      assert tools == tools[..n] + [e];
      assert Chosen(tools, safety) == chosen + (if Projectable(e, safety) then [e] else []);
      assert Brokered(tools, safety) == brokered + (if Projectable(e, safety) then [] else [e]);
      hide Chosen, Brokered;
      Snoc(tools[..n], e);
      Snoc(chosen, e);
      Snoc(brokered, e);
    }
  }

  lemma {:induction false} Snoc(s: seq<Entry>, e: Entry)
    ensures multiset(s + [e]) == multiset(s) + multiset{e} && |s + [e]| == |s| + 1 && s + [] == s
  {
  }

  lemma {:induction false} CandidatesSnoc(reports: seq<Report>, r: Report)
    ensures Candidates(reports + [r]) == Candidates(reports) + r.candidates
  {
    assert (reports + [r])[..|reports|] == reports;
  }

  lemma {:induction false} AllToolsSnoc(listings: seq<Listing>, i: nat)
    requires i < |listings|
    ensures AllTools(listings[..i + 1]) == AllTools(listings[..i]) + (if listings[i].ok then listings[i].tools else [])
  {
    assert listings[..i + 1][..i] == listings[..i];
  }

  // ---------------------------------------------------------------- the loops

  /** The tools of one server: counters and the two bounded lists. */
  method CatalogServer(name: string, tools: seq<Entry>, safety: Safety, room: nat, sampleRoom: nat)
    returns (r: Report)
    ensures r.name == name && r.ok && r.raw == |tools| == r.projectable + r.brokerOnly
    ensures r.projectable == |Chosen(tools, safety)| && r.brokerOnly == |Brokered(tools, safety)|
    ensures r.candidates == Take(Chosen(tools, safety), room)
    ensures r.samples == Take(Brokered(tools, safety), sampleRoom)
  {
    hide Projectable;
    var candidates: seq<Entry>, samples: seq<Entry> := [], [];
    var projectable, brokerOnly := 0, 0;
    assert tools[..0] == [];
    for i := 0 to |tools|
      invariant projectable == |Chosen(tools[..i], safety)| && brokerOnly == |Brokered(tools[..i], safety)|
      invariant projectable + brokerOnly == i
      invariant candidates == Take(Chosen(tools[..i], safety), room)
      invariant samples == Take(Brokered(tools[..i], safety), sampleRoom)
    {
      assert tools[..i + 1][..i] == tools[..i];
      if Projectable(tools[i], safety) {
        projectable := projectable + 1;
        if |candidates| < room { candidates := candidates + [tools[i]]; }
      } else {
        brokerOnly := brokerOnly + 1;
        if |samples| < sampleRoom { samples := samples + [tools[i]]; }
      }
    }
    assert tools[..|tools|] == tools;
    r := Report(name, true, |tools|, projectable, brokerOnly, candidates, samples);
  }

  lemma {:induction false} TakeMore(a: seq<Entry>, b: seq<Entry>, n: nat)
    ensures |Take(a, n)| <= n && Take(a + b, n) == Take(a, n) + Take(b, n - |Take(a, n)|)
    ensures |Take(b, n - |Take(a, n)|)| <= n - |Take(a, n)|
  {
  }

  /** `projection_catalog`: counts are conserved and the candidates are the first projectable tools. */
  method ProjectionCatalog(listings: seq<Listing>, safety: Safety, limit: nat, sampleLimit: nat) returns (c: Catalog)
    ensures |c.reports| == |listings|
    ensures forall i | 0 <= i < |listings| :: Fits(c.reports[i], listings[i])
    ensures c.ok <==> forall i | 0 <= i < |listings| :: listings[i].ok
    ensures c.raw == c.projectable + c.brokerOnly == |AllTools(listings)|
    ensures c.projectable == |Chosen(AllTools(listings), safety)|
    ensures Candidates(c.reports) == Take(Chosen(AllTools(listings), safety), limit)
    ensures c.candidates == |Candidates(c.reports)|
  {
    hide Projectable, Chosen, Brokered, Candidates, AllTools, Take;
    var ok, reports: seq<Report> := true, [];
    var raw: nat, projectable: nat, brokerOnly: nat, stored: nat, sampled: nat := 0, 0, 0, 0, 0;
    assert listings[..0] == [];
    NothingChosen(safety, limit);
    for i := 0 to |listings|
      invariant |reports| == i && raw == projectable + brokerOnly == |AllTools(listings[..i])|
      invariant forall k | 0 <= k < i :: Fits(reports[k], listings[k])
      invariant ok <==> forall k | 0 <= k < i :: listings[k].ok
      invariant projectable == |Chosen(AllTools(listings[..i]), safety)|
      invariant Candidates(reports) == Take(Chosen(AllTools(listings[..i]), safety), limit)
      invariant stored == |Candidates(reports)| <= limit && sampled <= sampleLimit
    {
      var l := listings[i];
      ghost var before := AllTools(listings[..i]);
      AllToolsSnoc(listings, i);
      if l.ok {
        var r := CatalogServer(l.name, l.tools, safety, limit - stored, sampleLimit - sampled);
        CandidatesSnoc(reports, r);
        ChosenConcat(before, l.tools, safety);
        TakeMore(Chosen(before, safety), Chosen(l.tools, safety), limit);
        TakeMore([], Brokered(l.tools, safety), sampleLimit - sampled);
        TakeNothing(sampleLimit - sampled);
        raw, projectable, brokerOnly := raw + r.raw, projectable + r.projectable, brokerOnly + r.brokerOnly;
        stored, sampled := stored + |r.candidates|, sampled + |r.samples|;
        reports := reports + [r];
      } else {
        ok := false;
        assert before + [] == before;
        var r := Report(l.name, false, 0, 0, 0, [], []);
        CandidatesSnoc(reports, r);
        reports := reports + [r];
      }
    }
    assert listings[..|listings|] == listings;
    c := Catalog(ok, reports, raw, projectable, brokerOnly, stored, sampled);
  }

  /** A server's counts add up to its tools. */
  predicate Fits(r: Report, l: Listing) {
    && r.name == l.name && r.ok == l.ok
    && r.raw == r.projectable + r.brokerOnly == (if l.ok then |l.tools| else 0)
  }

  lemma {:induction false} TakeNothing(n: nat)
    ensures Take([], n) == []
  {
  }

  lemma {:induction false} NothingChosen(safety: Safety, limit: nat)
    ensures AllTools([]) == [] == Chosen([], safety) == Candidates([]) == Take([], limit)
  {
  }

  // ---------------------------------------------------------------- the decision

  const CANDIDATE_LIMIT_MAX := 8_192
  const BUDGET_MAX := 2_048

  /** The tool budget, which options keep between 1 and 2048. */
  type Budget = n: nat | 1 <= n <= BUDGET_MAX witness 1

  /** `projection_candidate_limit` */
  function CandidateLimit(budget: Budget, configured: Option<nat>): nat {
    Clamp(configured.Or(budget * 8), budget, CANDIDATE_LIMIT_MAX)
  }

  datatype Exposure = Native | Hybrid | Auto | Broker | Minimal

  /** `projection_enabled` in `projected_tool_set` */
  predicate Enabled(mode: Exposure, ok: bool, projectable: nat, tokens: nat, budget: Budget, tokenBudget: nat) {
    match mode
    case Native => projectable > 0
    case Hybrid => projectable > 0
    case Auto => ok && projectable > 0 && projectable <= budget && tokens <= tokenBudget
    case Broker => false
    case Minimal => false
  }

  // ---------------------------------------------------------------- the exposed tools

  /** `estimate_json_tokens` */
  function TokensOf(e: Entry): (n: nat)
    ensures n >= 1 && 4 * (n - 1) < e.size <= 4 * n
  {
    (e.size + 3) / 4
  }

  function TotalTokens(tools: seq<Entry>): nat {
    if tools == [] then 0 else TotalTokens(tools[..|tools| - 1]) + TokensOf(tools[|tools| - 1])
  }

  lemma {:induction false} TotalGrows(tools: seq<Entry>, i: nat)
    requires i <= |tools|
    ensures TotalTokens(tools[..i]) <= TotalTokens(tools)
  {
    hide TokensOf;
    if i < |tools| {
      assert tools[..|tools| - 1][..i] == tools[..i];
      TotalGrows(tools[..|tools| - 1], i);
    } else {
      assert tools[..i] == tools;
    }
  }

  /**
   `take_tools_with_budget`: the longest start of the list within both budgets,
   but never less than its first tool.
   */
  method TakeWithBudget(tools: seq<Entry>, countBudget: nat, tokenBudget: nat) returns (out: seq<Entry>)
    ensures out <= tools && |out| <= countBudget
    ensures |out| > 1 ==> TotalTokens(out) <= tokenBudget
    ensures |out| < |tools| && |out| < countBudget ==> |out| > 0 && TotalTokens(tools[..|out| + 1]) > tokenBudget
  {
    hide TokensOf;
    out := [];
    var used := 0;
    var i := 0;
    while i < |tools| && i < countBudget
      invariant 0 <= i <= |tools| && i <= countBudget && out == tools[..i] && used == TotalTokens(out)
      invariant i > 1 ==> used <= tokenBudget
    {
      var cost := TokensOf(tools[i]);
      assert tools[..i + 1][..i] == tools[..i];
      if out != [] && used + cost > tokenBudget { return; }
      used := used + cost;
      out := out + [tools[i]];
      i := i + 1;
    }
  }

  /**
   `projected_tool_set`, up to the order of the tools: what is exposed is a
   start of the candidates within the budgets, something whenever projection is
   enabled, and in Auto mode every projectable tool.
   */
  method ProjectedToolSet(
    listings: seq<Listing>, safety: Safety, mode: Exposure, budget: Budget, configured: Option<nat>,
    sampleLimit: nat, tokenBudget: nat)
    returns (c: Catalog, projected: seq<Entry>, enabled: bool)
    ensures c.projectable == |Chosen(AllTools(listings), safety)|
    ensures projected <= Candidates(c.reports) <= Chosen(AllTools(listings), safety)
    ensures |projected| <= budget && (|projected| > 1 ==> TotalTokens(projected) <= tokenBudget)
    ensures enabled <==> projected != []
    ensures mode == Broker || mode == Minimal ==> !enabled
    ensures mode == Native || mode == Hybrid ==> (enabled <==> c.projectable > 0)
    ensures mode == Auto ==>
      (enabled <==> c.ok && 0 < c.projectable <= budget && TotalTokens(Candidates(c.reports)) <= tokenBudget)
    ensures forall e | e in projected :: e in AllTools(listings) && e.name.Some? && Exposable(e, safety)
    ensures mode == Auto && enabled ==>
      c.candidates == c.projectable && projected == Candidates(c.reports) == Chosen(AllTools(listings), safety)
  {
    hide Projectable, Chosen, AllTools, TotalTokens, Exposable;
    LimitCoversBudget(budget, configured);
    c := ProjectionCatalog(listings, safety, CandidateLimit(budget, configured), sampleLimit);
    var all := Gather(c.reports);
    var total := Estimate(all);
    enabled := Enabled(mode, c.ok, c.projectable, total, budget, tokenBudget);
    projected := [];
    if enabled {
      projected := TakeWithBudget(all, budget, tokenBudget);
      if |projected| < |all| && |projected| < budget { TotalGrows(all, |projected| + 1); }
    }
    forall e | e in projected ensures e in AllTools(listings) && e.name.Some? && Exposable(e, safety) {
      ChosenExactly(AllTools(listings), safety, e);
    }
  }

  method Gather(reports: seq<Report>) returns (all: seq<Entry>)
    ensures all == Candidates(reports)
  {
    all := [];
    for i := 0 to |reports|
      invariant all == Candidates(reports[..i])
    {
      assert reports[..i + 1] == reports[..i] + [reports[i]];
      CandidatesSnoc(reports[..i], reports[i]);
      all := all + reports[i].candidates;
    }
    assert reports[..|reports|] == reports;
  }

  method Estimate(tools: seq<Entry>) returns (total: nat)
    ensures total == TotalTokens(tools)
  {
    hide TokensOf;
    total := 0;
    for i := 0 to |tools|
      invariant total == TotalTokens(tools[..i])
    {
      assert tools[..i + 1][..i] == tools[..i];
      total := total + TokensOf(tools[i]);
    }
    assert tools[..|tools|] == tools;
  }

  /** Whatever the configured limit, the budget fits within it, and it stays within its maximum. */
  lemma {:induction false} LimitCoversBudget(budget: Budget, configured: Option<nat>)
    ensures budget <= CandidateLimit(budget, configured) <= CANDIDATE_LIMIT_MAX
    ensures configured.None? ==> CandidateLimit(budget, configured) == Min(8 * budget, 8_192)
    ensures configured.Some? && budget <= configured.value <= 8_192 ==>
      CandidateLimit(budget, configured) == configured.value
  {
  }
}
