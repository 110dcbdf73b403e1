/**
 The names under which `src/adapter.rs` exposes upstream tools: short tokens
 joined with a hash and, on a clash, a counter.
 */
module ProjectedNames {
  import opened Basics
  import opened Text
  import opened Utf8

  const NAME_MAX := 64
  const HASH_LENGTH := 10

  // ---------------------------------------------------------------- tokens

  predicate Alnum(c: char) { 'a' <= c <= 'z' || '0' <= c <= '9' }

  predicate NameChar(c: char) { Alnum(c) || c == '_' }

  /** Words of lower-case letters and digits with single underscores between them. */
  predicate Safe(t: string) {
    && t != "" && t[0] != '_' && t[|t| - 1] != '_'
    && (forall i | 0 <= i < |t| :: NameChar(t[i]))
    && NoDouble(t)
  }

  predicate NoDouble(t: string) {
    forall i | 0 <= i < |t| - 1 :: t[i] != '_' || t[i + 1] != '_'
  }

  /** Each run of other characters becomes one underscore. */
  function Squeeze(s: string): string {
    if s == "" then ""
    else
      var out, c := Squeeze(s[..|s| - 1]), LowerChar(s[|s| - 1]);
      if Alnum(c) then out + [c]
      else if out != "" && out[|out| - 1] == '_' then out
      else out + "_"
  }

  function TrimLeft(s: string): (r: string)
    ensures |r| <= |s|
  {
    if s != "" && s[0] == '_' then TrimLeft(s[1..]) else s
  }

  function TrimRight(s: string): (r: string)
    ensures |r| <= |s|
  {
    if s != "" && s[|s| - 1] == '_' then TrimRight(s[..|s| - 1]) else s
  }

  /** `trim_token_edges` */
  function TrimEdges(s: string): string { TrimRight(TrimLeft(s)) }

  function SafeTokenOf(value: string): string {
    var t := TrimEdges(Squeeze(Trim(value)));
    if t == "" then "item" else t
  }

  /** `safe_token`: a loop that builds the token and remembers whether it ends in a separator. */
  method SafeToken(value: string) returns (token: string)
    ensures token == SafeTokenOf(value) && Safe(token)
  {
    var s := Trim(value);
    var out, lastWasSeparator := "", false;
    assert s[..0] == "";
    for i := 0 to |s|
      invariant out == Squeeze(s[..i])
      invariant lastWasSeparator <==> out != "" && out[|out| - 1] == '_'
    {
      assert s[..i + 1][..i] == s[..i];
      var lower := LowerChar(s[i]);
      if Alnum(lower) {
        out, lastWasSeparator := out + [lower], false;
      } else if !lastWasSeparator {
        out, lastWasSeparator := out + "_", true;
      }
    }
    assert s[..|s|] == s;
    SafeTokenIsSafe(value);
    token := TrimEdges(out);
    if token == "" { token := "item"; }
  }

  lemma {:induction false} SqueezeShape(s: string)
    ensures NoDouble(Squeeze(s)) && forall i | 0 <= i < |Squeeze(s)| :: NameChar(Squeeze(s)[i])
  {
    if s != "" { SqueezeShape(s[..|s| - 1]); }
  }

  /** Trimming the edges of a text with no double underscore leaves nothing or a safe token. */
  lemma {:induction false} TrimLeftShape(s: string)
    requires NoDouble(s) && forall i | 0 <= i < |s| :: NameChar(s[i])
    ensures var r := TrimLeft(s);
      NoDouble(r) && (forall i | 0 <= i < |r| :: NameChar(r[i])) && (r != "" ==> r[0] != '_')
  {
    if s != "" && s[0] == '_' { TrimLeftShape(s[1..]); }
  }

  lemma {:induction false} TrimRightShape(s: string)
    requires NoDouble(s) && forall i | 0 <= i < |s| :: NameChar(s[i])
    requires s != "" ==> s[0] != '_'
    ensures var r := TrimRight(s); r <= s && (s != "" ==> Safe(r))
  {
    if s != "" && s[|s| - 1] == '_' { TrimRightShape(s[..|s| - 1]); }
  }

  lemma {:induction false} SafeTokenIsSafe(value: string)
    ensures Safe(SafeTokenOf(value))
  {
    hide Squeeze, Trim;
    var s := Squeeze(Trim(value));
    SqueezeShape(Trim(value));
    TrimLeftShape(s);
    TrimRightShape(TrimLeft(s));
  }

  function Truncate(s: string, n: nat): string {
    if |s| <= n then s else s[..n]
  }

  /** A safe token cut short is still safe once its edge is trimmed. */
  lemma {:induction false} CutIsSafe(t: string, n: nat)
    requires Safe(t) && n >= 1
    ensures Safe(TrimEdges(Truncate(t, n))) && |TrimEdges(Truncate(t, n))| <= n
  {
    var s := Truncate(t, n);
    assert TrimLeft(s) == s;
    TrimRightShape(s);
  }

  // ---------------------------------------------------------------- names

  predicate IsHash(hash: string) {
    |hash| == HASH_LENGTH && forall i | 0 <= i < |hash| :: Alnum(hash[i])
  }

  function SuffixText(suffix: nat): string {
    if suffix == 0 then "" else "_" + Numeral(suffix, 10)
  }

  function Monus(a: nat, b: nat): nat { if a >= b then a - b else 0 }
  function AtLeast(a: nat, b: nat): nat { if a >= b then a else b }
  function AtMost(a: nat, b: nat): nat { if a <= b then a else b }

  function BodyBudget(prefix: string, hash: string, suffix: nat): nat {
    AtLeast(Monus(NAME_MAX, |prefix| + |hash| + |SuffixText(suffix)| + 3), 2)
  }

  function ServerBudget(server: string, body: nat): nat {
    AtMost(AtMost(|server|, 18), AtLeast(body / 2, 1))
  }

  /** `str::replace` of two underscores by one */
  function Replaced(s: string): (r: string)
    ensures |r| <= |s|
    ensures !NoDouble(s) ==> |r| < |s|
  {
    if |s| < 2 then s
    else if s[0] == '_' && s[1] == '_' then "_" + Replaced(s[2..])
    else
      assert !NoDouble(s) ==> !NoDouble(s[1..]) by {
        if !NoDouble(s) {
          var i :| 0 <= i < |s| - 1 && s[i] == '_' && s[i + 1] == '_';
          assert s[1..][i - 1] == '_' && s[1..][i] == '_';
        }
      }
      [s[0]] + Replaced(s[1..])
  }

  /** The loop that removes double underscores. */
  function Collapsed(s: string): string
    decreases |s|
  {
    if NoDouble(s) then s else Collapsed(Replaced(s))
  }

  function Joined(prefix: string, server: string, item: string, hash: string, suffix: nat): string {
    prefix + "_" + server + "_" + item + "_" + hash + SuffixText(suffix)
  }

  /** `projected_safe_name` for a prefix, a server and an item that are already safe tokens */
  function SafeName(prefix: string, server: string, item: string, hash: string, suffix: nat): string {
    var body := BodyBudget(prefix, hash, suffix);
    var serverBudget := ServerBudget(server, body);
    var itemBudget := AtLeast(Monus(body, serverBudget), 1);
    var candidate := Collapsed(Joined(prefix, TrimEdges(Truncate(server, serverBudget)),
                                      TrimEdges(Truncate(item, itemBudget)), hash, suffix));
    if |candidate| <= NAME_MAX then candidate else TrimEdges(Truncate(candidate, NAME_MAX))
  }

  function ProjectedName(prefix: string, server: string, item: string, hash: string, suffix: nat): string {
    SafeName(SafeTokenOf(prefix), SafeTokenOf(server), SafeTokenOf(item), hash, suffix)
  }

  // ---------------------------------------------------------------- numerals

  lemma {:induction false} NumeralLength(n: nat, k: nat, bound: nat)
    requires k >= 1 && n < bound && bound == Power(k)
    ensures |Numeral(n, 10)| <= k
    decreases k
  {
    DivMod(n, 10);
    if n >= 10 {
      assert k > 1;
      NumeralLength(n / 10, k - 1, Power(k - 1));
    }
  }

  function Power(k: nat): nat { if k == 0 then 1 else 10 * Power(k - 1) }

  lemma {:induction false} TwentyDigits()
    ensures USIZE_MAX < Power(20)
  {
    assert Power(5) == 100_000;
    assert Power(10) == 10_000_000_000;
    assert Power(15) == 1_000_000_000_000_000;
    assert Power(20) == 100_000_000_000_000_000_000;
  }

  lemma {:induction false} SuffixShape(suffix: nat)
    requires suffix <= USIZE_MAX
    ensures |SuffixText(suffix)| <= 21 && NoDouble(SuffixText(suffix))
    ensures forall i | 0 <= i < |SuffixText(suffix)| :: NameChar(SuffixText(suffix)[i])
    ensures suffix > 0 ==> |SuffixText(suffix)| > 1 && forall i | 0 < i < |SuffixText(suffix)| ::
      Alnum(SuffixText(suffix)[i])
  {
    if suffix > 0 {
      TwentyDigits();
      NumeralLength(suffix, 20, Power(20));
      NumeralChars(suffix);
    }
  }

  lemma {:induction false} NumeralChars(n: nat)
    ensures Numeral(n, 10) != "" && forall i | 0 <= i < |Numeral(n, 10)| :: '0' <= Numeral(n, 10)[i] <= '9'
  {
    DivMod(n, 10);
    if n >= 10 { NumeralChars(n / 10); }
  }

  lemma {:induction false} NumeralInjective(m: nat, n: nat)
    ensures Numeral(m, 10) == Numeral(n, 10) ==> m == n
  {
    NumeralDigits(m, 10);
    NumeralDigits(n, 10);
  }

  // ---------------------------------------------------------------- the shape of a name

  lemma {:induction false} SafeJoin(a: string, b: string)
    requires Safe(a) && Safe(b)
    ensures Safe(a + "_" + b)
  {
    var t := a + "_" + b;
    forall i | 0 <= i < |t| - 1 ensures t[i] != '_' || t[i + 1] != '_' {
      if i > |a| { assert t[i] == b[i - |a| - 1] && t[i + 1] == b[i - |a|]; }
    }
  }

  lemma {:induction false} AlnumIsSafe(t: string)
    requires t != "" && forall i | 0 <= i < |t| :: Alnum(t[i])
    ensures Safe(t)
  {
  }

  lemma {:induction false} JoinedIsSafe(prefix: string, server: string, item: string, hash: string, suffix: nat)
    requires Safe(prefix) && Safe(server) && Safe(item) && IsHash(hash)
    ensures Safe(Joined(prefix, server, item, hash, suffix))
  {
    hide Safe;
    SafeJoin(prefix, server);
    SafeJoin(prefix + "_" + server, item);
    AlnumIsSafe(hash);
    var full := prefix + "_" + server + "_" + item + "_" + hash;
    SafeJoin(prefix + "_" + server + "_" + item, hash);
    if suffix == 0 {
      assert full + "" == full;
    } else {
      NumeralChars(suffix);
      hide Numeral;
      AlnumIsSafe(Numeral(suffix, 10));
      SafeJoin(full, Numeral(suffix, 10));
      Assoc(full, "_", Numeral(suffix, 10));
    }
  }

  function ServerPart(prefix: string, server: string, hash: string, suffix: nat): string {
    TrimEdges(Truncate(server, ServerBudget(server, BodyBudget(prefix, hash, suffix))))
  }

  function ItemPart(prefix: string, server: string, item: string, hash: string, suffix: nat): string {
    var body := BodyBudget(prefix, hash, suffix);
    TrimEdges(Truncate(item, AtLeast(Monus(body, ServerBudget(server, body)), 1)))
  }

  /** The collapse loop and the final truncation never fire: the joined parts are short and clean already. */
  lemma {:induction false} NameIsJoined(prefix: string, server: string, item: string, hash: string, suffix: nat)
    requires Safe(prefix) && |prefix| <= 28 && Safe(server) && Safe(item) && IsHash(hash) && suffix <= USIZE_MAX
    ensures var name := SafeName(prefix, server, item, hash, suffix);
      && name == Joined(prefix, ServerPart(prefix, server, hash, suffix), ItemPart(prefix, server, item, hash, suffix),
                        hash, suffix)
      && Safe(name) && |name| <= NAME_MAX
  {
    SuffixShape(suffix);
    var body := BodyBudget(prefix, hash, suffix);
    var m := ServerBudget(server, body);
    var n := AtLeast(Monus(body, m), 1);
    CutIsSafe(server, m);
    CutIsSafe(item, n);
    hide SuffixText, TrimEdges, Truncate, Replaced;
    JoinedIsSafe(prefix, ServerPart(prefix, server, hash, suffix), ItemPart(prefix, server, item, hash, suffix), hash,
        suffix);
  }

  lemma {:induction false} LastWord(a: string, x: string, b: string, y: string)
    requires a + "_" + x == b + "_" + y
    requires (forall i | 0 <= i < |x| :: x[i] != '_') && (forall i | 0 <= i < |y| :: y[i] != '_')
    ensures x == y
  {
    var s := a + "_" + x;
    assert s[|a|] == '_' && s[|b|] == '_';
    assert forall i | |a| < i < |s| :: s[i] == x[i - |a| - 1];
    assert s == b + "_" + y && forall i | |b| < i < |s| :: s[i] == y[i - |b| - 1];
    assert s[|a| + 1..] == x && s[|b| + 1..] == y;
  }

  /** Distinct positive counters give distinct names, whatever the truncation does. */
  lemma {:induction false} SuffixesDiffer(prefix: string, server: string, item: string, hash: string, m: nat, n: nat)
    requires Safe(prefix) && |prefix| <= 28 && Safe(server) && Safe(item) && IsHash(hash)
    requires 0 < m <= USIZE_MAX && 0 < n <= USIZE_MAX && m != n
    ensures SafeName(prefix, server, item, hash, m) != SafeName(prefix, server, item, hash, n)
  {
    hide SafeName, ServerPart, ItemPart, Safe;
    NameIsJoined(prefix, server, item, hash, m);
    NameIsJoined(prefix, server, item, hash, n);
    NumeralChars(m);
    NumeralChars(n);
    NumeralInjective(m, n);
    hide Numeral;
    var a := prefix + "_" + ServerPart(prefix, server, hash, m) + "_" + ItemPart(prefix, server, item, hash, m) +
        "_" + hash;
    var b := prefix + "_" + ServerPart(prefix, server, hash, n) + "_" + ItemPart(prefix, server, item, hash, n) +
        "_" + hash;
    assert a + ("_" + Numeral(m, 10)) == a + "_" + Numeral(m, 10) &&
        b + ("_" + Numeral(n, 10)) == b + "_" + Numeral(n, 10);
    if SafeName(prefix, server, item, hash, m) == SafeName(prefix, server, item, hash, n) {
      LastWord(a, Numeral(m, 10), b, Numeral(n, 10));
    }
  }

  // ---------------------------------------------------------------- the naming loop

  lemma {:induction false} SubsetSize(a: set<string>, b: set<string>)
    requires a <= b
    ensures |a| <= |b|
  {
    if a != {} {
      var x :| x in a;
      SubsetSize(a - {x}, b - {x});
    }
  }

  /** `unique_projected_name`: the first candidate that is not in use; the counter never runs past the names in use. */
  method UniqueProjectedName(prefix: string, server: string, item: string, hash: string, used: set<string>)
    returns (name: string, now: set<string>, ghost suffix: nat)
    requires |SafeTokenOf(prefix)| <= 28 && IsHash(hash) && |used| < USIZE_MAX
    ensures name !in used && now == used + {name} && suffix <= |used| + 1
    ensures name == ProjectedName(prefix, server, item, hash, suffix)
    ensures forall k: nat | k < suffix :: ProjectedName(prefix, server, item, hash, k) in used
    ensures Safe(name) && |name| <= NAME_MAX
  {
    SafeTokenIsSafe(prefix);
    SafeTokenIsSafe(server);
    SafeTokenIsSafe(item);
    hide SafeName, SafeTokenOf, Safe;
    var p, s, t := SafeTokenOf(prefix), SafeTokenOf(server), SafeTokenOf(item);
    var count := 0;
    ghost var tried: set<string> := {};
    while true
      invariant count <= |used| + 1
      invariant tried <= used && |tried| == if count == 0 then 0 else count - 1
      invariant forall k: nat | k < count :: SafeName(p, s, t, hash, k) in used
      invariant forall x | x in tried :: exists k: nat :: 0 < k < count && x == SafeName(p, s, t, hash, k)
      decreases |used| + 1 - count
    {
      SubsetSize(tried, used);
      var candidate := SafeName(p, s, t, hash, count);
      if candidate !in used {
        NameIsJoined(p, s, t, hash, count);
        return candidate, used + {candidate}, count;
      }
      if count > 0 {
        forall k: nat | 0 < k < count ensures SafeName(p, s, t, hash, k) != candidate {
          SuffixesDiffer(p, s, t, hash, k, count);
        }
        tried := tried + {candidate};
        SubsetSize(tried, used);
      }
      count := count + 1;
    }
  }

  // ---------------------------------------------------------------- projecting a catalogue

  datatype Tool = Tool(server: string, tool: string)

  datatype Projected = Projected(name: string, server: string, tool: string)

  /** The naming part of `projected_tool_set`: names in catalogue order, starting from the reserved ones. */
  method ProjectTools(tools: seq<Tool>, hashes: seq<string>, reserved: set<string>) returns (all: seq<Projected>)
    requires |hashes| == |tools| && forall i | 0 <= i < |hashes| :: IsHash(hashes[i])
    requires |reserved| + |tools| < USIZE_MAX
    ensures |all| == |tools|
    ensures forall i | 0 <= i < |all| :: all[i].server == tools[i].server && all[i].tool == tools[i].tool
    ensures forall i | 0 <= i < |all| :: all[i].name !in reserved && Safe(all[i].name) && |all[i].name| <= NAME_MAX
    ensures forall i, j | 0 <= i < j < |all| :: all[i].name != all[j].name
  {
    hide Safe, SafeTokenOf, ProjectedName;
    PrefixToken();
    all := [];
    var used := reserved;
    for i := 0 to |tools|
      invariant |all| == i && |used| <= |reserved| + i && reserved <= used
      invariant forall k | 0 <= k < i :: all[k].server == tools[k].server && all[k].tool == tools[k].tool
      invariant forall k | 0 <= k < i :: all[k].name in used && all[k].name !in reserved
      invariant forall k | 0 <= k < i :: Safe(all[k].name) && |all[k].name| <= NAME_MAX
      invariant forall j, k | 0 <= j < k < i :: all[j].name != all[k].name
    {
      var name, now, _ := UniqueProjectedName("u", tools[i].server, tools[i].tool, hashes[i], used);
      used := now;
      all := all + [Projected(name, tools[i].server, tools[i].tool)];
    }
  }

  lemma {:induction false} PrefixToken()
    ensures |SafeTokenOf("u")| <= 28
  {
    hide TrimLeft, TrimRight;
    var s := Trim("u");
    SqueezeLength(s);
  }

  lemma {:induction false} SqueezeLength(s: string)
    ensures |Squeeze(s)| <= |s|
  {
    if s != "" { SqueezeLength(s[..|s| - 1]); }
  }

  /** `resolve_projected_tool`: the first exposed tool with the name */
  function Resolved(exposed: seq<Projected>, name: string): (r: Option<Tool>) {
    if exposed == [] then None
    else if exposed[0].name == name then Some(Tool(exposed[0].server, exposed[0].tool))
    else Resolved(exposed[1..], name)
  }

  /** Whatever part of the projection is exposed, in whatever order, each name leads back to its own tool. */
  lemma {:induction false} NamesResolveBack(all: seq<Projected>, exposed: seq<Projected>, p: Projected)
    requires forall i, j | 0 <= i < j < |all| :: all[i].name != all[j].name
    requires forall x | x in exposed :: x in all
    ensures p in exposed ==> Resolved(exposed, p.name) == Some(Tool(p.server, p.tool))
    ensures forall name :: Resolved(exposed, name).Some? ==> exists x :: x in exposed && x.name == name
  {
    if exposed != [] {
      assert exposed[0] in exposed && forall x | x in exposed[1..] :: x in exposed;
      NamesResolveBack(all, exposed[1..], p);
      if p in exposed && exposed[0].name == p.name {
        var i :| 0 <= i < |all| && all[i] == exposed[0];
        var j :| 0 <= j < |all| && all[j] == p;
        assert i == j;
      }
    }
  }

  // ---------------------------------------------------------------- the name as it is built

  /** The loop of `projected_safe_name` that removes double underscores, and its final truncation. */
  method Tidy(joined: string) returns (name: string)
    ensures name == Tidied(joined)
  {
    hide TrimEdges, Truncate;
    name := joined;
    while !NoDouble(name)
      invariant Collapsed(name) == Collapsed(joined)
      decreases |name|
    {
      name := Replaced(name);
    }
    if |name| > NAME_MAX { name := TrimEdges(Truncate(name, NAME_MAX)); }
  }

  function Tidied(joined: string): string {
    var candidate := Collapsed(joined);
    if |candidate| <= NAME_MAX then candidate else TrimEdges(Truncate(candidate, NAME_MAX))
  }

  /** `projected_safe_name` */
  method ProjectedSafeName(prefix: string, server: string, item: string, hash: string, suffix: nat)
    returns (name: string)
    ensures name == ProjectedName(prefix, server, item, hash, suffix)
  {
    hide SafeTokenOf, Safe, Numeral, TrimEdges, Truncate, Collapsed;
    var p := SafeToken(prefix);
    var s := SafeToken(server);
    var t := SafeToken(item);
    var suffixText := "";
    if suffix != 0 { suffixText := "_" + Numeral(suffix, 10); }
    var reserved := |p| + |hash| + |suffixText| + 3;
    var body := if reserved < NAME_MAX then NAME_MAX - reserved else 0;
    if body < 2 { body := 2; }
    var serverBudget := Min(Min(|s|, 18), Max(body / 2, 1));
    var itemBudget := Max(if serverBudget < body then body - serverBudget else 0, 1);
    var x := TrimEdges(Truncate(s, serverBudget));
    var y := TrimEdges(Truncate(t, itemBudget));
    name := Tidy(p + "_" + x + "_" + y + "_" + hash + suffixText);
  }

  /** A server token of at most 18 characters and an item token of at most 32 are kept whole. */
  lemma {:induction false} ShortNamesStayWhole(server: string, item: string, hash: string)
    requires Safe(server) && |server| <= 18 && Safe(item) && |item| <= 32 && IsHash(hash)
    ensures SafeName("u", server, item, hash, 0) == "u_" + server + "_" + item + "_" + hash
  {
    assert Safe("u");
    NameIsJoined("u", server, item, hash, 0);
    assert BodyBudget("u", hash, 0) == 50 && ServerBudget(server, 50) == |server|;
    assert Truncate(server, |server|) == server;
    UntouchedEdges(server);
    UntouchedEdges(item);
    hide Safe, SafeName;
    assert "u" + "_" == "u_";
  }

  lemma {:induction false} UntouchedEdges(t: string)
    requires Safe(t)
    ensures TrimEdges(t) == t
  {
  }
}
