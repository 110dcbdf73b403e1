/**
 Text as the line scanners of MCPace see it: characters, Unicode white space,
 lines that keep their line feed, and substring search. A Rust `&str` is a
 sequence of characters here, and a byte offset is a character offset.
 */
module Text {

  datatype Option<+T> = None | Some(value: T) {
    function Or(default: T): T {
      if Some? then value else default
    }
  }

  // ---------------------------------------------------------------- white space

  /** The Unicode White_Space property, which `str::trim` uses. */
  predicate IsSpace(c: char) {
    var n := c as int;
    || 9 <= n <= 13 || n == 0x20 || n == 0x85 || n == 0xA0 || n == 0x1680
    || 0x2000 <= n <= 0x200A || n == 0x2028 || n == 0x2029 || n == 0x202F
    || n == 0x205F || n == 0x3000
  }

  predicate Blank(s: string) {
    forall i | 0 <= i < |s| :: IsSpace(s[i])
  }

  function TrimStart(s: string): (r: string)
    ensures |r| <= |s|
  {
    if s != "" && IsSpace(s[0]) then TrimStart(s[1..]) else s
  }

  function TrimEnd(s: string): (r: string)
    ensures |r| <= |s|
  {
    if s != "" && IsSpace(s[|s| - 1]) then TrimEnd(s[..|s| - 1]) else s
  }

  function Trim(s: string): (r: string)
    ensures |r| <= |s|
  {
    TrimEnd(TrimStart(s))
  }

  /** What is cut off the front is blank, and no blank is left there. */
  lemma {:induction false} TrimStartFacts(s: string)
    ensures var r := TrimStart(s);
            && s == s[..|s| - |r|] + r && Blank(s[..|s| - |r|]) && (r != "" ==> !IsSpace(r[0]))
  {
    hide IsSpace;
    if s != "" && IsSpace(s[0]) {
      TrimStartFacts(s[1..]);
      var n := |s| - |TrimStart(s)|;
      assert s[..n] == [s[0]] + s[1..][..n - 1];
    }
  }

  lemma {:induction false} TrimEndFacts(s: string)
    ensures var r := TrimEnd(s);
            && s == r + s[|r|..] && Blank(s[|r|..]) && (r != "" ==> !IsSpace(r[|r| - 1]))
  {
    hide IsSpace;
    if s != "" && IsSpace(s[|s| - 1]) {
      var front := s[..|s| - 1];
      TrimEndFacts(front);
      var n := |TrimEnd(s)|;
      assert s[n..] == front[n..] + [s[|s| - 1]];
    }
  }

  /** Neither end is white space, so trimming has nothing to do. */
  predicate Tight(s: string) {
    s == "" || (!IsSpace(s[0]) && !IsSpace(s[|s| - 1]))
  }

  lemma {:induction false} TrimStartBlank(w: string, s: string)
    requires Blank(w)
    ensures TrimStart(w + s) == TrimStart(s)
  {
    if w == "" {
      assert w + s == s;
    } else {
      assert (w + s)[1..] == w[1..] + s;
      TrimStartBlank(w[1..], s);
    }
  }

  lemma {:induction false} TrimEndBlank(s: string, w: string)
    requires Blank(w)
    ensures TrimEnd(s + w) == TrimEnd(s)
  {
    if w == "" {
      assert s + w == s;
    } else {
      assert (s + w)[..|s + w| - 1] == s + w[..|w| - 1];
      TrimEndBlank(s, w[..|w| - 1]);
    }
  }

  /** Trimming finds the tight core whatever blanks surround it. */
  lemma {:induction false} TrimCore(before: string, core: string, after: string)
    requires Blank(before) && Blank(after) && Tight(core)
    ensures Trim(before + core + after) == core
  {
    if core == "" {
      assert before + core + after == (before + after) + "";
      TrimStartBlank(before + after, "");
    } else {
      assert before + core + after == before + (core + after);
      TrimStartBlank(before, core + after);
      assert (core + after)[0] == core[0];
      TrimEndBlank(core, after);
    }
  }

  /** Trimming stops at the first character that is not white space. */
  lemma {:induction false} TrimFirst(before: string, rest: string)
    requires Blank(before) && rest != "" && !IsSpace(rest[0])
    ensures Trim(before + rest) == TrimEnd(rest)
    ensures TrimEnd(rest) != "" && TrimEnd(rest)[0] == rest[0]
  {
    TrimStartBlank(before, rest);
    TrimEndKeepsFirst(rest);
  }

  lemma {:induction false} TrimEndKeepsFirst(rest: string)
    requires rest != "" && !IsSpace(rest[0])
    ensures TrimEnd(rest) != "" && TrimEnd(rest)[0] == rest[0]
  {
    if IsSpace(rest[|rest| - 1]) {
      TrimEndKeepsFirst(rest[..|rest| - 1]);
    }
  }

  /** Every text is its trimmed core between two blanks. */
  lemma {:induction false} TrimSplit(s: string) returns (before: string, after: string)
    ensures Blank(before) && Blank(after) && Tight(Trim(s))
    ensures s == before + Trim(s) + after
  {
    hide IsSpace;
    var t := TrimStart(s);
    TrimStartFacts(s);
    TrimEndFacts(t);
    before := s[..|s| - |t|];
    after := t[|Trim(s)|..];
    assert Trim(s) != "" ==> Trim(s)[0] == t[0];
  }

  lemma {:induction false} TrimBlank(s: string)
    ensures Blank(s) <==> Trim(s) == ""
  {
    hide IsSpace;
    if Blank(s) {
      assert s == s + "" + "";
      TrimCore(s, "", "");
    }
    var before, after := TrimSplit(s);
    assert Blank(before + after);
    assert Trim(s) == "" ==> s == before + after;
  }

  // ---------------------------------------------------------------- lines

  /** Length of the first line of `s`, its line feed included. */
  function LineLen(s: string): (n: nat)
    ensures n <= |s| && (s != "" ==> 0 < n)
  {
    if s == "" then 0
    else if s[0] == '\n' then 1
    else 1 + LineLen(s[1..])
  }

  lemma {:induction false} LineLenFacts(s: string)
    ensures var n := LineLen(s);
            && (n < |s| ==> s[n - 1] == '\n')
            && !HasNewline(s[..if n == 0 then 0 else n - 1])
            && Complete(s[..n]) == (n < |s| || Complete(s))
  {
    if s != "" && s[0] != '\n' {
      LineLenFacts(s[1..]);
      var n := LineLen(s);
      if n > 1 {
        assert s[..n - 1] == [s[0]] + s[1..][..n - 2];
      }
      assert s[..n][n - 1] == s[n - 1];
    }
  }

  /** Empty or closed by a line feed: whatever follows starts a new line. */
  predicate Complete(s: string) {
    s == "" || s[|s| - 1] == '\n'
  }

  lemma {:induction false} LineLenConcat(a: string, b: string)
    requires Complete(a) && a != ""
    ensures LineLen(a + b) == LineLen(a)
  {
    assert (a + b)[0] == a[0];
    if a[0] != '\n' {
      assert (a + b)[1..] == a[1..] + b;
      LineLenConcat(a[1..], b);
    }
  }

  /** The first line is determined by where the first line feed is. */
  lemma {:induction false} LineLenIs(s: string, n: nat)
    requires 0 < n <= |s|
    requires !HasNewline(s[..n - 1])
    requires n < |s| ==> s[n - 1] == '\n'
    ensures LineLen(s) == n
  {
    if n > 1 {
      assert s[0] == s[..n - 1][0];
      assert s[1..][..n - 2] == s[..n - 1][1..];
      LineLenIs(s[1..], n - 1);
    }
  }

  lemma {:induction false} LineLenPrefix(a: string, b: string)
    requires !HasNewline(a)
    ensures LineLen(a + b) == |a| + LineLen(b)
  {
    if a == "" {
      assert a + b == b;
    } else {
      assert (a + b)[1..] == a[1..] + b;
      LineLenPrefix(a[1..], b);
    }
  }

  lemma {:induction false} LineLenAtMost(t: string, n: nat)
    requires n < |t| && t[n] == '\n'
    ensures LineLen(t) <= n + 1
  {
    if n > 0 && t[0] != '\n' {
      LineLenAtMost(t[1..], n - 1);
    }
  }

  /** The first line, cut out, is one line. */
  lemma {:induction false} LineLenAlone(t: string)
    ensures LineLen(t[..LineLen(t)]) == LineLen(t)
  {
    var n := LineLen(t);
    if t != "" {
      LineLenFacts(t);
      assert t[..n][..n - 1] == t[..n - 1];
      LineLenIs(t[..n], n);
    }
  }

  /** Cutting a text twice is cutting it at both places. */
  lemma {:induction false} Cuts<T>(t: seq<T>, m: nat, n: nat)
    requires m <= n <= |t|
    ensures t[..m] + t[m..][..n - m] == t[..n] && t[m..][n - m..] == t[n..] && t[m..][..n - m] == t[m..n]
  {
  }

  lemma {:induction false} Sub<T>(s: seq<T>, lo: nat, hi: nat, i: nat, j: nat)
    requires lo <= hi <= |s| && i <= j <= hi - lo
    ensures s[lo..hi][i..j] == s[lo + i..lo + j]
  {
    var inner, outer := s[lo..hi][i..j], s[lo + i..lo + j];
    assert forall k | 0 <= k < j - i :: inner[k] == outer[k];
    assert inner == outer;
  }

  lemma {:induction false} Join<T>(s: seq<T>, a: nat, b: nat, c: nat)
    requires a <= b <= c <= |s|
    ensures s[a..b] + s[b..c] == s[a..c]
  {
  }

  predicate HasNewline(s: string) {
    '\n' in s
  }

  // ---------------------------------------------------------------- search

  predicate At(s: string, pat: string, i: nat) {
    i + |pat| <= |s| && s[i..i + |pat|] == pat
  }

  predicate Occurs(s: string, pat: string) {
    exists i: nat :: i <= |s| && At(s, pat, i)
  }

  /** `str::find`: the least offset where `pat` occurs. */
  function Find(s: string, pat: string): (r: Option<nat>)
    ensures r.Some? ==> At(s, pat, r.value) && forall j: nat | j < r.value :: !At(s, pat, j)
    ensures r.None? ==> forall j: nat :: !At(s, pat, j)
  {
    FindFrom(s, pat, 0)
  }

  function FindFrom(s: string, pat: string, i: nat): (r: Option<nat>)
    requires i <= |s| + 1
    ensures r.Some? ==> i <= r.value && At(s, pat, r.value) && forall j: nat | i <= j < r.value :: !At(s, pat, j)
    ensures r.None? ==> forall j: nat | i <= j :: !At(s, pat, j)
    decreases |s| + 1 - i
  {
    if i > |s| then None
    else if At(s, pat, i) then Some(i)
    else FindFrom(s, pat, i + 1)
  }

  lemma {:induction false} FindIs(s: string, pat: string, i: nat)
    requires At(s, pat, i)
    requires forall j: nat | j < i :: !At(s, pat, j)
    ensures Find(s, pat) == Some(i)
  {
  }

  lemma {:induction false} OccursIffFind(s: string, pat: string)
    ensures Occurs(s, pat) <==> Find(s, pat).Some?
  {
    if Find(s, pat).Some? {
      assert At(s, pat, Find(s, pat).value);
    }
  }

  lemma {:induction false} AtChar(s: string, pat: string, i: nat, k: nat)
    requires k < |pat|
    ensures At(s, pat, i) ==> i + k < |s| && s[i + k] == pat[k]
  {
    if At(s, pat, i) {
      assert s[i..i + |pat|][k] == s[i + k];
    }
  }

  /** An occurrence that lies in a slice is an occurrence in the whole, and back. */
  lemma {:induction false} AtSlice(s: string, pat: string, lo: nat, hi: nat, i: nat)
    requires lo <= hi <= |s|
    ensures At(s[lo..hi], pat, i) <==> lo + i + |pat| <= hi && At(s, pat, lo + i)
  {
    if lo + i + |pat| <= hi {
      var t := s[lo..hi];
      var inner, outer := t[i..i + |pat|], s[lo + i..lo + i + |pat|];
      assert forall k | 0 <= k < |pat| :: inner[k] == outer[k];
      assert inner == outer;
    }
  }

  // ---------------------------------------------------------------- line boundaries

  /** `line_start`: just after the last line feed before `i`, or 0. */
  function LineStart(s: string, i: nat): (r: nat)
    requires i <= |s|
    ensures r <= i
  {
    if i == 0 then 0
    else if s[i - 1] == '\n' then i
    else LineStart(s, i - 1)
  }

  lemma {:induction false} LineStartFacts(s: string, i: nat)
    requires i <= |s|
    ensures Complete(s[..LineStart(s, i)]) && !HasNewline(s[LineStart(s, i)..i])
  {
    if i > 0 && s[i - 1] != '\n' {
      LineStartFacts(s, i - 1);
      assert s[LineStart(s, i)..i] == s[LineStart(s, i)..i - 1] + [s[i - 1]];
    }
  }

  lemma {:induction false} LineStartIs(s: string, r: nat, i: nat)
    requires r <= i <= |s| && Complete(s[..r]) && !HasNewline(s[r..i])
    ensures LineStart(s, i) == r
  {
    if r < i {
      assert s[r..i][i - 1 - r] == s[i - 1];
      assert s[r..i - 1] == s[r..i][..i - 1 - r];
      LineStartIs(s, r, i - 1);
    }
  }

  /** `line_end_after`, with the source's three cases. */
  function LineEndAfter(s: string, i: nat): (r: nat)
    requires i <= |s|
    ensures i <= r <= |s|
  {
    if "\r\n" <= s[i..] then i + 2
    else if "\n" <= s[i..] then i + 1
    else match Find(s[i..], "\n")
      case Some(k) => i + k + 1
      case None => |s|
  }

  /** All three cases give the end of the line that holds `i`. */
  lemma {:induction false} LineEndAfterIs(s: string, i: nat)
    requires i <= |s|
    ensures LineEndAfter(s, i) == i + LineLen(s[i..])
  {
    var t := s[i..];
    if "\r\n" <= t {
      assert t[0] == '\r' && t[1] == '\n';
      assert t[..1] == ['\r'];
      LineLenIs(t, 2);
    } else if "\n" <= t {
      assert t[0] == '\n';
    } else if Find(t, "\n").Some? {
      var k := Find(t, "\n").value;
      assert t[k] == t[k..k + 1][0] == '\n';
      NoNewlineBefore(t, k);
      LineLenIs(t, k + 1);
    } else {
      NoNewlineBefore(t, |t|);
      if t != "" {
        assert !HasNewline(t[..|t| - 1]) by { assert forall j | 0 <= j < |t| - 1 :: t[..|t| - 1][j] == t[..|t|][j]; }
        LineLenIs(t, |t|);
      }
    }
  }

  lemma {:induction false} NoNewlineBefore(t: string, k: nat)
    requires k <= |t| && forall j: nat | j < k :: !At(t, "\n", j)
    ensures !HasNewline(t[..k])
  {
    forall j | 0 <= j < k ensures t[..k][j] != '\n' {
      assert !At(t, "\n", j);
      assert t[j..j + 1] == [t[j]];
    }
  }

  // ---------------------------------------------------------------- case

  function LowerChar(c: char): char {
    if 'A' <= c <= 'Z' then (c as int + 32) as char else c
  }

  /** `to_ascii_lowercase` */
  function Lower(t: string): (r: string)
    ensures |r| == |t|
  {
    if t == "" then "" else [LowerChar(t[0])] + Lower(t[1..])
  }

  lemma {:induction false} LowerAt(t: string, i: nat)
    requires i < |t|
    ensures Lower(t)[i] == LowerChar(t[i])
  {
    if i > 0 { LowerAt(t[1..], i - 1); }
  }
}
