/** Configuration words as `src/execution.rs` compares and orders them. */
module Tokens {
  import opened Text

  function TokenChar(c: char): char {
    if c == '_' then '-' else LowerChar(c)
  }

  /** `normalize_token` */
  function Token(raw: string): (t: string)
    ensures |t| == |Trim(raw)| && forall i | 0 <= i < |t| :: t[i] == TokenChar(Trim(raw)[i])
  {
    var t := Trim(raw);
    seq(|t|, i requires 0 <= i < |t| => TokenChar(t[i]))
  }

  /** Lower-case letters and dashes only. */
  predicate Plain(t: string) {
    forall i | 0 <= i < |t| :: 'a' <= t[i] <= 'z' || t[i] == '-'
  }

  /** A plain word is its own token, and trimming leaves it alone. */
  lemma {:induction false} PlainToken(t: string)
    requires Plain(t)
    ensures Token(t) == t && Trim(t) == t
  {
    hide Trim, Token;
    assert Tight(t);
    TrimCore("", t, "");
    assert "" + t + "" == t;
    hide IsSpace;
    assert forall i | 0 <= i < |t| :: TokenChar(t[i]) == t[i];
  }

  // ---------------------------------------------------------------- order

  /** Strings in the order `sort` uses. */
  predicate Less(a: string, b: string) {
    b != "" && (a == "" || a[0] < b[0] || (a[0] == b[0] && Less(a[1..], b[1..])))
  }

  lemma {:induction false} LessTotal(a: string, b: string)
    ensures Less(a, b) || a == b || Less(b, a)
    ensures Less(a, b) ==> a != b
  {
    if a != "" && b != "" && a[0] == b[0] {
      LessTotal(a[1..], b[1..]);
      assert a == [a[0]] + a[1..] && b == [b[0]] + b[1..];
    }
  }

  predicate Sorted(s: seq<string>) {
    forall i | 0 <= i < |s| - 1 :: Less(s[i], s[i + 1])
  }

  function Insert(x: string, s: seq<string>): seq<string> {
    if s == [] then [x]
    else if x == s[0] then s
    else if Less(x, s[0]) then [x] + s
    else [s[0]] + Insert(x, s[1..])
  }

  /** `sort` and then `dedup` */
  function SortDedup(s: seq<string>): seq<string> {
    if s == [] then [] else Insert(s[0], SortDedup(s[1..]))
  }

  lemma {:induction false} InsertSorted(x: string, s: seq<string>)
    requires Sorted(s)
    ensures Sorted(Insert(x, s)) && Insert(x, s) != []
    ensures Insert(x, s)[0] == x || (s != [] && Insert(x, s)[0] == s[0])
    ensures forall y :: y in Insert(x, s) <==> y == x || y in s
  {
    hide Less;
    if s != [] && x != s[0] && !Less(x, s[0]) {
      LessTotal(x, s[0]);
      assert Sorted(s[1..]);
      InsertSorted(x, s[1..]);
      var r := Insert(x, s[1..]);
      assert Less(s[0], r[0]);
      assert s == [s[0]] + s[1..];
    }
  }

  /** The result is strictly increasing and has the same words. */
  lemma {:induction false} SortDedupSorts(s: seq<string>)
    ensures Sorted(SortDedup(s)) && forall y :: y in SortDedup(s) <==> y in s
  {
    if s != [] {
      SortDedupSorts(s[1..]);
      InsertSorted(s[0], SortDedup(s[1..]));
      assert s == [s[0]] + s[1..];
    }
  }

  lemma {:induction false} SortedStays(s: seq<string>)
    requires Sorted(s)
    ensures SortDedup(s) == s
  {
    if s != [] {
      assert Sorted(s[1..]);
      SortedStays(s[1..]);
      if |s| > 1 { LessTotal(s[0], s[1]); }
      assert s == [s[0]] + s[1..];
    }
  }

  // ---------------------------------------------------------------- which spellings are one word

  predicate SameChar(a: char, b: char) {
    || LowerChar(a) == LowerChar(b)
    || ((a == '-' || a == '_') && (b == '-' || b == '_'))
  }

  /** Two spellings are one word exactly if they differ in case, dashes for underscores, and blanks around them. */
  lemma {:induction false} SameToken(a: string, b: string)
    ensures Token(a) == Token(b) <==>
      |Trim(a)| == |Trim(b)| && forall i | 0 <= i < |Trim(a)| :: SameChar(Trim(a)[i], Trim(b)[i])
  {
    hide Trim;
    var x, y := Trim(a), Trim(b);
    assert forall c, d :: TokenChar(c) == TokenChar(d) <==> SameChar(c, d);
    if Token(a) == Token(b) {
      forall i | 0 <= i < |x| ensures SameChar(x[i], y[i]) { assert Token(a)[i] == Token(b)[i]; }
    }
  }
}
