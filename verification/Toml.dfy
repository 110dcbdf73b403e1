/**
 The TOML reading and printing rules of `src/config_edit.rs`: the quote-aware
 comment stripper, table headers, the basic-string printer and the string
 literal parser (a JSON string between double quotes, verbatim text between
 single quotes).
 */
module Toml {
  import opened Text

  // ---------------------------------------------------------------- comments

  /** Where the comment stripper is: `quote` and `escaped` of the source together. */
  datatype Scan = Plain | Basic | BasicEscaped | Literal

  function Next(st: Scan, c: char): Scan {
    match st
    case Plain => if c == '"' then Basic else if c == '\'' then Literal else Plain
    case Basic => if c == '\\' then BasicEscaped else if c == '"' then Plain else Basic
    case BasicEscaped => Basic
    case Literal => if c == '\'' then Plain else Literal
  }

  /** Offset of the first `#` outside quotes, or the length of `t`. */
  function CommentIndex(t: string, st: Scan): (n: nat)
    ensures n <= |t|
  {
    if t == "" || (st == Plain && t[0] == '#') then 0
    else 1 + CommentIndex(t[1..], Next(st, t[0]))
  }

  function ScanTo(t: string, st: Scan): Scan {
    if t == "" then st else ScanTo(t[1..], Next(st, t[0]))
  }

  function TrimTomlLine(line: string): string {
    var t := Trim(line);
    var i := CommentIndex(t, Plain);
    if i < |t| then TrimEnd(t[..i]) else t
  }

  /** The stripper of the source: one pass with a quote and an escape flag. */
  method StripTomlLine(line: string) returns (r: string)
    ensures r == TrimTomlLine(line)
  {
    var t := Trim(line);
    var quote: Option<char> := None;
    var escaped := false;
    ghost var st := Plain;
    var i := 0;
    while i < |t|
      invariant 0 <= i <= |t|
      invariant CommentIndex(t, Plain) == i + CommentIndex(t[i..], st)
      invariant st == (if quote == None then Plain
                       else if quote == Some('\'') then Literal
                       else if escaped then BasicEscaped else Basic)
      invariant escaped ==> quote == Some('"')
      invariant quote.Some? ==> quote.value == '"' || quote.value == '\''
    {
      var ch := t[i];
      assert t[i..][1..] == t[i + 1..];
      st := Next(st, ch);
      match quote {
        case Some(q) =>
          if q == '"' {
            if escaped {
              escaped := false;
            } else if ch == '\\' {
              escaped := true;
            } else if ch == '"' {
              quote := None;
            }
          } else {
            if ch == '\'' {
              quote := None;
            }
          }
        case None =>
          if ch == '"' || ch == '\'' {
            quote := Some(ch);
          } else if ch == '#' {
            return TrimEnd(t[..i]);
          }
      }
      i := i + 1;
    }
    return t;
  }

  predicate IsHeader(trimmed: string) {
    "[" <= trimmed && trimmed[|trimmed| - 1] == ']'
  }

  /** A comment-only line strips to nothing. */
  lemma {:induction false} CommentLine(before: string, comment: string, after: string)
    requires Blank(before) && Blank(after)
    requires "#" <= comment
    ensures TrimTomlLine(before + comment + after) == ""
  {
    var rest := comment + after;
    assert rest[0] == comment[0];
    TrimFirst(before, rest);
    assert before + comment + after == before + rest;
    HashFirst(before + rest);
  }

  lemma {:induction false} HashFirst(line: string)
    requires Trim(line) != "" && Trim(line)[0] == '#'
    ensures TrimTomlLine(line) == ""
  {
    assert Trim(line)[..0] == "";
  }

  lemma {:induction false} BlankLine(s: string)
    requires Blank(s)
    ensures TrimTomlLine(s) == ""
  {
    TrimBlank(s);
  }

  lemma {:induction false} CommentIndexConcat(a: string, b: string, st: Scan)
    requires CommentIndex(a, st) == |a|
    ensures CommentIndex(a + b, st) == |a| + CommentIndex(b, ScanTo(a, st))
  {
    if a == "" {
      assert a + b == b;
    } else {
      assert (a + b)[1..] == a[1..] + b;
      CommentIndexConcat(a[1..], b, Next(st, a[0]));
    }
  }

  /**
   A line made of a tight body the scanner crosses without seeing a comment,
   then blanks and perhaps a comment, strips to the body.
   */
  lemma {:induction false} StripTrailer(body: string, gap: string, comment: string, ending: string)
    requires Tight(body) && body != ""
    requires CommentIndex(body, Plain) == |body| && ScanTo(body, Plain) == Plain
    requires Blank(gap) && Blank(ending)
    requires comment == "" || "#" <= comment
    ensures TrimTomlLine(body + gap + comment + ending) == body
  {
    var line := body + gap + comment + ending;
    if comment == "" {
      assert line == "" + body + (gap + ending);
      TrimCore("", body, gap + ending);
    } else {
      var rest := comment + ending;
      assert rest[0] == '#';
      TrimEndKeepsFirst(rest);
      TrimEndFacts(rest);
      var tail := TrimEnd(rest);
      var t := body + gap + tail;
      assert Trim(line) == t by {
        assert rest == tail + rest[|tail|..];
        assert line == "" + t + rest[|tail|..];
        assert t[0] == body[0] && t[|t| - 1] == tail[|tail| - 1];
        TrimCore("", t, rest[|tail|..]);
      }
      StripBody(body, gap, tail);
    }
  }

  lemma {:induction false} StripBody(body: string, gap: string, tail: string)
    requires Tight(body) && body != "" && Blank(gap) && "#" <= tail
    requires CommentIndex(body, Plain) == |body| && ScanTo(body, Plain) == Plain
    ensures CommentIndex(body + gap + tail, Plain) == |body| + |gap|
    ensures TrimEnd((body + gap + tail)[..|body| + |gap|]) == body
  {
    BlankScan(gap, tail);
    CommentIndexConcat(body, gap + tail, Plain);
    assert body + gap + tail == body + (gap + tail);
    assert (body + gap + tail)[..|body| + |gap|] == body + gap;
    TrimEndBlank(body, gap);
  }

  lemma {:induction false} BlankScan(w: string, b: string)
    requires Blank(w)
    ensures CommentIndex(w + b, Plain) == |w| + CommentIndex(b, Plain)
  {
    if w == "" {
      assert w + b == b;
    } else {
      assert (w + b)[1..] == w[1..] + b;
      BlankScan(w[1..], b);
    }
  }

  // ---------------------------------------------------------------- printing strings

  function EscapeChar(c: char): (r: string)
    ensures r != "" && (r[0] == '\\' || r == [c])
  {
    match c
    case '\\' => "\\\\"
    case '"' => "\\\""
    case '\n' => "\\n"
    case '\r' => "\\r"
    case '\t' => "\\t"
    case _ => [c]
  }

  function Escape(v: string): string {
    if v == "" then "" else EscapeChar(v[0]) + Escape(v[1..])
  }

  function BasicString(v: string): string {
    "\"" + Escape(v) + "\""
  }

  lemma {:induction false} EscapeConcat(a: string, b: string)
    ensures Escape(a + b) == Escape(a) + Escape(b)
  {
    if a == "" {
      assert a + b == b;
    } else {
      assert (a + b)[1..] == a[1..] + b;
      EscapeConcat(a[1..], b);
    }
  }

  /** The printer of the source: one push per character. */
  method PrintBasicString(v: string) returns (escaped: string)
    ensures escaped == BasicString(v)
  {
    escaped := "\"";
    for i := 0 to |v|
      invariant escaped == "\"" + Escape(v[..i])
    {
      EscapeConcat(v[..i], [v[i]]);
      assert v[..i] + [v[i]] == v[..i + 1];
      assert Escape([v[i]]) == EscapeChar(v[i]);
      match v[i]
      case '\\' => escaped := escaped + "\\\\";
      case '"' => escaped := escaped + "\\\"";
      case '\n' => escaped := escaped + "\\n";
      case '\r' => escaped := escaped + "\\r";
      case '\t' => escaped := escaped + "\\t";
      case _ => escaped := escaped + [v[i]];
    }
    assert v[..|v|] == v;
    escaped := escaped + "\"";
  }

  lemma {:induction false} EscapeNoNewline(v: string)
    ensures !HasNewline(Escape(v)) && !HasNewline(BasicString(v))
  {
    if v != "" {
      EscapeNoNewline(v[1..]);
    }
  }

  /** Inside a basic string, one printed character is crossed without leaving the string. */
  lemma {:induction false} EscapeCharScan(c: char, rest: string)
    ensures CommentIndex(EscapeChar(c) + rest, Basic) == |EscapeChar(c)| + CommentIndex(rest, Basic)
    ensures ScanTo(EscapeChar(c) + rest, Basic) == ScanTo(rest, Basic)
  {
    var e := EscapeChar(c);
    var t := e + rest;
    if |e| == 1 {
      assert t[1..] == rest;
    } else {
      assert t[1..] == e[1..] + rest && t[1..][1..] == rest;
    }
  }

  /** The comment stripper crosses a printed string without seeing a comment. */
  lemma {:induction false} EscapeScan(v: string, rest: string)
    ensures CommentIndex(Escape(v) + "\"" + rest, Basic) == |Escape(v)| + 1 + CommentIndex(rest, Plain)
    ensures ScanTo(Escape(v) + "\"" + rest, Basic) == ScanTo(rest, Plain)
  {
    if v == "" {
      assert (Escape(v) + "\"" + rest)[1..] == rest;
    } else {
      EscapeScan(v[1..], rest);
      var tail := Escape(v[1..]) + "\"" + rest;
      EscapeCharScan(v[0], tail);
      assert Escape(v) + "\"" + rest == EscapeChar(v[0]) + tail;
    }
  }

  lemma {:induction false} BasicStringScan(v: string, rest: string)
    ensures CommentIndex(BasicString(v) + rest, Plain) == |BasicString(v)| + CommentIndex(rest, Plain)
    ensures ScanTo(BasicString(v) + rest, Plain) == ScanTo(rest, Plain)
  {
    EscapeScan(v, rest);
    assert (BasicString(v) + rest)[1..] == Escape(v) + "\"" + rest;
  }

  // ---------------------------------------------------------------- parsing strings

  /** Offset of the first unescaped double quote of `t`. */
  function QuotedEnd(t: string, escaped: bool): (r: Option<nat>)
    ensures r.Some? ==> r.value < |t|
  {
    if t == "" then None
    else if !escaped && t[0] == '"' then Some(0)
    else match QuotedEnd(t[1..], !escaped && t[0] == '\\')
      case Some(k) => Some(k + 1)
      case None => None
  }

  function HexDigit(c: char): Option<nat> {
    if '0' <= c <= '9' then Some(c as int - '0' as int)
    else if 'a' <= c <= 'f' then Some(c as int - 'a' as int + 10)
    else if 'A' <= c <= 'F' then Some(c as int - 'A' as int + 10)
    else None
  }

  /** The four hexadecimal digits after `\u`. */
  function Hex4(t: string): (r: Option<nat>)
    ensures r.Some? ==> |t| >= 4 && r.value < 0x1_0000
  {
    if |t| < 4 then None
    else match (HexDigit(t[0]), HexDigit(t[1]), HexDigit(t[2]), HexDigit(t[3]))
      case (Some(a), Some(b), Some(c), Some(d)) =>
        if a < 16 && b < 16 && c < 16 && d < 16 then Some(a * 4096 + b * 256 + c * 16 + d) else None
      case _ => None
  }

  function SimpleEscape(c: char): Option<char> {
    match c
    case '"' => Some('"')
    case '\\' => Some('\\')
    case '/' => Some('/')
    case 'b' => Some(8 as char)
    case 'f' => Some(12 as char)
    case 'n' => Some('\n')
    case 'r' => Some('\r')
    case 't' => Some('\t')
    case _ => None
  }

  /** One decoded character and how much of `t` it took; `t` starts with a backslash. */
  function DecodeEscape(t: string): (r: Option<(char, nat)>)
    requires "\\" <= t
    ensures r.Some? ==> 0 < r.value.1 <= |t|
  {
    if |t| < 2 then None
    else if t[1] != 'u' then
      match SimpleEscape(t[1])
      case Some(c) => Some((c, 2))
      case None => None
    else match Hex4(t[2..])
      case None => None
      case Some(n) =>
        if n < 0xD800 || 0xE000 <= n then Some((n as char, 6))
        else if n < 0xDC00 && |t| >= 12 && t[6] == '\\' && t[7] == 'u' then
          match Hex4(t[8..])
          case Some(m) =>
            if 0xDC00 <= m < 0xE000 then
              Some(((0x1_0000 + (n - 0xD800) * 0x400 + (m - 0xDC00)) as char, 12))
            else None
          case None => None
        else None
  }

  /** The text between the quotes of a JSON string, decoded; None when it is not one. */
  function JsonUnescape(t: string): (r: Option<string>) {
    if t == "" then Some("")
    else if t[0] == '"' || (t[0] as int) < 0x20 then None
    else if t[0] != '\\' then
      match JsonUnescape(t[1..])
      case Some(rest) => Some([t[0]] + rest)
      case None => None
    else match DecodeEscape(t)
      case None => None
      case Some((c, n)) =>
        match JsonUnescape(t[n..])
        case Some(rest) => Some([c] + rest)
        case None => None
  }

  /** `parse_toml_string_literal`: text after the closing quote is ignored. */
  function ParseLiteral(value: string): (r: Option<string>) {
    if "\"" <= value then
      match QuotedEnd(value[1..], false)
      case Some(k) => JsonUnescape(value[1..k + 1])
      case None => None
    else if "'" <= value then
      match Find(value[1..], "'")
      case Some(k) => Some(value[1..k + 1])
      case None => None
    else None
  }

  /** No control characters but the three the printer escapes. */
  predicate Printable(v: string) {
    forall i | 0 <= i < |v| :: PrintableChar(v[i])
  }

  predicate PrintableChar(c: char) {
    c as int >= 0x20 || c == '\n' || c == '\r' || c == '\t'
  }

  lemma {:induction false} QuotedEndEscape(v: string, rest: string)
    ensures QuotedEnd(Escape(v) + "\"" + rest, false) == Some(|Escape(v)|)
  {
    var t := Escape(v) + "\"" + rest;
    if v != "" {
      var e, tail := EscapeChar(v[0]), Escape(v[1..]) + "\"" + rest;
      assert t == e + tail;
      QuotedEndEscape(v[1..], rest);
      if |e| == 1 {
        assert t[1..] == tail;
      } else {
        assert t[1..] == e[1..] + tail && t[1..][1..] == tail;
      }
    }
  }

  /** Decoding one printed character gives it back, or fails if it was printed raw. */
  lemma {:induction false} UnescapeCons(c: char, rest: string)
    ensures JsonUnescape(EscapeChar(c) + rest) ==
            if PrintableChar(c) && JsonUnescape(rest).Some? then Some([c] + JsonUnescape(rest).value) else None
  {
    var e := EscapeChar(c);
    var t := e + rest;
    if e[0] == '\\' {
      assert t[1] == e[1] && t[2..] == rest;
      assert DecodeEscape(t) == Some((c, 2));
    } else {
      assert t[0] == c && t[1..] == rest;
    }
  }

  lemma {:induction false} UnescapeEscape(v: string)
    ensures JsonUnescape(Escape(v)) == if Printable(v) then Some(v) else None
  {
    hide PrintableChar;
    if v != "" {
      UnescapeEscape(v[1..]);
      UnescapeCons(v[0], Escape(v[1..]));
      assert v == [v[0]] + v[1..];
    }
  }

  /**
   Printing then parsing returns the string, whatever follows the closing
   quote, exactly when the string has no control character the printer leaves raw.
   */
  lemma {:induction false} LiteralRoundTrip(v: string, rest: string)
    ensures ParseLiteral(BasicString(v) + rest) == if Printable(v) then Some(v) else None
  {
    var value := BasicString(v) + rest;
    assert value[1..] == Escape(v) + "\"" + rest;
    QuotedEndEscape(v, rest);
    assert value[1..|Escape(v)| + 1] == Escape(v);
    UnescapeEscape(v);
  }

  lemma {:induction false} NoQuoteIn(v: string, rest: string, j: nat)
    requires '\'' !in v && j < |v|
    ensures !At(v + rest, "'", j)
  {
    AtChar(v + rest, "'", j, 0);
    assert (v + rest)[j] == v[j] && v[j] in v;
  }

  lemma {:induction false} SingleHead(t: string)
    ensures "'" <= "'" + t && !("\"" <= "'" + t) && ("'" + t)[1..] == t
  {
    assert ("'" + t)[0] == '\'';
  }

  /** A literal string in single quotes is taken as it stands, whatever follows, and needs its closing quote. */
  lemma {:induction false} SingleQuoted(v: string, rest: string)
    requires '\'' !in v
    ensures ParseLiteral("'" + (v + ("'" + rest))) == Some(v) && ParseLiteral("'" + v) == None
  {
    hide QuotedEnd, JsonUnescape, At;
    var t, n := v + ("'" + rest), |v|;
    SingleHead(t);
    SingleHead(v);
    forall j: nat | j < n ensures !At(t, "'", j) { NoQuoteIn(v, "'" + rest, j); }
    assert At(t, "'", n) by { QuoteAt(v, rest); }
    FindIs(t, "'", n);
    assert ("'" + t)[1..n + 1] == v;
    forall j: nat ensures !At(v, "'", j) {
      AtChar(v, "'", j, 0);
      assert j < n ==> v[j] in v;
    }
  }

  lemma {:induction false} QuoteAt(v: string, rest: string)
    ensures At(v + ("'" + rest), "'", |v|)
  {
  }

  // ---------------------------------------------------------------- escapes

  /** The escapes of section 7 of RFC 8259 and what they stand for. */
  const ESCAPES: map<char, char> :=
    map['"' := '"', '\\' := '\\', '/' := '/', 'b' := 8 as char, 'f' := 12 as char, 'n' := '\n', 'r' := '\r',
        't' := '\t']

  function Then(c: char, rest: Option<string>): Option<string> {
    if rest.Some? then Some([c] + rest.value) else None
  }

  lemma {:induction false} EscapeDecodes(e: char, rest: string)
    requires e != 'u'
    ensures JsonUnescape("\\" + [e] + rest) == if e in ESCAPES then Then(ESCAPES[e], JsonUnescape(rest)) else None
  {
    hide Hex4;
    var t := "\\" + [e] + rest;
    assert t[0] == '\\' && t[1] == e && t[2..] == rest;
  }

  function HexChar(d: nat): char
    requires d < 16
  {
    if d < 10 then (d + '0' as int) as char else (d - 10 + 'a' as int) as char
  }

  /** Four hexadecimal digits. */
  function HexText(n: nat): string
    requires n < 0x1_0000
  {
    [HexChar(n / 0x1000), HexChar(n / 0x100 % 16), HexChar(n / 16 % 16), HexChar(n % 16)]
  }

  lemma {:induction false} HexDigits(n: nat)
    requires n < 0x1_0000
    ensures n == n / 0x1000 * 4096 + n / 0x100 % 16 * 256 + n / 16 % 16 * 16 + n % 16
  {
    assert n / 16 / 16 == n / 0x100 && n / 0x100 / 16 == n / 0x1000;
  }

  lemma {:induction false} HexReads(n: nat, rest: string)
    requires n < 0x1_0000
    ensures Hex4(HexText(n) + rest) == Some(n)
  {
    HexDigits(n);
    var t := HexText(n) + rest;
    assert t[0] == HexChar(n / 0x1000) && t[1] == HexChar(n / 0x100 % 16) && t[2] == HexChar(n / 16 % 16)
        && t[3] == HexChar(n % 16);
  }

  /** A `\\u` escape stands for its character. */
  lemma {:induction false} UnicodeDecodes(n: nat, rest: string)
    requires n < 0xD800 || 0xE000 <= n < 0x1_0000
    ensures JsonUnescape("\\u" + HexText(n) + rest) == Then(n as char, JsonUnescape(rest))
  {
    hide HexText, Hex4;
    var t := "\\u" + HexText(n) + rest;
    HexReads(n, rest);
    assert t[0] == '\\' && t[1] == 'u' && t[2..] == HexText(n) + rest;
    HexLength(n);
    assert t[6..] == rest;
  }

  lemma {:induction false} HexLength(n: nat)
    requires n < 0x1_0000
    ensures |HexText(n)| == 4
  {
  }

  /** Two surrogates stand for one character; half of a pair stands for none. */
  lemma {:induction false} SurrogatesDecode(high: nat, low: nat, rest: string)
    requires 0xD800 <= high < 0xDC00 <= low < 0xE000
    ensures JsonUnescape("\\u" + HexText(high) + ("\\u" + HexText(low) + rest)) ==
      Then((0x1_0000 + (high - 0xD800) * 0x400 + (low - 0xDC00)) as char, JsonUnescape(rest))
    ensures JsonUnescape("\\u" + HexText(low) + rest) == None
  {
    hide HexText, Hex4;
    HexLength(high);
    HexLength(low);
    var tail := "\\u" + HexText(low) + rest;
    var t := "\\u" + HexText(high) + tail;
    HexReads(high, tail);
    HexReads(low, rest);
    assert t[0] == '\\' && t[1] == 'u' && t[2..] == HexText(high) + tail;
    assert t[6] == '\\' && t[7] == 'u' && t[8..] == HexText(low) + rest && t[12..] == rest;
    assert tail[0] == '\\' && tail[1] == 'u' && tail[2..] == HexText(low) + rest;
  }
}
