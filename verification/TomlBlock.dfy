/**
 The block MCPace writes: its lines, what the scanners see in it, and where
 its markers occur.
 */
module TomlBlock {
  import opened Text
  import opened Toml
  import opened TomlEdit
  import opened TomlFrame

  // ---------------------------------------------------------------- single lines

  predicate IsNewline(newline: string) {
    newline == "\n" || newline == "\r\n"
  }

  /** No quote and no comment sign. */
  predicate PlainText(w: string) {
    forall i | 0 <= i < |w| :: w[i] != '"' && w[i] != '\'' && w[i] != '#'
  }

  lemma {:induction false} PlainScan(w: string, rest: string)
    requires PlainText(w)
    ensures CommentIndex(w + rest, Plain) == |w| + CommentIndex(rest, Plain)
    ensures ScanTo(w + rest, Plain) == ScanTo(rest, Plain)
  {
    if w == "" {
      assert w + rest == rest;
    } else {
      assert (w + rest)[1..] == w[1..] + rest;
      PlainScan(w[1..], rest);
    }
  }

  /** Stripping keeps the first character of a line or leaves nothing. */
  lemma {:induction false} StripFirst(line: string)
    requires line != "" && !IsSpace(line[0])
    ensures TrimTomlLine(line) == "" || TrimTomlLine(line)[0] == line[0]
  {
    hide IsSpace, Trim, TrimEnd, CommentIndex;
    assert "" + line == line;
    TrimFirst("", line);
    var t := Trim(line);
    var i := CommentIndex(t, Plain);
    if i < |t| {
      TrimEndFacts(t[..i]);
      assert TrimEnd(t[..i]) != "" ==> TrimEnd(t[..i])[0] == t[..i][0];
    }
  }

  lemma {:induction false} NotHeader(line: string)
    requires line != "" && !IsSpace(line[0]) && line[0] != '['
    ensures !IsHeader(TrimTomlLine(line))
  {
    hide TrimTomlLine;
    StripFirst(line);
  }

  lemma {:induction false} LineWithNewline(x: string, newline: string)
    requires !HasNewline(x) && IsNewline(newline)
    ensures LineLen(x + newline) == |x + newline| && Complete(x + newline) && x + newline != ""
  {
    hide LineLen;
    LineLenPrefix(x, newline);
    NewlineIsLine(newline);
  }

  /** A line that does not start like a header adds no header. */
  lemma {:induction false} DropPlainLine(x: string, newline: string, rest: string, key: string)
    requires x != "" && !HasNewline(x) && IsNewline(newline)
    requires !IsSpace(x[0]) && x[0] != '['
    ensures Foreign(x + newline + rest, key) == Foreign(rest, key)
  {
    hide TrimTomlLine, Foreign, LineLen, IsSpace, IsHeader;
    LineWithNewline(x, newline);
    NotHeader(x + newline);
    ForeignDropLine(x + newline, rest, key);
  }

  // ---------------------------------------------------------------- the table header line

  lemma {:induction false} BareIsPlain(key: string)
    requires IsBareKey(key)
    ensures PlainText(key) && !HasNewline(key) && Tight(key)
  {
  }

  lemma {:induction false} HeaderScan(key: string)
    ensures var h := TableHeader(TableKey(key));
            && h != "" && Tight(h) && IsHeader(h) && IsOwn(h, key)
            && CommentIndex(h, Plain) == |h| && ScanTo(h, Plain) == Plain
  {
    var name := TableKey(key);
    var open := "[mcp_servers.";
    assert PlainText(open) && PlainText("]");
    assert TableHeader(name) == open + (name + "]");
    PlainScan(open, name + "]");
    PlainScan("]", "");
    assert "]" + "" == "]";
    if IsBareKey(key) {
      BareIsPlain(key);
      PlainScan(key, "]");
    } else {
      BasicStringScan(key, "]");
    }
  }

  lemma {:induction false} HeaderHasNoNewline(key: string)
    ensures !HasNewline(TableHeader(TableKey(key)))
  {
    assert !HasNewline("[mcp_servers.");
    if IsBareKey(key) { BareIsPlain(key); } else { EscapeNoNewline(key); }
  }

  lemma {:induction false} HeaderLine(key: string, newline: string)
    requires IsNewline(newline)
    ensures TrimTomlLine(TableHeader(TableKey(key)) + newline) == TableHeader(TableKey(key))
  {
    hide CommentIndex, ScanTo, TrimTomlLine, TableHeader, TableKey, IsOwn, Tight;
    var h := TableHeader(TableKey(key));
    HeaderScan(key);
    StripTrailer(h, "", "", newline);
    assert h + "" + "" + newline == h + newline;
  }

  lemma {:induction false} DropHeaderLine(key: string, newline: string, rest: string)
    requires IsNewline(newline)
    ensures Foreign(TableHeader(TableKey(key)) + newline + rest, key) == Foreign(rest, key)
  {
    hide TrimTomlLine, Foreign, LineLen, TableHeader, TableKey, HasNewline;
    var h := TableHeader(TableKey(key));
    HeaderScan(key);
    HeaderHasNoNewline(key);
    HeaderLine(key, newline);
    LineWithNewline(h, newline);
    ForeignDropLine(h + newline, rest, key);
  }

  // ---------------------------------------------------------------- the block as lines

  function UrlLine(url: string): string { "url = " + BasicString(url) }

  /** The lines between the two marker lines. */
  function Inner(key: string, url: string, newline: string): string {
    NOTE + newline + (TableHeader(TableKey(key)) + newline + (UrlLine(url) + newline
    + (ENABLED + newline + (TIMEOUT + newline))))
  }

  /** The text between the two markers. */
  function Body(key: string, url: string, newline: string): string {
    newline + Inner(key, url, newline)
  }

  lemma {:induction false} BlockIs(key: string, url: string, newline: string)
    ensures Block(key, url, newline) ==
            BeginMarker(key) + Body(key, url, newline) + EndMarker(key) + newline
  {
    var a, b, c, d := BeginMarker(key), NOTE, TableHeader(TableKey(key)), UrlLine(url);
    var n, e, f := newline, ENABLED, TIMEOUT;
    var m := EndMarker(key);
    assert Block(key, url, newline) == a + n + b + n + c + n + d + n + e + n + f + n + m + n by {
      assert a + n + b + n + c + n + "url = " + BasicString(url) == a + n + b + n + c + n + d;
    }
    Associate(a, n, b, c, d, e, f);
  }

  lemma {:induction false} Associate(a: string, n: string, b: string, c: string, d: string, e: string, f: string)
    ensures a + n + b + n + c + n + d + n + e + n + f + n ==
            a + (n + (b + n + (c + n + (d + n + (e + n + (f + n))))))
  {
    var t := e + n + (f + n);
    assert d + n + e + n + f + n == d + n + t;
    assert a + n + b + n + c + n + d + n + e + n + f + n == a + n + b + n + c + n + (d + n + t);
    var u := d + n + t;
    assert a + n + b + n + c + n + u == a + n + b + n + (c + n + u);
    var v := c + n + u;
    assert a + n + b + n + v == a + (n + (b + n + v));
  }

  lemma {:induction false} InnerForeign(key: string, url: string, newline: string)
    requires IsNewline(newline)
    ensures Foreign(Inner(key, url, newline), key) == []
    ensures Complete(Inner(key, url, newline))
  {
    hide Foreign, BasicString, TableHeader;
    var end := ENABLED + newline + (TIMEOUT + newline);
    FixedLines();
    EscapeNoNewline(url);
    ForeignEmpty(key);
    assert TIMEOUT + newline + "" == TIMEOUT + newline;
    DropPlainLine(TIMEOUT, newline, "", key);
    DropPlainLine(ENABLED, newline, TIMEOUT + newline, key);
    DropPlainLine(UrlLine(url), newline, end, key);
    DropHeaderLine(key, newline, UrlLine(url) + newline + end);
    DropPlainLine(NOTE, newline, TableHeader(TableKey(key)) + newline + (UrlLine(url) + newline + end), key);
    var inner := Inner(key, url, newline);
    assert inner[|inner| - 1] == newline[|newline| - 1];
  }

  lemma {:induction false} BodyForeign(key: string, url: string, newline: string)
    requires IsNewline(newline)
    ensures Foreign(Body(key, url, newline), key) == []
  {
    hide Foreign, Inner;
    InnerForeign(key, url, newline);
    BlankPadding(newline, key);
    ForeignConcat(newline, Inner(key, url, newline), key);
  }

  lemma {:induction false} FixedLines()
    ensures !HasNewline(NOTE) && !HasNewline(ENABLED) && !HasNewline(TIMEOUT) && !HasNewline("url = ")
    ensures NOTE != "" && NOTE[0] == '#' && PlainText(NOTE[1..])
    ensures forall c | c == '#' || c == 'e' || c == 's' || c == 'u' :: !IsSpace(c)
  {
    NoteText();
    OtherLines();
    LineConcat("#", NOTE_TEXT);
    assert NOTE[1..] == NOTE_TEXT;
    hide PlainText, HasNewline;
  }

  lemma {:induction false} NoteText()
    ensures !HasNewline(NOTE_TEXT) && PlainText(NOTE_TEXT)
  {
    NoteWords();
    hide PlainText, HasNewline;
    var a, b, c, d := " This block ", "is managed by ", "`mcpace advanced ", "client install`.";
    LineConcat(a, b);
    LineConcat(a + b, c);
    LineConcat(a + b + c, d);
    PlainJoin(a, b);
    PlainJoin(a + b, c);
    PlainJoin(a + b + c, d);
  }

  lemma {:induction false} NoteWords()
    ensures !HasNewline(" This block ") && !HasNewline("is managed by ")
    ensures !HasNewline("`mcpace advanced ") && !HasNewline("client install`.")
    ensures PlainText(" This block ") && PlainText("is managed by ")
    ensures PlainText("`mcpace advanced ") && PlainText("client install`.")
  {
  }

  lemma {:induction false} OtherLines()
    ensures !HasNewline(ENABLED) && !HasNewline(TIMEOUT) && !HasNewline("url = ")
    ensures forall c | c == '#' || c == 'e' || c == 's' || c == 'u' :: !IsSpace(c)
  {
  }

  lemma {:induction false} LineConcat(a: string, b: string)
    requires !HasNewline(a) && !HasNewline(b)
    ensures !HasNewline(a + b)
  {
  }

  lemma {:induction false} PlainJoin(a: string, b: string)
    requires PlainText(a) && PlainText(b)
    ensures PlainText(a + b)
  {
  }

  /** The whole block adds no foreign header and ends its last line. */
  lemma {:induction false} BlockForeign(key: string, url: string, newline: string)
    requires IsNewline(newline) && !HasNewline(key)
    ensures Complete(Block(key, url, newline)) && Foreign(Block(key, url, newline), key) == []
  {
    hide Foreign, Inner, Block, HasNewline, BeginMarker, EndMarker;
    var inner, last := Inner(key, url, newline), EndMarker(key) + newline;
    BlockIs(key, url, newline);
    InnerForeign(key, url, newline);
    MarkersHaveNoNewline(key);
    FixedLines();
    ForeignEmpty(key);
    assert last + "" == last;
    DropPlainLine(EndMarker(key), newline, "", key);
    ForeignConcat(inner, last, key);
    DropPlainLine(BeginMarker(key), newline, inner + last, key);
    var block := Block(key, url, newline);
    assert block == BeginMarker(key) + newline + (inner + last);
    assert block[|block| - 1] == newline[|newline| - 1];
  }
}
