/**
 What an installed config tells the client: a reader of the whole text, table by
 table and assignment by assignment, that knows nothing of blocks and markers.
 */
module TomlReads {
  import opened Text
  import opened Toml
  import opened TomlEdit
  import opened TomlFrame
  import opened TomlBlock
  import opened TomlConverge
  import opened TomlSecond
  import opened TomlInstall
  import opened CodexConfig

  // ---------------------------------------------------------------- the reader

  /** One `name = value` line, the value as it is written. */
  datatype Setting = Setting(name: string, value: string)

  /** A table `[mcp_servers.name]` and its settings in order. */
  datatype Server = Server(name: string, settings: seq<Setting>)

  /** The lines of a text, stripped. */
  function Lines(t: string): seq<string> {
    if t == "" then [] else [FirstLine(t)] + Lines(Rest(t))
  }

  function SettingOf(line: string): seq<Setting> {
    match Find(line, "=")
    case None => []
    case Some(i) => [Setting(Trim(line[..i]), Trim(line[i + 1..]))]
  }

  /** The settings up to the next table header. */
  function Settings(lines: seq<string>): seq<Setting> {
    if lines == [] || IsHeader(lines[0]) then [] else SettingOf(lines[0]) + Settings(lines[1..])
  }

  function ServerOf(line: string, rest: seq<string>): seq<Server> {
    if IsHeader(line) && ParseTableName(line).Some? then [Server(ParseTableName(line).value, Settings(rest))] else []
  }

  /** Every MCP server table, in order. */
  function Servers(lines: seq<string>): seq<Server> {
    if lines == [] then [] else ServerOf(lines[0], lines[1..]) + Servers(lines[1..])
  }

  // ---------------------------------------------------------------- texts of whole lines

  lemma {:induction false} LinesConcat(a: string, b: string)
    requires Complete(a)
    ensures Lines(a + b) == Lines(a) + Lines(b)
    decreases |a|
  {
    hide FirstLine, Rest, Complete;
    if a == "" {
      assert a + b == b;
    } else {
      FirstLineConcat(a, b);
      RestShorter(a);
      LinesConcat(Rest(a), b);
    }
  }

  lemma {:induction false} RestShorter(a: string)
    requires a != ""
    ensures |Rest(a)| < |a|
  {
  }

  lemma {:induction false} SettingsConcat(a: seq<string>, b: seq<string>)
    requires Settings(b) == []
    ensures Settings(a + b) == Settings(a)
  {
    hide IsHeader, SettingOf;
    if a == [] {
      assert a + b == b;
    } else {
      assert (a + b)[1..] == a[1..] + b;
      SettingsConcat(a[1..], b);
    }
  }

  /** Lines that start with a table change nothing in what precedes them. */
  lemma {:induction false} ServersConcat(a: seq<string>, b: seq<string>)
    requires Settings(b) == []
    ensures Servers(a + b) == Servers(a) + Servers(b)
  {
    hide IsHeader, Settings, ParseTableName;
    if a == [] {
      assert a + b == b;
    } else {
      assert (a + b)[1..] == a[1..] + b;
      SettingsConcat(a[1..], b);
      ServersConcat(a[1..], b);
    }
  }

  /** One line in front of others. */
  lemma {:induction false} LineAhead(line: string, rest: seq<string>)
    ensures Settings([line] + rest) == if IsHeader(line) then [] else SettingOf(line) + Settings(rest)
    ensures Servers([line] + rest) == ServerOf(line, rest) + Servers(rest)
  {
    hide IsHeader, SettingOf, ServerOf;
    assert ([line] + rest)[1..] == rest;
  }

  lemma {:induction false} BlankAhead(rest: seq<string>)
    ensures Settings([""] + rest) == Settings(rest) && Servers([""] + rest) == Servers(rest)
  {
    hide Settings, Servers;
    LineAhead("", rest);
  }

  // ---------------------------------------------------------------- single lines

  lemma {:induction false} LineRead(line: string, newline: string)
    requires !HasNewline(line) && IsNewline(newline)
    ensures Complete(line + newline) && Lines(line + newline) == [TrimTomlLine(line + newline)]
  {
    hide TrimTomlLine, LineLen;
    LineWithNewline(line, newline);
    var t := line + newline;
    assert t[..|t|] == t && Rest(t) == "";
  }

  lemma {:induction false} CommentRead(line: string, newline: string)
    requires "#" <= line && !HasNewline(line) && IsNewline(newline)
    ensures Complete(line + newline) && Lines(line + newline) == [""]
  {
    hide TrimTomlLine, Lines;
    CommentLine("", line, newline);
    assert "" + line + newline == line + newline;
    LineRead(line, newline);
  }

  lemma {:induction false} HeaderRead(key: string, newline: string)
    requires IsNewline(newline)
    ensures var h := TableHeader(TableKey(key));
      Complete(h + newline) && Lines(h + newline) == [h] && IsHeader(h) && IsOwn(h, key)
  {
    hide TrimTomlLine, Lines, TableHeader, CommentIndex, ScanTo, IsOwn, IsHeader;
    HeaderScan(key);
    HeaderHasNoNewline(key);
    HeaderLine(key, newline);
    LineRead(TableHeader(TableKey(key)), newline);
  }

  /** A name and a value that an assignment line can hold. */
  ghost predicate Assignable(name: string, value: string) {
    && name != "" && Tight(name) && PlainText(name) && !HasNewline(name) && '=' !in name && name[0] != '['
    && value != "" && Tight(value) && !HasNewline(value)
    && CommentIndex(value, Plain) == |value| && ScanTo(value, Plain) == Plain
  }

  lemma {:induction false} AssignmentLine(name: string, value: string, newline: string)
    requires Assignable(name, value) && IsNewline(newline)
    ensures var line := name + " = " + value;
      !HasNewline(line) && TrimTomlLine(line + newline) == line && !IsHeader(line)
  {
    hide CommentIndex, ScanTo, TrimTomlLine;
    var left := name + " = ";
    var line := left + value;
    PlainScan(left, value);
    StripTrailer(line, "", "", newline);
    assert line + "" + "" + newline == line + newline;
    assert line[0] == name[0];
  }

  lemma {:induction false} AssignmentSplit(name: string, value: string)
    requires Assignable(name, value)
    ensures SettingOf(name + " = " + value) == [Setting(name, value)]
  {
    hide Trim, CommentIndex, ScanTo, HasNewline, PlainText;
    var line, n := name + " = " + value, |name| + 1;
    forall j: nat | j < n ensures !At(line, "=", j) {
      AtChar(line, "=", j, 0);
      assert line[j] == (name + " ")[j];
      assert j < |name| ==> name[j] in name;
    }
    assert At(line, "=", n);
    FindIs(line, "=", n);
    TrimCore("", name, " ");
    assert "" + name + " " == line[..n];
    TrimCore(" ", value, "");
    assert " " + value + "" == line[n + 1..];
  }

  lemma {:induction false} AssignmentRead(name: string, value: string, newline: string)
    requires Assignable(name, value) && IsNewline(newline)
    ensures var line := name + " = " + value;
      && Complete(line + newline) && Lines(line + newline) == [line]
      && SettingOf(line) == [Setting(name, value)] && !IsHeader(line)
  {
    hide Assignable, TrimTomlLine, Lines, SettingOf, IsHeader;
    AssignmentLine(name, value, newline);
    AssignmentSplit(name, value);
    LineRead(name + " = " + value, newline);
  }

  lemma {:induction false} PlainAssignable(name: string, value: string)
    requires name != "" && Tight(name) && PlainText(name) && !HasNewline(name) && '=' !in name && name[0] != '['
    requires value != "" && Tight(value) && !HasNewline(value) && PlainText(value)
    ensures Assignable(name, value)
  {
    hide CommentIndex, ScanTo, PlainText, Tight;
    PlainScan(value, "");
    assert value + "" == value;
    ScanOfNothing();
  }

  // ---------------------------------------------------------------- the block

  /** What a block with this URL is meant to say. */
  function Meant(url: string): seq<Setting> {
    [Setting("url", BasicString(url)), Setting("enabled", "true"), Setting("startup_timeout_sec", "20")]
  }

  lemma {:induction false} UrlAssignable(url: string)
    ensures Assignable("url", BasicString(url))
  {
    hide CommentIndex, ScanTo, Escape;
    EscapeNoNewline(url);
    BasicStringScan(url, "");
    assert BasicString(url) + "" == BasicString(url);
    ScanOfNothing();
  }

  lemma {:induction false} FixedAssignable()
    ensures Assignable("enabled", "true") && Assignable("startup_timeout_sec", "20")
  {
    PlainAssignable("enabled", "true");
    PlainAssignable("startup_timeout_sec", "20");
  }

  /** The lines of a block, stripped: its comments are gone. */
  function BlockText(key: string, url: string): seq<string> {
    ["", "", TableHeader(TableKey(key)), UrlLine(url), ENABLED, TIMEOUT, ""]
  }

  lemma {:induction false} FixedRead(newline: string)
    requires IsNewline(newline)
    ensures forall line | line in [ENABLED, TIMEOUT] ::
      Complete(line + newline) && Lines(line + newline) == [line] && !IsHeader(line)
    ensures SettingOf(ENABLED) == [Setting("enabled", "true")]
    ensures SettingOf(TIMEOUT) == [Setting("startup_timeout_sec", "20")]
  {
    hide Lines, SettingOf, IsHeader, Assignable;
    FixedAssignable();
    AssignmentRead("enabled", "true", newline);
    assert "enabled" + " = " + "true" == ENABLED;
    AssignmentRead("startup_timeout_sec", "20", newline);
    assert "startup_timeout_sec" + " = " + "20" == TIMEOUT;
  }

  lemma {:induction false} UrlRead(url: string, newline: string)
    requires IsNewline(newline)
    ensures Complete(UrlLine(url) + newline) && Lines(UrlLine(url) + newline) == [UrlLine(url)]
    ensures !IsHeader(UrlLine(url)) && SettingOf(UrlLine(url)) == [Setting("url", BasicString(url))]
  {
    hide Lines, SettingOf, IsHeader, Assignable, BasicString;
    UrlAssignable(url);
    AssignmentRead("url", BasicString(url), newline);
    assert "url" + " = " + BasicString(url) == UrlLine(url);
  }

  /** A block and any text after it, line by line. */
  lemma {:induction false} BlockLines(key: string, url: string, newline: string, tail: string)
    requires IsNewline(newline) && !HasNewline(key)
    ensures Lines(Block(key, url, newline) + tail) == BlockText(key, url) + Lines(tail)
  {
    hide Block, Lines, HasNewline, BeginMarker, EndMarker, TableHeader, UrlLine, IsHeader, IsOwn, SettingOf, Complete;
    MarkersHaveNoNewline(key);
    FixedLines();
    BlockRegroup(key, url, newline, tail);
    CommentRead(BeginMarker(key), newline);
    CommentRead(NOTE, newline);
    HeaderRead(key, newline);
    UrlRead(url, newline);
    FixedRead(newline);
    CommentRead(EndMarker(key), newline);
    SevenLines(BeginMarker(key) + newline, NOTE + newline, TableHeader(TableKey(key)) + newline, UrlLine(url) + newline,
               ENABLED + newline, TIMEOUT + newline, EndMarker(key) + newline, tail);
  }

  lemma {:induction false} SevenLines(
    a: string, b: string, c: string, d: string, e: string, f: string, g: string, tail: string)
    requires forall x | x in [a, b, c, d, e, f, g] :: Complete(x)
    ensures Lines(a + (b + (c + (d + (e + (f + (g + tail))))))) ==
      Lines(a) + Lines(b) + Lines(c) + Lines(d) + Lines(e) + Lines(f) + Lines(g) + Lines(tail)
  {
    hide Lines, Complete;
    assert forall x | x in [a, b, c, d, e, f, g] :: Complete(x);
    LinesConcat(g, tail);
    LinesConcat(f, g + tail);
    LinesConcat(e, f + (g + tail));
    LinesConcat(d, e + (f + (g + tail)));
    LinesConcat(c, d + (e + (f + (g + tail))));
    LinesConcat(b, c + (d + (e + (f + (g + tail)))));
    LinesConcat(a, b + (c + (d + (e + (f + (g + tail))))));
  }

  lemma {:induction false} BlockRegroup(key: string, url: string, newline: string, tail: string)
    ensures Block(key, url, newline) + tail ==
      BeginMarker(key) + newline + (NOTE + newline + (TableHeader(TableKey(key)) + newline
      + (UrlLine(url) + newline + (ENABLED + newline + (TIMEOUT + newline + (EndMarker(key) + newline + tail))))))
  {
    hide Block, BeginMarker, EndMarker, TableHeader, UrlLine;
    BlockIs(key, url, newline);
    var b, m, n := BeginMarker(key), EndMarker(key), newline;
    LinesRegroup(b, n, NOTE, TableHeader(TableKey(key)), UrlLine(url), ENABLED, TIMEOUT, m, tail);
  }

  lemma {:induction false} LinesRegroup(
    b: string, n: string, c: string, h: string, u: string, e: string, t: string, m: string, tail: string)
    ensures b + (n + (c + n + (h + n + (u + n + (e + n + (t + n)))))) + m + n + tail ==
      b + n + (c + n + (h + n + (u + n + (e + n + (t + n + (m + n + tail))))))
  {
    var z := m + n + tail;
    var x5 := t + n;
    var x4 := e + n + x5;
    var x3 := u + n + x4;
    var x2 := h + n + x3;
    var x1 := c + n + x2;
    assert b + (n + x1) + m + n + tail == b + n + (x1 + z);
    assert x1 + z == c + n + (x2 + z);
    assert x2 + z == h + n + (x3 + z);
    assert x3 + z == u + n + (x4 + z);
    assert x4 + z == e + n + (x5 + z);
    assert x5 + z == t + n + z;
  }

  /** A block reads as one server, with what follows it up to the next header. */
  lemma {:induction false} BlockRead(key: string, url: string, tail: seq<string>)
    ensures var lines := BlockText(key, url) + tail;
      && Settings(lines) == []
      && Servers(lines) == ServersOf(key, Meant(url) + Settings(tail)) + Servers(tail)
  {
    hide Settings, Servers, TableHeader, UrlLine, ParseTableName, IsHeader, SettingOf, Lines, Complete, IsOwn;
    var h, u := TableHeader(TableKey(key)), UrlLine(url);
    HeaderRead(key, "\n");
    NameRead(key);
    var x4 := [""] + tail;
    var x3 := [TIMEOUT] + x4;
    var x2 := [ENABLED] + x3;
    var x1 := [u] + x2;
    SettingsRead(url, tail);
    LineAhead(h, x1);
    BlankAhead([h] + x1);
    BlankAhead([""] + ([h] + x1));
    assert BlockText(key, url) + tail == [""] + ([""] + ([h] + x1));
  }

  lemma {:induction false} SettingsRead(url: string, tail: seq<string>)
    ensures var lines := [UrlLine(url)] + ([ENABLED] + ([TIMEOUT] + ([""] + tail)));
      Settings(lines) == Meant(url) + Settings(tail) && Servers(lines) == Servers(tail)
  {
    hide Settings, Servers, UrlLine, ParseTableName, IsHeader, SettingOf, Lines, Complete, BasicString;
    UrlRead(url, "\n");
    FixedRead("\n");
    BlankAhead(tail);
    var x3 := [TIMEOUT] + ([""] + tail);
    var x2 := [ENABLED] + x3;
    LineAhead(TIMEOUT, [""] + tail);
    LineAhead(ENABLED, x3);
    LineAhead(UrlLine(url), x2);
  }

  /** The server of a table header MCPace writes for a key, if the name can be read back. */
  function ServersOf(key: string, settings: seq<Setting>): seq<Server> {
    if Printable(key) then [Server(key, settings)] else []
  }

  lemma {:induction false} NameRead(key: string)
    ensures ParseTableName(TableHeader(TableKey(key))) == if Printable(key) then Some(key) else None
  {
    if Printable(key) {
      KeyRead(key);
    } else {
      UnprintableName(key);
    }
  }

  lemma {:induction false} UnprintableName(key: string)
    requires !Printable(key)
    ensures ParseTableName(TableHeader(TableKey(key))) == None
  {
    hide Trim, Printable, ParseLiteral;
    BareIsPrintable(key);
    var name := BasicString(key);
    var line := TableHeader(name);
    KeyTight(key);
    assert line[1..|line| - 1] == TABLES + name;
    TrimCore("", TABLES + name, "");
    assert "" + (TABLES + name) + "" == TABLES + name;
    assert (TABLES + name)[|TABLES|..] == name;
    TrimCore("", name, "");
    assert "" + name + "" == name;
    LiteralRoundTrip(key, "");
    assert name + "" == name;
    assert name[0] == '"' && !IsBareChar(name[0]);
  }

  lemma {:induction false} BareIsPrintable(key: string)
    ensures IsBareKey(key) ==> Printable(key)
  {
    if IsBareKey(key) {
      forall i | 0 <= i < |key| ensures PrintableChar(key[i]) { assert IsBareChar(key[i]); }
    }
  }

  // ---------------------------------------------------------------- an installed text

  /** The settings tell a client this URL, and the two fixed values. */
  predicate Tells(settings: seq<Setting>, url: string) {
    && |settings| >= 3
    && settings[0].name == "url" && ParseLiteral(settings[0].value) == Some(url)
    && settings[1] == Setting("enabled", "true")
    && settings[2] == Setting("startup_timeout_sec", "20")
  }

  lemma {:induction false} MeantTells(url: string, more: seq<Setting>)
    ensures Tells(Meant(url) + more, url) <==> Printable(url)
  {
    hide ParseLiteral, Printable, BasicString;
    LiteralRoundTrip(url, "");
    assert BasicString(url) + "" == BasicString(url);
  }

  lemma {:induction false} PreComplete(s: string, key: string)
    requires Pieces(s, key).Some?
    ensures Complete(Pieces(s, key).value.0)
  {
    hide Locate, LocateTable, Padding, Foreign, Complete, Cut;
    if Locate(s, key).Found? {
      KeptForeign(s, key, Locate(s, key).span);
    } else if LocateTable(s, key).Some? {
      TableFacts(s, key);
    } else {
      PaddingForeign(s, key);
    }
  }

  lemma {:induction false} InstalledLines(s: string, key: string, url: string)
    requires !HasNewline(key) && Install(s, key, url).Updated?
    ensures Pieces(s, key).Some?
    ensures var (pre, post) := Pieces(s, key).value;
      Lines(Install(s, key, url).contents) == Lines(pre) + (BlockText(key, url) + Lines(post))
  {
    hide Block, Pieces, Lines, Apply, Complete, HasNewline, BlockText, Find;
    var newline := DetectNewline(s);
    var block := Block(key, url, newline);
    ApplyPieces(s, key, block);
    PreComplete(s, key);
    var (pre, post) := Pieces(s, key).value;
    LinesConcat(pre, block + post);
    BlockLines(key, url, newline, post);
  }

  /**
   After an install the config declares the servers kept before the block, then
   MCPace's, with its three settings first, then the servers kept after it.
   */
  lemma {:induction false} InstallDeclares(s: string, key: string, url: string)
    requires !HasNewline(key) && Install(s, key, url).Updated? && Printable(key)
    ensures Pieces(s, key).Some?
    ensures var (pre, post) := Pieces(s, key).value;
      var servers, n := Servers(Lines(Install(s, key, url).contents)), |Servers(Lines(pre))|;
      && |servers| == n + 1 + |Servers(Lines(post))|
      && servers[..n] == Servers(Lines(pre)) && servers[n + 1..] == Servers(Lines(post))
      && servers[n].name == key && (Tells(servers[n].settings, url) <==> Printable(url))
      && |servers[n].settings| >= 3 && servers[n].settings[3..] == Settings(Lines(post))
  {
    hide Pieces, Lines, Install, BlockText, Servers, Settings, Printable, BasicString, ParseLiteral, Tells;
    InstalledLines(s, key, url);
    var (pre, post) := Pieces(s, key).value;
    var tail := Lines(post);
    BlockRead(key, url, tail);
    ServersConcat(Lines(pre), BlockText(key, url) + tail);
    MeantTells(url, Settings(tail));
    var settings := Meant(url) + Settings(tail);
    assert settings[3..] == Settings(tail);
    Around(Servers(Lines(pre)), Server(key, settings), Servers(tail));
  }

  lemma {:induction false} Around<T>(a: seq<T>, x: T, b: seq<T>)
    ensures var s := a + ([x] + b); s[..|a|] == a && s[|a|] == x && s[|a| + 1..] == b && |s| == |a| + 1 + |b|
  {
  }

  // ---------------------------------------------------------------- the other servers

  /** Blank lines add nothing. */
  lemma {:induction false} BlanksRead(lines: seq<string>, blanks: seq<string>)
    requires forall b | b in blanks :: b == ""
    ensures Servers(lines + blanks) == Servers(lines)
  {
    hide Servers, Settings;
    NoSettings(blanks);
    ServersConcat(lines, blanks);
  }

  lemma {:induction false} NoSettings(blanks: seq<string>)
    requires forall b | b in blanks :: b == ""
    ensures Settings(blanks) == [] && Servers(blanks) == []
  {
    if blanks != [] {
      assert blanks == [blanks[0]] + blanks[1..];
      assert blanks[0] in blanks && forall b | b in blanks[1..] :: b in blanks;
      NoSettings(blanks[1..]);
      BlankAhead(blanks[1..]);
    }
  }

  lemma {:induction false} PadLines(s: string, pad: string)
    requires Complete(s) && (pad == "" || IsNewline(pad))
    ensures Complete(s + pad) && Lines(s + pad) == Lines(s) + (if pad == "" then [] else [""])
  {
    hide Lines;
    LinesConcat(s, pad);
    if pad == "" {
      assert Lines("") == [] by { NoLines(); }
      assert s + pad == s;
    } else {
      assert !HasNewline("");
      LineRead("", pad);
      assert "" + pad == pad;
      BlankLine(pad);
      assert (s + pad)[|s + pad| - 1] == pad[|pad| - 1];
    }
  }

  lemma {:induction false} NoLines()
    ensures Lines("") == []
  {
  }

  /** Closing the last line of a text does not change its lines. */
  lemma {:induction false} ClosedLines(s: string, newline: string)
    requires IsNewline(newline) && s != "" && s[|s| - 1] != '\n'
    ensures Complete(s + newline) && Lines(s + newline) == Lines(s)
    decreases |s|
  {
    hide Lines, LineLen;
    var n := LineLen(s);
    LineLenFacts(s);
    assert (s + newline)[|s + newline| - 1] == newline[|newline| - 1];
    if n < |s| {
      assert s == s[..n] + s[n..];
      assert s + newline == s[..n] + (s[n..] + newline);
      LinesConcat(s[..n], s[n..] + newline);
      LinesConcat(s[..n], s[n..]);
      ClosedLines(s[n..], newline);
    } else {
      assert s[..n - 1] + [s[n - 1]] == s;
      LastLine(s, newline);
    }
  }

  lemma {:induction false} LastLine(s: string, newline: string)
    requires IsNewline(newline) && s != "" && !HasNewline(s)
    ensures Lines(s + newline) == Lines(s)
  {
    hide TrimTomlLine, LineLen;
    LineRead(s, newline);
    SameLine(s, newline);
    LineLenPrefix(s, "");
    NewlineIsLine("");
    assert s + "" == s && s[..|s|] == s && Rest(s) == "";
  }

  lemma {:induction false} PaddingLines(s: string) returns (blanks: seq<string>)
    ensures (forall b | b in blanks :: b == "") && Lines(s + Padding(s)) == Lines(s) + blanks
  {
    hide Lines, Find;
    var newline := DetectNewline(s);
    blanks := [];
    if s == "" {
      assert s + Padding(s) == s;
    } else if EndsWith(s, "\n") {
      assert s[|s| - 1] == s[|s| - 1..][0] == '\n';
      PadLines(s, Padding(s));
      if Padding(s) != "" { blanks := [""]; }
    } else {
      var first := s + newline;
      var more := if EndsWith(first, newline + newline) then "" else newline;
      assert s + Padding(s) == first + more;
      assert s[|s| - 1] != '\n' by { assert s[|s| - 1..] == [s[|s| - 1]]; }
      ClosedLines(s, newline);
      PadLines(first, more);
      if more != "" { blanks := [""]; }
    }
  }

  predicate NoHeader(lines: seq<string>) {
    forall i | 0 <= i < |lines| :: !IsHeader(lines[i])
  }

  lemma {:induction false} NoServers(a: seq<string>, b: seq<string>)
    requires NoHeader(a)
    ensures Servers(a + b) == Servers(b)
  {
    hide IsHeader, Settings, ParseTableName;
    if a == [] {
      assert a + b == b;
    } else {
      assert (a + b)[1..] == a[1..] + b;
      NoServers(a[1..], b);
    }
  }

  lemma {:induction false} LinesStep(t: string)
    requires t != ""
    ensures Lines(t) == [FirstLine(t)] + Lines(Rest(t))
    ensures HeaderAt(t) == if IsHeader(FirstLine(t)) then Some(0) else Shift(HeaderAt(Rest(t)), LineLen(t))
  {
    hide FirstLine, Rest, IsHeader;
  }

  /** The lines up to the next header, and those from it on. */
  lemma {:induction false} HeaderCut(u: string)
    ensures var k := HeaderAt(u).Or(|u|);
      && k <= |u| && NoHeader(Lines(u[..k])) && Lines(u) == Lines(u[..k]) + Lines(u[k..])
      && Settings(Lines(u[k..])) == []
  {
    hide IsHeader, FirstLine, LineLen, Settings, Lines, HeaderAt;
    NoLines();
    if u == "" {
      assert u[..0] == "" && u[0..] == "";
      NoSettings([]);
      NoHeaderInNothing();
    } else if IsHeader(FirstLine(u)) {
      assert u[..0] == "" && u[0..] == u;
      LinesStep(u);
      HeaderStops(u);
    } else {
      var n, rest := LineLen(u), Rest(u);
      LineLenFacts(u);
      LinesStep(u);
      HeaderCut(rest);
      var j := HeaderAt(rest).Or(|rest|);
      assert HeaderAt(u).Or(|u|) == n + j;
      assert u[n + j..] == rest[j..];
      LineAndMore(u, j);
    }
  }

  lemma {:induction false} HeaderStops(u: string)
    requires u != "" && IsHeader(FirstLine(u))
    ensures Settings(Lines(u)) == []
  {
    hide IsHeader, FirstLine, Rest;
  }

  lemma {:induction false} LineAndMore(u: string, j: nat)
    requires u != "" && j <= |Rest(u)|
    ensures Lines(u[..LineLen(u) + j]) == [FirstLine(u)] + Lines(Rest(u)[..j])
  {
    hide TrimTomlLine, LineLen;
    var n := LineLen(u);
    LineLenFacts(u);
    var t := u[..n + j];
    LineLenAlone(u);
    assert t == u[..n] + Rest(u)[..j];
    if j > 0 {
      LineLenConcat(u[..n], Rest(u)[..j]);
    } else {
      assert t == u[..n];
    }
    assert t[..n] == u[..n] && t[n..] == Rest(u)[..j];
  }

  lemma {:induction false} OwnName(header: string, key: string)
    requires IsOwn(header, key) && Printable(key)
    ensures IsHeader(header) && ParseTableName(header) == Some(key)
  {
    hide ParseTableName, Printable, BasicString;
    if IsBareKey(key) && header == TableHeader(key) {
      KeyRead(key);
    } else {
      QuotedRead(key);
    }
  }

  lemma {:induction false} QuotedRead(key: string)
    requires Printable(key)
    ensures ParseTableName(TableHeader(BasicString(key))) == Some(key)
  {
    hide Trim, Printable, ParseLiteral, Escape;
    var name := BasicString(key);
    var line := TableHeader(name);
    assert line[1..|line| - 1] == TABLES + name;
    assert Tight(name) && Tight(TABLES + name);
    TrimCore("", TABLES + name, "");
    assert "" + (TABLES + name) + "" == TABLES + name;
    assert (TABLES + name)[|TABLES|..] == name;
    TrimCore("", name, "");
    assert "" + name + "" == name;
    LiteralRoundTrip(key, "");
    assert name + "" == name;
  }

  /** MCPace's own table reads as one server between those before and those after it. */
  lemma {:induction false} OwnTableRead(s: string, key: string) returns (settings: seq<Setting>)
    requires LocateTable(s, key).Some? && Printable(key)
    ensures var (i, j) := LocateTable(s, key).value;
      && Servers(Lines(s)) == Servers(Lines(s[..i])) + ([Server(key, settings)] + Servers(Lines(s[j..])))
      && Settings(Lines(s[j..])) == []
  {
    hide FirstLine, LineLen, Lines, Settings, Servers, Foreign, Complete, Cut, IsOwn, IsHeader, HeaderAt, OwnAt,
         ParseTableName, Printable;
    var (i, j) := LocateTable(s, key).value;
    OwnFacts(s, key);
    var t := s[i..];
    var u := Rest(t);
    var k := HeaderAt(u).Or(|u|);
    HeaderCut(u);
    LinesStep(t);
    assert j == i + LineLen(t) + k by { SectionEndIs(t); }
    assert s[j..] == u[k..];
    assert s == s[..i] + t;
    LinesConcat(s[..i], t);
    var rest := Lines(u[..k]) + Lines(u[k..]);
    assert Lines(t) == [FirstLine(t)] + rest;
    OwnName(FirstLine(t), key);
    LineAhead(FirstLine(t), rest);
    NoServers(Lines(u[..k]), Lines(u[k..]));
    settings := Settings(rest);
    ServersConcat(Lines(s[..i]), Lines(t));
  }

  lemma {:induction false} SectionEndIs(t: string)
    requires t != ""
    ensures SectionEnd(t) == LineLen(t) + HeaderAt(Rest(t)).Or(|Rest(t)|)
  {
    hide FirstLine, LineLen, HeaderAt;
    LineLenFacts(t);
  }

  /**
   Where there was no managed block, installing changes nothing but MCPace's own
   server: it replaces the settings of the first bare table, or adds one server.
   */
  lemma {:induction false} InstallKeepsServers(s: string, key: string, url: string)
    requires !HasNewline(key) && Printable(key) && Locate(s, key).NotThere?
    ensures Install(s, key, url).Updated?
    ensures var was, now := Servers(Lines(s)), Servers(Lines(Install(s, key, url).contents));
      match LocateTable(s, key)
      case Some((i, _)) =>
        var n := |Servers(Lines(s[..i]))|;
        n < |was| && was[n].name == key && now == was[n := Server(key, Meant(url))]
      case None => now == was + [Server(key, Meant(url))]
  {
    hide Block, Lines, BlockText, Servers, Settings, Printable, LocateTable, Meant, Padding, DetectNewline, Locate,
         HasNewline;
    InstalledLines(s, key, url);
    match LocateTable(s, key) {
      case Some((i, j)) =>
        var settings := OwnTableRead(s, key);
        BlockRead(key, url, Lines(s[j..]));
        ServersConcat(Lines(s[..i]), BlockText(key, url) + Lines(s[j..]));
        assert Meant(url) + [] == Meant(url);
        Replaced(Servers(Lines(s[..i])), Server(key, settings), Server(key, Meant(url)), Servers(Lines(s[j..])));
      case None =>
        var blanks := PaddingLines(s);
        BlanksRead(Lines(s), blanks);
        NoLines();
        NoSettings([]);
        BlockRead(key, url, []);
        ServersConcat(Lines(s + Padding(s)), BlockText(key, url) + []);
        assert Meant(url) + [] == Meant(url) && ServersOf(key, Meant(url)) + [] == [Server(key, Meant(url))];
    }
  }

  lemma {:induction false} Replaced<T>(a: seq<T>, x: T, y: T, b: seq<T>)
    ensures (a + ([x] + b))[|a| := y] == a + ([y] + b) && (a + ([x] + b))[|a|] == x
  {
  }

  // ---------------------------------------------------------------- the first own table

  /** The text already has a table of MCPace's above its managed block. */
  predicate OwnAbove(s: string, key: string) {
    match Locate(s, key)
    case Found(Exact(start, _)) => start <= |s| && OwnAt(s[..start], key).Some?
    case Found(Recover(bls, _, _, _, _, _, _)) => bls <= |s| && OwnAt(s[..bls], key).Some?
    case _ => false
  }

  lemma {:induction false} OwnIffLine(t: string, key: string)
    ensures OwnAt(t, key).None? <==> forall line | line in Lines(t) :: !IsOwn(line, key)
  {
    hide IsOwn, FirstLine, LineLen;
    if t != "" {
      OwnIffLine(Rest(t), key);
      assert Lines(t) == [FirstLine(t)] + Lines(Rest(t));
      assert FirstLine(t) in Lines(t);
    }
  }

  lemma {:induction false} PaddingOwn(s: string, key: string)
    requires OwnAt(s, key).None?
    ensures OwnAt(s + Padding(s), key).None?
  {
    hide OwnAt, IsOwn, Lines, Padding;
    var blanks := PaddingLines(s);
    OwnIffLine(s, key);
    OwnIffLine(s + Padding(s), key);
    var lines := Lines(s) + blanks;
    NotOwnBlank(key);
    assert forall line | line in lines :: line in Lines(s) || line in blanks;
  }

  lemma {:induction false} NotOwnBlank(key: string)
    ensures !IsOwn("", key)
  {
  }

  /** What a repair keeps between the begin marker's line and the table holds no own header. */
  lemma {:induction false} KeptOwn(s: string, key: string, span: Span)
    requires Locate(s, key) == Found(span) && Ordered(s, span) && span.Recover?
    ensures OwnAt(s[span.beginLineEnd..span.tableStart], key).None?
  {
    hide LineStart, LineEndAfter, OwnAt, SectionEnd, Foreign, BeginMarker, EndMarker, Complete, Cut;
    SpanBounds(s, key);
    var m := Find(s, BeginMarker(key)).value;
    var e := m + Find(s[m..], EndMarker(key)).value;
    var a := m + |BeginMarker(key)|;
    OwnBeforeTable(s, key, a, e, span.beginLineEnd, span.tableStart);
  }

  lemma {:induction false} OwnBeforeTable(s: string, key: string, a: nat, e: nat, lo: nat, ts: nat)
    requires a <= lo <= ts <= e <= |s| && OwnAt(s[a..e], key) == Some(ts - a) && Complete(s[..lo])
    ensures OwnAt(s[lo..ts], key).None?
  {
    hide OwnAt;
    var t := s[a..e];
    if a < lo { assert t[..lo - a][lo - a - 1] == s[..lo][lo - 1]; }
    NoOwnBefore(t, key, lo - a, ts - a);
    Sub(s, a, e, lo - a, ts - a);
  }

  /** Before the installed block there is an own table exactly where there was one above the old block. */
  lemma {:induction false} OwnInPre(s: string, key: string)
    requires Pieces(s, key).Some?
    ensures OwnAt(Pieces(s, key).value.0, key).Some? <==> OwnAbove(s, key)
  {
    hide Locate, OwnAt, Padding, Complete, Foreign, Cut, SectionEnd;
    if Locate(s, key).Found? {
      var span := Locate(s, key).span;
      SpanBounds(s, key);
      if span.Recover? {
        KeptOwn(s, key, span);
        var mid := if span.preserve then s[span.beginLineEnd..span.tableStart] else "";
        NothingOwn(key);
        OwnConcat(s[..span.beginLineStart], mid, key);
      }
    } else if LocateTable(s, key).Some? {
      var start := LocateTable(s, key).value.0;
      OwnFacts(s, key);
      assert s[..0] == "" && s[0..start] == s[..start];
      NothingComplete();
      NoOwnBefore(s, key, 0, start);
    } else {
      PaddingOwn(s, key);
    }
  }

  lemma {:induction false} NothingOwn(key: string)
    ensures OwnAt("", key).None?
  {
  }

  lemma {:induction false} NothingComplete()
    ensures Complete("")
  {
  }

  lemma {:induction false} BlockOwn(key: string, url: string, newline: string, post: string)
    requires IsNewline(newline) && !HasNewline(key)
    ensures OwnAt(Block(key, url, newline) + post, key) == Some(|Opening(key, newline)|)
  {
    hide OwnAt, BeginMarker, EndMarker, Block, HasNewline, TableHeader, UrlLine, Foreign;
    MarkersHaveNoNewline(key);
    FixedLines();
    BlockRegroup(key, url, newline, post);
    var h := TableHeader(TableKey(key));
    var body := UrlLine(url) + newline + (ENABLED + newline + (TIMEOUT + newline + (EndMarker(key) + newline + post)));
    OwnHeaderFirst(key, newline, body);
    CommentStep(NOTE, newline, h + newline + body, key);
    CommentStep(BeginMarker(key), newline, NOTE + newline + (h + newline + body), key);
  }

  lemma {:induction false} OwnHeaderFirst(key: string, newline: string, body: string)
    requires IsNewline(newline)
    ensures OwnAt(TableHeader(TableKey(key)) + newline + body, key) == Some(0)
  {
    hide TrimTomlLine, TableHeader, IsOwn, IsHeader, Lines, LineLen;
    HeaderRead(key, newline);
    HeaderHasNoNewline(key);
    HeaderLine(key, newline);
    var l := TableHeader(TableKey(key)) + newline;
    LineWithNewline(TableHeader(TableKey(key)), newline);
    LineLenConcat(l, body);
    assert (l + body)[..|l|] == l;
  }

  /**
   A client that looks for MCPace's table by its header finds the installed one,
   and reads the key, the URL and both fixed values there, if the text had no
   such table above its managed block; otherwise it finds that older table.
   */
  lemma {:induction false} InstallIsRead(s: string, key: string, url: string)
    requires !HasNewline(key) && Printable(key) && Printable(url) && Install(s, key, url).Updated?
    ensures var out := Install(s, key, url).contents;
      && OwnAt(out, key).Some?
      && (!OwnAbove(s, key) ==>
            var table := Lines(out[OwnAt(out, key).value..]);
            table != [] && ParseTableName(table[0]) == Some(key) && Tells(Settings(table[1..]), url))
      && (OwnAbove(s, key) ==> OwnAt(out, key) == OwnAt(s, key))
  {
    hide Block, Lines, Settings, Tells, BeginMarker, Printable, ParseTableName, HasNewline, Complete, Opening, Pieces,
         OwnAt, OwnAbove, Install, DetectNewline, IsNewline;
    var newline := DetectNewline(s);
    var block := Block(key, url, newline);
    DetectedLine(s);
    InstallPieces(s, key, url);
    PreComplete(s, key);
    OwnInPre(s, key);
    var pre, post := Pieces(s, key).value.0, Pieces(s, key).value.1;
    OwnConcat(pre, block + post, key);
    BlockOwn(key, url, newline, post);
    if OwnAbove(s, key) {
      OwnAboveFirst(s, key);
    } else {
      var n := |Opening(key, newline)|;
      assert (pre + (block + post))[|pre| + n..] == (block + post)[n..];
      InstalledTable(key, url, newline, post);
    }
  }

  lemma {:induction false} DetectedLine(s: string)
    ensures IsNewline(DetectNewline(s))
  {
    hide Find;
  }

  lemma {:induction false} InstallPieces(s: string, key: string, url: string)
    requires Install(s, key, url).Updated?
    ensures Pieces(s, key).Some?
    ensures Install(s, key, url).contents ==
      Pieces(s, key).value.0 + (Block(key, url, DetectNewline(s)) + Pieces(s, key).value.1)
  {
    hide Block, Pieces, Apply, DetectNewline;
    ApplyPieces(s, key, Block(key, url, DetectNewline(s)));
  }

  lemma {:induction false} OwnAboveFirst(s: string, key: string)
    requires OwnAbove(s, key) && Pieces(s, key).Some?
    ensures OwnAt(Pieces(s, key).value.0, key) == OwnAt(s, key)
  {
    hide Locate, OwnAt, Padding, Complete, Foreign, Cut;
    var span := Locate(s, key).span;
    SpanBounds(s, key);
    var x := if span.Exact? then span.start else span.beginLineStart;
    assert s == s[..x] + s[x..];
    OwnConcat(s[..x], s[x..], key);
    if span.Recover? {
      OwnConcat(s[..x], if span.preserve then s[span.beginLineEnd..span.tableStart] else "", key);
    }
  }

  /** The installed table, read line by line. */
  lemma {:induction false} InstalledTable(key: string, url: string, newline: string, post: string)
    requires IsNewline(newline) && !HasNewline(key) && Printable(key) && Printable(url)
    ensures var t := Block(key, url, newline) + post;
      && |Opening(key, newline)| <= |t|
      && var table := Lines(t[|Opening(key, newline)|..]);
         table != [] && ParseTableName(table[0]) == Some(key) && Tells(Settings(table[1..]), url)
  {
    hide Block, Lines, Settings, Tells, BeginMarker, EndMarker, TableHeader, UrlLine, Printable, ParseTableName,
         HasNewline, Complete, Meant;
    MarkersHaveNoNewline(key);
    FixedLines();
    var h := TableHeader(TableKey(key));
    var open, body := Opening(key, newline), UrlLine(url) + newline
      + (ENABLED + newline + (TIMEOUT + newline + (EndMarker(key) + newline + post)));
    BlockRegroup(key, url, newline, post);
    var b, c := BeginMarker(key) + newline, NOTE + newline;
    assert b + (c + (h + newline + body)) == open + (h + newline + body);
    assert (open + (h + newline + body))[|open|..] == h + newline + body;
    TableLinesRead(key, url, newline, post);
    NameRead(key);
    SettingsRead(url, Lines(post));
    MeantTells(url, Settings(Lines(post)));
    var rest := [UrlLine(url)] + ([ENABLED] + ([TIMEOUT] + ([""] + Lines(post))));
    assert ([h] + rest)[1..] == rest;
  }

  lemma {:induction false} TableLinesRead(key: string, url: string, newline: string, post: string)
    requires IsNewline(newline) && !HasNewline(key)
    ensures Lines(TableHeader(TableKey(key)) + newline + (UrlLine(url) + newline
      + (ENABLED + newline + (TIMEOUT + newline + (EndMarker(key) + newline + post))))) ==
      [TableHeader(TableKey(key))] + ([UrlLine(url)] + ([ENABLED] + ([TIMEOUT] + ([""] + Lines(post)))))
  {
    hide Lines, HasNewline, EndMarker, BeginMarker, TableHeader, UrlLine, IsHeader, IsOwn, SettingOf, Complete;
    MarkersHaveNoNewline(key);
    HeaderRead(key, newline);
    UrlRead(url, newline);
    FixedRead(newline);
    CommentRead(EndMarker(key), newline);
    var e := EndMarker(key) + newline;
    LinesConcat(e, post);
    var t := TIMEOUT + newline;
    LinesConcat(t, e + post);
    var n := ENABLED + newline;
    LinesConcat(n, t + (e + post));
    var u := UrlLine(url) + newline;
    LinesConcat(u, n + (t + (e + post)));
    LinesConcat(TableHeader(TableKey(key)) + newline, u + (n + (t + (e + post))));
  }

  /** A bare table above a managed block. */
  function StaleTable(key: string, url: string): string {
    TableHeader(key) + "\n" + (Block(key, url, "\n") + "")
  }

  /** There an install succeeds, and the first table a client finds is still the empty one. */
  lemma {:induction false} StaleTableIsRead(key: string, was: string, url: string)
    requires IsBareKey(key) && !Occurs(was, EndMarker(key))
    ensures OwnAbove(StaleTable(key, was), key)
    ensures var r := Install(StaleTable(key, was), key, url);
      && r.Updated? && OwnAt(r.contents, key) == Some(0)
      && Settings(Lines(r.contents)[1..]) == []
  {
    hide Block, Lines, Settings, BeginMarker, EndMarker, TableHeader, HasNewline, Complete, Occurs, OwnAt, Locate,
         IsOwn, Apply, DetectNewline, IsBareKey, BlockText, IsHeader;
    var s, pre := StaleTable(key, was), TableHeader(key) + "\n";
    var newline := DetectNewline(s);
    var block := Block(key, url, newline);
    StalePre(key);
    LocatorFindsBlock(pre, key, was, "\n", "");
    assert s[..|pre|] == pre;
    EditOverBlock(pre, key, was, "\n", "", block);
    DetectedLine(s);
    OwnHeaderFirst(key, "\n", block + "");
    HeaderRead(key, "\n");
    LinesConcat(pre, block + "");
    BareHasNoNewline(key);
    BlockLines(key, url, newline, "");
    BlockRead(key, url, Lines(""));
    var lines := [TableHeader(key)] + (BlockText(key, url) + Lines(""));
    assert lines[1..] == BlockText(key, url) + Lines("");
  }

  lemma {:induction false} BareHasNoNewline(key: string)
    requires IsBareKey(key)
    ensures !HasNewline(key) && TableKey(key) == key
  {
    BareIsPlain(key);
  }

  lemma {:induction false} StalePre(key: string)
    requires IsBareKey(key)
    ensures var pre := TableHeader(key) + "\n";
      && Complete(pre) && !Occurs(pre, BeginMarker(key)) && TableKey(key) == key && OwnAt(pre, key).Some?
  {
    hide OwnAt, BeginMarker, EndMarker, HasNewline, At, IsOwn, IsHeader, Lines;
    HeaderRead(key, "\n");
    HeaderHasNoHash(key, "\n");
    assert TableKey(key) == key;
    MarkerShape(key);
    var pre := TableHeader(key) + "\n";
    forall i: nat | i <= |pre| ensures !At(pre, BeginMarker(key), i) {
      AtChar(pre, BeginMarker(key), i, 0);
    }
    OwnHeaderFirst(key, "\n", "");
    assert pre + "" == pre;
  }

  /** A bare table is MCPace's own under the quoted spelling too: an install replaces it. */
  lemma {:induction false} QuotedTableIsReplaced(key: string, url: string)
    requires !HasNewline(key) && Printable(key)
    ensures var s := TableHeader(BasicString(key)) + "\n";
      !Occurs(s, BeginMarker(key)) ==>
      Install(s, key, url).Updated? && Servers(Lines(Install(s, key, url).contents)) == [Server(key, Meant(url))]
  {
    hide Lines, Servers, Printable, BasicString, TableHeader, Install, Meant, HasNewline, BeginMarker, Settings, OwnAt,
         LocateTable, Locate, Occurs, Complete;
    var h := TableHeader(BasicString(key));
    var s := h + "\n";
    if !Occurs(s, BeginMarker(key)) {
      NoBlockThere(s, key);
      QuotedHeader(key);
      QuotedLocated(key);
      InstallKeepsServers(s, key, url);
      assert s[..0] == "";
      NoLines();
      NoSettings([]);
      OneServer(s, key);
    }
  }

  lemma {:induction false} NoBlockThere(s: string, key: string)
    requires !Occurs(s, BeginMarker(key))
    ensures Locate(s, key).NotThere?
  {
    hide BeginMarker, EndMarker, Occurs, LocateBetween;
    OccursIffFind(s, BeginMarker(key));
  }

  /** The quoted header is one line, a header, and MCPace's own. */
  lemma {:induction false} QuotedHeader(key: string)
    ensures var h := TableHeader(BasicString(key));
      && Lines(h + "\n") == [h] && IsHeader(h) && IsOwn(h, key) && !HasNewline(h)
      && TrimTomlLine(h + "\n") == h
  {
    hide TrimTomlLine, CommentIndex, ScanTo, Escape, Lines;
    var h := TableHeader(BasicString(key));
    QuotedScan(key);
    EscapeNoNewline(key);
    assert !HasNewline("[mcp_servers.");
    StripTrailer(h, "", "", "\n");
    assert h + "" + "" + "\n" == h + "\n";
    LineRead(h, "\n");
  }

  lemma {:induction false} QuotedScan(key: string)
    ensures var h := TableHeader(BasicString(key));
      Tight(h) && h != "" && CommentIndex(h, Plain) == |h| && ScanTo(h, Plain) == Plain
  {
    hide Escape;
    var open, name := "[mcp_servers.", BasicString(key);
    assert TableHeader(name) == open + (name + "]");
    PlainScan(open, name + "]");
    PlainScan("]", "");
    assert "]" + "" == "]";
    BasicStringScan(key, "]");
  }

  lemma {:induction false} QuotedLocated(key: string)
    ensures var s := TableHeader(BasicString(key)) + "\n"; LocateTable(s, key) == Some((0, |s|))
  {
    hide TrimTomlLine, IsOwn, IsHeader, LineLen, Lines, BasicString, TableHeader;
    var h := TableHeader(BasicString(key));
    QuotedHeader(key);
    LineWithNewline(h, "\n");
    var s := h + "\n";
    assert s[..|s|] == s && s[0..] == s && Rest(s) == "";
    NoHeaderInNothing();
  }

  lemma {:induction false} OneServer(s: string, key: string)
    requires Lines(s) == [TableHeader(BasicString(key))] && Printable(key)
    ensures |Servers(Lines(s))| == 1
  {
    hide Printable, ParseTableName, BasicString, TableHeader, Lines;
    QuotedRead(key);
    QuotedHeader(key);
    LineAhead(TableHeader(BasicString(key)), []);
    assert [TableHeader(BasicString(key))] + [] == Lines(s);
  }
}
