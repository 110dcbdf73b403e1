/**
 What an installed YAML config says: a reader of every mapping line, with its
 indent, its key and its value, that knows nothing of blocks and markers.
 */
module YamlReads {
  import opened Basics
  import opened Text
  import opened Toml
  import opened TomlEdit
  import opened TomlFrame
  import opened TomlBlock
  import opened TomlConverge
  import opened TomlSections
  import opened YamlInstall
  import Yaml

  // ---------------------------------------------------------------- the reader

  datatype Node = Node(indent: nat, key: string, value: string)

  /** What a mapping line has after its colon. */
  function ValueOf(line: string): string {
    var content := TrimStart(Yaml.TrimBreaks(line));
    match Find(content, ":")
    case Some(k) => Trim(content[k + 1..])
    case None => ""
  }

  function NodeOf(line: string): seq<Node> {
    match Yaml.MappingKey(line)
    case Some(m) => [Node(m.indent, m.key, ValueOf(line))]
    case None => []
  }

  /** The mapping lines of a text, in order. */
  function Nodes(t: string): seq<Node> {
    if t == "" then [] else NodeOf(t[..LineLen(t)]) + Nodes(t[LineLen(t)..])
  }

  lemma {:induction false} NodesConcat(a: string, b: string)
    requires Complete(a)
    ensures Nodes(a + b) == Nodes(a) + Nodes(b)
    decreases |a|
  {
    hide NodeOf, LineLen;
    if a == "" {
      assert a + b == b;
    } else {
      LineLenConcat(a, b);
      LineLenFacts(a);
      var n := LineLen(a);
      assert (a + b)[..n] == a[..n] && (a + b)[n..] == a[n..] + b;
      assert n < |a| ==> a[n..][|a| - n - 1] == a[|a| - 1];
      NodesConcat(a[n..], b);
    }
  }

  lemma {:induction false} OneLine(line: string, newline: string)
    requires !HasNewline(line) && IsNewline(newline)
    ensures Complete(line + newline) && Nodes(line + newline) == NodeOf(line + newline)
  {
    hide NodeOf, LineLen;
    LineWithNewline(line, newline);
    var t := line + newline;
    assert t[..|t|] == t && t[|t|..] == "";
    NoNodes();
    assert NodeOf(t) + [] == NodeOf(t);
  }

  lemma {:induction false} NoNodes()
    ensures Nodes("") == []
  {
  }

  // ---------------------------------------------------------------- single lines

  lemma {:induction false} TrimBreak(line: string, newline: string)
    requires IsNewline(newline)
    ensures Yaml.TrimBreaks(line + newline) == Yaml.TrimBreaks(line)
  {
    var t := line + newline;
    if newline == "\n" {
      assert t[..|t| - 1] == line;
    } else {
      assert t[..|t| - 1] == line + "\r" && (line + "\r")[..|line|] == line;
    }
  }

  lemma {:induction false} BreakChangesNothing(line: string, newline: string)
    requires IsNewline(newline)
    ensures NodeOf(line + newline) == NodeOf(line)
  {
    hide Yaml.TrimBreaks;
    TrimBreak(line, newline);
  }

  lemma {:induction false} Comment(sp: string, comment: string)
    requires Blank(sp) && "#" <= comment
    ensures NodeOf(sp + comment) == []
  {
    hide IsSpace, TrimEnd, Find;
    var text := Yaml.TrimBreaks(sp + comment);
    CommentKept(sp, comment);
    var content := text[|sp|..];
    assert text == sp + content && "#" <= content;
    StartsAfter(sp, content);
  }

  lemma {:induction false} CommentKept(sp: string, comment: string)
    requires "#" <= comment
    ensures var text := Yaml.TrimBreaks(sp + comment); |text| > |sp| && text[..|sp|] == sp && text[|sp|] == '#'
    ensures !IsSpace('#')
  {
    var t := sp + comment;
    if t[|t| - 1] == '\r' || t[|t| - 1] == '\n' {
      assert |comment| > 1;
      var shorter := comment[..|comment| - 1];
      assert t[..|t| - 1] == sp + shorter;
      CommentKept(sp, shorter);
    }
  }

  lemma {:induction false} StartsAfter(sp: string, t: string)
    requires Blank(sp) && t != "" && !IsSpace(t[0])
    ensures TrimStart(sp + t) == t && Trim(sp + t) != ""
  {
    hide IsSpace;
    TrimStartBlank(sp, t);
    TrimFirst(sp, t);
  }

  /** A name that a mapping line can start with. */
  predicate Plainly(name: string) {
    name != "" && Tight(name) && ':' !in name && '"' !in name && '\'' !in name && name[0] != '#' && name[0] != '-'
  }

  /** A mapping line with its key and value. */
  lemma {:induction false} MappingRead(sp: string, name: string, gap: string, value: string)
    requires Blank(sp) && Plainly(name) && Blank(gap) && Tight(value)
    requires var line := sp + name + ":" + gap + value; line[|line| - 1] != '\r' && line[|line| - 1] != '\n'
    ensures NodeOf(sp + name + ":" + gap + value) == [Node(|sp|, name, value)]
  {
    hide IsSpace, Trim, TrimStart, Find;
    var line, content := sp + name + ":" + gap + value, name + (":" + (gap + value));
    assert line == sp + content;
    StartsAfter(sp, content);
    ColonAt(name, gap + value);
    TrimCore("", name, "");
    assert "" + name + "" == name == content[..|name|];
    TrimCore(gap, value, "");
    assert gap + value + "" == gap + value == content[|name| + 1..];
    assert content[0] == name[0];
    NameStays(name);
  }

  lemma {:induction false} NameStays(name: string)
    requires Plainly(name)
    ensures Yaml.Unquoted(name) == name
  {
    assert name[0] in name;
  }

  lemma {:induction false} ColonAt(name: string, rest: string)
    requires ':' !in name
    ensures Find(name + (":" + rest), ":") == Some(|name|)
  {
    var t := name + (":" + rest);
    forall j: nat | j < |name| ensures !At(t, ":", j) {
      AtChar(t, ":", j, 0);
      assert t[j] == name[j] && name[j] in name;
    }
    assert At(t, ":", |name|);
    FindIs(t, ":", |name|);
  }

  // ---------------------------------------------------------------- the block

  /** A block reads as its key, unless that starts like a list item, and four settings under it. */
  function Meant(key: string, url: string): seq<Node> {
    (if "-" <= key then [] else [Node(2, key, "")])
    + [Node(4, "url", BasicString(url)), Node(4, "enabled", "true"), Node(4, "timeout", "120"),
       Node(4, "connect_timeout", "60")]
  }

  lemma {:induction false} CommentRead(marker: string, newline: string)
    requires "#" <= marker && !HasNewline(marker) && IsNewline(newline)
    ensures var line := "  " + marker; Complete(line + newline) && Nodes(line + newline) == []
  {
    hide NodeOf, Nodes;
    Comment("  ", marker);
    OneLine("  " + marker, newline);
    BreakChangesNothing("  " + marker, newline);
  }

  lemma {:induction false} KeyRead(key: string, newline: string)
    requires IsBareKey(key) && IsNewline(newline)
    ensures var line := "  " + key + ":";
      Complete(line + newline) && Nodes(line + newline) == if "-" <= key then [] else [Node(2, key, "")]
  {
    hide NodeOf, Nodes, Plainly;
    BareIsPlain(key);
    BarePlainly(key);
    var line := "  " + key + ":";
    assert line + "" + "" == line;
    OneLine(line, newline);
    BreakChangesNothing(line, newline);
    if "-" <= key {
      ItemRead("  ", key + ":");
      assert "  " + (key + ":") == line;
    } else {
      MappingRead("  ", key, "", "");
    }
  }

  lemma {:induction false} ItemRead(sp: string, rest: string)
    requires Blank(sp) && "-" <= rest && rest[|rest| - 1] != '\r' && rest[|rest| - 1] != '\n'
    ensures NodeOf(sp + rest) == []
  {
    hide IsSpace, Trim, TrimStart, Find;
    assert !IsSpace('-') by { DashIsNoSpace(); }
    StartsAfter(sp, rest);
  }

  lemma {:induction false} DashIsNoSpace()
    ensures !IsSpace('-')
  {
  }

  lemma {:induction false} BarePlainly(key: string)
    requires IsBareKey(key)
    ensures Plainly(key) || "-" <= key
  {
    BareIsPlain(key);
    assert forall c | c in key :: IsBareChar(c);
    assert key[0] in key;
  }

  lemma {:induction false} SettingRead(name: string, value: string, newline: string)
    requires Settable(name, value) && IsNewline(newline)
    ensures var line := "    " + name + ": " + value;
      Complete(line + newline) && Nodes(line + newline) == [Node(4, name, value)]
  {
    hide NodeOf, Nodes, Plainly;
    var line := "    " + name + ": " + value;
    assert "    " + name + ":" + " " + value == line;
    assert IsSpace('\r') && IsSpace('\n');
    MappingRead("    ", name, " ", value);
    OneLine(line, newline);
    BreakChangesNothing(line, newline);
  }

  predicate Settable(name: string, value: string) {
    Plainly(name) && !HasNewline(name) && value != "" && Tight(value) && !HasNewline(value)
  }

  lemma {:induction false} UrlSetting(url: string)
    ensures Settable("url", BasicString(url))
  {
    hide Escape;
    EscapeNoNewline(url);
  }

  lemma {:induction false} PlainSettings()
    ensures Settable("enabled", "true") && Settable("timeout", "120")
  {
  }

  lemma {:induction false} ConnectSetting()
    ensures Settable("connect_timeout", "60")
  {
  }

  lemma {:induction false} SettingsRead(url: string, newline: string)
    requires IsNewline(newline)
    ensures forall line | line in ["    url: " + BasicString(url), "    enabled: true", "    timeout: 120",
                                   "    connect_timeout: 60"] :: Complete(line + newline)
    ensures Nodes("    url: " + BasicString(url) + newline) == [Node(4, "url", BasicString(url))]
    ensures Nodes("    enabled: true" + newline) == [Node(4, "enabled", "true")]
    ensures Nodes("    timeout: 120" + newline) == [Node(4, "timeout", "120")]
    ensures Nodes("    connect_timeout: 60" + newline) == [Node(4, "connect_timeout", "60")]
  {
    hide Nodes, BasicString, Plainly, Tight, HasNewline, Complete;
    UrlSetting(url);
    PlainSettings();
    ConnectSetting();
    SettingRead("url", BasicString(url), newline);
    assert "    " + "url" + ": " + BasicString(url) == "    url: " + BasicString(url);
    SettingRead("enabled", "true", newline);
    assert "    " + "enabled" + ": " + "true" == "    enabled: true";
    SettingRead("timeout", "120", newline);
    assert "    " + "timeout" + ": " + "120" == "    timeout: 120";
    SettingRead("connect_timeout", "60", newline);
    assert "    " + "connect_timeout" + ": " + "60" == "    connect_timeout: 60";
  }

  lemma {:induction false} BlockLines(key: string, url: string, newline: string, tail: string)
    ensures Yaml.Block(key, url, newline) + tail ==
      "  " + BeginMarker(key) + newline + ("  " + key + ":" + newline + ("    url: " + BasicString(url) + newline
      + ("    enabled: true" + newline + ("    timeout: 120" + newline + ("    connect_timeout: 60" + newline
      + ("  " + EndMarker(key) + newline + tail))))))
  {
    hide BasicString, BeginMarker, EndMarker;
    var b, k, u := "  " + BeginMarker(key), "  " + key + ":", "    url: " + BasicString(url);
    var e, t, c, m := "    enabled: true", "    timeout: 120", "    connect_timeout: 60", "  " + EndMarker(key);
    var n := newline;
    assert Yaml.Block(key, url, newline) == b + n + k + n + u + n + e + n + t + n + c + n + m + n by {
      assert b + n + "  " + key + ":" == b + n + k;
      assert b + n + k + n + "    url: " + BasicString(url) == b + n + k + n + u;
      var x := b + n + k + n + u + n + e + n + t + n + c + n;
      assert x + "  " + EndMarker(key) == x + m;
    }
    Lines7(b, k, u, e, t, c, m, n, tail);
  }

  lemma {:induction false} Lines7(
    b: string, k: string, u: string, e: string, t: string, c: string, m: string, n: string, tail: string)
    ensures b + n + k + n + u + n + e + n + t + n + c + n + m + n + tail ==
      b + n + (k + n + (u + n + (e + n + (t + n + (c + n + (m + n + tail))))))
  {
    var x6 := m + n + tail;
    var x5 := c + n + x6;
    var x4 := t + n + x5;
    var x3 := e + n + x4;
    var x2 := u + n + x3;
    var y := b + n + k + n + u + n + e + n + t + n + c + n;
    assert y + m + n + tail == y + x6;
    assert y + x6 == b + n + k + n + u + n + e + n + t + n + x5;
    assert b + n + k + n + u + n + e + n + t + n + x5 == b + n + k + n + u + n + e + n + x4;
    assert b + n + k + n + u + n + e + n + x4 == b + n + k + n + u + n + x3;
    assert b + n + k + n + u + n + x3 == b + n + k + n + x2;
    assert b + n + k + n + x2 == b + n + (k + n + x2);
  }

  lemma {:induction false} BlockRead(key: string, url: string, newline: string, tail: string)
    requires IsBareKey(key) && IsNewline(newline)
    ensures Nodes(Yaml.Block(key, url, newline) + tail) == Meant(key, url) + Nodes(tail)
  {
    hide Nodes, Yaml.Block, BasicString, BeginMarker, EndMarker, Complete, IsBareKey;
    MarkerShape(key);
    BlockLines(key, url, newline, tail);
    CommentRead(BeginMarker(key), newline);
    CommentRead(EndMarker(key), newline);
    KeyRead(key, newline);
    SettingsRead(url, newline);
    var u, e := "    url: " + BasicString(url), "    enabled: true";
    var t, c := "    timeout: 120", "    connect_timeout: 60";
    var all := [u, e, t, c];
    assert u in all && e in all && t in all && c in all;
    var m := "  " + EndMarker(key) + newline + tail;
    NodesConcat("  " + EndMarker(key) + newline, tail);
    NodesConcat(c + newline, m);
    NodesConcat(t + newline, c + newline + m);
    NodesConcat(e + newline, t + newline + (c + newline + m));
    var x := e + newline + (t + newline + (c + newline + m));
    NodesConcat(u + newline, x);
    NodesConcat("  " + key + ":" + newline, u + newline + x);
    NodesConcat("  " + BeginMarker(key) + newline, "  " + key + ":" + newline + (u + newline + x));
  }

  // ---------------------------------------------------------------- an installed text

  /** The settings tell a client this URL and the three fixed values. */
  predicate Tells(nodes: seq<Node>, url: string) {
    && |nodes| == 4
    && nodes[0].indent == 4 && nodes[0].key == "url" && ParseLiteral(nodes[0].value) == Some(url)
    && nodes[1..] == [Node(4, "enabled", "true"), Node(4, "timeout", "120"), Node(4, "connect_timeout", "60")]
  }

  /**
   After an install the text reads as what was kept before the block, the key,
   the four settings with the URL, and what was kept after it.
   */
  lemma {:induction false} InstallReads(s: string, key: string, url: string)
    requires IsBareKey(key) && !("-" <= key) && Yaml.Apply(s, key, url).Edited?
    ensures Yaml.Pieces(s, key).Some?
    ensures var kept, nodes := Yaml.Pieces(s, key).value, Nodes(Yaml.Apply(s, key, url).contents);
      var n := |Nodes(kept.pre)|;
      && |nodes| == n + 5 + |Nodes(kept.post)|
      && nodes[..n] == Nodes(kept.pre) && nodes[n] == Node(2, key, "")
      && (Tells(nodes[n + 1..n + 5], url) <==> Printable(url))
      && nodes[n + 5..] == Nodes(kept.post)
  {
    hide Nodes, Yaml.Block, BasicString, Complete, IsBareKey, Yaml.Pieces, DetectNewline, Printable,
         ParseLiteral, Occurs;
    YamlInstall.PreFacts(s, key);
    var kept, newline := Yaml.Pieces(s, key).value, DetectNewline(s);
    DetectedNewline(s);
    BlockRead(key, url, newline, kept.post);
    NodesConcat(kept.pre, Yaml.Block(key, url, newline) + kept.post);
    LiteralRoundTrip(url, "");
    assert BasicString(url) + "" == BasicString(url);
    Around5(Nodes(kept.pre), Meant(key, url), Nodes(kept.post));
  }

  lemma {:induction false} DetectedNewline(s: string)
    ensures IsNewline(DetectNewline(s))
  {
    hide Find;
  }

  lemma {:induction false} Around5(a: seq<Node>, m: seq<Node>, b: seq<Node>)
    requires |m| == 5
    ensures var s, n := a + (m + b), |a|;
      s[..n] == a && s[n] == m[0] && s[n + 1..n + 5] == m[1..] && s[n + 5..] == b && |s| == n + 5 + |b|
  {
  }

  // ---------------------------------------------------------------- nothing else changes

  lemma {:induction false} ClosedNodes(s: string, newline: string)
    requires IsNewline(newline) && s != "" && s[|s| - 1] != '\n'
    ensures Complete(s + newline) && Nodes(s + newline) == Nodes(s)
    decreases |s|
  {
    hide Nodes, LineLen, NodeOf;
    var n := LineLen(s);
    LineLenFacts(s);
    assert (s + newline)[|s + newline| - 1] == newline[|newline| - 1];
    if n < |s| {
      assert s == s[..n] + s[n..];
      assert s + newline == s[..n] + (s[n..] + newline);
      NodesConcat(s[..n], s[n..] + newline);
      NodesConcat(s[..n], s[n..]);
      ClosedNodes(s[n..], newline);
    } else {
      assert s[..n - 1] + [s[n - 1]] == s;
      OneLine(s, newline);
      BreakChangesNothing(s, newline);
      LastNodes(s);
    }
  }

  lemma {:induction false} LastNodes(s: string)
    requires s != "" && !HasNewline(s)
    ensures Nodes(s) == NodeOf(s)
  {
    hide NodeOf, LineLen;
    LineLenPrefix(s, "");
    NewlineIsLine("");
    assert s + "" == s && s[..|s|] == s && s[|s|..] == "";
    NoNodes();
  }

  lemma {:induction false} BlankNodes(newline: string)
    requires newline == "" || IsNewline(newline)
    ensures Nodes(newline) == []
  {
    hide NodeOf;
    if newline != "" {
      OneLine("", newline);
      BreakChangesNothing("", newline);
      assert "" + newline == newline;
      NothingRead();
    }
  }

  lemma {:induction false} NothingRead()
    ensures NodeOf("") == []
  {
  }

  /** Padding a text to a blank line adds no mapping. */
  lemma {:induction false} PaddedNodes(s: string)
    ensures Complete(s + Padding(s)) && Nodes(s + Padding(s)) == Nodes(s)
  {
    hide Nodes, Find, NodeOf;
    var newline := DetectNewline(s);
    BlankNodes("");
    BlankNodes(newline);
    if s == "" {
      assert s + Padding(s) == s;
    } else if EndsWith(s, "\n") {
      assert s[|s| - 1] == s[|s| - 1..][0] == '\n';
      NodesConcat(s, Padding(s));
      PadComplete(s, Padding(s));
    } else {
      var first := s + newline;
      var more := if EndsWith(first, newline + newline) then "" else newline;
      assert s + Padding(s) == first + more;
      assert s[|s| - 1] != '\n' by { assert s[|s| - 1..] == [s[|s| - 1]]; }
      ClosedNodes(s, newline);
      NodesConcat(first, more);
      PadComplete(first, more);
    }
  }

  lemma {:induction false} PadComplete(s: string, pad: string)
    requires Complete(s) && (pad == "" || IsNewline(pad))
    ensures Complete(s + pad)
  {
    assert pad == "" ==> s + pad == s;
    assert pad != "" ==> (s + pad)[|s + pad| - 1] == pad[|pad| - 1];
  }

  lemma {:induction false} SectionLineRead(newline: string)
    requires IsNewline(newline)
    ensures Nodes(Yaml.SECTION_LINE + newline) == [Node(0, "mcp_servers", "")]
  {
    hide Nodes, NodeOf;
    assert !HasNewline(Yaml.SECTION_LINE);
    assert Plainly("mcp_servers");
    MappingRead("", "mcp_servers", "", "");
    assert "" + "mcp_servers" + ":" + "" + "" == Yaml.SECTION_LINE;
    OneLine(Yaml.SECTION_LINE, newline);
    BreakChangesNothing(Yaml.SECTION_LINE, newline);
  }

  /**
   Where there was neither a block nor an entry, the mappings of the text stay as
   they are: the entry comes at the end of the section, or after a new section line.
   */
  lemma {:induction false} InstallAdds(s: string, key: string, url: string)
    requires IsBareKey(key) && Yaml.Managed(s, key).NoPlace?
    requires match Yaml.TopSection(s, "mcp_servers")
             case Some(section) => Yaml.SectionEntry(s[section.body..section.end], key).None?
             case None => true
    ensures Yaml.Apply(s, key, url).Edited?
    ensures var nodes := Nodes(Yaml.Apply(s, key, url).contents);
      match Yaml.TopSection(s, "mcp_servers")
      case None => nodes == Nodes(s) + [Node(0, "mcp_servers", "")] + Meant(key, url)
      case Some(section) =>
        var before, after := Nodes(s[..section.end]), Nodes(s[section.end..]);
        Nodes(s) == before + after && nodes == before + (Meant(key, url) + after)
  {
    hide Nodes, Yaml.Block, IsBareKey, Yaml.Managed, Yaml.TopSection, Yaml.SectionEntry, DetectNewline, Complete,
         Padding, Occurs, Meant;
    var newline := DetectNewline(s);
    DetectedNewline(s);
    YamlInstall.PreFacts(s, key);
    var kept := Yaml.Pieces(s, key).value;
    BlockRead(key, url, newline, kept.post);
    NodesConcat(kept.pre, Yaml.Block(key, url, newline) + kept.post);
    match Yaml.TopSection(s, "mcp_servers") {
      case None =>
        PaddedNodes(s);
        SectionLineRead(newline);
        NodesConcat(s + Padding(s), Yaml.SECTION_LINE + newline);
        assert s + Padding(s) + Yaml.SECTION_LINE + newline == s + Padding(s) + (Yaml.SECTION_LINE + newline);
        BlankNodes("");
      case Some(section) =>
        SectionSplit(s, section, newline, kept.pre);
    }
  }

  lemma {:induction false} SectionSplit(s: string, section: Yaml.Section, newline: string, pre: string)
    requires section.start < section.end <= |s| && Yaml.TopSection(s, "mcp_servers") == Some(section)
    requires IsNewline(newline)
    requires pre == s[..section.end] + if !EndsWith(s[..section.end], "\n") then newline else ""
    ensures Nodes(pre) == Nodes(s[..section.end]) && Nodes(s) == Nodes(s[..section.end]) + Nodes(s[section.end..])
  {
    hide Nodes, Yaml.TopSection, NodeOf;
    var front := s[..section.end];
    assert s == front + s[section.end..];
    assert front[|front| - 1..] == [front[|front| - 1]];
    if EndsWith(front, "\n") {
      NodesConcat(front, s[section.end..]);
      assert pre == front;
    } else {
      ClosedNodes(front, newline);
      SectionEnds(s, section);
      NoNodes();
      assert s[section.end..] == "" && front == s;
    }
  }

  /** A section ends at a line, or with the text. */
  lemma {:induction false} SectionEnds(s: string, section: Yaml.Section)
    requires Yaml.TopSection(s, "mcp_servers") == Some(section)
    ensures section.end <= |s| && (section.end == |s| || s[section.end - 1] == '\n')
  {
    hide Yaml.LineWhere, LineLen, Yaml.MappingKey;
    var i := section.start;
    var t := s[i..];
    var n := LineLen(t);
    LineLenFacts(t);
    var rest := t[n..];
    if section.end < |s| {
      Yaml.LineWhereCut(rest, Yaml.TopLine());
      var j := Yaml.LineWhere(rest, Yaml.TopLine()).value;
      assert section.end == i + n + j;
      assert j > 0 ==> rest[..j][j - 1] == s[section.end - 1];
      assert j == 0 ==> t[n - 1] == s[section.end - 1];
    }
  }

  // ---------------------------------------------------------------- other spellings, and errors

  /** A key in quotes is the key without them. */
  lemma {:induction false} QuotedKeyRead(sp: string, quote: char, name: string)
    requires Blank(sp) && (quote == '"' || quote == '\'') && name != "" && ':' !in name
    ensures Yaml.MappingKey(sp + ([quote] + name + [quote] + ":")) == Some(Yaml.Mapping(|sp|, name))
  {
    hide IsSpace, Trim, TrimStart, Find;
    var quoted := [quote] + name + [quote];
    var content := quoted + ":";
    assert sp + ([quote] + name + [quote] + ":") == sp + content;
    QuotesAreNoSpace();
    StartsAfter(sp, content);
    assert ':' !in quoted;
    ColonAt(quoted, "");
    assert quoted + (":" + "") == content;
    TrimCore("", quoted, "");
    assert "" + quoted + "" == quoted == content[..|quoted|];
    assert quoted[1..|quoted| - 1] == name;
  }

  lemma {:induction false} QuotesAreNoSpace()
    ensures !IsSpace('"') && !IsSpace('\'')
  {
  }

  /** The editor refuses exactly a text with a begin marker and no end marker after the first one. */
  lemma {:induction false} RefusesExactly(s: string, key: string, url: string)
    ensures Yaml.Apply(s, key, url).EndMissing? <==>
      exists m: nat :: FirstAt(s, BeginMarker(key), m) && !Occurs(s[m..], EndMarker(key))
  {
    hide Yaml.TopSection, Yaml.SectionEntry, BeginMarker, EndMarker, At, Occurs, Yaml.Block, LineStart, Yaml.BreakLen,
         FirstAt;
    FirstMarker(s, BeginMarker(key), EndMarker(key));
  }

  lemma {:induction false} FirstMarker(s: string, b: string, e: string)
    ensures (Find(s, b).Some? && Find(s[Find(s, b).value..], e).None?) <==>
      exists m: nat :: FirstAt(s, b, m) && !Occurs(s[m..], e)
  {
    hide At, FirstAt, Occurs;
    forall m: nat ensures (Find(s, b) == Some(m) <==> FirstAt(s, b, m)) && (FirstAt(s, b, m) ==> m <= |s|) {
      FirstIsFind(s, b, m);
    }
    if Find(s, b).Some? { OccursIffFind(s[Find(s, b).value..], e); }
  }

  // ---------------------------------------------------------------- what a section and an entry are

  function TopNamed(key: string): Node -> bool { (n: Node) => n.indent == 0 && n.key == key }
  function AtTop(): Node -> bool { (n: Node) => n.indent == 0 }
  function EntryNamed(key: string): Node -> bool { (n: Node) => n.indent > 0 && n.key == key }
  function AtDepth(indent: nat): Node -> bool { (n: Node) => n.indent == indent }

  /** A line is looked for by what it reads as. */
  ghost predicate Reads(p: string -> bool, q: Node -> bool) {
    forall line :: p(line) <==> NodeOf(line) != [] && q(NodeOf(line)[0])
  }

  ghost predicate NoneOf(nodes: seq<Node>, q: Node -> bool) { forall n | n in nodes :: !q(n) }

  /** Line `i` starts with the first mapping of its kind. */
  ghost predicate FirstOf(t: string, i: nat, q: Node -> bool)
    requires i < |t|
  {
    var nodes := Nodes(t[i..]);
    && NoneOf(Nodes(t[..i]), q) && Complete(t[..i]) && nodes != [] && q(nodes[0])
    && NodeOf(t[i..][..LineLen(t[i..])]) == [nodes[0]]
  }

  /** Looking for a line finds the first mapping of its kind. */
  lemma {:induction false} WhereNodes(t: string, p: string -> bool, q: Node -> bool)
    requires Reads(p, q)
    ensures match Yaml.LineWhere(t, p) case None => NoneOf(Nodes(t), q) case Some(i) => FirstOf(t, i, q)
    decreases |t|
  {
    hide NodeOf, LineLen, FirstOf, Nodes, NoneOf;
    if t == "" {
      NoneOfNothing(q);
    } else {
      var n := LineLen(t);
      LineLenFacts(t);
      if p(t[..n]) {
        FoundHere(t, p, q);
      } else {
        WhereNodes(t[n..], p, q);
        NotHere(t, p, q);
        match Yaml.LineWhere(t[n..], p) {
          case None =>
          case Some(i) => FoundLater(t, n, i, q);
        }
      }
    }
  }

  lemma {:induction false} NoneOfNothing(q: Node -> bool)
    ensures NoneOf(Nodes(""), q)
  {
  }

  lemma {:induction false} FoundHere(t: string, p: string -> bool, q: Node -> bool)
    requires t != "" && Reads(p, q) && p(t[..LineLen(t)])
    ensures FirstOf(t, 0, q)
  {
    hide NodeOf, LineLen;
    assert t[0..] == t && t[..0] == "";
    AtMostOne(t[..LineLen(t)]);
  }

  lemma {:induction false} NotHere(t: string, p: string -> bool, q: Node -> bool)
    requires t != "" && Reads(p, q) && !p(t[..LineLen(t)])
    ensures NoneOf(NodeOf(t[..LineLen(t)]), q)
    ensures NoneOf(Nodes(t), q) <==> NoneOf(Nodes(t[LineLen(t)..]), q)
  {
    hide NodeOf, LineLen;
    AtMostOne(t[..LineLen(t)]);
  }

  lemma {:induction false} FoundLater(t: string, n: nat, i: nat, q: Node -> bool)
    requires t != "" && n == LineLen(t) && n <= |t| && i < |t| - n && Complete(t[..n])
    requires NoneOf(NodeOf(t[..n]), q) && FirstOf(t[n..], i, q)
    ensures FirstOf(t, n + i, q)
  {
    hide NodeOf, LineLen, Nodes, Complete;
    LineLenFacts(t);
    Yaml.CompleteJoin(t, n, i);
    assert t[..n + i] == t[..n] + t[n..][..i] && t[n..][i..] == t[n + i..];
    NodesConcat(t[..n], t[n..][..i]);
    LineOf(t, n);
  }

  lemma {:induction false} AtMostOne(line: string)
    ensures NodeOf(line) != [] ==> NodeOf(line) == [NodeOf(line)[0]]
  {
    hide Yaml.MappingKey, ValueOf;
  }

  /** The first line of a text, alone, reads as it does in the text. */
  lemma {:induction false} LineOf(t: string, n: nat)
    requires t != "" && n == LineLen(t) && n <= |t|
    ensures Nodes(t[..n]) == NodeOf(t[..n])
  {
    hide NodeOf, LineLen;
    LineLenFacts(t);
    var line := t[..n];
    assert line + t[n..] == t;
    LineLenConcatBack(line, t[n..]);
    assert line[..n] == line && line[n..] == "";
    NoNodes();
  }

  /** A line is its own first line. */
  lemma {:induction false} LineLenConcatBack(line: string, rest: string)
    requires line != "" && LineLen(line + rest) == |line|
    ensures LineLen(line) == |line|
  {
    if |line| > 1 {
      assert (line + rest)[1..] == line[1..] + rest;
      if line[0] != '\n' { LineLenConcatBack(line[1..], rest); }
    }
  }

  /** A top-level section is the first line at indent 0 with its key, and the lines up to the next one at indent 0. */
  lemma {:induction false} SectionMeans(s: string, key: string)
    ensures match Yaml.TopSection(s, key)
      case None => forall n | n in Nodes(s) :: n.indent > 0 || n.key != key
      case Some(section) =>
        var head, body, after := Nodes(s[section.start..section.body]), Nodes(s[section.body..section.end]),
          Nodes(s[section.end..]);
        && (forall n | n in Nodes(s[..section.start]) :: n.indent > 0 || n.key != key)
        && |head| == 1 && head[0].indent == 0 && head[0].key == key
        && (forall n | n in body :: n.indent > 0)
        && (section.end == |s| || (after != [] && after[0].indent == 0))
  {
    hide NodeOf, LineLen, Yaml.LineWhere, Nodes;
    assert Reads(Yaml.TopKey(key), TopNamed(key)) by { TopReads(key); }
    assert Reads(Yaml.TopLine(), AtTop()) by { TopReads(key); }
    WhereNodes(s, Yaml.TopKey(key), TopNamed(key));
    match Yaml.TopSection(s, key) {
      case None =>
      case Some(section) =>
        var i := section.start;
        var t := s[i..];
        LineOf(t, LineLen(t));
        StretchMeans(s, i, Yaml.TopLine(), AtTop());
        assert t[..LineLen(t)] == s[i..section.body];
    }
  }

  lemma {:induction false} TopReads(key: string)
    ensures Reads(Yaml.TopKey(key), TopNamed(key)) && Reads(Yaml.TopLine(), AtTop())
  {
    hide Yaml.MappingKey, ValueOf;
  }

  /** From a line's end up to the next line of a kind there is none of that kind. */
  lemma {:induction false} StretchMeans(s: string, i: nat, p: string -> bool, q: Node -> bool)
    requires i < |s| && Reads(p, q)
    ensures var body, end := i + LineLen(s[i..]), Yaml.AfterLine(s, i, p);
      && body <= end <= |s| && (forall n | n in Nodes(s[body..end]) :: !q(n))
      && (end == |s| || (Nodes(s[end..]) != [] && q(Nodes(s[end..])[0])))
  {
    hide NodeOf, LineLen, Yaml.LineWhere, Nodes, Reads, Complete;
    var t := s[i..];
    LineLenFacts(t);
    var n := LineLen(t);
    var rest := t[n..];
    WhereNodes(rest, p, q);
    assert rest == s[i + n..] && s[i + n..|s|] == rest;
    if Yaml.LineWhere(rest, p).Some? {
      var j := Yaml.LineWhere(rest, p).value;
      assert rest[..j] == s[i + n..i + n + j] && rest[j..] == s[i + n + j..];
    }
  }

  /** An entry is the first indented line with its key, and the lines up to the next one at its own indent. */
  lemma {:induction false} EntryMeans(t: string, key: string)
    ensures match Yaml.SectionEntry(t, key)
      case None => forall n | n in Nodes(t) :: n.indent == 0 || n.key != key
      case Some((i, j)) =>
        var head := Nodes(t[i..]);
        && (forall n | n in Nodes(t[..i]) :: n.indent == 0 || n.key != key)
        && head != [] && head[0].indent > 0 && head[0].key == key
        && i + LineLen(t[i..]) <= j <= |t|
        && (forall n | n in Nodes(t[i + LineLen(t[i..])..j]) :: n.indent != head[0].indent)
        && (j == |t| || (Nodes(t[j..]) != [] && Nodes(t[j..])[0].indent == head[0].indent))
  {
    hide NodeOf, LineLen, Yaml.LineWhere, Nodes;
    assert Reads(Yaml.EntryKey(key), EntryNamed(key)) by { EntryReads(key, 0); }
    WhereNodes(t, Yaml.EntryKey(key), EntryNamed(key));
    match Yaml.SectionEntry(t, key) {
      case None =>
      case Some((i, j)) =>
        var indent := Yaml.IndentAt(t, i);
        EntryReads(key, indent);
        StretchMeans(t, i, Yaml.AtIndent(indent), AtDepth(indent));
        IndentRead(t[i..][..LineLen(t[i..])]);
    }
  }

  lemma {:induction false} EntryReads(key: string, indent: nat)
    ensures Reads(Yaml.EntryKey(key), EntryNamed(key))
    ensures Reads(Yaml.AtIndent(indent), AtDepth(indent))
  {
    hide Yaml.MappingKey, ValueOf;
  }

  lemma {:induction false} IndentRead(line: string)
    requires NodeOf(line) != []
    ensures Yaml.MappingKey(line).Some? && Yaml.MappingKey(line).value.indent == NodeOf(line)[0].indent
  {
    hide Yaml.MappingKey, ValueOf;
  }
}
