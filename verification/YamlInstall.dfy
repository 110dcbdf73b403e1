/**
 Installing into YAML twice: the block just written is found again, and when
 that makes the second install a no-op.
 */
module YamlInstall {
  import opened Basics
  import opened Text
  import opened Toml
  import opened TomlEdit
  import opened TomlFrame
  import opened TomlBlock
  import opened TomlConverge
  import opened TomlInstall
  import Yaml

  // ---------------------------------------------------------------- the parts of a block

  /** Between the begin marker and the printed URL. */
  function Open(key: string, newline: string): string { newline + "  " + key + ":" + newline + ("    url: " + "\"") }

  /** Between the printed URL and the end marker. */
  function Close(newline: string): string {
    "\"" + newline + "    enabled: true" + newline + "    timeout: 120" + newline + "    connect_timeout: 60" +
        newline + "  "
  }

  function Middle(key: string, url: string, newline: string): string {
    Open(key, newline) + (Escape(url) + Close(newline))
  }

  lemma {:induction false} BlockIs(key: string, url: string, newline: string)
    ensures Yaml.Block(key, url, newline) ==
      "  " + (BeginMarker(key) + (Middle(key, url, newline) + (EndMarker(key) + newline)))
  {
    hide Escape, BeginMarker, EndMarker;
    var q, e := "\"", Escape(url);
    var n, u := newline, "    url: ";
    var a, b, c := "    enabled: true", "    timeout: 120", "    connect_timeout: 60";
    Regroup("  " + BeginMarker(key), n + "  " + key + ":" + n, u, q, e, n + a + n + b + n + c + n + "  ",
        EndMarker(key) + n);
    Flatten("  " + BeginMarker(key), n, "  ", key, ":", u + BasicString(url), a, b, c, EndMarker(key));
    Assoc3(q, n, a, b, c, "  ");
    Assoc("  ", BeginMarker(key), Middle(key, url, newline) + (EndMarker(key) + newline));
  }

  lemma {:induction false} Assoc3(q: string, n: string, a: string, b: string, c: string, sp: string)
    ensures q + n + a + n + b + n + c + n + sp == q + (n + a + n + b + n + c + n + sp)
  {
  }

  lemma {:induction false} Regroup(x: string, k: string, u: string, q: string, e: string, r: string, f: string)
    ensures x + (k + (u + (q + e + q)) + r + f) == x + (k + (u + q) + (e + (q + r)) + f)
  {
    assert k + (u + (q + e + q)) + r == k + (u + q) + (e + (q + r));
  }

  lemma {:induction false} Flatten(
    x: string, n: string, sp: string, key: string, colon: string, u: string, a: string, b: string, c: string,
    em: string)
    ensures x + n + sp + key + colon + n + u + n + a + n + b + n + c + n + sp + em + n
         == x + (n + sp + key + colon + n + u + (n + a + n + b + n + c + n + sp) + (em + n))
  {
    var k, r := n + sp + key + colon + n, n + a + n + b + n + c + n + sp;
    assert x + n + sp + key + colon + n == x + k;
    assert x + k + u + n + a + n + b + n + c + n + sp == x + k + u + r;
    assert x + k + u + r + em + n == x + (k + u + r + (em + n));
  }

  lemma {:induction false} PartsHaveNoHash(key: string, newline: string)
    requires IsBareKey(key) && IsNewline(newline)
    ensures '#' !in Open(key, newline) && '#' !in Close(newline) && "\"" <= Close(newline)
  {
    BareIsPlain(key);
    assert '#' !in "    enabled: true" && '#' !in "    timeout: 120" && '#' !in "    connect_timeout: 60";
  }

  // ---------------------------------------------------------------- the block is found again

  lemma {:induction false} EndFound(key: string, url: string, newline: string, post: string)
    requires IsBareKey(key) && IsNewline(newline) && !Occurs(url, EndMarker(key))
    ensures Find(BeginMarker(key) + (Middle(key, url, newline) + (EndMarker(key) + newline)) + post, EndMarker(key))
         == Some(|BeginMarker(key)| + |Middle(key, url, newline)|)
  {
    hide At, Clear, Escape, Open, Close, Occurs, Unescaped, IsBareKey, BeginMarker, EndMarker;
    var b, mid, em := BeginMarker(key), Middle(key, url, newline), EndMarker(key);
    var y := em + newline + post;
    MarkerShape(key);
    PartsHaveNoHash(key, newline);
    ClearQuoted(Open(key, newline), url, Close(newline), y, em);
    ClearOtherHead(b, mid + y, em);
    ClearConcat(b, mid, y, em);
    ClearFind(b + mid, y, em);
    assert b + (mid + (em + newline)) + post == b + mid + y;
  }

  lemma {:induction false} BeginFound(pre: string, y: string, pat: string)
    requires Complete(pre) && !Occurs(pre, pat) && pat <= y && pat != "" && pat[0] == '#' && !HasNewline(pat)
    ensures Find(pre + ("  " + y), pat) == Some(|pre| + 2)
  {
    hide At, Clear, Occurs;
    ClearLines(pre, "  " + y, pat);
    ClearNoHash("  ", y, pat);
    ClearConcat(pre, "  ", y, pat);
    ClearFind(pre + "  ", y, pat);
    assert pre + "  " + y == pre + ("  " + y);
  }

  lemma {:induction false} BreakIs(newline: string, post: string)
    requires IsNewline(newline)
    ensures Yaml.BreakLen(newline + post) == |newline|
  {
    var t := newline + post;
    assert t[0] == newline[0] && t[..|newline|] == newline;
    if newline == "\n" {
      assert "\r\n"[0] != t[0];
      assert !("\r\n" <= t);
    }
  }

  lemma {:induction false} OutCuts(pre: string, b: string, mid: string, em: string, newline: string, post: string)
    ensures var block := "  " + (b + (mid + (em + newline)));
      var out := pre + (block + post);
      var y := b + (mid + (em + newline)) + post;
      && out == pre + ("  " + y) && b <= y && out[|pre| + 2..] == y
      && out[|pre| + 2 + (|b| + |mid|) + |em|..] == newline + post
      && out[..|pre|] == pre && out[|pre|..|pre| + 2] == "  "
  {
    var y := b + (mid + (em + newline)) + post;
    assert y == b + mid + em + (newline + post);
    assert pre + ("  " + y) == pre + "  " + b + mid + em + (newline + post);
  }

  /** Around a built block the locator reports exactly its span. */
  lemma {:induction false} BlockFoundAgain(pre: string, key: string, url: string, newline: string, post: string)
    requires IsBareKey(key) && IsNewline(newline) && !Occurs(url, EndMarker(key))
    requires Complete(pre) && !Occurs(pre, BeginMarker(key))
    ensures var block := Yaml.Block(key, url, newline);
      Yaml.Managed(pre + (block + post), key) == Yaml.Place(|pre|, |pre| + |block|)
  {
    hide Yaml.Block, Yaml.BreakLen, Middle, Occurs, IsBareKey, BeginMarker, EndMarker, LineStart, Find;
    var b, mid, em := BeginMarker(key), Middle(key, url, newline), EndMarker(key);
    var block := Yaml.Block(key, url, newline);
    BlockIs(key, url, newline);
    var y := b + (mid + (em + newline)) + post;
    var out := pre + (block + post);
    OutCuts(pre, b, mid, em, newline, post);
    MarkerShape(key);
    BeginFound(pre, y, b);
    EndFound(key, url, newline, post);
    BreakIs(newline, post);
    LineStartIs(out, |pre|, |pre| + 2);
  }

  // ---------------------------------------------------------------- what is kept before the block

  lemma {:induction false} LineStartCut(s: string, m: nat)
    requires m <= |s|
    ensures Complete(s[..LineStart(s, m)])
  {
    LineStartFacts(s, m);
  }

  /** A section's end and its entry's start are places where a line starts, or the end of the text. */
  lemma {:induction false} SectionCuts(s: string, key: string)
    requires Yaml.TopSection(s, "mcp_servers").Some?
    ensures var sec := Yaml.TopSection(s, "mcp_servers").value;
      && (sec.end < |s| ==> Complete(s[..sec.end]))
      && var entry := Yaml.SectionEntry(s[sec.body..sec.end], key);
         entry.Some? ==> Complete(s[..sec.body + entry.value.0])
  {
    hide Yaml.MappingKey, Yaml.LineWhere, Yaml.TopKey, Yaml.TopLine, Yaml.EntryKey, Yaml.AtIndent, LineLen;
    var i := Yaml.LineWhere(s, Yaml.TopKey("mcp_servers")).value;
    var sec := Yaml.TopSection(s, "mcp_servers").value;
    Yaml.LineWhereCut(s, Yaml.TopKey("mcp_servers"));
    var t := s[i..];
    var n := LineLen(t);
    LineLenFacts(t);
    assert s[sec.body..] == t[n..];
    BodyCut(s, i, n);
    var top := Yaml.LineWhere(t[n..], Yaml.TopLine());
    if top.Some? {
      Yaml.LineWhereCut(t[n..], Yaml.TopLine());
      Yaml.CompleteJoin(s, sec.body, top.value);
    }
    var body := s[sec.body..sec.end];
    var entry := Yaml.LineWhere(body, Yaml.EntryKey(key));
    if entry.Some? {
      Yaml.LineWhereCut(body, Yaml.EntryKey(key));
      assert body[..entry.value] == s[sec.body..][..entry.value];
      if n < |t| { Yaml.CompleteJoin(s, sec.body, entry.value); }
    }
  }

  lemma {:induction false} BodyCut(s: string, i: nat, n: nat)
    requires i + n <= |s| && 0 < n && (n < |s| - i ==> s[i..][n - 1] == '\n')
    ensures i + n < |s| ==> Complete(s[..i + n])
  {
  }

  /** Before the block are whole lines without a begin marker. */
  lemma {:induction false} PreFacts(s: string, key: string)
    requires IsBareKey(key) && Yaml.Pieces(s, key).Some?
    ensures var pre := Yaml.Pieces(s, key).value.pre; Complete(pre) && !Occurs(pre, BeginMarker(key))
  {
    hide Find, Occurs, IsBareKey, BeginMarker, EndMarker, Padding, DetectNewline, LineStart, Yaml.TopSection,
         Yaml.SectionEntry;
    MarkerShape(key);
    var b := BeginMarker(key);
    if Find(s, b).Some? {
      var m := Find(s, b).value;
      NoneBefore(s, b, LineStart(s, m));
      LineStartCut(s, m);
    } else {
      NoneBefore(s, b, |s|);
      assert s[..|s|] == s;
      match Yaml.TopSection(s, "mcp_servers") {
        case None => AppendedPre(s, key);
        case Some(sec) =>
          SectionCuts(s, key);
          match Yaml.SectionEntry(s[sec.body..sec.end], key) {
            case Some((i, j)) => NoneBefore(s, b, sec.body + i);
            case None =>
              NoneBefore(s, b, sec.end);
              SectionPre(s, sec.end, b);
          }
      }
    }
  }

  lemma {:induction false} SectionPre(s: string, end: nat, b: string)
    requires 0 < end <= |s| && !Occurs(s[..end], b) && b != "" && !HasNewline(b) && '\r' !in b
    ensures var pre := s[..end] + (if !EndsWith(s[..end], "\n") then DetectNewline(s) else "");
      Complete(pre) && !Occurs(pre, b)
  {
    hide Occurs, Find;
    var t := s[..end];
    assert t[|t| - 1..] == [t[|t| - 1]];
    if !EndsWith(t, "\n") {
      BreaksAddNone(t, DetectNewline(s), b);
    } else {
      assert t + "" == t;
    }
  }

  lemma {:induction false} AppendedPre(s: string, key: string)
    requires IsBareKey(key) && !Occurs(s, BeginMarker(key))
    ensures var pre := s + Padding(s) + Yaml.SECTION_LINE + DetectNewline(s);
      Complete(pre) && !Occurs(pre, BeginMarker(key))
  {
    hide Occurs, Find, IsBareKey, BeginMarker, EndMarker, Padding, Foreign;
    var b, newline := BeginMarker(key), DetectNewline(s);
    MarkerShape(key);
    PaddingForeign(s, key);
    PaddingAddsNone(s, b);
    var line := Yaml.SECTION_LINE + newline;
    NoMarkerWithoutHash(line, b);
    OccursConcat(s + Padding(s), line, b);
    assert s + Padding(s) + Yaml.SECTION_LINE + newline == s + Padding(s) + line;
  }

  lemma {:induction false} NoMarkerWithoutHash(t: string, b: string)
    requires b != "" && b[0] == '#' && '#' !in t
    ensures !Occurs(t, b)
  {
    hide At;
    forall i: nat | i <= |t| ensures !At(t, b, i) { AtChar(t, b, i, 0); }
  }

  // ---------------------------------------------------------------- line breaks

  lemma {:induction false} BlockNoCr(key: string, url: string)
    requires IsBareKey(key)
    ensures var block := Yaml.Block(key, url, "\n"); '\r' !in block && block != ""
  {
    hide Escape, IsBareKey, BeginMarker, EndMarker;
    MarkerShape(key);
    EscapeNoCr(url);
    BareHasNoCr(key);
    assert '\r' !in "    url: " && '\r' !in "    enabled: true" && '\r' !in "    timeout: 120";
    assert '\r' !in "    connect_timeout: 60";
  }

  lemma {:induction false} BareHasNoCr(key: string)
    requires IsBareKey(key)
    ensures '\r' !in key
  {
  }

  lemma {:induction false} BlockHasCrlf(pre: string, key: string, url: string, post: string)
    ensures Occurs(pre + (Yaml.Block(key, url, CRLF) + post), CRLF)
  {
    hide Yaml.Block, Middle, BeginMarker, EndMarker;
    BlockIs(key, url, CRLF);
    var block := Yaml.Block(key, url, CRLF);
    var out := pre + (block + post);
    var i := |pre| + |block| - 2;
    assert block[|block| - 2..] == CRLF;
    assert out[i..i + |CRLF|] == CRLF;
    assert At(out, CRLF, i);
  }

  lemma {:induction false} BlockLength(key: string, url: string)
    ensures |Yaml.Block(key, url, CRLF)| != |Yaml.Block(key, url, "\n")|
  {
    hide BeginMarker, EndMarker, BasicString;
  }

  /** The editor adds an entry right after a carriage return that no line feed follows. */
  predicate AddsAfterBareCr(s: string, key: string) {
    && Yaml.Managed(s, key).NoPlace? && s != "" && s[|s| - 1] == '\r' && !Occurs(s, CRLF)
    && match Yaml.TopSection(s, "mcp_servers")
       case None => true
       case Some(sec) => sec.end == |s| && Yaml.SectionEntry(s[sec.body..sec.end], key).None?
  }

  lemma {:induction false} SeamCrlf(t: string)
    requires t != "" && !Occurs(t, CRLF)
    ensures Occurs(t + "\n", CRLF) <==> t[|t| - 1] == '\r'
  {
    hide Occurs;
    if t[|t| - 1] == '\r' {
      CrlfAtSeam(t, "\n");
    } else {
      NoCrIsNoCrlf("\n");
      CrlfConcat(t, "\n");
    }
  }

  /** Where the kept pieces of a text without CRLF get one. */
  lemma {:induction false} PiecesCrlf(s: string, key: string)
    requires Yaml.Pieces(s, key).Some? && !Occurs(s, CRLF)
    ensures var kept := Yaml.Pieces(s, key).value;
      (Occurs(kept.pre, CRLF) <==> AddsAfterBareCr(s, key)) && !Occurs(kept.post, CRLF)
  {
    hide Occurs, Find, Yaml.Managed, Padding, Yaml.TopSection, Yaml.SectionEntry;
    DetectIs(s);
    match Yaml.Managed(s, key) {
      case Place(start, end) => PartsCrlf(s, start, end);
      case NoPlace =>
        match Yaml.TopSection(s, "mcp_servers") {
          case None => AppendedCrlf(s);
          case Some(sec) =>
            SectionCuts(s, key);
            match Yaml.SectionEntry(s[sec.body..sec.end], key) {
              case Some((i, j)) => PartsCrlf(s, sec.body + i, sec.body + j);
              case None =>
                PartsCrlf(s, sec.end, sec.end);
                SectionCrlf(s, sec.end);
            }
        }
      case NoEnd =>
    }
  }

  lemma {:induction false} PartsCrlf(s: string, i: nat, j: nat)
    requires i <= |s| && j <= |s| && !Occurs(s, CRLF)
    ensures !Occurs(s[..i], CRLF) && !Occurs(s[j..], CRLF)
  {
    assert s[..i] == s[0..i] && s[j..] == s[j..|s|];
    CrlfSlice(s, 0, i);
    CrlfSlice(s, j, |s|);
  }

  lemma {:induction false} SectionCrlf(s: string, end: nat)
    requires 0 < end <= |s| && !Occurs(s[..end], CRLF) && (end < |s| ==> Complete(s[..end]))
    ensures var pre := s[..end] + (if !EndsWith(s[..end], "\n") then "\n" else "");
      Occurs(pre, CRLF) <==> end == |s| && s[|s| - 1] == '\r'
  {
    hide Occurs;
    var t := s[..end];
    assert t[|t| - 1..] == [t[|t| - 1]] && t[|t| - 1] == s[end - 1];
    if EndsWith(t, "\n") {
      assert t + "" == t;
    } else {
      SeamCrlf(t);
    }
  }

  lemma {:induction false} AppendedCrlf(s: string)
    requires !Occurs(s, CRLF)
    ensures Occurs(s + Padding(s) + Yaml.SECTION_LINE + "\n", CRLF) <==> s != "" && s[|s| - 1] == '\r'
    ensures !Occurs("", CRLF)
  {
    hide Occurs, Padding;
    EmptyHasNone(CRLF);
    PaddingCrlf(s);
    var line := Yaml.SECTION_LINE + "\n";
    var t := s + Padding(s);
    assert t + Yaml.SECTION_LINE + "\n" == t + line;
    assert '\r' !in line;
    NoCrIsNoCrlf(line);
    if Occurs(t, CRLF) {
      OccursExtend(t, line, CRLF);
    } else {
      PaddingForeign(s, "");
      CrlfConcat(t, line);
    }
  }

  lemma {:induction false} CrlfOfOut(pre: string, key: string, url: string, post: string)
    requires IsBareKey(key) && Complete(pre) && !Occurs(post, CRLF)
    ensures Occurs(pre + (Yaml.Block(key, url, "\n") + post), CRLF) <==> Occurs(pre, CRLF)
  {
    hide Yaml.Block, Occurs, IsBareKey;
    var block := Yaml.Block(key, url, "\n");
    BlockNoCr(key, url);
    NoCrIsNoCrlf(block);
    assert block[|block| - 1] in block;
    CrlfConcat(block, post);
    if Occurs(pre, CRLF) {
      OccursExtend(pre, block + post, CRLF);
    } else {
      CrlfConcat(pre, block + post);
    }
  }

  /** The line break the next install will detect. */
  lemma {:induction false} NewlineAfter(s: string, key: string, url: string)
    requires IsBareKey(key) && Yaml.Pieces(s, key).Some?
    ensures var kept := Yaml.Pieces(s, key).value;
      var out := kept.pre + (Yaml.Block(key, url, DetectNewline(s)) + kept.post);
      DetectNewline(out) == DetectNewline(s) <==> !AddsAfterBareCr(s, key)
  {
    hide Yaml.Block, Yaml.Pieces, Yaml.Managed, Yaml.TopSection, Yaml.SectionEntry, Occurs, IsBareKey, Find;
    var kept := Yaml.Pieces(s, key).value;
    var out := kept.pre + (Yaml.Block(key, url, DetectNewline(s)) + kept.post);
    DetectIs(s);
    DetectIs(out);
    if Occurs(s, CRLF) {
      BlockHasCrlf(kept.pre, key, url, kept.post);
    } else {
      PiecesCrlf(s, key);
      PreFacts(s, key);
      CrlfOfOut(kept.pre, key, url, kept.post);
    }
  }

  // ---------------------------------------------------------------- installing twice

  /** Installing again over a built block replaces exactly that block. */
  lemma {:induction false} ApplyOverBlock(pre: string, key: string, url: string, newline: string, post: string)
    requires IsBareKey(key) && IsNewline(newline) && !Occurs(url, EndMarker(key))
    requires Complete(pre) && !Occurs(pre, BeginMarker(key))
    ensures var out := pre + (Yaml.Block(key, url, newline) + post);
      Yaml.Apply(out, key, url) == Yaml.Edited(pre + (Yaml.Block(key, url, DetectNewline(out)) + post), true)
  {
    hide Yaml.Block, Yaml.Managed, Yaml.TopSection, Yaml.SectionEntry, Occurs, IsBareKey, DetectNewline;
    BlockFoundAgain(pre, key, url, newline, post);
    var block := Yaml.Block(key, url, newline);
    var out := pre + (block + post);
    assert out[..|pre|] == pre && out[|pre| + |block|..] == post;
  }

  /** A second install changes nothing, if and only if the first did not add its entry after a bare carriage return. */
  lemma {:induction false} YamlInstallTwice(s: string, key: string, url: string)
    requires IsBareKey(key) && !Occurs(url, EndMarker(key)) && Yaml.Apply(s, key, url).Edited?
    ensures var out := Yaml.Apply(s, key, url).contents;
      Yaml.Apply(out, key, url) == Yaml.Edited(out, true) <==> !AddsAfterBareCr(s, key)
  {
    hide Yaml.Block, Yaml.Pieces, Occurs, IsBareKey, AddsAfterBareCr, Find, EndMarker;
    PreFacts(s, key);
    NewlineAfter(s, key, url);
    var kept := Yaml.Pieces(s, key).value;
    var n1 := DetectNewline(s);
    var out := kept.pre + (Yaml.Block(key, url, n1) + kept.post);
    ApplyOverBlock(kept.pre, key, url, n1, kept.post);
    var n2 := DetectNewline(out);
    BlockLength(key, url);
    assert |kept.pre + (Yaml.Block(key, url, n2) + kept.post)| == |kept.pre| + |Yaml.Block(key, url, n2)| + |kept.post|;
    assert |out| == |kept.pre| + |Yaml.Block(key, url, n1)| + |kept.post|;
  }

  /** A text of one carriage return is such an input. */
  lemma {:induction false} YamlBareCrFails(key: string, url: string)
    requires IsBareKey(key) && !Occurs(url, EndMarker(key))
    ensures AddsAfterBareCr("\r", key)
    ensures var once := Yaml.Apply("\r", key, url);
      once.Edited? && Yaml.Apply(once.contents, key, url) != Yaml.Edited(once.contents, true)
  {
    hide Yaml.Block, Yaml.LineWhere, EndMarker, BeginMarker;
    var s := "\r";
    MarkerShape(key);
    assert Find(s, BeginMarker(key)).None? by {
      if Find(s, BeginMarker(key)).Some? {
        AtEnd(s, BeginMarker(key), Find(s, BeginMarker(key)).value);
      }
    }
    NoSectionInBreak("mcp_servers");
    assert !Occurs(s, CRLF);
    YamlInstallTwice(s, key, url);
  }

  lemma {:induction false} NoSectionInBreak(name: string)
    ensures Yaml.TopSection("\r", name).None?
  {
    hide Yaml.Unquoted;
    var s := "\r";
    assert LineLen(s) == 1 && s[..1] == s && s[1..] == "";
    assert Trim(Yaml.TrimBreaks(s)) == "" by { assert s[..0] == ""; }
    assert Yaml.MappingKey(s).None?;
  }
}
