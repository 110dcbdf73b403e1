/**
 The over-wide repair at byte level: which foreign sections survive, and on
 which texts the repair cannot slice its spans and aborts.
 */
module TomlSections {
  import opened Text
  import opened Toml
  import opened TomlEdit
  import opened TomlFrame
  import opened TomlBlock
  import opened TomlConverge

  // ---------------------------------------------------------------- sections and concatenation

  lemma {:induction false} HeaderConcat(a: string, b: string)
    requires Complete(a)
    ensures HeaderAt(a + b) == if HeaderAt(a).Some? then HeaderAt(a) else Shift(HeaderAt(b), |a|)
    decreases |a|
  {
    hide TrimTomlLine, IsHeader, LineLen, FirstLine;
    if a == "" {
      assert a + b == b;
    } else {
      FirstLineConcat(a, b);
      LineLenConcat(a, b);
      HeaderConcat(Rest(a), b);
    }
  }

  /** Up to the first header there is none. */
  lemma {:induction false} HeaderPrefix(t: string)
    requires HeaderAt(t).Some?
    ensures HeaderAt(t[..HeaderAt(t).value]).None?
    decreases |t|
  {
    hide TrimTomlLine, IsHeader, LineLen, FirstLine;
    var i := HeaderAt(t).value;
    if !IsHeader(FirstLine(t)) {
      var n := LineLen(t);
      HeaderPrefix(Rest(t));
      OneLineNoHeader(t);
      hide HeaderAt;
      Cuts(t, n, i);
      LineLenFacts(t);
      HeaderConcat(t[..n], Rest(t)[..i - n]);
    } else {
      assert t[..0] == "";
    }
  }

  lemma {:induction false} OneLineNoHeader(t: string)
    requires t != "" && !IsHeader(FirstLine(t))
    ensures HeaderAt(t[..LineLen(t)]).None?
  {
    hide TrimTomlLine, IsHeader, LineLen;
    FirstLineAlone(t);
  }

  /** A section does not reach into a text that starts with a header. */
  lemma {:induction false} SectionEndConcat(a: string, b: string)
    requires Complete(a) && a != "" && HeaderAt(b) == Some(0)
    ensures SectionEnd(a + b) == SectionEnd(a)
  {
    hide TrimTomlLine, IsHeader, LineLen, FirstLine, HeaderAt;
    FirstLineConcat(a, b);
    LineLenConcat(a, b);
    HeaderConcat(Rest(a), b);
  }

  /** The sections of a text whose first header is at `h`. */
  lemma {:induction false} SectionsStep(t: string, h: nat, key: string)
    requires HeaderAt(t) == Some(h)
    ensures var body := t[h..];
            var n := SectionEnd(body);
            ForeignSections(t, key) ==
            (if IsOwn(FirstLine(body), key) then [] else [body[..n]]) + ForeignSections(body[n..], key)
  {
  }

  lemma {:induction false} SectionsConcat(a: string, b: string, key: string)
    requires Complete(a) && HeaderAt(b) == Some(0)
    ensures ForeignSections(a + b, key) == ForeignSections(a, key) + ForeignSections(b, key)
    decreases |a|
  {
    hide *;
    if HeaderAt(a).None? {
      SectionsConcatBase(a, b, key);
    } else {
      SectionsConcatStep(a, b, key);
      var body := a[HeaderAt(a).value..];
      var n := SectionEnd(body);
      HeaderAtCut(a, HeaderAt(a).value);
      SuffixComplete(body, n);
      SectionsConcat(body[n..], b, key);
    }
  }

  lemma {:induction false} SectionsConcatBase(a: string, b: string, key: string)
    requires Complete(a) && HeaderAt(b) == Some(0) && HeaderAt(a).None?
    ensures ForeignSections(a, key) == []
    ensures ForeignSections(a + b, key) == ForeignSections(b, key)
  {
    hide IsOwn, FirstLine, HeaderAt, SectionEnd, Complete;
    HeaderConcat(a, b);
    SectionsStep(a + b, |a|, key);
    SectionsStep(b, 0, key);
    Halves(a, b, |a|);
    assert a[|a|..] == "" && "" + b == b && b[0..] == b;
  }

  lemma {:induction false} SectionsConcatStep(a: string, b: string, key: string)
    requires Complete(a) && HeaderAt(b) == Some(0) && HeaderAt(a).Some?
    ensures var body := a[HeaderAt(a).value..];
            var n := SectionEnd(body);
            var first := if IsOwn(FirstLine(body), key) then [] else [body[..n]];
            && 0 < n
            && ForeignSections(a, key) == first + ForeignSections(body[n..], key)
            && ForeignSections(a + b, key) == first + ForeignSections(body[n..] + b, key)
  {
    hide TrimTomlLine, IsHeader, IsOwn, LineLen, FirstLine, HeaderAt, SectionEnd, Complete, ForeignSections;
    var h := HeaderAt(a).value;
    var body := a[h..];
    HeaderConcat(a, b);
    HeaderAtCut(a, h);
    SectionEndConcat(body, b);
    FirstLineConcat(body, b);
    Halves(a, b, h);
    Halves(body, b, SectionEnd(body));
    SectionsStep(a, h, key);
    SectionsStep(a + b, h, key);
  }

  lemma {:induction false} Halves(a: string, b: string, n: nat)
    requires n <= |a|
    ensures (a + b)[..n] == a[..n] && (a + b)[n..] == a[n..] + b
  {
  }

  lemma {:induction false} HeaderAtCut(a: string, h: nat)
    requires Complete(a) && h < |a|
    ensures Complete(a[h..]) && a[h..] != ""
  {
  }

  lemma {:induction false} SuffixComplete(a: string, n: nat)
    requires Complete(a) && n <= |a|
    ensures Complete(a[n..])
  {
  }

  /** MCPace's own section contributes nothing, whatever follows it. */
  lemma {:induction false} OwnSection(x: string, y: string, key: string)
    requires x != "" && IsHeader(FirstLine(x)) && IsOwn(FirstLine(x), key) && HeaderAt(Rest(x)).None?
    requires y == "" || (Complete(x) && HeaderAt(y) == Some(0))
    ensures HeaderAt(x + y) == Some(0)
    ensures ForeignSections(x + y, key) == ForeignSections(y, key)
  {
    hide TrimTomlLine, IsHeader, IsOwn, LineLen, FirstLine;
    assert SectionEnd(x) == |x|;
    assert HeaderAt(x) == Some(0) && x[0..] == x && x[|x|..] == "";
    assert HeaderAt("") == None;
    if y == "" {
      assert x + y == x;
    } else {
      SectionsConcat(x, y, key);
      HeaderConcat(x, y);
    }
  }

  lemma {:induction false} OwnIsHeader(h: string, key: string)
    requires IsOwn(h, key)
    ensures IsHeader(h)
  {
  }

  // ---------------------------------------------------------------- the repair keeps sections

  /** MCPace's own table inside a range, as three texts. */
  lemma {:induction false} TableParts(t: string, key: string)
    requires LocateTable(t, key).Some?
    ensures var (i, j) := LocateTable(t, key).value;
            && IsOwn(FirstLine(t[i..j]), key) && HeaderAt(Rest(t[i..j])).None?
            && (j < |t| ==> Complete(t[i..j]) && HeaderAt(t[j..]) == Some(0))
  {
    hide TrimTomlLine, IsHeader, IsOwn, LineLen, OwnAt, FirstLine, HeaderAt;
    var (i, j) := LocateTable(t, key).value;
    OwnFacts(t, key);
    var u := t[i..];
    Cuts(t, i, j);
    OwnTable(u, key);
  }

  lemma {:induction false} OwnTable(u: string, key: string)
    requires u != "" && IsOwn(FirstLine(u), key)
    ensures var n := SectionEnd(u);
            && IsOwn(FirstLine(u[..n]), key) && HeaderAt(Rest(u[..n])).None?
            && (n < |u| ==> Complete(u[..n]) && HeaderAt(u[n..]) == Some(0))
  {
    hide TrimTomlLine, IsHeader, IsOwn, LineLen, Foreign;
    var l, n := LineLen(u), SectionEnd(u);
    SectionFacts(u, key);
    if n < |u| {
      HeaderPrefix(Rest(u));
      assert u == u[..n] + u[n..];
      FirstLineConcat(u[..n], u[n..]);
      LineLenConcat(u[..n], u[n..]);
      Cuts(u, l, n);
      assert Rest(u[..n]) == u[l..n];
    } else {
      assert u[..n] == u;
    }
  }

  /**
   An over-wide block is repaired without touching foreign sections: what lies
   between the marker lines holds exactly the sections of the two parts the
   editor copies, byte for byte and in order.
   */
  lemma {:induction false} RepairKeepsSections(s: string, key: string, span: Span)
    requires Locate(s, key) == Found(span) && span.Recover? && Ordered(s, span)
    ensures var before := if span.preserve then s[span.beginLineEnd..span.tableStart] else "";
            ForeignSections(s[span.beginLineEnd..span.endLineStart], key) ==
            ForeignSections(before, key) + ForeignSections(s[span.tableEnd..span.endLineStart], key)
  {
    hide Foreign, LocateTable, Complete, Cut, ForeignSections, LineStart, LineEndAfter, BeginMarker, EndMarker;
    SpanBounds(s, key);
    var m := Find(s, BeginMarker(key)).value;
    var k := Find(s[m..], EndMarker(key)).value;
    assert s[m..] == s[m..|s|];
    AtSlice(s, EndMarker(key), m, |s|, k);
    OwnTableInside(s, key, m + |BeginMarker(key)|, m + k, span);
    SectionsOfPart(s[span.beginLineEnd..span.tableStart], key);
    SectionsEmpty(key);
  }

  /** A section is a part of its text. */
  lemma {:induction false} SectionInside(t: string, key: string, section: string) returns (i: nat)
    requires section in ForeignSections(t, key)
    ensures At(t, section, i)
    decreases |t|
  {
    hide IsOwn, SectionEnd, FirstLine, HeaderAt, At;
    var h := HeaderAt(t).value;
    var body := t[h..];
    var n := SectionEnd(body);
    if section == body[..n] {
      i := h;
      AtCut(t, h, n);
    } else {
      var k := SectionInside(body[n..], key, section);
      i := h + n + k;
      assert body[n..] == t[h + n..] == t[h + n..|t|];
      AtSlice(t, section, h + n, |t|, k);
    }
  }

  lemma {:induction false} AtCut(t: string, h: nat, n: nat)
    requires h + n <= |t|
    ensures At(t, t[h..][..n], h)
  {
    assert t[h..][..n] == t[h..h + n];
  }

  lemma {:induction false} PartStays(before: string, t: string, after: string, part: string, i: nat)
    requires At(t, part, i)
    ensures Occurs(before + t + after, part)
  {
    var out, j := before + t + after, |before| + i;
    assert out[j..j + |part|] == t[i..i + |part|];
    assert At(out, part, j);
  }

  /**
   Every foreign section inside an over-wide block is in the repaired text,
   byte for byte.
   */
  lemma {:induction false} RepairedSectionsStay(s: string, key: string, block: string, section: string)
    requires Apply(s, key, block).Updated? && Locate(s, key).Found? && Locate(s, key).span.Recover?
    requires var span := Locate(s, key).span;
      && span.beginLineEnd <= span.endLineStart <= |s|
      && section in ForeignSections(s[span.beginLineEnd..span.endLineStart], key)
    ensures Occurs(Apply(s, key, block).contents, section)
  {
    hide Foreign, LocateTable, Complete, ForeignSections, Locate, Padding, Occurs, At;
    var span := Locate(s, key).span;
    SplicedOrder(s, key, block);
    RepairKeepsSections(s, key, span);
    var kept := if span.preserve then s[span.beginLineEnd..span.tableStart] else "";
    var rest := s[span.tableEnd..span.endLineStart];
    var front, back := s[..span.beginLineStart], s[span.endLineEnd..];
    var out := Apply(s, key, block).contents;
    assert out == front + kept + block + rest + back;
    if section in ForeignSections(kept, key) {
      var i := SectionInside(kept, key, section);
      PartStays(front, kept, block + rest + back, section, i);
      assert out == front + kept + (block + rest + back);
    } else {
      var i := SectionInside(rest, key, section);
      PartStays(front + kept + block, rest, back, section, i);
    }
  }

  lemma {:induction false} SectionsEmpty(key: string)
    ensures ForeignSections("", key) == []
  {
  }

  /** Without foreign headers there are no foreign sections. */
  lemma {:induction false} SectionsOfPart(t: string, key: string)
    ensures Foreign(t, key) == [] ==> ForeignSections(t, key) == []
    decreases |t|
  {
    hide TrimTomlLine, IsHeader, IsOwn, LineLen, FirstLine;
    if HeaderAt(t).Some? && Foreign(t, key) == [] {
      var i := HeaderAt(t).value;
      HeaderFacts(t, key);
      ForeignSplit(t, i, key);
      var body := t[i..];
      assert IsOwn(FirstLine(body), key);
      SectionFacts(body, key);
      ForeignSplit(body, SectionEnd(body), key);
      SectionsOfPart(body[SectionEnd(body)..], key);
    }
  }

  lemma {:induction false} OwnTableInside(s: string, key: string, a: nat, e: nat, span: Span)
    requires span.Recover? && Ordered(s, span) && a <= span.beginLineEnd && span.endLineStart <= e <= |s|
    requires Complete(s[span.beginLineEnd..span.tableStart]) && Complete(s[..span.endLineStart])
    requires LocateTable(s[a..e], key) == Some((span.tableStart - a, span.tableEnd - a))
    ensures ForeignSections(s[span.beginLineEnd..span.endLineStart], key) ==
            ForeignSections(s[span.beginLineEnd..span.tableStart], key)
            + ForeignSections(s[span.tableEnd..span.endLineStart], key)
  {
    hide Foreign, LocateTable, ForeignSections, HeaderAt, FirstLine, Complete;
    var ble, ts, te, els := span.beginLineEnd, span.tableStart, span.tableEnd, span.endLineStart;
    var t := s[a..e];
    TableParts(t, key);
    Sub(s, a, e, ts - a, te - a);
    Sub(s, a, e, te - a, e - a);
    assert t[te - a..] == t[te - a..e - a];
    HeaderInside(s, te, els, e);
    var x, y := s[ts..te], s[te..els];
    OwnIsHeader(FirstLine(x), key);
    OwnSection(x, y, key);
    Join(s, ts, te, els);
    SectionsConcat(s[ble..ts], x + y, key);
    Join(s, ble, ts, els);
  }

  /** A header found before the end marker's line is found in the text cut at that line. */
  lemma {:induction false} HeaderInside(s: string, te: nat, els: nat, e: nat)
    requires te <= els <= e <= |s| && Complete(s[..els])
    requires te < e ==> HeaderAt(s[te..e]) == Some(0)
    ensures te < els ==> HeaderAt(s[te..els]) == Some(0)
  {
    hide FirstLine, LineLen, IsHeader;
    if te < els {
      assert s[te..e] == s[te..els] + s[els..e];
      assert s[te..els][els - te - 1] == s[..els][els - 1];
      HeaderConcat(s[te..els], s[els..e]);
    }
  }

  // ---------------------------------------------------------------- when the repair aborts

  /**
   The over-wide blocks the editor cannot slice: MCPace's own header follows
   the begin marker on its line, or MCPace's table runs up to an end marker
   that does not start its line.
   */
  ghost predicate Unsliceable(s: string, key: string) {
    match Find(s, BeginMarker(key))
    case None => false
    case Some(m) =>
      match Find(s[m..], EndMarker(key))
      case None => false
      case Some(k) =>
        && |BeginMarker(key)| <= k
        && var t := s[m + |BeginMarker(key)|..m + k];
           && Foreign(t, key) != []
           && match LocateTable(t, key)
              case None => false
              case Some((i, j)) => i == 0 || (j == |t| && LineStart(s, m + k) < m + k)
  }

  /** With no comment sign in the key the end marker cannot overlap the begin marker. */
  lemma {:induction false} MarkersDisjoint(s: string, key: string, m: nat, e: nat)
    requires '#' !in key && m <= e && At(s, BeginMarker(key), m) && At(s, EndMarker(key), e)
    ensures m + |BeginMarker(key)| <= e
  {
    TailsArePlain();
    var b, z := BeginMarker(key), EndMarker(key);
    assert b[2] == 'B' && z[2] == 'E' by {
      assert b[2] == BEGIN_TAIL[..2][1] && z[2] == END_TAIL[..2][1];
    }
    assert b[1..] == BEGIN_TAIL + key;
    assert forall i | 1 <= i < |b| :: b[i] == b[1..][i - 1];
    if e < m + |b| {
      AtChar(s, b, m, e - m);
      AtChar(s, z, e, 0);
      AtChar(s, b, m, 2);
      AtChar(s, z, e, 2);
    }
  }

  /** Where the spans fall out of order, told from the table's place in the range. */
  lemma {:induction false} TableOrder(s: string, key: string, a: nat, e: nat)
    requires a <= e < |s| && LocateTable(s[a..e], key).Some?
    ensures var (i, j) := LocateTable(s[a..e], key).value;
            && (a + i < LineEndAfter(s, a) <==> i == 0)
            && (LineStart(s, e) < a + j <==> j == e - a && LineStart(s, e) < e)
  {
    hide LineLen, LineStart, LineEndAfter, LocateTable, Foreign;
    var t := s[a..e];
    var (i, j) := LocateTable(t, key).value;
    TableFacts(t, key);
    LineEndCut(s, a);
    if i > 0 {
      FirstLineOfRange(s, a, e);
    }
    if j < |t| {
      assert t[..j][j - 1] == s[a + j - 1];
      LineStartAfter(s, a + j, e);
    }
  }

  lemma {:induction false} FirstLineOfRange(s: string, a: nat, e: nat)
    requires a < e <= |s| && LineLen(s[a..e]) < e - a
    ensures LineEndAfter(s, a) == a + LineLen(s[a..e])
  {
    hide LineLen, LineEndAfter;
    var t := s[a..e];
    var n := LineLen(t);
    LineLenFacts(t);
    LineEndAfterIs(s, a);
    assert s[a..][..n - 1] == t[..n - 1] && s[a..][n - 1] == t[n - 1];
    LineLenIs(s[a..], n);
  }

  lemma {:induction false} LineStartAfter(s: string, x: nat, e: nat)
    requires 0 < x <= e <= |s| && s[x - 1] == '\n'
    ensures x <= LineStart(s, e)
  {
    if x < e && s[e - 1] != '\n' {
      LineStartAfter(s, x, e - 1);
    }
  }

  /**
   The edit aborts exactly on the unsliceable texts; on every other text all
   the spans it slices are in order.
   */
  lemma {:induction false} AbortsExactly(s: string, key: string, block: string)
    requires '#' !in key
    ensures Apply(s, key, block).Aborted? <==> Unsliceable(s, key)
  {
    hide LineLen, LineStart, LineEndAfter, LocateTable, Foreign, Padding, BeginMarker, EndMarker;
    if Find(s, BeginMarker(key)).Some? {
      var m := Find(s, BeginMarker(key)).value;
      if Find(s[m..], EndMarker(key)).Some? {
        var k := Find(s[m..], EndMarker(key)).value;
        assert s[m..] == s[m..|s|];
        AtSlice(s, EndMarker(key), m, |s|, k);
        MarkersDisjoint(s, key, m, m + k);
        BetweenAborts(s, key, m, m + k, block);
      }
    }
  }

  lemma {:induction false} BetweenAborts(s: string, key: string, m: nat, e: nat, block: string)
    requires At(s, BeginMarker(key), m) && At(s, EndMarker(key), e) && m + |BeginMarker(key)| <= e
    ensures var t := s[m + |BeginMarker(key)|..e];
            var aborts := match LocateBetween(s, key, m, e)
                          case Abort => true
                          case Found(span) => Splice(s, block, span).None?
                          case _ => false;
            aborts <==> Foreign(t, key) != [] && LocateTable(t, key).Some? &&
                        (LocateTable(t, key).value.0 == 0 ||
                         (LocateTable(t, key).value.1 == |t| && LineStart(s, e) < e))
  {
    hide LineLen, LineStart, LineEndAfter, LocateTable, Foreign, BeginMarker;
    var a := m + |BeginMarker(key)|;
    if LocateTable(s[a..e], key).Some? {
      TableOrder(s, key, a, e);
    }
  }

  /** A block with a foreign table, MCPace's table last, and an indented end marker. */
  function IndentedBlock(key: string): string {
    BeginMarker(key) + ("\n" + ("[x]" + "\n" + (TableHeader(key) + "\n" + (" " + EndMarker(key)))))
  }

  /** The editor aborts on such a block, for every bare key. */
  lemma {:induction false} IndentedEndAborts(key: string, block: string)
    requires IsBareKey(key)
    ensures Apply(IndentedBlock(key), key, block).Aborted?
  {
    hide LineLen, LineStart, LineEndAfter, LocateTable, Foreign, Apply, Find, Clear, At, IndentedInner, BeginMarker,
         EndMarker;
    var s, bm, em := IndentedBlock(key), BeginMarker(key), EndMarker(key);
    var t := IndentedInner(key);
    MarkerShape(key);
    BareIsPlain(key);
    IndentedIs(key);
    IndentedMarkers(bm, t, em);
    IndentedTable(key);
    var m, k := 0, |bm + t|;
    assert s[m..] == s;
    assert s[m + |bm|..m + k] == t;
    IndentedLine(key, bm + t, em);
    AbortsExactly(s, key, block);
  }

  function IndentedInner(key: string): string {
    "\n" + ("[x]" + "\n" + (TableHeader(key) + "\n" + " "))
  }

  lemma {:induction false} IndentedIs(key: string)
    requires IsBareKey(key)
    ensures IndentedBlock(key) == BeginMarker(key) + IndentedInner(key) + EndMarker(key)
    ensures '#' !in IndentedInner(key)
  {
    hide BeginMarker, EndMarker;
    var bm, em, h := BeginMarker(key), EndMarker(key), TableHeader(key) + "\n";
    assert h + (" " + em) == (h + " ") + em;
    assert "[x]" + "\n" + ((h + " ") + em) == ("[x]" + "\n" + (h + " ")) + em;
    assert IndentedBlock(key) == bm + (IndentedInner(key) + em);
    BareIsPlain(key);
    assert '#' !in "[mcp_servers.";
  }

  lemma {:induction false} IndentedMarkers(bm: string, t: string, em: string)
    requires |bm| >= 3 && |em| >= 3 && bm[0] == '#' == em[0] && bm[2] != em[2]
    requires '#' !in bm[1..] && !HasNewline(bm) && '#' !in t
    ensures Find(bm + t + em, bm) == Some(0)
    ensures Find(bm + t + em, em) == Some(|bm + t|)
  {
    hide At, Clear;
    EmptyHasNone(bm);
    assert bm + t + em == bm + (t + em);
    BeginMarkerFound("", bm + t + em, bm);
    assert "" + (bm + t + em) == bm + t + em;
    ClearNoHash(t, em, em);
    ClearOtherHead(bm, t + em, em);
    ClearConcat(bm, t, em, em);
    ClearFind(bm + t, em, em);
  }

  /** The end marker stands one space into its line. */
  lemma {:induction false} IndentedLine(key: string, front: string, em: string)
    requires |front| >= 2 && front[|front| - 1] == ' ' && front[|front| - 2] == '\n'
    ensures LineStart(front + em, |front|) < |front|
  {
    var s := front + em;
    assert s[|front| - 1] == ' ' && s[|front| - 2] == '\n';
  }

  lemma {:induction false} IndentedTable(key: string)
    requires IsBareKey(key)
    ensures var t := IndentedInner(key);
            && Foreign(t, key) != []
            && LocateTable(t, key).Some? && LocateTable(t, key).value.1 == |t|
  {
    hide TrimTomlLine, Foreign, LineLen, IsBareKey;
    var own := TableHeader(key) + "\n" + " ";
    var rest := "[x]" + "\n" + own;
    var t := "\n" + rest;
    SampleLines();
    HeaderLine(key, "\n");
    HeaderScan(key);
    HeaderHasNoNewline(key);
    LineWithNewline("", "\n");
    LineWithNewline("[x]", "\n");
    LineWithNewline(TableHeader(key), "\n");
    assert "" + "\n" == "\n";
    LineStep("\n", rest, key);
    LineStep("[x]" + "\n", own, key);
    LineStep(TableHeader(key) + "\n", " ", key);
    LastBlank(key);
    NotOwnSample(key);
    OwnIsHeader(TableHeader(key), key);
    assert t[LocateTable(t, key).value.0..] == own;
  }

  lemma {:induction false} SampleLines()
    ensures TrimTomlLine("\n") == "" && TrimTomlLine(" ") == ""
    ensures TrimTomlLine("[x]" + "\n") == "[x]"
    ensures IsHeader("[x]")
  {
    BlankLine("\n");
    BlankLine(" ");
    PlainScan("[x]", "");
    assert "[x]" + "" == "[x]";
    StripTrailer("[x]", "", "", "\n");
    assert "[x]" + "" + "" + "\n" == "[x]" + "\n";
  }

  lemma {:induction false} NotOwnSample(key: string)
    ensures !IsOwn("[x]", key) && !IsOwn("", key) && !IsHeader("")
  {
    assert |TableHeader(key)| > 3 && |TableHeader(BasicString(key))| > 3;
  }

  lemma {:induction false} LastBlank(key: string)
    ensures HeaderAt(" ").None? && OwnAt(" ", key).None? && Foreign(" ", key) == []
  {
    hide TrimTomlLine;
    SampleLines();
    NotOwnSample(key);
    assert " "[..1] == " " && Rest(" ") == "";
  }

  // ---------------------------------------------------------------- a lost header

  /** A foreign header that shares its line with the begin marker. */
  function SharedLine(key: string): string {
    "[x] " + (BeginMarker(key) + "\n" + (TableHeader(key) + "\n" + (EndMarker(key) + "\n")))
  }

  lemma {:induction false} SharedMarkers(bm: string, t: string, em: string)
    requires |bm| >= 3 && |em| >= 3 && bm[0] == '#' == em[0] && bm[2] != em[2] && '#' !in bm[1..] && '#' !in t
    ensures var s := "[x] " + (bm + t + (em + "\n"));
            Find(s, bm) == Some(4) && s[4..] == bm + t + (em + "\n") && Find(s[4..], em) == Some(|bm| + |t|)
  {
    hide At, Clear;
    var y := bm + t + (em + "\n");
    ClearNoHash("[x] ", y, bm);
    assert y == bm + (t + (em + "\n"));
    ClearFind("[x] ", y, bm);
    var z := em + "\n";
    ClearNoHash(t, z, em);
    ClearOtherHead(bm, t + z, em);
    ClearConcat(bm, t, z, em);
    ClearFind(bm + t, z, em);
  }

  lemma {:induction false} SharedHeader(key: string)
    requires IsBareKey(key)
    ensures Foreign(SharedLine(key), key) != []
    ensures Foreign("\n" + (TableHeader(key) + "\n"), key) == []
  {
    hide TrimTomlLine, LineLen, Foreign, IsOwn, IsHeader, TableHeader;
    MarkerShape(key);
    var bm, body := BeginMarker(key), "[x]";
    assert CommentIndex(body, Plain) == |body| && ScanTo(body, Plain) == Plain by {
      PlainScan(body, "");
      assert body + "" == body;
    }
    StripTrailer(body, " ", bm, "\n");
    var line := body + " " + bm + "\n";
    assert body + " " == "[x] ";
    LineWithNewline(body + " " + bm, "\n");
    var rest := TableHeader(key) + "\n" + (EndMarker(key) + "\n");
    assert SharedLine(key) == line + rest;
    LineStep(line, rest, key);
    NotOwnSample(key);
    SampleLines();
    BlankPadding("\n", key);
    assert TableHeader(key) + "\n" + "" == TableHeader(key) + "\n";
    DropHeaderLine(key, "\n", "");
    ForeignEmpty(key);
    ForeignConcat("\n", TableHeader(key) + "\n", key);
  }

  /** There the edit succeeds and the foreign table is gone. */
  lemma {:induction false} SharedLineLosesHeader(key: string, block: string)
    requires IsBareKey(key) && Complete(block) && Foreign(block, key) == []
    ensures !LosesNoHeader(SharedLine(key), key) && Apply(SharedLine(key), key, block) == Updated(block, true)
    ensures Foreign(SharedLine(key), key) != [] == Foreign(block, key)
  {
    hide Foreign, TableHeader, IsBareKey, BeginMarker, EndMarker, LineStart, LineEndAfter, Find, LocateTable;
    var s, bm, em := SharedLine(key), BeginMarker(key), EndMarker(key);
    var t := "\n" + (TableHeader(key) + "\n");
    MarkerShape(key);
    HeaderHasNoHash(key, "\n");
    assert TableKey(key) == key;
    assert s == "[x] " + (bm + t + (em + "\n"));
    SharedMarkers(bm, t, em);
    SharedHeader(key);
    SharedEnds(bm, t, em);
    assert s[4 + |bm|..4 + (|bm| + |t|)] == t;
    assert s[..0] == "" && s[|s|..] == "" && s[0..|s|] == s;
    assert "" + block + "" == block;
  }

  lemma {:induction false} SharedEnds(bm: string, t: string, em: string)
    requires !HasNewline(bm) && !HasNewline(em)
    ensures var s := "[x] " + (bm + t + (em + "\n"));
            LineStart(s, 4) == 0 && LineEndAfter(s, 4 + (|bm| + |t|) + |em|) == |s|
  {
    hide LineStart, LineEndAfter, LineLen;
    var s := "[x] " + (bm + t + (em + "\n"));
    assert s[..0] == "" && s[0..4] == "[x] ";
    LineStartIs(s, 0, 4);
    var z := 4 + (|bm| + |t|) + |em|;
    assert s[z..] == "\n";
    LineEndAfterIs(s, z);
    NewlineIsLine("\n");
  }

  /** The scans over a text whose first line is known. */
  lemma {:induction false} LineStep(line: string, rest: string, key: string)
    requires line != "" && LineLen(line) == |line| && Complete(line)
    ensures var h := TrimTomlLine(line);
            var t := line + rest;
            && FirstLine(t) == h && Rest(t) == rest && LineLen(t) == |line|
            && Foreign(t, key) == (if IsForeign(h, key) then [h] else []) + Foreign(rest, key)
            && HeaderAt(t) == (if IsHeader(h) then Some(0) else Shift(HeaderAt(rest), |line|))
            && OwnAt(t, key) == (if IsOwn(h, key) then Some(0) else Shift(OwnAt(rest, key), |line|))
  {
    hide TrimTomlLine, IsOwn, IsHeader, LineLen;
    LineLenConcat(line, rest);
    assert (line + rest)[..|line|] == line && (line + rest)[|line|..] == rest;
  }

  // ---------------------------------------------------------------- refusals

  ghost predicate FirstAt(s: string, pat: string, m: nat) {
    m <= |s| && At(s, pat, m) && forall j: nat | j < m :: !At(s, pat, j)
  }

  lemma {:induction false} FirstIsFind(s: string, pat: string, m: nat)
    ensures Find(s, pat) == Some(m) <==> FirstAt(s, pat, m)
    ensures FirstAt(s, pat, m) ==> m <= |s|
  {
    if FirstAt(s, pat, m) { FindIs(s, pat, m); }
  }

  /** The markers stand at `m` and, behind it, at `e`; between them is the text of the block. */
  ghost predicate Between(s: string, key: string, m: nat, e: nat, inner: string) {
    && FirstAt(s, BeginMarker(key), m) && e <= |s| - m && FirstAt(s[m..], EndMarker(key), e)
    && |BeginMarker(key)| <= e && inner == s[m + |BeginMarker(key)|..m + e]
  }

  /**
   An edit is refused exactly for a begin marker without an end marker behind it,
   or for markers around foreign tables and no table of MCPace's.
   */
  lemma {:induction false} RejectsExactly(s: string, key: string, block: string)
    ensures Apply(s, key, block) == Rejected(MissingEnd) <==>
      exists m: nat :: FirstAt(s, BeginMarker(key), m) && !Occurs(s[m..], EndMarker(key))
    ensures Apply(s, key, block) == Rejected(Overwide) <==>
      exists m: nat, e: nat, inner: string ::
        Between(s, key, m, e, inner) && Foreign(inner, key) != [] && OwnAt(inner, key).None?
  {
    hide BeginMarker, EndMarker, Foreign, OwnAt, LineStart, LineEndAfter, Splice, SectionEnd, At, Occurs, FirstAt,
         LocateTable, Between;
    var b, em := BeginMarker(key), EndMarker(key);
    forall m: nat ensures (Find(s, b) == Some(m) <==> FirstAt(s, b, m)) && (FirstAt(s, b, m) ==> m <= |s|) {
      FirstIsFind(s, b, m);
    }
    if Find(s, b).Some? {
      var m := Find(s, b).value;
      OccursIffFind(s[m..], em);
      if Find(s[m..], em).Some? { RejectsBetween(s, key, block, m, Find(s[m..], em).value); }
    }
    forall m: nat, e: nat, inner: string | Between(s, key, m, e, inner)
      ensures Find(s, b) == Some(m) && m <= |s| && Find(s[m..], em) == Some(e)
      ensures |b| <= e && m + e <= |s| && inner == s[m + |b|..m + e]
    {
      BetweenFinds(s, key, m, e, inner);
    }
  }

  lemma {:induction false} BetweenFinds(s: string, key: string, m: nat, e: nat, inner: string)
    requires Between(s, key, m, e, inner)
    ensures Find(s, BeginMarker(key)) == Some(m) && m <= |s| && Find(s[m..], EndMarker(key)) == Some(e)
    ensures |BeginMarker(key)| <= e && m + e <= |s| && inner == s[m + |BeginMarker(key)|..m + e]
  {
    hide BeginMarker, EndMarker, FirstAt;
    FirstIsFind(s, BeginMarker(key), m);
    FirstIsFind(s[m..], EndMarker(key), e);
  }

  lemma {:induction false} RejectsBetween(s: string, key: string, block: string, m: nat, k: nat)
    requires Find(s, BeginMarker(key)) == Some(m) && m <= |s| && Find(s[m..], EndMarker(key)) == Some(k)
    ensures Apply(s, key, block) != Rejected(MissingEnd)
    ensures Apply(s, key, block) == Rejected(Overwide) <==>
      var a := m + |BeginMarker(key)|;
      && a <= m + k <= |s| && Between(s, key, m, k, s[a..m + k])
      && Foreign(s[a..m + k], key) != [] && OwnAt(s[a..m + k], key).None?
  {
    hide BeginMarker, EndMarker, Foreign, OwnAt, LineStart, LineEndAfter, Splice, SectionEnd, FirstAt;
    assert s[m..] == s[m..|s|];
    AtSlice(s, EndMarker(key), m, |s|, k);
    FirstIsFind(s, BeginMarker(key), m);
    FirstIsFind(s[m..], EndMarker(key), k);
  }

  /** A successful edit says that it replaced something exactly if there was a begin marker or a table of MCPace's. */
  lemma {:induction false} ReplacedExactly(s: string, key: string, block: string)
    requires Apply(s, key, block).Updated?
    ensures Apply(s, key, block).replaced <==> Occurs(s, BeginMarker(key)) || OwnAt(s, key).Some?
  {
    hide BeginMarker, EndMarker, Foreign, OwnAt, LineStart, LineEndAfter, Splice, SectionEnd, At, Occurs;
    OccursIffFind(s, BeginMarker(key));
  }

  /** A removal says that it removed something exactly if there was a begin marker, and otherwise changes nothing. */
  lemma {:induction false} RemovedExactly(s: string, key: string)
    requires Remove(s, key).Updated?
    ensures Remove(s, key).replaced <==> Occurs(s, BeginMarker(key))
    ensures !Occurs(s, BeginMarker(key)) ==> Remove(s, key).contents == s
  {
    hide BeginMarker, EndMarker, Foreign, LineStart, LineEndAfter, Splice, At, Occurs, LocateTable;
    OccursIffFind(s, BeginMarker(key));
  }
}
