/**
 Installing twice and uninstalling: the laws of `mcpace advanced client
 install` over a TOML config, with the inputs on which they fail.
 */
module TomlInstall {
  import opened Text
  import opened Toml
  import opened TomlEdit
  import opened TomlFrame
  import opened TomlBlock
  import opened TomlConverge
  import opened TomlSecond

  // ---------------------------------------------------------------- the piece before the block

  /** An over-wide repair keeps foreign tables before MCPace's own, and another begin marker among them. */
  predicate KeepsSecondMarker(s: string, key: string) {
    match Locate(s, key)
    case Found(Recover(_, ble, ts, _, _, _, preserve)) =>
      preserve && ble <= ts <= |s| && Occurs(s[ble..ts], BeginMarker(key))
    case _ => false
  }

  /** That takes two begin markers. */
  lemma {:induction false} OneMarkerIsEnough(s: string, key: string)
    requires forall i: nat, j: nat :: At(s, BeginMarker(key), i) && At(s, BeginMarker(key), j) ==> i == j
    ensures !KeepsSecondMarker(s, key)
  {
    hide Foreign, LineStart, LineEndAfter, LocateTable, At, Occurs;
    if KeepsSecondMarker(s, key) {
      var span := Locate(s, key).span;
      SecondMarker(s, key, span.beginLineEnd, span.tableStart);
    }
  }

  lemma {:induction false} SecondMarker(s: string, key: string, ble: nat, ts: nat)
    requires ble <= ts <= |s| && Occurs(s[ble..ts], BeginMarker(key))
    requires Find(s, BeginMarker(key)).Some? && Find(s, BeginMarker(key)).value < ble
    ensures exists i: nat, j: nat :: At(s, BeginMarker(key), i) && At(s, BeginMarker(key), j) && i != j
  {
    var m := Find(s, BeginMarker(key)).value;
    var i: nat :| i <= |s[ble..ts]| && At(s[ble..ts], BeginMarker(key), i);
    AtSlice(s, BeginMarker(key), ble, ts, i);
    assert At(s, BeginMarker(key), m) && At(s, BeginMarker(key), ble + i) && m != ble + i;
  }

  /** A pattern without a line feed cannot start in one line and end in another. */
  lemma {:induction false} OccursConcat(a: string, b: string, pat: string)
    requires Complete(a) && pat != "" && !HasNewline(pat)
    requires !Occurs(a, pat) && !Occurs(b, pat)
    ensures !Occurs(a + b, pat)
  {
    forall i: nat | i <= |a + b| ensures !At(a + b, pat, i) {
      if i >= |a| {
        AtShift(a, b, pat, i - |a|);
        assert i - |a| <= |b| ==> !At(b, pat, i - |a|);
      } else if i + |pat| <= |a| {
        assert (a + b)[i..i + |pat|] == a[i..i + |pat|];
        assert !At(a, pat, i);
      } else {
        AtChar(a + b, pat, i, |a| - 1 - i);
        assert pat[|a| - 1 - i] != '\n';
      }
    }
  }

  lemma {:induction false} NoneBefore(s: string, pat: string, x: nat)
    requires x <= |s| && (Find(s, pat).Some? ==> x <= Find(s, pat).value)
    requires pat != ""
    ensures !Occurs(s[..x], pat)
  {
    forall i: nat | i <= |s[..x]| ensures !At(s[..x], pat, i) {
      assert s[..x] == s[0..x];
      AtSlice(s, pat, 0, x, i);
    }
  }

  /** Before the block are whole lines, without a begin marker unless a repair kept one. */
  lemma {:induction false} PreFacts(s: string, key: string)
    requires Pieces(s, key).Some? && IsBareKey(key)
    ensures Complete(Pieces(s, key).value.0)
    ensures Occurs(Pieces(s, key).value.0, BeginMarker(key)) <==> KeepsSecondMarker(s, key)
  {
    hide Locate, LocateTable, Padding, IsBareKey, Occurs, BeginMarker, HasNewline, At, Complete, SpanInOrder, Ordered;
    MarkerShape(key);
    if Locate(s, key).Found? {
      SpanBounds(s, key);
      PreManaged(s, key, Locate(s, key).span);
    } else {
      PreUnmanaged(s, key);
    }
  }

  lemma {:induction false} PreUnmanaged(s: string, key: string)
    requires Locate(s, key).NotThere? && BeginMarker(key) != ""
    requires !HasNewline(BeginMarker(key)) && '\r' !in BeginMarker(key)
    ensures var pre := (match LocateTable(s, key)
                        case Some((start, end)) => s[..start]
                        case None => s + Padding(s));
            Complete(pre) && !Occurs(pre, BeginMarker(key))
  {
    hide Locate, LocateTable, Padding, Occurs, BeginMarker, HasNewline;
    NotThereFind(s, key);
    if LocateTable(s, key).Some? {
      TableFacts(s, key);
      NoneBefore(s, BeginMarker(key), LocateTable(s, key).value.0);
    } else {
      PaddingForeign(s, key);
      NoneBefore(s, BeginMarker(key), |s|);
      assert s[..|s|] == s;
      PaddingAddsNone(s, BeginMarker(key));
    }
  }

  lemma {:induction false} NotThereFind(s: string, key: string)
    requires Locate(s, key).NotThere?
    ensures Find(s, BeginMarker(key)).None?
  {
    hide Foreign, LineStart, LineEndAfter, BeginMarker, EndMarker, LocateTable;
  }

  lemma {:induction false} PreManaged(s: string, key: string, span: Span)
    requires Locate(s, key) == Found(span) && Ordered(s, span)
    requires BeginMarker(key) != "" && !HasNewline(BeginMarker(key)) && Find(s, BeginMarker(key)).Some?
    requires SpanInOrder(s, key, Find(s, BeginMarker(key)).value, span)
    ensures Complete(Kept(s, span).0)
    ensures Occurs(Kept(s, span).0, BeginMarker(key)) <==> KeepsSecondMarker(s, key)
  {
    hide Locate, BeginMarker, HasNewline, Occurs, Find, Foreign, Cut;
    var bm := BeginMarker(key);
    match span {
      case Exact(start, end) =>
        NoneBefore(s, bm, start);
      case Recover(bls, ble, ts, te, els, ele, preserve) =>
        NoneBefore(s, bm, bls);
        var mid := if preserve then s[ble..ts] else "";
        EmptyHasNone(bm);
        if Occurs(mid, bm) {
          OccursAfter(s[..bls], mid, bm);
        } else {
          OccursConcat(s[..bls], mid, bm);
        }
        var pre := s[..bls] + mid;
        assert mid == "" ==> pre == s[..bls];
        assert mid != "" ==> pre[|pre| - 1] == mid[|mid| - 1];
    }
  }

  lemma {:induction false} OccursAfter(a: string, b: string, pat: string)
    requires Occurs(b, pat)
    ensures Occurs(a + b, pat)
  {
    hide At;
    var i: nat :| i <= |b| && At(b, pat, i);
    AtShift(a, b, pat, i);
    assert At(a + b, pat, |a| + i);
  }

  // ---------------------------------------------------------------- a second begin marker

  lemma {:induction false} NoEndInside(s: string, pat: string, m: nat, e: nat, lo: nat, hi: nat)
    requires m <= lo <= hi <= e <= |s| && pat != "" && Find(s[m..], pat) == Some(e - m)
    ensures !Occurs(s[lo..hi], pat)
  {
    hide At;
    forall i: nat | i <= |s[lo..hi]| ensures !At(s[lo..hi], pat, i) {
      AtSlice(s, pat, lo, hi, i);
      assert s[m..] == s[m..|s|];
      AtSlice(s, pat, m, |s|, lo + i - m);
    }
  }

  /** The lines of `k` after the line of its first begin marker hold no own header. */
  lemma {:induction false} NoOwnAfterMarker(s: string, key: string, a: nat, e: nat, lo: nat, ts: nat, i: nat)
    requires a <= lo <= i < ts <= e <= |s| && OwnAt(s[a..e], key) == Some(ts - a) && Complete(s[lo..ts])
    ensures var x := i + LineLen(s[i..ts]); x <= ts && OwnAt(s[x..ts], key).None?
  {
    hide OwnAt, LineLen;
    var t, x := s[a..e], i + LineLen(s[i..ts]);
    LineLenFacts(s[i..ts]);
    assert s[i..ts][ts - i - 1] == s[lo..ts][ts - lo - 1];
    assert s[i..ts][x - i - 1] == s[x - 1] == t[..x - a][x - a - 1];
    NoOwnBefore(t, key, x - a, ts - a);
    Sub(s, a, e, x - a, ts - a);
  }

  /** What such a repair keeps is a leftover the next edit starts at. */
  lemma {:induction false} LeftoverPre(s: string, key: string)
    requires IsBareKey(key) && KeepsSecondMarker(s, key) && Pieces(s, key).Some?
    ensures Leftover(Pieces(s, key).value.0, key)
  {
    hide LineStart, LineEndAfter, LineLen, OwnAt, SectionEnd, Foreign, BeginMarker, EndMarker, IsBareKey, Complete,
         Occurs, At;
    PreFacts(s, key);
    MarkerShape(key);
    SpanBounds(s, key);
    var bm, em, span := BeginMarker(key), EndMarker(key), Locate(s, key).span;
    var m := Find(s, bm).value;
    var k := Find(s[m..], em).value;
    var front, kept := s[..span.beginLineStart], s[span.beginLineEnd..span.tableStart];
    NoneBefore(s, bm, span.beginLineStart);
    OccursIffFind(kept, bm);
    var j := Find(kept, bm).value;
    ClearLines(front, kept, bm);
    FindPast(front, kept, bm);
    AtEnd(kept, bm, j);
    KeptLeftover(s, key, m, m + k, span, j);
    LeftoverIs(front, kept, key, j);
  }

  lemma {:induction false} KeptLeftover(s: string, key: string, m: nat, e: nat, span: Span, j: nat)
    requires IsBareKey(key) && span.Recover? &&
      m + |BeginMarker(key)| <= span.beginLineEnd <= span.tableStart <= e <= |s|
    requires Complete(s[span.beginLineEnd..span.tableStart]) && Find(s[m..], EndMarker(key)) == Some(e - m)
    requires OwnAt(s[m + |BeginMarker(key)|..e], key) == Some(span.tableStart - m - |BeginMarker(key)|)
    requires Find(s[span.beginLineEnd..span.tableStart], BeginMarker(key)) == Some(j)
    ensures var kept := s[span.beginLineEnd..span.tableStart];
            var i := j + |BeginMarker(key)|;
            && i < |kept| && !Occurs(kept[j..], EndMarker(key))
            && i + LineLen(kept[i..]) <= |kept| && OwnAt(kept[i + LineLen(kept[i..])..], key).None?
  {
    hide LineLen, OwnAt, BeginMarker, EndMarker, IsBareKey, Occurs, At;
    MarkerShape(key);
    var lo, ts := span.beginLineEnd, span.tableStart;
    var bm, kept := BeginMarker(key), s[lo..ts];
    var i := j + |bm|;
    AtEnd(kept, bm, j);
    assert kept[j..i] == bm by { AtText(kept, bm, j); }
    MarkerNotLast(kept, j, i);
    assert kept[j..] == s[lo + j..ts] && kept[i..] == s[lo + i..ts];
    NoEndInside(s, EndMarker(key), m, e, lo + j, ts);
    NoOwnAfterMarker(s, key, m + |bm|, e, lo, ts, lo + i);
    var x := lo + i + LineLen(s[lo + i..ts]);
    assert kept[x - lo..] == s[x..ts];
  }

  lemma {:induction false} AtText(s: string, pat: string, i: nat)
    requires At(s, pat, i)
    ensures i + |pat| <= |s| && s[i..i + |pat|] == pat
  {
  }

  lemma {:induction false} LeftoverIs(front: string, kept: string, key: string, j: nat)
    requires Complete(front + kept) && Find(front + kept, BeginMarker(key)) == Some(|front| + j)
    requires var i := j + |BeginMarker(key)|;
             && i < |kept| && !Occurs(kept[j..], EndMarker(key))
             && i + LineLen(kept[i..]) <= |kept| && OwnAt(kept[i + LineLen(kept[i..])..], key).None?
    ensures Leftover(front + kept, key)
  {
    hide LineLen, OwnAt, BeginMarker, EndMarker, Occurs, LineEndAfter, Find;
    var pre, i := front + kept, j + |BeginMarker(key)|;
    var m, a := |front| + j, |front| + i;
    LineEndAfterIs(pre, a);
    assert pre[m..] == kept[j..] && pre[a..] == kept[i..];
    var n := LineLen(kept[i..]);
    assert pre[a + n..] == kept[i + n..];
  }

  lemma {:induction false} PaddingAddsNone(s: string, pat: string)
    requires pat != "" && !Occurs(s, pat) && !HasNewline(pat) && '\r' !in pat
    ensures !Occurs(s + Padding(s), pat)
  {
    PaddingChars(s);
    BreaksAddNone(s, Padding(s), pat);
  }

  /** Line breaks after a text add no pattern without line breaks. */
  lemma {:induction false} BreaksAddNone(s: string, pad: string, pat: string)
    requires pat != "" && !Occurs(s, pat) && !HasNewline(pat) && '\r' !in pat
    requires forall i | 0 <= i < |pad| :: pad[i] == '\n' || pad[i] == '\r'
    ensures !Occurs(s + pad, pat)
  {
    hide At;
    forall i: nat | i <= |s + pad| ensures !At(s + pad, pat, i) {
      if i + |pat| <= |s| {
        AtPrefix(s, pad, pat, i);
      } else if i + |pat| <= |s + pad| {
        AtChar(s + pad, pat, i, |pat| - 1);
        assert (s + pad)[i + |pat| - 1] == pad[i + |pat| - 1 - |s|];
        assert pat[|pat| - 1] in pat;
      } else {
        AtTooLong(s + pad, pat, i);
      }
    }
  }

  lemma {:induction false} PaddingChars(s: string)
    ensures forall i | 0 <= i < |Padding(s)| :: Padding(s)[i] == '\n' || Padding(s)[i] == '\r'
  {
    hide Find;
  }

  lemma {:induction false} AtTooLong(s: string, pat: string, i: nat)
    requires i + |pat| > |s|
    ensures !At(s, pat, i)
  {
  }

  // ---------------------------------------------------------------- editing over a block

  /** Editing or removing over a block that was just written replaces or takes out exactly that block. */
  lemma {:induction false} EditOverBlock(pre: string, key: string, url: string, newline: string, post: string,
      next: string)
    requires IsBareKey(key) && IsNewline(newline) && !Occurs(url, EndMarker(key))
    requires Complete(pre) && !Occurs(pre, BeginMarker(key))
    ensures var out := pre + (Block(key, url, newline) + post);
            && Apply(out, key, next) == Updated(pre + (next + post), true)
            && Remove(out, key) == Updated(pre + post, true)
  {
    hide Block, Locate, Occurs, IsBareKey, LocateTable, Padding, Complete, BeginMarker, EndMarker;
    var block := Block(key, url, newline);
    var out := pre + (block + post);
    LocatorFindsBlock(pre, key, url, newline, post);
    assert out[..|pre|] == pre && out[|pre| + |block|..] == post;
    assert pre + next + post == pre + (next + post);
    assert pre + "" + post == pre + post;
  }

  /** Over a leftover marker, an edit aborts or keeps other lines before the block. */
  lemma {:induction false} EditOverLeftover(pre: string, key: string, url: string, newline: string, post: string,
      next: string)
    requires IsBareKey(key) && IsNewline(newline) && !Occurs(url, EndMarker(key)) && Leftover(pre, key)
    ensures var out := pre + (Block(key, url, newline) + post);
            && Apply(out, key, next) != Updated(pre + (next + post), true)
            && Remove(out, key) != Updated(pre + post, true)
  {
    hide Block, Locate, Occurs, IsBareKey, LocateTable, Padding, EndMarker, Leftover, Pieces, Breaks, Splice;
    var out := pre + (Block(key, url, newline) + post);
    SecondEdit(pre, key, url, newline, post);
    if Pieces(out, key).Some? {
      var w := Pieces(out, key).value.0;
      ApplyPieces(out, key, next);
      BreaksConcat(w, next + post);
      BreaksConcat(pre, next + post);
      BreaksConcat(w, post);
      BreaksConcat(pre, post);
      if Locate(out, key).Found? { RemovePieces(out, key); } else { LeftoverFound(pre, key, url, newline, post); }
    }
  }

  lemma {:induction false} LeftoverFound(pre: string, key: string, url: string, newline: string, post: string)
    requires IsBareKey(key) && IsNewline(newline) && !Occurs(url, EndMarker(key)) && Leftover(pre, key)
    ensures !Locate(pre + (Block(key, url, newline) + post), key).NotThere?
  {
    hide Block, Occurs, IsBareKey, Leftover, BeginMarker, EndMarker, LineStart, LineEndAfter, LocateTable, Foreign;
    SecondMarkers(pre, key, url, newline, post);
  }

  /**
   One-step convergence: after a successful edit, by whichever of the four
   paths, the same edit returns the same text, if and only if the first did
   not keep a second begin marker.
   */
  lemma {:induction false} ApplyTwice(s: string, key: string, url: string, newline: string)
    requires IsBareKey(key) && IsNewline(newline) && !Occurs(url, EndMarker(key))
    requires Apply(s, key, Block(key, url, newline)).Updated?
    ensures var block := Block(key, url, newline);
            var out := Apply(s, key, block).contents;
            Apply(out, key, block) == Updated(out, true) <==> !KeepsSecondMarker(s, key)
  {
    hide *;
    var block := Block(key, url, newline);
    ApplyPieces(s, key, block);
    PreFacts(s, key);
    var pre, post := Pieces(s, key).value.0, Pieces(s, key).value.1;
    if KeepsSecondMarker(s, key) {
      LeftoverPre(s, key);
      EditOverLeftover(pre, key, url, newline, post, block);
    } else {
      EditOverBlock(pre, key, url, newline, post, block);
    }
  }

  /**
   Uninstalling undoes installing: a text with a managed block loses what a
   plain uninstall would have taken out, if and only if the install did not
   keep a second begin marker; a text with a bare table loses that table, and
   any other text gets back its bytes plus the padding.
   */
  lemma {:induction false} RemoveUndoesApply(s: string, key: string, url: string, newline: string)
    requires IsBareKey(key) && IsNewline(newline) && !Occurs(url, EndMarker(key))
    requires Apply(s, key, Block(key, url, newline)).Updated?
    ensures var out := Apply(s, key, Block(key, url, newline)).contents;
            && (Locate(s, key).Found? ==> (Remove(out, key) == Remove(s, key) <==> !KeepsSecondMarker(s, key)))
            && (Locate(s, key).NotThere? ==>
                  Remove(out, key) == Updated(match LocateTable(s, key)
                                              case Some((start, end)) => s[..start] + s[end..]
                                              case None => s + Padding(s), true))
  {
    hide Block, Locate, Occurs, IsBareKey, LocateTable, Padding, Complete, BeginMarker, EndMarker, Apply, Remove,
         Leftover;
    var block := Block(key, url, newline);
    ApplyPieces(s, key, block);
    PreFacts(s, key);
    var (pre, post) := Pieces(s, key).value;
    if Locate(s, key).Found? { RemovePieces(s, key); }
    if KeepsSecondMarker(s, key) {
      LeftoverPre(s, key);
      EditOverLeftover(pre, key, url, newline, post, "");
    } else {
      EditOverBlock(pre, key, url, newline, post, "");
      assert s + Padding(s) + "" == s + Padding(s);
    }
  }

  // ---------------------------------------------------------------- line breaks

  const CRLF := "\r\n"

  lemma {:induction false} CrlfConcat(a: string, b: string)
    requires a == "" || a[|a| - 1] != '\r'
    requires !Occurs(a, CRLF) && !Occurs(b, CRLF)
    ensures !Occurs(a + b, CRLF)
  {
    hide At;
    forall i: nat | i <= |a + b| ensures !At(a + b, CRLF, i) {
      if i >= |a| {
        AtShift(a, b, CRLF, i - |a|);
      } else if i + 2 <= |a| {
        AtPrefix(a, b, CRLF, i);
      } else {
        AtChar(a + b, CRLF, i, 0);
      }
    }
  }

  lemma {:induction false} NoCrIsNoCrlf(t: string)
    requires '\r' !in t
    ensures !Occurs(t, CRLF)
  {
    hide At;
    forall i: nat | i <= |t| ensures !At(t, CRLF, i) {
      AtChar(t, CRLF, i, 0);
    }
  }

  lemma {:induction false} CrlfSlice(s: string, lo: nat, hi: nat)
    requires lo <= hi <= |s| && !Occurs(s, CRLF)
    ensures !Occurs(s[lo..hi], CRLF)
  {
    forall i: nat | i <= hi - lo ensures !At(s[lo..hi], CRLF, i) {
      AtSlice(s, CRLF, lo, hi, i);
    }
  }

  lemma {:induction false} EscapeNoCr(v: string)
    ensures '\r' !in Escape(v)
  {
    if v != "" {
      EscapeNoCr(v[1..]);
    }
  }

  lemma {:induction false} BlockNoCr(key: string, url: string)
    requires IsBareKey(key)
    ensures '\r' !in Block(key, url, "\n")
  {
    hide Escape, IsBareKey, BeginMarker, EndMarker;
    MarkerShape(key);
    EscapeNoCr(url);
    HeaderNoCr(key);
    NoteNoCr();
    assert '\r' !in ENABLED && '\r' !in TIMEOUT && '\r' !in "url = ";
  }

  lemma {:induction false} HeaderNoCr(key: string)
    requires IsBareKey(key)
    ensures '\r' !in TableHeader(TableKey(key))
  {
    assert '\r' !in "[mcp_servers." && '\r' !in key;
  }

  lemma {:induction false} NoteNoCr()
    ensures '\r' !in NOTE
  {
    assert '\r' !in " This block " && '\r' !in "is managed by ";
    assert '\r' !in "`mcpace advanced " && '\r' !in "client install`.";
  }

  /** A block written with CRLF holds a CRLF wherever it stands. */
  lemma {:induction false} BlockHasCrlf(pre: string, key: string, url: string, post: string)
    ensures Occurs(pre + (Block(key, url, CRLF) + post), CRLF)
  {
    hide Block, Body, BeginMarker, EndMarker;
    BlockIs(key, url, CRLF);
    var block := Block(key, url, CRLF);
    var out := pre + (block + post);
    var i := |pre| + |block| - 2;
    assert block[|block| - 2..] == CRLF;
    assert out[i..i + |CRLF|] == CRLF;
    assert At(out, CRLF, i);
  }

  lemma {:induction false} DetectIs(s: string)
    ensures DetectNewline(s) == if Occurs(s, CRLF) then CRLF else "\n"
  {
    OccursIffFind(s, CRLF);
  }

  lemma {:induction false} BlockLength(key: string, url: string)
    ensures |Block(key, url, CRLF)| != |Block(key, url, "\n")|
  {
    hide BeginMarker, EndMarker, TableHeader, BasicString;
  }

  /** The editor appends its block right after a carriage return that no line feed follows. */
  predicate AppendsAfterBareCr(s: string, key: string) {
    && Locate(s, key).NotThere? && LocateTable(s, key).None?
    && s != "" && s[|s| - 1] == '\r' && !Occurs(s, CRLF)
  }

  /** Where the kept pieces of a text without CRLF get one. */
  lemma {:induction false} PiecesCrlf(s: string, key: string)
    requires Pieces(s, key).Some? && !Occurs(s, CRLF)
    ensures Occurs(Pieces(s, key).value.0, CRLF) <==> AppendsAfterBareCr(s, key)
    ensures !Occurs(Pieces(s, key).value.1, CRLF)
  {
    hide Locate, LocateTable, Padding, Occurs, At, Find;
    match Locate(s, key) {
      case Found(span) =>
        SpanBounds(s, key);
        KeptCrlf(s, key, Find(s, BeginMarker(key)).value, span);
      case NotThere =>
        if LocateTable(s, key).Some? {
          var (start, end) := LocateTable(s, key).value;
          assert s[..start] == s[0..start] && s[end..] == s[end..|s|];
          CrlfSlice(s, 0, start);
          CrlfSlice(s, end, |s|);
        } else {
          NoCrIsNoCrlf("");
          PaddingCrlf(s);
        }
    }
  }

  lemma {:induction false} KeptCrlf(s: string, key: string, m: nat, span: Span)
    requires !Occurs(s, CRLF) && Ordered(s, span) && SpanInOrder(s, key, m, span)
    ensures !Occurs(Kept(s, span).0, CRLF) && !Occurs(Kept(s, span).1, CRLF)
  {
    hide Occurs, Foreign, Cut;
    match span {
      case Exact(start, end) =>
        assert s[..start] == s[0..start] && s[end..] == s[end..|s|];
        CrlfSlice(s, 0, start);
        CrlfSlice(s, end, |s|);
      case Recover(bls, ble, ts, te, els, ele, preserve) =>
        var mid := if preserve then s[ble..ts] else "";
        NoCrIsNoCrlf("");
        assert s[..bls] == s[0..bls] && s[ele..] == s[ele..|s|];
        CrlfSlice(s, 0, bls);
        CrlfSlice(s, ble, ts);
        CrlfSlice(s, te, els);
        CrlfSlice(s, ele, |s|);
        CrlfConcat(s[..bls], mid);
        assert te < els ==> s[te..els][els - te - 1] == s[..els][els - 1] == '\n';
        CrlfConcat(s[te..els], s[ele..]);
    }
  }

  lemma {:induction false} PaddingCrlf(s: string)
    requires !Occurs(s, CRLF)
    ensures Occurs(s + Padding(s), CRLF) <==> s != "" && s[|s| - 1] == '\r'
  {
    hide Occurs, Find;
    DetectIs(s);
    var pad := Padding(s);
    assert '\r' !in pad;
    NoCrIsNoCrlf(pad);
    if s != "" && s[|s| - 1] == '\r' {
      assert s[|s| - 1..] == ['\r'];
      CrlfAtSeam(s, pad);
    } else {
      CrlfConcat(s, pad);
    }
  }

  lemma {:induction false} CrlfAtSeam(s: string, pad: string)
    requires s != "" && s[|s| - 1] == '\r' && pad != "" && pad[0] == '\n'
    ensures Occurs(s + pad, CRLF)
  {
    var i := |s| - 1;
    assert (s + pad)[i..i + |CRLF|] == CRLF;
    assert At(s + pad, CRLF, i);
  }

  /** The line break the next install will detect. */
  lemma {:induction false} NewlineAfterInstall(s: string, key: string, url: string)
    requires IsBareKey(key) && Pieces(s, key).Some?
    ensures var (pre, post) := Pieces(s, key).value;
            var out := pre + (Block(key, url, DetectNewline(s)) + post);
            DetectNewline(out) == DetectNewline(s) <==> !AppendsAfterBareCr(s, key)
  {
    hide Block, Pieces, Occurs, IsBareKey, KeepsSecondMarker, Find, Locate, LocateTable;
    var (pre, post) := Pieces(s, key).value;
    var block := Block(key, url, DetectNewline(s));
    var out := pre + (block + post);
    DetectIs(s);
    DetectIs(out);
    if Occurs(s, CRLF) {
      BlockHasCrlf(pre, key, url, post);
    } else {
      PiecesCrlf(s, key);
      PreFacts(s, key);
      CrlfOfOut(pre, key, url, post);
    }
  }

  lemma {:induction false} CrlfOfOut(pre: string, key: string, url: string, post: string)
    requires IsBareKey(key) && Complete(pre) && !Occurs(post, CRLF)
    ensures Occurs(pre + (Block(key, url, "\n") + post), CRLF) <==> Occurs(pre, CRLF)
  {
    hide Block, Occurs, IsBareKey;
    var block := Block(key, url, "\n");
    BlockNoCr(key, url);
    NoCrIsNoCrlf(block);
    assert block == "" || block[|block| - 1] in block;
    CrlfConcat(block, post);
    if Occurs(pre, CRLF) {
      OccursExtend(pre, block + post, CRLF);
    } else {
      CrlfConcat(pre, block + post);
    }
  }

  lemma {:induction false} OccursExtend(a: string, b: string, pat: string)
    requires Occurs(a, pat)
    ensures Occurs(a + b, pat)
  {
    var i: nat :| i <= |a| && At(a, pat, i);
    AtExtend(a, b, pat, i);
  }

  /**
   Installing twice is installing once, if and only if the first install
   neither kept a second begin marker nor appended right after a bare carriage
   return: there the padding it adds turns that carriage return into a CRLF,
   and the second install switches to CRLF line breaks.
   */
  lemma {:induction false} InstallTwice(s: string, key: string, url: string)
    requires IsBareKey(key) && !Occurs(url, EndMarker(key))
    requires Install(s, key, url).Updated?
    ensures var out := Install(s, key, url).contents;
            Install(out, key, url) == Updated(out, true) <==>
            !AppendsAfterBareCr(s, key) && !KeepsSecondMarker(s, key)
  {
    hide Block, Pieces, Occurs, IsBareKey, KeepsSecondMarker, Find, Locate, LocateTable, Apply, Remove,
         AppendsAfterBareCr, EndMarker;
    var n1 := DetectNewline(s);
    var b1 := Block(key, url, n1);
    ApplyPieces(s, key, b1);
    PreFacts(s, key);
    var (pre, post) := Pieces(s, key).value;
    var out := pre + (b1 + post);
    NewlineAfterInstall(s, key, url);
    var n2 := DetectNewline(out);
    var b2 := Block(key, url, n2);
    if KeepsSecondMarker(s, key) {
      KeepsIsManaged(s, key);
      LeftoverPre(s, key);
      EditOverLeftover(pre, key, url, n1, post, b1);
    } else {
      EditOverBlock(pre, key, url, n1, post, b2);
      BlockLength(key, url);
      assert |pre + (b2 + post)| == |pre| + |b2| + |post|;
      assert |out| == |pre| + |b1| + |post|;
    }
  }

  lemma {:induction false} KeepsIsManaged(s: string, key: string)
    requires KeepsSecondMarker(s, key)
    ensures Locate(s, key).Found? && !AppendsAfterBareCr(s, key)
  {
    hide Locate, LocateTable, Occurs;
  }

  /** Over a block with no second marker before it, the next install is the last to change anything. */
  lemma {:induction false} BlockSettles(pre: string, key: string, url: string, newline: string, post: string)
    requires IsBareKey(key) && IsNewline(newline) && !Occurs(url, EndMarker(key))
    requires Complete(pre) && !Occurs(pre, BeginMarker(key))
    requires DetectNewline(pre + (Block(key, url, newline) + post)) == "\n" ==> newline == "\n"
    ensures var once := pre + (Block(key, url, newline) + post);
            && Install(once, key, url).Updated?
            && var twice := Install(once, key, url).contents;
               Install(twice, key, url) == Updated(twice, true)
  {
    hide Block, Occurs, IsBareKey, Find, Apply, BeginMarker, EndMarker, Complete;
    var once := pre + (Block(key, url, newline) + post);
    var n2 := DetectNewline(once);
    var b2 := Block(key, url, n2);
    EditOverBlock(pre, key, url, newline, post, b2);
    var twice := pre + (b2 + post);
    DetectIs(once);
    DetectIs(twice);
    if n2 == CRLF { BlockHasCrlf(pre, key, url, post); }
    EditOverBlock(pre, key, url, n2, post, b2);
  }

  /**
   Two installs reach a text that a third leaves alone, if and only if the
   first kept no second begin marker, or the second was carried out and kept
   none.
   */
  lemma {:induction false} InstallConvergesInTwo(s: string, key: string, url: string)
    requires IsBareKey(key) && !Occurs(url, EndMarker(key))
    requires Install(s, key, url).Updated?
    ensures var once := Install(s, key, url).contents;
            (&& Install(once, key, url).Updated?
             && var twice := Install(once, key, url).contents;
                Install(twice, key, url) == Updated(twice, true)) <==>
            !KeepsSecondMarker(s, key) || (Install(once, key, url).Updated? && !KeepsSecondMarker(once, key))
  {
    hide Block, Pieces, Occurs, IsBareKey, KeepsSecondMarker, Find, Locate, LocateTable, Apply, Remove, EndMarker,
         BeginMarker, Complete, Leftover;
    var n1 := DetectNewline(s);
    ApplyPieces(s, key, Block(key, url, n1));
    PreFacts(s, key);
    var (pre, post) := Pieces(s, key).value;
    var once := pre + (Block(key, url, n1) + post);
    if KeepsSecondMarker(s, key) {
      LeftoverPre(s, key);
      LeftoverFound(pre, key, url, n1, post);
      if Install(once, key, url).Updated? { InstallTwice(once, key, url); }
    } else {
      DetectIs(once);
      DetectIs(s);
      if n1 == CRLF { BlockHasCrlf(pre, key, url, post); }
      BlockSettles(pre, key, url, n1, post);
    }
  }

  /** A text of one carriage return is such an input. */
  lemma {:induction false} BareCrFails(key: string, url: string)
    requires IsBareKey(key) && !Occurs(url, EndMarker(key))
    ensures AppendsAfterBareCr("\r", key) && !KeepsSecondMarker("\r", key)
    ensures var once := Install("\r", key, url);
            once.Updated? && Install(once.contents, key, url) != Updated(once.contents, true)
  {
    hide Block, Foreign;
    var s := "\r";
    MarkerShape(key);
    assert Find(s, BeginMarker(key)).None? by {
      if Find(s, BeginMarker(key)).Some? {
        AtEnd(s, BeginMarker(key), Find(s, BeginMarker(key)).value);
      }
    }
    assert LocateTable(s, key).None? by { BlankHasNoTable(s, key); }
    assert !Occurs(s, CRLF);
    InstallTwice(s, key, url);
  }

  lemma {:induction false} BlankHasNoTable(s: string, key: string)
    requires Blank(s) && LineLen(s) == |s|
    ensures LocateTable(s, key).None?
  {
    hide TrimTomlLine;
    BlankLine(s);
    assert s[..|s|] == s && Rest(s) == "";
    assert !IsOwn("", key);
  }
}
