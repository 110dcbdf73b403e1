/**
 Nothing foreign is lost: on every path of the TOML editor the foreign table
 headers keep their order, and the foreign sections caught inside an over-wide
 block keep their bytes.
 */
module TomlFrame {
  import opened Text
  import opened Toml
  import opened TomlEdit

  // ---------------------------------------------------------------- cutting texts at lines

  lemma {:induction false} FirstLineConcat(a: string, b: string)
    requires Complete(a) && a != ""
    ensures FirstLine(a + b) == FirstLine(a)
    ensures Rest(a + b) == Rest(a) + b && Complete(Rest(a))
  {
    hide TrimTomlLine;
    LineLenConcat(a, b);
    assert (a + b)[..LineLen(a)] == a[..LineLen(a)];
    assert Rest(a) != "" ==> Rest(a)[|Rest(a)| - 1] == a[|a| - 1];
  }

  lemma {:induction false} ForeignConcat(a: string, b: string, key: string)
    requires Complete(a)
    ensures Foreign(a + b, key) == Foreign(a, key) + Foreign(b, key)
    decreases |a|
  {
    hide TrimTomlLine, IsForeign, LineLen;
    if a == "" {
      assert a + b == b;
    } else {
      FirstLineConcat(a, b);
      ForeignConcat(Rest(a), b, key);
    }
  }

  /** `x` is a place where a line starts, or the end. */
  predicate Cut(s: string, x: nat) {
    x <= |s| && (x == |s| || Complete(s[..x]))
  }

  lemma {:induction false} ForeignSplit(s: string, x: nat, key: string)
    requires Cut(s, x)
    ensures Foreign(s, key) == Foreign(s[..x], key) + Foreign(s[x..], key)
  {
    hide Foreign;
    assert s == s[..x] + s[x..];
    if x == |s| {
      assert s[..x] == s;
      ForeignEmpty(key);
    } else {
      ForeignConcat(s[..x], s[x..], key);
    }
  }

  lemma {:induction false} ForeignEmpty(key: string)
    ensures Foreign("", key) == []
  {
  }

  /** The foreign headers between two cuts. */
  lemma {:induction false} ForeignMiddle(s: string, lo: nat, x: nat, hi: nat, key: string)
    requires lo <= x <= hi <= |s|
    requires x == hi || Complete(s[..x])
    ensures Foreign(s[lo..hi], key) == Foreign(s[lo..x], key) + Foreign(s[x..hi], key)
  {
    hide Foreign;
    var t := s[lo..hi];
    assert t[..x - lo] == s[lo..x] && t[x - lo..] == s[x..hi];
    if lo < x < hi {
      assert s[lo..x][x - lo - 1] == s[..x][x - 1];
    }
    ForeignSplit(t, x - lo, key);
  }

  /** A first line that is no header adds nothing. */
  lemma {:induction false} ForeignDropLine(line: string, rest: string, key: string)
    requires line != "" && LineLen(line) == |line| && Complete(line)
    requires !IsForeign(TrimTomlLine(line), key)
    ensures Foreign(line + rest, key) == Foreign(rest, key)
  {
    hide TrimTomlLine, IsForeign;
    ForeignConcat(line, rest, key);
    assert line[..|line|] == line && Rest(line) == "";
  }

  lemma {:induction false} ForeignOfLine(line: string, key: string)
    requires LineLen(line) == |line|
    requires TrimTomlLine(line) == ""
    ensures Foreign(line, key) == []
  {
    hide TrimTomlLine;
    if line != "" {
      assert line[..|line|] == line && Rest(line) == "";
    }
  }

  // ---------------------------------------------------------------- headers and tables

  lemma {:induction false} HeaderFacts(t: string, key: string)
    ensures HeaderAt(t).None? ==> Foreign(t, key) == []
    ensures HeaderAt(t).Some? ==>
      var i := HeaderAt(t).value;
      Complete(t[..i]) && Foreign(t[..i], key) == [] && IsHeader(FirstLine(t[i..]))
    decreases |t|
  {
    hide TrimTomlLine, IsOwn, IsHeader, LineLen;
    if t != "" && !IsHeader(FirstLine(t)) {
      HeaderFacts(Rest(t), key);
      if HeaderAt(t).Some? {
        var n, i := LineLen(t), HeaderAt(t).value;
        LineLenFacts(t);
        Cuts(t, n, i);
        assert Complete(t[..i]) by {
          assert i > n ==> t[..i][i - 1] == Rest(t)[..i - n][i - n - 1];
        }
        FirstLineAlone(t);
        ForeignConcat(t[..n], Rest(t)[..i - n], key);
      }
    } else if t != "" {
      assert t[..0] == "" && t[0..] == t;
    }
  }

  lemma {:induction false} FirstLineAlone(t: string)
    requires t != ""
    ensures LineLen(t[..LineLen(t)]) == LineLen(t)
    ensures FirstLine(t[..LineLen(t)]) == FirstLine(t) && Rest(t[..LineLen(t)]) == ""
  {
    hide TrimTomlLine, LineLen;
    var n := LineLen(t);
    LineLenAlone(t);
    assert t[..n][..n] == t[..n];
  }

  lemma {:induction false} OwnFacts(t: string, key: string)
    requires OwnAt(t, key).Some?
    ensures var i := OwnAt(t, key).value;
            Complete(t[..i]) && IsOwn(FirstLine(t[i..]), key) && (i > 0 ==> LineLen(t) <= i)
    decreases |t|
  {
    hide TrimTomlLine, IsOwn, LineLen;
    if !IsOwn(FirstLine(t), key) {
      OwnFacts(Rest(t), key);
      var n, i := LineLen(t), OwnAt(t, key).value;
      LineLenFacts(t);
      Cuts(t, n, i);
      assert i > n ==> t[..i][i - 1] == Rest(t)[..i - n][i - n - 1];
    } else {
      assert t[0..] == t;
    }
  }

  /** A section runs from its header to the next header, so it holds no other header. */
  lemma {:induction false} SectionFacts(t: string, key: string)
    requires t != "" && IsOwn(FirstLine(t), key)
    ensures var n := SectionEnd(t);
            && Foreign(t[..n], key) == [] && Cut(t, n)
            && (n < |t| ==> IsHeader(FirstLine(t[n..])))
  {
    hide TrimTomlLine, IsOwn, IsHeader, LineLen;
    var m, n := LineLen(t), SectionEnd(t);
    LineLenFacts(t);
    HeaderFacts(Rest(t), key);
    FirstLineAlone(t);
    Cuts(t, m, n);
    if n < |t| {
      assert n > m ==> t[..n][n - 1] == Rest(t)[..n - m][n - m - 1];
      ForeignConcat(t[..m], Rest(t)[..n - m], key);
    } else {
      assert t[..n] == t && Rest(t)[..n - m] == Rest(t);
    }
  }

  /** The table the locator reports holds no foreign header and starts and ends at lines. */
  lemma {:induction false} TableFacts(t: string, key: string)
    requires LocateTable(t, key).Some?
    ensures var (i, j) := LocateTable(t, key).value;
            && Complete(t[..i]) && Cut(t, j) && Foreign(t[i..j], key) == []
            && Foreign(t, key) == Foreign(t[..i], key) + Foreign(t[j..], key)
            && (i > 0 ==> LineLen(t) <= i)
            && (j < |t| ==> IsHeader(FirstLine(t[j..])))
  {
    hide TrimTomlLine, IsOwn, IsHeader, LineLen, Foreign, HeaderAt, SectionEnd, FirstLine, OwnAt;
    var (i, j) := LocateTable(t, key).value;
    OwnFacts(t, key);
    SectionFacts(t[i..], key);
    Cuts(t, i, j);
    ForeignSplit(t, i, key);
    ForeignSplit(t[i..], j - i, key);
    if j < |t| { assert t[..j][j - 1] == t[i..][..j - i][j - i - 1]; }
  }

  // ---------------------------------------------------------------- markers alone on their lines

  /** The begin marker at `m` and the end marker at `e` have only white space around them. */
  ghost predicate MarkersAlone(s: string, key: string, m: nat, e: nat)
    requires At(s, BeginMarker(key), m) && At(s, EndMarker(key), e)
  {
    var a, z := m + |BeginMarker(key)|, e + |EndMarker(key)|;
    && Blank(s[LineStart(s, m)..m]) && Blank(s[a..LineEndAfter(s, a)])
    && Blank(s[LineStart(s, e)..e]) && Blank(s[z..LineEndAfter(s, z)])
  }

  /** The marker lines the editor acts on, if any, hold only the marker. */
  ghost predicate CleanMarkers(s: string, key: string) {
    match Find(s, BeginMarker(key))
    case None => true
    case Some(m) =>
      match Find(s[m..], EndMarker(key))
      case None => true
      case Some(k) => AtSlice(s, EndMarker(key), m, |s|, k); MarkersAlone(s, key, m, m + k)
  }

  /** The end of the line that holds `i` is a cut. */
  lemma {:induction false} LineEndCut(s: string, i: nat)
    requires i <= |s|
    ensures var r := LineEndAfter(s, i);
            && r == i + LineLen(s[i..]) && Cut(s, r) && (i < |s| ==> i < r)
            && (r < |s| ==> s[r - 1] == '\n')
  {
    hide LineEndAfter, LineLen;
    LineEndAfterIs(s, i);
    LineLenFacts(s[i..]);
    var r := LineEndAfter(s, i);
    if r < |s| {
      assert s[i..][r - i - 1] == s[r - 1] == s[..r][r - 1];
    }
  }

  /** A line that is blank after `a` ends before the line of a later mark at `e` starts. */
  lemma {:induction false} LinesApart(s: string, a: nat, e: nat)
    requires a <= e < |s| && !IsSpace(s[e])
    requires Blank(s[a..LineEndAfter(s, a)])
    ensures LineEndAfter(s, a) <= LineStart(s, e) && Complete(s[..LineEndAfter(s, a)])
  {
    hide IsSpace, LineEndAfter, LineStart;
    var ble, els := LineEndAfter(s, a), LineStart(s, e);
    LineEndCut(s, a);
    LineStartFacts(s, e);
    assert forall k | a <= k < ble :: s[a..ble][k - a] == s[k];
    assert ble <= e;
    assert forall k | els <= k < e :: s[els..e][k - els] == s[k];
  }

  /** Line boundaries of the two marker lines. */
  lemma {:induction false} MarkerLines(s: string, key: string, m: nat, e: nat)
    requires At(s, BeginMarker(key), m) && At(s, EndMarker(key), e)
    requires m + |BeginMarker(key)| <= e && MarkersAlone(s, key, m, e)
    ensures var a := m + |BeginMarker(key)|;
            var bls, ble := LineStart(s, m), LineEndAfter(s, a);
            var els, ele := LineStart(s, e), LineEndAfter(s, e + |EndMarker(key)|);
            && bls <= m < ble <= els <= e < ele <= |s|
            && Complete(s[..bls]) && Complete(s[..ble]) && Complete(s[..els]) && Cut(s, ele)
            && !HasNewline(s[els..e]) && LineLen(s[a..]) == ble - a
  {
    hide IsSpace, LineEndAfter, LineStart, LineLen, Blank;
    var a, z := m + |BeginMarker(key)|, e + |EndMarker(key)|;
    assert s[e..z][0] == EndMarker(key)[0] == '#';
    HashIsNotSpace();
    LinesApart(s, a, e);
    LineStartFacts(s, m);
    LineStartFacts(s, e);
    LineEndCut(s, a);
    LineEndCut(s, z);
  }

  lemma {:induction false} HashIsNotSpace()
    ensures !IsSpace('#')
  {
  }

  lemma {:induction false} MarkerLineIsComment(before: string, marker: string, after: string, key: string)
    requires Blank(before) && Blank(after) && "#" <= marker
    requires LineLen(before + marker + after) == |before + marker + after|
    ensures Foreign(before + marker + after, key) == []
  {
    hide TrimTomlLine, Blank;
    CommentLine(before, marker, after);
    ForeignOfLine(before + marker + after, key);
  }

  /** A line found by its boundaries is one line. */
  lemma {:induction false} OneLine(s: string, i: nat, z: nat)
    requires i < z <= |s| && !HasNewline(s[i..z])
    ensures LineStart(s, i) <= i && z <= LineEndAfter(s, z)
    ensures var line := s[LineStart(s, i)..LineEndAfter(s, z)]; LineLen(line) == |line|
  {
    hide LineLen, LineStart, LineEndAfter;
    var lo, hi := LineStart(s, i), LineEndAfter(s, z);
    LineStartFacts(s, i);
    LineEndAfterIs(s, z);
    LineLenAlone(s[z..]);
    assert s[z..hi] == s[z..][..hi - z];
    LineLenPrefix(s[lo..i] + s[i..z], s[z..hi]);
    assert s[lo..hi] == s[lo..i] + s[i..z] + s[z..hi];
  }

  /** The two marker lines carry no header. */
  lemma {:induction false} MarkerLineForeign(s: string, key: string, marker: string, i: nat)
    requires At(s, marker, i) && "#" <= marker && !HasNewline(marker)
    requires Blank(s[LineStart(s, i)..i]) && Blank(s[i + |marker|..LineEndAfter(s, i + |marker|)])
    ensures Foreign(s[LineStart(s, i)..LineEndAfter(s, i + |marker|)], key) == []
  {
    hide TrimTomlLine, Blank, LineEndAfter, LineStart, Foreign, LineLen;
    var z := i + |marker|;
    var lo, hi := LineStart(s, i), LineEndAfter(s, z);
    OneLine(s, i, z);
    assert s[lo..hi] == s[lo..i] + marker + s[z..hi];
    MarkerLineIsComment(s[lo..i], marker, s[z..hi], key);
  }

  /** White space on the rest of a marker line carries no header. */
  lemma {:induction false} BlankForeign(t: string, key: string)
    requires Blank(t) && LineLen(t) == |t|
    ensures Foreign(t, key) == []
  {
    hide TrimTomlLine, Blank, Foreign, LineLen;
    BlankLine(t);
    ForeignOfLine(t, key);
  }

  /** With only white space around them, the marker lines are apart and carry no header. */
  lemma {:induction false} CleanLines(s: string, key: string, m: nat, e: nat)
    requires At(s, BeginMarker(key), m) && At(s, EndMarker(key), e) && !HasNewline(key)
    requires m + |BeginMarker(key)| <= e && MarkersAlone(s, key, m, e)
    ensures var a, bls, ble := m + |BeginMarker(key)|, LineStart(s, m), LineEndAfter(s, m + |BeginMarker(key)|);
            var els, ele := LineStart(s, e), LineEndAfter(s, e + |EndMarker(key)|);
            && bls <= a <= ble <= els <= e < ele <= |s| && Complete(s[..ble]) && Complete(s[..els])
            && Foreign(s[bls..ble], key) == [] && Foreign(s[els..ele], key) == []
            && Foreign(s[a..ble], key) == [] && Foreign(s[els..e], key) == []
  {
    hide Foreign, LineStart, LineEndAfter, LineLen, Blank, HasNewline, Complete, Cut;
    var a, z := m + |BeginMarker(key)|, e + |EndMarker(key)|;
    var ble, els := LineEndAfter(s, a), LineStart(s, e);
    MarkerLines(s, key, m, e);
    MarkersHaveNoNewline(key);
    MarkerLineForeign(s, key, BeginMarker(key), m);
    MarkerLineForeign(s, key, EndMarker(key), e);
    RestOfLineForeign(s, key, a, ble);
    StartOfLineForeign(s, key, els, e);
  }

  lemma {:induction false} RestOfLineForeign(s: string, key: string, a: nat, ble: nat)
    requires a <= ble <= |s| && LineLen(s[a..]) == ble - a && Blank(s[a..ble])
    ensures Foreign(s[a..ble], key) == []
  {
    hide Foreign, LineLen, Blank;
    LineLenAlone(s[a..]);
    assert s[a..][..ble - a] == s[a..ble];
    BlankForeign(s[a..ble], key);
  }

  lemma {:induction false} StartOfLineForeign(s: string, key: string, els: nat, e: nat)
    requires els <= e <= |s| && !HasNewline(s[els..e]) && Blank(s[els..e])
    ensures Foreign(s[els..e], key) == []
  {
    hide Foreign, Blank;
    LineLenPrefix(s[els..e], "");
    assert s[els..e] + "" == s[els..e];
    BlankForeign(s[els..e], key);
  }

  lemma {:induction false} MarkersHaveNoNewline(key: string)
    requires !HasNewline(key)
    ensures !HasNewline(BeginMarker(key)) && !HasNewline(EndMarker(key))
    ensures "#" <= BeginMarker(key) && "#" <= EndMarker(key)
  {
    assert !HasNewline(BEGIN_TAIL) && !HasNewline(END_TAIL);
  }

  // ---------------------------------------------------------------- the frame theorem

  /** The offsets of a span are in the order the editor slices them. */
  predicate Ordered(s: string, span: Span) {
    match span
    case Exact(start, end) => start <= end <= |s|
    case Recover(bls, ble, ts, te, els, ele, _) => bls <= ble <= ts < te <= els <= ele <= |s|
  }

  /** What the editor keeps before and after the new block. */
  function Kept(s: string, span: Span): (string, string)
    requires Ordered(s, span)
  {
    match span
    case Exact(start, end) => (s[..start], s[end..])
    case Recover(bls, ble, ts, te, els, ele, preserve) =>
      (s[..bls] + (if preserve then s[ble..ts] else ""), s[te..els] + s[ele..])
  }

  lemma {:induction false} SpliceKept(s: string, block: string, span: Span)
    requires Ordered(s, span)
    ensures Splice(s, block, span) == Some(Kept(s, span).0 + block + Kept(s, span).1)
  {
    if span.Recover? {
      var (bls, ble, ts, te, els, ele) :=
        (span.beginLineStart, span.beginLineEnd, span.tableStart, span.tableEnd, span.endLineStart, span.endLineEnd);
      var p := if span.preserve then s[ble..ts] else "";
      assert s[..bls] + p + block + s[te..els] + s[ele..] == (s[..bls] + p) + block + (s[te..els] + s[ele..]);
    }
  }

  /** What the locator promises of its offsets, marker lines clean or not; `m` is the begin marker. */
  ghost predicate SpanInOrder(s: string, key: string, m: nat, span: Span) {
    match span
    case Exact(start, end) => start <= m <= end <= |s| && Complete(s[..start]) && Cut(s, end)
    case Recover(bls, ble, ts, te, els, ele, preserve) =>
      && bls <= m <= ble <= ts < te && els <= ele <= |s| && ts <= |s|
      && Complete(s[..bls]) && Complete(s[..ble]) && Complete(s[ble..ts]) && Complete(s[..els]) && Cut(s, ele)
      && (te <= els ==> Complete(s[..te]) && Foreign(s[ts..te], key) == [])
      && preserve == (Foreign(s[ble..ts], key) != [])
  }

  lemma {:induction false} SpanBounds(s: string, key: string)
    requires Locate(s, key).Found?
    ensures Find(s, BeginMarker(key)).Some?
    ensures SpanInOrder(s, key, Find(s, BeginMarker(key)).value, Locate(s, key).span)
  {
    hide LocateBetween, BeginMarker, EndMarker, SpanInOrder;
    var m := Find(s, BeginMarker(key)).value;
    var k := Find(s[m..], EndMarker(key)).value;
    assert s[m..] == s[m..|s|];
    AtSlice(s, EndMarker(key), m, |s|, k);
    BetweenBounds(s, key, m, m + k);
  }

  lemma {:induction false} BetweenBounds(s: string, key: string, m: nat, e: nat)
    requires At(s, BeginMarker(key), m) && At(s, EndMarker(key), e)
    requires LocateBetween(s, key, m, e).Found?
    ensures SpanInOrder(s, key, m, LocateBetween(s, key, m, e).span)
  {
    hide Foreign, LineStart, LineEndAfter, BeginMarker, EndMarker, LocateTable, Cut;
    var a := m + |BeginMarker(key)|;
    LineStartFacts(s, m);
    LineStartFacts(s, e);
    LineEndCut(s, e + |EndMarker(key)|);
    if LocateBetween(s, key, m, e).span.Recover? {
      var span := LocateBetween(s, key, m, e).span;
      TableLines(s, key, a, e, span.beginLineEnd, span.tableStart, span.tableEnd, span.endLineStart);
    }
  }

  /** The table is whole lines, and so is what lies between the begin line and it. */
  lemma {:induction false} TableLines(s: string, key: string, a: nat, e: nat, ble: nat, ts: nat, te: nat, els: nat)
    requires a <= e <= |s| && ble == LineEndAfter(s, a) && ble <= ts && els <= e && Complete(s[..els])
    requires LocateTable(s[a..e], key) == Some((ts - a, te - a)) && te >= a
    ensures Complete(s[..ble]) && Complete(s[ble..ts])
    ensures te <= els ==> Complete(s[..te]) && Foreign(s[ts..te], key) == []
  {
    hide Foreign, LocateTable, LineEndAfter, Complete;
    var t := s[a..e];
    TableFacts(t, key);
    LineEndCut(s, a);
    CutInside(s, a, e, ble, ts);
    Sub(s, a, e, ts - a, te - a);
    if te < e { CutInside(s, a, e, te, te); }
    assert te == e && te <= els ==> s[..te] == s[..els];
  }

  lemma {:induction false} CutInside(s: string, a: nat, e: nat, lo: nat, x: nat)
    requires a <= lo <= x <= e <= |s| && Complete(s[a..e][..x - a])
    ensures Complete(s[lo..x]) && (a < x ==> Complete(s[..x]))
  {
    if a < x { assert s[a..e][..x - a][x - a - 1] == s[x - 1] == s[..x][x - 1]; }
    if lo < x { assert s[lo..x][x - lo - 1] == s[x - 1]; }
  }

  lemma {:induction false} ForeignAround(pre: string, block: string, post: string, key: string)
    requires Complete(pre) && Complete(block) && Foreign(block, key) == []
    ensures Foreign(pre + block + post, key) == Foreign(pre, key) + Foreign(post, key)
  {
    hide Foreign;
    assert pre + block + post == pre + (block + post);
    ForeignConcat(pre, block + post, key);
    ForeignConcat(block, post, key);
  }

  /** Appending pads with blank lines only. */
  lemma {:induction false} PaddingForeign(s: string, key: string)
    ensures Complete(s + Padding(s)) && Foreign(s + Padding(s), key) == Foreign(s, key)
  {
    hide Foreign, Find;
    var newline := DetectNewline(s);
    if s == "" {
      assert s + Padding(s) == "";
    } else if EndsWith(s, "\n") {
      assert s[|s| - 1] == s[|s| - 1..][0] == '\n';
      PadMore(s, Padding(s), key);
    } else {
      var first := s + newline;
      var more := if EndsWith(first, newline + newline) then "" else newline;
      assert s + Padding(s) == first + more;
      assert s[|s| - 1] != '\n' by { assert s[|s| - 1..] == [s[|s| - 1]]; }
      ForeignNewline(s, newline, key);
      assert first[|first| - 1] == newline[|newline| - 1];
      PadMore(first, more, key);
    }
  }

  lemma {:induction false} PadMore(s: string, pad: string, key: string)
    requires Complete(s) && (pad == "" || pad == "\n" || pad == "\r\n")
    ensures Complete(s + pad) && Foreign(s + pad, key) == Foreign(s, key)
  {
    hide Foreign;
    ForeignConcat(s, pad, key);
    BlankPadding(pad, key);
    assert pad == "" ==> s + pad == s;
    assert pad != "" ==> (s + pad)[|s + pad| - 1] == pad[|pad| - 1];
  }

  lemma {:induction false} BlankPadding(pad: string, key: string)
    requires pad == "" || pad == "\n" || pad == "\r\n"
    ensures Foreign(pad, key) == []
  {
    hide Foreign;
    NewlineIsLine(pad);
    BlankForeign(pad, key);
  }

  lemma {:induction false} NewlineIsLine(pad: string)
    requires pad == "" || pad == "\n" || pad == "\r\n"
    ensures LineLen(pad) == |pad| && Blank(pad)
  {
    if pad == "\r\n" {
      assert pad[..1] == "\r";
      LineLenIs(pad, 2);
    }
  }

  /** Closing the last line with a line break does not change what it says. */
  lemma {:induction false} ForeignNewline(s: string, newline: string, key: string)
    requires newline == "\n" || newline == "\r\n"
    requires s != "" && s[|s| - 1] != '\n'
    ensures Foreign(s + newline, key) == Foreign(s, key)
    decreases |s|
  {
    hide Foreign, LineLen;
    var n := LineLen(s);
    LineLenFacts(s);
    if n < |s| {
      assert s == s[..n] + s[n..];
      ForeignConcat(s[..n], s[n..] + newline, key);
      ForeignConcat(s[..n], s[n..], key);
      assert s + newline == s[..n] + (s[n..] + newline);
      ForeignNewline(s[n..], newline, key);
    } else {
      assert s[..n - 1] + [s[n - 1]] == s;
      LastLineNewline(s, newline, key);
    }
  }

  lemma {:induction false} LastLineNewline(s: string, newline: string, key: string)
    requires newline == "\n" || newline == "\r\n"
    requires s != "" && !HasNewline(s)
    ensures Foreign(s + newline, key) == Foreign(s, key)
  {
    hide IsForeign, TrimTomlLine, LineLen;
    var t := s + newline;
    LineLenPrefix(s, newline);
    NewlineIsLine(newline);
    LineLenPrefix(s, "");
    NewlineIsLine("");
    assert s + "" == s;
    SameLine(s, newline);
    assert t[..|t|] == t && s[..|s|] == s;
    assert Rest(s) == "" && Rest(t) == "";
  }

  lemma {:induction false} SameLine(s: string, newline: string)
    requires newline == "\n" || newline == "\r\n"
    ensures TrimTomlLine(s + newline) == TrimTomlLine(s)
  {
    assert Blank(newline);
    TrimWithBlank(s, newline);
  }

  lemma {:induction false} TrimWithBlank(s: string, w: string)
    requires Blank(w)
    ensures Trim(s + w) == Trim(s)
  {
    hide IsSpace;
    var before, after := TrimSplit(s);
    var core := Trim(s);
    assert s + w == before + core + (after + w);
    TrimCore(before, core, after + w);
  }

  /** The lines an edit drops with the old block hold no foreign header. */
  predicate LosesNoHeader(s: string, key: string) {
    match Locate(s, key)
    case Found(Exact(start, end)) => start <= end <= |s| && Foreign(s[start..end], key) == []
    case Found(Recover(bls, ble, _, _, els, ele, _)) =>
      && bls <= ble <= |s| && els <= ele <= |s|
      && Foreign(s[bls..ble], key) == [] && Foreign(s[els..ele], key) == []
    case _ => true
  }

  /** The foreign headers of a text, cut where an exact edit cuts it. */
  lemma {:induction false} ExactForeign(s: string, key: string, start: nat, end: nat)
    requires start <= end <= |s| && Complete(s[..start]) && Cut(s, end)
    ensures Foreign(s, key) == Foreign(s[..start], key) + Foreign(s[start..end], key) + Foreign(s[end..], key)
  {
    hide Foreign, Complete;
    ForeignSplit(s, end, key);
    assert s[..end] == s[0..end] && s[..start] == s[0..start];
    ForeignMiddle(s, 0, start, end, key);
  }

  /** The foreign headers of a text, cut where a repair cuts it. */
  lemma {:induction false} RepairForeign(s: string, key: string, span: Span, m: nat)
    requires span.Recover? && Ordered(s, span) && SpanInOrder(s, key, m, span)
    ensures var (bls, ble, ts, te) := (span.beginLineStart, span.beginLineEnd, span.tableStart, span.tableEnd);
            var (els, ele) := (span.endLineStart, span.endLineEnd);
            Foreign(s, key) == Foreign(s[..bls], key) + (Foreign(s[bls..ble], key) + Foreign(s[ble..ts], key)
            + (Foreign(s[te..els], key) + Foreign(s[els..ele], key))) + Foreign(s[ele..], key)
  {
    hide Foreign, Complete;
    var (bls, ble, ts, te) := (span.beginLineStart, span.beginLineEnd, span.tableStart, span.tableEnd);
    var (els, ele) := (span.endLineStart, span.endLineEnd);
    ExactForeign(s, key, bls, ele);
    assert Complete(s[..ts]) by { CompleteTo(s, ble, ts); }
    ForeignMiddle(s, bls, ble, ele, key);
    ForeignMiddle(s, ble, ts, ele, key);
    ForeignMiddle(s, ts, te, ele, key);
    ForeignMiddle(s, te, els, ele, key);
  }

  lemma {:induction false} CompleteTo(s: string, i: nat, j: nat)
    requires i <= j <= |s| && Complete(s[..i]) && Complete(s[i..j])
    ensures Complete(s[..j])
  {
    if i < j { assert s[i..j][j - i - 1] == s[..j][j - 1]; }
  }

  /** What an edit keeps holds the foreign headers of the whole, if and only if it drops none. */
  lemma {:induction false} KeptForeign(s: string, key: string, span: Span)
    requires Locate(s, key) == Found(span) && Ordered(s, span)
    ensures Complete(Kept(s, span).0)
    ensures Foreign(Kept(s, span).0, key) + Foreign(Kept(s, span).1, key) == Foreign(s, key) <==> LosesNoHeader(s, key)
  {
    hide Foreign, Locate, SpanInOrder, Complete;
    SpanBounds(s, key);
    var m := Find(s, BeginMarker(key)).value;
    match span {
      case Exact(start, end) =>
        assert Complete(s[..start]) && Cut(s, end) by { SpanCuts(s, key, m, span); }
        ExactForeign(s, key, start, end);
      case Recover(bls, ble, ts, te, els, ele, preserve) =>
        RepairForeign(s, key, span, m);
        KeptRepaired(s, key, span, m);
    }
  }

  lemma {:induction false} SpanCuts(s: string, key: string, m: nat, span: Span)
    requires span.Exact? && SpanInOrder(s, key, m, span)
    ensures Complete(s[..span.start]) && Cut(s, span.end)
  {
  }

  lemma {:induction false} KeptRepaired(s: string, key: string, span: Span, m: nat)
    requires span.Recover? && Ordered(s, span) && SpanInOrder(s, key, m, span)
    ensures var (pre, post) := Kept(s, span);
            && Complete(pre)
            && Foreign(pre, key) == Foreign(s[..span.beginLineStart], key)
                                    + Foreign(s[span.beginLineEnd..span.tableStart], key)
            && Foreign(post, key) == Foreign(s[span.tableEnd..span.endLineStart], key) +
                Foreign(s[span.endLineEnd..], key)
  {
    hide Foreign, Cut;
    var (bls, ble, ts, te, els) :=
      (span.beginLineStart, span.beginLineEnd, span.tableStart, span.tableEnd, span.endLineStart);
    var kept := if span.preserve then s[ble..ts] else "";
    ForeignEmpty(key);
    assert Foreign(kept, key) == Foreign(s[ble..ts], key);
    ForeignConcat(s[..bls], kept, key);
    assert te < els ==> s[te..els][els - te - 1] == s[..els][els - 1];
    ForeignConcat(s[te..els], s[span.endLineEnd..], key);
    assert kept != "" ==> (s[..bls] + kept)[|s[..bls] + kept| - 1] == kept[|kept| - 1];
    assert kept == "" ==> s[..bls] + kept == s[..bls];
  }

  /**
   Frame of the TOML edit. On every path (exact block, over-wide repair,
   unmanaged table, append) a successful edit keeps the ordered list of foreign
   table headers, if and only if the lines it drops with the old block hold
   none.
   */
  lemma {:induction false} FrameExactly(s: string, key: string, block: string)
    requires Complete(block) && Foreign(block, key) == []
    requires Apply(s, key, block).Updated?
    ensures Foreign(Apply(s, key, block).contents, key) == Foreign(s, key) <==> LosesNoHeader(s, key)
  {
    hide Foreign, LocateTable, Padding, Complete;
    match Locate(s, key) {
      case Found(span) =>
        SplicedOrder(s, key, block);
        KeptForeign(s, key, span);
        SpliceKept(s, block, span);
        ForeignAround(Kept(s, span).0, block, Kept(s, span).1, key);
      case NotThere =>
        if LocateTable(s, key).Some? {
          var (start, end) := LocateTable(s, key).value;
          TableFacts(s, key);
          ForeignAround(s[..start], block, s[end..], key);
        } else {
          PaddingForeign(s, key);
          assert s + Padding(s) + block + "" == s + Padding(s) + block;
          ForeignAround(s + Padding(s), block, "", key);
          ForeignEmpty(key);
        }
    }
  }

  lemma {:induction false} SplicedOrder(s: string, key: string, block: string)
    requires Locate(s, key).Found?
    ensures Ordered(s, Locate(s, key).span) <==> Splice(s, block, Locate(s, key).span).Some?
  {
    hide Foreign, Locate, Complete, Cut, Find;
    SpanBounds(s, key);
  }

  /** Marker lines that hold only the marker lose nothing. */
  lemma {:induction false} CleanLosesNothing(s: string, key: string)
    requires !HasNewline(key) && CleanMarkers(s, key)
    ensures LosesNoHeader(s, key)
  {
    hide Foreign, LineStart, LineEndAfter, LocateTable, BeginMarker, EndMarker, MarkersAlone, HasNewline, Complete,
         Blank;
    if Locate(s, key).Found? {
      var m := Find(s, BeginMarker(key)).value;
      var k := Find(s[m..], EndMarker(key)).value;
      assert s[m..] == s[m..|s|];
      AtSlice(s, EndMarker(key), m, |s|, k);
      var a, e := m + |BeginMarker(key)|, m + k;
      CleanLines(s, key, m, e);
      var bls, ble := LineStart(s, m), LineEndAfter(s, a);
      var els, ele := LineStart(s, e), LineEndAfter(s, e + |EndMarker(key)|);
      ForeignMiddle(s, a, ble, e, key);
      ForeignMiddle(s, ble, els, e, key);
      ForeignMiddle(s, bls, ble, ele, key);
      ForeignMiddle(s, ble, els, ele, key);
    }
  }

  /** So an edit keeps every foreign header when the marker lines it acts on hold only the marker. */
  lemma {:induction false} Frame(s: string, key: string, block: string)
    requires !HasNewline(key) && CleanMarkers(s, key)
    requires Complete(block) && Foreign(block, key) == []
    requires Apply(s, key, block).Updated?
    ensures Foreign(Apply(s, key, block).contents, key) == Foreign(s, key)
  {
    hide Foreign, CleanMarkers, HasNewline, LosesNoHeader, Apply;
    CleanLosesNothing(s, key);
    FrameExactly(s, key, block);
  }
}
