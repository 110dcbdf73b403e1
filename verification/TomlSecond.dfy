/**
 A block written after a text that still holds a begin marker: the next edit
 starts at that marker, and whatever it does, it does not leave the text alone.
 */
module TomlSecond {
  import opened Text
  import opened Toml
  import opened TomlEdit
  import opened TomlFrame
  import opened TomlBlock
  import opened TomlConverge
  import opened TomlSections

  // ---------------------------------------------------------------- counting lines

  function Breaks(t: string): nat {
    if t == "" then 0 else (if t[0] == '\n' then 1 else 0) + Breaks(t[1..])
  }

  lemma {:induction false} BreaksConcat(a: string, b: string)
    ensures Breaks(a + b) == Breaks(a) + Breaks(b)
  {
    if a == "" {
      assert a + b == b;
    } else {
      BreaksConcat(a[1..], b);
      assert (a + b)[1..] == a[1..] + b;
    }
  }

  lemma {:induction false} NoBreaks(t: string)
    requires !HasNewline(t)
    ensures Breaks(t) == 0
  {
    if t != "" { NoBreaks(t[1..]); }
  }

  lemma {:induction false} NewlineBreaks(newline: string)
    requires IsNewline(newline)
    ensures Breaks(newline) == 1
  {
    if newline == "\r\n" {
      assert newline[1..] == "\n" && "\n"[1..] == "";
    } else {
      assert newline[1..] == "";
    }
  }

  /** The first line of a text of whole lines has one line break. */
  lemma {:induction false} LineBreaks(t: string)
    requires Complete(t) && t != ""
    ensures Breaks(t[..LineLen(t)]) == 1
  {
    hide Breaks, LineLen;
    LineLenFacts(t);
    var n := LineLen(t);
    assert t[..n] == t[..n - 1] + "\n" by { assert t[n - 1] == '\n'; }
    BreaksConcat(t[..n - 1], "\n");
    NoBreaks(t[..n - 1]);
    NewlineBreaks("\n");
  }

  // ---------------------------------------------------------------- the block from its begin marker

  /** The two lines of the block before its header. */
  function Opening(key: string, newline: string): string {
    BeginMarker(key) + newline + (NOTE + newline)
  }

  /** The table of the block. */
  function Table(key: string, url: string, newline: string): string {
    TableHeader(TableKey(key)) + newline + (UrlLine(url) + newline + (ENABLED + newline + (TIMEOUT + newline)))
  }

  lemma {:induction false} OpeningTable(key: string, url: string, newline: string)
    ensures BeginMarker(key) + Body(key, url, newline) == Opening(key, newline) + Table(key, url, newline)
  {
    hide TableHeader, UrlLine, BeginMarker;
    var b, n, c, t := BeginMarker(key), newline, NOTE + newline, Table(key, url, newline);
    assert Body(key, url, newline) == n + (c + t);
    assert b + (n + (c + t)) == b + n + c + t;
  }

  lemma {:induction false} OpeningBreaks(key: string, newline: string)
    requires IsBareKey(key) && IsNewline(newline)
    ensures Breaks(Opening(key, newline)) == 2
  {
    hide Breaks, BeginMarker, EndMarker;
    MarkerShape(key);
    FixedLines();
    var b := BeginMarker(key);
    NoBreaks(b);
    NoBreaks(NOTE);
    NewlineBreaks(newline);
    BreaksConcat(b, newline);
    BreaksConcat(NOTE, newline);
    BreaksConcat(b + newline, NOTE + newline);
  }

  /** A line that starts with a comment sign is neither MCPace's own header nor any other. */
  lemma {:induction false} CommentStep(line: string, newline: string, rest: string, key: string)
    requires "#" <= line && !HasNewline(line) && IsNewline(newline)
    ensures OwnAt(line + newline + rest, key) == Shift(OwnAt(rest, key), |line + newline|)
    ensures Foreign(line + newline + rest, key) == Foreign(rest, key)
  {
    hide TrimTomlLine, OwnAt, LineLen, IsOwn, IsHeader, Foreign, HeaderAt;
    LineWithNewline(line, newline);
    CommentLine("", line, newline);
    assert "" + line + newline == line + newline;
    LineStep(line + newline, rest, key);
    NotOwnSample(key);
  }

  lemma {:induction false} TableHeads(key: string, url: string, newline: string)
    requires IsNewline(newline)
    ensures OwnAt(Table(key, url, newline), key) == Some(0)
    ensures SectionEnd(Table(key, url, newline)) == |Table(key, url, newline)|
  {
    hide TrimTomlLine, LineLen, IsOwn, IsHeader, OwnAt, HeaderAt, TableHeader, BasicString;
    FixedLines();
    EscapeNoNewline(url);
    HeaderScan(key);
    HeaderHasNoNewline(key);
    HeaderLine(key, newline);
    var head := TableHeader(TableKey(key)) + newline;
    var rest := UrlLine(url) + newline + (ENABLED + newline + (TIMEOUT + newline));
    LineWithNewline(TableHeader(TableKey(key)), newline);
    LineStep(head, rest, key);
    PlainStep(TIMEOUT, newline, "", key);
    assert TIMEOUT + newline + "" == TIMEOUT + newline;
    NoHeaderInNothing();
    PlainStep(ENABLED, newline, TIMEOUT + newline, key);
    PlainStep(UrlLine(url), newline, ENABLED + newline + (TIMEOUT + newline), key);
  }

  lemma {:induction false} NoHeaderInNothing()
    ensures HeaderAt("").None?
  {
  }

  lemma {:induction false} PlainStep(line: string, newline: string, rest: string, key: string)
    requires line != "" && !IsSpace(line[0]) && line[0] != '[' && !HasNewline(line) && IsNewline(newline)
    ensures HeaderAt(line + newline + rest) == Shift(HeaderAt(rest), |line + newline|)
  {
    hide TrimTomlLine, LineLen, IsOwn, IsHeader, HeaderAt, OwnAt, IsSpace;
    LineWithNewline(line, newline);
    NotHeader(line + newline);
    LineStep(line + newline, rest, key);
  }

  /** From its begin marker the block's own table starts after two lines and runs to the end marker. */
  lemma {:induction false} BlockTable(key: string, url: string, newline: string)
    requires IsBareKey(key) && IsNewline(newline)
    ensures var t := BeginMarker(key) + Body(key, url, newline);
            OwnAt(t, key) == Some(|Opening(key, newline)|)
            && t[|Opening(key, newline)|..] == Table(key, url, newline)
  {
    hide OwnAt, BeginMarker, EndMarker, Table, Body, Foreign;
    OpeningTable(key, url, newline);
    MarkerShape(key);
    FixedLines();
    MarkersHaveNoNewline(key);
    var table := Table(key, url, newline);
    TableHeads(key, url, newline);
    CommentStep(NOTE, newline, table, key);
    CommentStep(BeginMarker(key), newline, NOTE + newline + table, key);
    var b, c := BeginMarker(key) + newline, NOTE + newline;
    assert b + c + table == b + (c + table);
  }

  // ---------------------------------------------------------------- own headers in parts of a text

  lemma {:induction false} OwnConcat(a: string, b: string, key: string)
    requires Complete(a)
    ensures OwnAt(a + b, key) == if OwnAt(a, key).Some? then OwnAt(a, key) else Shift(OwnAt(b, key), |a|)
    decreases |a|
  {
    hide TrimTomlLine, IsOwn, LineLen, FirstLine;
    if a == "" {
      assert a + b == b;
    } else {
      FirstLineConcat(a, b);
      LineLenConcat(a, b);
      OwnConcat(Rest(a), b, key);
    }
  }

  /** Before the first own header there is none. */
  lemma {:induction false} NoOwnBefore(t: string, key: string, x: nat, i: nat)
    requires OwnAt(t, key) == Some(i) && x <= i && Complete(t[..x])
    ensures OwnAt(t[x..i], key).None?
  {
    hide OwnAt, FirstLine, IsOwn, LineLen;
    OwnFacts(t, key);
    ThreeParts(t, x, i);
    OwnConcat(t[..x], t[x..], key);
    OwnConcat(t[x..i], t[i..], key);
  }

  lemma {:induction false} ThreeParts(t: string, x: nat, i: nat)
    requires x <= i <= |t| && Complete(t[..i])
    ensures t == t[..x] + t[x..] && t[x..] == t[x..i] + t[i..] && Complete(t[x..i])
  {
    if x < i { assert t[x..i][i - x - 1] == t[..i][i - 1]; }
  }

  // ---------------------------------------------------------------- the next edit

  /** Whole lines that hold a begin marker, with no end marker and no own header after it. */
  ghost predicate Leftover(pre: string, key: string) {
    && Complete(pre) && Find(pre, BeginMarker(key)).Some?
    && var m := Find(pre, BeginMarker(key)).value;
       var a := m + |BeginMarker(key)|;
       && a <= |pre| && !Occurs(pre[m..], EndMarker(key))
       && OwnAt(pre[LineEndAfter(pre, a)..], key).None?
  }

  /** The marker's line, and the offsets around it. */
  lemma {:induction false} LeftoverLine(pre: string, key: string)
    requires IsBareKey(key) && Leftover(pre, key)
    ensures var m := Find(pre, BeginMarker(key)).value;
            var a := m + |BeginMarker(key)|;
            var ls, le := LineStart(pre, m), LineEndAfter(pre, a);
            && ls <= m < a < le <= |pre| && Complete(pre[..ls]) && Complete(pre[..le])
            && Complete(pre[a..le]) && LineLen(pre[a..le]) == |pre[a..le]| && LineLen(pre[a..]) == le - a
            && Complete(pre[le..]) && Complete(pre[m..]) && Breaks(pre[ls..le]) == 1 && OwnAt(pre[le..], key).None?
  {
    hide LineStart, LineEndAfter, LineLen, Breaks, OwnAt, Occurs, BeginMarker, EndMarker, IsBareKey;
    MarkerShape(key);
    var m := Find(pre, BeginMarker(key)).value;
    var a := m + |BeginMarker(key)|;
    var ls, le := LineStart(pre, m), LineEndAfter(pre, a);
    LineStartFacts(pre, m);
    assert pre[m..a] == BeginMarker(key);
    MarkerNotLast(pre, m, a);
    LineEndCut(pre, a);
    LineLenFacts(pre[a..]);
    LineLenAlone(pre[a..]);
    Cuts(pre, a, le);
    assert pre[a..][|pre| - a - 1] == pre[|pre| - 1];
    LineBreaks(pre[a..]);
    NoBreaks(pre[ls..m]);
    NoBreaks(pre[m..a]);
    Join(pre, ls, m, a);
    Join(pre, ls, a, le);
    BreaksConcat(pre[ls..m], pre[m..a]);
    BreaksConcat(pre[ls..m] + pre[m..a], pre[a..le]);
    TailsComplete(pre, m, a, le);
  }

  lemma {:induction false} LeftoverAt(pre: string, key: string) returns (m: nat)
    requires IsBareKey(key) && Leftover(pre, key)
    ensures Find(pre, BeginMarker(key)) == Some(m) && m + |BeginMarker(key)| <= |pre|
    ensures var ls, le := LineStart(pre, m), LineEndAfter(pre, m + |BeginMarker(key)|);
            ls <= le <= |pre| && Breaks(pre[ls..le]) == 1
  {
    m := Find(pre, BeginMarker(key)).value;
    hide LineStart, LineEndAfter, LineLen, Breaks, OwnAt, Occurs, BeginMarker, EndMarker, IsBareKey, Complete;
    LeftoverLine(pre, key);
  }

  lemma {:induction false} MarkerNotLast(pre: string, m: nat, a: nat)
    requires Complete(pre) && m < a <= |pre| && !HasNewline(pre[m..a])
    ensures a < |pre|
  {
    assert pre[m..a][a - m - 1] == pre[a - 1];
  }

  lemma {:induction false} TailsComplete(pre: string, m: nat, a: nat, le: nat)
    requires Complete(pre) && m < a < le <= |pre| && pre[le - 1] == '\n'
    ensures Complete(pre[le..]) && Complete(pre[m..]) && Complete(pre[a..le]) && Complete(pre[..le])
  {
  }

  /** The markers the next edit finds: the leftover one, and the block's end marker. */
  lemma {:induction false} SecondMarkers(pre: string, key: string, url: string, newline: string, post: string)
    requires IsBareKey(key) && IsNewline(newline) && !Occurs(url, EndMarker(key)) && Leftover(pre, key)
    ensures var m := Find(pre, BeginMarker(key)).value;
            var out := pre + (Block(key, url, newline) + post);
            && Find(out, BeginMarker(key)) == Some(m)
            && Find(out[m..], EndMarker(key)) == Some(|pre| - m + |BeginMarker(key) + Body(key, url, newline)|)
  {
    hide LineEndAfter, OwnAt, Block, Body, BeginMarker, EndMarker, IsBareKey, Clear, Complete, At, Occurs;
    var bm, em, y := BeginMarker(key), EndMarker(key), Block(key, url, newline) + post;
    var m := Find(pre, bm).value;
    MarkerShape(key);
    LeftoverLine(pre, key);
    FirstStays(pre, y, bm, m);
    EndMarkerFound(key, url, newline, post);
    ClearLines(pre[m..], y, em);
    FindPast(pre[m..], y, em);
    assert (pre + y)[m..] == pre[m..] + y;
  }

  lemma {:induction false} FirstStays(pre: string, y: string, pat: string, m: nat)
    requires Find(pre, pat) == Some(m)
    ensures Find(pre + y, pat) == Some(m)
  {
    hide At;
    AtEnd(pre, pat, m);
    AtExtend(pre, y, pat, m);
    forall j: nat | j < m ensures !At(pre + y, pat, j) { AtPrefix(pre, y, pat, j); }
    FindIs(pre + y, pat, m);
  }

  /** The lines around them. */
  lemma {:induction false} SecondLines(pre: string, key: string, url: string, newline: string, post: string)
    requires IsBareKey(key) && IsNewline(newline) && Leftover(pre, key)
    ensures var m := Find(pre, BeginMarker(key)).value;
            var a, e := m + |BeginMarker(key)|, |pre| + |BeginMarker(key) + Body(key, url, newline)|;
            var out := pre + (Block(key, url, newline) + post);
            && LineStart(out, m) == LineStart(pre, m) && LineEndAfter(out, a) == LineEndAfter(pre, a)
            && e + |EndMarker(key)| <= |out|
            && LineStart(out, e) == e && LineEndAfter(out, e + |EndMarker(key)|) == |pre| + |Block(key, url, newline)|
            && out[a..e] == pre[a..] + (BeginMarker(key) + Body(key, url, newline))
            && out[|pre| + |Block(key, url, newline)|..] == post && out[..|pre|] == pre
  {
    hide LineStart, LineEndAfter, LineLen, OwnAt, Block, Body, BeginMarker, EndMarker, IsBareKey, Complete, Occurs;
    var bm, em, body := BeginMarker(key), EndMarker(key), Body(key, url, newline);
    var m := Find(pre, bm).value;
    var a := m + |bm|;
    LeftoverLine(pre, key);
    BlockText(key, url, newline, post);
    BodyComplete(key, url, newline);
    SecondStart(pre, Block(key, url, newline) + post, m, a);
    SecondEnd(pre, bm + body, em, newline, post);
    SecondSlices(pre, a, bm + body, em + newline + post);
  }

  lemma {:induction false} BodyComplete(key: string, url: string, newline: string)
    requires IsNewline(newline)
    ensures Complete(BeginMarker(key) + Body(key, url, newline)) && Body(key, url, newline) != ""
  {
    hide Inner, Foreign, BeginMarker;
    InnerForeign(key, url, newline);
    var b, t := BeginMarker(key), Body(key, url, newline);
    assert t != "" && Complete(t) by {
      assert Inner(key, url, newline) != "" ==> t[|t| - 1] == Inner(key, url, newline)[|Inner(key, url, newline)| - 1];
    }
    assert (b + t)[|b + t| - 1] == t[|t| - 1];
  }

  lemma {:induction false} SecondStart(pre: string, y: string, m: nat, a: nat)
    requires m <= a < |pre| && Complete(pre)
    ensures LineStart(pre + y, m) == LineStart(pre, m) && LineEndAfter(pre + y, a) == LineEndAfter(pre, a)
  {
    hide LineStart, LineEndAfter, LineLen;
    var ls := LineStart(pre, m);
    LineStartFacts(pre, m);
    assert (pre + y)[..ls] == pre[..ls] && (pre + y)[ls..m] == pre[ls..m];
    LineStartIs(pre + y, ls, m);
    LineEndAfterIs(pre, a);
    LineEndAfterIs(pre + y, a);
    assert (pre + y)[a..] == pre[a..] + y;
    assert pre[a..][|pre| - a - 1] == pre[|pre| - 1];
    LineLenConcat(pre[a..], y);
  }

  lemma {:induction false} SecondEnd(pre: string, t: string, em: string, newline: string, post: string)
    requires Complete(t) && t != "" && IsNewline(newline)
    ensures var out := pre + (t + em + newline + post);
            && LineStart(out, |pre| + |t|) == |pre| + |t|
            && LineEndAfter(out, |pre| + |t| + |em|) == |pre| + |t + em + newline|
  {
    hide LineStart, LineEndAfter, LineLen;
    var out, e := pre + (t + em + newline + post), |pre| + |t|;
    assert out[..e] == pre + t && (pre + t)[e - 1] == t[|t| - 1] && out[e..e] == "";
    LineStartIs(out, e, e);
    var z := e + |em|;
    assert out[z..] == newline + post;
    LineEndAfterIs(out, z);
    NewlineIsLine(newline);
    LineLenConcat(newline, post);
  }

  lemma {:induction false} SecondSlices(pre: string, a: nat, t: string, tail: string)
    requires a <= |pre|
    ensures var out := pre + (t + tail); out[a..|pre| + |t|] == pre[a..] + t && out[..|pre|] == pre
  {
    assert pre + (t + tail) == pre[..a] + (pre[a..] + t) + tail;
  }

  /** Where the next edit finds MCPace's table: on the marker's own line, or in the block. */
  lemma {:induction false} SecondTable(pre: string, a: nat, le: nat, key: string, url: string, newline: string)
    requires IsBareKey(key) && IsNewline(newline) && a < le <= |pre| && Complete(pre[a..le]) && Complete(pre[le..])
    requires LineLen(pre[a..le]) == |pre[a..le]| && OwnAt(pre[le..], key).None?
    ensures var t := pre[a..] + (BeginMarker(key) + Body(key, url, newline));
            LocateTable(t, key).Some? &&
            (LocateTable(t, key).value.0 == 0 ||
             LocateTable(t, key) == Some((|pre| - a + |Opening(key, newline)|, |t|)))
  {
    hide LineLen, OwnAt, SectionEnd, Body, BeginMarker, EndMarker, IsBareKey, Complete, Opening, Table, LocateTable;
    var block := BeginMarker(key) + Body(key, url, newline);
    BlockTable(key, url, newline);
    TableHeads(key, url, newline);
    var line, rest := pre[a..le], pre[le..];
    TableAfter(line, rest, block, key, |Opening(key, newline)|);
    assert pre[a..] == line + rest;
    assert pre[a..] + block == line + (rest + block);
  }

  /** The first own header of a line, then lines without one, then a text that has one. */
  lemma {:induction false} TableAfter(line: string, rest: string, block: string, key: string, n: nat)
    requires line != "" && LineLen(line) == |line| && Complete(line) && Complete(rest) && OwnAt(rest, key).None?
    requires OwnAt(block, key) == Some(n) && SectionEnd(block[n..]) == |block| - n
    ensures var t := line + (rest + block);
            && LocateTable(t, key).Some?
            && (LocateTable(t, key).value.0 == 0 || LocateTable(t, key) == Some((|line| + |rest| + n, |t|)))
  {
    hide LineLen, OwnAt, SectionEnd, IsOwn, TrimTomlLine, IsHeader, HeaderAt, Foreign, Complete;
    LineStep(line, rest + block, key);
    OwnConcat(rest, block, key);
    assert (line + (rest + block))[|line| + |rest| + n..] == block[n..];
  }

  /** The located span, read off the markers, the lines and the table. */
  lemma {:induction false} SecondSpan(out: string, key: string, m: nat, e: nat, ts: nat)
    requires Find(out, BeginMarker(key)) == Some(m) && m <= e && Find(out[m..], EndMarker(key)) == Some(e - m)
    requires var a := m + |BeginMarker(key)|;
             && a <= e <= |out| && LineStart(out, e) == e && LineEndAfter(out, a) <= ts
             && a < LineEndAfter(out, a) && LocateTable(out[a..e], key).Some?
             && (LocateTable(out[a..e], key).value.0 == 0 || LocateTable(out[a..e], key) == Some((ts - a, e - a)))
             && e + |EndMarker(key)| <= |out|
    ensures var a := m + |BeginMarker(key)|;
            var bls, ble, ele := LineStart(out, m), LineEndAfter(out, a), LineEndAfter(out, e + |EndMarker(key)|);
            || Locate(out, key).Abort?
            || Locate(out, key) == Found(Exact(bls, ele))
            || Locate(out, key) == Found(Recover(bls, ble, ts, e, e, ele, false))
            || Locate(out, key) == Found(Recover(bls, ble, ts, e, e, ele, true))
  {
    hide LineStart, LineEndAfter, BeginMarker, EndMarker, Foreign, LocateTable;
    assert out[m..] == out[m..|out|];
    AtSlice(out, EndMarker(key), m, |out|, e - m);
  }

  lemma {:induction false} SecondKept(pre: string, ls: nat, le: nat, open: string, table: string, tail: string)
    requires ls <= le <= |pre|
    ensures var out := pre + (open + table + tail);
            && out[..ls] == pre[..ls] && out[le..|pre| + |open|] == pre[le..] + open
            && pre == pre[..ls] + pre[ls..le] + pre[le..]
  {
    var out := pre + (open + table + tail);
    assert out == pre[..le] + (pre[le..] + open) + (table + tail);
    assert out[..ls] == pre[..ls];
  }

  /** Dropping one line and adding two, or dropping lines only, changes the number of lines. */
  lemma {:induction false} KeptBreaks(pre: string, ls: nat, le: nat, open: string)
    requires ls <= le <= |pre| && Breaks(pre[ls..le]) == 1 && Breaks(open) == 2
    ensures Breaks(pre[..ls]) < Breaks(pre) < Breaks(pre[..ls] + (pre[le..] + open))
  {
    hide Breaks;
    assert pre == pre[..ls] + pre[ls..le] + pre[le..];
    BreaksConcat(pre[..ls], pre[ls..le]);
    BreaksConcat(pre[..ls] + pre[ls..le], pre[le..]);
    BreaksConcat(pre[..ls], pre[le..] + open);
    BreaksConcat(pre[le..], open);
  }

  lemma {:induction false} KeptIs(out: string, key: string, span: Span, pre: string, post: string)
    requires Locate(out, key) == Found(span) && Ordered(out, span)
    requires match span
             case Exact(start, end) => out[..start] == pre && out[end..] == post
             case Recover(bls, ble, ts, te, els, ele, preserve) =>
               te == els && out[..bls] + (if preserve then out[ble..ts] else "") == pre && out[ele..] == post
    ensures Pieces(out, key) == Some((pre, post))
  {
    hide Locate;
    if span.Recover? { assert out[span.tableEnd..span.endLineStart] + post == post; }
  }

  lemma {:induction false} SecondLocated(pre: string, key: string, url: string, newline: string, post: string, m: nat)
    requires IsBareKey(key) && IsNewline(newline) && !Occurs(url, EndMarker(key)) && Leftover(pre, key)
    requires Find(pre, BeginMarker(key)) == Some(m)
    ensures var out := pre + (Block(key, url, newline) + post);
            var ls, le := LineStart(pre, m), LineEndAfter(pre, m + |BeginMarker(key)|);
            var ts, e := |pre| + |Opening(key, newline)|, |pre| + |BeginMarker(key) + Body(key, url, newline)|;
            var ele := |pre| + |Block(key, url, newline)|;
            || Locate(out, key).Abort?
            || Locate(out, key) == Found(Exact(ls, ele))
            || Locate(out, key) == Found(Recover(ls, le, ts, e, e, ele, false))
            || Locate(out, key) == Found(Recover(ls, le, ts, e, e, ele, true))
  {
    hide LineStart, LineEndAfter, LineLen, OwnAt, Block, Body, BeginMarker, EndMarker, IsBareKey, Complete, Occurs,
         Opening, Breaks, Foreign, LocateTable, Leftover, Find, Locate;
    var bm, em := BeginMarker(key), EndMarker(key);
    var out := pre + (Block(key, url, newline) + post);
    var a, e := m + |bm|, |pre| + |bm + Body(key, url, newline)|;
    LeftoverLine(pre, key);
    SecondMarkers(pre, key, url, newline, post);
    SecondLines(pre, key, url, newline, post);
    SecondTable(pre, a, LineEndAfter(pre, a), key, url, newline);
    SecondSpan(out, key, m, e, |pre| + |Opening(key, newline)|);
  }

  /**
   The next edit aborts, or keeps something else before the block than what is
   there: it drops the marker's line, and copies the block's first two lines
   or drops everything up to the block.
   */
  lemma {:induction false} SecondEdit(pre: string, key: string, url: string, newline: string, post: string)
    requires IsBareKey(key) && IsNewline(newline) && !Occurs(url, EndMarker(key)) && Leftover(pre, key)
    ensures var out := pre + (Block(key, url, newline) + post);
            || Locate(out, key).Abort?
            || (Pieces(out, key).Some? && Pieces(out, key).value.1 == post &&
                Breaks(Pieces(out, key).value.0) != Breaks(pre))
  {
    hide *;
    var m := LeftoverAt(pre, key);
    SecondLocated(pre, key, url, newline, post, m);
    OpeningBreaks(key, newline);
    BlockSplit(key, url, newline, post);
    OpeningTable(key, url, newline);
    TableNotEmpty(key, url, newline);
    SecondFinish(pre, key, Opening(key, newline), Table(key, url, newline), EndMarker(key), newline, post,
                 Block(key, url, newline), LineStart(pre, m), LineEndAfter(pre, m + |BeginMarker(key)|));
  }

  lemma {:induction false} SecondFinish(
    pre: string, key: string, open: string, table: string, em: string, newline: string, post: string, block: string,
    ls: nat, le: nat)
    requires ls <= le <= |pre| && Breaks(pre[ls..le]) == 1 && Breaks(open) == 2 && table != ""
    requires block + post == open + table + (em + (newline + post))
    requires var out := pre + (block + post);
             var ts, e, ele := |pre| + |open|, |pre| + |open + table|, |pre| + |block|;
             || Locate(out, key).Abort?
             || Locate(out, key) == Found(Exact(ls, ele))
             || Locate(out, key) == Found(Recover(ls, le, ts, e, e, ele, false))
             || Locate(out, key) == Found(Recover(ls, le, ts, e, e, ele, true))
    ensures var out := pre + (block + post);
            || Locate(out, key).Abort?
            || (Pieces(out, key).Some? && Pieces(out, key).value.1 == post &&
                Breaks(Pieces(out, key).value.0) != Breaks(pre))
  {
    hide *;
    var tail := em + (newline + post);
    var out := pre + (block + post);
    KeptBreaks(pre, ls, le, open);
    SecondKept(pre, ls, le, open, table, tail);
    assert |block| == |open + table| + |em| + |newline|;
    assert out[|pre| + |block|..] == post;
    SecondChoice(out, key, pre, post, ls, le, |pre| + |open|, |pre| + |open + table|, |pre| + |block|);
  }

  lemma {:induction false} TableNotEmpty(key: string, url: string, newline: string)
    ensures Table(key, url, newline) != ""
  {
  }

  lemma {:induction false} BlockSplit(key: string, url: string, newline: string, post: string)
    ensures Block(key, url, newline) + post ==
            Opening(key, newline) + Table(key, url, newline) + (EndMarker(key) + (newline + post))
    ensures |Block(key, url, newline)| == |BeginMarker(key) + Body(key, url, newline)| + |EndMarker(key)| + |newline|
  {
    hide Block, Body, BeginMarker, EndMarker, Opening, Table;
    BlockText(key, url, newline, post);
    OpeningTable(key, url, newline);
    var t, em, tail := BeginMarker(key) + Body(key, url, newline), EndMarker(key), newline + post;
    assert t + em + tail == t + (em + tail);
  }

  lemma {:induction false} SecondChoice(
    out: string, key: string, pre: string, post: string, ls: nat, le: nat, ts: nat, e: nat, ele: nat)
    requires ls <= le <= ts < e <= ele <= |out| && le <= |pre| && out[..ls] == pre[..ls] && out[ele..] == post
    requires Breaks(pre[..ls]) < Breaks(pre) < Breaks(pre[..ls] + out[le..ts])
    requires || Locate(out, key).Abort?
             || Locate(out, key) == Found(Exact(ls, ele))
             || Locate(out, key) == Found(Recover(ls, le, ts, e, e, ele, false))
             || Locate(out, key) == Found(Recover(ls, le, ts, e, e, ele, true))
    ensures || Locate(out, key).Abort?
            || (Pieces(out, key).Some? && Pieces(out, key).value.1 == post &&
                Breaks(Pieces(out, key).value.0) != Breaks(pre))
  {
    hide Locate, Pieces, Breaks;
    if Locate(out, key).Found? {
      var span := Locate(out, key).span;
      var kept := if span.Recover? && span.preserve then pre[..ls] + out[le..ts] else pre[..ls];
      assert pre[..ls] + "" == pre[..ls];
      KeptIs(out, key, span, kept, post);
    }
  }
}
