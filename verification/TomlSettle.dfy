/**
 Installing again and again: every chain of installs ends, in a text that the
 next install leaves alone or in an install that is not carried out.
 */
module TomlSettle {
  import opened Text
  import opened Toml
  import opened TomlEdit
  import opened TomlFrame
  import opened TomlBlock
  import opened TomlConverge
  import opened TomlSections
  import opened TomlSecond
  import opened TomlInstall

  // ---------------------------------------------------------------- what shrinks

  /** The foreign headers of `tail` are all in the lines up to `d`. */
  ghost predicate HeadersUpTo(tail: string, d: nat, key: string) {
    d <= |tail| && Complete(tail[..d]) && Foreign(tail[d..], key) == []
  }

  /** What follows the line of the first begin marker. */
  ghost function AfterMarker(pre: string, key: string): string
    requires Leftover(pre, key)
  {
    var a := Find(pre, BeginMarker(key)).value + |BeginMarker(key)|;
    LineEndAfterIs(pre, a);
    LineLenFacts(pre[a..]);
    pre[LineEndAfter(pre, a)..]
  }

  lemma {:induction false} OpeningForeign(key: string, newline: string)
    requires IsBareKey(key) && IsNewline(newline)
    ensures Foreign(Opening(key, newline), key) == [] && Complete(Opening(key, newline))
  {
    hide Foreign, BeginMarker, EndMarker, OwnAt, IsBareKey;
    MarkerShape(key);
    FixedLines();
    CommentStep(NOTE, newline, "", key);
    assert NOTE + newline + "" == NOTE + newline;
    CommentStep(BeginMarker(key), newline, NOTE + newline, key);
    ForeignEmpty(key);
  }

  /** Dropping lines in front and adding lines without a header behind brings the last header closer. */
  lemma {:induction false} HeadersCloser(tail: string, extra: string, c: nat, d: nat, key: string)
    requires HeadersUpTo(tail, d, key) && Complete(tail) && Foreign(extra, key) == []
    requires 0 < c <= |tail + extra| && Complete((tail + extra)[..c])
    ensures HeadersUpTo((tail + extra)[c..], if c < d then d - c else 0, key)
  {
    hide Foreign;
    var t := tail + extra;
    var x := if c < d then d else c;
    assert t[d..] == tail[d..] + extra;
    assert Complete(tail[d..]) by { if d < |tail| { assert tail[d..][|tail| - d - 1] == tail[|tail| - 1]; } }
    ForeignConcat(tail[d..], extra, key);
    assert t[..d] == tail[..d];
    ForeignMiddle(t, d, x, |t|, key);
    assert t[d..|t|] == t[d..] && t[x..|t|] == t[x..];
    assert t[c..][x - c..] == t[x..];
    if c < d { assert t[c..][..d - c][d - c - 1] == t[..d][d - 1]; }
  }

  // ---------------------------------------------------------------- one more install

  /**
   An edit over a leftover marker aborts, or drops every begin marker before
   the block, or leaves a text whose last foreign header is closer to the
   first begin marker.
   */
  lemma {:induction false} EditCloser(pre: string, key: string, url: string, newline: string, post: string, d: nat)
    requires IsBareKey(key) && IsNewline(newline) && !Occurs(url, EndMarker(key))
    requires Leftover(pre, key) && HeadersUpTo(AfterMarker(pre, key), d, key)
    ensures var out := pre + (Block(key, url, newline) + post);
            || Locate(out, key).Abort?
            || (&& Pieces(out, key).Some? && Pieces(out, key).value.1 == post
                && var w := Pieces(out, key).value.0;
                   || !KeepsSecondMarker(out, key)
                   || (Leftover(w, key) && exists e: nat :: e < d && HeadersUpTo(AfterMarker(w, key), e, key)))
  {
    hide *;
    var out := pre + (Block(key, url, newline) + post);
    SecondEdit(pre, key, url, newline, post);
    if !Locate(out, key).Abort? && KeepsSecondMarker(out, key) {
      LeftoverPre(out, key);
      KeptCloser(pre, key, url, newline, post, d);
    }
  }

  lemma {:induction false} KeptCloser(pre: string, key: string, url: string, newline: string, post: string, d: nat)
    requires IsBareKey(key) && IsNewline(newline) && !Occurs(url, EndMarker(key))
    requires Leftover(pre, key) && HeadersUpTo(AfterMarker(pre, key), d, key)
    requires var out := pre + (Block(key, url, newline) + post);
             KeepsSecondMarker(out, key) && Pieces(out, key).Some? && Leftover(Pieces(out, key).value.0, key)
    ensures var w := Pieces(pre + (Block(key, url, newline) + post), key).value.0;
            exists e: nat :: e < d && HeadersUpTo(AfterMarker(w, key), e, key)
  {
    hide *;
    var out := pre + (Block(key, url, newline) + post);
    var open := Opening(key, newline);
    var w, tail := Pieces(out, key).value.0, AfterMarker(pre, key);
    OpeningForeign(key, newline);
    var front := KeptText(pre, key, url, newline, post);
    var c := NextTail(front, tail + open, key);
    TailComplete(pre, key);
    HeadersCloser(tail, open, c, d, key);
    HeadersRemain(tail, open, d, key);
    assert HeadersUpTo(AfterMarker(w, key), if c < d then d - c else 0, key);
  }

  lemma {:induction false} HeadersRemain(tail: string, extra: string, d: nat, key: string)
    requires HeadersUpTo(tail, d, key) && Complete(tail) && Foreign(extra, key) == [] &&
      Foreign(tail + extra, key) != []
    ensures d > 0
  {
    hide Foreign;
    ForeignConcat(tail, extra, key);
    assert tail[0..] == tail;
  }

  lemma {:induction false} TailComplete(pre: string, key: string)
    requires IsBareKey(key) && Leftover(pre, key)
    ensures Complete(AfterMarker(pre, key))
  {
    hide LineStart, LineEndAfter, LineLen, Breaks, OwnAt, Occurs, BeginMarker, EndMarker, IsBareKey, Complete, Leftover;
    LeftoverLine(pre, key);
  }

  /**
   The text a repair over a leftover marker keeps: what precedes the marker's
   line, what follows it, two lines of the block.
   */
  lemma {:induction false} KeptText(pre: string, key: string, url: string, newline: string, post: string)
    returns (front: string)
    requires IsBareKey(key) && IsNewline(newline) && !Occurs(url, EndMarker(key)) && Leftover(pre, key)
    requires var out := pre + (Block(key, url, newline) + post);
             KeepsSecondMarker(out, key) && Pieces(out, key).Some?
    ensures var out := pre + (Block(key, url, newline) + post);
            var kept := AfterMarker(pre, key) + Opening(key, newline);
            && Pieces(out, key).value.0 == front + kept && Complete(front) && !Occurs(front, BeginMarker(key))
            && Foreign(kept, key) != []
  {
    hide *;
    var m := LeftoverAt(pre, key);
    LeftoverLine(pre, key);
    front := pre[..LineStart(pre, m)];
    SecondLocated(pre, key, url, newline, post, m);
    MarkerShape(key);
    NoneBefore(pre, BeginMarker(key), LineStart(pre, m));
    BlockSplit(key, url, newline, post);
    OpeningTable(key, url, newline);
    AfterMarkerIs(pre, key, m);
    KeptSlices(pre, key, Opening(key, newline), Table(key, url, newline), EndMarker(key) + (newline + post),
               LineStart(pre, m), LineEndAfter(pre, m + |BeginMarker(key)|),
               |pre| + |Opening(key, newline) + Table(key, url, newline)|, |pre| + |Block(key, url, newline)|);
  }

  lemma {:induction false} AfterMarkerIs(pre: string, key: string, m: nat)
    requires Leftover(pre, key) && Find(pre, BeginMarker(key)) == Some(m)
    ensures var le := LineEndAfter(pre, m + |BeginMarker(key)|); le <= |pre| && AfterMarker(pre, key) == pre[le..]
  {
    hide LineEndAfter, LineLen, OwnAt, Occurs, BeginMarker, EndMarker, Complete, Find;
    LineEndAfterIs(pre, m + |BeginMarker(key)|);
    LineLenFacts(pre[m + |BeginMarker(key)|..]);
  }

  lemma {:induction false} KeptSlices(
    pre: string, key: string, open: string, table: string, tail: string, ls: nat, le: nat, e: nat, ele: nat)
    requires ls <= le <= |pre|
    requires var out := pre + (open + table + tail);
             var ts := |pre| + |open|;
             && KeepsSecondMarker(out, key) && Pieces(out, key).Some?
             && (|| Locate(out, key).Abort?
                 || Locate(out, key) == Found(Exact(ls, ele))
                 || Locate(out, key) == Found(Recover(ls, le, ts, e, e, ele, false))
                 || Locate(out, key) == Found(Recover(ls, le, ts, e, e, ele, true)))
    ensures var out := pre + (open + table + tail);
            Pieces(out, key).value.0 == pre[..ls] + (pre[le..] + open) && Foreign(pre[le..] + open, key) != []
  {
    hide Locate, Occurs, Foreign, LocateTable, Complete, Find;
    var out := pre + (open + table + tail);
    SecondKept(pre, ls, le, open, table, tail);
    SpanBounds(out, key);
  }

  /** Where the next edit would start in whole lines without a begin marker, followed by a text that has one. */
  lemma {:induction false} NextTail(front: string, kept: string, key: string) returns (c: nat)
    requires IsBareKey(key) && Complete(front) && !Occurs(front, BeginMarker(key)) && Leftover(front + kept, key)
    ensures 0 < c <= |kept| && Complete(kept[..c]) && AfterMarker(front + kept, key) == kept[c..]
  {
    hide LineStart, LineEndAfter, LineLen, Breaks, OwnAt, BeginMarker, EndMarker, IsBareKey, At, Clear;
    var w, bm := front + kept, BeginMarker(key);
    MarkerShape(key);
    LeftoverLine(w, key);
    FirstAfter(front, kept, bm);
    var le := LineEndAfter(w, Find(w, bm).value + |bm|);
    c := le - |front|;
    assert kept[..c][c - 1] == w[..le][le - 1];
  }

  lemma {:induction false} FirstAfter(front: string, kept: string, pat: string)
    requires Complete(front) && !Occurs(front, pat) && pat != "" && !HasNewline(pat) && Find(front + kept, pat).Some?
    ensures |front| <= Find(front + kept, pat).value
  {
    hide At, Occurs;
    ClearLines(front, kept, pat);
  }

  // ---------------------------------------------------------------- runs

  /** The result of `n` installs, one after the other. */
  function Installs(s: string, key: string, url: string, n: nat): Applied
    decreases n
  {
    if n == 0 then Updated(s, true)
    else
      var r := Install(s, key, url);
      if r.Updated? then Installs(r.contents, key, url, n - 1) else r
  }

  /** After `n` installs, one was not carried out or the next changes nothing. */
  predicate Settled(s: string, key: string, url: string, n: nat) {
    var r := Installs(s, key, url, n);
    r.Updated? ==> Install(r.contents, key, url) == Updated(r.contents, true)
  }

  lemma {:induction false} SettledLater(s: string, key: string, url: string, n: nat)
    requires Install(s, key, url).Updated? ==> Settled(Install(s, key, url).contents, key, url, n)
    ensures Settled(s, key, url, n + 1)
  {
    hide Install;
  }

  lemma {:induction false} SettledNow(s: string, key: string, url: string)
    requires Install(s, key, url) == Updated(s, true)
    ensures Settled(s, key, url, 0)
  {
    hide Install;
  }

  /**
   From a text with a leftover marker, within as many installs as there are
   characters before the last foreign header.
   */
  lemma {:induction false} LeftoverSettles(pre: string, key: string, url: string, post: string, newline: string, d: nat)
    returns (n: nat)
    requires IsBareKey(key) && IsNewline(newline) && !Occurs(url, EndMarker(key))
    requires Leftover(pre, key) && HeadersUpTo(AfterMarker(pre, key), d, key)
    requires DetectNewline(pre + (Block(key, url, newline) + post)) == newline
    ensures n <= d + 1 && Settled(pre + (Block(key, url, newline) + post), key, url, n)
    decreases d
  {
    hide *;
    var x := pre + (Block(key, url, newline) + post);
    EditCloser(pre, key, url, newline, post, d);
    InstallIs(x, key, url, newline);
    n := 0;
    if Install(x, key, url).Updated? {
      LeftoverFound(pre, key, url, newline, post);
      NewlineStays(x, key, url);
      PreFacts(x, key);
      var w := Pieces(x, key).value.0;
      var y := w + (Block(key, url, newline) + post);
      if KeepsSecondMarker(x, key) {
        var e: nat :| e < d && HeadersUpTo(AfterMarker(w, key), e, key);
        n := LeftoverSettles(w, key, url, post, newline, e);
      } else {
        EditOverBlock(w, key, url, newline, post, Block(key, url, newline));
        InstallIs(y, key, url, newline);
        SettledNow(y, key, url);
      }
    }
    SettledLater(x, key, url, n);
    n := n + 1;
  }

  lemma {:induction false} InstallIs(x: string, key: string, url: string, newline: string)
    requires DetectNewline(x) == newline
    ensures var block := Block(key, url, newline);
            && Install(x, key, url) == Apply(x, key, block)
            && (Locate(x, key).Abort? ==> !Install(x, key, url).Updated?)
            && (Install(x, key, url).Updated? ==>
                  Pieces(x, key).Some?
                  && Install(x, key, url).contents == Pieces(x, key).value.0 + (block + Pieces(x, key).value.1))
  {
    hide Block, Locate, LocateTable, Pieces, DetectNewline;
    ApplyPieces(x, key, Block(key, url, newline));
  }

  lemma {:induction false} NewlineStays(x: string, key: string, url: string)
    requires IsBareKey(key) && Pieces(x, key).Some? && !Locate(x, key).NotThere?
    ensures var (pre, post) := Pieces(x, key).value;
            DetectNewline(pre + (Block(key, url, DetectNewline(x)) + post)) == DetectNewline(x)
  {
    hide Block, Locate, LocateTable, Pieces, DetectNewline, IsBareKey;
    NewlineAfterInstall(x, key, url);
  }

  /** Every chain of installs ends, within as many steps as the text has characters, and two. */
  lemma {:induction false} InstallSettles(s: string, key: string, url: string)
    requires IsBareKey(key) && !Occurs(url, EndMarker(key))
    ensures exists n: nat :: n <= |s| + 2 && Settled(s, key, url, n)
  {
    hide *;
    var n := 0;
    if Install(s, key, url).Updated? {
      n := SettlesAfter(s, key, url);
    }
    SettledLater(s, key, url, n);
    assert Settled(s, key, url, n + 1);
  }

  lemma {:induction false} SettlesAfter(s: string, key: string, url: string) returns (n: nat)
    requires IsBareKey(key) && !Occurs(url, EndMarker(key)) && Install(s, key, url).Updated?
    ensures n <= |s| + 1 && Settled(Install(s, key, url).contents, key, url, n)
  {
    hide *;
    var newline := DetectNewline(s);
    DetectedNewline(s);
    InstallIs(s, key, url, newline);
    var (pre, post) := Pieces(s, key).value;
    var once := pre + (Block(key, url, newline) + post);
    if KeepsSecondMarker(s, key) {
      KeepsIsManaged(s, key);
      LeftoverPre(s, key);
      NewlineStays(s, key, url);
      KeptIsShorter(s, key);
      WholeTail(pre, key);
      n := LeftoverSettles(pre, key, url, post, newline, |AfterMarker(pre, key)|);
    } else {
      InstallConvergesInTwo(s, key, url);
      SettledNow(Install(once, key, url).contents, key, url);
      SettledLater(once, key, url, 0);
      n := 1;
    }
  }

  lemma {:induction false} DetectedNewline(s: string)
    ensures IsNewline(DetectNewline(s))
  {
    hide Find;
  }

  lemma {:induction false} WholeTail(pre: string, key: string)
    requires IsBareKey(key) && Leftover(pre, key)
    ensures HeadersUpTo(AfterMarker(pre, key), |AfterMarker(pre, key)|, key) && |AfterMarker(pre, key)| <= |pre|
  {
    hide LineStart, LineEndAfter, LineLen, OwnAt, Occurs, BeginMarker, EndMarker, IsBareKey, Leftover;
    TailComplete(pre, key);
    var tail := AfterMarker(pre, key);
    assert tail[..|tail|] == tail && tail[|tail|..] == "";
    ForeignEmpty(key);
  }

  lemma {:induction false} KeptIsShorter(s: string, key: string)
    requires Pieces(s, key).Some? && Locate(s, key).Found?
    ensures |Pieces(s, key).value.0| <= |s|
  {
    hide Locate, LocateTable, Complete, Foreign, Cut;
    SpanBounds(s, key);
  }

  // ---------------------------------------------------------------- a second begin marker

  /** A begin marker, a foreign table, and then a whole managed block. */
  function TwoMarkers(key: string): string {
    BeginMarker(key) + BetweenMarkers(key) + (EndMarker(key) + "\n")
  }

  function BetweenMarkers(key: string): string {
    "\n" + ("[x]" + "\n" + (BeginMarker(key) + "\n" + (TableHeader(key) + "\n")))
  }

  lemma {:induction false} TwoMarkersFound(bm: string, em: string, u: string, v: string)
    requires |bm| >= 3 && |em| >= 3 && bm[0] == '#' == em[0] && bm[2] != em[2] && '#' !in bm[1..]
    requires '#' !in u && '#' !in v
    ensures var s := bm + (u + (bm + v)) + (em + "\n");
            Find(s, bm) == Some(0) && Find(s, em) == Some(|bm + (u + (bm + v))|)
  {
    hide At, Clear;
    var z, w := em + "\n", bm + v;
    ClearNoHash(v, z, em);
    ClearOtherHead(bm, v + z, em);
    ClearConcat(bm, v, z, em);
    ClearNoHash(u, w + z, em);
    ClearConcat(u, w, z, em);
    ClearOtherHead(bm, u + w + z, em);
    ClearConcat(bm, u + w, z, em);
    ClearFind(bm + (u + w), z, em);
    var y := bm + (u + w) + z;
    assert y == bm + (u + w + z) && "" + y == y;
    ClearNoHash("", y, bm);
    ClearFind("", y, bm);
  }

  lemma {:induction false} TwoMarkersLines(bm: string, t: string, em: string)
    requires t != "" && t[0] == '\n' == t[|t| - 1]
    ensures var s := bm + t + (em + "\n");
            && LineStart(s, 0) == 0 && LineEndAfter(s, |bm|) == |bm| + 1 && LineStart(s, |bm + t|) == |bm + t|
            && LineEndAfter(s, |bm + t| + |em|) == |s|
  {
    hide LineStart, LineEndAfter, LineLen;
    var s, e := bm + t + (em + "\n"), |bm + t|;
    assert s[..0] == "" && s[0..0] == "";
    LineStartIs(s, 0, 0);
    assert s[..e] == bm + t && (bm + t)[e - 1] == t[|t| - 1] && s[e..e] == "";
    LineStartIs(s, e, e);
    NewlineIsLine("\n");
    LineEndAfterIs(s, |bm|);
    assert s[|bm|..] == "\n" + (t[1..] + (em + "\n"));
    LineLenConcat("\n", t[1..] + (em + "\n"));
    LineEndAfterIs(s, e + |em|);
    assert s[e + |em|..] == "\n";
  }

  lemma {:induction false} TwoMarkersTable(key: string)
    requires IsBareKey(key)
    ensures var t, n := BetweenMarkers(key), 6 + |BeginMarker(key)|;
            && LocateTable(t, key) == Some((n, |t|)) && Foreign(t, key) != []
            && Foreign("[x]" + "\n" + (BeginMarker(key) + "\n"), key) != []
  {
    hide TrimTomlLine, Foreign, LineLen, IsBareKey, BeginMarker, EndMarker, IsOwn, IsHeader, OwnAt, HeaderAt,
         TableHeader;
    var bm, h := BeginMarker(key), TableHeader(key);
    MarkerShape(key);
    SampleLines();
    NotOwnSample(key);
    OwnTableLine(key);
    CommentLine("", bm, "\n");
    assert "" + bm + "\n" == bm + "\n" && "" + "\n" == "\n" && h + "\n" + "" == h + "\n";
    LineWithNewline("", "\n");
    LineWithNewline("[x]", "\n");
    LineWithNewline(bm, "\n");
    LineStep(h + "\n", "", key);
    LineStep(bm + "\n", h + "\n", key);
    LineStep("[x]" + "\n", bm + "\n" + (h + "\n"), key);
    LineStep("[x]" + "\n", bm + "\n", key);
    LineStep("\n", "[x]" + "\n" + (bm + "\n" + (h + "\n")), key);
    NoHeaderInNothing();
    assert BetweenMarkers(key)[6 + |bm|..] == h + "\n";
  }

  lemma {:induction false} OwnTableLine(key: string)
    requires IsBareKey(key)
    ensures var h := TableHeader(key);
            IsOwn(h, key) && TrimTomlLine(h + "\n") == h && LineLen(h + "\n") == |h + "\n"| && Complete(h + "\n")
  {
    hide TrimTomlLine, LineLen;
    HeaderLine(key, "\n");
    HeaderHasNoNewline(key);
    LineWithNewline(TableHeader(key), "\n");
  }

  /** There the first install keeps the second begin marker, and the second install returns another text. */
  lemma {:induction false} SecondMarkerFails(key: string, url: string)
    requires IsBareKey(key) && !Occurs(url, EndMarker(key))
    ensures KeepsSecondMarker(TwoMarkers(key), key) && !AppendsAfterBareCr(TwoMarkers(key), key)
    ensures var once := Install(TwoMarkers(key), key, url);
            once.Updated? && Install(once.contents, key, url) != Updated(once.contents, true)
  {
    hide *;
    var s := TwoMarkers(key);
    TwoMarkersLocated(key);
    TwoMarkersKept(key);
    TwoMarkersApplied(key, Block(key, url, DetectNewline(s)));
    InstallIs(s, key, url, DetectNewline(s));
    KeepsIsManaged(s, key);
    InstallTwice(s, key, url);
  }

  lemma {:induction false} TwoMarkersLocated(key: string)
    requires IsBareKey(key)
    ensures var s, n := TwoMarkers(key), |BeginMarker(key)|;
            var e := n + |BetweenMarkers(key)|;
            Locate(s, key) == Found(Recover(0, n + 1, n + 6 + n, e, e, |s|, true))
  {
    hide Foreign, LineStart, LineEndAfter, LocateTable, BeginMarker, EndMarker, At, Find, IsBareKey, TableHeader;
    var s, bm, em, t := TwoMarkers(key), BeginMarker(key), EndMarker(key), BetweenMarkers(key);
    MarkerShape(key);
    HeaderHasNoHash(key, "\n");
    assert TableKey(key) == key;
    var u, v := "\n" + ("[x]" + "\n"), "\n" + (TableHeader(key) + "\n");
    assert t == u + (bm + v);
    TwoMarkersFound(bm, em, u, v);
    TwoMarkersLines(bm, t, em);
    TwoMarkersTable(key);
    var n := |bm|;
    assert s[0..] == s && s[n..n + |t|] == t;
    TwoMarkersSlice(bm, TableHeader(key) + "\n", em + "\n");
  }

  lemma {:induction false} TwoMarkersSlice(bm: string, own: string, tail: string)
    ensures var s := bm + ("\n" + ("[x]" + "\n" + (bm + "\n" + own))) + tail;
            s[|bm| + 1..|bm| + 6 + |bm|] == "[x]" + "\n" + (bm + "\n")
  {
    var mid := "[x]" + "\n" + (bm + "\n");
    assert bm + ("\n" + ("[x]" + "\n" + (bm + "\n" + own))) + tail == (bm + "\n") + mid + (own + tail);
  }

  lemma {:induction false} TwoMarkersKept(key: string)
    requires var s, n := TwoMarkers(key), |BeginMarker(key)|;
             var e := n + |BetweenMarkers(key)|;
             Locate(s, key) == Found(Recover(0, n + 1, n + 6 + n, e, e, |s|, true))
    ensures KeepsSecondMarker(TwoMarkers(key), key)
  {
    hide Locate, BeginMarker, EndMarker, TableHeader;
    var bm := BeginMarker(key);
    TwoMarkersSlice(bm, TableHeader(key) + "\n", EndMarker(key) + "\n");
    var kept := "[x]" + "\n" + (bm + "\n");
    assert kept[4..4 + |bm|] == bm;
    assert At(kept, bm, 4);
  }

  lemma {:induction false} TwoMarkersApplied(key: string, block: string)
    requires var s, n := TwoMarkers(key), |BeginMarker(key)|;
             var e := n + |BetweenMarkers(key)|;
             Locate(s, key) == Found(Recover(0, n + 1, n + 6 + n, e, e, |s|, true))
    ensures Apply(TwoMarkers(key), key, block).Updated?
  {
    hide Locate, BeginMarker, EndMarker, TableHeader, LocateTable;
  }
}
