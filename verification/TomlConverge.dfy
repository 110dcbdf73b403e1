/**
 One-step convergence: after an install the locator reports exactly the block
 just written, so installing again changes nothing and uninstalling takes out
 exactly what was put in. Each law comes with the exact condition it needs.
 */
module TomlConverge {
  import opened Text
  import opened Toml
  import opened TomlEdit
  import opened TomlFrame
  import opened TomlBlock

  // ---------------------------------------------------------------- where a pattern cannot be

  ghost predicate Free(z: string, pat: string, lo: nat, hi: nat) {
    forall j: nat | lo <= j < hi :: !At(z, pat, j)
  }

  lemma {:induction false} FreeNoHead(z: string, pat: string, lo: nat, hi: nat)
    requires lo <= hi <= |z| && pat != "" && pat[0] !in z[lo..hi]
    ensures Free(z, pat, lo, hi)
  {
    forall j: nat | lo <= j < hi ensures !At(z, pat, j) {
      assert z[lo..hi][j - lo] == z[j];
      AtChar(z, pat, j, 0);
    }
  }

  /** The head occurs once, and two characters further on the texts differ. */
  lemma {:induction false} FreeOtherHead(z: string, pat: string, lo: nat, hi: nat)
    requires lo + 2 < |z| && lo < hi <= |z| && |pat| >= 3
    requires pat[0] !in z[lo + 1..hi] && z[lo + 2] != pat[2]
    ensures Free(z, pat, lo, hi)
  {
    FreeNoHead(z, pat, lo + 1, hi);
    AtChar(z, pat, lo, 2);
  }

  /** A stretch closed by a quote cannot be left by a pattern without quotes. */
  lemma {:induction false} FreeQuoted(z: string, pat: string, lo: nat, hi: nat)
    requires lo <= hi < |z| && z[hi] == '"' && '"' !in pat && !Occurs(z[lo..hi], pat)
    ensures Free(z, pat, lo, hi)
  {
    forall j: nat | lo <= j < hi ensures !At(z, pat, j) {
      InsideQuotes(z, pat, lo, hi, j);
      AtSlice(z, pat, lo, hi, j - lo);
      assert !At(z[lo..hi], pat, j - lo);
    }
  }

  lemma {:induction false} InsideQuotes(z: string, pat: string, lo: nat, hi: nat, j: nat)
    requires lo <= j <= hi < |z| && z[hi] == '"' && '"' !in pat
    ensures At(z, pat, j) ==> j + |pat| <= hi
  {
    if hi - j < |pat| {
      AtChar(z, pat, j, hi - j);
    }
  }

  // ---------------------------------------------------------------- markers and escaping

  lemma {:induction false} MarkerShape(key: string)
    requires IsBareKey(key)
    ensures var b, e := BeginMarker(key), EndMarker(key);
            && |b| >= 3 && |e| >= 3 && b[0] == '#' == e[0] && b[2] == 'B' && e[2] == 'E'
            && '#' !in b[1..] && '"' !in e && !HasNewline(b) && !HasNewline(e)
            && '\r' !in b && '\r' !in e && Unescaped(e)
  {
    hide EscapeChar;
    BareIsPlain(key);
    TailsArePlain();
    assert '\r' !in key;
    assert BeginMarker(key)[1..] == BEGIN_TAIL + key;
    MarkersHaveNoNewline(key);
    BareIsUnescaped(key);
    UnescapedConcat("#" + END_TAIL, key);
  }

  lemma {:induction false} TailsArePlain()
    ensures PlainText(BEGIN_TAIL) && PlainText(END_TAIL)
    ensures BEGIN_TAIL[..2] == " B" && END_TAIL[..2] == " E"
    ensures Unescaped("#" + END_TAIL)
    ensures '\r' !in BEGIN_TAIL && '\r' !in END_TAIL
  {
    hide EscapeChar, PlainText, Unescaped;
    WordsArePlain();
    PlainJoin(" BEGIN ", MANAGED);
    PlainJoin(" END ", MANAGED);
    UnescapedConcat("# END ", MANAGED);
    assert "#" + END_TAIL == "# END " + MANAGED;
  }

  lemma {:induction false} WordsArePlain()
    ensures PlainText(" BEGIN ") && PlainText(" END ") && PlainText(MANAGED)
    ensures Unescaped("# END ") && Unescaped(MANAGED)
    ensures '\r' !in MANAGED
  {
  }

  lemma {:induction false} BareIsUnescaped(key: string)
    requires IsBareKey(key)
    ensures Unescaped(key)
  {
  }

  lemma {:induction false} UnescapedConcat(a: string, b: string)
    requires Unescaped(a) && Unescaped(b)
    ensures Unescaped(a + b)
  {
    hide EscapeChar;
  }

  /** No character the printer would escape. */
  predicate Unescaped(w: string) {
    forall i | 0 <= i < |w| :: EscapeChar(w[i]) == [w[i]]
  }

  lemma {:induction false} EscapeUnescaped(w: string)
    requires Unescaped(w)
    ensures Escape(w) == w
  {
    if w != "" {
      EscapeUnescaped(w[1..]);
    }
  }

  lemma {:induction false} EscapedPrefix(v: string, pat: string)
    requires Unescaped(pat) && pat <= Escape(v)
    ensures pat <= v
  {
    if pat != "" {
      var e := EscapeChar(v[0]);
      assert pat[0] == Escape(v)[0] == e[0];
      assert EscapeChar(pat[0]) == [pat[0]];
      assert e == [v[0]];
      assert Escape(v)[1..] == Escape(v[1..]);
      EscapedPrefix(v[1..], pat[1..]);
      assert v == [v[0]] + v[1..] && pat == [pat[0]] + pat[1..];
    }
  }

  /** An occurrence of an unescaped pattern in a printed text is one in the text. */
  lemma {:induction false} EscapedOccurrence(v: string, pat: string, j: nat)
    requires Unescaped(pat) && pat != "" && pat[0] == '#'
    requires At(Escape(v), pat, j)
    ensures Occurs(v, pat)
    decreases |v|
  {
    hide EscapeChar, Unescaped;
    var e := EscapeChar(v[0]);
    if j == 0 {
      EscapedPrefix(v, pat);
      assert At(v, pat, 0);
    } else {
      EscapeTail(v[0]);
      assert Escape(v)[j] == Escape(v)[j..j + |pat|][0] == '#';
      assert j >= |e|;
      AtShift(e, Escape(v[1..]), pat, j - |e|);
      EscapedOccurrence(v[1..], pat, j - |e|);
      OccursInTail(v, pat);
    }
  }

  lemma {:induction false} OccursInTail(v: string, pat: string)
    requires v != "" && Occurs(v[1..], pat)
    ensures Occurs(v, pat)
  {
    hide At;
    var i: nat :| i <= |v[1..]| && At(v[1..], pat, i);
    AtShift([v[0]], v[1..], pat, i);
    assert [v[0]] + v[1..] == v;
    assert At(v, pat, 1 + i);
  }

  lemma {:induction false} EscapeTail(c: char)
    ensures 1 <= |EscapeChar(c)| <= 2 && (|EscapeChar(c)| == 2 ==> EscapeChar(c)[1] != '#')
  {
  }

  lemma {:induction false} AtShift(a: string, b: string, pat: string, i: nat)
    ensures At(a + b, pat, |a| + i) <==> At(b, pat, i)
  {
    if i + |pat| <= |b| {
      var x, y := (a + b)[|a| + i..|a| + i + |pat|], b[i..i + |pat|];
      assert forall k | 0 <= k < |pat| :: x[k] == y[k];
      assert x == y;
    }
  }

  /** An occurrence in the text is printed as one. */
  lemma {:induction false} PrintedOccurrence(v: string, pat: string, i: nat)
    requires Unescaped(pat) && At(v, pat, i)
    ensures At(Escape(v), pat, |Escape(v[..i])|)
  {
    hide Escape, Unescaped;
    var x, y := v[..i], v[i + |pat|..];
    assert v == x + (pat + y);
    EscapeConcat(x, pat + y);
    EscapeConcat(pat, y);
    EscapeUnescaped(pat);
    assert (pat + Escape(y))[0..0 + |pat|] == pat;
    AtShift(Escape(x), pat + Escape(y), pat, 0);
  }

  lemma {:induction false} EscapeOccurs(v: string, pat: string)
    requires Unescaped(pat) && pat != "" && pat[0] == '#'
    ensures Occurs(Escape(v), pat) <==> Occurs(v, pat)
  {
    hide Escape, Unescaped, At;
    if Occurs(Escape(v), pat) {
      var j: nat :| j <= |Escape(v)| && At(Escape(v), pat, j);
      EscapedOccurrence(v, pat, j);
    }
    if Occurs(v, pat) {
      var i: nat :| i <= |v| && At(v, pat, i);
      PrintedOccurrence(v, pat, i);
      AtBound(Escape(v), pat, |Escape(v[..i])|);
    }
  }

  lemma {:induction false} AtBound(s: string, pat: string, i: nat)
    requires At(s, pat, i)
    ensures i <= |s|
  {
  }

  // ---------------------------------------------------------------- the block in a text

  /** No occurrence of `pat` starts within `t` when `y` follows. */
  ghost predicate Clear(t: string, y: string, pat: string) {
    Free(t + y, pat, 0, |t|)
  }

  lemma {:induction false} ClearConcat(a: string, b: string, y: string, pat: string)
    requires Clear(a, b + y, pat) && Clear(b, y, pat)
    ensures Clear(a + b, y, pat)
  {
    hide At;
    assert a + b + y == a + (b + y);
    forall j: nat | j < |a + b| ensures !At(a + b + y, pat, j) {
      if j >= |a| {
        AtShift(a, b + y, pat, j - |a|);
      }
    }
  }

  lemma {:induction false} ClearNoHash(t: string, y: string, pat: string)
    requires pat != "" && pat[0] == '#' && '#' !in t
    ensures Clear(t, y, pat)
  {
    assert (t + y)[0..|t|] == t;
    FreeNoHead(t + y, pat, 0, |t|);
  }

  lemma {:induction false} ClearOtherHead(t: string, y: string, pat: string)
    requires |pat| >= 3 && pat[0] == '#' && |t| >= 3 && '#' !in t[1..] && t[2] != pat[2]
    ensures Clear(t, y, pat)
  {
    assert (t + y)[0 + 1..|t|] == t[1..];
    FreeOtherHead(t + y, pat, 0, |t|);
  }

  /** A printed string between texts without a comment sign is clear of a marker it does not hold. */
  lemma {:induction false} ClearQuoted(open: string, url: string, close: string, y: string, pat: string)
    requires pat != "" && pat[0] == '#' && '"' !in pat && Unescaped(pat) && !Occurs(url, pat)
    requires '#' !in open && '#' !in close && "\"" <= close
    ensures Clear(open + (Escape(url) + close), y, pat)
  {
    hide At, Unescaped, Escape;
    var e := Escape(url);
    EscapeOccurs(url, pat);
    ClearNoHash(close, y, pat);
    assert Clear(e, close + y, pat) by {
      var z := e + (close + y);
      assert z[0..|e|] == e && z[|e|] == '"';
      FreeQuoted(z, pat, 0, |e|);
    }
    ClearConcat(e, close, y, pat);
    ClearNoHash(open, e + close + y, pat);
    ClearConcat(open, e + close, y, pat);
  }

  lemma {:induction false} ClearUrl(url: string, newline: string, y: string, pat: string)
    requires pat != "" && pat[0] == '#' && '"' !in pat && Unescaped(pat) && IsNewline(newline)
    requires !Occurs(url, pat)
    ensures Clear(UrlLine(url) + newline, y, pat)
  {
    hide At, Unescaped, Escape, Clear, Occurs;
    var open, close := "url = \"", "\"" + newline;
    ClearQuoted(open, url, close, y, pat);
    assert UrlLine(url) + newline == open + (Escape(url) + close);
  }

  lemma {:induction false} FixedHaveNoHash(newline: string)
    requires IsNewline(newline)
    ensures '#' !in newline && '#' !in ENABLED + newline && '#' !in TIMEOUT + newline
    ensures |NOTE + newline| >= 3 && '#' !in (NOTE + newline)[1..] && (NOTE + newline)[2] == 'T'
  {
    FixedLines();
    assert '#' !in ENABLED && '#' !in TIMEOUT;
    assert (NOTE + newline)[1..] == NOTE[1..] + newline;
    assert NOTE[2] == NOTE_TEXT[1] == " This block "[1];
  }

  lemma {:induction false} HeaderHasNoHash(key: string, newline: string)
    requires IsBareKey(key) && IsNewline(newline)
    ensures '#' !in TableHeader(TableKey(key)) + newline
  {
    BareIsPlain(key);
    assert '#' !in "[mcp_servers.";
  }

  /** The lines of the block after the URL. */
  function After(newline: string): string {
    ENABLED + newline + (TIMEOUT + newline)
  }

  /** The block up to the URL line. */
  function Head(key: string, newline: string): string {
    BeginMarker(key) + (newline + (NOTE + newline + (TableHeader(TableKey(key)) + newline)))
  }

  lemma {:induction false} BlockParts(key: string, url: string, newline: string)
    ensures Block(key, url, newline) ==
            Head(key, newline) + (UrlLine(url) + newline + (After(newline) + (EndMarker(key) + newline)))
    ensures BeginMarker(key) + Body(key, url, newline) ==
            Head(key, newline) + (UrlLine(url) + newline + After(newline))
  {
    hide TableHeader, UrlLine, BeginMarker, EndMarker;
    BlockIs(key, url, newline);
    var b, h, u, a, m := BeginMarker(key), TableHeader(TableKey(key)) + newline, UrlLine(url) + newline,
                         After(newline), EndMarker(key) + newline;
    assert Body(key, url, newline) == newline + (NOTE + newline + (h + (u + a)));
    Nest(b, newline, NOTE + newline, h, u + a);
    var x := Head(key, newline);
    assert x + (u + a) + EndMarker(key) + newline == x + (u + (a + m));
  }

  lemma {:induction false} Nest(b: string, n: string, c: string, h: string, t: string)
    ensures b + (n + (c + (h + t))) == b + (n + (c + h)) + t
  {
    assert n + (c + (h + t)) == (n + (c + h)) + t;
  }

  lemma {:induction false} ClearHead(key: string, newline: string, y: string)
    requires IsBareKey(key) && IsNewline(newline)
    ensures Clear(Head(key, newline), y, EndMarker(key))
  {
    hide At, TableHeader, Clear;
    var b, h, c, pat := BeginMarker(key), TableHeader(TableKey(key)) + newline, NOTE + newline, EndMarker(key);
    MarkerShape(key);
    FixedHaveNoHash(newline);
    HeaderHasNoHash(key, newline);
    ClearNoHash(h, y, pat);
    ClearOtherHead(c, h + y, pat);
    ClearConcat(c, h, y, pat);
    ClearNoHash(newline, c + h + y, pat);
    ClearConcat(newline, c + h, y, pat);
    ClearOtherHead(b, newline + (c + h) + y, pat);
    ClearConcat(b, newline + (c + h), y, pat);
  }

  lemma {:induction false} ClearAfter(key: string, newline: string, y: string)
    requires IsBareKey(key) && IsNewline(newline)
    ensures Clear(After(newline), y, EndMarker(key))
  {
    hide At, Clear;
    MarkerShape(key);
    FixedHaveNoHash(newline);
    ClearNoHash(TIMEOUT + newline, y, EndMarker(key));
    ClearNoHash(ENABLED + newline, TIMEOUT + newline + y, EndMarker(key));
    ClearConcat(ENABLED + newline, TIMEOUT + newline, y, EndMarker(key));
  }

  /** Without marker text in the URL, the first end marker after the begin marker is the block's own. */
  lemma {:induction false} EndMarkerFound(key: string, url: string, newline: string, post: string)
    requires IsBareKey(key) && IsNewline(newline) && !Occurs(url, EndMarker(key))
    ensures Find(Block(key, url, newline) + post, EndMarker(key)) == Some(|BeginMarker(key) + Body(key, url, newline)|)
  {
    hide At, Clear, Head, After, UrlLine, Block, Body;
    var pat := EndMarker(key);
    var y := pat + newline + post;
    var u, a, x := UrlLine(url) + newline, After(newline), Head(key, newline);
    MarkerShape(key);
    ClearAfter(key, newline, y);
    ClearUrl(url, newline, a + y, pat);
    ClearConcat(u, a, y, pat);
    ClearHead(key, newline, u + a + y);
    ClearConcat(x, u + a, y, pat);
    BlockIs(key, url, newline);
    BlockParts(key, url, newline);
    var t := BeginMarker(key) + Body(key, url, newline);
    assert Block(key, url, newline) + post == t + y;
    ClearFind(t, y, pat);
  }

  lemma {:induction false} ClearFind(t: string, y: string, pat: string)
    requires Clear(t, y, pat) && pat <= y
    ensures Find(t + y, pat) == Some(|t|)
  {
    assert y[0..0 + |pat|] == pat;
    AtShift(t, y, pat, 0);
    FindIs(t + y, pat, |t|);
  }

  /** The first occurrence in `y` is the first of the whole when the text before it is clear. */
  lemma {:induction false} FindPast(x: string, y: string, pat: string)
    requires Clear(x, y, pat) && Find(y, pat).Some?
    ensures Find(x + y, pat) == Some(|x| + Find(y, pat).value)
  {
    hide At;
    var k := Find(y, pat).value;
    AtShift(x, y, pat, k);
    forall j: nat | j < |x| + k ensures !At(x + y, pat, j) {
      if j >= |x| { AtShift(x, y, pat, j - |x|); }
    }
    FindIs(x + y, pat, |x| + k);
  }

  lemma {:induction false} EmptyHasNone(pat: string)
    requires pat != ""
    ensures !Occurs("", pat)
  {
  }

  /** Whole lines without the pattern stay clear of it, whatever follows. */
  lemma {:induction false} ClearLines(pre: string, y: string, pat: string)
    requires Complete(pre) && !Occurs(pre, pat) && pat != "" && !HasNewline(pat)
    ensures Clear(pre, y, pat)
  {
    forall j: nat | j < |pre| ensures !At(pre + y, pat, j) {
      if j + |pat| <= |pre| {
        assert (pre + y)[j..j + |pat|] == pre[j..j + |pat|];
        assert !At(pre, pat, j);
      } else {
        AtChar(pre + y, pat, j, |pre| - 1 - j);
        assert (pre + y)[|pre| - 1] == '\n';
        assert pat[|pre| - 1 - j] != '\n';
      }
    }
  }

  /** The first begin marker is the block's own if none is in the text before it. */
  lemma {:induction false} BeginMarkerFound(pre: string, y: string, pat: string)
    requires Complete(pre) && !Occurs(pre, pat) && pat <= y && pat != "" && !HasNewline(pat)
    ensures Find(pre + y, pat) == Some(|pre|)
  {
    ClearLines(pre, y, pat);
    ClearFind(pre, y, pat);
  }

  /** Around the block: its first line starts where it starts, its last ends where it ends. */
  lemma {:induction false} BlockLines(pre: string, t: string, marker: string, newline: string, post: string)
    requires Complete(pre) && IsNewline(newline)
    ensures var out := pre + (t + marker + newline + post);
            && LineStart(out, |pre|) == |pre|
            && LineEndAfter(out, |pre| + |t| + |marker|) == |pre| + |t + marker + newline|
  {
    hide LineLen, LineStart, LineEndAfter;
    var out := pre + (t + marker + newline + post);
    assert out[..|pre|] == pre && out[|pre|..|pre|] == "";
    LineStartIs(out, |pre|, |pre|);
    var z := |pre| + |t| + |marker|;
    assert out[z..] == newline + post;
    LineEndAfterIs(out, z);
    LineLenConcat(newline, post);
    NewlineIsLine(newline);
  }

  /** Slices of a text that holds a block between `pre` and `post`. */
  lemma {:induction false} OutSlices(pre: string, b: string, body: string, em: string, tail: string)
    ensures var y := b + body + em + tail;
            var out := pre + y;
            && out[|pre|..] == y && b <= y
            && out[|pre| + |b|..|pre| + |b| + |body|] == body
  {
    var y := b + body + em + tail;
    assert y == b + (body + em + tail);
    assert pre + y == pre + b + body + (em + tail);
  }

  lemma {:induction false} BlockText(key: string, url: string, newline: string, post: string)
    ensures var bm, body, em := BeginMarker(key), Body(key, url, newline), EndMarker(key);
            && Block(key, url, newline) + post == bm + body + em + (newline + post)
            && Block(key, url, newline) + post == (bm + body) + em + newline + post
            && |Block(key, url, newline)| == |bm + body + em + newline|
  {
    hide Block, Body, BeginMarker, EndMarker;
    BlockIs(key, url, newline);
    var x := BeginMarker(key) + Body(key, url, newline) + EndMarker(key);
    assert x + newline + post == x + (newline + post);
  }

  /** The locator, once both markers are found with no foreign header between them. */
  lemma {:induction false} LocateVia(s: string, key: string, m: nat, k: nat)
    requires Find(s, BeginMarker(key)) == Some(m) && Find(s[m..], EndMarker(key)) == Some(k)
    requires |BeginMarker(key)| <= k && Foreign(s[m + |BeginMarker(key)|..m + k], key) == []
    ensures Locate(s, key) == Found(Exact(LineStart(s, m), LineEndAfter(s, m + k + |EndMarker(key)|)))
  {
    hide Foreign, LineStart, LineEndAfter, BeginMarker, EndMarker, LocateTable;
    assert s[m..] == s[m..|s|];
    AtSlice(s, EndMarker(key), m, |s|, k);
  }

  lemma {:induction false} LocateExact(pre: string, key: string, url: string, newline: string, post: string)
    requires IsBareKey(key) && IsNewline(newline) && !Occurs(url, EndMarker(key))
    requires Complete(pre) && !Occurs(pre, BeginMarker(key))
    ensures Locate(pre + (Block(key, url, newline) + post), key) ==
            Found(Exact(|pre|, |pre| + |Block(key, url, newline)|))
  {
    hide *;
    var body, bm, em := Body(key, url, newline), BeginMarker(key), EndMarker(key);
    var y := bm + body + em + (newline + post);
    MarkerShape(key);
    BlockText(key, url, newline, post);
    OutSlices(pre, bm, body, em, newline + post);
    BeginMarkerFound(pre, y, bm);
    EndMarkerFound(key, url, newline, post);
    BodyForeign(key, url, newline);
    LocateVia(pre + y, key, |pre|, |bm + body|);
    BlockLines(pre, bm + body, em, newline, post);
  }

  /** With marker text in the URL, the first end marker is inside the URL line. */
  lemma {:induction false} EndMarkerInUrl(key: string, url: string, newline: string, post: string)
    requires IsBareKey(key) && IsNewline(newline) && Occurs(url, EndMarker(key))
    ensures var k := Find(Block(key, url, newline) + post, EndMarker(key));
            k.Some? && k.value + |EndMarker(key)| <= |Head(key, newline)| + |UrlLine(url)|
  {
    hide Clear, Head, After, Block, Occurs, At, UrlLine, EndMarker, IsBareKey;
    var pat := EndMarker(key);
    var x, u := Head(key, newline), UrlLine(url);
    MarkerShape(key);
    var rest := BlockFromUrl(key, url, newline, post);
    ClearHead(key, newline, u + rest);
    var j := UrlOccurrence(key, url);
    FirstInUrl(x, u, rest, pat, j);
  }

  lemma {:induction false} BlockFromUrl(key: string, url: string, newline: string, post: string)
    returns (rest: string)
    ensures Block(key, url, newline) + post == Head(key, newline) + (UrlLine(url) + rest)
  {
    hide Block, Head, After, UrlLine, EndMarker;
    BlockParts(key, url, newline);
    rest := newline + (After(newline) + (EndMarker(key) + newline)) + post;
    var x, u, t := Head(key, newline), UrlLine(url), After(newline) + (EndMarker(key) + newline);
    assert x + (u + newline + t) + post == x + (u + (newline + t + post));
  }

  lemma {:induction false} FirstInUrl(x: string, u: string, rest: string, pat: string, j: nat)
    requires Clear(x, u + rest, pat) && u != "" && u[|u| - 1] == '"' && '"' !in pat
    requires At(u, pat, j) && j + |pat| <= |u| - 1
    ensures var k := Find(x + (u + rest), pat);
            k.Some? && k.value + |pat| <= |x| + |u|
  {
    hide At, Clear;
    var z := x + (u + rest);
    AtExtend(u, rest, pat, j);
    AtShift(x, u + rest, pat, j);
    var k := Find(z, pat).value;
    FirstAfterHead(x, u + rest, pat, k);
    AtShift(x, u + rest, pat, k - |x|);
    assert (u + rest)[|u| - 1] == '"';
    InsideQuotes(u + rest, pat, 0, |u| - 1, k - |x|);
  }

  lemma {:induction false} FirstAfterHead(x: string, y: string, pat: string, k: nat)
    requires Clear(x, y, pat) && At(x + y, pat, k)
    ensures |x| <= k
  {
  }

  lemma {:induction false} UrlOccurrence(key: string, url: string) returns (j: nat)
    requires IsBareKey(key) && Occurs(url, EndMarker(key))
    ensures At(UrlLine(url), EndMarker(key), j) && j + |EndMarker(key)| <= |UrlLine(url)| - 1
    ensures UrlLine(url)[|UrlLine(url)| - 1] == '"'
  {
    hide Escape, At;
    var pat := EndMarker(key);
    MarkerShape(key);
    EscapeOccurs(url, pat);
    var i: nat :| i <= |Escape(url)| && At(Escape(url), pat, i);
    var open := "url = \"";
    j := |open| + i;
    AtEnd(Escape(url), pat, i);
    AtShift(open, Escape(url), pat, i);
    AtExtend(open + Escape(url), "\"", pat, j);
    assert UrlLine(url) == open + Escape(url) + "\"";
  }

  lemma {:induction false} AtEnd(s: string, pat: string, i: nat)
    requires At(s, pat, i)
    ensures i + |pat| <= |s|
  {
  }

  lemma {:induction false} AtExtend(s: string, y: string, pat: string, i: nat)
    requires At(s, pat, i)
    ensures At(s + y, pat, i)
  {
    assert (s + y)[i..i + |pat|] == s[i..i + |pat|];
  }

  lemma {:induction false} AtPrefix(s: string, y: string, pat: string, i: nat)
    requires i + |pat| <= |s|
    ensures At(s + y, pat, i) <==> At(s, pat, i)
  {
    assert (s + y)[i..i + |pat|] == s[i..i + |pat|];
  }

  lemma {:induction false} LineEndBound(s: string, i: nat, n: nat)
    requires i <= n < |s| && s[n] == '\n'
    ensures LineEndAfter(s, i) <= n + 1
  {
    hide LineEndAfter, LineLen;
    LineEndAfterIs(s, i);
    LineLenAtMost(s[i..], n - i);
  }

  lemma {:induction false} LocateInexact(pre: string, key: string, url: string, newline: string, post: string)
    requires IsBareKey(key) && IsNewline(newline) && Occurs(url, EndMarker(key))
    requires Complete(pre) && !Occurs(pre, BeginMarker(key))
    ensures Locate(pre + (Block(key, url, newline) + post), key) !=
            Found(Exact(|pre|, |pre| + |Block(key, url, newline)|))
  {
    hide Foreign, Block, LineStart, LineEndAfter, Occurs, At, IsBareKey, Complete, BeginMarker, EndMarker,
         LocateTable, Head, UrlLine, Find;
    var block, bm, em := Block(key, url, newline), BeginMarker(key), EndMarker(key);
    var y := block + post;
    var out := pre + y;
    MarkerShape(key);
    BlockStart(key, url, newline, post);
    BeginMarkerFound(pre, y, bm);
    assert out[|pre|..] == y;
    EndMarkerInUrl(key, url, newline, post);
    var k := Find(y, em).value;
    var n := UrlLineEnd(pre, key, url, newline, post);
    LineEndBound(out, |pre| + k + |em|, n);
  }

  lemma {:induction false} BlockStart(key: string, url: string, newline: string, post: string)
    ensures BeginMarker(key) <= Block(key, url, newline) + post
  {
    hide BeginMarker, Body, EndMarker, Block;
    BlockIs(key, url, newline);
    var b, t := BeginMarker(key), Body(key, url, newline) + EndMarker(key) + newline + post;
    assert Block(key, url, newline) + post == b + t;
  }

  lemma {:induction false} UrlLineEnd(pre: string, key: string, url: string, newline: string, post: string)
    returns (n: nat)
    requires IsNewline(newline)
    ensures var out := pre + (Block(key, url, newline) + post);
            && n + 1 == |pre| + |Head(key, newline)| + |UrlLine(url)| + |newline|
            && n < |out| && out[n] == '\n'
            && n + 1 < |pre| + |Block(key, url, newline)|
  {
    hide Block, Head, UrlLine, EndMarker;
    BlockParts(key, url, newline);
    var x, u, t := Head(key, newline), UrlLine(url), After(newline) + (EndMarker(key) + newline);
    n := |pre| + |x| + |u| + |newline| - 1;
    var out := pre + (Block(key, url, newline) + post);
    Regroup(pre, x, u, newline, t, post);
    assert out[n] == (pre + x + u + newline)[n] == newline[|newline| - 1];
  }

  lemma {:induction false} Regroup(pre: string, x: string, u: string, n: string, t: string, post: string)
    ensures pre + (x + (u + n + t) + post) == (pre + x + u + n) + (t + post)
  {
    assert x + (u + n + t) + post == (x + u + n) + (t + post);
    var left, right := x + u + n, t + post;
    assert pre + (left + right) == (pre + left) + right;
    assert pre + left == pre + x + u + n;
  }

  /**
   After any edit the locator reports exactly the block just written, if and
   only if the URL does not hold the text of the end marker.
   */
  lemma {:induction false} LocatorFindsBlock(pre: string, key: string, url: string, newline: string, post: string)
    requires IsBareKey(key) && IsNewline(newline)
    requires Complete(pre) && !Occurs(pre, BeginMarker(key))
    ensures Locate(pre + (Block(key, url, newline) + post), key) ==
            Found(Exact(|pre|, |pre| + |Block(key, url, newline)|))
            <==> !Occurs(url, EndMarker(key))
  {
    hide *;
    if Occurs(url, EndMarker(key)) {
      LocateInexact(pre, key, url, newline, post);
    } else {
      LocateExact(pre, key, url, newline, post);
    }
  }

  // ---------------------------------------------------------------- the edit as two kept pieces

  /** What an edit of `s` keeps before and after the block it writes; None if it writes nothing. */
  function Pieces(s: string, key: string): Option<(string, string)> {
    match Locate(s, key)
    case Found(span) => if Ordered(s, span) then Some(Kept(s, span)) else None
    case NotThere =>
      (match LocateTable(s, key)
       case Some((start, end)) => Some((s[..start], s[end..]))
       case None => Some((s + Padding(s), "")))
    case _ => None
  }

  lemma {:induction false} ApplyPieces(s: string, key: string, block: string)
    ensures Apply(s, key, block).Updated? <==> Pieces(s, key).Some?
    ensures Pieces(s, key).Some? ==>
      Apply(s, key, block).contents == Pieces(s, key).value.0 + (block + Pieces(s, key).value.1)
  {
    hide Locate, LocateTable, Padding, Splice, Ordered, Kept;
    match Locate(s, key) {
      case Found(span) =>
        SplicedOrder(s, key, block);
        if Ordered(s, span) {
          SpliceKept(s, block, span);
          var (pre, post) := Kept(s, span);
          assert pre + block + post == pre + (block + post);
        }
      case NotThere =>
        if LocateTable(s, key).Some? {
          var (start, end) := LocateTable(s, key).value;
          assert s[..start] + block + s[end..] == s[..start] + (block + s[end..]);
        } else {
          assert block + "" == block;
        }
      case _ =>
    }
  }

  lemma {:induction false} RemovePieces(s: string, key: string)
    requires Locate(s, key).Found?
    ensures Pieces(s, key).Some? ==>
      Remove(s, key) == Updated(Pieces(s, key).value.0 + Pieces(s, key).value.1, true)
  {
    hide Locate, Splice, Ordered, Kept;
    var span := Locate(s, key).span;
    SplicedOrder(s, key, "");
    if Ordered(s, span) {
      SpliceKept(s, "", span);
      var (pre, post) := Kept(s, span);
      assert pre + "" + post == pre + post;
    }
  }
}
