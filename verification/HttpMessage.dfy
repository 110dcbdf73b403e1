/**
 Which bytes are the body of a response: a message printed from its status and
 header fields is read back, and the body is what section 6.3 of RFC 9112 says.
 */
module HttpMessage {
  import opened Basics
  import opened Text
  import opened Utf8
  import opened Chunked
  import opened HttpResponse

  // ---------------------------------------------------------------- the first blank line

  const BLANK: seq<byte> := [13, 10, 13, 10]

  predicate BlankAt(raw: seq<byte>, j: nat) {
    j + 4 <= |raw| && raw[j..j + 4] == BLANK
  }

  /** The head ends with the first blank line, and the body starts at `k`. */
  predicate BodyStarts(raw: seq<byte>, k: nat) {
    k >= 4 && BlankAt(raw, k - 4) && forall j: nat | j < k - 4 :: !BlankAt(raw, j)
  }

  lemma {:induction false} FindBlankIs(raw: seq<byte>, k: nat)
    requires BodyStarts(raw, k)
    ensures FindBlank(raw) == Some(k - 4)
  {
    BlankHere(raw);
    if k > 4 {
      assert !BlankAt(raw, 0);
      var rest := raw[1..];
      assert rest[k - 5..k - 1] == raw[k - 4..k];
      forall j: nat | j < k - 5 ensures !BlankAt(rest, j) {
        assert !BlankAt(raw, j + 1);
        assert j + 5 <= |raw| ==> rest[j..j + 4] == raw[j + 1..j + 1 + 4];
      }
      FindBlankIs(rest, k - 1);
    }
  }

  lemma {:induction false} BlankHere(raw: seq<byte>)
    requires |raw| >= 4
    ensures StartsWithCrlf(raw) && StartsWithCrlf(raw[2..]) <==> raw[0..4] == BLANK
  {
    assert raw[0..4] == [raw[0], raw[1], raw[2], raw[3]];
  }

  // ---------------------------------------------------------------- bodies

  /** For every response that parses, the body in terms of its bytes. */
  lemma {:induction false} BodyMeans(raw: seq<byte>, k: nat)
    requires BodyStarts(raw, k) && ParseResponse(raw).Some?
    ensures var h := ParseResponse(raw).value.head;
      match h.contentLength
      case Some(n) =>
        && (BodyOf(raw).Body? <==> |raw| >= k + n)
        && (|raw| >= k + n ==> BodyOf(raw) == Body(raw[k..k + n]))
      case None => BodyOf(raw) == if h.transferEncoding != "" then Chunks(raw[k..]) else Body(raw[k..])
  {
    hide FromUtf8, SplitCrlf, Status, Acceptable, HeadOf, FindBlank, Chunks, Contains;
    FindBlankIs(raw, k);
    ChunkedIffCoded(raw);
    var n := ParseResponse(raw).value.head.contentLength;
    if n.Some? && |raw| >= k + n.value { assert raw[k..][..n.value] == raw[k..k + n.value]; }
  }

  /** A chunked response whose body is any encoding of some chunks has their data as its body. */
  lemma {:induction false} ChunkedBodyMeans(
    raw: seq<byte>, k: nat, chunks: seq<Chunk>, last: seq<byte>, trailers: seq<seq<byte>>)
    requires BodyStarts(raw, k) && ParseResponse(raw).Some?
    requires ParseResponse(raw).value.head.transferEncoding != ""
    requires forall c | c in chunks :: c.Valid()
    requires FindCrlf(last) == None && ChunkSize(last) == Some(0)
    requires forall t | t in trailers :: Trailer(t) && FindCrlf(t) == None
    requires raw[k..] == Encode(chunks, last + CRLF + EncodeTrailers(trailers))
    ensures BodyOf(raw) == Body(Chunked.Join(chunks))
  {
    hide ParseResponse, Chunks, Trailer, FindCrlf, ChunkSize, Encode, BodyOf;
    BodyMeans(raw, k);
    CodedHasNoLength(raw);
    ChunkedRoundTrip(chunks, last, trailers);
  }

  lemma {:induction false} CodedHasNoLength(raw: seq<byte>)
    requires ParseResponse(raw).Some? && ParseResponse(raw).value.head.transferEncoding != ""
    ensures ParseResponse(raw).value.head.contentLength.None?
  {
    hide ParseResponse, Contains;
    ChunkedIffCoded(raw);
  }

  /** Every way of cutting a complete framed response into reads returns a text with exactly these bytes as its body. */
  lemma {:induction false} EveryCutYieldsTheBytes(
    pieces: seq<seq<byte>>, k: nat, ending: Ending, max: nat, events: seq<byte> -> bool, json: seq<byte> -> bool)
    requires pieces != [] && forall i | 0 <= i < |pieces| :: pieces[i] != []
    requires var stream := Flatten(pieces);
      && |stream| <= max && FromUtf8(stream).Some? && Framed(stream) && BodyOf(stream).Body? && BodyStarts(stream, k)
      && !Contains(ParseResponse(stream).value.head.contentType, "text/event-stream")
    ensures var stream := Flatten(pieces);
      var r := Receive([], pieces, ending, max, (b: seq<byte>) => Ready(b, events, json));
      && r.Got?
      && match ParseResponse(stream).value.head.contentLength
         case Some(n) => k + n <= |stream| && BodyOf(r.raw) == Body(stream[k..k + n])
         case None => BodyOf(r.raw) == Chunks(stream[k..])
  {
    var stream := Flatten(pieces);
    assert Framed(stream) ==> ParseResponse(stream).Some? by { hide ParseResponse; }
    hide Framed, BodyOf, Ready, FromUtf8, ParseResponse, Contains, Receive, Flatten, Chunks, BodyStarts;
    assert [] + stream == stream;
    EveryCutYieldsTheBody([], pieces, ending, max, events, json);
    BodyMeans(stream, k);
    FramedIs(stream);
  }

  lemma {:induction false} FramedIs(raw: seq<byte>)
    requires Framed(raw)
    ensures ParseResponse(raw).Some?
    ensures ParseResponse(raw).value.head.contentLength.None? ==> ParseResponse(raw).value.head.transferEncoding != ""
  {
    hide ParseResponse;
  }

  // ---------------------------------------------------------------- a printed head

  function StatusLine(version: string, status: nat, reason: string): string {
    version + " " + Numeral(status, 10) + (if reason == "" then "" else " " + reason)
  }

  function FieldLine(f: Field): string { f.name + ": " + f.value }

  function FieldsText(fields: seq<Field>): string {
    if fields == [] then "" else "\r\n" + FieldLine(fields[0]) + FieldsText(fields[1..])
  }

  function FieldLines(fields: seq<Field>): (lines: seq<string>)
    ensures |lines| == |fields| && forall i | 0 <= i < |fields| :: lines[i] == FieldLine(fields[i])
  {
    seq(|fields|, i requires 0 <= i < |fields| => FieldLine(fields[i]))
  }

  /** A field as a line can carry it: without the blanks around its name and value. */
  predicate Lineable(f: Field) {
    Tight(f.name) && Tight(f.value) && ':' !in f.name && '\r' !in f.name && '\r' !in f.value
  }

  /** A field that may be sent. */
  predicate Sendable(f: Field) { HeaderName(f.name) && FieldValue(f.value) }

  /** A status line of two words and any text after them. */
  predicate Worded(version: string, status: nat, reason: string) {
    && version != "" && (forall i | 0 <= i < |version| :: !IsSpace(version[i]) && version[i] != '\0')
    && status <= USIZE_MAX && '\r' !in reason
  }

  /** The status lines that are accepted. */
  predicate StatusOk(version: string, status: nat, reason: string) {
    && (version == "HTTP/1.0" || version == "HTTP/1.1") && 100 <= status <= 599
    && '\n' !in reason && '\0' !in reason
  }

  lemma {:induction false} NoBreakIn(line: string, rest: string, j: nat)
    requires '\r' !in line && j < |line|
    ensures !At(line + rest, "\r\n", j)
  {
    AtChar(line + rest, "\r\n", j, 0);
    assert (line + rest)[j] == line[j] && line[j] in line;
  }

  lemma {:induction false} SplitLast(line: string)
    requires '\r' !in line
    ensures SplitCrlf(line) == [line]
  {
    hide At;
    forall j: nat ensures !At(line, "\r\n", j) {
      AtChar(line, "\r\n", j, 0);
      assert j < |line| ==> line[j] in line;
    }
  }

  lemma {:induction false} SplitFirst(line: string, rest: string)
    requires '\r' !in line
    ensures SplitCrlf(line + "\r\n" + rest) == [line] + SplitCrlf(rest)
  {
    hide At;
    var t, n := line + "\r\n" + rest, |line|;
    assert t == line + ("\r\n" + rest);
    forall j: nat | j < n ensures !At(t, "\r\n", j) { NoBreakIn(line, "\r\n" + rest, j); }
    assert At(t, "\r\n", n) by { AtBreak(line, rest); }
    FindIs(t, "\r\n", n);
    assert t[..n] == line && t[n + 2..] == rest;
  }

  lemma {:induction false} AtBreak(line: string, rest: string)
    ensures At(line + "\r\n" + rest, "\r\n", |line|)
  {
    assert (line + "\r\n" + rest)[|line|..|line| + |"\r\n"|] == "\r\n";
  }

  lemma {:induction false} SplitText(line: string, fields: seq<Field>)
    requires '\r' !in line && forall i | 0 <= i < |fields| :: '\r' !in FieldLine(fields[i])
    ensures SplitCrlf(line + FieldsText(fields)) == [line] + FieldLines(fields)
    decreases |fields|
  {
    hide FieldLine, SplitCrlf;
    if fields == [] {
      assert line + FieldsText(fields) == line;
      SplitLast(line);
    } else {
      var rest := FieldLine(fields[0]) + FieldsText(fields[1..]);
      assert line + FieldsText(fields) == line + "\r\n" + rest;
      SplitFirst(line, rest);
      SplitText(FieldLine(fields[0]), fields[1..]);
      assert FieldLines(fields) == [FieldLine(fields[0])] + FieldLines(fields[1..]);
    }
  }

  lemma {:induction false} FieldRead(f: Field)
    requires Lineable(f)
    ensures ReadField(FieldLine(f)) == (if Sendable(f) then Some(f) else None) && '\r' !in FieldLine(f)
  {
    hide Trim, Find, HeaderName, FieldValue;
    var line, n := FieldLine(f), |f.name|;
    forall j: nat | j < n ensures !At(line, ":", j) {
      AtChar(line, ":", j, 0);
      assert line[j] == f.name[j] && f.name[j] in f.name;
    }
    assert At(line, ":", n);
    FindIs(line, ":", n);
    TrimCore("", f.name, "");
    assert "" + f.name + "" == line[..n];
    TrimCore(" ", f.value, "");
    assert " " + f.value + "" == line[n + 1..];
  }

  lemma {:induction false} FieldsRead(fields: seq<Field>)
    requires forall i | 0 <= i < |fields| :: Lineable(fields[i])
    ensures AllFields(FieldLines(fields)) <==> forall i | 0 <= i < |fields| :: Sendable(fields[i])
    ensures AllFields(FieldLines(fields)) ==> Fields(FieldLines(fields)) == fields
  {
    hide Sendable, Lineable, FieldLine, ReadField;
    forall i | 0 <= i < |fields|
      ensures ReadField(FieldLine(fields[i])) == if Sendable(fields[i]) then Some(fields[i]) else None
    {
      FieldRead(fields[i]);
    }
    if AllFields(FieldLines(fields)) && fields != [] {
      var n := |fields| - 1;
      forall i | 0 <= i < n ensures ReadField(FieldLine(fields[..n][i])).Some? {
        assert FieldLines(fields)[i] == FieldLine(fields[i]) && fields[..n][i] == fields[i];
      }
      FieldsRead(fields[..n]);
      assert FieldLines(fields)[..n] == FieldLines(fields[..n]);
      assert fields == fields[..n] + [fields[n]];
      assert ReadField(FieldLines(fields)[n]).Some?;
    }
  }

  // ---------------------------------------------------------------- the status line

  lemma {:induction false} Word(w: string, rest: string)
    requires (forall i | 0 <= i < |w| :: !IsSpace(w[i])) && (rest == "" || IsSpace(rest[0]))
    ensures WordLen(w + rest) == |w|
  {
    hide IsSpace;
    if w == "" {
      assert w + rest == rest;
    } else {
      assert (w + rest)[1..] == w[1..] + rest;
      Word(w[1..], rest);
    }
  }

  lemma {:induction false} StartsTight(before: string, t: string)
    requires Blank(before) && (t == "" || !IsSpace(t[0]))
    ensures TrimStart(before + t) == t
  {
    hide IsSpace;
    TrimStartBlank(before, t);
  }

  /** The two words a line starts with. */
  lemma {:induction false} TwoWords(a: string, b: string, tail: string)
    requires a != "" && b != "" && (tail == "" || IsSpace(tail[0]))
    requires (forall i | 0 <= i < |a| :: !IsSpace(a[i])) && forall i | 0 <= i < |b| :: !IsSpace(b[i])
    ensures var line := a + (" " + (b + tail));
      && TrimStart(line) == line && WordLen(line) == |a| && line[..|a|] == a
      && TrimStart(line[|a|..]) == b + tail && WordLen(b + tail) == |b| && (b + tail)[..|b|] == b
  {
    hide TrimStart, WordLen, IsSpace;
    var line := a + (" " + (b + tail));
    SpaceIsSpace();
    StartsTight("", line);
    assert "" + line == line;
    Word(a, " " + (b + tail));
    assert line[|a|..] == " " + (b + tail);
    StartsTight(" ", b + tail);
    Word(b, tail);
  }

  lemma {:induction false} StatusRead(version: string, status: nat, reason: string)
    requires Worded(version, status, reason)
    ensures Status(StatusLine(version, status, reason)) ==
      if StatusOk(version, status, reason) then Some(status) else None
    ensures '\r' !in StatusLine(version, status, reason)
  {
    hide Numeral, ParseUint, TrimStart, WordLen, IsSpace;
    var digits := Numeral(status, 10);
    var tail := if reason == "" then "" else " " + reason;
    var line := StatusLine(version, status, reason);
    assert line == version + (" " + (digits + tail));
    VersionWord(version);
    DigitsPlain(status);
    SpaceIsSpace();
    TwoWords(version, digits, tail);
    NumeralRoundTrip(status, 10, USIZE_MAX);
    PlainLine(version, digits, tail);
    assert (exists c | c in tail :: Framing(c)) <==> '\n' in reason || '\0' in reason by { TailFraming(reason); }
  }

  lemma {:induction false} TailFraming(reason: string)
    requires '\r' !in reason
    ensures var tail := if reason == "" then "" else " " + reason;
      (exists c | c in tail :: Framing(c)) <==> '\n' in reason || '\0' in reason
  {
    var tail := if reason == "" then "" else " " + reason;
    assert forall c :: c in tail <==> c in reason || (reason != "" && c == ' ');
    assert '\n' in reason ==> Framing('\n') && '\n' in tail;
    assert '\0' in reason ==> Framing('\0') && '\0' in tail;
  }

  lemma {:induction false} SpaceIsSpace()
    ensures IsSpace(' ')
  {
  }

  predicate Framing(c: char) { c == '\n' || c == '\r' || c == '\0' }

  lemma {:induction false} PlainLine(version: string, digits: string, tail: string)
    requires forall c | c in version || c in digits :: !Framing(c)
    requires '\r' !in tail
    ensures var line := version + (" " + (digits + tail));
      && '\r' !in line
      && ((exists i | 0 <= i < |line| :: line[i] == '\n' || line[i] == '\r' || line[i] == '\0')
          <==> exists c | c in tail :: Framing(c))
  {
    var line := version + (" " + (digits + tail));
    assert forall c | c in line :: c in version || c == ' ' || c in digits || c in tail;
    if i :| 0 <= i < |line| && (line[i] == '\n' || line[i] == '\r' || line[i] == '\0') {
      assert line[i] in line && Framing(line[i]);
      assert line[i] in tail;
    }
    if c :| c in tail && Framing(c) {
      var j :| 0 <= j < |tail| && tail[j] == c;
      assert line[|version| + 1 + |digits| + j] == c;
    }
  }

  lemma {:induction false} VersionWord(version: string)
    requires forall i | 0 <= i < |version| :: !IsSpace(version[i]) && version[i] != '\0'
    ensures (forall i | 0 <= i < |version| :: !IsSpace(version[i])) && forall c | c in version :: !Framing(c)
  {
    assert IsSpace('\n') && IsSpace('\r');
  }

  /** A line break or a null character anywhere makes a status line invalid. */
  lemma {:induction false} BrokenStatusRefused(line: string, c: char)
    requires c in line && Framing(c)
    ensures Status(line) == None
  {
    hide TrimStart, WordLen, ParseUint;
  }

  lemma {:induction false} DigitsPlain(n: nat)
    ensures var t := Numeral(n, 10);
      t != "" && (forall i | 0 <= i < |t| :: !IsSpace(t[i])) && forall c | c in t :: !Framing(c)
  {
    hide Numeral, Digits;
    NumeralDigits(n, 10);
    var t := Numeral(n, 10);
    NumeralFraming(n);
  }

  lemma {:induction false} NumeralFraming(n: nat)
    ensures forall c | c in Numeral(n, 10) :: '0' <= c <= '9'
  {
    DivMod(n, 10);
    if n >= 10 { NumeralFraming(n / 10); }
  }

  // ---------------------------------------------------------------- messages

  /** The head of `raw`, up to its first blank line, is this status line and these fields. */
  predicate Sends(raw: seq<byte>, k: nat, version: string, status: nat, reason: string, fields: seq<Field>) {
    && BodyStarts(raw, k) && Worded(version, status, reason)
    && (forall i | 0 <= i < |fields| :: Lineable(fields[i]))
    && FromUtf8(raw[..k - 4]) == Some(StatusLine(version, status, reason) + FieldsText(fields))
  }

  /** Fields that may be sent, with framing headers that a response may carry together. */
  predicate Consistent(fields: seq<Field>) {
    && (forall i | 0 <= i < |fields| :: Sendable(fields[i]))
    && Framable(fields)
  }

  predicate Framable(fields: seq<Field>) {
    var lengths, codings := Values(fields, "content-length"), Values(fields, "transfer-encoding");
    && Lengths(lengths) && |codings| <= 1
    && (codings != [] && codings[0] != "" ==> lengths == [] && OneChunked(codings[0]))
  }

  /** A printed message is refused exactly for its status line, fields or framing headers, and otherwise read back. */
  lemma {:induction false} MessageRead(
    raw: seq<byte>, k: nat, version: string, status: nat, reason: string, fields: seq<Field>)
    requires Sends(raw, k, version, status, reason, fields)
    ensures ParseResponse(raw).Some? <==> StatusOk(version, status, reason) && Consistent(fields)
    ensures StatusOk(version, status, reason) && Consistent(fields) ==>
      var r := ParseResponse(raw).value;
      && r.status == status && r.head.headers == fields && r.body == raw[k..]
      && r.head.contentLength == Length(Values(fields, "content-length"))
      && r.head.transferEncoding == Single(Values(fields, "transfer-encoding"))
      && r.head.contentType == Single(Values(fields, "content-type"))
  {
    hide FromUtf8, Status, StatusLine, StatusOk, FieldsText, Sendable, Lineable, OneChunked, Lengths, Length, Values,
         SplitCrlf, FindBlank,
         Fields, AllFields, FieldLine, ReadField;
    FindBlankIs(raw, k);
    StatusRead(version, status, reason);
    FieldsRead(fields);
    forall i | 0 <= i < |fields| ensures '\r' !in FieldLine(fields[i]) { FieldRead(fields[i]); }
    var line := StatusLine(version, status, reason);
    SplitText(line, fields);
    var lines := [line] + FieldLines(fields);
    assert lines[0] == line && lines[1..] == FieldLines(fields);
  }

  /** With a Content-Length the body is that many bytes after the blank line, and incomplete until they are there. */
  lemma {:induction false} LengthBody(
    raw: seq<byte>, k: nat, version: string, status: nat, reason: string, fields: seq<Field>, n: nat)
    requires Sends(raw, k, version, status, reason, fields) && n <= USIZE_MAX
    requires StatusOk(version, status, reason) && forall i | 0 <= i < |fields| :: Sendable(fields[i])
    requires Values(fields, "content-length") == [Numeral(n, 10)] && Values(fields, "transfer-encoding") == []
    ensures BodyOf(raw).Body? <==> |raw| >= k + n
    ensures |raw| >= k + n ==> BodyOf(raw) == Body(raw[k..k + n])
  {
    hide Sends, Sendable, StatusOk, Values, Numeral, ParseUint, BodyOf, ParseResponse, OneChunked;
    NumeralRoundTrip(n, 10, USIZE_MAX);
    MessageRead(raw, k, version, status, reason, fields);
    SendsStarts(raw, k, version, status, reason, fields);
    BodyMeans(raw, k);
  }

  lemma {:induction false} SendsStarts(
    raw: seq<byte>, k: nat, version: string, status: nat, reason: string, fields: seq<Field>)
    requires Sends(raw, k, version, status, reason, fields)
    ensures BodyStarts(raw, k)
  {
    hide FromUtf8, StatusLine, FieldsText, Lineable;
  }

  lemma {:induction false} ChunkedItem(coding: string)
    requires Lower(coding) == "chunked"
    ensures OneChunked(coding) && coding != ""
  {
    hide Trim, Lower;
    forall i | 0 <= i < |coding| ensures coding[i] != ',' && !IsSpace(coding[i]) {
      LowerAt(coding, i);
      assert "chunked"[i] == LowerChar(coding[i]);
    }
    forall j: nat ensures !At(coding, ",", j) { AtChar(coding, ",", j, 0); }
    TrimCore("", coding, "");
    assert "" + coding + "" == coding;
  }

  /** With the chunked coding, in any case of letters, the body is the data of the chunks after the blank line. */
  lemma {:induction false} ChunkedBody(
    raw: seq<byte>, k: nat, version: string, status: nat, reason: string, fields: seq<Field>, coding: string,
    chunks: seq<Chunk>, last: seq<byte>, trailers: seq<seq<byte>>)
    requires Sends(raw, k, version, status, reason, fields) && Lower(coding) == "chunked"
    requires StatusOk(version, status, reason) && forall i | 0 <= i < |fields| :: Sendable(fields[i])
    requires Values(fields, "transfer-encoding") == [coding] && Values(fields, "content-length") == []
    requires forall c | c in chunks :: c.Valid()
    requires FindCrlf(last) == None && ChunkSize(last) == Some(0)
    requires forall t | t in trailers :: Trailer(t) && FindCrlf(t) == None
    requires raw[k..] == Encode(chunks, last + CRLF + EncodeTrailers(trailers))
    ensures BodyOf(raw) == Body(Chunked.Join(chunks))
  {
    hide Sends, Sendable, StatusOk, Values, BodyOf, ParseResponse, OneChunked, Encode, EncodeTrailers, Trailer,
         ChunkSize, FindCrlf, Chunk.Valid;
    ChunkedItem(coding);
    MessageRead(raw, k, version, status, reason, fields);
    SendsStarts(raw, k, version, status, reason, fields);
    ChunkedBodyMeans(raw, k, chunks, last, trailers);
  }

  /** With neither header the body is everything after the blank line. */
  lemma {:induction false} UnframedBody(
    raw: seq<byte>, k: nat, version: string, status: nat, reason: string, fields: seq<Field>)
    requires Sends(raw, k, version, status, reason, fields)
    requires StatusOk(version, status, reason) && forall i | 0 <= i < |fields| :: Sendable(fields[i])
    requires Values(fields, "content-length") == [] && Values(fields, "transfer-encoding") == []
    ensures BodyOf(raw) == Body(raw[k..])
  {
    hide Sends, Sendable, StatusOk, Values, BodyOf, ParseResponse, OneChunked;
    MessageRead(raw, k, version, status, reason, fields);
    SendsStarts(raw, k, version, status, reason, fields);
    BodyMeans(raw, k);
  }

  /** When a response is complete enough to stop reading, for every kind of body. */
  lemma {:induction false} ReadyMeans(
    raw: seq<byte>, k: nat, events: seq<byte> -> bool, json: seq<byte> -> bool)
    requires BodyStarts(raw, k) && ParseResponse(raw).Some?
    ensures var h := ParseResponse(raw).value.head;
      Ready(raw, events, json) <==>
        if Contains(h.contentType, "text/event-stream") then
          BodyOf(raw).Body? && FromUtf8(BodyOf(raw).data).Some? && events(BodyOf(raw).data)
        else if h.transferEncoding != "" then Chunks(raw[k..]).Body?
        else if h.contentLength.Some? then |raw| >= k + h.contentLength.value
        else json(raw[k..])
  {
    hide FromUtf8, SplitCrlf, Status, Acceptable, HeadOf, FindBlank, Chunks, Contains;
    FindBlankIs(raw, k);
    ChunkedIffCoded(raw);
  }

  // ---------------------------------------------------------------- what reading returns

  /** Whatever is returned is text of at most the limit, and ready unless the peer closed the stream. */
  lemma {:induction false} ReceivedMeans(
    raw: seq<byte>, pieces: seq<seq<byte>>, ending: Ending, max: nat, ready: seq<byte> -> bool)
    requires |raw| <= max && Receive(raw, pieces, ending, max, ready).Got?
    ensures var r := Receive(raw, pieces, ending, max, ready).raw;
      && FromUtf8(r).Some? && |r| <= max
      && (ready(r) || (r == raw + Flatten(pieces) && ending.Closed?) || [] in pieces)
    decreases |pieces|
  {
    hide FromUtf8;
    if pieces == [] {
      assert raw + Flatten(pieces) == raw;
    } else if pieces[0] != [] {
      Assoc(raw, pieces[0], Flatten(pieces[1..]));
      if |raw + pieces[0]| <= max && !Done(raw + pieces[0], ready) {
        ReceivedMeans(raw + pieces[0], pieces[1..], ending, max, ready);
      }
    } else {
      assert pieces[0] in pieces;
    }
  }

  /** No part of a stream is complete before its end. */
  ghost predicate NotBefore(raw: seq<byte>, pieces: seq<seq<byte>>, ready: seq<byte> -> bool)
    decreases |pieces|
  {
    pieces == [] || |pieces| == 1 ||
    (!Done(raw + pieces[0], ready) && NotBefore(raw + pieces[0], pieces[1..], ready))
  }

  /** What was received by the end decides: a closed stream gives its text, a stalled one only if it is complete. */
  lemma {:induction false} EndDecides(
    raw: seq<byte>, pieces: seq<seq<byte>>, ending: Ending, max: nat, ready: seq<byte> -> bool)
    requires (forall i | 0 <= i < |pieces| :: pieces[i] != []) && |raw + Flatten(pieces)| <= max
    requires NotBefore(raw, pieces, ready) && (pieces != [] ==> !Done(raw + Flatten(pieces), ready))
    ensures var all := raw + Flatten(pieces);
      Receive(raw, pieces, ending, max, ready) ==
      match ending
      case Closed => if FromUtf8(all).Some? then Got(all) else NotText
      case Stalled => if FromUtf8(all).Some? && ready(all) then Got(all) else TimedOut
      case Expired => TimedOut
      case Broken => ReadFailed
    decreases |pieces|
  {
    hide FromUtf8;
    if pieces == [] {
      assert raw + Flatten(pieces) == raw;
    } else {
      var now := raw + pieces[0];
      Assoc(raw, pieces[0], Flatten(pieces[1..]));
      assert |pieces| == 1 ==> Flatten(pieces[1..]) == [] && now + [] == now;
      EndDecides(now, pieces[1..], ending, max, ready);
    }
  }
}
