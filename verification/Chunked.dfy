/**
 The chunked body decoder of `src/http_probe.rs` (section 7.1 of RFC 9112): a
 loop over size lines, data and trailers, against a recursive reading of the
 rest of the body.
 */
module Chunked {
  import opened Basics
  import opened Text
  import opened Utf8

  datatype Fault = Incomplete | BadSize | BadTrailer | Leftover | Unterminated

  datatype Decoded = Body(data: seq<byte>) | Failed(fault: Fault)

  const CRLF: seq<byte> := [13, 10]

  // ---------------------------------------------------------------- lines

  predicate StartsWithCrlf(b: seq<byte>) {
    |b| >= 2 && b[0] == 13 && b[1] == 10
  }

  /** `find_crlf` from the start of `b` */
  function FindCrlf(b: seq<byte>): (r: Option<nat>)
    ensures r.Some? ==> r.value + 2 <= |b|
  {
    if |b| < 2 then None
    else if StartsWithCrlf(b) then Some(0)
    else match FindCrlf(b[1..])
      case Some(n) => Some(n + 1)
      case None => None
  }

  /** The part of a text before the first `c`. */
  function Before(t: string, c: char): string {
    match Find(t, [c])
    case Some(k) => t[..k]
    case None => t
  }

  function ChunkSize(line: seq<byte>): Option<nat> {
    match FromUtf8(line)
    case Some(t) => ParseUsize(Trim(Before(t, ';')), 16)
    case None => None
  }

  predicate HeaderNameChar(c: char) {
    || 'a' <= c <= 'z' || 'A' <= c <= 'Z' || '0' <= c <= '9'
    || c == '-' || c == '_' || c == '.' || c == '~'
  }

  predicate HeaderName(t: string) {
    t != "" && forall i | 0 <= i < |t| :: HeaderNameChar(t[i])
  }

  /** A character whose bytes are all allowed in a field value. */
  predicate FieldChar(c: char) {
    c == '\t' || ' ' <= c <= '~' || c as int >= 0x80
  }

  predicate FieldValue(t: string) {
    forall i | 0 <= i < |t| :: FieldChar(t[i])
  }

  predicate Trailer(line: seq<byte>) {
    match FromUtf8(line)
    case None => false
    case Some(t) =>
      match Find(t, ":")
      case None => false
      case Some(k) => HeaderName(Trim(t[..k])) && FieldValue(t[k + 1..])
  }

  // ---------------------------------------------------------------- the rest of a body

  /** The trailer section, which must end the body. */
  function Trailers(b: seq<byte>): Decoded {
    match FindCrlf(b)
    case None => Failed(Incomplete)
    case Some(n) =>
      if n == 0 then (if |b| == 2 then Body([]) else Failed(Leftover))
      else if Trailer(b[..n]) then Trailers(b[n + 2..])
      else Failed(BadTrailer)
  }

  function Prepend(data: seq<byte>, d: Decoded): Decoded {
    match d
    case Body(more) => Body(data + more)
    case Failed(_) => d
  }

  /** What the next size line leads to: an end, the trailers, or data and more chunks. */
  datatype Piece = Stop(fault: Fault) | Last(rest: seq<byte>) | Data(data: seq<byte>, rest: seq<byte>)

  function ReadPiece(b: seq<byte>): (p: Piece)
    ensures !p.Stop? ==> |p.rest| < |b|
  {
    match FindCrlf(b)
    case None => Stop(Incomplete)
    case Some(n) =>
      match ChunkSize(b[..n])
      case None => Stop(BadSize)
      case Some(size) =>
        var rest := b[n + 2..];
        if size == 0 then Last(rest)
        else if |rest| < size then Stop(Incomplete)
        else if StartsWithCrlf(rest[size..]) then Data(rest[..size], rest[size + 2..])
        else if size < |rest| then Stop(Unterminated)
        else Stop(Incomplete)
  }

  function Chunks(b: seq<byte>): Decoded {
    match ReadPiece(b)
    case Stop(fault) => Failed(fault)
    case Last(rest) => Trailers(rest)
    case Data(data, rest) => Prepend(data, Chunks(rest))
  }

  // ---------------------------------------------------------------- the decoder

  method DecodeTrailers(body: seq<byte>, start: nat) returns (r: Decoded)
    requires start <= |body|
    ensures r == Trailers(body[start..])
  {
    hide Trailer, FindCrlf, Trailers;
    var offset := start;
    while true
      invariant start <= offset <= |body|
      invariant Trailers(body[start..]) == Trailers(body[offset..])
      decreases |body| - offset
    {
      TrailersAt(body, offset);
      match FindCrlf(body[offset..]) {
        case None => return Failed(Incomplete);
        case Some(n) =>
          if n == 0 {
            offset := offset + 2;
            if offset != |body| { return Failed(Leftover); }
            return Body([]);
          }
          if !Trailer(body[offset..offset + n]) { return Failed(BadTrailer); }
          offset := offset + n + 2;
      }
    }
  }

  /** What one turn of the trailer loop finds at `offset`. */
  lemma {:induction false} TrailersAt(body: seq<byte>, offset: nat)
    requires offset <= |body|
    ensures Trailers(body[offset..]) ==
      match FindCrlf(body[offset..])
      case None => Failed(Incomplete)
      case Some(n) =>
        if n == 0 then (if offset + 2 == |body| then Body([]) else Failed(Leftover))
        else if Trailer(body[offset..offset + n]) then Trailers(body[offset + n + 2..])
        else Failed(BadTrailer)
  {
    hide Trailer, FindCrlf;
    var b := body[offset..];
    if FindCrlf(b).Some? {
      var n := FindCrlf(b).value;
      assert b[..n] == body[offset..offset + n] && b[n + 2..] == body[offset + n + 2..];
    }
  }

  /** What one turn of the decoder's loop finds at `offset`. */
  lemma {:induction false} PieceAt(body: seq<byte>, offset: nat)
    requires offset <= |body|
    ensures ReadPiece(body[offset..]) ==
      match FindCrlf(body[offset..])
      case None => Stop(Incomplete)
      case Some(n) =>
        match ChunkSize(body[offset..offset + n])
        case None => Stop(BadSize)
        case Some(size) =>
          var start := offset + n + 2;
          if size == 0 then Last(body[start..])
          else if |body| < start + size then Stop(Incomplete)
          else if StartsWithCrlf(body[start + size..]) then Data(body[start..start + size], body[start + size + 2..])
          else if start + size < |body| then Stop(Unterminated)
          else Stop(Incomplete)
  {
    hide ChunkSize, FindCrlf, StartsWithCrlf;
    var b := body[offset..];
    if FindCrlf(b).Some? {
      var n := FindCrlf(b).value;
      var start := offset + n + 2;
      assert b[..n] == body[offset..offset + n] && b[n + 2..] == body[start..];
      var size := ChunkSize(b[..n]);
      if size.Some? && start + size.value <= |body| {
        Slices(body, start, size.value);
      }
    }
  }

  lemma {:induction false} Slices(body: seq<byte>, start: nat, size: nat)
    requires start + size <= |body|
    ensures body[start..][..size] == body[start..start + size] && body[start..][size..] == body[start + size..]
    ensures start + size + 2 <= |body| ==> body[start..][size + 2..] == body[start + size + 2..]
    ensures StartsWithCrlf(body[start + size..]) ==> start + size + 2 <= |body|
  {
  }

  /** `decode_chunked_body` */
  method DecodeChunkedBody(body: seq<byte>) returns (r: Decoded)
    ensures r == Chunks(body)
  {
    hide ChunkSize, Trailers, FindCrlf, ReadPiece, Prepend, StartsWithCrlf;
    var decoded: seq<byte> := [];
    var offset := 0;
    assert body[0..] == body;
    PrependNothing(Chunks(body));
    while true
      invariant offset <= |body|
      invariant Chunks(body) == Prepend(decoded, Chunks(body[offset..]))
      decreases |body| - offset
    {
      PieceAt(body, offset);
      PrependFault(decoded);
      match FindCrlf(body[offset..]) {
        case None => return Failed(Incomplete);
        case Some(n) =>
          var parsed := ChunkSize(body[offset..offset + n]);
          if parsed.None? { return Failed(BadSize); }
          var size := parsed.value;
          offset := offset + n + 2;
          if size == 0 {
            var end := DecodeTrailers(body, offset);
            PrependTrailers(decoded, body[offset..]);
            r := if end.Body? then Body(decoded) else end;
            return;
          }
          if |body| < offset + size { return Failed(Incomplete); }
          var data := body[offset..offset + size];
          offset := offset + size;
          if StartsWithCrlf(body[offset..]) {
            CrlfFits(body, offset);
            offset := offset + 2;
            PrependTwice(decoded, data, Chunks(body[offset..]));
          } else if offset < |body| {
            return Failed(Unterminated);
          } else {
            PrependFault(decoded + data);
            NoChunksAtEnd(body);
          }
          decoded := decoded + data;
      }
    }
  }

  lemma {:induction false} CrlfFits(body: seq<byte>, offset: nat)
    requires offset <= |body|
    ensures StartsWithCrlf(body[offset..]) ==> offset + 2 <= |body|
  {
  }

  lemma {:induction false} NoChunksAtEnd(body: seq<byte>)
    ensures body[|body|..] == [] && ReadPiece([]) == Stop(Incomplete)
  {
  }

  lemma {:induction false} PrependFault(data: seq<byte>)
    ensures forall fault :: Prepend(data, Failed(fault)) == Failed(fault)
  {
  }

  lemma {:induction false} PrependTrailers(data: seq<byte>, b: seq<byte>)
    ensures Prepend(data, Trailers(b)) == if Trailers(b).Body? then Body(data) else Trailers(b)
  {
    TrailersCarryNothing(b);
    assert data + [] == data;
  }

  lemma {:induction false} PrependNothing(d: Decoded)
    ensures Prepend([], d) == d
  {
  }

  lemma {:induction false} PrependTwice(a: seq<byte>, b: seq<byte>, d: Decoded)
    ensures Prepend(a, Prepend(b, d)) == Prepend(a + b, d)
  {
    if d.Body? { Assoc(a, b, d.data); }
  }

  lemma {:induction false} TrailersCarryNothing(b: seq<byte>)
    ensures Trailers(b).Body? ==> Trailers(b).data == []
    decreases |b|
  {
    hide Trailer;
    if FindCrlf(b).Some? && FindCrlf(b).value > 0 { TrailersCarryNothing(b[FindCrlf(b).value + 2..]); }
  }

  // ---------------------------------------------------------------- encoding

  /** Some data and a size line for it: any spelling of the size, with or without extensions. */
  datatype Chunk = Chunk(line: seq<byte>, data: seq<byte>) {
    predicate Valid() {
      data != [] && FindCrlf(line) == None && ChunkSize(line) == Some(|data|)
    }
  }

  function EncodeTrailers(trailers: seq<seq<byte>>): seq<byte> {
    if trailers == [] then CRLF else trailers[0] + CRLF + EncodeTrailers(trailers[1..])
  }

  function Encode(chunks: seq<Chunk>, end: seq<byte>): seq<byte> {
    if chunks == [] then end else chunks[0].line + CRLF + (chunks[0].data + CRLF + Encode(chunks[1..], end))
  }

  function Join(chunks: seq<Chunk>): seq<byte> {
    if chunks == [] then [] else chunks[0].data + Join(chunks[1..])
  }

  lemma {:induction false} FindCrlfAfter(line: seq<byte>, rest: seq<byte>)
    requires FindCrlf(line) == None
    ensures FindCrlf(line + CRLF + rest) == Some(|line|)
  {
    var b := line + CRLF + rest;
    if line != [] {
      assert |line| == 1 ==> line[1..] == [];
      FindCrlfAfter(line[1..], rest);
      assert b[1..] == line[1..] + CRLF + rest;
      assert !StartsWithCrlf(b);
    }
  }

  lemma {:induction false} LineParts(line: seq<byte>, rest: seq<byte>)
    ensures var b := line + CRLF + rest; b[..|line|] == line && b[|line| + 2..] == rest
  {
  }

  lemma {:induction false} DecodeTrailersOf(trailers: seq<seq<byte>>)
    requires forall t | t in trailers :: Trailer(t) && FindCrlf(t) == None
    ensures Trailers(EncodeTrailers(trailers)) == Body([])
  {
    hide FindCrlf;
    if trailers == [] {
      FindCrlfAfterNothing();
    } else {
      var t, rest := trailers[0], EncodeTrailers(trailers[1..]);
      NoEmptyTrailer();
      hide Trailer;
      FindCrlfAfter(t, rest);
      LineParts(t, rest);
      DecodeTrailersOf(trailers[1..]);
    }
  }

  lemma {:induction false} FindCrlfAfterNothing()
    ensures FindCrlf(CRLF) == Some(0)
  {
  }

  lemma {:induction false} NoEmptyTrailer()
    ensures !Trailer([])
  {
    assert Find("", ":").None?;
  }

  lemma {:induction false} PieceOf(c: Chunk, rest: seq<byte>)
    requires c.Valid()
    ensures ReadPiece(c.line + CRLF + (c.data + CRLF + rest)) == Data(c.data, rest)
  {
    hide ChunkSize, FindCrlf;
    var tail := c.data + CRLF + rest;
    FindCrlfAfter(c.line, tail);
    LineParts(c.line, tail);
    LineParts(c.data, rest);
    assert tail[|c.data|..] == CRLF + rest;
  }

  /** Decoding undoes every encoding of a list of chunks, with extensions and trailers. */
  lemma {:induction false} ChunkedRoundTrip(chunks: seq<Chunk>, last: seq<byte>, trailers: seq<seq<byte>>)
    requires forall c | c in chunks :: c.Valid()
    requires FindCrlf(last) == None && ChunkSize(last) == Some(0)
    requires forall t | t in trailers :: Trailer(t) && FindCrlf(t) == None
    ensures Chunks(Encode(chunks, last + CRLF + EncodeTrailers(trailers))) == Body(Join(chunks))
  {
    hide ChunkSize, FindCrlf, Trailer, Chunk.Valid;
    var end := last + CRLF + EncodeTrailers(trailers);
    if chunks == [] {
      FindCrlfAfter(last, EncodeTrailers(trailers));
      LineParts(last, EncodeTrailers(trailers));
      DecodeTrailersOf(trailers);
    } else {
      PieceOf(chunks[0], Encode(chunks[1..], end));
      hide ReadPiece;
      ChunkedRoundTrip(chunks[1..], last, trailers);
    }
  }

  /** A hexadecimal size with any extension is a size line. */
  lemma {:induction false} HexSizeLine(n: nat, extension: seq<byte>)
    requires n <= USIZE_MAX && FromUtf8(extension).Some?
    requires extension != [] ==> ";" <= FromUtf8(extension).value
    ensures IsAscii(Numeral(n, 16)) && ChunkSize(Ascii(Numeral(n, 16)) + extension) == Some(n)
    ensures FindCrlf(extension) == None <==> FindCrlf(Ascii(Numeral(n, 16)) + extension) == None
  {
    hide FromUtf8, ParseUint, Trim, Numeral, Ascii, FindCrlf;
    NumeralDigits(n, 16);
    var t := Numeral(n, 16);
    NoBreak(t);
    FindCrlfBehind(Ascii(t), extension);
    AsciiText(t);
    Utf8Concat(Ascii(t), extension);
    var whole := t + FromUtf8(extension).value;
    if extension == [] {
      assert FromUtf8([]) == Some("") by { EmptyUtf8(); }
      assert whole == t;
    }
    BeforeExtension(t, FromUtf8(extension).value);
    TrimCore("", t, "");
    assert "" + t + "" == t;
    NumeralRoundTrip(n, 16, USIZE_MAX);
  }

  lemma {:induction false} NoBreak(t: string)
    requires IsAscii(t) && forall i | 0 <= i < |t| :: !IsSpace(t[i])
    ensures 13 !in Ascii(t)
  {
    forall i | 0 <= i < |t| ensures Ascii(t)[i] != 13 { assert t[i] != '\r'; }
  }

  lemma {:induction false} FindCrlfBehind(a: seq<byte>, b: seq<byte>)
    requires 13 !in a
    ensures FindCrlf(a + b) == None <==> FindCrlf(b) == None
  {
    if a == [] {
      assert a + b == b;
    } else {
      assert (a + b)[1..] == a[1..] + b;
      FindCrlfBehind(a[1..], b);
    }
  }

  lemma {:induction false} EmptyUtf8()
    ensures FromUtf8([]) == Some("")
  {
  }

  lemma {:induction false} BeforeExtension(t: string, e: string)
    requires forall i | 0 <= i < |t| :: t[i] != ';'
    requires e == "" || ";" <= e
    ensures Before(t + e, ';') == t
  {
    forall j: nat | j < |t| ensures !At(t + e, [';'], j) { AtChar(t + e, [';'], j, 0); }
    if e != "" {
      assert At(t + e, [';'], |t|);
      FindIs(t + e, [';'], |t|);
    } else {
      forall j: nat ensures !At(t + e, [';'], j) { AtChar(t + e, [';'], j, 0); }
      assert t + e == t;
    }
  }

  // ---------------------------------------------------------------- prefixes

  lemma {:induction false} FindCrlfConcat(a: seq<byte>, c: seq<byte>)
    requires FindCrlf(a).Some?
    ensures FindCrlf(a + c) == FindCrlf(a)
  {
    if !StartsWithCrlf(a) {
      FindCrlfConcat(a[1..], c);
      assert (a + c)[1..] == a[1..] + c;
    }
  }

  lemma {:induction false} CutConcat(a: seq<byte>, c: seq<byte>, n: nat)
    requires n <= |a|
    ensures (a + c)[..n] == a[..n] && (a + c)[n..] == a[n..] + c
  {
  }

  lemma {:induction false} TrailersConcat(a: seq<byte>, c: seq<byte>)
    requires Trailers(a).Body? && c != []
    ensures Trailers(a + c) == Failed(Leftover)
    decreases |a|
  {
    hide Trailer, FindCrlf;
    FindCrlfConcat(a, c);
    var n := FindCrlf(a).value;
    if n > 0 {
      CutConcat(a, c, n);
      CutConcat(a, c, n + 2);
      TrailersConcat(a[n + 2..], c);
    }
  }

  lemma {:induction false} PieceConcat(a: seq<byte>, c: seq<byte>)
    requires !ReadPiece(a).Stop?
    ensures var p := ReadPiece(a);
      ReadPiece(a + c) == match p case Data(data, rest) => Data(data, rest + c) case Last(rest) => Last(rest + c)
                                  case Stop(_) => p
  {
    hide ChunkSize, FindCrlf;
    FindCrlfConcat(a, c);
    var n := FindCrlf(a).value;
    CutConcat(a, c, n);
    CutConcat(a, c, n + 2);
    var size := ChunkSize(a[..n]).value;
    if size > 0 {
      CutConcat(a[n + 2..], c, size);
      CutConcat(a[n + 2..], c, size + 2);
    }
  }

  /** The accepted bodies are prefix-free: more bytes after an accepted body are always refused as left over. */
  lemma {:induction false} PrefixFree(a: seq<byte>, c: seq<byte>)
    requires Chunks(a).Body? && c != []
    ensures Chunks(a + c) == Failed(Leftover)
    decreases |a|
  {
    hide ReadPiece, Trailers;
    PieceConcat(a, c);
    match ReadPiece(a)
    case Last(rest) => TrailersConcat(rest, c);
    case Data(_, rest) => PrefixFree(rest, c);
    case Stop(_) =>
  }

  /** A trailer line is a header name, a colon, and a value of allowed characters. */
  lemma {:induction false} TrailerMeans(line: seq<byte>, name: string, value: string)
    requires FromUtf8(line) == Some(name + (":" + value)) && ':' !in name
    ensures Trailer(line) <==> HeaderName(Trim(name)) && forall i | 0 <= i < |value| :: FieldChar(value[i])
  {
    hide FromUtf8, Trim, HeaderName, FieldChar;
    var t := name + (":" + value);
    forall j: nat | j < |name| ensures !At(t, ":", j) {
      AtChar(t, ":", j, 0);
      assert t[j] == name[j] && name[j] in name;
    }
    assert At(t, ":", |name|);
    FindIs(t, ":", |name|);
    assert t[..|name|] == name && t[|name| + 1..] == value;
  }

  /** A trailer section is read line by line, and a line that is no trailer fails it. */
  lemma {:induction false} TrailersStep(line: seq<byte>, rest: seq<byte>)
    requires line != [] && FindCrlf(line) == None
    ensures Trailers(line + CRLF + rest) == if Trailer(line) then Trailers(rest) else Failed(BadTrailer)
  {
    hide Trailer, FindCrlf;
    FindCrlfAfter(line, rest);
    LineParts(line, rest);
  }

  /** A size may have blanks around it. */
  lemma {:induction false} SpacedSizeLine(line: seq<byte>, before: string, n: nat, after: string, extension: string)
    requires n <= USIZE_MAX && Blank(before) && Blank(after) && (extension == "" || ";" <= extension)
    requires FromUtf8(line) == Some(before + Numeral(n, 16) + after + extension)
    ensures ChunkSize(line) == Some(n)
  {
    hide FromUtf8, ParseUint, Trim, Numeral;
    NumeralDigits(n, 16);
    var t := Numeral(n, 16);
    var spaced := before + t + after;
    forall i | 0 <= i < |spaced| ensures spaced[i] != ';' {
      assert !IsSpace(';');
      assert i < |before| ==> spaced[i] == before[i];
      assert i >= |before| + |t| ==> spaced[i] == after[i - |before| - |t|];
    }
    BeforeExtension(spaced, extension);
    TrimCore(before, t, after);
    NumeralRoundTrip(n, 16, USIZE_MAX);
  }
}
