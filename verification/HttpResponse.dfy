/**
 Reading an HTTP response piece by piece, after `src/http_probe.rs`: the head is
 parsed by a loop that fills header fields, the body length is chosen as in
 section 6.3 of RFC 9112, and the read loop stops as soon as a body is complete.
 */
module HttpResponse {
  import opened Basics
  import opened Text
  import opened Utf8
  import opened Chunked

  // ---------------------------------------------------------------- header lines

  datatype Field = Field(name: string, value: string)

  function ReadField(line: string): Option<Field> {
    match Find(line, ":")
    case None => None
    case Some(k) =>
      var name, value := Trim(line[..k]), Trim(line[k + 1..]);
      if HeaderName(name) && FieldValue(value) then Some(Field(name, value)) else None
  }

  predicate AllFields(lines: seq<string>) {
    forall i | 0 <= i < |lines| :: ReadField(lines[i]).Some?
  }

  function Fields(lines: seq<string>): (fs: seq<Field>)
    requires AllFields(lines)
    ensures |fs| == |lines|
  {
    if lines == [] then [] else Fields(lines[..|lines| - 1]) + [ReadField(lines[|lines| - 1]).value]
  }

  /** The values of every header with this lower-case name, in order. */
  function Values(fields: seq<Field>, name: string): seq<string> {
    if fields == [] then []
    else
      var last := fields[|fields| - 1];
      Values(fields[..|fields| - 1], name) + (if Lower(last.name) == name then [last.value] else [])
  }

  // ---------------------------------------------------------------- transfer codings

  /** The non-blank, trimmed items of a comma-separated list. */
  function Items(t: string): seq<string>
    decreases |t|
  {
    match Find(t, ",")
    case None => Item(t)
    case Some(k) => Item(t[..k]) + Items(t[k + 1..])
  }

  function Item(t: string): seq<string> {
    if Trim(t) == "" then [] else [Trim(t)]
  }

  predicate OneChunked(coding: string) {
    |Items(coding)| == 1 && Lower(Items(coding)[0]) == "chunked"
  }

  // ---------------------------------------------------------------- the head

  datatype Head = Head(
    headers: seq<Field>, contentType: string, contentLength: Option<nat>, transferEncoding: string)

  function Single(values: seq<string>): string {
    if values == [] then "" else values[|values| - 1]
  }

  const LENGTH := "content-length"
  const CODING := "transfer-encoding"
  const TYPE := "content-type"

  predicate Lengths(values: seq<string>) {
    |values| <= 1 && (values != [] ==> ParseUsize(values[0], 10).Some?)
  }

  function Length(values: seq<string>): Option<nat> {
    if values == [] then None else ParseUsize(values[0], 10)
  }

  /** Which header sections are accepted, said without an order of checks. */
  predicate Acceptable(lines: seq<string>) {
    && AllFields(lines)
    && var fields := Fields(lines);
       var coding := Single(Values(fields, CODING));
       && Lengths(Values(fields, LENGTH))
       && |Values(fields, CODING)| <= 1
       && (coding != "" ==> Values(fields, LENGTH) == [] && OneChunked(coding))
  }

  function HeadOf(lines: seq<string>): Head
    requires AllFields(lines)
  {
    var fields := Fields(lines);
    Head(fields, Single(Values(fields, TYPE)), Length(Values(fields, LENGTH)), Single(Values(fields, CODING)))
  }

  /** What the loop has gathered after some lines. */
  predicate Gathered(lines: seq<string>, h: Head, codingSeen: bool) {
    && AllFields(lines)
    && var fields := Fields(lines);
       && Lengths(Values(fields, LENGTH)) && |Values(fields, CODING)| <= 1
       && h == HeadOf(lines) && codingSeen == (Values(fields, CODING) != [])
  }

  lemma {:induction false} GatherOne(lines: seq<string>, line: string)
    requires AllFields(lines)
    ensures AllFields(lines + [line]) <==> ReadField(line).Some?
    ensures ReadField(line).Some? ==>
      var f := ReadField(line).value;
      var was, now := Fields(lines), Fields(lines + [line]);
      && now == was + [f]
      && forall name :: Values(now, name) == Values(was, name) + (if Lower(f.name) == name then [f.value] else [])
  {
    hide ReadField, Lower;
    var more := lines + [line];
    assert more[..|more| - 1] == lines && more[|more| - 1] == line;
    assert AllFields(more) ==> ReadField(more[|more| - 1]).Some?;
    assert forall i | 0 <= i < |lines| :: more[i] == lines[i];
    if ReadField(line).Some? {
      var f := ReadField(line).value;
      var was, now := Fields(lines), Fields(more);
      assert now == was + [f];
      assert now[..|now| - 1] == was && now[|now| - 1] == f;
    }
  }

  /** Some line or repetition is refused, whatever follows. */
  predicate Refused(lines: seq<string>) {
    || !AllFields(lines)
    || !Lengths(Values(Fields(lines), LENGTH))
    || |Values(Fields(lines), CODING)| > 1
  }

  lemma {:induction false} RefusedMore(lines: seq<string>, line: string)
    requires Refused(lines)
    ensures Refused(lines + [line])
  {
    hide ReadField, ParseUsize, Lower, Fields, Values;
    if !AllFields(lines) {
      var i :| 0 <= i < |lines| && ReadField(lines[i]).None?;
      assert (lines + [line])[i] == lines[i];
    } else {
      GatherOne(lines, line);
    }
  }

  lemma {:induction false} RefusedStays(lines: seq<string>, k: nat)
    requires k <= |lines| && Refused(lines[..k])
    ensures Refused(lines)
    decreases |lines| - k
  {
    hide Refused;
    if k == |lines| {
      assert lines[..k] == lines;
    } else {
      assert lines[..k + 1] == lines[..k] + [lines[k]];
      RefusedMore(lines[..k], lines[k]);
      RefusedStays(lines, k + 1);
    }
  }

  lemma {:induction false} RefusedOrNot(lines: seq<string>)
    ensures Acceptable(lines) <==>
      && !Refused(lines)
      && var h := HeadOf(lines);
         h.transferEncoding != "" ==> h.contentLength.None? && OneChunked(h.transferEncoding)
  {
    hide OneChunked, ReadField, Fields, Values, ParseUsize;
  }

  /** What one more line does to what has been gathered. */
  lemma {:induction false} GatherStep(lines: seq<string>, line: string, h: Head, codingSeen: bool)
    requires Gathered(lines, h, codingSeen)
    ensures match ReadField(line)
      case None => Refused(lines + [line])
      case Some(f) =>
        var headers, name, value := h.headers + [f], Lower(f.name), f.value;
        if name == TYPE then Gathered(lines + [line], h.(headers := headers, contentType := value), codingSeen)
        else if name == LENGTH then
          if ParseUsize(value, 10).None? || h.contentLength.Some? then Refused(lines + [line])
          else Gathered(lines + [line], h.(headers := headers, contentLength := ParseUsize(value, 10)), codingSeen)
        else if name == CODING then
          if codingSeen then Refused(lines + [line])
          else Gathered(lines + [line], h.(headers := headers, transferEncoding := value), true)
        else Gathered(lines + [line], h.(headers := headers), codingSeen)
  {
    hide ReadField, Lower, ParseUsize, Fields, Values;
    GatherOne(lines, line);
    if ReadField(line).Some? {
      var f := ReadField(line).value;
      var was, now := Fields(lines), Fields(lines + [line]);
      assert Values(now, TYPE) == Values(was, TYPE) + (if Lower(f.name) == TYPE then [f.value] else []);
      assert Values(now, LENGTH) == Values(was, LENGTH) + (if Lower(f.name) == LENGTH then [f.value] else []);
      assert Values(now, CODING) == Values(was, CODING) + (if Lower(f.name) == CODING then [f.value] else []);
    }
  }

  lemma {:induction false} GatheredAll(lines: seq<string>, h: Head, codingSeen: bool)
    requires Gathered(lines, h, codingSeen)
    ensures !Refused(lines) && HeadOf(lines) == h
  {
    hide ReadField, Fields, Values, ParseUsize;
  }

  lemma {:induction false} GatheredNone()
    ensures Gathered([], Head([], "", None, ""), false)
  {
  }

  /** The header loop of `parse_response`: it fills the fields line by line and checks the codings at the end. */
  method ParseHeaders(lines: seq<string>) returns (r: Option<Head>)
    ensures r == if Acceptable(lines) then Some(HeadOf(lines)) else None
  {
    hide ReadField, OneChunked, Lower, ParseUsize, Acceptable, Gathered, Refused, Fields, Values, HeadOf;
    var headers: seq<Field>, contentType, transferEncoding := [], "", "";
    var contentLength: Option<nat>, codingSeen := None, false;
    GatheredNone();
    assert lines[..0] == [];
    RefusedOrNot(lines);
    for i := 0 to |lines|
      invariant Gathered(lines[..i], Head(headers, contentType, contentLength, transferEncoding), codingSeen)
    {
      assert lines[..i + 1] == lines[..i] + [lines[i]];
      GatherStep(lines[..i], lines[i], Head(headers, contentType, contentLength, transferEncoding), codingSeen);
      if Refused(lines[..i + 1]) { RefusedStays(lines, i + 1); }
      var field := ReadField(lines[i]);
      if field.None? { return None; }
      var name, value := Lower(field.value.name), field.value.value;
      if name == TYPE {
        contentType := value;
      } else if name == LENGTH {
        var parsed := ParseUsize(value, 10);
        if parsed.None? || contentLength.Some? { return None; }
        contentLength := parsed;
      } else if name == CODING {
        if codingSeen { return None; }
        codingSeen := true;
        transferEncoding := value;
      }
      headers := headers + [field.value];
    }
    assert lines[..|lines|] == lines;
    GatheredAll(lines, Head(headers, contentType, contentLength, transferEncoding), codingSeen);
    if contentLength.Some? && transferEncoding != "" { return None; }
    if transferEncoding != "" && !OneChunked(transferEncoding) { return None; }
    return Some(Head(headers, contentType, contentLength, transferEncoding));
  }

  // ---------------------------------------------------------------- the whole response

  function SplitCrlf(t: string): (lines: seq<string>)
    ensures lines != []
    decreases |t|
  {
    match Find(t, "\r\n")
    case None => [t]
    case Some(k) => [t[..k]] + SplitCrlf(t[k + 2..])
  }

  /** The length of the word that `t` starts with. */
  function WordLen(t: string): (n: nat)
    ensures n <= |t|
  {
    if t == "" || IsSpace(t[0]) then 0 else 1 + WordLen(t[1..])
  }

  function Status(line: string): Option<nat> {
    if exists i | 0 <= i < |line| :: line[i] == '\n' || line[i] == '\r' || line[i] == '\0' then None
    else
      var t := TrimStart(line);
      var version := t[..WordLen(t)];
      var u := TrimStart(t[WordLen(t)..]);
      match ParseUsize(u[..WordLen(u)], 10)
      case None => None
      case Some(status) =>
        if 100 <= status <= 599 && (version == "HTTP/1.0" || version == "HTTP/1.1") then Some(status) else None
  }

  /** Offset of the first blank line, where the head ends. */
  function FindBlank(b: seq<byte>): (r: Option<nat>)
    ensures r.Some? ==> r.value + 4 <= |b|
  {
    if |b| < 4 then None
    else if StartsWithCrlf(b) && StartsWithCrlf(b[2..]) then Some(0)
    else match FindBlank(b[1..])
      case Some(n) => Some(n + 1)
      case None => None
  }

  datatype Response = Response(status: nat, head: Head, body: seq<byte>)

  function ParseHead(head: seq<byte>, body: seq<byte>): Option<Response> {
    match FromUtf8(head)
    case None => None
    case Some(text) =>
      var lines := SplitCrlf(text);
      match Status(lines[0])
      case None => None
      case Some(status) =>
        if Acceptable(lines[1..]) then Some(Response(status, HeadOf(lines[1..]), body)) else None
  }

  /** `parse_response` of text given as its bytes */
  function ParseResponse(raw: seq<byte>): Option<Response> {
    match FindBlank(raw)
    case None => None
    case Some(n) => ParseHead(raw[..n], raw[n + 4..])
  }

  predicate Contains(t: string, part: string) {
    Find(Lower(t), part).Some?
  }

  /** `body_bytes` */
  function BodyBytes(r: Response): Decoded {
    if Contains(r.head.transferEncoding, "chunked") then Chunks(r.body)
    else match r.head.contentLength
      case Some(n) => if |r.body| < n then Failed(Incomplete) else Body(r.body[..n])
      case None => Body(r.body)
  }

  function BodyOf(raw: seq<byte>): Decoded {
    match ParseResponse(raw)
    case Some(r) => BodyBytes(r)
    case None => Failed(Incomplete)
  }

  /** The head says where the body ends. */
  predicate Framed(raw: seq<byte>) {
    match ParseResponse(raw)
    case Some(r) => r.head.transferEncoding != "" || r.head.contentLength.Some?
    case None => false
  }

  // ---------------------------------------------------------------- the choice of framing

  lemma {:induction false} LowerPart(t: string, part: string, k: nat)
    requires At(t, part, k)
    ensures At(Lower(t), Lower(part), k)
  {
    var low := Lower(t);
    forall i | 0 <= i < |part| ensures low[k + i] == Lower(part)[i] {
      LowerAt(t, k + i);
      LowerAt(part, i);
      assert t[k..k + |part|][i] == part[i];
    }
    assert low[k..k + |part|] == Lower(part);
  }

  lemma {:induction false} ItemPart(t: string, item: string) returns (k: nat)
    requires item in Items(t)
    ensures At(t, item, k)
    decreases |t|
  {
    hide Trim, Find, IsSpace;
    match Find(t, ",") {
      case None =>
        var before, after := TrimSplit(t);
        k := |before|;
      case Some(n) =>
        if item in Item(t[..n]) {
          var before, after := TrimSplit(t[..n]);
          k := |before|;
          assert t[..n] == t[0..n];
          AtSlice(t, item, 0, n, k);
        } else {
          var m := ItemPart(t[n + 1..], item);
          k := n + 1 + m;
          assert t[n + 1..] == t[n + 1..|t|];
          AtSlice(t, item, n + 1, |t|, m);
        }
    }
  }

  /** The parser and the body reader agree on which responses are chunked. */
  lemma {:induction false} ChunkedIffCoded(raw: seq<byte>)
    requires ParseResponse(raw).Some?
    ensures var h := ParseResponse(raw).value.head;
      && (Contains(h.transferEncoding, "chunked") <==> h.transferEncoding != "")
      && !(h.transferEncoding != "" && h.contentLength.Some?)
  {
    var n := FindBlank(raw).value;
    var lines := SplitCrlf(FromUtf8(raw[..n]).value)[1..];
    RefusedOrNot(lines);
    hide Acceptable, Refused, HeadOf, FindBlank, FromUtf8, SplitCrlf, Status;
    CodedIsChunked(HeadOf(lines).transferEncoding);
  }

  lemma {:induction false} CodedIsChunked(coding: string)
    requires coding != "" ==> OneChunked(coding)
    ensures Contains(coding, "chunked") <==> coding != ""
  {
    if coding != "" {
      var item := Items(coding)[0];
      var k := ItemPart(coding, item);
      LowerPart(coding, item, k);
    }
  }

  // ---------------------------------------------------------------- longer prefixes

  lemma {:induction false} FindBlankConcat(a: seq<byte>, c: seq<byte>)
    requires FindBlank(a).Some?
    ensures FindBlank(a + c) == FindBlank(a)
  {
    assert (a + c)[2..] == a[2..] + c && (a + c)[1..] == a[1..] + c;
    if !(StartsWithCrlf(a) && StartsWithCrlf(a[2..])) { FindBlankConcat(a[1..], c); }
  }

  /** More bytes leave a complete head alone and go to the body. */
  lemma {:induction false} ParseMore(p: seq<byte>, c: seq<byte>)
    requires ParseResponse(p).Some?
    ensures ParseResponse(p + c) == Some(ParseResponse(p).value.(body := ParseResponse(p).value.body + c))
  {
    FindBlankConcat(p, c);
    var n := FindBlank(p).value;
    CutConcat(p, c, n);
    CutConcat(p, c, n + 4);
    hide FindBlank, Acceptable, HeadOf, FromUtf8, SplitCrlf, Status;
  }

  /** Of one stream, any two prefixes that yield a body yield the same body. */
  lemma {:induction false} SameBody(p: seq<byte>, c: seq<byte>)
    requires Framed(p) && BodyOf(p).Body? && BodyOf(p + c).Body?
    ensures BodyOf(p + c) == BodyOf(p)
  {
    ParseMore(p, c);
    ChunkedIffCoded(p);
    hide ParseResponse, Contains, Chunks;
    var r := ParseResponse(p).value;
    if Contains(r.head.transferEncoding, "chunked") {
      if c != [] { PrefixFree(r.body, c); } else { assert r.body + c == r.body; }
    } else {
      CutConcat(r.body, c, r.head.contentLength.value);
    }
  }

  // ---------------------------------------------------------------- the read loop

  /** `generic_http_body_ready` after `parse_response`; `events` and `json` judge event streams and unframed bodies. */
  predicate Ready(raw: seq<byte>, events: seq<byte> -> bool, json: seq<byte> -> bool) {
    match ParseResponse(raw)
    case None => false
    case Some(r) =>
      if Contains(r.head.contentType, "text/event-stream") then
        BodyBytes(r).Body? && FromUtf8(BodyBytes(r).data).Some? && events(BodyBytes(r).data)
      else if Contains(r.head.transferEncoding, "chunked") then BodyBytes(r).Body?
      else if r.head.contentLength.Some? then |r.body| >= r.head.contentLength.value
      else json(r.body)
  }

  datatype Received = Got(raw: seq<byte>) | TooLarge | TimedOut | NotText | ReadFailed

  /** How the reads end: the peer closes, a read times out, the deadline passes between reads, or a read fails. */
  datatype Ending = Closed | Stalled | Expired | Broken

  function AtEnd(raw: seq<byte>): Received {
    if FromUtf8(raw).Some? then Got(raw) else NotText
  }

  predicate Done(raw: seq<byte>, ready: seq<byte> -> bool) {
    FromUtf8(raw).Some? && ready(raw)
  }

  function Ended(raw: seq<byte>, ending: Ending, ready: seq<byte> -> bool): Received {
    match ending
    case Closed => AtEnd(raw)
    case Stalled => if Done(raw, ready) then Got(raw) else TimedOut
    case Expired => TimedOut
    case Broken => ReadFailed
  }

  /** What the loop returns from here: after `raw`, the stream delivers `pieces` and then ends. */
  function Receive(raw: seq<byte>, pieces: seq<seq<byte>>, ending: Ending, max: nat, ready: seq<byte> -> bool): Received
    decreases |pieces|
  {
    if pieces == [] then
      Ended(raw, ending, ready)
    else if pieces[0] == [] then AtEnd(raw)
    else if |raw + pieces[0]| > max then TooLarge
    else if Done(raw + pieces[0], ready) then Got(raw + pieces[0])
    else Receive(raw + pieces[0], pieces[1..], ending, max, ready)
  }

  /** `read_response_until` */
  method ReadResponseUntil(pieces: seq<seq<byte>>, ending: Ending, max: nat, ready: seq<byte> -> bool)
    returns (r: Received)
    ensures r == Receive([], pieces, ending, max, ready)
  {
    hide FromUtf8;
    var raw: seq<byte> := [];
    assert pieces[0..] == pieces;
    for i := 0 to |pieces|
      invariant Receive([], pieces, ending, max, ready) == Receive(raw, pieces[i..], ending, max, ready)
    {
      assert pieces[i..][1..] == pieces[i + 1..];
      if pieces[i] == [] { return AtEnd(raw); }
      raw := raw + pieces[i];
      if |raw| > max { return TooLarge; }
      if Done(raw, ready) { return Got(raw); }
    }
    return Ended(raw, ending, ready);
  }

  function Flatten(pieces: seq<seq<byte>>): seq<byte> {
    if pieces == [] then [] else pieces[0] + Flatten(pieces[1..])
  }

  /** Whatever is returned is a prefix of what arrives. */
  lemma {:induction false} ReceivesPrefix(
    raw: seq<byte>, pieces: seq<seq<byte>>, ending: Ending, max: nat, ready: seq<byte> -> bool)
    requires Receive(raw, pieces, ending, max, ready).Got?
    ensures Receive(raw, pieces, ending, max, ready).raw <= raw + Flatten(pieces)
    decreases |pieces|
  {
    hide FromUtf8;
    if pieces != [] {
      Assoc(raw, pieces[0], Flatten(pieces[1..]));
      if pieces[0] != [] && !Done(raw + pieces[0], ready) {
        ReceivesPrefix(raw + pieces[0], pieces[1..], ending, max, ready);
      }
    }
  }

  lemma {:induction false} Comparable(p: seq<byte>, q: seq<byte>, stream: seq<byte>)
    requires p <= stream && q <= stream && |p| <= |q|
    ensures q == p + q[|p|..]
  {
    assert p == stream[..|p|] && q == stream[..|q|];
    assert q[..|p|] == p;
  }

  /** Two ways of cutting one stream into reads give the same body, if both give one. */
  lemma {:induction false} FragmentationIndependent(
    stream: seq<byte>, a: seq<seq<byte>>, b: seq<seq<byte>>, endingA: Ending, endingB: Ending, max: nat,
    ready: seq<byte> -> bool)
    requires Flatten(a) <= stream && Flatten(b) <= stream
    requires Receive([], a, endingA, max, ready).Got? && Receive([], b, endingB, max, ready).Got?
    ensures var p, q := Receive([], a, endingA, max, ready).raw, Receive([], b, endingB, max, ready).raw;
      (Framed(p) || Framed(q)) && BodyOf(p).Body? && BodyOf(q).Body? ==> BodyOf(p) == BodyOf(q)
  {
    var p, q := Receive([], a, endingA, max, ready).raw, Receive([], b, endingB, max, ready).raw;
    ReceivesPrefix([], a, endingA, max, ready);
    ReceivesPrefix([], b, endingB, max, ready);
    assert [] + Flatten(a) == Flatten(a) && [] + Flatten(b) == Flatten(b);
    hide Receive, Flatten;
    if |p| <= |q| {
      Comparable(p, q, stream);
      PrefixBody(p, q[|p|..]);
    } else {
      Comparable(q, p, stream);
      PrefixBody(q, p[|q|..]);
    }
  }

  lemma {:induction false} PrefixBody(p: seq<byte>, c: seq<byte>)
    ensures (Framed(p) || Framed(p + c)) && BodyOf(p).Body? && BodyOf(p + c).Body? ==> BodyOf(p + c) == BodyOf(p)
  {
    hide ParseResponse, BodyBytes;
    if BodyOf(p).Body? && BodyOf(p + c).Body? {
      ParseMore(p, c);
      if Framed(p) { SameBody(p, c); }
    }
  }

  // ---------------------------------------------------------------- a complete stream

  /** A framed response that is not an event stream is ready exactly when its body is complete. */
  lemma {:induction false} ReadyIffBody(raw: seq<byte>, events: seq<byte> -> bool, json: seq<byte> -> bool)
    requires Framed(raw) && !Contains(ParseResponse(raw).value.head.contentType, "text/event-stream")
    ensures Ready(raw, events, json) <==> BodyOf(raw).Body?
  {
    hide ParseResponse, Chunks, Contains;
    ChunkedIffCoded(raw);
  }

  /**
   Every way of cutting a complete framed response into reads returns its body,
   however the reads would end after it.
   */
  lemma {:induction false} EveryCutYieldsTheBody(
    raw: seq<byte>, pieces: seq<seq<byte>>, ending: Ending, max: nat, events: seq<byte> -> bool,
    json: seq<byte> -> bool)
    requires pieces == [] ==> ending.Closed?
    requires forall i | 0 <= i < |pieces| :: pieces[i] != []
    requires var stream := raw + Flatten(pieces);
      && |stream| <= max && FromUtf8(stream).Some? && Framed(stream) && BodyOf(stream).Body?
      && !Contains(ParseResponse(stream).value.head.contentType, "text/event-stream")
    ensures var r := Receive(raw, pieces, ending, max, (b: seq<byte>) => Ready(b, events, json));
      r.Got? && BodyOf(r.raw) == BodyOf(raw + Flatten(pieces))
    decreases |pieces|
  {
    hide Framed, BodyOf, Ready, FromUtf8, ParseResponse, Contains;
    var ready := (b: seq<byte>) => Ready(b, events, json);
    if pieces == [] {
      assert raw + Flatten(pieces) == raw;
    } else {
      var now, rest := raw + pieces[0], Flatten(pieces[1..]);
      Assoc(raw, pieces[0], rest);
      ReadyIffBody(raw + Flatten(pieces), events, json);
      assert pieces[1..] == [] ==> raw + Flatten(pieces) == now;
      if Done(now, ready) {
        ReadyHasBody(now, rest, events, json);
      } else {
        EveryCutYieldsTheBody(now, pieces[1..], ending, max, events, json);
      }
    }
  }

  lemma {:induction false} ReadyHasBody(p: seq<byte>, c: seq<byte>, events: seq<byte> -> bool, json: seq<byte> -> bool)
    requires Ready(p, events, json) && Framed(p + c) && BodyOf(p + c).Body?
    requires !Contains(ParseResponse(p + c).value.head.contentType, "text/event-stream")
    ensures BodyOf(p) == BodyOf(p + c)
  {
    hide ParseResponse, BodyBytes, Contains;
    ParseMore(p, c);
    ReadyIffBody(p, events, json);
    SameBody(p, c);
  }
}
