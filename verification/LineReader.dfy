/**
 The bounded line reader that `src/mcp_server.rs` and `src/dashboard.rs` share
 in shape: it fills a line from a buffered reader whose buffers may end
 anywhere.
 */
module LineReader {
  import opened Basics
  import opened Utf8

  const NEWLINE: byte := 10

  datatype Outcome = Eof | Line | TooLong

  /** A buffered reader over the bytes not yet consumed. */
  class Reader {
    var rest: seq<byte>

    constructor (bytes: seq<byte>)
      ensures rest == bytes
    {
      rest := bytes;
    }

    /** `fill_buf`: some of what is left, and nothing only at the end. */
    method FillBuf() returns (available: seq<byte>)
      ensures available <= rest && (rest != [] ==> available != [])
    {
      var n: nat :| n <= |rest| && (rest != [] ==> n > 0);
      available := rest[..n];
    }

    method Consume(n: nat)
      requires n <= |rest|
      modifies this
      ensures rest == old(rest)[n..]
    {
      rest := rest[n..];
    }
  }

  // ---------------------------------------------------------------- the simple splitter

  /** The length of the first line, its newline included. */
  function LineLength(b: seq<byte>): (n: nat)
    ensures n <= |b| && (b != [] ==> n > 0)
  {
    if b == [] then 0 else if b[0] == NEWLINE then 1 else 1 + LineLength(b[1..])
  }

  /** How many bytes one read takes: a line, or one byte more than the limit. */
  function Taken(b: seq<byte>, max: nat): (n: nat)
    ensures n <= |b|
  {
    Min(LineLength(b), max + 1)
  }

  function OutcomeOf(b: seq<byte>, max: nat): Outcome {
    if b == [] then Eof else if LineLength(b) <= max then Line else TooLong
  }

  /** The first line of `b` starts with the whole of a prefix that holds no newline. */
  lemma {:induction false} LineLengthOver(a: seq<byte>, b: seq<byte>)
    requires NEWLINE !in a
    ensures LineLength(a + b) == |a| + LineLength(b)
  {
    if a == [] {
      assert a + b == b;
    } else {
      LineLengthOver(a[1..], b);
      assert (a + b)[1..] == a[1..] + b;
    }
  }

  lemma {:induction false} LineLengthFacts(b: seq<byte>)
    ensures var n := LineLength(b);
      && (forall i | 0 <= i < n - 1 :: b[i] != NEWLINE)
      && (n < |b| ==> b[n - 1] == NEWLINE)
      && (n > 0 && b[n - 1] != NEWLINE ==> n == |b|)
  {
    if b != [] && b[0] != NEWLINE { LineLengthFacts(b[1..]); }
  }

  /** What a buffer shows of the first line. */
  lemma {:induction false} LineLengthInPrefix(a: seq<byte>, b: seq<byte>)
    requires a <= b && a != []
    ensures var n := LineLength(a); if NEWLINE in a[..n] then LineLength(b) == n else n == |a| && NEWLINE !in a
  {
    LineLengthFacts(a);
    var n := LineLength(a);
    if NEWLINE in a[..n] {
      assert a[n - 1] == NEWLINE;
      LineEndsAt(b, n, a[..n - 1]);
    }
  }

  lemma {:induction false} LineEndsAt(b: seq<byte>, n: nat, front: seq<byte>)
    requires 0 < n <= |b| && front == b[..n - 1] && NEWLINE !in front && b[n - 1] == NEWLINE
    ensures LineLength(b) == n
  {
    assert b == front + b[n - 1..];
    LineLengthOver(front, b[n - 1..]);
  }

  // ---------------------------------------------------------------- the reader

  /** `read_bounded_stdio_line`: whatever the buffers are, it takes what the splitter says. */
  method ReadBoundedLine(reader: Reader, max: nat) returns (outcome: Outcome, line: seq<byte>)
    modifies reader
    ensures outcome == OutcomeOf(old(reader.rest), max)
    ensures line == old(reader.rest)[..Taken(old(reader.rest), max)]
    ensures reader.rest == old(reader.rest)[Taken(old(reader.rest), max)..]
  {
    ghost var stream := reader.rest;
    line := [];
    while true
      invariant stream == line + reader.rest
      invariant |line| <= max && NEWLINE !in line
      decreases |reader.rest|
    {
      LineLengthOver(line, reader.rest);
      var available := reader.FillBuf();
      if available == [] {
        assert line == stream;
        return if line == [] then Eof else Line, line;
      }
      LineLengthInPrefix(available, reader.rest);
      var untilNewline := LineLength(available);
      var takeLen := Min(untilNewline, max + 1 - |line|);
      // The source's last check, for a turn without progress, never fires.
      assert takeLen > 0;
      var newlineSeen := takeLen == untilNewline && NEWLINE in available[..takeLen];
      ghost var before := line;
      line := line + available[..takeLen];
      Advance(stream, before, reader.rest, available, takeLen);
      reader.Consume(takeLen);
      if |line| > max {
        LongLine(before, available, takeLen, stream, max);
        return TooLong, line;
      }
      if newlineSeen {
        return Line, line;
      }
    }
  }

  lemma {:induction false} Advance(stream: seq<byte>, line: seq<byte>, rest: seq<byte>, available: seq<byte>, n: nat)
    requires stream == line + rest && available <= rest && n <= |available|
    ensures stream == line + available[..n] + rest[n..]
    ensures stream[..|line| + n] == line + available[..n] && stream[|line| + n..] == rest[n..]
  {
    assert available[..n] == rest[..n];
  }

  lemma {:induction false} LongLine(line: seq<byte>, available: seq<byte>, n: nat, stream: seq<byte>, max: nat)
    requires line + available <= stream && NEWLINE !in line && n <= LineLength(available) && |line| + n == max + 1
    ensures LineLength(stream) > max
  {
    LineLengthFacts(available);
    LineLengthFacts(stream);
    var m := LineLength(stream);
    assert forall i | 0 <= i < max :: stream[i] == (line + available)[i];
    assert forall i | 0 <= i < max :: stream[i] != NEWLINE;
  }

  // ---------------------------------------------------------------- repeated calls

  /** The lines that repeated calls return, up to the end or the first one that is too long. */
  function Pieces(b: seq<byte>, max: nat): seq<seq<byte>> {
    if b == [] then []
    else if LineLength(b) > max then [b[..Taken(b, max)]]
    else [b[..LineLength(b)]] + Pieces(b[LineLength(b)..], max)
  }

  /** What they leave unread. */
  function Unread(b: seq<byte>, max: nat): seq<byte> {
    if b == [] then []
    else if LineLength(b) > max then b[Taken(b, max)..]
    else Unread(b[LineLength(b)..], max)
  }

  function Glue(pieces: seq<seq<byte>>): seq<byte> {
    if pieces == [] then [] else pieces[0] + Glue(pieces[1..])
  }

  method ReadLines(reader: Reader, max: nat) returns (lines: seq<seq<byte>>, tooLong: bool)
    modifies reader
    ensures lines == Pieces(old(reader.rest), max) && reader.rest == Unread(old(reader.rest), max)
    ensures tooLong <==> lines != [] && |lines[|lines| - 1]| > max
  {
    hide LineLength, Pieces, Unread;
    ghost var stream := reader.rest;
    lines := [];
    while true
      invariant Pieces(stream, max) == lines + Pieces(reader.rest, max)
      invariant Unread(stream, max) == Unread(reader.rest, max)
      invariant lines != [] ==> |lines[|lines| - 1]| <= max
      decreases |reader.rest|
    {
      PiecesStep(reader.rest, max);
      var outcome, line := ReadBoundedLine(reader, max);
      if outcome.Eof? { return lines, false; }
      lines := lines + [line];
      if outcome.TooLong? { return lines, true; }
    }
  }

  lemma {:induction false} PiecesStep(b: seq<byte>, max: nat)
    ensures var line, rest := b[..Taken(b, max)], b[Taken(b, max)..];
      match OutcomeOf(b, max)
      case Eof => Pieces(b, max) == [] && Unread(b, max) == []
      case Line => Pieces(b, max) == [line] + Pieces(rest, max) && Unread(b, max) == Unread(rest, max) &&
          0 < |line| <= max
      case TooLong => Pieces(b, max) == [line] && Unread(b, max) == rest && |line| == max + 1
  {
  }

  /** Repeated calls rebuild the stream up to the first line that is too long. */
  lemma {:induction false} PiecesRebuild(b: seq<byte>, max: nat)
    ensures Glue(Pieces(b, max)) + Unread(b, max) == b
    decreases |b|
  {
    hide LineLength;
    if b != [] {
      var n := LineLength(b);
      if n <= max {
        PiecesRebuild(b[n..], max);
        assert b == b[..n] + b[n..];
        assert Pieces(b, max)[1..] == Pieces(b[n..], max);
        Assoc(b[..n], Glue(Pieces(b[n..], max)), Unread(b[n..], max));
      } else {
        assert Glue([b[..max + 1]]) == b[..max + 1];
      }
    }
  }

  /** Every piece but the last is one whole line within the limit; only the last may be too long. */
  lemma {:induction false} PieceIsLine(b: seq<byte>, max: nat, i: nat)
    requires i < |Pieces(b, max)|
    ensures var line := Pieces(b, max)[i];
      && LineLength(line) == |line| > 0
      && (i < |Pieces(b, max)| - 1 ==> |line| <= max && line[|line| - 1] == NEWLINE)
      && (|line| > max ==> |line| == max + 1 && i == |Pieces(b, max)| - 1)
      && (i == |Pieces(b, max)| - 1 && |line| <= max ==> Unread(b, max) == [])
    decreases |b|
  {
    var n := LineLength(b);
    LineLengthFacts(b);
    FirstLineAlone(b, Taken(b, max));
    hide LineLength;
    if n <= max {
      var rest := b[n..];
      assert Pieces(b, max)[0] == b[..n] && Pieces(b, max)[1..] == Pieces(rest, max);
      if i > 0 { PieceIsLine(rest, max, i - 1); }
    }
  }

  lemma {:induction false} FirstLineAlone(b: seq<byte>, k: nat)
    requires k <= LineLength(b)
    ensures LineLength(b[..k]) == k
  {
    if k > 0 && b[0] != NEWLINE {
      FirstLineAlone(b[1..], k - 1);
      assert b[..k][1..] == b[1..][..k - 1];
    }
  }
}
