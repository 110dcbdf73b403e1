/**
 The managed-block editor of `src/config_edit.rs` for TOML client configs. It
 finds MCPace's block (or its bare table) in arbitrary user text by scanning
 lines, and splices a new block in. Slicing out of order aborts the Rust
 program; the model says so with a result of its own.
 */
module TomlEdit {
  import opened Text
  import opened Toml

  const MANAGED := "MCPACE MANAGED BLOCK: "
  const BEGIN_TAIL := " BEGIN " + MANAGED
  const END_TAIL := " END " + MANAGED

  function BeginMarker(key: string): string { "#" + BEGIN_TAIL + key }
  function EndMarker(key: string): string { "#" + END_TAIL + key }

  predicate IsBareChar(c: char) {
    'a' <= c <= 'z' || 'A' <= c <= 'Z' || '0' <= c <= '9' || c == '-' || c == '_'
  }

  predicate IsBareKey(key: string) {
    key != "" && forall i | 0 <= i < |key| :: IsBareChar(key[i])
  }

  function TableHeader(name: string): string { "[mcp_servers." + name + "]" }

  /** `table_header_candidates` */
  predicate IsOwn(header: string, key: string) {
    || (IsBareKey(key) && header == TableHeader(key))
    || header == TableHeader(BasicString(key))
  }

  predicate IsForeign(header: string, key: string) {
    IsHeader(header) && !IsOwn(header, key)
  }

  // ---------------------------------------------------------------- what a text holds

  function FirstLine(t: string): string { TrimTomlLine(t[..LineLen(t)]) }

  function Rest(t: string): (r: string)
    ensures t != "" ==> |r| < |t|
  {
    t[LineLen(t)..]
  }

  /** The foreign table headers of a text, in order. */
  function Foreign(t: string, key: string): seq<string> {
    if t == "" then []
    else (if IsForeign(FirstLine(t), key) then [FirstLine(t)] else []) + Foreign(Rest(t), key)
  }

  function Shift(k: Option<nat>, n: nat): Option<nat> {
    match k
    case Some(v) => Some(n + v)
    case None => None
  }

  /** Offset of the first line of `t` that is a table header. */
  function HeaderAt(t: string): (r: Option<nat>)
    ensures r.Some? ==> r.value < |t|
  {
    if t == "" then None
    else if IsHeader(FirstLine(t)) then Some(0)
    else Shift(HeaderAt(Rest(t)), LineLen(t))
  }

  /** Offset of the first line of `t` that is MCPace's own header. */
  function OwnAt(t: string, key: string): (r: Option<nat>)
    ensures r.Some? ==> r.value < |t|
  {
    if t == "" then None
    else if IsOwn(FirstLine(t), key) then Some(0)
    else Shift(OwnAt(Rest(t), key), LineLen(t))
  }

  /** End of the section whose header is the first line of `t`. */
  function SectionEnd(t: string): (n: nat)
    ensures n <= |t| && (t != "" ==> 0 < n)
  {
    Shift(HeaderAt(Rest(t)), LineLen(t)).Or(|t|)
  }

  /** Start and end of MCPace's own table in `t`: from its header to the next header. */
  function LocateTable(t: string, key: string): (r: Option<(nat, nat)>)
    ensures r.Some? ==> r.value.0 < r.value.1 <= |t|
  {
    match OwnAt(t, key)
    case Some(i) => Some((i, i + SectionEnd(t[i..])))
    case None => None
  }

  /** The foreign sections of a text, each from its header up to the next header, byte for byte. */
  function ForeignSections(t: string, key: string): seq<string>
    decreases |t|
  {
    match HeaderAt(t)
    case None => []
    case Some(i) =>
      var body := t[i..];
      var n := SectionEnd(body);
      (if IsOwn(FirstLine(body), key) then [] else [body[..n]]) + ForeignSections(body[n..], key)
  }

  // ---------------------------------------------------------------- the editor

  datatype EditError = MissingEnd | Overwide

  datatype Span =
    | Exact(start: nat, end: nat)
    | Recover(beginLineStart: nat, beginLineEnd: nat, tableStart: nat, tableEnd: nat,
              endLineStart: nat, endLineEnd: nat, preserve: bool)

  datatype Located = Abort | Failed(error: EditError) | NotThere | Found(span: Span)

  datatype Applied = Aborted | Rejected(error: EditError) | Updated(contents: string, replaced: bool)

  /** `locate_toml_managed_block` */
  function Locate(s: string, key: string): (r: Located) {
    match Find(s, BeginMarker(key))
    case None => NotThere
    case Some(m) =>
      match Find(s[m..], EndMarker(key))
      case None => Failed(MissingEnd)
      case Some(k) => LocateBetween(s, key, m, m + k)
  }

  /** The part of the locator that runs once both markers are known, at `m` and `e`. */
  function LocateBetween(s: string, key: string, m: nat, e: nat): (r: Located)
    requires At(s, BeginMarker(key), m) && At(s, EndMarker(key), e)
  {
    var a := m + |BeginMarker(key)|;
    var beginLineStart := LineStart(s, m);
    var beginLineEnd := LineEndAfter(s, a);
    var endLineStart := LineStart(s, e);
    var endLineEnd := LineEndAfter(s, e + |EndMarker(key)|);
    if e < a then Abort
    else if Foreign(s[a..e], key) == [] then Found(Exact(beginLineStart, endLineEnd))
    else match LocateTable(s[a..e], key)
      case None => Failed(Overwide)
      case Some((i, j)) =>
        if a + i < beginLineEnd then Abort
        else Found(Recover(beginLineStart, beginLineEnd, a + i, a + j, endLineStart, endLineEnd,
                           Foreign(s[beginLineEnd..a + i], key) != []))
  }

  /** `apply_toml_managed_block_update` */
  function Splice(s: string, block: string, span: Span): (r: Option<string>) {
    match span
    case Exact(start, end) =>
      if start <= |s| && end <= |s| then Some(s[..start] + block + s[end..]) else None
    case Recover(bls, ble, ts, te, els, ele, preserve) =>
      if bls <= |s| && ble <= ts <= |s| && te <= els <= |s| && ele <= |s| then
        Some(s[..bls] + (if preserve then s[ble..ts] else "") + block + s[te..els] + s[ele..])
      else None
  }

  function DetectNewline(s: string): string {
    if Find(s, "\r\n").Some? then "\r\n" else "\n"
  }

  predicate EndsWith(s: string, tail: string) {
    |tail| <= |s| && s[|s| - |tail|..] == tail
  }

  /** The text the editor pushes before an appended block. */
  function Padding(s: string): string {
    var newline := DetectNewline(s);
    if s == "" then ""
    else
      var first := if EndsWith(s, "\n") then "" else newline;
      first + (if EndsWith(s + first, newline + newline) then "" else newline)
  }

  /** `apply_toml_mcp_server_block` */
  function Apply(s: string, key: string, block: string): (r: Applied) {
    match Locate(s, key)
    case Abort => Aborted
    case Failed(error) => Rejected(error)
    case Found(span) =>
      (match Splice(s, block, span)
       case Some(contents) => Updated(contents, true)
       case None => Aborted)
    case NotThere =>
      match LocateTable(s, key)
      case Some((start, end)) => Updated(s[..start] + block + s[end..], true)
      case None => Updated(s + Padding(s) + block, false)
  }

  /** `remove_toml_mcp_server_block` */
  function Remove(s: string, key: string): (r: Applied) {
    match Locate(s, key)
    case Abort => Aborted
    case Failed(error) => Rejected(error)
    case NotThere => Updated(s, false)
    case Found(span) =>
      match Splice(s, "", span)
      case Some(contents) => Updated(contents, true)
      case None => Aborted
  }

  /** `format_toml_table_key` */
  function TableKey(key: string): string {
    if IsBareKey(key) then key else BasicString(key)
  }

  const NOTE_TEXT := " This block " + "is managed by " + "`mcpace advanced " + "client install`."
  const NOTE := "#" + NOTE_TEXT
  const ENABLED := "enabled = true"
  const TIMEOUT := "startup_timeout_sec = 20"

  /** `build_toml_mcp_server_block` */
  function Block(key: string, url: string, newline: string): string {
    BeginMarker(key) + newline + NOTE + newline + TableHeader(TableKey(key)) + newline
    + "url = " + BasicString(url) + newline + ENABLED + newline + TIMEOUT + newline
    + EndMarker(key) + newline
  }

  /** What `mcpace advanced client install` writes over a config `s`. */
  function Install(s: string, key: string, url: string): Applied {
    Apply(s, key, Block(key, url, DetectNewline(s)))
  }

  // ---------------------------------------------------------------- the scanning loops

  /** `range_has_foreign_toml_header`: a pass over the lines of a range. */
  method RangeHasForeignHeader(s: string, rangeStart: nat, rangeEnd: nat, key: string) returns (any: bool)
    requires rangeStart <= rangeEnd <= |s|
    ensures any <==> Foreign(s[rangeStart..rangeEnd], key) != []
  {
    hide TrimTomlLine, IsOwn, IsHeader, LineLen, Foreign;
    var range := s[rangeStart..rangeEnd];
    var offset := 0;
    assert range[0..] == range;
    while offset < |range|
      invariant 0 <= offset <= |range|
      invariant Foreign(range, key) == Foreign(range[offset..], key)
    {
      var n := LineLen(range[offset..]);
      var trimmed := StripTomlLine(range[offset..][..n]);
      ForeignStep(range, offset, key);
      if IsHeader(trimmed) && !IsOwn(trimmed, key) {
        return true;
      }
      offset := offset + n;
    }
    ForeignStep(range, offset, key);
    return false;
  }

  lemma {:induction false} ForeignStep(range: string, offset: nat, key: string)
    requires offset <= |range|
    ensures offset == |range| ==> Foreign(range[offset..], key) == []
    ensures offset < |range| ==>
      var n := LineLen(range[offset..]);
      var line := TrimTomlLine(range[offset..][..n]);
      if IsForeign(line, key) then Foreign(range[offset..], key) != []
      else Foreign(range[offset..], key) == Foreign(range[offset + n..], key)
  {
    hide TrimTomlLine, IsForeign, LineLen;
    if offset < |range| {
      var n := LineLen(range[offset..]);
      assert Rest(range[offset..]) == range[offset + n..];
      assert [] + Foreign(range[offset + n..], key) == Foreign(range[offset + n..], key);
    }
  }

  /** What the line at `offset` tells a scan over `range`. */
  lemma {:induction false} ScanStep(range: string, offset: nat, key: string)
    requires offset <= |range|
    ensures offset == |range| ==> OwnAt(range[offset..], key) == None == HeaderAt(range[offset..])
    ensures offset < |range| ==>
      var n := LineLen(range[offset..]);
      var line := TrimTomlLine(range[offset..][..n]);
      && OwnAt(range[offset..], key) ==
         (if IsOwn(line, key) then Some(0) else Shift(OwnAt(range[offset + n..], key), n))
      && HeaderAt(range[offset..]) ==
         (if IsHeader(line) then Some(0) else Shift(HeaderAt(range[offset + n..]), n))
      && SectionEnd(range[offset..]) == Shift(HeaderAt(range[offset + n..]), n).Or(|range| - offset)
  {
    hide TrimTomlLine, IsOwn, IsHeader;
    var n := LineLen(range[offset..]);
    assert offset < |range| ==> Rest(range[offset..]) == range[offset + n..];
  }

  /** `locate_toml_mcp_servers_table_block_in_range`: one pass with `start` and `offset`. */
  method LocateTableInRange(s: string, key: string, rangeStart: nat, rangeEnd: nat)
    returns (r: Option<(nat, nat)>)
    requires rangeStart <= rangeEnd <= |s|
    ensures r == match LocateTable(s[rangeStart..rangeEnd], key)
                 case Some((i, j)) => Some((rangeStart + i, rangeStart + j))
                 case None => None
  {
    hide TrimTomlLine, IsOwn, IsHeader, LineLen, OwnAt, HeaderAt, SectionEnd;
    var range := s[rangeStart..rangeEnd];
    assert range[0..] == range;
    var start: Option<nat> := None;
    var offset := 0;
    while offset < |range|
      invariant 0 <= offset <= |range|
      invariant start.None? ==> OwnAt(range, key) == Shift(OwnAt(range[offset..], key), offset)
      invariant start.Some? ==> start.value < offset && OwnAt(range, key) == start
      invariant start.Some? ==>
        start.value + SectionEnd(range[start.value..]) == Shift(HeaderAt(range[offset..]), offset).Or(|range|)
    {
      var n := LineLen(range[offset..]);
      var trimmed := StripTomlLine(range[offset..][..n]);
      ScanStep(range, offset, key);
      if start.None? {
        if IsOwn(trimmed, key) {
          start := Some(offset);
        }
      } else if IsHeader(trimmed) {
        return Some((rangeStart + start.value, rangeStart + offset));
      }
      offset := offset + n;
    }
    ScanStep(range, offset, key);
    match start {
      case Some(v) => return Some((rangeStart + v, rangeEnd));
      case None => return None;
    }
  }
}
