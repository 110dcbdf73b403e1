/**
 The YAML editor of `src/config_edit.rs`: it replaces its managed block, or its
 own entry of the `mcp_servers` section, or adds one, by scanning lines.
 */
module Yaml {
  import opened Text
  import opened Toml
  import opened TomlEdit

  // ---------------------------------------------------------------- lines

  function TrimBreaks(s: string): (r: string)
    ensures |r| <= |s|
  {
    if s != "" && (s[|s| - 1] == '\r' || s[|s| - 1] == '\n') then TrimBreaks(s[..|s| - 1]) else s
  }

  function Unquoted(t: string): string {
    if |t| >= 2 && t[0] == '"' && t[|t| - 1] == '"' then t[1..|t| - 1]
    else if |t| >= 2 && t[0] == '\'' && t[|t| - 1] == '\'' then t[1..|t| - 1]
    else t
  }

  datatype Mapping = Mapping(indent: nat, key: string)

  /** `read_yaml_mapping_key` */
  function MappingKey(line: string): Option<Mapping> {
    var text := TrimBreaks(line);
    var content := TrimStart(text);
    if Trim(text) == "" || "#" <= content || "-" <= content then None
    else match Find(content, ":")
      case None => None
      case Some(k) =>
        var key := Trim(content[..k]);
        if key == "" then None else Some(Mapping(|text| - |content|, Unquoted(key)))
  }

  predicate IsTop(line: string) {
    MappingKey(line).Some? && MappingKey(line).value.indent == 0
  }

  predicate IsTopKey(line: string, key: string) {
    IsTop(line) && MappingKey(line).value.key == key
  }

  predicate IsEntry(line: string, key: string) {
    MappingKey(line).Some? && MappingKey(line).value.indent > 0 && MappingKey(line).value.key == key
  }

  predicate IsAt(line: string, indent: nat) {
    MappingKey(line).Some? && MappingKey(line).value.indent == indent
  }

  function TopKey(key: string): string -> bool { l => IsTopKey(l, key) }
  function TopLine(): string -> bool { l => IsTop(l) }
  function EntryKey(key: string): string -> bool { l => IsEntry(l, key) }
  function AtIndent(indent: nat): string -> bool { l => IsAt(l, indent) }

  /** Offset of the first line of `t` that satisfies `p`. */
  function LineWhere(t: string, p: string -> bool): (r: Option<nat>)
    ensures r.Some? ==> r.value < |t|
  {
    if t == "" then None
    else if p(t[..LineLen(t)]) then Some(0)
    else Shift(LineWhere(t[LineLen(t)..], p), LineLen(t))
  }

  lemma {:induction false} LineWhereCut(t: string, p: string -> bool)
    requires LineWhere(t, p).Some?
    ensures Complete(t[..LineWhere(t, p).value])
  {
    var n := LineLen(t);
    LineLenFacts(t);
    if !p(t[..n]) {
      LineWhereCut(t[n..], p);
      var i := LineWhere(t[n..], p).value;
      hide LineLen, LineWhere;
      CompleteJoin(t, n, i);
    }
  }

  lemma {:induction false} CompleteJoin(t: string, n: nat, i: nat)
    requires 0 < n <= |t| && i <= |t| - n && Complete(t[..n]) && Complete(t[n..][..i])
    ensures Complete(t[..n + i])
  {
    Cuts(t, n, n + i);
    assert i > 0 ==> t[n..][..i][i - 1] == t[..n + i][n + i - 1];
    assert i == 0 ==> t[..n + i] == t[..n];
  }

  // ---------------------------------------------------------------- sections and entries

  datatype Section = Section(start: nat, body: nat, end: nat)

  /** The end of what starts with the first line of `t`: the next line with `p`, or the end. */
  function EndBy(t: string, p: string -> bool): (n: nat)
    ensures n <= |t| && (t != "" ==> 0 < n)
  {
    Shift(LineWhere(t[LineLen(t)..], p), LineLen(t)).Or(|t|)
  }

  /** `locate_yaml_top_level_section` */
  function TopSection(s: string, key: string): (r: Option<Section>)
    ensures r.Some? ==> r.value.start < r.value.body <= r.value.end <= |s|
  {
    match LineWhere(s, TopKey(key))
    case None => None
    case Some(i) => Some(Section(i, i + LineLen(s[i..]), AfterLine(s, i, TopLine())))
  }

  function AfterLine(s: string, i: nat, p: string -> bool): (n: nat)
    requires i < |s|
    ensures i + LineLen(s[i..]) <= n <= |s|
  {
    i + EndBy(s[i..], p)
  }

  /** `locate_yaml_section_entry` within the section's text */
  function SectionEntry(t: string, key: string): (r: Option<(nat, nat)>)
    ensures r.Some? ==> r.value.0 < r.value.1 <= |t|
  {
    match LineWhere(t, EntryKey(key))
    case None => None
    case Some(i) =>
      var indent := IndentAt(t, i);
      Some((i, AfterLine(t, i, AtIndent(indent))))
  }

  // ---------------------------------------------------------------- the block

  const SECTION_LINE := "mcp_servers:"

  /** `build_yaml_mcp_servers_entry_block` */
  function Block(key: string, url: string, newline: string): string {
    "  " + BeginMarker(key) + newline + "  " + key + ":" + newline + "    url: " + BasicString(url) + newline
    + "    enabled: true" + newline + "    timeout: 120" + newline + "    connect_timeout: 60" + newline
    + "  " + EndMarker(key) + newline
  }

  datatype Place = NoPlace | NoEnd | Place(start: nat, end: nat)

  /** `locate_managed_block` */
  function Managed(s: string, key: string): (r: Place)
    ensures r.Place? ==> r.start <= r.end <= |s|
  {
    match Find(s, BeginMarker(key))
    case None => NoPlace
    case Some(m) =>
      match Find(s[m..], EndMarker(key))
      case None => NoEnd
      case Some(k) =>
        var end := m + k + |EndMarker(key)|;
        Place(LineStart(s, m), end + BreakLen(s[end..]))
  }

  /** The line break a text starts with. */
  function BreakLen(t: string): (n: nat)
    ensures n <= |t|
  {
    if "\r\n" <= t then 2 else if "\n" <= t then 1 else 0
  }

  datatype Edited = EndMissing | Edited(contents: string, replaced: bool)

  /** What the editor keeps before and after its block. */
  datatype Kept = Kept(pre: string, post: string, replaced: bool)

  function Pieces(s: string, key: string): Option<Kept> {
    match Managed(s, key)
    case NoEnd => None
    case Place(start, end) => Some(Kept(s[..start], s[end..], true))
    case NoPlace =>
      match TopSection(s, "mcp_servers")
      case None => Some(Kept(s + Padding(s) + SECTION_LINE + DetectNewline(s), "", false))
      case Some(section) =>
        match SectionEntry(s[section.body..section.end], key)
        case Some((i, j)) => Some(Kept(s[..section.body + i], s[section.body + j..], true))
        case None =>
          var open := section.end > section.start && !EndsWith(s[..section.end], "\n");
          Some(Kept(s[..section.end] + (if open then DetectNewline(s) else ""), s[section.end..], false))
  }

  /** `apply_yaml_mcp_server_entry` */
  function Apply(s: string, key: string, url: string): Edited {
    match Pieces(s, key)
    case None => EndMissing
    case Some(kept) => Edited(kept.pre + (Block(key, url, DetectNewline(s)) + kept.post), kept.replaced)
  }

  // ---------------------------------------------------------------- the scanning loops

  lemma {:induction false} WhereStep(s: string, offset: nat, p: string -> bool)
    requires offset <= |s|
    ensures offset == |s| ==> LineWhere(s[offset..], p).None?
    ensures offset < |s| ==>
      var n := LineLen(s[offset..]);
      LineWhere(s[offset..], p) ==
      if p(s[offset..offset + n]) then Some(0) else Shift(LineWhere(s[offset + n..], p), n)
    ensures offset < |s| ==>
      EndBy(s[offset..], p) ==
      Shift(LineWhere(s[offset + LineLen(s[offset..])..], p), LineLen(s[offset..])).Or(|s| - offset)
  {
    if offset < |s| {
      var t, n := s[offset..], LineLen(s[offset..]);
      assert t[..n] == s[offset..offset + n] && t[n..] == s[offset + n..];
    }
  }

  /** What one line tells the search for a section. */
  lemma {:induction false} TopStep(s: string, offset: nat, key: string)
    requires offset < |s|
    ensures var n := LineLen(s[offset..]);
      var line := s[offset..offset + n];
      && LineWhere(s[offset..], TopKey(key)) ==
         (if IsTopKey(line, key) then Some(0) else Shift(LineWhere(s[offset + n..], TopKey(key)), n))
      && LineWhere(s[offset..], TopLine()) ==
         (if IsTop(line) then Some(0) else Shift(LineWhere(s[offset + n..], TopLine()), n))
      && EndBy(s[offset..], TopLine()) == Shift(LineWhere(s[offset + n..], TopLine()), n).Or(|s| - offset)
  {
    hide MappingKey, LineWhere, EndBy, LineLen, IsTop, IsTopKey;
    WhereStep(s, offset, TopKey(key));
    WhereStep(s, offset, TopLine());
  }

  /** One pass with `start`, `bodyStart` and `offset`. */
  method LocateTopSection(s: string, key: string) returns (r: Option<Section>)
    ensures r == TopSection(s, key)
  {
    hide LineWhere, EndBy, LineLen, IsTop, IsTopKey, TopKey, TopLine;
    var start: Option<nat>, bodyStart, offset := None, 0, 0;
    assert s[0..] == s;
    while offset < |s|
      invariant 0 <= offset <= |s|
      invariant start.None? ==> LineWhere(s, TopKey(key)) == Shift(LineWhere(s[offset..], TopKey(key)), offset)
      invariant start.Some? ==> start.value < offset && LineWhere(s, TopKey(key)) == start
      invariant start.Some? ==> bodyStart == start.value + LineLen(s[start.value..])
      invariant start.Some? ==>
        start.value + EndBy(s[start.value..], TopLine()) == Shift(LineWhere(s[offset..], TopLine()), offset).Or(|s|)
    {
      var n := LineLen(s[offset..]);
      var line := s[offset..offset + n];
      TopStep(s, offset, key);
      if start.None? {
        if IsTopKey(line, key) { start, bodyStart := Some(offset), offset + n; }
      } else if IsTop(line) {
        return Some(Section(start.value, bodyStart, offset));
      }
      offset := offset + n;
    }
    WhereStep(s, offset, TopKey(key));
    WhereStep(s, offset, TopLine());
    return match start case Some(v) => Some(Section(v, bodyStart, |s|)) case None => None;
  }

  /** What the loop over a section knows at `offset` once the entry has started. */
  ghost predicate InEntry(t: string, start: nat, indent: nat, offset: nat)
    requires start <= |t| && offset <= |t|
  {
    && start < offset && IndentAt(t, start) == indent
    && start + EndBy(t[start..], AtIndent(indent)) == Shift(LineWhere(t[offset..], AtIndent(indent)), offset).Or(|t|)
  }

  lemma {:induction false} EntryStarts(t: string, offset: nat, key: string)
    requires offset < |t|
    ensures var n := LineLen(t[offset..]);
      var mapping := MappingKey(t[offset..offset + n]);
      if mapping.Some? && mapping.value.indent > 0 && mapping.value.key == key
      then LineWhere(t[offset..], EntryKey(key)) == Some(0) && InEntry(t, offset, mapping.value.indent, offset + n)
      else LineWhere(t[offset..], EntryKey(key)) == Shift(LineWhere(t[offset + n..], EntryKey(key)), n)
  {
    hide MappingKey, LineWhere, EndBy, LineLen;
    var n := LineLen(t[offset..]);
    var line := t[offset..offset + n];
    assert t[offset..][..n] == line;
    WhereStep(t, offset, EntryKey(key));
    var mapping := MappingKey(line);
    if mapping.Some? { WhereStep(t, offset, AtIndent(mapping.value.indent)); }
  }

  lemma {:induction false} EntryGoesOn(t: string, start: nat, indent: nat, offset: nat)
    requires offset < |t| && start < offset && InEntry(t, start, indent, offset)
    ensures var n := LineLen(t[offset..]);
      var mapping := MappingKey(t[offset..offset + n]);
      if mapping.Some? && mapping.value.indent == indent
      then start + EndBy(t[start..], AtIndent(indent)) == offset
      else InEntry(t, start, indent, offset + n)
  {
    hide MappingKey, LineWhere, EndBy, LineLen;
    WhereStep(t, offset, AtIndent(indent));
  }

  /** One pass over the section with `start`, `entryIndent` and `offset`. */
  method LocateSectionEntry(s: string, bodyStart: nat, end: nat, key: string) returns (r: Option<(nat, nat)>)
    requires bodyStart <= end <= |s|
    ensures r == match SectionEntry(s[bodyStart..end], key)
                 case Some((i, j)) => Some((bodyStart + i, bodyStart + j))
                 case None => None
  {
    hide MappingKey, LineWhere, EndBy, LineLen, InEntry, EntryKey, AtIndent, IndentAt;
    var t := s[bodyStart..end];
    var start: Option<nat>, entryIndent: nat, offset: nat := None, 0, 0;
    assert t[0..] == t;
    while offset < |t|
      invariant 0 <= offset <= |t|
      invariant start.None? ==> LineWhere(t, EntryKey(key)) == Shift(LineWhere(t[offset..], EntryKey(key)), offset)
      invariant start.Some? ==> start.value < offset && LineWhere(t, EntryKey(key)) == start
      invariant start.Some? ==> InEntry(t, start.value, entryIndent, offset)
    {
      var n := LineLen(t[offset..]);
      var mapping := MappingKey(t[offset..offset + n]);
      if start.None? {
        EntryStarts(t, offset, key);
        if mapping.Some? && mapping.value.indent > 0 && mapping.value.key == key {
          start, entryIndent := Some(offset), mapping.value.indent;
        }
      } else {
        EntryGoesOn(t, start.value, entryIndent, offset);
        if mapping.Some? && mapping.value.indent == entryIndent {
          EntryIndent(t, start.value, entryIndent, offset);
          return Some((bodyStart + start.value, bodyStart + offset));
        }
      }
      offset := offset + n;
    }
    WhereStep(t, offset, EntryKey(key));
    WhereStep(t, offset, AtIndent(entryIndent));
    if start.Some? {
      EntryIndent(t, start.value, entryIndent, offset);
      return Some((bodyStart + start.value, end));
    }
    return None;
  }

  lemma {:induction false} EntryIndent(t: string, start: nat, indent: nat, offset: nat)
    requires offset <= |t| && start < offset && InEntry(t, start, indent, offset)
    ensures IndentAt(t, start) == indent
    ensures start + EndBy(t[start..], AtIndent(indent)) ==
      Shift(LineWhere(t[offset..], AtIndent(indent)), offset).Or(|t|)
  {
    hide LineWhere, EndBy, AtIndent, IndentAt;
  }

  /** The indent of the mapping line at an offset. */
  function IndentAt(t: string, i: nat): nat
    requires i <= |t|
  {
    match MappingKey(t[i..][..LineLen(t[i..])])
    case Some(mapping) => mapping.indent
    case None => 0
  }
}
