/**
 The reader of `src/codex_config.rs`: the stdio commands of the MCP servers a
 TOML config declares, found by one pass over its lines. Written with the
 printer of `src/config_edit.rs`, any list of servers is read back in order.
 */
module CodexConfig {
  import opened Text
  import opened Toml
  import opened TomlEdit
  import opened TomlFrame
  import opened TomlBlock

  datatype Command = Command(server: string, command: string)

  // ---------------------------------------------------------------- the reader

  /** `parse_toml_string_assignment` */
  function ParseAssignment(line: string, key: string): Option<string> {
    match Find(line, "=")
    case None => None
    case Some(i) =>
      if Trim(line[..i]) != key then None else ParseLiteral(Trim(line[i + 1..]))
  }

  const TABLES := "mcp_servers."

  /** `parse_mcp_servers_table_name` */
  function ParseTableName(line: string): Option<string> {
    if |line| < 2 || line[0] != '[' || line[|line| - 1] != ']' then None
    else
      var inner := Trim(line[1..|line| - 1]);
      if !(TABLES <= inner) then None
      else
        var name := Trim(inner[|TABLES|..]);
        match ParseLiteral(name)
        case Some(v) => Some(v)
        case None => if IsBareKey(name) then Some(name) else None
  }

  /** `push_mcp_server_command` */
  function Pushed(server: Option<string>, command: Option<string>): seq<Command> {
    if server.Some? && command.Some? && Trim(command.value) != "" then [Command(server.value, command.value)] else []
  }

  /** What reading the lines of `t` adds, given the server and command read so far. */
  function Read(t: string, server: Option<string>, command: Option<string>): seq<Command>
    decreases |t|
  {
    if t == "" then Pushed(server, command)
    else if IsHeader(FirstLine(t)) then
      Pushed(server, command) + Read(Rest(t), ParseTableName(FirstLine(t)), None)
    else
      Read(Rest(t), server,
           if server.Some? && command.None? then ParseAssignment(FirstLine(t), "command") else command)
  }

  /** `mcp_server_commands`: one pass updating the current server and command. */
  method McpServerCommands(contents: string) returns (commands: seq<Command>)
    ensures commands == Read(contents, None, None)
  {
    hide TrimTomlLine, IsHeader, ParseTableName, ParseAssignment, LineLen, Pushed;
    commands := [];
    var server: Option<string>, command: Option<string> := None, None;
    var offset := 0;
    assert contents[0..] == contents;
    while offset < |contents|
      invariant 0 <= offset <= |contents|
      invariant commands + Read(contents[offset..], server, command) == Read(contents, None, None)
    {
      var t := contents[offset..];
      var n := LineLen(t);
      var line := StripTomlLine(t[..n]);
      assert Rest(t) == contents[offset + n..];
      if IsHeader(line) {
        commands := commands + Pushed(server, command);
        server, command := ParseTableName(line), None;
      } else if server.Some? && command.None? {
        command := ParseAssignment(line, "command");
      }
      offset := offset + n;
    }
    commands := commands + Pushed(server, command);
  }

  // ---------------------------------------------------------------- the writer

  /** What may follow the value on a line: blanks, a comment, the line's end. */
  datatype Trailer = Trailer(gap: string, comment: string, ending: string) {
    predicate Valid() {
      && Blank(gap) && !HasNewline(gap)
      && (comment == "" || "#" <= comment) && !HasNewline(comment)
      && IsNewline(ending)
    }

    function Text(): string { gap + comment + ending }
  }

  /** One server: its name and command, the trailers of both lines, and any further lines of its table. */
  datatype Entry = Entry(server: string, command: string, afterHeader: Trailer, afterCommand: Trailer, more: string) {
    predicate Valid() {
      && Printable(server) && Printable(command)
      && afterHeader.Valid() && afterCommand.Valid()
      && Complete(more) && HeaderAt(more) == None
    }

    function Text(): string {
      TableHeader(TableKey(server)) + afterHeader.Text() + CommandLine(command) + afterCommand.Text() + more
    }
  }

  function CommandLine(command: string): string { "command = " + BasicString(command) }

  function Print(entries: seq<Entry>): string {
    if entries == [] then "" else entries[0].Text() + Print(entries[1..])
  }

  /** The servers whose command is more than blanks. */
  function Commands(entries: seq<Entry>): seq<Command> {
    if entries == [] then []
    else
      (if Blank(entries[0].command) then [] else [Command(entries[0].server, entries[0].command)])
      + Commands(entries[1..])
  }

  // ---------------------------------------------------------------- the round trip

  /** A line with a trailer is one line, and stripping leaves its body. */
  lemma {:induction false} PrintedLine(body: string, trailer: Trailer, rest: string)
    requires trailer.Valid() && !HasNewline(body)
    requires Tight(body) && body != ""
    requires CommentIndex(body, Plain) == |body| && ScanTo(body, Plain) == Plain
    ensures var t := body + trailer.Text() + rest;
      t != "" && FirstLine(t) == body && Rest(t) == rest
  {
    hide TrimTomlLine, CommentIndex, ScanTo, LineLen;
    var line := body + trailer.Text();
    var start := body + trailer.gap + trailer.comment;
    assert line == start + trailer.ending;
    LineWithNewline(start, trailer.ending);
    LineLenConcat(line, rest);
    assert (line + rest)[..|line|] == line && (line + rest)[|line|..] == rest;
    assert Blank(trailer.ending);
    StripTrailer(body, trailer.gap, trailer.comment, trailer.ending);
    assert body + trailer.gap + trailer.comment + trailer.ending == line;
  }

  /** A printed table name is read back, with any blanks around it and around the dotted name. */
  lemma {:induction false} SpacedKeyRead(name: string, before: string, gap: string, after: string)
    requires Printable(name) && Blank(before) && Blank(gap) && Blank(after)
    ensures ParseTableName("[" + (before + (TABLES + (gap + TableKey(name))) + after) + "]") == Some(name)
  {
    hide ParseLiteral, Trim, Printable, TableKey, IsBareKey, Blank;
    var key := TableKey(name);
    var dotted := TABLES + (gap + key);
    var line := "[" + (before + dotted + after) + "]";
    KeyTight(name);
    assert line[1..|line| - 1] == before + dotted + after;
    assert Tight(dotted) by { assert dotted[0] == TABLES[0] && dotted[|dotted| - 1] == key[|key| - 1]; TablesTight(); }
    TrimCore(before, dotted, after);
    assert dotted[|TABLES|..] == gap + key;
    TrimCore(gap, key, "");
    assert gap + key + "" == gap + key;
    LiteralOrBare(name);
  }

  lemma {:induction false} TablesTight()
    ensures !IsSpace(TABLES[0])
  {
  }

  lemma {:induction false} KeyRead(name: string)
    requires Printable(name)
    ensures ParseTableName(TableHeader(TableKey(name))) == Some(name)
  {
    hide ParseTableName, Printable, TableKey;
    SpacedKeyRead(name, "", "", "");
    assert "" + (TABLES + ("" + TableKey(name))) + "" == TABLES + TableKey(name);
    assert "[" + (TABLES + TableKey(name)) + "]" == TableHeader(TableKey(name));
  }

  lemma {:induction false} KeyTight(name: string)
    ensures var key := TableKey(name);
      && key != "" && Tight(key) && Tight(TABLES + key) && (IsBareKey(name) ==> key == name)
  {
    hide Escape;
    if IsBareKey(name) { BareIsPlain(name); }
  }

  lemma {:induction false} LiteralOrBare(name: string)
    requires Printable(name)
    ensures ParseLiteral(TableKey(name)) == if IsBareKey(name) then None else Some(name)
  {
    hide Printable, QuotedEnd, JsonUnescape;
    if !IsBareKey(name) {
      LiteralRoundTrip(name, "");
      assert BasicString(name) + "" == BasicString(name);
    } else {
      assert IsBareChar(name[0]);
    }
  }

  lemma {:induction false} CommandLineShape(command: string)
    ensures var line := CommandLine(command);
      && !HasNewline(line) && Tight(line) && line != ""
      && CommentIndex(line, Plain) == |line| && ScanTo(line, Plain) == Plain
      && !IsHeader(line)
  {
    hide CommentIndex, ScanTo, Escape;
    EscapeNoNewline(command);
    var line := CommandLine(command);
    assert PlainText("command = ");
    PlainScan("command = ", BasicString(command));
    BasicStringScan(command, "");
    assert BasicString(command) + "" == BasicString(command);
    assert CommentIndex("", Plain) == 0 && ScanTo("", Plain) == Plain by { ScanOfNothing(); }
    assert line[0] == 'c' && line[|line| - 1] == '"';
  }

  lemma {:induction false} ScanOfNothing()
    ensures CommentIndex("", Plain) == 0 && ScanTo("", Plain) == Plain
  {
  }

  lemma {:induction false} CommandRead(command: string)
    requires Printable(command)
    ensures ParseAssignment(CommandLine(command), "command") == Some(command)
  {
    hide ParseLiteral, Trim, Printable, Escape;
    var line := CommandLine(command);
    assert line[8] == '=' && line[..8] == "command ";
    forall j: nat | j < 8 ensures !At(line, "=", j) { AtChar(line, "=", j, 0); }
    assert At(line, "=", 8);
    FindIs(line, "=", 8);
    TrimCore("", "command", " ");
    assert "" + "command" + " " == "command ";
    var value := BasicString(command);
    TrimCore(" ", value, "");
    assert " " + value + "" == line[9..];
    LiteralRoundTrip(command, "");
    assert value + "" == value;
  }

  /** Lines without a header change nothing once a command is known. */
  lemma {:induction false} SkipMore(more: string, rest: string, server: Option<string>, command: string)
    requires Complete(more) && HeaderAt(more) == None
    ensures Read(more + rest, server, Some(command)) == Read(rest, server, Some(command))
    decreases |more|
  {
    hide TrimTomlLine, IsHeader, ParseTableName, ParseAssignment, Pushed;
    if more == "" {
      assert more + rest == rest;
    } else {
      LineLenConcat(more, rest);
      var n := LineLen(more);
      assert (more + rest)[..n] == more[..n] && (more + rest)[n..] == more[n..] + rest;
      CompleteRest(more);
      SkipMore(Rest(more), rest, server, command);
    }
  }

  lemma {:induction false} CompleteRest(t: string)
    requires Complete(t)
    ensures Complete(Rest(t))
  {
  }

  /** Reading one printed entry leaves its server and command to be pushed next. */
  lemma {:induction false} EntryRead(e: Entry, rest: string, server: Option<string>, command: Option<string>)
    requires e.Valid()
    ensures Read(e.Text() + rest, server, command)
         == Pushed(server, command) + Read(rest, Some(e.server), Some(e.command))
  {
    hide TrimTomlLine, CommentIndex, ScanTo, LineLen, ParseTableName, ParseAssignment, Printable, HeaderAt,
         TableHeader, CommandLine, Pushed, FirstLine, Rest;
    var header := TableHeader(TableKey(e.server));
    var tail := CommandLine(e.command) + e.afterCommand.Text() + (e.more + rest);
    assert e.Text() + rest == header + e.afterHeader.Text() + tail;
    HeaderScan(e.server);
    HeaderHasNoNewline(e.server);
    PrintedLine(header, e.afterHeader, tail);
    KeyRead(e.server);
    CommandLineShape(e.command);
    PrintedLine(CommandLine(e.command), e.afterCommand, e.more + rest);
    CommandRead(e.command);
    SkipMore(e.more, rest, Some(e.server), e.command);
  }

  /** Reading a printed list pushes what was pending, then every entry in order. */
  lemma {:induction false} ReadPrint(entries: seq<Entry>, server: Option<string>, command: Option<string>)
    requires forall e | e in entries :: e.Valid()
    ensures Read(Print(entries), server, command) == Pushed(server, command) + Commands(entries)
  {
    hide Entry.Valid, Entry.Text, Pushed;
    if entries != [] {
      var e := entries[0];
      EntryRead(e, Print(entries[1..]), server, command);
      ReadPrint(entries[1..], Some(e.server), Some(e.command));
      PushedEntry(e);
    }
  }

  lemma {:induction false} PushedEntry(e: Entry)
    requires e.Valid()
    ensures Pushed(Some(e.server), Some(e.command)) ==
      if Blank(e.command) then [] else [Command(e.server, e.command)]
  {
    hide Trim, Printable;
    TrimBlank(e.command);
  }

  /** The reader undoes the printer. */
  lemma {:induction false} RoundTrip(entries: seq<Entry>)
    requires forall e | e in entries :: e.Valid()
    ensures Read(Print(entries), None, None) == Commands(entries)
  {
    ReadPrint(entries, None, None);
  }
}
