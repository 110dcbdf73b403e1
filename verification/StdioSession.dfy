/**
 The stdio session of `src/mcp_server.rs` and `src/mcp_protocol.rs`: one turn
 per line, over JSON-RPC 2.0 envelopes (sections 4 and 5) and the MCP
 lifecycle. Every turn names the arm of the loop it took.
 */
module StdioSession {
  import opened Basics
  import opened Text

  datatype Id = Text(text: string) | Number(text: string) | Null | Other

  datatype MethodField = NoMethod | NotText | Named(name: string)

  /** A JSON message as the envelope checks see it; `objectParams` says that its params are an object. */
  datatype Message =
    | NotObject
    | Object(version: Option<string>, name: MethodField, objectParams: Option<bool>, id: Option<Id>)

  /**
   What one read gives: `Unreadable` is a line over the byte limit, one that is
   not UTF-8, or a failed read; `fine` is what the operation makes of its params.
   */
  datatype Line = Unreadable | BlankLine | BadJson | Request(message: Message, fine: bool)

  datatype Code = Parse | InvalidRequest | NotInitialized | MethodNotFound | InvalidParams

  datatype Response = Result(id: Id) | Error(id: Id, code: Code)

  datatype Operation = Initialize | Initialized | Cancelled | Ping | Listed | Unknown

  datatype Arm =
    | Broken
    | Skipped
    | Unparsed
    | Unenveloped
    | Unnamed
    | NotificationWithId
    | LongId
    | TooEarly
    | NotReady
    | Duplicate
    | Full
    | BadId
    | Dispatched(operation: Operation)
    | Ignored
    | AlreadyInitialized
    | InnerNotInitialized

  datatype Session = Session(initializeSeen: bool, initializedSeen: bool, seen: set<string>, open: bool)

  datatype Turn = Turn(line: Line, arm: Arm, responses: seq<Response>)

  const MAX_REQUEST_IDS := 4096
  const MAX_REQUEST_ID_BYTES := 256

  const START := Session(false, false, {}, true)

  // ---------------------------------------------------------------- envelopes

  predicate Digits(t: string) {
    t != "" && forall i | 0 <= i < |t| :: '0' <= t[i] <= '9'
  }

  predicate IntegerText(t: string) {
    Digits(if "-" <= t then t[1..] else t)
  }

  predicate IsRequestId(id: Id) {
    id.Text? || (id.Number? && IntegerText(id.text))
  }

  /** `validate_request_envelope` */
  predicate Enveloped(m: Message) {
    && m.Object?
    && m.version == Some("2.0")
    && m.name.Named? && Trim(m.name.name) != ""
    && m.objectParams != Some(false)
    && (m.id.Some? ==> IsRequestId(m.id.value))
  }

  datatype EnvelopeFault =
    | MessageNotObject
    | VersionMismatch(actual: Option<string>)
    | MethodMissing
    | MethodNotString
    | MethodEmpty
    | ParamsNotObject
    | IdMustBeInteger
    | IdMustNotBeNull
    | IdMustBeStringOrInteger

  /** The checks of `validate_request_envelope`, in the order it makes them. */
  function Fault(m: Message): Option<EnvelopeFault> {
    match m
    case NotObject => Some(MessageNotObject)
    case Object(version, name, objectParams, id) =>
      if version != Some("2.0") then Some(VersionMismatch(version))
      else if name.NoMethod? then Some(MethodMissing)
      else if name.NotText? then Some(MethodNotString)
      else if Trim(name.name) == "" then Some(MethodEmpty)
      else if objectParams == Some(false) then Some(ParamsNotObject)
      else match id
        case None => None
        case Some(Text(_)) => None
        case Some(Number(t)) => if IntegerText(t) then None else Some(IdMustBeInteger)
        case Some(Null) => Some(IdMustNotBeNull)
        case Some(Other) => Some(IdMustBeStringOrInteger)
  }

  /** The checks let through exactly the well-formed requests. */
  lemma {:induction false} FaultlessIffEnveloped(m: Message)
    ensures Fault(m).None? <==> Enveloped(m)
  {
  }

  function CharBytes(c: char): nat {
    if c as int < 0x80 then 1 else if c as int < 0x800 then 2 else if c as int < 0x1_0000 then 3 else 4
  }

  function Bytes(t: string): nat {
    if t == "" then 0 else CharBytes(t[0]) + Bytes(t[1..])
  }

  predicate WithinLimit(id: Id) {
    IsRequestId(id) && Bytes(id.text) <= MAX_REQUEST_ID_BYTES
  }

  /** `request_id_key` */
  function IdKey(id: Id): string
    requires IsRequestId(id)
  {
    if id.Text? then "s:" + id.text else "n:" + id.text
  }

  predicate IsNotification(name: string) {
    "notifications/" <= name
  }

  function OperationOf(name: string): Operation {
    if name == "initialize" then Initialize
    else if name == "notifications/initialized" then Initialized
    else if name == "notifications/cancelled" then Cancelled
    else if name == "ping" then Ping
    else if name == "tools/list" || name == "prompts/list" || name == "prompts/get" || name == "resources/list"
            || name == "resources/templates/list" || name == "resources/read" || name == "tools/call" then Listed
    else Unknown
  }

  // ---------------------------------------------------------------- one turn

  function Reply(id: Option<Id>, code: Code): seq<Response> {
    if id.Some? then [Error(id.value, code)] else []
  }

  /** The final `match` of the loop, once the id has been recorded. */
  function Dispatch(s: Session, operation: Operation, id: Option<Id>, fine: bool): (Session, Arm, seq<Response>) {
    match operation
    case Initialize =>
      if id.None? then (s, Ignored, [])
      else if s.initializeSeen then (s, AlreadyInitialized, Reply(id, InvalidRequest))
      else (s.(initializeSeen := true), Dispatched(Initialize), [Result(id.value)])
    case Initialized => (s.(initializedSeen := true), Dispatched(operation), [])
    case Cancelled => (s, Dispatched(operation), [])
    case Ping => if id.None? then (s, Ignored, []) else (s, Dispatched(operation), [Result(id.value)])
    case Listed =>
      if id.None? then (s, Ignored, [])
      else if !s.initializeSeen then (s, InnerNotInitialized, Reply(id, NotInitialized))
      else (s, Dispatched(operation), if fine then [Result(id.value)] else Reply(id, InvalidParams))
    case Unknown => (s, Dispatched(operation), Reply(id, MethodNotFound))
  }

  /** `track_stdio_request_id` and what follows it. */
  function Track(s: Session, operation: Operation, id: Option<Id>, fine: bool): (Session, Arm, seq<Response>) {
    if id.None? then Dispatch(s, operation, id, fine)
    else if !IsRequestId(id.value) || !WithinLimit(id.value) then (s, BadId, Reply(id, InvalidRequest))
    else if IdKey(id.value) in s.seen then (s, Duplicate, Reply(id, InvalidRequest))
    else if |s.seen| >= MAX_REQUEST_IDS then (s.(open := false), Full, Reply(id, InvalidRequest))
    else Dispatch(s.(seen := s.seen + {IdKey(id.value)}), operation, id, fine)
  }

  /** The turn of a request with a method. */
  function Handle(s: Session, operation: Operation, notification: bool, id: Option<Id>, fine: bool)
    : (Session, Arm, seq<Response>)
  {
    if id.Some? && notification then (s, NotificationWithId, Reply(id, InvalidRequest))
    else if id.Some? && !WithinLimit(id.value) then (s, LongId, Reply(id, InvalidRequest))
    else if operation != Initialize && operation != Ping && !s.initializeSeen then
      (s, TooEarly, Reply(id, NotInitialized))
    else if s.initializeSeen && !s.initializedSeen && operation != Initialize && operation != Ping
            && operation != Initialized then (s, NotReady, Reply(id, NotInitialized))
    else Track(s, operation, id, fine)
  }

  function IdOrNull(m: Message): Id {
    if m.Object? && m.id.Some? then m.id.value else Null
  }

  function Step(s: Session, line: Line): (Session, Turn) {
    match line
    case Unreadable => (s.(open := false), Turn(line, Broken, []))
    case BlankLine => (s, Turn(line, Skipped, []))
    case BadJson => (s, Turn(line, Unparsed, [Error(Null, Parse)]))
    case Request(m, fine) =>
      if Fault(m).Some? then (s, Turn(line, Unenveloped, [Error(IdOrNull(m), InvalidRequest)]))
      else if !m.name.Named? then (s, Turn(line, Unnamed, [Error(IdOrNull(m), InvalidRequest)]))
      else
        var (t, arm, responses) := Handle(s, OperationOf(m.name.name), IsNotification(m.name.name), m.id, fine);
        (t, Turn(line, arm, responses))
  }

  /** The whole session: lines are read until the session closes or the input ends. */
  function Trace(s: Session, lines: seq<Line>): seq<Turn>
    decreases |lines|
  {
    if lines == [] || !s.open then []
    else
      var (t, turn) := Step(s, lines[0]);
      [turn] + Trace(t, lines[1..])
  }

  // ---------------------------------------------------------------- the loop

  /** The turns after which the loop returns. */
  predicate Closes(t: Turn) { t.arm.Full? || t.arm.Broken? }

  /** `serve`: the loop that updates the session's three variables. */
  method Serve(lines: seq<Line>) returns (turns: seq<Turn>, status: nat)
    ensures turns == Trace(START, lines)
    ensures status == if turns != [] && Closes(turns[|turns| - 1]) then 1 else 0
  {
    hide Step, Trace, Closes;
    turns := [];
    var initializeSeen, initializedSeen := false, false;
    var seen: set<string> := {};
    var i := 0;
    assert lines[0..] == lines;
    while i < |lines|
      invariant 0 <= i <= |lines|
      invariant Trace(START, lines) == turns + Trace(Session(initializeSeen, initializedSeen, seen, true), lines[i..])
      invariant turns == [] || !Closes(turns[|turns| - 1])
    {
      var session := Session(initializeSeen, initializedSeen, seen, true);
      var (next, turn) := Step(session, lines[i]);
      OnlyTheseClose(session, lines[i]);
      TraceAhead(session, lines, i);
      assert next == Session(next.initializeSeen, next.initializedSeen, next.seen, next.open);
      Snoc(turns, turn, if next.open then Trace(next, lines[i + 1..]) else []);
      turns := turns + [turn];
      if !next.open { return turns, 1; }
      initializeSeen, initializedSeen, seen := next.initializeSeen, next.initializedSeen, next.seen;
      i := i + 1;
    }
    TraceAhead(Session(initializeSeen, initializedSeen, seen, true), lines, i);
    return turns, 0;
  }

  lemma {:induction false} Snoc(turns: seq<Turn>, turn: Turn, rest: seq<Turn>)
    ensures turns + ([turn] + rest) == turns + [turn] + rest && turns + [turn] + [] == turns + [turn]
    ensures (turns + [turn])[|turns + [turn]| - 1] == turn
  {
  }

  /** The turns from line `i` on: this line's, and then the rest unless it closed the session. */
  lemma {:induction false} TraceAhead(s: Session, lines: seq<Line>, i: nat)
    requires i <= |lines| && s.open
    ensures i == |lines| ==> Trace(s, lines[i..]) == []
    ensures i < |lines| ==>
      var (next, turn) := Step(s, lines[i]);
      Trace(s, lines[i..]) == [turn] + (if next.open then Trace(next, lines[i + 1..]) else [])
  {
    hide Step;
    if i < |lines| {
      assert lines[i..][1..] == lines[i + 1..];
      var (next, turn) := Step(s, lines[i]);
      assert !next.open ==> Trace(next, lines[i + 1..]) == [];
    }
  }

  lemma {:induction false} OnlyTheseClose(s: Session, line: Line)
    requires s.open
    ensures !Step(s, line).0.open <==> Closes(Step(s, line).1)
  {
    hide OperationOf, IsNotification, Enveloped, IdKey, WithinLimit;
  }

  // ---------------------------------------------------------------- every turn

  /** A well-formed request with an id gets exactly one response, with that id; one without gets none. */
  lemma {:induction false} OneResponse(s: Session, m: Message, fine: bool)
    requires Enveloped(m)
    ensures var r := Step(s, Request(m, fine)).1.responses;
      if m.id.Some? then |r| == 1 && r[0].id == m.id.value else r == []
  {
    hide OperationOf, IdKey, IsNotification, Bytes;
    NotificationNames(m.name.name);
  }

  lemma {:induction false} NotificationNames(name: string)
    ensures OperationOf(name) == Initialized || OperationOf(name) == Cancelled ==> IsNotification(name)
  {
  }

  /** A line that is not a well-formed request gets one error, or nothing if it is blank or ends the session. */
  lemma {:induction false} MalformedResponse(s: Session, line: Line)
    requires line.Request? ==> !Enveloped(line.message)
    ensures Step(s, line).0 == if line.Unreadable? then s.(open := false) else s
    ensures var r := Step(s, line).1.responses;
      match line
      case Unreadable => r == []
      case BlankLine => r == []
      case BadJson => r == [Error(Null, Parse)]
      case Request(m, _) => r == [Error(IdOrNull(m), InvalidRequest)]
  {
  }

  /** Three arms of the loop are never taken: the checks before them have already answered. */
  lemma {:induction false} DeadArms(s: Session, line: Line)
    ensures var arm := Step(s, line).1.arm; !arm.Unnamed? && !arm.BadId? && !arm.InnerNotInitialized?
  {
    hide IdKey, Bytes, IsNotification, OperationOf;
  }

  // ---------------------------------------------------------------- every session

  /** The id keys of the requests that were dispatched. */
  function Keys(turns: seq<Turn>): seq<string> {
    if turns == [] then []
    else (if Counted(turns[0]) then [IdKey(turns[0].line.message.id.value)] else []) + Keys(turns[1..])
  }

  /** A turn that dispatched a request with an id. */
  predicate Counted(t: Turn) {
    && (t.arm.Dispatched? || t.arm.AlreadyInitialized?)
    && t.line.Request? && t.line.message.Object? && t.line.message.id.Some? && IsRequestId(t.line.message.id.value)
  }

  lemma {:induction false} HandleKeys(s: Session, operation: Operation, notification: bool, id: Option<Id>, fine: bool)
    requires |s.seen| <= MAX_REQUEST_IDS && (id.Some? ==> IsRequestId(id.value))
    ensures var (t, arm, _) := Handle(s, operation, notification, id, fine);
      if (arm.Dispatched? || arm.AlreadyInitialized?) && id.Some?
      then IdKey(id.value) !in s.seen && t.seen == s.seen + {IdKey(id.value)} && |t.seen| <= MAX_REQUEST_IDS
      else t.seen == s.seen
  {
    hide IdKey, WithinLimit, IsRequestId, Reply;
  }

  /** A counted turn adds its fresh key to the window, and no other turn changes the window. */
  lemma {:induction false} StepKeys(s: Session, line: Line)
    requires |s.seen| <= MAX_REQUEST_IDS
    ensures var (t, turn) := Step(s, line);
      && |t.seen| <= MAX_REQUEST_IDS
      && (if Counted(turn)
          then IdKey(turn.line.message.id.value) !in s.seen && t.seen == s.seen + {IdKey(turn.line.message.id.value)}
          else t.seen == s.seen)
  {
    hide Handle, IdKey, Trim, IsRequestId, IsNotification, OperationOf, Fault;
    if line.Request? { FaultlessIffEnveloped(line.message); }
    if line.Request? && Enveloped(line.message) {
      var m := line.message;
      HandleKeys(s, OperationOf(m.name.name), IsNotification(m.name.name), m.id, line.fine);
    }
  }

  lemma {:induction false} KeysFresh(s: Session, lines: seq<Line>)
    requires |s.seen| <= MAX_REQUEST_IDS
    ensures var keys := Keys(Trace(s, lines));
      && Distinct(keys) && |s.seen| + |keys| <= MAX_REQUEST_IDS
      && forall i | 0 <= i < |keys| :: keys[i] !in s.seen
    decreases |lines|
  {
    hide Step, IdKey, Counted;
    if lines != [] && s.open {
      StepKeys(s, lines[0]);
      var (t, turn) := Step(s, lines[0]);
      KeysFresh(t, lines[1..]);
      TraceStep(s, lines);
    }
  }

  lemma {:induction false} TraceStep(s: Session, lines: seq<Line>)
    requires lines != [] && s.open
    ensures Trace(s, lines)[0] == Step(s, lines[0]).1 && Trace(s, lines)[1..] == Trace(Step(s, lines[0]).0, lines[1..])
  {
    hide Step;
  }

  /** Over every session, dispatched ids are pairwise distinct and at most 4096. */
  lemma {:induction false} DispatchedIdsDistinct(lines: seq<Line>)
    ensures Distinct(Keys(Trace(START, lines))) && |Keys(Trace(START, lines))| <= MAX_REQUEST_IDS
  {
    KeysFresh(START, lines);
  }

  predicate Opens(t: Turn) { t.arm == Dispatched(Initialize) }
  predicate Readies(t: Turn) { t.arm == Dispatched(Initialized) }

  /**
   Turns that reach the dispatch of an operation: everything but the handshake,
   pings and what is ignored for want of an id.
   */
  predicate Operates(t: Turn) {
    t.arm.Dispatched? && t.arm.operation in {Cancelled, Listed, Unknown}
  }

  lemma {:induction false} HandleFlags(s: Session, operation: Operation, notification: bool, id: Option<Id>, fine: bool)
    ensures var (t, arm, responses) := Handle(s, operation, notification, id, fine);
      && t.initializeSeen == (s.initializeSeen || arm == Dispatched(Initialize))
      && t.initializedSeen == (s.initializedSeen || arm == Dispatched(Initialized))
      && (arm == Dispatched(Initialize) ==> !s.initializeSeen)
      && (arm == Dispatched(Initialized) ==> s.initializeSeen)
      && (arm.Dispatched? && arm.operation in {Cancelled, Listed, Unknown} ==> s.initializeSeen && s.initializedSeen)
  {
    hide IdKey, WithinLimit, IsRequestId, Reply;
  }

  lemma {:induction false} StepFlags(s: Session, line: Line)
    ensures var (t, turn) := Step(s, line);
      && t.initializeSeen == (s.initializeSeen || Opens(turn))
      && t.initializedSeen == (s.initializedSeen || Readies(turn))
      && (Opens(turn) ==> !s.initializeSeen)
      && (Readies(turn) ==> s.initializeSeen)
      && (Operates(turn) ==> s.initializeSeen && s.initializedSeen)
  {
    hide Handle, Trim, IsRequestId, IsNotification, OperationOf, Fault;
    if line.Request? { FaultlessIffEnveloped(line.message); }
    if line.Request? && Enveloped(line.message) {
      var m := line.message;
      HandleFlags(s, OperationOf(m.name.name), IsNotification(m.name.name), m.id, line.fine);
    }
  }

  /** Before the handshake is complete, a later operation has the missing steps before it. */
  lemma {:induction false} HandshakeFrom(s: Session, lines: seq<Line>, k: nat)
    requires k < |Trace(s, lines)| && (Operates(Trace(s, lines)[k]) || Readies(Trace(s, lines)[k]))
    ensures s.initializeSeen || exists i :: 0 <= i < k && Opens(Trace(s, lines)[i])
    ensures Operates(Trace(s, lines)[k]) && !s.initializedSeen ==>
      exists j :: 0 <= j < k && Readies(Trace(s, lines)[j])
    decreases |lines|
  {
    hide Opens, Readies, Operates, Step;
    TraceStep(s, lines);
    StepFlags(s, lines[0]);
    var turns := Trace(s, lines);
    var t := Step(s, lines[0]).0;
    var rest := Trace(t, lines[1..]);
    if k > 0 {
      assert rest[k - 1] == turns[k];
      HandshakeFrom(t, lines[1..], k - 1);
      if i :| 0 <= i < k - 1 && Opens(rest[i]) { assert Opens(turns[i + 1]); }
      if j :| 0 <= j < k - 1 && Readies(rest[j]) { assert Readies(turns[j + 1]); }
      assert Opens(turns[0]) || t.initializeSeen == s.initializeSeen;
      assert Readies(turns[0]) || t.initializedSeen == s.initializedSeen;
    }
  }

  /** Over every session, an operation runs only after an initialize and then an initialized notification. */
  lemma {:induction false} OperationsFollowHandshake(lines: seq<Line>, k: nat)
    requires k < |Trace(START, lines)| && Operates(Trace(START, lines)[k])
    ensures exists i, j :: 0 <= i < j < k && Opens(Trace(START, lines)[i]) && Readies(Trace(START, lines)[j])
  {
    hide Opens, Readies, Operates, Trace;
    var turns := Trace(START, lines);
    HandshakeFrom(START, lines, k);
    var j :| 0 <= j < k && Readies(turns[j]);
    HandshakeFrom(START, lines, j);
    var i :| 0 <= i < j && Opens(turns[i]);
  }

  lemma {:induction false} OpensOnceFrom(s: Session, lines: seq<Line>, i: nat)
    requires i < |Trace(s, lines)| && Opens(Trace(s, lines)[i])
    ensures !s.initializeSeen && forall j | 0 <= j < i :: !Opens(Trace(s, lines)[j])
    decreases |lines|
  {
    hide Opens, Readies, Operates, Step;
    TraceStep(s, lines);
    StepFlags(s, lines[0]);
    if i > 0 {
      var t := Step(s, lines[0]).0;
      var rest := Trace(t, lines[1..]);
      assert rest[i - 1] == Trace(s, lines)[i];
      OpensOnceFrom(t, lines[1..], i - 1);
      forall j | 0 <= j < i ensures !Opens(Trace(s, lines)[j]) {
        if j > 0 { assert rest[j - 1] == Trace(s, lines)[j]; }
      }
    }
  }

  /** Over every session, at most one initialize succeeds. */
  lemma {:induction false} InitializeOnce(lines: seq<Line>, i: nat, j: nat)
    requires i < |Trace(START, lines)| && j < |Trace(START, lines)|
    requires Opens(Trace(START, lines)[i]) && Opens(Trace(START, lines)[j])
    ensures i == j
  {
    hide Opens, Trace;
    OpensOnceFrom(START, lines, i);
    OpensOnceFrom(START, lines, j);
  }

  lemma {:induction false} TraceAt(s: Session, lines: seq<Line>, k: nat) returns (before: Session)
    requires k < |Trace(s, lines)|
    ensures k < |lines| && Trace(s, lines)[k] == Step(before, lines[k]).1
    decreases |lines|
  {
    hide Step;
    TraceStep(s, lines);
    if k == 0 {
      before := s;
    } else {
      before := TraceAt(Step(s, lines[0]).0, lines[1..], k - 1);
    }
  }

  /** Over every session, each well-formed request is answered once with its id, or not at all when it has none. */
  lemma {:induction false} EveryRequestAnswered(lines: seq<Line>, k: nat)
    requires k < |Trace(START, lines)| && k < |lines| && lines[k].Request? && Enveloped(lines[k].message)
    ensures var id, r := lines[k].message.id, Trace(START, lines)[k].responses;
      if id.Some? then |r| == 1 && r[0].id == id.value else r == []
  {
    hide Step, Trace, Enveloped;
    var before := TraceAt(START, lines, k);
    OneResponse(before, lines[k].message, lines[k].fine);
  }

  /** The replay window tells ids apart exactly: a string and a number never share a key. */
  lemma {:induction false} KeysTellIdsApart(a: Id, b: Id)
    requires IsRequestId(a) && IsRequestId(b)
    ensures IdKey(a) == IdKey(b) <==> a == b
  {
    assert IdKey(a)[2..] == a.text && IdKey(b)[2..] == b.text;
    assert IdKey(a)[0] == (if a.Text? then 's' else 'n') && IdKey(b)[0] == (if b.Text? then 's' else 'n');
  }
}
