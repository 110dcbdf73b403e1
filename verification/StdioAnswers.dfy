/**
 Which answer each request of a stdio session gets, said from the outside: by its
 method name, its id, and the lines and responses before it.
 */
module StdioAnswers {
  import opened Text
  import opened StdioSession
  import Utf8

  // ---------------------------------------------------------------- what has happened

  predicate Named(line: Line, name: string) {
    line.Request? && Enveloped(line.message) && line.message.name.name == name
  }

  /** An initialize that was answered with a result. */
  predicate Opening(t: Turn) {
    Named(t.line, "initialize") && t.responses != [] && t.responses[0].Result?
  }

  predicate Readying(t: Turn) {
    Named(t.line, "notifications/initialized") && t.line.message.id.None?
  }

  ghost predicate Opened(turns: seq<Turn>, k: nat) {
    exists i :: 0 <= i < k && i < |turns| && Opening(turns[i])
  }

  /** The client has said that it is ready, after an initialize. */
  ghost predicate IsReady(turns: seq<Turn>, k: nat) {
    exists j :: 0 <= j < k && j < |turns| && Readying(turns[j]) && Opened(turns, j)
  }

  /** A request that used up its id: an initialize, or anything that reached its operation. */
  predicate Spent(t: Turn) {
    && t.line.Request? && Enveloped(t.line.message) && t.line.message.id.Some? && WithinLimit(t.line.message.id.value)
    && (|| t.line.message.name.name == "initialize"
        || (t.responses != [] &&
            (t.responses[0].Result? || t.responses[0].code == InvalidParams || t.responses[0].code == MethodNotFound)))
  }

  function SpentKeys(t: Turn): set<string> {
    if Spent(t) then {IdKey(t.line.message.id.value)} else {}
  }

  /** The ids used up by some turns. */
  function Ids(turns: seq<Turn>): set<string> {
    if turns == [] then {} else Ids(turns[..|turns| - 1]) + SpentKeys(turns[|turns| - 1])
  }

  const OPERATIONS := {"tools/list", "prompts/list", "prompts/get", "resources/list", "resources/templates/list",
                       "resources/read", "tools/call"}

  /** The answer to a well-formed request with an id. */
  function Answer(name: string, fine: bool, id: Id, begun: bool, ready: bool, ids: set<string>): Response
    requires IsRequestId(id)
  {
    if "notifications/" <= name || Bytes(id.text) > 256 then Error(id, InvalidRequest)
    else if name != "initialize" && name != "ping" && !ready then Error(id, NotInitialized)
    else if IdKey(id) in ids || |ids| >= 4096 then Error(id, InvalidRequest)
    else if name == "initialize" then if begun then Error(id, InvalidRequest) else Result(id)
    else if name == "ping" then Result(id)
    else if name in OPERATIONS then if fine then Result(id) else Error(id, InvalidParams)
    else Error(id, MethodNotFound)
  }

  // ---------------------------------------------------------------- one turn

  lemma {:induction false} OperationNames(name: string)
    ensures OperationOf(name) == Initialize <==> name == "initialize"
    ensures OperationOf(name) == Initialized <==> name == "notifications/initialized"
    ensures OperationOf(name) == Ping <==> name == "ping"
    ensures OperationOf(name) == Listed <==> name in OPERATIONS
    ensures OperationOf(name) == Initialized || OperationOf(name) == Cancelled ==> IsNotification(name)
    ensures OperationOf(name) in {Initialize, Ping, Listed} ==> !IsNotification(name)
  {
    assert IsNotification(name) ==> name[0] == "notifications/"[0] == 'n';
  }

  /** In a session whose state says what has happened, the turn gives the answer. */
  lemma {:induction false} TurnAnswers(s: Session, m: Message, fine: bool)
    requires Enveloped(m) && m.id.Some? && (s.initializedSeen ==> s.initializeSeen)
    ensures Step(s, Request(m, fine)).1.responses ==
      [Answer(m.name.name, fine, m.id.value, s.initializeSeen, s.initializedSeen, s.seen)]
  {
    hide OperationOf, Bytes, IdKey, Trim;
    OperationNames(m.name.name);
  }

  /** What a turn does to the state, from the outside. */
  lemma {:induction false} TurnState(s: Session, line: Line)
    requires s.initializedSeen ==> s.initializeSeen
    ensures var (t, turn) := Step(s, line);
      && turn.line == line
      && t.initializeSeen == (s.initializeSeen || Opening(turn))
      && t.initializedSeen == (s.initializedSeen || (Readying(turn) && s.initializeSeen))
      && (t.open ==> t.seen == s.seen + SpentKeys(turn))
  {
    hide OperationOf, Bytes, IdKey, Trim, Handle, IsNotification;
    if line.Request? && Enveloped(line.message) {
      var m := line.message;
      OperationNames(m.name.name);
      HandleState(s, OperationOf(m.name.name), IsNotification(m.name.name), m.id, line.fine);
    }
  }

  lemma {:induction false} DispatchState(s: Session, operation: Operation, id: Option<Id>, fine: bool)
    requires operation == Initialized || operation == Cancelled ==> id.None?
    requires operation == Listed ==> s.initializeSeen
    ensures var (t, arm, responses) := Dispatch(s, operation, id, fine);
      && t.open == s.open && t.seen == s.seen
      && t.initializeSeen == (s.initializeSeen || (operation == Initialize && Good(responses)))
      && t.initializedSeen == (s.initializedSeen || operation == Initialized)
      && (id.Some? ==> operation == Initialize || Reached(responses))
  {
  }

  predicate Good(responses: seq<Response>) { responses != [] && responses[0].Result? }

  /** A response that comes from the operation itself. */
  predicate Reached(responses: seq<Response>) {
    responses != [] &&
    (responses[0].Result? || responses[0].code == InvalidParams || responses[0].code == MethodNotFound)
  }

  lemma {:induction false} TrackState(s: Session, operation: Operation, id: Option<Id>, fine: bool)
    requires operation == Initialized || operation == Cancelled ==> id.None?
    requires operation == Listed ==> s.initializeSeen
    requires id.Some? ==> WithinLimit(id.value)
    ensures var (t, arm, responses) := Track(s, operation, id, fine);
      && t.initializeSeen == (s.initializeSeen || (operation == Initialize && Good(responses)))
      && t.initializedSeen == (s.initializedSeen || operation == Initialized)
      && (t.open ==> t.seen == s.seen + if HandleSpends(operation, id, responses) then {IdKey(id.value)} else {})
  {
    hide IdKey, Bytes, IsRequestId, Dispatch;
    DispatchState(s, operation, id, fine);
    if id.Some? { DispatchState(s.(seen := s.seen + {IdKey(id.value)}), operation, id, fine); }
  }

  lemma {:induction false} HandleState(
    s: Session, operation: Operation, notification: bool, id: Option<Id>, fine: bool)
    requires operation == Initialized || operation == Cancelled ==> notification
    requires operation in {Initialize, Ping, Listed} ==> !notification
    ensures var (t, arm, responses) := Handle(s, operation, notification, id, fine);
      && t.initializeSeen == (s.initializeSeen || (operation == Initialize && Good(responses)))
      && t.initializedSeen ==
           (s.initializedSeen || (operation == Initialized && id.None? && s.initializeSeen))
      && (t.open ==> t.seen == s.seen + if HandleSpends(operation, id, responses) then {IdKey(id.value)} else {})
  {
    hide IdKey, Bytes, IsRequestId, Track, WithinLimit;
    if !(id.Some? && notification) && !(id.Some? && !WithinLimit(id.value))
       && (operation == Initialize || operation == Ping || s.initializeSeen) {
      TrackState(s, operation, id, fine);
    }
  }

  predicate HandleSpends(operation: Operation, id: Option<Id>, responses: seq<Response>) {
    id.Some? && WithinLimit(id.value) && (operation == Initialize || Reached(responses))
  }

  // ---------------------------------------------------------------- every turn

  /** The state before line `k`. */
  function StateAt(s: Session, lines: seq<Line>, k: nat): Session
    requires k <= |lines|
    decreases k
  {
    if k == 0 then s else StateAt(Step(s, lines[0]).0, lines[1..], k - 1)
  }

  lemma {:induction false} StateNext(s: Session, lines: seq<Line>, k: nat)
    requires k < |lines|
    ensures StateAt(s, lines, k + 1) == Step(StateAt(s, lines, k), lines[k]).0
    decreases k
  {
    hide Step;
    if k > 0 { StateNext(Step(s, lines[0]).0, lines[1..], k - 1); }
  }

  lemma {:induction false} TurnIs(s: Session, lines: seq<Line>, k: nat)
    requires k < |Trace(s, lines)|
    ensures k < |lines| && StateAt(s, lines, k).open && Trace(s, lines)[k] == Step(StateAt(s, lines, k), lines[k]).1
    decreases |lines|
  {
    hide Step;
    TraceStep(s, lines);
    if k > 0 { TurnIs(Step(s, lines[0]).0, lines[1..], k - 1); }
  }

  /** The state is what has happened so far. */
  lemma {:induction false} StateMeans(lines: seq<Line>, k: nat)
    requires k < |Trace(START, lines)|
    ensures k < |lines|
    ensures var s, turns := StateAt(START, lines, k), Trace(START, lines);
      && s.open && (s.initializeSeen <==> Opened(turns, k)) && (s.initializedSeen <==> IsReady(turns, k))
      && s.seen == Ids(turns[..k]) && (s.initializedSeen ==> s.initializeSeen)
  {
    hide Step, Trace, SpentKeys, Opening, Readying, StateAt;
    var turns := Trace(START, lines);
    TurnIs(START, lines, k);
    if k == 0 {
      StartState(lines);
      assert turns[..0] == [];
    } else {
      StateMeans(lines, k - 1);
      TurnIs(START, lines, k - 1);
      StateNext(START, lines, k - 1);
      TurnState(StateAt(START, lines, k - 1), lines[k - 1]);
      OpenedMore(turns, k - 1);
      assert turns[..k][..k - 1] == turns[..k - 1];
    }
  }

  lemma {:induction false} StartState(lines: seq<Line>)
    ensures StateAt(START, lines, 0) == START
  {
  }

  lemma {:induction false} OpenedMore(turns: seq<Turn>, k: nat)
    requires k < |turns|
    ensures Opened(turns, k + 1) <==> Opened(turns, k) || Opening(turns[k])
    ensures IsReady(turns, k + 1) <==> IsReady(turns, k) || (Readying(turns[k]) && Opened(turns, k))
  {
    hide Opening, Readying;
  }

  /**
   Over every session, each well-formed request with an id gets exactly the
   answer that its method, its id and what has happened before call for.
   */
  lemma {:induction false} EveryAnswer(lines: seq<Line>, k: nat)
    requires k < |Trace(START, lines)| && k < |lines| && lines[k].Request?
    requires Enveloped(lines[k].message) && lines[k].message.id.Some?
    ensures var m, turns := lines[k].message, Trace(START, lines);
      turns[k].responses ==
      [Answer(m.name.name, lines[k].fine, m.id.value, Opened(turns, k), IsReady(turns, k), Ids(turns[..k]))]
  {
    hide Step, Trace, Answer, Enveloped, StateAt, Opened, IsReady;
    StateMeans(lines, k);
    TurnIs(START, lines, k);
    TurnAnswers(StateAt(START, lines, k), lines[k].message, lines[k].fine);
  }

  /** Every line has its turn, up to one that ends the session. */
  lemma {:induction false} EveryLineHasATurn(s: Session, lines: seq<Line>)
    requires s.open
    ensures var turns := Trace(s, lines);
      |turns| == |lines| || (turns != [] && |turns| < |lines| && Closes(turns[|turns| - 1]))
    decreases |lines|
  {
    hide Step, Closes;
    if lines != [] {
      TraceStep(s, lines);
      OnlyTheseClose(s, lines[0]);
      var t := Step(s, lines[0]).0;
      if t.open { EveryLineHasATurn(t, lines[1..]); }
    }
  }

  /** The limit on ids is counted in the bytes of their UTF-8 text. */
  lemma {:induction false} BytesAreUtf8(t: string)
    ensures Bytes(t) == |Utf8.ToUtf8(t)|
  {
    if t != "" { BytesAreUtf8(t[1..]); }
  }

  /** Every integer can be an id, and a number with a fraction or an exponent cannot. */
  lemma {:induction false} IntegersAreIds(n: nat, t: string)
    ensures IsRequestId(Number(Utf8.Numeral(n, 10))) && IsRequestId(Number("-" + Utf8.Numeral(n, 10)))
    ensures '.' in t || 'e' in t || 'E' in t ==> !IsRequestId(Number(t))
  {
    DecimalText(n);
    var d := Utf8.Numeral(n, 10);
    hide Utf8.Numeral;
    assert d[0] != '-' && ("-" + d)[1..] == d;
    if '.' in t || 'e' in t || 'E' in t { NotAllDigits(t); }
  }

  lemma {:induction false} NotAllDigits(t: string)
    requires '.' in t || 'e' in t || 'E' in t
    ensures !IntegerText(t)
  {
    var i :| 0 <= i < |t| && (t[i] == '.' || t[i] == 'e' || t[i] == 'E');
    var digits := if "-" <= t then t[1..] else t;
    var k := if "-" <= t then i - 1 else i;
    assert digits[k] == t[i];
    assert !('0' <= digits[k] <= '9');
  }

  lemma {:induction false} DecimalText(n: nat)
    ensures Utf8.Numeral(n, 10) != ""
    ensures forall i | 0 <= i < |Utf8.Numeral(n, 10)| :: '0' <= Utf8.Numeral(n, 10)[i] <= '9'
  {
    Utf8.DivMod(n, 10);
    if n >= 10 { DecimalText(n / 10); }
  }
}
