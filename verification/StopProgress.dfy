/**
 What the operations of `src/serve.rs` and `src/cleanup.rs` get done: a stop ends
 with the runtime gone and forgotten, a start with a recorded runtime that can be
 stopped again, whatever the processes without the lifecycle lock do meanwhile.
 */
module StopProgress {
  import opened Text
  import opened ProcessIdentity
  import opened StopProtocol

  // ---------------------------------------------------------------- the other processes

  /** The number of steps a process takes in its operation. */
  function Steps(events: seq<Event>, i: Instance): nat {
    if events == [] then 0
    else (if events[0].Advance? && events[0].who == i then 1 else 0) + Steps(events[1..], i)
  }

  predicate Ends(e: Event, i: Instance) { e == Crash(i) || e == Exit(i) }

  predicate OwnMove(e: Event, i: Instance) { e.Advance? && e.who == i }

  /** A process survives the events, and none of its own steps is told that the time is up. */
  predicate Patient(events: seq<Event>, i: Instance) {
    forall e | e in events :: !Ends(e, i) && (OwnMove(e, i) ==> !e.choice.yes)
  }

  predicate NotReused(events: seq<Event>, pid: nat) {
    forall e | e in events :: e.Spawn? ==> e.born.pid != pid
  }

  lemma {:induction false} EndShape(s: State, j: Instance, c: Choice)
    requires j in s.pcs && Ending(s.pcs[j])
    ensures var t := Step(s, j, c);
      && t.world == s.world && t.marker == s.marker && t.watch == s.watch && t.osLock == s.osLock
      && (t.file == s.file || t.file.NoState?) && (t.file == s.file || s.pcs[j].ExitForget?)
      && t.pcs == s.pcs[j := PcOf(t, j)]
  {
  }

  /** What can happen between two steps of the process that holds the lifecycle lock. */
  lemma {:induction false} OthersLeave(s: State, e: Event, i: Instance)
    requires Inv(s) && Enabled(s, e) && i in s.pcs && NeedsLock(s.pcs[i]) && !Ends(e, i) && !OwnMove(e, i)
    ensures var t := Next(s, e);
      && PcOf(t, i) == s.pcs[i] && i in t.pcs
      && (t.file == s.file || t.file.NoState?) && (t.marker == s.marker || t.marker.NoMarker?)
      && (forall pid | pid in t.world.table :: pid in s.world.table || (e.Spawn? && e.born.pid == pid))
  {
    hide Knowledge, Files, WorldOk, Watchers;
    if e.Advance? {
      InPcs(s, e.who);
      EndShape(s, e.who, e.choice);
    }
  }

  // ---------------------------------------------------------------- a stop ends

  predicate Vacant(table: Table, pid: nat) { pid == 0 || pid !in table }

  /** The process to stop is not there: never recorded, not found, or seen to die. */
  predicate Clear(s: State, i: Instance, pid: nat) {
    match PcOf(s, i)
    case StopRead(_) =>
      s.file.NoState? || (s.file.Recorded? && s.file.record.pid == pid && Vacant(s.world.table, pid))
    case StopMatch(_, r) => r.pid == pid && Vacant(s.world.table, pid)
    case StopPoll(_, r, target) => r.identity.Some? && !Alive(s.world.table, target)
    case StopUnmark(_, _, ok) => ok
    case StopForget(_, _) => true
    case _ => false
  }

  function StopRank(pc: Pc): nat {
    match pc
    case StopRead(_) => 3
    case StopMatch(_, _) => 2
    case StopPoll(_, _, _) => 3
    case StopUnmark(_, _, _) => 2
    case _ => 1
  }

  /** The operation that stopped is over, or goes on to launch. */
  predicate HasStopped(s: State, i: Instance, launch: bool) {
    s.file.NoState? && if launch then PcOf(s, i).Launching? else PcOf(s, i).Stopped?
  }

  /** A process once chosen and dead never matches its record again. */
  lemma {:induction false} DeadNeverMatches(r: Record, target: Instance, w: World)
    requires Chosen(r, target, w) && r.identity.Some? && !Alive(w.table, target)
    ensures !MatchRecord(w.table, r).Match?
  {
  }

  lemma {:induction false} OthersKeepClear(s: State, e: Event, i: Instance, pid: nat)
    requires Inv(s) && Enabled(s, e) && i in s.pcs && Clear(s, i, pid) && !Ends(e, i) && !OwnMove(e, i)
    requires e.Spawn? ==> e.born.pid != pid
    ensures PcOf(Next(s, e), i) == PcOf(s, i) && i in Next(s, e).pcs && Clear(Next(s, e), i, pid)
  {
    hide Next;
    OthersLeave(s, e, i);
    var t := Next(s, e);
    if s.pcs[i].StopPoll? {
      var target := s.pcs[i].target;
      KnowledgeOf(s, i);
      DeadStays(s, e, target);
    }
  }

  lemma {:induction false} DeadStays(s: State, e: Event, target: Instance)
    requires Inv(s) && Enabled(s, e) && target in s.world.past && !Alive(s.world.table, target)
    ensures !Alive(Next(s, e).world.table, target)
  {
    hide Knowledge, Files, Watchers, LocalStep;
    if e.Advance? { InPcs(s, e.who); }
  }

  lemma {:induction false} OwnStepClears(s: State, c: Choice, i: Instance, pid: nat)
    requires Inv(s) && Enabled(s, Advance(i, c)) && i in s.pcs && Clear(s, i, pid) && !c.yes
    ensures var t := Step(s, i, c);
      if s.pcs[i].StopForget? then HasStopped(t, i, s.pcs[i].launch)
      else
        && i in t.pcs && Clear(t, i, pid) && StopRank(PcOf(t, i)) < StopRank(PcOf(s, i))
        && PcOf(t, i).launch == s.pcs[i].launch
  {
    if s.pcs[i].StopPoll? {
      KnowledgeOf(s, i);
      DeadNeverMatches(s.pcs[i].record, s.pcs[i].target, s.world);
    }
    hide Inv, Fresh;
  }

  /**
   Three steps of its own are enough for a stop whose process is not found or
   has died, whatever the others do: the state file is gone.
   */
  lemma {:induction false} StopCompletes(s: State, events: seq<Event>, i: Instance, pid: nat) returns (k: nat)
    requires Inv(s) && Run(s, events) && i in s.pcs && Clear(s, i, pid)
    requires Patient(events, i) && NotReused(events, pid) && Steps(events, i) >= StopRank(PcOf(s, i))
    ensures k <= |events| && HasStopped(After(s, events[..k]), i, PcOf(s, i).launch)
    decreases |events|
  {
    hide Inv, Enabled, Next, Clear, HasStopped, Fresh;
    assert events != [];
    var e, rest := events[0], events[1..];
    var t := Next(s, e);
    assert e in events && forall x | x in rest :: x in events;
    NextKeepsInv(s, e);
    if OwnMove(e, i) {
      OwnStepClears(s, e.choice, i, pid);
      NextIsStep(s, e);
      if s.pcs[i].StopForget? {
        assert events[..1][1..] == [];
        return 1;
      }
    } else {
      OthersKeepClear(s, e, i, pid);
    }
    ClearStops(t, i, pid);
    var m := StopCompletes(t, rest, i, pid);
    k := m + 1;
    assert events[..k][1..] == rest[..m];
  }

  lemma {:induction false} ClearStops(s: State, i: Instance, pid: nat)
    requires Clear(s, i, pid)
    ensures Stopping(PcOf(s, i))
  {
  }

  lemma {:induction false} NextIsStep(s: State, e: Event)
    requires e.Advance?
    ensures Next(s, e) == Step(s, e.who, e.choice)
  {
  }

  // ---------------------------------------------------------------- steps on their own

  /** A step whose only effects are the process's own position and the two files. */
  predicate Plain(pc: Pc) { pc != Idle && !pc.Launching? && !pc.ServeRecord? && !pc.ServeWatch? }

  function Moved(s: State, i: Instance, c: Choice): Local {
    LocalStep(Local(PcOf(s, i), s.file, s.marker), i, s.world, c)
  }

  lemma {:induction false} OwnStep(s: State, i: Instance, c: Choice)
    requires Inv(s) && i in s.pcs && Plain(s.pcs[i])
    ensures var t, l := Next(s, Advance(i, c)), Moved(s, i, c);
      && Enabled(s, Advance(i, c)) && Inv(t) && i in t.pcs
      && t == s.(pcs := s.pcs[i := l.pc], file := l.file, marker := l.marker,
                 osLock := if l.pc == Idle && !Ending(s.pcs[i]) then None else s.osLock)
  {
    hide LocalStep, Knowledge, Files, WorldOk, Watchers, Fresh;
    NextKeepsInv(s, Advance(i, c));
  }

  /** The same for a step of a stop. */
  lemma {:induction false} StopMove(s: State, i: Instance, c: Choice)
    requires Inv(s) && i in s.pcs && Stopping(s.pcs[i])
    ensures var t, l := Next(s, Advance(i, c)), StopStep(Local(s.pcs[i], s.file, s.marker), s.world, c);
      && Enabled(s, Advance(i, c)) && Inv(t) && i in t.pcs && t.pcs[i] == l.pc
      && t == s.(pcs := s.pcs[i := l.pc], file := l.file, marker := l.marker)
  {
    hide Inv, Next, Enabled, MatchRecord;
    OwnStep(s, i, c);
  }

  lemma {:induction false} RunOne(s: State, e: Event)
    requires Enabled(s, e)
    ensures Run(s, [e]) && After(s, [e]) == Next(s, e)
  {
    hide Enabled, Next;
    assert [e][1..] == [];
  }

  lemma {:induction false} RunAppend(s: State, a: seq<Event>, b: seq<Event>)
    requires Run(s, a) && Run(After(s, a), b)
    ensures Run(s, a + b) && After(s, a + b) == After(After(s, a), b)
    decreases |a|
  {
    hide Enabled, Next;
    if a == [] {
      assert a + b == b;
    } else {
      RunAppend(Next(s, a[0]), a[1..], b);
      assert (a + b)[1..] == a[1..] + b;
    }
  }

  // ---------------------------------------------------------------- a stop that refuses

  /** The positions of a stop that has not decided to forget the runtime. */
  predicate Refusing(pc: Pc) { (Stopping(pc) && !pc.StopForget?) || pc.Leaving? }

  /** The process is at such a position at every point of the run. */
  predicate Refuses(s: State, events: seq<Event>, i: Instance)
    decreases |events|
  {
    Refusing(PcOf(s, i)) && (events == [] || Refuses(Next(s, events[0]), events[1..], i))
  }

  /** Another process forgets the state file on its way out. */
  predicate Forgets(s: State, events: seq<Event>, i: Instance)
    decreases |events|
  {
    events != [] &&
    (|| (events[0].Advance? && events[0].who != i && PcOf(s, events[0].who).ExitForget?)
     || Forgets(Next(s, events[0]), events[1..], i))
  }

  /** A stop that is refused, for a mismatch or because the time is up, has left the state file as it was. */
  lemma {:induction false} RefusalKeepsFile(s: State, events: seq<Event>, i: Instance)
    requires Inv(s) && Run(s, events) && i in s.pcs && Patience(events, i) && Refuses(s, events, i)
    ensures Forgets(s, events, i) || After(s, events).file == s.file
    decreases |events|
  {
    hide Inv, Enabled, Next, Refusing, Fresh;
    if events != [] {
      var e, rest := events[0], events[1..];
      assert e in events && forall x | x in rest :: x in events;
      NextKeepsInv(s, e);
      FileStays(s, e, i);
      RefusalKeepsFile(Next(s, e), rest, i);
    }
  }

  predicate Patience(events: seq<Event>, i: Instance) {
    forall e | e in events :: !Ends(e, i)
  }

  lemma {:induction false} FileStays(s: State, e: Event, i: Instance)
    requires Inv(s) && Enabled(s, e) && i in s.pcs && Refusing(s.pcs[i]) && !Ends(e, i)
    ensures i in Next(s, e).pcs
    ensures Next(s, e).file == s.file || (e.Advance? && e.who != i && PcOf(s, e.who).ExitForget?)
  {
    if OwnMove(e, i) {
      OwnFileStays(s, e.choice, i);
    } else {
      hide Inv;
      OthersLeave(s, e, i);
      if e.Advance? { OtherEnds(s, e, i); }
    }
  }

  lemma {:induction false} OwnFileStays(s: State, c: Choice, i: Instance)
    requires Inv(s) && i in s.pcs && Refusing(s.pcs[i])
    ensures Next(s, Advance(i, c)).file == s.file && i in Next(s, Advance(i, c)).pcs
  {
    hide Inv, Next, Enabled, MatchRecord;
    OwnStep(s, i, c);
  }

  lemma {:induction false} OtherEnds(s: State, e: Event, i: Instance)
    requires Inv(s) && Enabled(s, e) && i in s.pcs && NeedsLock(s.pcs[i]) && e.Advance? && e.who != i
    ensures Next(s, e).file == s.file || PcOf(s, e.who).ExitForget?
  {
    hide Knowledge, Files, WorldOk, Watchers;
    InPcs(s, e.who);
    EndShape(s, e.who, e.choice);
  }

  // ---------------------------------------------------------------- a stop of a live runtime

  /** The state file records a live process that matches, with a stop token it watches for. */
  predicate Stoppable(s: State, i: Instance) {
    && s.file.Recorded?
    && var r := s.file.record;
       && MatchRecord(s.world.table, r).Match? && r.identity.Some? && r.stopToken.Some? && r.pid in s.world.table
       && var q := RecordedProcess(s);
          q != i && q in s.watch && s.watch[q] == r.stopToken.value
  }

  function RecordedProcess(s: State): Instance
    requires s.file.Recorded? && s.file.record.pid in s.world.table
  {
    Instance(s.file.record.pid, s.world.table[s.file.record.pid].token)
  }

  lemma {:induction false} StopMarks(s: State, i: Instance, c: Choice)
    requires Inv(s) && i in s.pcs && s.pcs[i].StopRead? && Stoppable(s, i)
    ensures var e := Advance(i, c);
      var t := Next(Next(Next(s, e), e), e);
      && Run(s, [e] + [e] + [e]) && After(s, [e] + [e] + [e]) == t && Inv(t)
      && PcOf(t, i) == StopPoll(s.pcs[i].launch, s.file.record, RecordedProcess(s))
      && t.marker == Marked(s.file.record.stopToken.value, RecordedProcess(s))
      && t.file == s.file && t.world == s.world && t.watch == s.watch && i in t.pcs && t.osLock == s.osLock
      && t.pcs == s.pcs[i := PcOf(t, i)]
  {
    hide Inv, Enabled, Next, Run, After;
    var e := Advance(i, c);
    StopMove(s, i, c);
    RunOne(s, e);
    var s1 := Next(s, e);
    StopMove(s1, i, c);
    RunMore(s, [e], e);
    var s2 := Next(s1, e);
    StopMove(s2, i, c);
    RunMore(s, [e] + [e], e);
  }

  lemma {:induction false} LeavesShape(s: State, i: Instance, q: Instance)
    requires i in s.pcs && q != i && q in s.watch && s.marker == Marked(s.watch[q], q)
    ensures var t := Next(s, See(q));
      var u := Next(t, Exit(q));
      && Enabled(s, See(q)) && Enabled(t, Exit(q))
      && !Alive(u.world.table, q) && i in u.pcs && PcOf(u, i) == PcOf(s, i)
      && u.file == s.file && u.marker.NoMarker?
      && u.world == s.world.(table := s.world.table - {q.pid}) && u.pcs == s.pcs - {q}
  {
  }

  /** Once the marker is written, the runtime can see it and leave, and it is gone then. */
  lemma {:induction false} MarkedLeaves(s: State, i: Instance, q: Instance)
    requires Inv(s) && i in s.pcs && q != i && q in s.watch && s.marker == Marked(s.watch[q], q)
    ensures var u := After(s, [See(q)] + [Exit(q)]);
      && Run(s, [See(q)] + [Exit(q)]) && Inv(u)
      && !Alive(u.world.table, q) && i in u.pcs && PcOf(u, i) == PcOf(s, i)
      && u.file == s.file && u.marker.NoMarker?
      && u.world == s.world.(table := s.world.table - {q.pid}) && u.pcs == s.pcs - {q}
  {
    hide Inv, Run, After, Next, Enabled, Alive;
    LeavesShape(s, i, q);
    NextKeepsInv(s, See(q));
    NextKeepsInv(Next(s, See(q)), Exit(q));
    RunOne(s, See(q));
    RunMore(s, [See(q)], Exit(q));
  }

  /** The poll sees that the process is gone. */
  lemma {:induction false} PollEnds(s: State, i: Instance, c: Choice)
    requires Inv(s) && i in s.pcs && s.pcs[i].StopPoll? && !c.yes
    requires s.pcs[i].record.identity.Some? && !Alive(s.world.table, s.pcs[i].target)
    ensures var t := Next(s, Advance(i, c));
      && Enabled(s, Advance(i, c)) && Inv(t) && i in t.pcs
      && t.pcs[i] == StopUnmark(s.pcs[i].launch, s.pcs[i].record, true)
      && t.world == s.world && t.osLock == s.osLock && t.pcs == s.pcs[i := PcOf(t, i)]
  {
    KnowledgeOf(s, i);
    DeadNeverMatches(s.pcs[i].record, s.pcs[i].target, s.world);
    hide Inv, Enabled, Next, MatchRecord, Alive, Knows, Chosen;
    StopMove(s, i, c);
  }

  /** After that three steps forget it. */
  lemma {:induction false} StopForgets(s: State, i: Instance, c: Choice)
    requires Inv(s) && i in s.pcs && s.pcs[i].StopPoll? && !c.yes
    requires s.pcs[i].record.identity.Some? && !Alive(s.world.table, s.pcs[i].target)
    ensures var e := Advance(i, c);
      var t := After(s, [e] + [e] + [e]);
      && Run(s, [e] + [e] + [e]) && Inv(t) && HasStopped(t, i, s.pcs[i].launch)
      && i in t.pcs && t.world == s.world && t.osLock == s.osLock && t.marker.NoMarker?
      && (!s.pcs[i].launch ==> PcOf(t, i) == Stopped(Some(s.pcs[i].record)))
      && t.pcs == s.pcs[i := PcOf(t, i)]
  {
    hide Inv, Enabled, Next, Run, After, MatchRecord, Alive;
    var e := Advance(i, c);
    PollEnds(s, i, c);
    RunOne(s, e);
    var s1 := Next(s, e);
    StopMove(s1, i, c);
    RunMore(s, [e], e);
    var s2 := Next(s1, e);
    StopMove(s2, i, c);
    RunMore(s, [e] + [e], e);
  }

  function StopEvents(i: Instance, q: Instance, c: Choice): seq<Event> {
    var e := Advance(i, c);
    [e] + [e] + [e] + ([See(q)] + [Exit(q)]) + ([e] + [e] + [e])
  }

  /** A recorded runtime that watches for its token can always be stopped: it leaves, and its record is forgotten. */
  lemma {:induction false} CooperativeStop(s: State, i: Instance, c: Choice)
    requires Inv(s) && i in s.pcs && s.pcs[i].StopRead? && Stoppable(s, i) && !c.yes
    ensures var q, events := RecordedProcess(s), StopEvents(i, RecordedProcess(s), c);
      var t := After(s, events);
      && Run(s, events) && Inv(t) && HasStopped(t, i, s.pcs[i].launch)
      && !Alive(t.world.table, q) && i in t.pcs && t.marker.NoMarker?
      && t.world == s.world.(table := s.world.table - {q.pid}) && t.pcs == (s.pcs - {q})[i := PcOf(t, i)]
  {
    hide Inv, Enabled, Next, Run, After, MatchRecord, HasStopped, Alive;
    var e, q := Advance(i, c), RecordedProcess(s);
    StopMarks(s, i, c);
    var a := [e] + [e] + [e];
    var t := After(s, a);
    MarkedLeaves(t, i, q);
    var b := [See(q)] + [Exit(q)];
    var u := After(t, b);
    StopForgets(u, i, c);
    RunAppend(s, a, b);
    RunAppend(s, a + b, a);
    Repositioned(s.pcs, i, q, PcOf(t, i), PcOf(After(u, a), i));
  }

  lemma {:induction false} Repositioned(pcs: map<Instance, Pc>, i: Instance, q: Instance, x: Pc, y: Pc)
    requires q != i
    ensures (pcs[i := x] - {q})[i := y] == (pcs - {q})[i := y]
  {
  }

  /** A record of another process, or without a token, and a broken file are refused as they are. */
  lemma {:induction false} StopRefuses(s: State, i: Instance, c: Choice)
    requires Inv(s) && i in s.pcs && s.pcs[i].StopRead?
    requires s.file.BadState? || (s.file.Recorded? &&
      (MatchRecord(s.world.table, s.file.record).Mismatch?
       || (MatchRecord(s.world.table, s.file.record).Match? && s.file.record.stopToken.None?)))
    ensures var e := Advance(i, c);
      var events := if s.file.BadState? then [e] else [e] + [e];
      var t := After(s, events);
      Run(s, events) && PcOf(t, i) == Leaving && t.file == s.file && t.marker == s.marker
  {
    var e := Advance(i, c);
    hide Inv, Enabled, Next, Run, After, MatchRecord;
    StopMove(s, i, c);
    RunOne(s, e);
    if !s.file.BadState? {
      StopMove(Next(s, e), i, c);
      RunMore(s, [e], e);
    }
  }

  /** When the time is up the marker is taken back and the state file stays. */
  lemma {:induction false} TimeUpKeepsFile(s: State, i: Instance, c: Choice)
    requires Inv(s) && i in s.pcs && s.pcs[i].StopPoll? && c.yes
    ensures var e := Advance(i, c);
      var t := After(s, [e] + [e]);
      Run(s, [e] + [e]) && PcOf(t, i) == Leaving && t.file == s.file && t.marker.NoMarker? && t.world == s.world
  {
    var e := Advance(i, c);
    hide Inv, Enabled, Next, Run, After, MatchRecord;
    StopMove(s, i, c);
    RunOne(s, e);
    StopMove(Next(s, e), i, c);
    RunMore(s, [e], e);
  }

  // ---------------------------------------------------------------- a start

  /** A child with the given names can be launched. */
  predicate CanLaunch(s: State, c: Choice) {
    Fresh(s, c.child) && c.token !in s.world.owner
  }

  /** The record a start writes of its child. */
  function ChildRecord(c: Choice): Record {
    Record(c.child.pid, Some(c.child.token), Some(c.token), c.runner)
  }

  /** A running child that the state file records and that watches for its stop token. */
  predicate Started(s: State, c: Choice) {
    && s.file == StateFile.Recorded(ChildRecord(c)) && s.marker.NoMarker?
    && s.world.table.Keys >= {c.child.pid} && s.world.table[c.child.pid] == Identity(c.child.token, c.executable)
    && c.child in s.watch && s.watch[c.child] == c.token
  }

  lemma {:induction false} StartMove(s: State, i: Instance, c: Choice)
    requires Inv(s) && i in s.pcs && Starting(s.pcs[i]) && !s.pcs[i].Launching?
    ensures var t, l := Next(s, Advance(i, c)), StartStep(Local(s.pcs[i], s.file, s.marker), s.world, c);
      && Enabled(s, Advance(i, c)) && Inv(t) && i in t.pcs && t.pcs[i] == l.pc
      && t == s.(pcs := s.pcs[i := l.pc], file := l.file, marker := l.marker)
  {
    hide Inv, Next, Enabled, MatchRecord;
    OwnStep(s, i, c);
  }

  lemma {:induction false} StaysFresh(s: State, t: State, i: Instance, pc: Pc, c: Choice)
    requires CanLaunch(s, c) && t.world == s.world && t.pcs == s.pcs[i := pc] && !pc.Launched?
    ensures CanLaunch(t, c)
  {
  }

  /** Up to the launch: whatever was recorded of a runtime that is not healthy is forgotten. */
  lemma {:induction false} StartPrepares(s: State, i: Instance, c: Choice)
    requires Inv(s) && i in s.pcs && s.pcs[i].StartClear? && !c.yes && CanLaunch(s, c)
    ensures var e := Advance(i, c);
      var events := if s.file.Recorded? then [e] + [e] + [e] else [e] + [e];
      var t := After(s, events);
      && Run(s, events) && Inv(t) && i in t.pcs && t.pcs[i] == Launching && CanLaunch(t, c)
      && !t.file.Recorded? && t.marker.NoMarker? && t.osLock == s.osLock && t.world == s.world
  {
    hide Inv, Enabled, Next, Run, After, CanLaunch;
    var e := Advance(i, c);
    StartMove(s, i, c);
    RunOne(s, e);
    var s1 := Next(s, e);
    StartMove(s1, i, c);
    RunMore(s, [e], e);
    var s2 := Next(s1, e);
    StaysFresh(s, s2, i, s2.pcs[i], c);
    if s.file.Recorded? {
      StartMove(s2, i, c);
      RunMore(s, [e] + [e], e);
      StaysFresh(s, Next(s2, e), i, Launching, c);
    }
  }

  lemma {:induction false} LaunchShape(s: State, i: Instance, c: Choice)
    requires i in s.pcs && Alive(s.world.table, i) && s.pcs[i] == Launching && !c.yes && CanLaunch(s, c)
    ensures var t := Next(s, Advance(i, c));
      && Enabled(s, Advance(i, c))
      && i in t.pcs && t.pcs[i] == Launched(c.child, c.token, c.runner) && t.file == s.file && t.marker == s.marker
      && t.world.table == s.world.table[c.child.pid := Identity(c.child.token, c.executable)]
      && c.child in t.watch && t.watch[c.child] == c.token && t.osLock == s.osLock
  {
    assert c.child != i;
  }

  lemma {:induction false} LauncherLives(s: State, i: Instance, c: Choice)
    requires Inv(s) && i in s.pcs && CanLaunch(s, c)
    ensures i != c.child && Alive(s.world.table, i) && c.child.pid > 0
  {
    hide Knowledge, Files, WorldOk, Watchers;
  }

  /** A launched child is captured and recorded. */
  lemma {:induction false} LaunchedRecords(s: State, i: Instance, c: Choice)
    requires Inv(s) && i in s.pcs && s.pcs[i] == Launched(c.child, c.token, c.runner) && c.child.pid > 0
    requires c.child.pid in s.world.table && s.world.table[c.child.pid] == Identity(c.child.token, c.executable)
    ensures var e := Advance(i, c);
      var t := After(s, [e] + [e]);
      && Run(s, [e] + [e]) && Inv(t) && i in t.pcs && t.pcs[i] == Waiting(ChildRecord(c))
      && t == s.(pcs := t.pcs, file := StateFile.Recorded(ChildRecord(c)))
  {
    hide Inv, Enabled, Next, Run, After;
    var e := Advance(i, c);
    StartMove(s, i, c);
    RunOne(s, e);
    StartMove(Next(s, e), i, c);
    RunMore(s, [e], e);
  }

  /** From the launch: the child is running, and the state file records it. */
  lemma {:induction false} LaunchRecords(s: State, i: Instance, c: Choice)
    requires Inv(s) && i in s.pcs && s.pcs[i] == Launching && !c.yes && CanLaunch(s, c) && s.marker.NoMarker?
    ensures var e := Advance(i, c);
      var events := [e] + ([e] + [e]);
      var t := After(s, events);
      && Run(s, events) && Inv(t) && i in t.pcs && t.pcs[i] == Waiting(ChildRecord(c)) && Started(t, c)
      && t.osLock == s.osLock && i != c.child
  {
    hide Inv, Enabled, Next, Run, After, CanLaunch, Alive;
    var e := Advance(i, c);
    LauncherLives(s, i, c);
    LaunchShape(s, i, c);
    NextKeepsInv(s, e);
    RunOne(s, e);
    LaunchedRecords(Next(s, e), i, c);
    RunAppend(s, [e], [e] + [e]);
  }

  function StartEvents(s: State, i: Instance, c: Choice): seq<Event> {
    var e := Advance(i, c);
    (if s.file.Recorded? then [e] + [e] + [e] else [e] + [e]) + ([e] + ([e] + [e]))
  }

  /** A start over no runtime, or over one that is not healthy, ends with a child that runs, is recorded and watches. */
  lemma {:induction false} StartRecords(s: State, i: Instance, c: Choice)
    requires Inv(s) && i in s.pcs && s.pcs[i].StartClear? && !c.yes && CanLaunch(s, c)
    ensures var t := After(s, StartEvents(s, i, c));
      && Run(s, StartEvents(s, i, c)) && Inv(t) && i in t.pcs && t.pcs[i] == Waiting(ChildRecord(c)) && Started(t, c)
      && t.osLock == s.osLock && i != c.child
  {
    hide Inv, Enabled, Next, Run, After, CanLaunch, Started;
    var e := Advance(i, c);
    var a := if s.file.Recorded? then [e] + [e] + [e] else [e] + [e];
    StartPrepares(s, i, c);
    LaunchRecords(After(s, a), i, c);
    RunAppend(s, a, [e] + ([e] + [e]));
  }

  /** What a start recorded can be stopped, if the platform reports the runner it recorded or none. */
  lemma {:induction false} StartedIsStoppable(s: State, i: Instance, c: Choice)
    requires Started(s, c) && c.child.pid > 0 && i != c.child
    requires c.executable.None? || c.runner == "" || c.executable == Some(c.runner)
    ensures Stoppable(s, i) && RecordedProcess(s) == c.child
  {
  }

  /** A healthy child is left running. */
  lemma {:induction false} HealthyStays(s: State, i: Instance, c: Choice, h: Choice)
    requires Inv(s) && i in s.pcs && s.pcs[i] == Waiting(ChildRecord(c)) && Started(s, c) && h.yes
    ensures var e := Advance(i, h);
      var t := After(s, [e] + [e]);
      Run(s, [e] + [e]) && Inv(t) && i in t.pcs && t.pcs[i] == Idle && Started(t, c) && t.osLock.None?
  {
    hide Inv, Enabled, Next, Run, After;
    var e := Advance(i, h);
    StartMove(s, i, h);
    RunOne(s, e);
    OwnStep(Next(s, e), i, h);
    RunMore(s, [e], e);
  }

  function AbortEvents(i: Instance, c: Choice): seq<Event> {
    var e := Advance(i, c);
    [e] + [e] + ([See(c.child)] + [Exit(c.child)]) + ([e] + [e] + [e])
  }

  lemma {:induction false} AbortMarks(s: State, i: Instance, c: Choice)
    requires Inv(s) && i in s.pcs && s.pcs[i] == Waiting(ChildRecord(c)) && Started(s, c) && !c.yes
    ensures var e := Advance(i, c);
      var t := After(s, [e] + [e]);
      && Run(s, [e] + [e]) && Inv(t) && i in t.pcs && t.pcs[i] == AbortPoll(c.child, Some(ChildRecord(c)))
      && t.marker == Marked(c.token, c.child) && t.watch == s.watch && t.world == s.world
  {
    hide Inv, Enabled, Next, Run, After;
    var e := Advance(i, c);
    StartMove(s, i, c);
    RunOne(s, e);
    StartMove(Next(s, e), i, c);
    RunMore(s, [e], e);
  }

  lemma {:induction false} DeadChild(table: Table, c: Choice)
    requires !Alive(table, c.child)
    ensures !MatchRecord(table, ChildRecord(c)).Match?
  {
  }

  lemma {:induction false} AbortPollEnds(s: State, i: Instance, c: Choice)
    requires Inv(s) && i in s.pcs && s.pcs[i] == AbortPoll(c.child, Some(ChildRecord(c)))
    requires !Alive(s.world.table, c.child)
    ensures var t := Next(s, Advance(i, c));
      && Enabled(s, Advance(i, c)) && Inv(t) && i in t.pcs && t.pcs[i] == AbortUnmark(Some(ChildRecord(c)))
      && t.world == s.world
  {
    hide Inv, Enabled, Next, MatchRecord, Alive;
    DeadChild(s.world.table, c);
    StartMove(s, i, c);
  }

  lemma {:induction false} AbortForgets(s: State, i: Instance, c: Choice)
    requires Inv(s) && i in s.pcs && s.pcs[i] == AbortPoll(c.child, Some(ChildRecord(c)))
    requires !Alive(s.world.table, c.child)
    ensures var e := Advance(i, c);
      var t := After(s, [e] + [e] + [e]);
      && Run(s, [e] + [e] + [e]) && Inv(t) && i in t.pcs && t.pcs[i] == Leaving
      && t.file.NoState? && t.marker.NoMarker? && t.world == s.world
  {
    hide Inv, Enabled, Next, Run, After, MatchRecord, Alive;
    var e := Advance(i, c);
    AbortPollEnds(s, i, c);
    RunOne(s, e);
    var s1 := Next(s, e);
    StartMove(s1, i, c);
    RunMore(s, [e], e);
    StartMove(Next(s1, e), i, c);
    RunMore(s, [e] + [e], e);
  }

  /** A start whose child does not get healthy asks it to leave, and forgets it. */
  lemma {:induction false} AbortedStart(s: State, i: Instance, c: Choice)
    requires Inv(s) && i in s.pcs && s.pcs[i] == Waiting(ChildRecord(c)) && Started(s, c) && !c.yes && i != c.child
    ensures var t := After(s, AbortEvents(i, c));
      && Run(s, AbortEvents(i, c)) && Inv(t) && PcOf(t, i) == Leaving
      && t.file.NoState? && t.marker.NoMarker? && !Alive(t.world.table, c.child)
  {
    AbortMarks(s, i, c);
    hide Inv, Enabled, Next, Run, After, Alive;
    var e := Advance(i, c);
    var a, b := [e] + [e], [See(c.child)] + [Exit(c.child)];
    var t := After(s, a);
    MarkedLeaves(t, i, c.child);
    var u := After(t, b);
    AbortForgets(u, i, c);
    RunAppend(s, a, b);
    RunAppend(s, a + b, [e] + [e] + [e]);
  }

  // ---------------------------------------------------------------- a start and then a stop

  lemma {:induction false} BeginShape(s: State, i: Instance, operation: Operation)
    requires Inv(s) && i in s.pcs && s.pcs[i] == Idle && s.osLock.None?
    ensures var t := Next(s, Begin(i, operation));
      && Enabled(s, Begin(i, operation)) && Inv(t) && i in t.pcs && t.pcs[i] == First(operation)
      && t == s.(pcs := s.pcs[i := First(operation)], osLock := Some(i))
  {
    assert Enabled(s, Begin(i, operation)) by { hide Knowledge, Files, WorldOk, Watchers; }
    hide Inv;
    NextKeepsInv(s, Begin(i, operation));
  }

  /** Start, health check, stop: the events of one life of a runtime. */
  function LifeEvents(s: State, i: Instance, c: Choice, h: Choice): seq<Event> {
    var e := Advance(i, h);
    [Begin(i, Start)] + StartEvents(s, i, c) + ([e] + [e]) + [Begin(i, Stop)] + StopEvents(i, c.child, c)
  }

  /** From any state with the lock free: a start leaves a running, recorded child, and a stop after it nothing. */
  lemma {:induction false} StartThenStop(s: State, i: Instance, c: Choice, h: Choice)
    requires Inv(s) && i in s.pcs && s.pcs[i] == Idle && s.osLock.None? && CanLaunch(s, c) && !c.yes && h.yes
    requires c.executable.None? || c.runner == "" || c.executable == Some(c.runner)
    ensures var t := After(s, LifeEvents(s, i, c, h));
      && Run(s, LifeEvents(s, i, c, h)) && Inv(t) && PcOf(t, i).Stopped?
      && t.file.NoState? && t.marker.NoMarker? && !Alive(t.world.table, c.child)
  {
    assert c.child.pid > 0;
    hide Inv, Enabled, Next, Run, After, CanLaunch, Started, Alive, StartEvents, StopEvents;
    BeginShape(s, i, Start);
    var a := [Begin(i, Start)];
    RunOne(s, Begin(i, Start));
    var s1 := After(s, a);
    StaysFresh(s, s1, i, StartClear, c);
    StartRecords(s1, i, c);
    SameStart(s, s1, i, c);
    var b := StartEvents(s, i, c);
    RunAppend(s, a, b);
    var s2 := After(s, a + b);
    var e := Advance(i, h);
    HealthyStays(s2, i, c, h);
    RunAppend(s, a + b, [e] + [e]);
    var ab := a + b + ([e] + [e]);
    StopAgain(s, ab, i, c);
  }

  lemma {:induction false} SameStart(s: State, t: State, i: Instance, c: Choice)
    requires s.file == t.file
    ensures StartEvents(s, i, c) == StartEvents(t, i, c)
  {
  }

  lemma {:induction false} StopAgain(s: State, events: seq<Event>, i: Instance, c: Choice)
    requires Run(s, events) && !c.yes && i != c.child && c.child.pid > 0
    requires var t := After(s, events);
      Inv(t) && i in t.pcs && t.pcs[i] == Idle && Started(t, c) && t.osLock.None?
    requires c.executable.None? || c.runner == "" || c.executable == Some(c.runner)
    ensures var all := events + [Begin(i, Stop)] + StopEvents(i, c.child, c);
      var t := After(s, all);
      && Run(s, all) && Inv(t) && PcOf(t, i).Stopped?
      && t.file.NoState? && t.marker.NoMarker? && !Alive(t.world.table, c.child)
  {
    hide Inv, Enabled, Next, Run, After, Started, Alive, StopEvents, Stoppable;
    var t := After(s, events);
    BeginShape(t, i, Stop);
    RunMore(s, events, Begin(i, Stop));
    var u := After(s, events + [Begin(i, Stop)]);
    StartedStays(t, u, c);
    StartedIsStoppable(u, i, c);
    CooperativeStop(u, i, c);
    RunAppend(s, events + [Begin(i, Stop)], StopEvents(i, c.child, c));
  }

  lemma {:induction false} StartedStays(s: State, t: State, c: Choice)
    requires Started(s, c) && t.file == s.file && t.marker == s.marker && t.world == s.world && t.watch == s.watch
    ensures Started(t, c)
  {
  }

  lemma {:induction false} StopFrees(s: State, t: State, i: Instance, q: Instance, c: Choice)
    requires CanLaunch(s, c) && t.world == s.world.(table := s.world.table - {q.pid})
    requires t.pcs == (s.pcs - {q})[i := PcOf(t, i)] && PcOf(t, i) == Launching
    ensures CanLaunch(t, c)
  {
  }

  /** A start over a healthy runtime with other settings stops it first; then the new child runs and is recorded. */
  lemma {:induction false} StartReplaces(s: State, i: Instance, d: Choice, c: Choice)
    requires Inv(s) && i in s.pcs && s.pcs[i].StartRead? && Stoppable(s, i) && CanLaunch(s, c)
    requires d.yes && !d.same && !c.yes
    ensures var e := Advance(i, c);
      var q, events := RecordedProcess(s), [Advance(i, d)] + StopEvents(i, RecordedProcess(s), c) + ([e] + ([e] + [e]));
      var t := After(s, events);
      && Run(s, events) && Inv(t) && i in t.pcs && t.pcs[i] == Waiting(ChildRecord(c)) && Started(t, c)
      && q != c.child && q.pid in s.world.table
  {
    var e, q := Advance(i, c), RecordedProcess(s);
    assert q.pid != c.child.pid;
    hide Inv, Enabled, Next, Run, After, CanLaunch, Started, StopEvents;
    StartMove(s, i, d);
    RunOne(s, Advance(i, d));
    var a := [Advance(i, d)];
    var s1 := After(s, a);
    StaysFresh(s, s1, i, StopRead(true), c);
    hide Stoppable, StartStep;
    SameStoppable(s, s1, i);
    CooperativeStop(s1, i, c);
    var b := StopEvents(i, q, c);
    RunAppend(s, a, b);
    var s2 := After(s, a + b);
    StopFrees(s1, s2, i, q, c);
    LaunchRecords(s2, i, c);
    RunAppend(s, a + b, [e] + ([e] + [e]));
  }

  lemma {:induction false} SameStoppable(s: State, t: State, i: Instance)
    requires Stoppable(s, i) && t.file == s.file && t.world == s.world && t.watch == s.watch
    ensures Stoppable(t, i) && RecordedProcess(t) == RecordedProcess(s)
  {
  }

  // ---------------------------------------------------------------- the other operations

  /** A foreground runtime records itself and watches for its token. */
  lemma {:induction false} ForegroundRecords(s: State, i: Instance, c: Choice)
    requires Inv(s) && i in s.pcs && s.pcs[i].ServeRecord? && !c.yes && c.token !in s.world.owner
    ensures var e := Advance(i, c);
      var t := After(s, [e] + [e] + [e]);
      && Run(s, [e] + [e] + [e]) && Inv(t) && PcOf(t, i) == Leaving
      && t.file == OwnRecord(i, c) && t.marker.NoMarker? && i in t.watch && t.watch[i] == c.token
  {
    var e := Advance(i, c);
    hide Inv, Enabled, Next, Run, After;
    ServeShape(s, i, c);
    NextKeepsInv(s, e);
    RunOne(s, e);
    var s1 := Next(s, e);
    UnmarkShape(s1, i, c);
    RunMore(s, [e], e);
    var s2 := Next(s1, e);
    WatchShape(s2, i, c);
    NextKeepsInv(s2, e);
    RunMore(s, [e] + [e], e);
  }

  lemma {:induction false} ServeShape(s: State, i: Instance, c: Choice)
    requires Inv(s) && i in s.pcs && s.pcs[i].ServeRecord? && !c.yes && c.token !in s.world.owner
    ensures var t := Next(s, Advance(i, c));
      Enabled(s, Advance(i, c)) && i in t.pcs && t.pcs[i] == ServeClear(c.token) && t.file == OwnRecord(i, c)
  {
    hide Knowledge, Files, WorldOk, Watchers;
  }

  lemma {:induction false} UnmarkShape(s: State, i: Instance, c: Choice)
    requires Inv(s) && i in s.pcs && s.pcs[i].ServeClear?
    ensures var t := Next(s, Advance(i, c));
      && Enabled(s, Advance(i, c)) && Inv(t) && i in t.pcs && t.pcs[i] == ServeWatch(s.pcs[i].token)
      && t.file == s.file && t.marker.NoMarker?
  {
    hide Inv, Enabled, Next;
    OwnStep(s, i, c);
  }

  lemma {:induction false} WatchShape(s: State, i: Instance, c: Choice)
    requires Inv(s) && i in s.pcs && s.pcs[i].ServeWatch?
    ensures var t := Next(s, Advance(i, c));
      && Enabled(s, Advance(i, c)) && PcOf(t, i) == Leaving && t.file == s.file && t.marker == s.marker
      && i in t.watch && t.watch[i] == s.pcs[i].token
  {
    hide Knowledge, Files, WorldOk, Watchers;
  }

  /** It gets there unless a healthy runtime is recorded; one that is not healthy is forgotten. */
  lemma {:induction false} ForegroundReads(s: State, i: Instance, c: Choice)
    requires Inv(s) && i in s.pcs && s.pcs[i].ServeRead?
    ensures var e := Advance(i, c);
      var events := if s.file.Recorded? && !c.yes then [e] + [e] else [e];
      var t := After(s, events);
      && Run(s, events) && Inv(t) && i in t.pcs && t.world == s.world
      && (s.file.Recorded? && c.yes ==> t.pcs[i] == Leaving && t.file == s.file)
      && (!(s.file.Recorded? && c.yes) ==> t.pcs[i] == ServeRecord && !t.file.Recorded?)
  {
    hide Inv, Enabled, Next, Run, After;
    var e := Advance(i, c);
    OwnStep(s, i, c);
    RunOne(s, e);
    if s.file.Recorded? && !c.yes {
      OwnStep(Next(s, e), i, c);
      RunMore(s, [e], e);
    }
  }

  /** Cleanup removes the state file unless it cannot be read or its process matches. */
  lemma {:induction false} CleanupRemoves(s: State, i: Instance, c: Choice)
    requires Inv(s) && i in s.pcs && s.pcs[i].CleanCheck?
    ensures var e := Advance(i, c);
      var blocked := s.file.BadState? || (s.file.Recorded? && MatchRecord(s.world.table, s.file.record).Match?);
      var events := if blocked then [e] else [e] + [e];
      var t := After(s, events);
      && Run(s, events) && PcOf(t, i) == Leaving && t.marker == s.marker
      && t.file == if blocked then s.file else NoState
  {
    hide Inv, Enabled, Next, Run, After, MatchRecord;
    var e := Advance(i, c);
    OwnStep(s, i, c);
    RunOne(s, e);
    if PcOf(Next(s, e), i).CleanForget? {
      OwnStep(Next(s, e), i, c);
      RunMore(s, [e], e);
    }
  }

  /** A runtime that ends removes the state file exactly if it records its pid. */
  lemma {:induction false} ShutdownForgets(s: State, i: Instance, c: Choice)
    requires Inv(s) && i in s.pcs && s.pcs[i].ExitRead?
    ensures var e := Advance(i, c);
      var own := s.file.Recorded? && s.file.record.pid == i.pid;
      var events := if own then [e] + [e] else [e];
      var t := After(s, events);
      Run(s, events) && PcOf(t, i) == Idle && t.file == (if own then NoState else s.file) && t.marker == s.marker
  {
    hide Inv, Enabled, Next, Run, After;
    var e := Advance(i, c);
    OwnStep(s, i, c);
    RunOne(s, e);
    if PcOf(Next(s, e), i).ExitForget? {
      OwnStep(Next(s, e), i, c);
      RunMore(s, [e], e);
    }
  }

  // ---------------------------------------------------------------- waiting

  /** While the process still matches and there is time, a stop polls again. */
  lemma {:induction false} StopWaits(s: State, i: Instance, c: Choice)
    requires Inv(s) && i in s.pcs && s.pcs[i].StopPoll? && !c.yes
    requires Alive(s.world.table, s.pcs[i].target)
    ensures Next(s, Advance(i, c)) == s
  {
    KnowledgeOf(s, i);
    hide Inv, Enabled, Next, MatchRecord, Alive;
    StopMove(s, i, c);
    assert s.pcs[i := s.pcs[i]] == s.pcs;
  }

  /** A start that gives up waits in the same way for its child to leave. */
  lemma {:induction false} AbortWaits(s: State, i: Instance, c: Choice)
    requires Inv(s) && i in s.pcs && s.pcs[i].AbortPoll? && !c.yes
    requires match s.pcs[i].written
             case Some(r) => MatchRecord(s.world.table, r).Match?
             case None => s.pcs[i].target.pid > 0 && s.pcs[i].target.pid in s.world.table
    ensures Next(s, Advance(i, c)) == s
  {
    hide Inv, Enabled, Next, MatchRecord;
    StartMove(s, i, c);
    assert s.pcs[i := s.pcs[i]] == s.pcs;
  }
}
