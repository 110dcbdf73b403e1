/**
 The start lock of `src/serve.rs` as a step-by-step protocol. Any number of
 processes race for it; any of them may crash between two steps, and a later
 process may be given a dead one's pid. An operating-system lock, freed when its
 holder dies, guards an owner-stamped lock file, which is not.
 */
module StartLock {
  import opened Text
  import opened ProcessIdentity

  /** The lock file; a file just created, or half written by a crash, has no readable owner. */
  datatype LockFile = Absent | Malformed | Owner(pid: nat, identity: Option<string>)

  datatype Failure =
    | MalformedLock(age: int)
    | InProgress
    | Changed
    | Exhausted
    | Io

  /** Where a process is in `acquire_serve_start_lock`, in its guard's life, or in another locked operation. */
  datatype Pc =
    | Idle
    | Creating(attempt: nat)
    | Reading(attempt: nat)
    | Unreadable(attempt: nat)
    | Matching(attempt: nat, pid: nat, identity: Option<string>)
    | Removing(attempt: nat)
    | Writing
    | Holding
    | DropChecked(own: bool)
    | Releasing
    | Failed(failure: Failure)
    | Coordinating

  datatype State = State(
    table: Table,
    past: set<Instance>,
    osLock: Option<Instance>,
    file: LockFile,
    modified: int,
    now: int,
    pcs: map<Instance, Pc>)

  datatype Event =
    | Spawn(born: Instance, executable: Option<string>)
    | Crash(victim: Instance)
    | Clock(time: int)
    | Begin(who: Instance, start: bool)
    | Advance(who: Instance)

  const ATTEMPTS := 2
  const STALE_AFTER := 30_000

  function PcOf(s: State, i: Instance): Pc {
    if i in s.pcs then s.pcs[i] else Idle
  }

  predicate Enabled(s: State, e: Event) {
    match e
    case Spawn(i, _) => i.pid > 0 && i.pid !in s.table && i !in s.past
    case Crash(i) => Alive(s.table, i)
    case Clock(_) => true
    case Begin(i, _) => Alive(s.table, i) && PcOf(s, i) == Idle && s.osLock.None?
    case Advance(i) => Alive(s.table, i) && PcOf(s, i) != Idle
  }

  /** One step of process `i`, between two accesses to the file, the clock or the process table. */
  function Step(s: State, i: Instance): State {
    var to := (pc: Pc) => s.(pcs := s.pcs[i := pc]);
    match PcOf(s, i)
    case Idle => s
    case Creating(n) =>
      if n >= ATTEMPTS then to(Failed(Exhausted))
      else if s.file.Absent? then to(Writing).(file := Malformed, modified := s.now)
      else to(Reading(n))
    case Reading(n) =>
      if s.file.Owner? && s.file.pid > 0 then to(Matching(n, s.file.pid, s.file.identity)) else to(Unreadable(n))
    case Unreadable(n) =>
      if s.file.Absent? then to(Failed(Io))
      else if n == 0 && s.now - s.modified >= STALE_AFTER then to(Removing(n))
      else to(Failed(MalformedLock(s.now - s.modified)))
    case Matching(n, pid, identity) =>
      if MatchProcess(s.table, pid, identity, None).Match? then to(Failed(InProgress))
      else if n == 0 then to(Removing(n))
      else to(Failed(Changed))
    case Removing(n) =>
      if s.file.Absent? then to(Failed(Io)) else to(Creating(n + 1)).(file := Absent)
    case Writing => to(Holding).(file := Owner(i.pid, Some(i.token)), modified := s.now)
    case Holding => to(DropChecked(s.file == Owner(i.pid, Some(i.token))))
    case DropChecked(own) => to(Releasing).(file := if own then Absent else s.file)
    case Releasing => to(Idle).(osLock := None)
    case Failed(_) => to(Idle).(osLock := None)
    case Coordinating => to(Idle).(osLock := None)
  }

  function Next(s: State, e: Event): State {
    match e
    case Spawn(i, executable) =>
      s.(table := s.table[i.pid := Identity(i.token, executable)], past := s.past + {i}, pcs := s.pcs[i := Idle])
    case Crash(i) =>
      s.(table := s.table - {i.pid}, pcs := s.pcs - {i}, osLock := if s.osLock == Some(i) then None else s.osLock)
    case Clock(time) => s.(now := time)
    case Begin(i, start) =>
      s.(osLock := Some(i), pcs := s.pcs[i := if start then Creating(0) else Coordinating])
    case Advance(i) => Step(s, i)
  }

  /** Nothing runs yet; the file may hold anything an earlier process left behind. */
  predicate Init(s: State) {
    && s.table == map[] && s.pcs == map[] && s.osLock.None?
    && (s.file.Owner? && s.file.identity.Some? ==> Instance(s.file.pid, s.file.identity.value) in s.past)
  }

  predicate Run(s: State, events: seq<Event>)
    decreases |events|
  {
    events == [] || (Enabled(s, events[0]) && Run(Next(s, events[0]), events[1..]))
  }

  function After(s: State, events: seq<Event>): State
    decreases |events|
  {
    if events == [] then s else After(Next(s, events[0]), events[1..])
  }

  // ---------------------------------------------------------------- the invariant

  predicate Names(file: LockFile, i: Instance) {
    file == Owner(i.pid, Some(i.token))
  }

  /** What a process at `pc` knows of the lock file while it holds the operating-system lock. */
  predicate Knows(pc: Pc, i: Instance, file: LockFile) {
    match pc
    case Idle => true
    case Creating(n) => n == 0 || (n == 1 && file.Absent?)
    case Reading(n) => n == 0 && !file.Absent?
    case Unreadable(n) => n == 0 && !file.Absent?
    case Matching(n, pid, identity) => n == 0 && pid > 0 && file == Owner(pid, identity)
    case Removing(n) => n == 0 && !file.Absent?
    case Writing => file.Malformed?
    case Holding => Names(file, i)
    case DropChecked(own) => own && Names(file, i)
    case Releasing => file.Absent?
    case Failed(failure) => failure.MalformedLock? && failure.age < STALE_AFTER
    case Coordinating => true
  }

  /** The part of a process's run in which the lock file may bear its name. */
  predicate Stamped(pc: Pc) {
    pc.Holding? || pc.DropChecked?
  }

  ghost predicate Processes(s: State) {
    && (forall i | i in s.pcs :: Alive(s.table, i))
    && (forall pid | pid in s.table ::
          pid > 0 && Instance(pid, s.table[pid].token) in s.past && Instance(pid, s.table[pid].token) in s.pcs)
  }

  ghost predicate Locked(s: State) {
    && (s.osLock.Some? ==> s.osLock.value in s.pcs && s.pcs[s.osLock.value] != Idle)
    && (forall i | i in s.pcs && s.pcs[i] != Idle :: s.osLock == Some(i))
  }

  ghost predicate FileOwner(s: State) {
    && (s.file.Owner? && s.file.identity.Some? ==> Instance(s.file.pid, s.file.identity.value) in s.past)
    && (forall i | i in s.pcs && Names(s.file, i) :: Stamped(s.pcs[i]))
    && (forall i | i in s.pcs :: Knows(s.pcs[i], i, s.file))
  }

  ghost predicate Inv(s: State) {
    Processes(s) && Locked(s) && FileOwner(s)
  }

  /** The owner a reader found is dead, so the match fails and the file is reclaimed. */
  lemma {:induction false} FoundOwnerIsDead(s: State, i: Instance)
    requires Inv(s) && i in s.pcs && s.pcs[i].Matching?
    ensures !MatchProcess(s.table, s.pcs[i].pid, s.pcs[i].identity, None).Match?
  {
    hide MatchProcess;
    var pc := s.pcs[i];
    if pc.identity.Some? {
      MatchNamesInstance(s.table, pc.pid, pc.identity.value, None);
      var owner := Instance(pc.pid, pc.identity.value);
      assert Alive(s.table, owner) ==> owner in s.pcs && Names(s.file, owner);
    } else {
      MatchNamesInstance(s.table, pc.pid, "", None);
    }
  }

  lemma {:induction false} StepShape(s: State, i: Instance)
    requires i in s.pcs && s.pcs[i] != Idle
    ensures var t := Step(s, i);
      && i in t.pcs && t.pcs == s.pcs[i := t.pcs[i]] && t.table == s.table && t.past == s.past
      && t.osLock == (if t.pcs[i] == Idle then None else s.osLock)
  {
    hide MatchProcess;
  }

  lemma {:induction false} StepFile(s: State, i: Instance)
    requires Inv(s) && i in s.pcs && s.pcs[i] != Idle
    ensures var t := Step(s, i);
      && i in t.pcs && Knows(t.pcs[i], i, t.file) && (Names(t.file, i) ==> Stamped(t.pcs[i]))
      && (t.file == s.file || !t.file.Owner? || Names(t.file, i))
  {
    hide MatchProcess;
    assert Knows(s.pcs[i], i, s.file) && (Names(s.file, i) ==> Stamped(s.pcs[i]));
    if s.pcs[i].Matching? { FoundOwnerIsDead(s, i); }
    hide Inv;
  }

  lemma {:induction false} StepKeepsInv(s: State, i: Instance)
    requires Inv(s) && Enabled(s, Advance(i))
    ensures Inv(Step(s, i))
  {
    hide Step, Knows;
    StepShape(s, i);
    StepFile(s, i);
    var t := Step(s, i);
    assert i in s.past;
    forall j | j in t.pcs && j != i ensures t.pcs[j] == Idle && Knows(Idle, j, t.file) && !Names(t.file, j) {
      IdleKnows(j, t.file);
      assert s.pcs[j] == Idle && (Names(s.file, j) ==> Stamped(s.pcs[j]));
    }
  }

  lemma {:induction false} IdleKnows(j: Instance, file: LockFile)
    ensures Knows(Idle, j, file)
  {
  }

  lemma {:induction false} NextKeepsInv(s: State, e: Event)
    requires Inv(s) && Enabled(s, e)
    ensures Inv(Next(s, e))
  {
    match e
    case Advance(i) => StepKeepsInv(s, i);
    case _ =>
  }

  lemma {:induction false} RunKeepsInv(s: State, events: seq<Event>)
    requires Inv(s) && Run(s, events)
    ensures Inv(After(s, events))
    decreases |events|
  {
    hide Inv, Next, Enabled;
    if events != [] {
      NextKeepsInv(s, events[0]);
      RunKeepsInv(Next(s, events[0]), events[1..]);
    }
  }

  // ---------------------------------------------------------------- what every run keeps

  /** At most one process holds the guard, and a file naming a live process means that it holds the lock. */
  lemma {:induction false} Exclusive(s: State, events: seq<Event>, i: Instance, j: Instance)
    requires Init(s) && Run(s, events)
    ensures var t := After(s, events);
      && (Stamped(PcOf(t, i)) && Stamped(PcOf(t, j)) ==> i == j)
      && (Names(t.file, i) && Alive(t.table, i) ==> t.osLock == Some(i) && Stamped(PcOf(t, i)))
      && (PcOf(t, i).Holding? ==> Names(t.file, i) && t.osLock == Some(i))
  {
    RunKeepsInv(s, events);
  }

  /** The only failure an acquirer can report is a malformed lock file less than 30 seconds old. */
  lemma {:induction false} OnlyFreshMalformedFails(s: State, events: seq<Event>, i: Instance)
    requires Init(s) && Run(s, events)
    ensures var t := After(s, events);
      PcOf(t, i).Failed? ==> PcOf(t, i).failure.MalformedLock? && PcOf(t, i).failure.age < 30_000
  {
    RunKeepsInv(s, events);
  }

  // ---------------------------------------------------------------- progress

  predicate Acquiring(pc: Pc) {
    pc.Creating? || pc.Reading? || pc.Unreadable? || pc.Matching? || pc.Removing? || pc.Writing?
  }

  /** The most steps an acquirer has left before it holds the guard or fails. */
  function Rank(pc: Pc): nat {
    match pc
    case Creating(n) => if n == 0 then 6 else if n == 1 then 2 else 1
    case Reading(n) => 5
    case Unreadable(n) => 4
    case Matching(n, _, _) => 4
    case Removing(n) => 3
    case Writing => 1
    case _ => 0
  }

  function Steps(events: seq<Event>, i: Instance): nat {
    if events == [] then 0 else (if events[0] == Advance(i) then 1 else 0) + Steps(events[1..], i)
  }

  lemma {:induction false} StepRanks(s: State, i: Instance)
    requires Inv(s) && Enabled(s, Advance(i)) && Acquiring(PcOf(s, i))
    ensures var pc := PcOf(Step(s, i), i);
      && Rank(pc) < Rank(PcOf(s, i))
      && (Acquiring(pc) || pc.Holding? || pc.Failed?)
  {
  }

  /** A live acquirer is never stuck: its next step is enabled, and nobody else's step moves it. */
  lemma {:induction false} OthersLeaveAlone(s: State, e: Event, i: Instance)
    requires Inv(s) && Enabled(s, e) && PcOf(s, i) != Idle
    requires e != Advance(i) && e != Crash(i)
    ensures PcOf(Next(s, e), i) == PcOf(s, i) && Enabled(Next(s, e), Advance(i))
  {
  }

  /** Six steps of its own are enough, whatever the others do: two attempts, then the guard or a failure. */
  lemma {:induction false} Progress(s: State, events: seq<Event>, i: Instance) returns (k: nat)
    requires Inv(s) && Run(s, events) && Acquiring(PcOf(s, i))
    requires Crash(i) !in events && Steps(events, i) >= Rank(PcOf(s, i))
    ensures k <= |events|
    ensures var pc := PcOf(After(s, events[..k]), i); pc.Holding? || pc.Failed?
    decreases |events|
  {
    hide Inv, Enabled;
    assert events != [];
    var e, rest := events[0], events[1..];
    var t := Next(s, e);
    NextKeepsInv(s, e);
    if e == Advance(i) {
      StepRanks(s, i);
    } else {
      OthersLeaveAlone(s, e, i);
    }
    if Acquiring(PcOf(t, i)) {
      var m := Progress(t, rest, i);
      k := m + 1;
      assert events[..k][1..] == rest[..m];
    } else {
      k := 1;
      assert events[..1][1..] == [];
    }
  }

  /** From a granted operating-system lock, an acquirer ends up with the guard unless the file is freshly malformed. */
  lemma {:induction false} Acquires(s: State, events: seq<Event>, i: Instance) returns (k: nat)
    requires Inv(s) && Enabled(s, Begin(i, true)) && Run(Next(s, Begin(i, true)), events)
    requires Crash(i) !in events && Steps(events, i) >= 6
    ensures k <= |events|
    ensures var pc := PcOf(After(Next(s, Begin(i, true)), events[..k]), i);
      pc.Holding? || (pc.Failed? && pc.failure.MalformedLock? && pc.failure.age < 30_000)
  {
    var t := Next(s, Begin(i, true));
    NextKeepsInv(s, Begin(i, true));
    k := Progress(t, events, i);
    RunPrefix(t, events, k);
    RunKeepsInv(t, events[..k]);
  }

  lemma {:induction false} RunPrefix(s: State, events: seq<Event>, k: nat)
    requires Run(s, events) && k <= |events|
    ensures Run(s, events[..k])
    decreases |events|
  {
    hide Next, Enabled;
    if k > 0 {
      RunPrefix(Next(s, events[0]), events[1..], k - 1);
      assert events[..k][1..] == events[1..][..k - 1];
    }
  }

  // ---------------------------------------------------------------- release

  /** A guard that is dropped takes its lock file away and then frees the operating-system lock. */
  lemma {:induction false} Releases(s: State, i: Instance)
    requires Inv(s) && i in s.pcs && s.pcs[i].Holding?
    ensures var e := Advance(i);
      && Enabled(s, e) && Enabled(Step(s, i), e) && Enabled(Step(Step(s, i), i), e)
      && var t := Step(Step(Step(s, i), i), i);
         PcOf(t, i) == Idle && t.osLock.None? && t.file.Absent? && t.table == s.table
  {
  }

  /** A malformed file is left alone until it is 30 seconds old; the acquirer fails and frees the lock. */
  lemma {:induction false} FreshMalformedStays(s: State, i: Instance)
    requires Inv(s) && i in s.pcs && s.pcs[i].Unreadable? && s.now - s.modified < 30_000
    ensures var t := Step(s, i);
      && Enabled(s, Advance(i)) && PcOf(t, i) == Failed(MalformedLock(s.now - s.modified)) && t.file == s.file
      && Enabled(t, Advance(i)) && Step(t, i).osLock.None? && Step(t, i).file == s.file
  {
  }

  /** Over every run a guard that is dropped finds its own name in the lock file. */
  lemma {:induction false} DropsOwnFile(s: State, events: seq<Event>, i: Instance)
    requires Init(s) && Run(s, events)
    ensures var t := After(s, events); PcOf(t, i).DropChecked? ==> PcOf(t, i).own && Names(t.file, i)
  {
    RunKeepsInv(s, events);
  }
}
