/**
 Starting, stopping and cleaning up a served runtime, after `src/serve.rs` and
 `src/cleanup.rs`. Operations take the lifecycle lock and then work on two
 files, the state file that records the runtime and the marker that asks it to
 stop, one access at a time; runtimes watch the marker and leave without any
 lock. Every process may crash between two steps and pids are reused.
 */
module StopProtocol {
  import opened Text
  import opened ProcessIdentity

  datatype Record = Record(pid: nat, identity: Option<string>, stopToken: Option<string>, runner: string)

  datatype StateFile = NoState | BadState | Recorded(record: Record)

  /** The stop marker; `target` is bookkeeping, the process its writer meant to stop. */
  datatype Marker = NoMarker | Marked(token: string, target: Instance)

  datatype Operation = Stop | Start | Foreground | Cleanup

  /** Where a process is in an operation. `launch` says that a start goes on after stopping. */
  datatype Pc =
    | Idle
    | Leaving
    | StopRead(launch: bool)
    | StopMatch(launch: bool, record: Record)
    | StopMark(launch: bool, record: Record, token: string, target: Instance)
    | StopPoll(launch: bool, record: Record, target: Instance)
    | StopUnmark(launch: bool, record: Record, ok: bool)
    | StopForget(launch: bool, was: Option<Record>)
    | Stopped(was: Option<Record>)
    | StartClear
    | StartRead
    | StartForget
    | Launching
    | Launched(child: Instance, token: string, runner: string)
    | Recording(record: Record)
    | Waiting(record: Record)
    | AbortMark(token: string, target: Instance, written: Option<Record>)
    | AbortPoll(target: Instance, written: Option<Record>)
    | AbortUnmark(written: Option<Record>)
    | AbortForget
    | ServeRead
    | ServeForget
    | ServeRecord
    | ServeClear(token: string)
    | ServeWatch(token: string)
    | ExitRead
    | ExitForget
    | CleanCheck
    | CleanForget

  /** The process table, every process there ever was, and whom each stop token was made for. */
  datatype World = World(table: Table, past: set<Instance>, owner: map<string, Instance>)

  datatype State = State(
    world: World,
    osLock: Option<Instance>,
    file: StateFile,
    marker: Marker,
    watch: map<Instance, string>,
    exiting: map<Instance, Instance>,
    pcs: map<Instance, Pc>)

  /** What the environment decides at a step: a health or time-out answer, fresh names. */
  datatype Choice = Choice(yes: bool, same: bool, token: string, child: Instance, executable: Option<string>,
      runner: string)

  datatype Event =
    | Spawn(born: Instance, executable: Option<string>)
    | Crash(victim: Instance)
    | Begin(who: Instance, operation: Operation)
    | Advance(who: Instance, choice: Choice)
    | Shutdown(who: Instance)
    | See(who: Instance)
    | Exit(who: Instance)

  // ---------------------------------------------------------------- the operations

  /** What one step of an operation reads and writes: its own position and the two files. */
  datatype Local = Local(pc: Pc, file: StateFile, marker: Marker)

  function MatchRecord(table: Table, r: Record): Verdict {
    MatchProcess(table, r.pid, r.identity, Some(r.runner))
  }

  predicate Stopping(pc: Pc) {
    pc.StopRead? || pc.StopMatch? || pc.StopMark? || pc.StopPoll? || pc.StopUnmark? || pc.StopForget?
  }

  /** `stop_existing_serve_locked` and `request_cooperative_serve_stop` */
  function StopStep(l: Local, w: World, c: Choice): Local
    requires Stopping(l.pc)
  {
    match l.pc
    case StopRead(launch) =>
      (match l.file
       case NoState => l.(pc := StopForget(launch, None))
       case BadState => l.(pc := Leaving)
       case Recorded(r) => l.(pc := StopMatch(launch, r)))
    case StopMatch(launch, r) =>
      (match MatchRecord(w.table, r)
       case Match =>
         if r.stopToken.None? || r.pid !in w.table then l.(pc := Leaving)
         else l.(pc := StopMark(launch, r, r.stopToken.value, Instance(r.pid, w.table[r.pid].token)))
       case NotFound => l.(pc := StopForget(launch, Some(r)))
       case Mismatch => l.(pc := Leaving))
    case StopMark(launch, r, token, target) => l.(pc := StopPoll(launch, r, target), marker := Marked(token, target))
    case StopPoll(launch, r, target) =>
      if c.yes then l.(pc := StopUnmark(launch, r, false))
      else if MatchRecord(w.table, r).Match? then l
      else l.(pc := StopUnmark(launch, r, true))
    case StopUnmark(launch, r, ok) => l.(pc := if ok then StopForget(launch, Some(r)) else Leaving, marker := NoMarker)
    case StopForget(launch, was) => l.(pc := if launch then Launching else Stopped(was), file := NoState)
  }

  predicate Starting(pc: Pc) {
    || pc.StartClear? || pc.StartRead? || pc.StartForget? || pc.Launching? || pc.Launched? || pc.Recording?
    || pc.Waiting? || pc.AbortMark? || pc.AbortPoll? || pc.AbortUnmark? || pc.AbortForget?
  }

  /** `run_start` around its launch: the child has a token of its own and is then recorded. */
  function StartStep(l: Local, w: World, c: Choice): Local
    requires Starting(l.pc)
  {
    match l.pc
    case StartClear => l.(pc := StartRead, marker := NoMarker)
    case StartRead =>
      if !l.file.Recorded? then l.(pc := Launching)
      else if !c.yes then l.(pc := StartForget)
      else l.(pc := if c.same then Launching else StopRead(true))
    case StartForget => l.(pc := Launching, file := NoState)
    case Launching => if c.yes then l.(pc := Leaving) else l.(pc := Launched(c.child, c.token, c.runner))
    case Launched(child, token, runner) =>
      (match Capture(w.table, child.pid)
       case Some(identity) => l.(pc := Recording(Record(child.pid, Some(identity.token), Some(token), runner)))
       case None => l.(pc := AbortMark(token, child, None)))
    case Recording(r) => l.(pc := Waiting(r), file := Recorded(r))
    case Waiting(r) =>
      if c.yes || r.identity.None? || r.stopToken.None? then l.(pc := Leaving)
      else l.(pc := AbortMark(r.stopToken.value, Instance(r.pid, r.identity.value), Some(r)))
    case AbortMark(token, target, written) => l.(pc := AbortPoll(target, written), marker := Marked(token, target))
    case AbortPoll(target, written) =>
      var running :=
        if written.Some? then MatchRecord(w.table, written.value).Match? else Capture(w.table, target.pid).Some?;
      if running && !c.yes then l else l.(pc := AbortUnmark(written))
    case AbortUnmark(written) => l.(pc := if written.Some? then AbortForget else Leaving, marker := NoMarker)
    case AbortForget => l.(pc := Leaving, file := NoState)
  }

  predicate Serving(pc: Pc) {
    pc.ServeRead? || pc.ServeForget? || pc.ServeRecord? || pc.ServeClear? || pc.ServeWatch?
  }

  /** `run_managed_foreground` up to the end of its start lock */
  function ServeStep(l: Local, i: Instance, c: Choice): Local
    requires Serving(l.pc)
  {
    match l.pc
    case ServeRead =>
      if !l.file.Recorded? then l.(pc := ServeRecord) else l.(pc := if c.yes then Leaving else ServeForget)
    case ServeForget => l.(pc := ServeRecord, file := NoState)
    case ServeRecord =>
      if c.yes then l.(pc := Leaving)
      else l.(pc := ServeClear(c.token), file := Recorded(Record(i.pid, Some(i.token), Some(c.token), c.runner)))
    case ServeClear(token) => l.(pc := ServeWatch(token), marker := NoMarker)
    case ServeWatch(_) => l.(pc := Leaving)
  }

  predicate Ending(pc: Pc) { pc.ExitRead? || pc.ExitForget? }

  /** `remove_state_if_current_pid`, which runs without the lock */
  function EndStep(l: Local, i: Instance): Local {
    if l.pc.ExitForget? then l.(pc := Idle, file := NoState)
    else l.(pc := if l.file.Recorded? && l.file.record.pid == i.pid then ExitForget else Idle)
  }

  predicate Cleaning(pc: Pc) { pc.CleanCheck? || pc.CleanForget? }

  /** The serve-state part of `cleanup_report`, with `managed_runtime_is_live` as its blocker */
  function CleanStep(l: Local, w: World): Local {
    if l.pc.CleanForget? then l.(pc := Leaving, file := NoState)
    else match l.file
      case NoState => l.(pc := CleanForget)
      case BadState => l.(pc := Leaving)
      case Recorded(r) => l.(pc := if MatchRecord(w.table, r).Match? then Leaving else CleanForget)
  }

  function LocalStep(l: Local, i: Instance, w: World, c: Choice): Local {
    if Stopping(l.pc) then StopStep(l, w, c)
    else if Starting(l.pc) then StartStep(l, w, c)
    else if Serving(l.pc) then ServeStep(l, i, c)
    else if Ending(l.pc) then EndStep(l, i)
    else if Cleaning(l.pc) then CleanStep(l, w)
    else l.(pc := Idle)
  }

  // ---------------------------------------------------------------- the whole system

  function PcOf(s: State, i: Instance): Pc {
    if i in s.pcs then s.pcs[i] else Idle
  }

  /** A pid is free unless a process has it or a starter still holds the child it was given to. */
  predicate Fresh(s: State, i: Instance) {
    && i.pid > 0 && i.pid !in s.world.table && i !in s.world.past
    && forall j | j in s.pcs && s.pcs[j].Launched? :: s.pcs[j].child.pid != i.pid
  }

  predicate Enabled(s: State, e: Event) {
    match e
    case Spawn(i, _) => Fresh(s, i)
    case Crash(i) => Alive(s.world.table, i)
    case Begin(i, _) => Alive(s.world.table, i) && PcOf(s, i) == Idle && s.osLock.None?
    case Advance(i, c) =>
      && Alive(s.world.table, i) && PcOf(s, i) != Idle
      && (PcOf(s, i).Launching? ==> c.token !in s.world.owner && Fresh(s, c.child))
      && (PcOf(s, i).ServeRecord? ==> c.token !in s.world.owner)
    case Shutdown(i) => Alive(s.world.table, i) && PcOf(s, i) == Idle && i in s.watch
    case See(i) => i in s.watch && s.marker.Marked? && s.marker.token == s.watch[i]
    case Exit(i) => i in s.exiting
  }

  function First(operation: Operation): Pc {
    match operation
    case Stop => StopRead(false)
    case Start => StartClear
    case Foreground => ServeRead
    case Cleanup => CleanCheck
  }

  function Born(w: World, i: Instance, executable: Option<string>): World {
    w.(table := w.table[i.pid := Identity(i.token, executable)], past := w.past + {i})
  }

  function Own(w: World, token: string, i: Instance): World {
    w.(owner := w.owner[token := i])
  }

  /** A newborn process with nothing to do. */
  function Newborn(s: State, i: Instance, executable: Option<string>): State {
    s.(world := Born(s.world, i, executable), pcs := s.pcs[i := Idle])
  }

  function Owning(s: State, token: string, i: Instance): State {
    s.(world := Own(s.world, token, i))
  }

  function Watching(s: State, i: Instance, token: string): State {
    s.(watch := s.watch[i := token])
  }

  function Dead(s: State, i: Instance): State {
    s.(world := s.world.(table := s.world.table - {i.pid}), pcs := s.pcs - {i}, watch := s.watch - {i},
       exiting := s.exiting - {i}, osLock := if s.osLock == Some(i) then None else s.osLock)
  }

  /** The step's effect beyond the files: a launch makes a watching child, a recording makes a token, a watch starts. */
  function Around(s: State, i: Instance, c: Choice): State {
    match PcOf(s, i)
    case Launching =>
      if c.yes then s
      else
        var t := Newborn(s, c.child, c.executable);
        Watching(Owning(t, c.token, c.child), c.child, c.token)
    case ServeRecord => if c.yes then s else Owning(s, c.token, i)
    case ServeWatch(token) => Watching(s, i, token)
    case _ => s
  }

  function Step(s: State, i: Instance, c: Choice): State {
    var around := Around(s, i, c);
    var l := LocalStep(Local(PcOf(s, i), s.file, s.marker), i, around.world, c);
    around.(pcs := around.pcs[i := l.pc], file := l.file, marker := l.marker,
            osLock := if l.pc == Idle && !Ending(PcOf(s, i)) then None else s.osLock)
  }

  function Next(s: State, e: Event): State {
    match e
    case Spawn(i, executable) => Newborn(s, i, executable)
    case Crash(i) => Dead(s, i)
    case Begin(i, operation) => s.(pcs := s.pcs[i := First(operation)], osLock := Some(i))
    case Advance(i, c) => Step(s, i, c)
    case Shutdown(i) => s.(pcs := s.pcs[i := ExitRead])
    case See(i) => if s.marker.Marked? then s.(exiting := s.exiting[i := s.marker.target]) else s
    case Exit(i) => Dead(s, i).(marker := NoMarker)
  }

  predicate Run(s: State, events: seq<Event>)
    decreases |events|
  {
    events == [] || (Enabled(s, events[0]) && Run(Next(s, events[0]), events[1..]))
  }

  function After(s: State, events: seq<Event>): State
    decreases |events|
  {
    if events == [] then s else After(Next(s, events[0]), events[1..])
  }

  // ---------------------------------------------------------------- the invariant

  /** If the token's owner is alive, it is the process with this pid and identity. */
  predicate Made(token: string, pid: nat, identity: Option<string>, w: World) {
    && token in w.owner
    && (Alive(w.table, w.owner[token]) ==> w.owner[token].pid == pid && identity == Some(w.owner[token].token))
  }

  predicate Aims(token: string, target: Instance, w: World) {
    Made(token, target.pid, Some(target.token), w)
  }

  /** A record's stop token belongs to the recorded process, if it belongs to anyone alive. */
  predicate RecordOk(r: Record, w: World) {
    && (r.identity.Some? ==> Instance(r.pid, r.identity.value) in w.past)
    && (r.stopToken.Some? ==> Made(r.stopToken.value, r.pid, r.identity, w))
  }

  predicate Gone(r: Record, w: World) {
    r.identity.Some? ==>
      Instance(r.pid, r.identity.value) in w.past && !Alive(w.table, Instance(r.pid, r.identity.value))
  }

  /** `target` is the process that matched the record. */
  predicate Chosen(r: Record, target: Instance, w: World) {
    && target in w.past && target.pid == r.pid && (r.identity.Some? ==> target.token == r.identity.value)
    && (Alive(w.table, target) ==> MatchRecord(w.table, r).Match?)
  }

  /** The recorded runner is the executable the platform reports, as far as it reports one. */
  predicate Faithful(table: Table, r: Record) {
    r.pid in table && table[r.pid].executable.Some? ==> r.runner == "" || Some(r.runner) == table[r.pid].executable
  }

  predicate LiveRecord(r: Record, w: World) {
    r.identity.Some? && Alive(w.table, Instance(r.pid, r.identity.value)) && Faithful(w.table, r)
  }

  predicate FilesOk(l: Local, w: World) {
    && (l.marker.Marked? ==> Aims(l.marker.token, l.marker.target, w))
    && (l.file.Recorded? ==> RecordOk(l.file.record, w))
  }

  /** What a process knows at its position while it holds the lifecycle lock. */
  predicate Knows(pc: Pc, file: StateFile, i: Instance, w: World) {
    match pc
    case StopMatch(_, r) => RecordOk(r, w)
    case StopMark(_, r, token, target) => Chosen(r, target, w) && Aims(token, target, w)
    case StopPoll(_, r, target) => Chosen(r, target, w)
    case StopUnmark(_, r, ok) => ok ==> Gone(r, w)
    case StopForget(_, was) => was.Some? ==> Gone(was.value, w)
    case Stopped(was) => file.NoState? && (was.Some? ==> Gone(was.value, w))
    case Launched(child, token, _) =>
      && token in w.owner && w.owner[token] == child && child in w.past
      && (child.pid in w.table ==> w.table[child.pid].token == child.token)
    case Recording(r) => RecordOk(r, w) && r.identity.Some? && r.stopToken.Some?
    case Waiting(r) => RecordOk(r, w) && r.identity.Some? && r.stopToken.Some?
    case AbortMark(token, target, _) => Aims(token, target, w)
    case ServeClear(token) => token in w.owner && w.owner[token] == i
    case ServeWatch(token) => token in w.owner && w.owner[token] == i
    case CleanForget => !file.BadState? && (file.Recorded? ==> !LiveRecord(file.record, w))
    case _ => true
  }

  ghost predicate WorldOk(w: World) {
    && (forall pid | pid in w.table :: pid > 0 && Instance(pid, w.table[pid].token) in w.past)
    && (forall token | token in w.owner :: w.owner[token] in w.past)
  }

  ghost predicate Processes(s: State) {
    && (forall i | i in s.pcs :: Alive(s.world.table, i))
    && (forall pid | pid in s.world.table :: Instance(pid, s.world.table[pid].token) in s.pcs)
    && (forall i | i in s.pcs && s.pcs[i] != Idle && !Ending(s.pcs[i]) :: s.osLock == Some(i))
  }

  ghost predicate Watchers(s: State) {
    && (forall i | i in s.watch ::
          s.watch[i] in s.world.owner && s.world.owner[s.watch[i]] == i && Alive(s.world.table, i))
    && (forall i | i in s.exiting :: s.exiting[i] == i && Alive(s.world.table, i))
  }

  predicate Files(s: State) {
    FilesOk(Local(Idle, s.file, s.marker), s.world)
  }

  ghost predicate Knowledge(s: State) {
    forall i | i in s.pcs :: Knows(s.pcs[i], s.file, i, s.world)
  }

  ghost predicate Inv(s: State) {
    WorldOk(s.world) && Processes(s) && Watchers(s) && Files(s) && Knowledge(s)
  }

  /** Nothing runs yet; both files may hold what earlier processes left. */
  predicate Init(s: State) {
    && s.world.table == map[] && s.pcs == map[] && s.osLock.None? && s.watch == map[] && s.exiting == map[]
    && (forall token | token in s.world.owner :: s.world.owner[token] in s.world.past)
    && Files(s)
  }

  // ---------------------------------------------------------------- what other steps cannot undo

  /** From `w` to `v` processes may come and go, but the dead stay dead and tokens keep their owners. */
  ghost predicate Extends(w: World, v: World) {
    && w.past <= v.past
    && (forall token | token in w.owner :: token in v.owner && v.owner[token] == w.owner[token])
    && (forall i | i in w.past && Alive(v.table, i) :: Alive(w.table, i) && v.table[i.pid] == w.table[i.pid])
  }

  lemma {:induction false} RecordStable(r: Record, w: World, v: World)
    requires WorldOk(w) && Extends(w, v)
    ensures RecordOk(r, w) ==> RecordOk(r, v)
    ensures Gone(r, w) ==> Gone(r, v)
  {
  }

  lemma {:induction false} AimStable(token: string, target: Instance, w: World, v: World)
    requires WorldOk(w) && Extends(w, v)
    ensures Aims(token, target, w) ==> Aims(token, target, v)
  {
  }

  lemma {:induction false} ChosenStable(r: Record, target: Instance, w: World, v: World)
    requires Extends(w, v)
    ensures Chosen(r, target, w) ==> Chosen(r, target, v)
  {
    assert r.pid in w.table && r.pid in v.table && w.table[r.pid] == v.table[r.pid] ==>
      MatchRecord(w.table, r) == MatchRecord(v.table, r);
    hide MatchRecord;
  }

  lemma {:induction false} FilesStable(l: Local, w: World, v: World)
    requires WorldOk(w) && FilesOk(l, w) && Extends(w, v)
    ensures FilesOk(l, v)
  {
    hide RecordOk, Aims, Extends, WorldOk;
    if l.marker.Marked? { AimStable(l.marker.token, l.marker.target, w, v); }
    if l.file.Recorded? { RecordStable(l.file.record, w, v); }
  }

  lemma {:induction false} LiveStable(r: Record, w: World, v: World)
    requires WorldOk(w) && RecordOk(r, w) && Extends(w, v)
    ensures LiveRecord(r, v) ==> LiveRecord(r, w)
  {
  }

  lemma {:induction false} KnowsStable(pc: Pc, file: StateFile, i: Instance, w: World, v: World)
    requires WorldOk(w) && Extends(w, v) && Knows(pc, file, i, w)
    requires file.Recorded? ==> RecordOk(file.record, w)
    requires pc.Launched? && pc.child.pid in v.table ==> v.table[pc.child.pid].token == pc.child.token
    ensures Knows(pc, file, i, v) && Knows(pc, NoState, i, v)
  {
    hide Aims, Gone, Chosen, RecordOk, LiveRecord;
    match pc
    case StopMatch(_, r) => RecordStable(r, w, v);
    case StopMark(_, r, token, target) => ChosenStable(r, target, w, v); AimStable(token, target, w, v);
    case StopPoll(_, r, target) => ChosenStable(r, target, w, v);
    case StopUnmark(_, r, _) => RecordStable(r, w, v);
    case StopForget(_, was) => if was.Some? { RecordStable(was.value, w, v); }
    case Stopped(was) => if was.Some? { RecordStable(was.value, w, v); }
    case Recording(r) => RecordStable(r, w, v);
    case Waiting(r) => RecordStable(r, w, v);
    case AbortMark(token, target, _) => AimStable(token, target, w, v);
    case CleanForget => if file.Recorded? { LiveStable(file.record, w, v); }
    case _ =>
  }

  // ---------------------------------------------------------------- one step of an operation

  predicate Good(l: Local, i: Instance, w: World) {
    FilesOk(l, w) && Knows(l.pc, l.file, i, w)
  }

  /** Positions that need the lifecycle lock. */
  predicate NeedsLock(pc: Pc) { pc != Idle && !Ending(pc) }

  /** A record that matches names its process, and one whose pid is free names none. */
  lemma {:induction false} MatchChooses(r: Record, w: World)
    requires WorldOk(w) && RecordOk(r, w)
    ensures MatchRecord(w.table, r).Match? ==>
      && r.pid in w.table && Chosen(r, Instance(r.pid, w.table[r.pid].token), w)
      && (r.stopToken.Some? ==> Aims(r.stopToken.value, Instance(r.pid, w.table[r.pid].token), w))
    ensures MatchRecord(w.table, r).NotFound? ==> Gone(r, w)
  {
  }

  /** Polling ends well only when the process that matched has died. */
  lemma {:induction false} PollGone(r: Record, target: Instance, w: World)
    requires Chosen(r, target, w)
    ensures !MatchRecord(w.table, r).Match? ==> !Alive(w.table, target) && Gone(r, w)
  {
  }

  lemma {:induction false} StopStepGood(l: Local, i: Instance, w: World, c: Choice)
    requires WorldOk(w) && Good(l, i, w) && Stopping(l.pc)
    ensures Good(StopStep(l, w, c), i, w) && NeedsLock(StopStep(l, w, c).pc)
  {
    hide MatchRecord, RecordOk, Aims, Chosen, Gone, WorldOk;
    if l.pc.StopMatch? { MatchChooses(l.pc.record, w); }
    if l.pc.StopPoll? { PollGone(l.pc.record, l.pc.target, w); }
  }

  lemma {:induction false} StartStepGood(l: Local, i: Instance, w: World, c: Choice)
    requires WorldOk(w) && Good(l, i, w) && Starting(l.pc)
    requires l.pc.Launching? ==> c.yes || Knows(Launched(c.child, c.token, c.runner), l.file, i, w)
    ensures Good(StartStep(l, w, c), i, w) && NeedsLock(StartStep(l, w, c).pc)
  {
    hide MatchRecord;
  }

  lemma {:induction false} ServeStepGood(l: Local, i: Instance, w: World, c: Choice)
    requires WorldOk(w) && Good(l, i, w) && Serving(l.pc) && i in w.past
    requires l.pc.ServeRecord? ==> c.yes || (c.token in w.owner && w.owner[c.token] == i)
    ensures Good(ServeStep(l, i, c), i, w) && NeedsLock(ServeStep(l, i, c).pc)
  {
  }

  /** Cleanup spares a record with an identity exactly when that process is alive under the recorded executable. */
  lemma {:induction false} CleanupDecides(r: Record, w: World)
    requires WorldOk(w)
    ensures r.identity.Some? ==> (MatchRecord(w.table, r).Match? <==> LiveRecord(r, w))
  {
  }

  lemma {:induction false} CleanStepGood(l: Local, i: Instance, w: World)
    requires WorldOk(w) && Good(l, i, w) && Cleaning(l.pc)
    ensures Good(CleanStep(l, w), i, w) && NeedsLock(CleanStep(l, w).pc)
  {
    if l.file.Recorded? { CleanupDecides(l.file.record, w); }
    hide MatchRecord, WorldOk, RecordOk, Aims;
  }

  /** Every step of an operation keeps what it relies on, and leaves the lock only at the operation's end. */
  lemma {:induction false} LocalStepGood(l: Local, i: Instance, w: World, c: Choice)
    requires WorldOk(w) && Good(l, i, w) && i in w.past && NeedsLock(l.pc)
    requires l.pc.Launching? ==> c.yes || Knows(Launched(c.child, c.token, c.runner), l.file, i, w)
    requires l.pc.ServeRecord? ==> c.yes || (c.token in w.owner && w.owner[c.token] == i)
    ensures var m := LocalStep(l, i, w, c);
      Good(m, i, w) && !Ending(m.pc) && (m.pc == Idle ==> m.file == l.file && m.marker == l.marker)
  {
    hide WorldOk, StopStep, StartStep, ServeStep, CleanStep, Knows;
    if Stopping(l.pc) { StopStepGood(l, i, w, c); }
    else if Starting(l.pc) { StartStepGood(l, i, w, c); }
    else if Serving(l.pc) { ServeStepGood(l, i, w, c); }
    else if Cleaning(l.pc) { CleanStepGood(l, i, w); }
    else { KnowsNothing(Idle, l.file, i, w); }
  }

  lemma {:induction false} KnowsNothing(pc: Pc, file: StateFile, i: Instance, w: World)
    requires !NeedsLock(pc)
    ensures Knows(pc, file, i, w)
  {
  }

  // ---------------------------------------------------------------- every step keeps the invariant

  /** Steps that change no position but one that needs no lock: everyone's knowledge survives them. */
  lemma {:induction false} FreeStepKeepsInv(s: State, t: State)
    requires Inv(s) && WorldOk(t.world) && Processes(t) && Watchers(t) && Extends(s.world, t.world)
    requires t.file == s.file || t.file.NoState?
    requires t.marker == s.marker || t.marker.NoMarker?
    requires forall i | i in t.pcs && NeedsLock(t.pcs[i]) :: i in s.pcs && t.pcs[i] == s.pcs[i]
    requires forall i | i in t.pcs && t.pcs[i].Launched? && t.pcs[i].child.pid in t.world.table ::
      t.world.table[t.pcs[i].child.pid].token == t.pcs[i].child.token
    ensures Inv(t)
  {
    hide Knows, Extends, WorldOk, Watchers, RecordOk, Aims, NeedsLock;
    FilesStable(Local(Idle, s.file, s.marker), s.world, t.world);
    forall i | i in t.pcs ensures Knows(t.pcs[i], t.file, i, t.world) {
      if NeedsLock(t.pcs[i]) {
        KnowsStable(t.pcs[i], s.file, i, s.world, t.world);
      } else {
        KnowsNothing(t.pcs[i], t.file, i, t.world);
      }
    }
  }

  /** The child a starter holds keeps its pid. */
  lemma {:induction false} ChildHasPid(s: State, j: Instance)
    requires Inv(s) && j in s.pcs && s.pcs[j].Launched? && s.pcs[j].child.pid in s.world.table
    ensures s.world.table[s.pcs[j].child.pid].token == s.pcs[j].child.token
  {
    assert Knows(s.pcs[j], s.file, j, s.world);
  }

  lemma {:induction false} SameWorld(w: World)
    ensures Extends(w, w)
  {
  }

  /** Steps of processes without the lock, in an unchanged world. */
  lemma {:induction false} QuietStepKeepsInv(s: State, t: State)
    requires Inv(s) && Processes(t) && Watchers(t) && t.world == s.world
    requires t.file == s.file || t.file.NoState?
    requires t.marker == s.marker || t.marker.NoMarker?
    requires forall i | i in t.pcs && NeedsLock(t.pcs[i]) :: i in s.pcs && t.pcs[i] == s.pcs[i]
    ensures Inv(t)
  {
    hide Knowledge, WorldOk, Watchers, Files;
    SameWorld(s.world);
    forall i | i in t.pcs && t.pcs[i].Launched? && t.pcs[i].child.pid in t.world.table
      ensures t.world.table[t.pcs[i].child.pid].token == t.pcs[i].child.token
    {
      assert NeedsLock(t.pcs[i]);
      ChildHasPid(s, i);
    }
    FreeStepKeepsInv(s, t);
  }

  lemma {:induction false} DeadProcesses(s: State, i: Instance)
    requires Processes(s) && Alive(s.world.table, i)
    ensures Processes(Dead(s, i))
  {
  }

  lemma {:induction false} DeadWatchers(s: State, i: Instance)
    requires Watchers(s) && Alive(s.world.table, i)
    ensures Watchers(Dead(s, i))
  {
  }

  lemma {:induction false} DeadWorld(s: State, i: Instance)
    requires WorldOk(s.world)
    ensures WorldOk(Dead(s, i).world) && Extends(s.world, Dead(s, i).world)
  {
  }

  lemma {:induction false} DeadKeepsInv(s: State, i: Instance)
    requires Inv(s) && Alive(s.world.table, i)
    ensures Inv(Dead(s, i))
  {
    var t := Dead(s, i);
    DeadProcesses(s, i);
    DeadWatchers(s, i);
    DeadWorld(s, i);
    hide Knowledge, Files, Processes, Watchers, Extends, WorldOk;
    forall j | j in t.pcs && t.pcs[j].Launched? && t.pcs[j].child.pid in t.world.table
      ensures t.world.table[t.pcs[j].child.pid].token == t.pcs[j].child.token
    {
      ChildHasPid(s, j);
    }
    FreeStepKeepsInv(s, t);
  }

  lemma {:induction false} UnmarkKeepsInv(s: State)
    requires Inv(s)
    ensures Inv(s.(marker := NoMarker))
  {
    hide Knows, WorldOk, Watchers;
    SameWatchers(s, s.(marker := NoMarker));
  }

  lemma {:induction false} BornExtends(w: World, i: Instance, executable: Option<string>)
    requires WorldOk(w) && i.pid > 0 && i.pid !in w.table && i !in w.past
    ensures WorldOk(Born(w, i, executable)) && Extends(w, Born(w, i, executable))
  {
  }

  lemma {:induction false} OwnExtends(w: World, token: string, i: Instance)
    requires WorldOk(w) && token !in w.owner && i in w.past
    ensures WorldOk(Own(w, token, i)) && Extends(w, Own(w, token, i))
  {
  }

  lemma {:induction false} NewbornProcesses(s: State, i: Instance, executable: Option<string>)
    requires Processes(s) && WorldOk(s.world) && Fresh(s, i)
    ensures Processes(Newborn(s, i, executable))
  {
    assert i !in s.pcs;
  }

  lemma {:induction false} NewbornWatchers(s: State, i: Instance, executable: Option<string>)
    requires Watchers(s) && WorldOk(s.world) && Fresh(s, i)
    ensures Watchers(Newborn(s, i, executable))
  {
  }

  lemma {:induction false} SpawnKeepsInv(s: State, i: Instance, executable: Option<string>)
    requires Inv(s) && Fresh(s, i)
    ensures Inv(Newborn(s, i, executable))
  {
    var t := Newborn(s, i, executable);
    NewbornProcesses(s, i, executable);
    NewbornWatchers(s, i, executable);
    BornExtends(s.world, i, executable);
    hide Knowledge, Files, Processes, Watchers, Extends, WorldOk;
    forall j | j in t.pcs && t.pcs[j].Launched? && t.pcs[j].child.pid in t.world.table
      ensures t.world.table[t.pcs[j].child.pid].token == t.pcs[j].child.token
    {
      ChildHasPid(s, j);
    }
    FreeStepKeepsInv(s, t);
  }

  /** What is true around a step before its operation moves. */
  lemma {:induction false} AroundKeepsInv(s: State, i: Instance, c: Choice)
    requires Inv(s) && Enabled(s, Advance(i, c)) && i in s.pcs && i in s.world.past
    ensures var a := Around(s, i, c);
      && Inv(a) && i in a.pcs && a.pcs[i] == s.pcs[i] && i in a.world.past
      && a.file == s.file && a.marker == s.marker && a.osLock == s.osLock
      && (s.pcs[i].Launching? && !c.yes ==> Knows(Launched(c.child, c.token, c.runner), s.file, i, a.world))
      && (s.pcs[i].ServeRecord? && !c.yes ==> c.token in a.world.owner && a.world.owner[c.token] == i)
  {
    hide Inv, Fresh;
    match s.pcs[i]
    case Launching => if !c.yes { LaunchKeepsInv(s, i, c); }
    case ServeRecord => if !c.yes { OwningKeepsInv(s, c.token, i); }
    case ServeWatch(token) => KnowledgeOf(s, i); WatchingKeepsInv(s, i, token);
    case _ =>
  }

  lemma {:induction false} KnowledgeOf(s: State, i: Instance)
    requires Inv(s) && i in s.pcs
    ensures Knows(s.pcs[i], s.file, i, s.world)
  {
  }

  lemma {:induction false} OwningKeepsInv(s: State, token: string, i: Instance)
    requires Inv(s) && i in s.world.past && token !in s.world.owner
    ensures Inv(Owning(s, token, i))
  {
    var t := Owning(s, token, i);
    OwnExtends(s.world, token, i);
    assert Watchers(t);
    hide Knowledge, Files, Watchers, Extends, WorldOk;
    forall j | j in t.pcs && t.pcs[j].Launched? && t.pcs[j].child.pid in t.world.table
      ensures t.world.table[t.pcs[j].child.pid].token == t.pcs[j].child.token
    {
      ChildHasPid(s, j);
    }
    FreeStepKeepsInv(s, t);
  }

  lemma {:induction false} WatchingKeepsInv(s: State, i: Instance, token: string)
    requires Inv(s) && Alive(s.world.table, i) && token in s.world.owner && s.world.owner[token] == i
    ensures Inv(Watching(s, i, token))
  {
    var t := Watching(s, i, token);
    assert Watchers(t);
    hide Knowledge, Files, Watchers, WorldOk;
    QuietStepKeepsInv(s, t);
  }

  lemma {:induction false} LaunchedKnows(w: World, file: StateFile, i: Instance, c: Choice)
    ensures var v := Born(w, c.child, c.executable);
      && c.child in v.past && Alive(v.table, c.child) && v.owner == w.owner
      && Own(v, c.token, c.child).past == v.past && Own(v, c.token, c.child).table == v.table
      && Own(v, c.token, c.child).owner == w.owner[c.token := c.child]
      && Knows(Launched(c.child, c.token, c.runner), file, i, Own(v, c.token, c.child))
  {
  }

  /** A launch is a birth, a new token for the child, and the child's watch. */
  lemma {:induction false} LaunchKeepsInv(s: State, i: Instance, c: Choice)
    requires Inv(s) && i in s.pcs && i in s.world.past && Fresh(s, c.child) && c.token !in s.world.owner &&
      s.pcs[i].Launching? && !c.yes
    ensures var a := Around(s, i, c);
      && Inv(a) && i in a.pcs && a.pcs[i] == s.pcs[i]
      && Knows(Launched(c.child, c.token, c.runner), s.file, i, a.world)
  {
    hide Inv, Knows, Born, Own;
    var t := Newborn(s, c.child, c.executable);
    LaunchedKnows(s.world, s.file, i, c);
    SpawnKeepsInv(s, c.child, c.executable);
    OwningKeepsInv(t, c.token, c.child);
    WatchingKeepsInv(Owning(t, c.token, c.child), c.child, c.token);
  }

  /** A step of the process that holds the lock. */
  lemma {:induction false} LockedStepKeepsInv(a: State, t: State, i: Instance, l: Local)
    requires Inv(a) && i in a.pcs && NeedsLock(a.pcs[i]) && Good(l, i, a.world) && !Ending(l.pc)
    requires t == a.(pcs := a.pcs[i := l.pc], file := l.file, marker := l.marker,
                     osLock := if l.pc == Idle then None else a.osLock)
    ensures Inv(t)
  {
    hide Knows, WorldOk, RecordOk, Aims;
    forall j | j in t.pcs && j != i ensures Knows(t.pcs[j], t.file, j, t.world) {
      assert !NeedsLock(a.pcs[j]);
      KnowsNothing(t.pcs[j], t.file, j, t.world);
    }
  }

  lemma {:induction false} StepKeepsInv(s: State, i: Instance, c: Choice)
    requires Inv(s) && Enabled(s, Advance(i, c))
    ensures Inv(Step(s, i, c))
  {
    hide Inv, Around, LocalStep, Knows, FilesOk, WorldOk, Fresh;
    InPcs(s, i);
    var a := Around(s, i, c);
    AroundKeepsInv(s, i, c);
    var l := Local(s.pcs[i], s.file, s.marker);
    if Ending(s.pcs[i]) {
      EndingKeepsInv(s, i, c);
    } else {
      GoodOf(a, i);
      LocalStepGood(l, i, a.world, c);
      LockedStepKeepsInv(a, Step(s, i, c), i, LocalStep(l, i, a.world, c));
    }
  }

  lemma {:induction false} GoodOf(s: State, i: Instance)
    requires Inv(s) && i in s.pcs
    ensures WorldOk(s.world) && Good(Local(s.pcs[i], s.file, s.marker), i, s.world)
  {
    hide Knows, RecordOk, Aims, WorldOk;
    assert Knows(s.pcs[i], s.file, i, s.world);
  }

  lemma {:induction false} EndShape(s: State, i: Instance, c: Choice)
    requires i in s.pcs && Ending(s.pcs[i])
    ensures var t := Step(s, i, c);
      && i in t.pcs && !NeedsLock(t.pcs[i]) && (t.file == s.file || t.file.NoState?)
      && t == s.(pcs := s.pcs[i := t.pcs[i]], file := t.file)
  {
  }

  lemma {:induction false} EndingKeepsInv(s: State, i: Instance, c: Choice)
    requires Inv(s) && i in s.pcs && Ending(s.pcs[i])
    ensures Inv(Step(s, i, c))
  {
    var t := Step(s, i, c);
    EndShape(s, i, c);
    hide Knowledge, Files, WorldOk, Watchers, Step;
    SameWatchers(s, t);
    QuietStepKeepsInv(s, t);
  }

  lemma {:induction false} InPcs(s: State, i: Instance)
    requires Inv(s) && Alive(s.world.table, i)
    ensures i in s.pcs && i in s.world.past && i.pid > 0
  {
  }

  lemma {:induction false} BeginKeepsInv(s: State, i: Instance, operation: Operation)
    requires Inv(s) && Enabled(s, Begin(i, operation))
    ensures Inv(Next(s, Begin(i, operation)))
  {
    hide WorldOk, FilesOk, Knows, Watchers;
    var t := Next(s, Begin(i, operation));
    assert Watchers(t) by { SameWatchers(s, t); }
    FirstKnows(operation, s.file, i, s.world);
    forall j | j in t.pcs && j != i ensures Knows(t.pcs[j], t.file, j, t.world) {
      assert !NeedsLock(t.pcs[j]);
      KnowsNothing(t.pcs[j], t.file, j, t.world);
    }
  }

  lemma {:induction false} SameWatchers(s: State, t: State)
    requires Watchers(s) && t.watch == s.watch && t.exiting == s.exiting && t.world == s.world
    ensures Watchers(t)
  {
  }

  lemma {:induction false} FirstKnows(operation: Operation, file: StateFile, i: Instance, w: World)
    ensures Knows(First(operation), file, i, w)
  {
  }

  lemma {:induction false} ShutdownKeepsInv(s: State, i: Instance)
    requires Inv(s) && Enabled(s, Shutdown(i))
    ensures Inv(Next(s, Shutdown(i)))
  {
    hide Knowledge, Files, WorldOk, Watchers;
    SameWatchers(s, Next(s, Shutdown(i)));
    QuietStepKeepsInv(s, Next(s, Shutdown(i)));
  }

  /** A watcher that fires is the process its marker was written for. */
  lemma {:induction false} SeeHitsTarget(s: State, i: Instance)
    requires Inv(s) && Enabled(s, See(i))
    ensures s.marker.target == i && s.marker.token in s.world.owner && s.world.owner[s.marker.token] == i
  {
    hide Knowledge;
    assert Aims(s.marker.token, s.marker.target, s.world);
  }

  lemma {:induction false} SeeKeepsInv(s: State, i: Instance)
    requires Inv(s) && Enabled(s, See(i))
    ensures Inv(Next(s, See(i)))
  {
    SeeHitsTarget(s, i);
    var t := Next(s, See(i));
    assert Watchers(t) by { hide Knowledge, Files, WorldOk, Processes; }
    hide Knowledge, Files, WorldOk, Watchers;
    QuietStepKeepsInv(s, t);
  }

  lemma {:induction false} NextKeepsInv(s: State, e: Event)
    requires Inv(s) && Enabled(s, e)
    ensures Inv(Next(s, e))
  {
    hide Inv, Step, Dead, Newborn, Fresh;
    match e
    case Spawn(i, executable) => SpawnKeepsInv(s, i, executable);
    case Crash(i) => DeadKeepsInv(s, i);
    case Begin(i, operation) => BeginKeepsInv(s, i, operation);
    case Advance(i, c) => StepKeepsInv(s, i, c);
    case Shutdown(i) => ShutdownKeepsInv(s, i);
    case See(i) => SeeKeepsInv(s, i);
    case Exit(i) => ExitingAlive(s, i); DeadKeepsInv(s, i); UnmarkKeepsInv(Dead(s, i));
  }

  lemma {:induction false} ExitingAlive(s: State, i: Instance)
    requires Inv(s) && i in s.exiting
    ensures Alive(s.world.table, i)
  {
  }

  lemma {:induction false} RunKeepsInv(s: State, events: seq<Event>)
    requires Inv(s) && Run(s, events)
    ensures Inv(After(s, events))
    decreases |events|
  {
    hide Inv, Next, Enabled;
    if events != [] {
      NextKeepsInv(s, events[0]);
      RunKeepsInv(Next(s, events[0]), events[1..]);
    }
  }

  lemma {:induction false} ReachableInv(s: State, events: seq<Event>)
    requires Init(s) && Run(s, events)
    ensures Inv(After(s, events))
  {
    hide Run, After;
    RunKeepsInv(s, events);
  }

  // ---------------------------------------------------------------- what every run keeps

  /** A stop that succeeds leaves no state file, and the recorded process is gone. */
  lemma {:induction false} StopSucceeds(s: State, events: seq<Event>, i: Instance)
    requires Init(s) && Run(s, events)
    ensures var t := After(s, events);
      PcOf(t, i).Stopped? ==>
        && t.file.NoState?
        && (PcOf(t, i).was.Some? && PcOf(t, i).was.value.identity.Some? ==>
            !Alive(t.world.table, Instance(PcOf(t, i).was.value.pid, PcOf(t, i).was.value.identity.value)))
  {
    hide Run, After, Init, Inv;
    ReachableInv(s, events);
    if i in After(s, events).pcs { KnowledgeOf(After(s, events), i); }
  }

  /** A process leaves because of the marker only if the stop was meant for it, and it owns the token. */
  lemma {:induction false} OnlyTheOwnerExits(s: State, events: seq<Event>, i: Instance)
    requires Init(s) && Run(s, events)
    ensures var t := After(s, events);
      && (i in t.exiting ==> t.exiting[i] == i)
      && (Enabled(t, See(i)) ==>
          t.marker.target == i && t.marker.token in t.world.owner && t.world.owner[t.marker.token] == i)
  {
    hide Run, After, Init, Knowledge;
    ReachableInv(s, events);
    var t := After(s, events);
    if Enabled(t, See(i)) { SeeHitsTarget(t, i); }
  }

  /** When cleanup removes the state file, the file does not record a live runtime under its own executable. */
  lemma {:induction false} CleanupSparesLiveRuntimes(s: State, events: seq<Event>, i: Instance)
    requires Init(s) && Run(s, events)
    ensures var t := After(s, events);
      PcOf(t, i).CleanForget? ==>
        !t.file.BadState? && (t.file.Recorded? ==> !LiveRecord(t.file.record, t.world))
  {
    hide Run, After, Init, Inv;
    ReachableInv(s, events);
    if i in After(s, events).pcs { KnowledgeOf(After(s, events), i); }
  }

  // ---------------------------------------------------------------- where cleanup does not spare a live runtime

  lemma {:induction false} RunMore(s: State, events: seq<Event>, e: Event)
    requires Run(s, events) && Enabled(After(s, events), e)
    ensures Run(s, events + [e]) && After(s, events + [e]) == Next(After(s, events), e)
    decreases |events|
  {
    hide Enabled, Next;
    if events == [] {
      assert [e][1..] == [];
    } else {
      RunMore(Next(s, events[0]), events[1..], e);
      assert (events + [e])[1..] == events[1..] + [e];
    }
  }

  const EMPTY := State(World(map[], {}, map[]), None, NoState, NoMarker, map[], map[], map[])

  /** A process serves in the foreground and records a runner. */
  function ServeRun(a: Instance, executable: string, c: Choice): seq<Event> {
    [Spawn(a, Some(executable)), Begin(a, Foreground)] + Repeat(Advance(a, c), 5)
  }

  lemma {:induction false} ServeRunState(a: Instance, executable: string, c: Choice)
    requires a.pid > 0 && !c.yes
    ensures Run(EMPTY, ServeRun(a, executable, c))
    ensures var t := After(EMPTY, ServeRun(a, executable, c));
      && t.world.table == map[a.pid := Identity(a.token, Some(executable))] && t.world.past == {a}
      && t.osLock.None? && t.pcs == map[a := Idle] && t.file == OwnRecord(a, c)
  {
    var spawn, begin := Spawn(a, Some(executable)), Begin(a, Foreground);
    var s0 := Next(EMPTY, spawn);
    var s := Next(s0, begin);
    assert s0.pcs == map[a := Idle] && s.pcs == map[a := ServeRead] && Enabled(EMPTY, spawn) && Enabled(s0, begin);
    assert Alone(s, a, c) && Moves(s.pcs[a]) == 5;
    assert s.world.table == map[a.pid := Identity(a.token, Some(executable))] && s.world.past == {a};
    ServeRunRest(s, a, c);
    hide Next, Enabled, Alone, Repeat;
    var r := ServeRun(a, executable, c);
    assert r[0] == spawn && r[1..][0] == begin && r[1..][1..] == Repeat(Advance(a, c), 5);
  }

  /** The moves from a position to the end of the start lock. */
  function Moves(pc: Pc): nat {
    match pc
    case ServeRead => 5
    case ServeRecord => 4
    case ServeClear(_) => 3
    case ServeWatch(_) => 2
    case _ => 1
  }

  function Repeat(e: Event, n: nat): seq<Event> {
    if n == 0 then [] else [e] + Repeat(e, n - 1)
  }

  function OwnRecord(a: Instance, c: Choice): StateFile {
    Recorded(Record(a.pid, Some(a.token), Some(c.token), c.runner))
  }

  /** Before the moves: `a` runs alone and has recorded itself unless it is still to do so. */
  predicate Alone(s: State, a: Instance, c: Choice) {
    && Alive(s.world.table, a) && a in s.pcs && s.pcs == map[a := s.pcs[a]]
    && (match s.pcs[a]
        case ServeRead => s.file.NoState? && c.token !in s.world.owner
        case ServeRecord => c.token !in s.world.owner
        case ServeClear(_) => s.file == OwnRecord(a, c)
        case ServeWatch(_) => s.file == OwnRecord(a, c)
        case Leaving => s.file == OwnRecord(a, c)
        case _ => false)
  }

  /** After the moves: `a` is at rest, recorded, and nothing else has changed in the table. */
  predicate AtRest(s: State, t: State, a: Instance, c: Choice) {
    && t.world.table == s.world.table && t.world.past == s.world.past && t.osLock.None?
    && t.pcs == map[a := Idle] && t.file == OwnRecord(a, c)
  }

  lemma {:induction false} ServeRunRest(s: State, a: Instance, c: Choice)
    requires Alone(s, a, c) && !c.yes
    ensures Run(s, Repeat(Advance(a, c), Moves(s.pcs[a])))
    ensures AtRest(s, After(s, Repeat(Advance(a, c), Moves(s.pcs[a]))), a, c)
    decreases Moves(s.pcs[a])
  {
    var e, n := Advance(a, c), Moves(s.pcs[a]);
    hide Next, Enabled, Alone;
    ServeMove(s, a, c);
    assert Repeat(e, n)[1..] == Repeat(e, n - 1);
    if n > 1 {
      ServeRunRest(Next(s, e), a, c);
    } else {
      assert Repeat(e, 0) == [];
    }
  }

  lemma {:induction false} ServeMove(s: State, a: Instance, c: Choice)
    requires Alone(s, a, c) && !c.yes
    ensures var t := Next(s, Advance(a, c));
      && Enabled(s, Advance(a, c)) && a in t.pcs
      && t.world.table == s.world.table && t.world.past == s.world.past
      && (Moves(s.pcs[a]) > 1 ==> Alone(t, a, c) && Moves(t.pcs[a]) == Moves(s.pcs[a]) - 1)
      && (Moves(s.pcs[a]) == 1 ==> AtRest(s, t, a, c))
  {
    assert forall pc :: s.pcs[a := pc] == map[a := pc];
  }

  /** A live foreground runtime that recorded another runner than its executable loses its state file to cleanup. */
  lemma {:induction false} UnfaithfulRunnerIsForgotten(
    a: Instance, b: Instance, executable: string, c: Choice) returns (events: seq<Event>)
    requires a.pid > 0 && b.pid > 0 && a.pid != b.pid && !c.yes && c.runner != "" && c.runner != executable
    ensures Init(EMPTY) && Run(EMPTY, events)
    ensures var t := After(EMPTY, events);
      && PcOf(t, b).CleanForget? && t.file == OwnRecord(a, c)
      && Alive(t.world.table, a)
  {
    var r := ServeRun(a, executable, c);
    ServeRunState(a, executable, c);
    hide ServeRun;
    RunMore(EMPTY, r, Spawn(b, None));
    RunMore(EMPTY, r + [Spawn(b, None)], Begin(b, Cleanup));
    var q := r + [Spawn(b, None)] + [Begin(b, Cleanup)];
    RunMore(EMPTY, q, Advance(b, c));
    events := q + [Advance(b, c)];
  }
}
