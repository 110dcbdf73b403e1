/**
 Exclusive lock files of `src/runtimepaths.rs`, taken several at a time by
 racing processes. A lock file outlives a crash of its owner; nobody waits.
 */
module FileLocks {
  import opened Basics

  /** What a process is doing with the locks it asked for; `held` are the ones whose guards exist. */
  datatype Pc =
    | Idle
    | Acquiring(asked: set<string>, todo: seq<string>, held: seq<string>)
    | Holding(asked: set<string>, held: seq<string>)
    | Releasing(held: seq<string>)

  /** Lock files with the process that created each, and the live processes. */
  datatype State = State(files: map<string, nat>, pcs: map<nat, Pc>, past: set<nat>)

  datatype Event =
    | Spawn(born: nat)
    | Crash(victim: nat)
    | Ask(who: nat, order: seq<string>)
    | Step(who: nat)
    | Drop(who: nat)

  function Elements(s: seq<string>): set<string> { set x | x in s }

  predicate Enabled(s: State, e: Event) {
    match e
    case Spawn(p) => p !in s.past
    case Crash(p) => p in s.pcs
    case Ask(p, order) => p in s.pcs && s.pcs[p].Idle? && Distinct(order)
    case Step(p) => p in s.pcs && (s.pcs[p].Acquiring? || s.pcs[p].Releasing?)
    case Drop(p) => p in s.pcs && s.pcs[p].Holding?
  }

  /** One step of `acquire_exclusive_file_locks`, or of dropping its guards one by one. */
  function StepOf(s: State, p: nat): State
    requires p in s.pcs
  {
    match s.pcs[p]
    case Acquiring(asked, todo, held) =>
      if todo == [] then s.(pcs := s.pcs[p := Holding(asked, held)])
      else if todo[0] in s.files then s.(pcs := s.pcs[p := Releasing(held)])
      else s.(files := s.files[todo[0] := p], pcs := s.pcs[p := Acquiring(asked, todo[1..], held + [todo[0]])])
    case Releasing(held) =>
      if held == [] then s.(pcs := s.pcs[p := Idle])
      else s.(files := s.files - {held[0]}, pcs := s.pcs[p := Releasing(held[1..])])
    case _ => s
  }

  function Next(s: State, e: Event): State
    requires Enabled(s, e)
  {
    match e
    case Spawn(p) => s.(pcs := s.pcs[p := Idle], past := s.past + {p})
    case Crash(p) => s.(pcs := s.pcs - {p})
    case Ask(p, order) => s.(pcs := s.pcs[p := Acquiring(Elements(order), order, [])])
    case Step(p) => StepOf(s, p)
    case Drop(p) => s.(pcs := s.pcs[p := Releasing(s.pcs[p].held)])
  }

  predicate Run(s: State, events: seq<Event>)
    decreases |events|
  {
    events == [] || (Enabled(s, events[0]) && Run(Next(s, events[0]), events[1..]))
  }

  function After(s: State, events: seq<Event>): State
    requires Run(s, events)
    decreases |events|
  {
    if events == [] then s else After(Next(s, events[0]), events[1..])
  }

  /** Nobody runs yet; lock files of dead processes may be lying around. */
  predicate Init(s: State) {
    s.pcs == map[] && forall path | path in s.files :: s.files[path] in s.past
  }

  // ---------------------------------------------------------------- the invariant

  function Held(pc: Pc): seq<string> {
    if pc.Idle? then [] else pc.held
  }

  /** A live process holds exactly the lock files it created. */
  ghost predicate Owns(s: State, p: nat)
    requires p in s.pcs
  {
    && Distinct(Held(s.pcs[p]))
    && forall path :: path in Held(s.pcs[p]) <==> path in s.files && s.files[path] == p
  }

  /** What is held and what is still to do are what was asked, each once. */
  predicate OnTrack(pc: Pc) {
    match pc
    case Acquiring(asked, todo, held) => Distinct(held + todo) && Elements(held + todo) == asked
    case Holding(asked, held) => Elements(held) == asked
    case _ => true
  }

  ghost predicate Inv(s: State) {
    && (forall p | p in s.pcs :: p in s.past && Owns(s, p) && OnTrack(s.pcs[p]))
    && (forall path | path in s.files :: s.files[path] in s.past)
  }

  lemma {:induction false} MoveOne(held: seq<string>, todo: seq<string>)
    requires todo != []
    ensures held + [todo[0]] + todo[1..] == held + todo
  {
  }

  /** Taking a lock file that does not exist. */
  lemma {:induction false} TakeKeepsInv(s: State, p: nat)
    requires Inv(s) && p in s.pcs && s.pcs[p].Acquiring? && s.pcs[p].todo != [] && s.pcs[p].todo[0] !in s.files
    ensures Inv(StepOf(s, p))
  {
    var t, pc := StepOf(s, p), s.pcs[p];
    var path := pc.todo[0];
    MoveOne(pc.held, pc.todo);
    assert Owns(s, p) && OnTrack(pc);
    assert path !in pc.held;
    forall q | q in t.pcs ensures Owns(t, q) && OnTrack(t.pcs[q]) {
      assert Owns(s, q) && OnTrack(s.pcs[q]);
      if q == p {
        assert Held(t.pcs[p]) == pc.held + [path];
      }
    }
  }

  /** Removing one's own lock file. */
  lemma {:induction false} GiveKeepsInv(s: State, p: nat)
    requires Inv(s) && p in s.pcs && s.pcs[p].Releasing? && s.pcs[p].held != []
    ensures Inv(StepOf(s, p))
  {
    var t, held := StepOf(s, p), s.pcs[p].held;
    assert Owns(s, p);
    assert held[0] in held && s.files[held[0]] == p;
    forall q | q in t.pcs ensures Owns(t, q) && OnTrack(t.pcs[q]) {
      assert Owns(s, q) && OnTrack(s.pcs[q]);
      if q == p {
        assert held == [held[0]] + held[1..];
      }
    }
  }

  lemma {:induction false} StepKeepsInv(s: State, p: nat)
    requires Inv(s) && Enabled(s, Step(p))
    ensures Inv(StepOf(s, p))
  {
    var t, pc := StepOf(s, p), s.pcs[p];
    if pc.Acquiring? && pc.todo != [] && pc.todo[0] !in s.files {
      TakeKeepsInv(s, p);
    } else if pc.Releasing? && pc.held != [] {
      GiveKeepsInv(s, p);
    } else {
      SamePlaces(s, t, p);
    }
  }

  /** A move that neither creates nor removes a file and holds on to the same guards. */
  lemma {:induction false} SamePlaces(s: State, t: State, p: nat)
    requires Inv(s) && p in s.pcs && p in t.pcs && t == s.(pcs := s.pcs[p := t.pcs[p]])
    requires Held(t.pcs[p]) == Held(s.pcs[p]) && OnTrack(t.pcs[p])
    ensures Inv(t)
  {
    forall q | q in t.pcs ensures Owns(t, q) && OnTrack(t.pcs[q]) {
      assert Owns(s, q) && OnTrack(s.pcs[q]);
    }
  }

  lemma {:induction false} NextKeepsInv(s: State, e: Event)
    requires Inv(s) && Enabled(s, e)
    ensures Inv(Next(s, e))
  {
    var t := Next(s, e);
    match e
    case Step(p) => StepKeepsInv(s, p);
    case Ask(p, order) =>
      assert [] + order == order;
      SamePlaces(s, t, p);
    case Drop(p) => SamePlaces(s, t, p);
    case Spawn(p) =>
      forall q | q in t.pcs ensures Owns(t, q) && OnTrack(t.pcs[q]) {
        if q != p { assert Owns(s, q) && OnTrack(s.pcs[q]); }
      }
    case Crash(p) =>
      forall q | q in t.pcs ensures Owns(t, q) && OnTrack(t.pcs[q]) { assert Owns(s, q) && OnTrack(s.pcs[q]); }
  }

  lemma {:induction false} RunInv(s: State, events: seq<Event>)
    requires Inv(s) && Run(s, events)
    ensures Inv(After(s, events))
    decreases |events|
  {
    hide Inv;
    if events == [] {
      assert After(s, events) == s;
    } else {
      NextKeepsInv(s, events[0]);
      RunInv(Next(s, events[0]), events[1..]);
    }
  }

  // ---------------------------------------------------------------- what every run keeps

  /** No lock has two live holders. */
  lemma {:induction false} LocksExclude(s: State, events: seq<Event>, p: nat, q: nat, path: string)
    requires Init(s) && Run(s, events)
    ensures var t := After(s, events);
      p in t.pcs && q in t.pcs && path in Held(t.pcs[p]) && path in Held(t.pcs[q]) ==> p == q
  {
    RunInv(s, events);
    var t := After(s, events);
    hide Run, After;
    if p in t.pcs && q in t.pcs { assert Owns(t, p) && Owns(t, q); }
  }

  /**
   Asking for several locks is all or nothing: in the end a process owns
   everything it asked for or no lock file at all.
   */
  lemma {:induction false} AllOrNothing(s: State, events: seq<Event>, p: nat)
    requires Init(s) && Run(s, events)
    ensures var t := After(s, events);
      p in t.pcs ==>
        && (t.pcs[p].Holding? ==> forall path :: path in t.pcs[p].asked <==> path in t.files && t.files[path] == p)
        && (t.pcs[p].Idle? ==> forall path | path in t.files :: t.files[path] != p)
  {
    RunInv(s, events);
    var t := After(s, events);
    hide Run, After;
    if p in t.pcs {
      assert Owns(t, p) && OnTrack(t.pcs[p]);
      if t.pcs[p].Holding? {
        assert forall path :: path in t.pcs[p].held <==> path in Elements(t.pcs[p].held);
      }
    }
  }

  /** Own steps an asker needs to hold everything, or to give everything back. */
  function Rank(pc: Pc): nat {
    match pc
    case Acquiring(_, todo, held) => |held| + 2 * |todo| + 2
    case Releasing(held) => |held| + 1
    case _ => 0
  }

  /** Nobody waits: every own step is enabled until the asker is done, and brings it nearer. */
  lemma {:induction false} NobodyWaits(s: State, p: nat)
    requires p in s.pcs && (s.pcs[p].Acquiring? || s.pcs[p].Releasing?)
    ensures Enabled(s, Step(p)) && p in StepOf(s, p).pcs && Rank(StepOf(s, p).pcs[p]) < Rank(s.pcs[p])
    ensures s.pcs[p].Acquiring? && StepOf(s, p).pcs[p].Releasing? ==>
      s.pcs[p].todo != [] && s.pcs[p].todo[0] in s.files
  {
  }
}
