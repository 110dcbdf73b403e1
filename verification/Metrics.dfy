/**
 The shared counters of `src/dashboard.rs` under every interleaving of the
 worker threads' atomic steps. A compare-and-exchange may fail although the
 value is the expected one. Counters are mathematical integers and the steps are
 interleaved one at a time.
 */
module Metrics {
  import opened Basics

  /** Where a worker is: before a connection, in `begin`, handling it, or in the guard's drop. */
  datatype Pc =
    | Idle
    | Accepted
    | LoadActive(active: nat)
    | RaiseActive(active: nat, observed: nat)
    | Serving
    | Timed(fault: bool, duration: nat)
    | LoadDuration(fault: bool, duration: nat)
    | RaiseDuration(fault: bool, duration: nat, observed: nat)
    | Leaving(fault: bool)
    | Completing(fault: bool)
    | Failing

  /** The atomics, then the history they are measured against. */
  datatype State = State(
    accepted: nat, active: nat, completed: nat, failed: nat, maxActive: nat, total: nat, maxDuration: nat,
    pcs: seq<Pc>,
    peak: nat, longest: nat, spent: nat, faults: nat)

  /** What the environment decides: how the request ends, how long it took, whether an exchange fails for no reason. */
  datatype Choice = Choice(fault: bool, duration: nat, spurious: bool)

  datatype Event = Event(worker: nat, choice: Choice)

  function At(s: State, w: nat, pc: Pc): State
    requires w < |s.pcs|
  {
    s.(pcs := s.pcs[w := pc])
  }

  /** One atomic step of worker `w`. */
  function Step(s: State, w: nat, c: Choice): State
    requires w < |s.pcs|
  {
    match s.pcs[w]
    case Idle => At(s, w, Accepted).(accepted := s.accepted + 1)
    case Accepted => At(s, w, LoadActive(s.active + 1)).(active := s.active + 1, peak := Max(s.peak, s.active + 1))
    case LoadActive(active) => At(s, w, RaiseActive(active, s.maxActive))
    case RaiseActive(active, observed) =>
      if active <= observed then At(s, w, Serving)
      else if observed == s.maxActive && !c.spurious then At(s, w, Serving).(maxActive := active)
      else At(s, w, RaiseActive(active, s.maxActive))
    case Serving => At(s, w, Timed(c.fault, c.duration)).(faults := s.faults + (if c.fault then 1 else 0))
    case Timed(fault, duration) =>
      At(s, w, LoadDuration(fault, duration)).(
        total := s.total + duration, spent := s.spent + duration, longest := Max(s.longest, duration))
    case LoadDuration(fault, duration) => At(s, w, RaiseDuration(fault, duration, s.maxDuration))
    case RaiseDuration(fault, duration, observed) =>
      if duration <= observed then At(s, w, Leaving(fault))
      else if observed == s.maxDuration && !c.spurious then At(s, w, Leaving(fault)).(maxDuration := duration)
      else At(s, w, RaiseDuration(fault, duration, s.maxDuration))
    case Leaving(fault) => At(s, w, Completing(fault)).(active := if s.active > 0 then s.active - 1 else 0)
    case Completing(fault) => At(s, w, if fault then Failing else Idle).(completed := s.completed + 1)
    case Failing => At(s, w, Idle).(failed := s.failed + 1)
  }

  predicate Run(s: State, events: seq<Event>)
    decreases |events|
  {
    events == [] ||
    (events[0].worker < |s.pcs| && Run(Step(s, events[0].worker, events[0].choice), events[1..]))
  }

  function After(s: State, events: seq<Event>): State
    requires Run(s, events)
    decreases |events|
  {
    if events == [] then s else After(Step(s, events[0].worker, events[0].choice), events[1..])
  }

  function Start(workers: nat): State {
    State(0, 0, 0, 0, 0, 0, 0, seq(workers, _ => Idle), 0, 0, 0, 0)
  }

  // ---------------------------------------------------------------- counting workers

  function Sum(pcs: seq<Pc>, weight: Pc -> nat): nat {
    if pcs == [] then 0 else weight(pcs[0]) + Sum(pcs[1..], weight)
  }

  lemma {:induction false} SumUpdate(pcs: seq<Pc>, w: nat, pc: Pc, weight: Pc -> nat)
    requires w < |pcs|
    ensures Sum(pcs[w := pc], weight) == Sum(pcs, weight) - weight(pcs[w]) + weight(pc)
    ensures Sum(pcs, weight) >= weight(pcs[w])
  {
    if w == 0 {
      assert pcs[0 := pc][1..] == pcs[1..];
    } else {
      SumUpdate(pcs[1..], w - 1, pc, weight);
      assert pcs[w := pc][1..] == pcs[1..][w - 1 := pc];
    }
  }

  lemma {:induction false} SumBounds(pcs: seq<Pc>, weight: Pc -> nat)
    requires forall pc :: weight(pc) <= 1
    ensures Sum(pcs, weight) <= |pcs|
    ensures (forall i | 0 <= i < |pcs| :: weight(pcs[i]) == 0) ==> Sum(pcs, weight) == 0
  {
    if pcs != [] { SumBounds(pcs[1..], weight); }
  }

  function Bit(b: bool): nat { if b then 1 else 0 }

  /** Accepted and not yet completed. */
  function Open(pc: Pc): nat { Bit(!pc.Idle? && !pc.Failing?) }

  /** Counted in `active`. */
  function Counted(pc: Pc): nat { Bit(!pc.Idle? && !pc.Accepted? && !pc.Completing? && !pc.Failing?) }

  predicate Faulty(pc: Pc) {
    (pc.Timed? || pc.LoadDuration? || pc.RaiseDuration? || pc.Leaving? || pc.Completing?) && pc.fault
  }

  /** A fault seen and not yet in `failed`. */
  function Owed(pc: Pc): nat { Bit(pc.Failing? || Faulty(pc)) }

  /** Completed with a fault that is not yet in `failed`. */
  function Late(pc: Pc): nat { Bit(pc.Failing?) }

  // ---------------------------------------------------------------- the invariant

  ghost predicate Counts(s: State) {
    && s.accepted == s.completed + Sum(s.pcs, Open)
    && s.active == Sum(s.pcs, Counted)
    && s.faults == s.failed + Sum(s.pcs, Owed)
    && s.failed + Sum(s.pcs, Late) <= s.completed
    && s.total == s.spent
  }

  /** Some worker is about to raise the maximum to the peak. */
  predicate Carries(pc: Pc, peak: nat) {
    (pc.LoadActive? || pc.RaiseActive?) && pc.active == peak
  }

  predicate CarriesDuration(pc: Pc, longest: nat) {
    (pc.LoadDuration? || pc.RaiseDuration?) && pc.duration == longest
  }

  /** No value on its way exceeds the peak, and an observed maximum is never above the real one. */
  predicate Below(pc: Pc, s: State) {
    && (pc.LoadActive? || pc.RaiseActive? ==> pc.active <= s.peak)
    && (pc.RaiseActive? ==> pc.observed <= s.maxActive)
    && (pc.LoadDuration? || pc.RaiseDuration? ==> pc.duration <= s.longest)
    && (pc.RaiseDuration? ==> pc.observed <= s.maxDuration)
  }

  ghost predicate Peaks(s: State) {
    && s.maxActive <= s.peak && s.maxDuration <= s.longest
    && (s.maxActive == s.peak || exists w | 0 <= w < |s.pcs| :: Carries(s.pcs[w], s.peak))
    && (s.maxDuration == s.longest || exists w | 0 <= w < |s.pcs| :: CarriesDuration(s.pcs[w], s.longest))
    && (forall w | 0 <= w < |s.pcs| :: Below(s.pcs[w], s))
  }

  /** Each step changes the counters by as much as it changes its worker's weights. */
  lemma {:induction false} StepDelta(s: State, w: nat, c: Choice)
    requires w < |s.pcs| && (s.pcs[w].Leaving? ==> s.active > 0)
    ensures var t := Step(s, w, c);
      && w < |t.pcs| && t.pcs == s.pcs[w := t.pcs[w]]
      && var was, now := s.pcs[w], t.pcs[w];
         && t.accepted - t.completed == s.accepted - s.completed + Open(now) - Open(was)
         && t.active == s.active + Counted(now) - Counted(was)
         && t.total - t.spent == s.total - s.spent
  {
    hide Owed, Late, Faulty, Max;
  }

  lemma {:induction false} StepFaults(s: State, w: nat, c: Choice)
    requires w < |s.pcs|
    ensures var t := Step(s, w, c);
      && w < |t.pcs|
      && var was, now := s.pcs[w], t.pcs[w];
         && t.faults - t.failed == s.faults - s.failed + Owed(now) - Owed(was)
         && t.completed - t.failed - Late(now) >= s.completed - s.failed - Late(was)
  {
    hide Open, Counted, Max;
  }

  lemma {:induction false} StepCounts(s: State, w: nat, c: Choice)
    requires Counts(s) && w < |s.pcs|
    ensures Counts(Step(s, w, c))
    ensures s.pcs[w].Leaving? ==> s.active > 0
  {
    hide Sum, Step, Open, Owed, Late;
    SumUpdate(s.pcs, w, s.pcs[w], Counted);
    StepDelta(s, w, c);
    StepFaults(s, w, c);
    var pc := Step(s, w, c).pcs[w];
    hide Counted;
    SumUpdate(s.pcs, w, pc, Open);
    SumUpdate(s.pcs, w, pc, Counted);
    SumUpdate(s.pcs, w, pc, Owed);
    SumUpdate(s.pcs, w, pc, Late);
  }

  lemma {:induction false} StepPeaks(s: State, w: nat, c: Choice)
    requires Peaks(s) && w < |s.pcs|
    ensures Peaks(Step(s, w, c))
  {
    StepMonotone(s, w, c);
    StepBelow(s, w, c);
    StepCarries(s, w, c);
    StepCarriesDuration(s, w, c);
  }

  lemma {:induction false} StepMonotone(s: State, w: nat, c: Choice)
    requires Peaks(s) && w < |s.pcs|
    ensures var t := Step(s, w, c);
      && s.maxActive <= t.maxActive <= t.peak && s.peak <= t.peak
      && s.maxDuration <= t.maxDuration <= t.longest && s.longest <= t.longest
      && |t.pcs| == |s.pcs| && forall v | 0 <= v < |s.pcs| && v != w :: t.pcs[v] == s.pcs[v]
  {
    assert Below(s.pcs[w], s);
  }

  lemma {:induction false} StepBelow(s: State, w: nat, c: Choice)
    requires Peaks(s) && w < |s.pcs|
    ensures forall v | 0 <= v < |Step(s, w, c).pcs| :: Below(Step(s, w, c).pcs[v], Step(s, w, c))
  {
    StepMonotone(s, w, c);
    assert Below(s.pcs[w], s);
    var t := Step(s, w, c);
    forall v | 0 <= v < |t.pcs| ensures Below(t.pcs[v], t) {
      if v != w { assert Below(s.pcs[v], s); }
    }
  }

  lemma {:induction false} StepCarries(s: State, w: nat, c: Choice)
    requires Peaks(s) && w < |s.pcs|
    ensures var t := Step(s, w, c);
      t.maxActive == t.peak || exists v | 0 <= v < |t.pcs| :: Carries(t.pcs[v], t.peak)
  {
    StepMonotone(s, w, c);
    assert Below(s.pcs[w], s);
    var t := Step(s, w, c);
    if t.peak != s.peak {
      assert Carries(t.pcs[w], t.peak);
    } else if s.maxActive != s.peak {
      var v :| 0 <= v < |s.pcs| && Carries(s.pcs[v], s.peak);
      if v != w || t.pcs[w].RaiseActive? {
        assert Carries(t.pcs[v], t.peak);
      }
    }
  }

  lemma {:induction false} StepCarriesDuration(s: State, w: nat, c: Choice)
    requires Peaks(s) && w < |s.pcs|
    ensures var t := Step(s, w, c);
      t.maxDuration == t.longest || exists v | 0 <= v < |t.pcs| :: CarriesDuration(t.pcs[v], t.longest)
  {
    StepMonotone(s, w, c);
    assert Below(s.pcs[w], s);
    var t := Step(s, w, c);
    if t.longest != s.longest {
      assert CarriesDuration(t.pcs[w], t.longest);
    } else if s.maxDuration != s.longest {
      var v :| 0 <= v < |s.pcs| && CarriesDuration(s.pcs[v], s.longest);
      if v != w || t.pcs[w].RaiseDuration? {
        assert CarriesDuration(t.pcs[v], t.longest);
      }
    }
  }

  lemma {:induction false} StartInv(workers: nat)
    ensures Counts(Start(workers)) && Peaks(Start(workers))
  {
    var pcs := Start(workers).pcs;
    SumBounds(pcs, Open);
    SumBounds(pcs, Counted);
    SumBounds(pcs, Owed);
    SumBounds(pcs, Late);
  }

  lemma {:induction false} RunKeepsInv(s: State, events: seq<Event>)
    requires Counts(s) && Peaks(s) && Run(s, events)
    ensures Counts(After(s, events)) && Peaks(After(s, events)) && |After(s, events).pcs| == |s.pcs|
    decreases |events|
  {
    if events != [] {
      var w, c := events[0].worker, events[0].choice;
      StepCounts(s, w, c);
      StepPeaks(s, w, c);
      StepMonotone(s, w, c);
      hide Counts, Peaks, Step;
      RunKeepsInv(Step(s, w, c), events[1..]);
    }
  }

  // ---------------------------------------------------------------- what every interleaving keeps

  /** At every step of every run the counters are ordered, and `active` counts connections and never underflows. */
  lemma {:induction false} CountersOrdered(workers: nat, events: seq<Event>)
    requires Run(Start(workers), events)
    ensures var t := After(Start(workers), events);
      && t.failed <= t.completed <= t.accepted
      && t.active <= workers && t.active <= t.accepted
      && t.maxActive <= t.peak && t.maxDuration <= t.longest
      && forall w | 0 <= w < |t.pcs| && t.pcs[w].Leaving? :: t.active > 0
  {
    StartInv(workers);
    RunKeepsInv(Start(workers), events);
    var t := After(Start(workers), events);
    hide Run, After, Start, Peaks;
    SumBounds(t.pcs, Counted);
    CountedIsOpen(t.pcs);
    forall w | 0 <= w < |t.pcs| && t.pcs[w].Leaving? ensures t.active > 0 {
      StepCounts(t, w, Choice(false, 0, false));
    }
  }

  lemma {:induction false} CountedIsOpen(pcs: seq<Pc>)
    ensures Sum(pcs, Counted) <= Sum(pcs, Open)
  {
    if pcs != [] { CountedIsOpen(pcs[1..]); }
  }

  /** When every worker is idle, nothing is active or missing, and the recorded maxima are the true peaks. */
  lemma {:induction false} QuiescentTotals(workers: nat, events: seq<Event>)
    requires Run(Start(workers), events)
    requires forall w | 0 <= w < |After(Start(workers), events).pcs| :: After(Start(workers), events).pcs[w] == Idle
    ensures var t := After(Start(workers), events);
      && t.active == 0 && t.accepted == t.completed && t.failed == t.faults
      && t.maxActive == t.peak && t.maxDuration == t.longest && t.total == t.spent
  {
    StartInv(workers);
    RunKeepsInv(Start(workers), events);
    var t := After(Start(workers), events);
    hide Run, After, Start;
    SumBounds(t.pcs, Open);
    SumBounds(t.pcs, Counted);
    SumBounds(t.pcs, Owed);
  }
}
