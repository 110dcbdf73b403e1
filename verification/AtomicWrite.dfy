/**
 Atomic replacement of a file in `src/runtimepaths.rs`, by any number of
 writers that may fail or crash at every step. A writer fills a temporary file of
 its own, a few bytes at a time, and then renames it over the target.
 */
module AtomicWrite {
  import opened Text
  import opened Utf8

  const ATTEMPTS := 100

  /** Where a writer is; `data` is what it was asked to write. */
  datatype Pc =
    | Opening(data: seq<byte>, attempt: nat)
    | Filling(data: seq<byte>, temp: string, written: nat)
    | Filled(data: seq<byte>, temp: string)
    | Cleaning(temp: string)
    | Replaced(data: seq<byte>)
    | Failed

  /** The target, the temporary files beside it, every text asked for, and the writer whose rename was last. */
  datatype State = State(
    target: Option<seq<byte>>,
    temps: map<string, seq<byte>>,
    pcs: map<nat, Pc>,
    asked: seq<seq<byte>>,
    last: Option<seq<byte>>)

  datatype Event =
    | Ask(who: nat, data: seq<byte>)
    | Open(who: nat, temp: string)
    | Write(who: nat, count: nat)
    | Sync(who: nat)
    | Rename(who: nat)
    | Break(who: nat)
    | Clean(who: nat)
    | Crash(who: nat)

  predicate Enabled(s: State, e: Event) {
    match e
    case Ask(w, _) => w !in s.pcs
    case Open(w, _) => w in s.pcs && s.pcs[w].Opening?
    case Write(w, n) => w in s.pcs && s.pcs[w].Filling? && 0 < n <= |s.pcs[w].data| - s.pcs[w].written
    case Sync(w) => w in s.pcs && s.pcs[w].Filling? && s.pcs[w].written == |s.pcs[w].data|
    case Rename(w) => w in s.pcs && s.pcs[w].Filled? && s.pcs[w].temp in s.temps
    case Break(w) => w in s.pcs && (s.pcs[w].Filling? || s.pcs[w].Filled?)
    case Clean(w) => w in s.pcs && s.pcs[w].Cleaning?
    case Crash(w) => w in s.pcs
  }

  function To(s: State, w: nat, pc: Pc): State { s.(pcs := s.pcs[w := pc]) }

  function Next(s: State, e: Event): State
    requires Enabled(s, e)
  {
    match e
    case Ask(w, data) => To(s, w, Opening(data, 0)).(asked := s.asked + [data])
    case Open(w, temp) =>
      var pc := s.pcs[w];
      if pc.attempt >= ATTEMPTS then To(s, w, Failed)
      else if temp in s.temps then To(s, w, Opening(pc.data, pc.attempt + 1))
      else To(s, w, Filling(pc.data, temp, 0)).(temps := s.temps[temp := []])
    case Write(w, n) =>
      var pc := s.pcs[w];
      var more := pc.data[pc.written..pc.written + n];
      To(s, w, Filling(pc.data, pc.temp, pc.written + n)).(
        temps := s.temps[pc.temp := (if pc.temp in s.temps then s.temps[pc.temp] else []) + more])
    case Sync(w) => To(s, w, Filled(s.pcs[w].data, s.pcs[w].temp))
    case Rename(w) =>
      To(s, w, Replaced(s.pcs[w].data)).(
        target := Some(s.temps[s.pcs[w].temp]), temps := s.temps - {s.pcs[w].temp}, last := Some(s.pcs[w].data))
    case Break(w) => To(s, w, Cleaning(s.pcs[w].temp))
    case Clean(w) => To(s, w, Failed).(temps := s.temps - {s.pcs[w].temp})
    case Crash(w) => s.(pcs := s.pcs - {w})
  }

  predicate Run(s: State, events: seq<Event>)
    decreases |events|
  {
    events == [] || (Enabled(s, events[0]) && Run(Next(s, events[0]), events[1..]))
  }

  function After(s: State, events: seq<Event>): State
    requires Run(s, events)
    decreases |events|
  {
    if events == [] then s else After(Next(s, events[0]), events[1..])
  }

  /** Nobody writes yet; the target and old temporary files may hold anything. */
  predicate Init(s: State) {
    s.pcs == map[] && s.asked == [] && s.last.None?
  }

  // ---------------------------------------------------------------- the invariant

  predicate HasTemp(pc: Pc) { pc.Filling? || pc.Filled? || pc.Cleaning? }

  /** A writer's temporary file holds exactly what it has written so far. */
  predicate Filed(s: State, w: nat)
    requires w in s.pcs
  {
    var pc := s.pcs[w];
    && (HasTemp(pc) ==> pc.temp in s.temps)
    && (pc.Filling? ==> pc.written <= |pc.data| && s.temps[pc.temp] == pc.data[..pc.written])
    && (pc.Filled? ==> s.temps[pc.temp] == pc.data)
    && (pc.Opening? || pc.Filling? || pc.Filled? || pc.Replaced? ==> pc.data in s.asked)
  }

  /** No two writers share a temporary file. */
  ghost predicate Apart(s: State) {
    forall v, w | v in s.pcs && w in s.pcs && v != w && HasTemp(s.pcs[v]) && HasTemp(s.pcs[w]) ::
      s.pcs[v].temp != s.pcs[w].temp
  }

  ghost predicate Inv(s: State, before: Option<seq<byte>>) {
    && (forall w | w in s.pcs :: Filed(s, w))
    && Apart(s)
    && (s.last.None? ==> s.target == before)
    && (s.last.Some? ==> s.target == s.last && s.last.value in s.asked)
  }

  /** A step of writer `w` leaves the other writers' files alone. */
  lemma {:induction false} OthersFiled(s: State, t: State, w: nat, before: Option<seq<byte>>)
    requires Inv(s, before)
    requires t.pcs.Keys - {w} == s.pcs.Keys - {w} && forall v | v in s.pcs && v != w ::
      v in t.pcs && t.pcs[v] == s.pcs[v]
    requires forall data | data in s.asked :: data in t.asked
    requires forall v | v in s.pcs && v != w && HasTemp(s.pcs[v]) ::
      s.pcs[v].temp in t.temps && t.temps[s.pcs[v].temp] == s.temps[s.pcs[v].temp]
    ensures forall v | v in t.pcs && v != w :: Filed(t, v)
  {
    forall v | v in t.pcs && v != w ensures Filed(t, v) {
      assert v in s.pcs.Keys - {w};
      assert Filed(s, v);
    }
  }

  lemma {:induction false} NextKeepsInv(s: State, e: Event, before: Option<seq<byte>>)
    requires Inv(s, before) && Enabled(s, e)
    ensures Inv(Next(s, e), before)
  {
    var t, w := Next(s, e), e.who;
    if w in s.pcs { assert Filed(s, w); }
    assert t.pcs.Keys - {w} == s.pcs.Keys - {w};
    OthersTemps(s, e, before);
    OthersFiled(s, t, w, before);
    if w in t.pcs { StepFiled(s, e, before); }
    StepApart(s, e, before);
  }

  lemma {:induction false} OthersTemps(s: State, e: Event, before: Option<seq<byte>>)
    requires Inv(s, before) && Enabled(s, e)
    ensures forall v | v in s.pcs && v != e.who && HasTemp(s.pcs[v]) ::
      var temp := s.pcs[v].temp; temp in Next(s, e).temps && Next(s, e).temps[temp] == s.temps[temp]
  {
    var w := e.who;
    if w in s.pcs { assert Filed(s, w); }
    forall v | v in s.pcs && v != w && HasTemp(s.pcs[v])
      ensures var temp := s.pcs[v].temp; temp in Next(s, e).temps && Next(s, e).temps[temp] == s.temps[temp]
    {
      assert Filed(s, v);
    }
  }

  lemma {:induction false} Appends(data: seq<byte>, written: nat, n: nat)
    requires written + n <= |data|
    ensures data[..written] + data[written..written + n] == data[..written + n]
  {
  }

  lemma {:induction false} StepFiled(s: State, e: Event, before: Option<seq<byte>>)
    requires Inv(s, before) && Enabled(s, e) && e.who in Next(s, e).pcs
    ensures Filed(Next(s, e), e.who)
  {
    var w := e.who;
    if w in s.pcs { assert Filed(s, w); }
    if e.Write? { Appends(s.pcs[w].data, s.pcs[w].written, e.count); }
    if e.Sync? { assert s.pcs[w].data[..|s.pcs[w].data|] == s.pcs[w].data; }
  }

  lemma {:induction false} StepApart(s: State, e: Event, before: Option<seq<byte>>)
    requires Inv(s, before) && Enabled(s, e)
    ensures Apart(Next(s, e))
  {
    var t, w := Next(s, e), e.who;
    forall v | v in t.pcs && v != w && HasTemp(t.pcs[v]) && w in t.pcs && HasTemp(t.pcs[w])
      ensures t.pcs[v].temp != t.pcs[w].temp
    {
      assert v in s.pcs && Filed(s, v);
    }
  }

  lemma {:induction false} RunInv(s: State, events: seq<Event>, before: Option<seq<byte>>)
    requires Inv(s, before) && Run(s, events)
    ensures Inv(After(s, events), before)
    decreases |events|
  {
    hide Inv;
    if events == [] {
      assert After(s, events) == s;
    } else {
      NextKeepsInv(s, events[0], before);
      RunInv(Next(s, events[0]), events[1..], before);
    }
  }

  // ---------------------------------------------------------------- what every run keeps

  /**
   At every point of every run the target is wholly the old text or wholly one
   that was asked for, the last renamed.
   */
  lemma {:induction false} NeverTorn(s: State, events: seq<Event>)
    requires Init(s) && Run(s, events)
    ensures var t := After(s, events);
      && (t.last.None? ==> t.target == s.target)
      && (t.last.Some? ==> t.target == t.last && t.last.value in t.asked)
  {
    RunInv(s, events, s.target);
  }

  // ---------------------------------------------------------------- temporary files

  /** The temporary files that crashed writers leave behind in a run. */
  function Orphans(s: State, events: seq<Event>): set<string>
    requires Run(s, events)
    decreases |events|
  {
    if events == [] then {} else OrphanOf(s, events[0]) + Orphans(Next(s, events[0]), events[1..])
  }

  function OrphanOf(s: State, e: Event): set<string>
    requires Enabled(s, e)
  {
    if e.Crash? && HasTemp(s.pcs[e.who]) then {s.pcs[e.who].temp} else {}
  }

  /** Some writer that is still there holds the temporary file. */
  ghost predicate Owned(s: State, file: string) {
    exists w :: w in s.pcs && HasTemp(s.pcs[w]) && s.pcs[w].temp == file
  }

  /** The temporary files are the old ones, untouched, the orphans, and those of the writers. */
  ghost predicate Litter(s: State, start: map<string, seq<byte>>, orphans: set<string>) {
    && (forall file :: file in s.temps <==> file in start || file in orphans || Owned(s, file))
    && (forall file :: file in start || file in orphans ==> !Owned(s, file))
    && (forall file | file in start :: s.temps[file] == start[file])
  }

  /** The writer of a step gives up its temporary file. */
  predicate GivesUp(s: State, e: Event)
    requires Enabled(s, e)
  {
    e.Rename? || e.Clean? || (e.Crash? && HasTemp(s.pcs[e.who]))
  }

  predicate Opens(s: State, e: Event)
    requires Enabled(s, e)
  {
    e.Open? && s.pcs[e.who].attempt < ATTEMPTS && e.temp !in s.temps
  }

  /** Who owns a file after a step owned it before, unless the step opened it. */
  lemma {:induction false} OwnedBefore(s: State, e: Event, before: Option<seq<byte>>, file: string)
    requires Inv(s, before) && Enabled(s, e) && Owned(Next(s, e), file)
    ensures (Opens(s, e) && file == e.temp) || (Owned(s, file) && !(GivesUp(s, e) && file == s.pcs[e.who].temp))
  {
    hide Filed;
    var t, w := Next(s, e), e.who;
    var v :| v in t.pcs && HasTemp(t.pcs[v]) && t.pcs[v].temp == file;
    if v == w {
      assert Opens(s, e) || (HasTemp(s.pcs[w]) && s.pcs[w].temp == file && !GivesUp(s, e));
    } else {
      assert s.pcs[v] == t.pcs[v];
    }
  }

  lemma {:induction false} OwnedAfter(s: State, e: Event, file: string)
    requires Enabled(s, e)
    requires (Opens(s, e) && file == e.temp) || (Owned(s, file) && !(GivesUp(s, e) && file == s.pcs[e.who].temp))
    ensures Owned(Next(s, e), file)
  {
    var t, w := Next(s, e), e.who;
    if Opens(s, e) && file == e.temp {
      assert HasTemp(t.pcs[w]);
    } else {
      var v :| v in s.pcs && HasTemp(s.pcs[v]) && s.pcs[v].temp == file;
      assert v in t.pcs && HasTemp(t.pcs[v]) && t.pcs[v].temp == file;
    }
  }

  lemma {:induction false} OwnedStep(s: State, e: Event, before: Option<seq<byte>>, file: string)
    requires Inv(s, before) && Enabled(s, e)
    ensures GivesUp(s, e) ==> HasTemp(s.pcs[e.who]) && Owned(s, s.pcs[e.who].temp)
    ensures Owned(Next(s, e), file) <==>
      (Opens(s, e) && file == e.temp) || (Owned(s, file) && !(GivesUp(s, e) && file == s.pcs[e.who].temp))
  {
    hide Inv, Next;
    assert GivesUp(s, e) ==> HasTemp(s.pcs[e.who]);
    if Owned(Next(s, e), file) {
      OwnedBefore(s, e, before, file);
    } else if (Opens(s, e) && file == e.temp) || (Owned(s, file) && !(GivesUp(s, e) && file == s.pcs[e.who].temp)) {
      OwnedAfter(s, e, file);
    }
  }

  lemma {:induction false} NextKeepsLitter(
    s: State, e: Event, before: Option<seq<byte>>, start: map<string, seq<byte>>, orphans: set<string>)
    requires Inv(s, before) && Enabled(s, e) && Litter(s, start, orphans)
    ensures Litter(Next(s, e), start, orphans + OrphanOf(s, e))
  {
    hide Inv, Owned;
    var t, left := Next(s, e), orphans + OrphanOf(s, e);
    forall file
      ensures file in t.temps <==> file in start || file in left || Owned(t, file)
      ensures file in start || file in left ==> !Owned(t, file)
    {
      OwnedStep(s, e, before, file);
      TempsStep(s, e, before, file);
    }
    forall file | file in start ensures t.temps[file] == start[file] { TempsStep(s, e, before, file); }
  }

  /** A step touches only the temporary file of its own writer. */
  lemma {:induction false} TempsStep(s: State, e: Event, before: Option<seq<byte>>, file: string)
    requires Inv(s, before) && Enabled(s, e)
    ensures file in Next(s, e).temps <==>
      (Opens(s, e) && file == e.temp)
      || (file in s.temps && !((e.Rename? || e.Clean?) && file == s.pcs[e.who].temp))
    ensures file in s.temps && !Owned(s, file) ==> Next(s, e).temps[file] == s.temps[file]
  {
    var w := e.who;
    if w in s.pcs { assert Filed(s, w); }
    assert w in s.pcs && HasTemp(s.pcs[w]) ==> Owned(s, s.pcs[w].temp);
  }

  lemma {:induction false} RunLitter(
    s: State, events: seq<Event>, before: Option<seq<byte>>, start: map<string, seq<byte>>, orphans: set<string>)
    requires Inv(s, before) && Run(s, events) && Litter(s, start, orphans)
    ensures Litter(After(s, events), start, orphans + Orphans(s, events))
    decreases |events|
  {
    hide Inv, Litter;
    if events == [] {
      assert orphans + Orphans(s, events) == orphans;
    } else {
      var e := events[0];
      NextKeepsInv(s, e, before);
      NextKeepsLitter(s, e, before, start, orphans);
      RunLitter(Next(s, e), events[1..], before, start, orphans + OrphanOf(s, e));
      assert orphans + OrphanOf(s, e) + Orphans(Next(s, e), events[1..]) == orphans + Orphans(s, events);
    }
  }

  /**
   At every point of every run the temporary files are exactly those there at
   the start, unchanged, those of writers that crashed holding one, and those
   of writers still at work: one that ended has left none behind.
   */
  lemma {:induction false} NoLitter(s: State, events: seq<Event>)
    requires Init(s) && Run(s, events)
    ensures var t := After(s, events);
      && (forall file :: file in t.temps <==> file in s.temps || file in Orphans(s, events) || Owned(t, file))
      && (forall file | file in s.temps :: t.temps[file] == s.temps[file])
  {
    RunLitter(s, events, s.target, s.temps, {});
    assert {} + Orphans(s, events) == Orphans(s, events);
  }

  // ---------------------------------------------------------------- a write gets done

  lemma {:induction false} RunMore(s: State, events: seq<Event>, e: Event)
    requires Run(s, events) && Enabled(After(s, events), e)
    ensures Run(s, events + [e]) && After(s, events + [e]) == Next(After(s, events), e)
    decreases |events|
  {
    hide Enabled, Next;
    if events == [] {
      assert [e][1..] == [];
    } else {
      RunMore(Next(s, events[0]), events[1..], e);
      assert (events + [e])[1..] == events[1..] + [e];
    }
  }

  /** A rename puts the writer's whole text in place, and its temporary file is gone. */
  lemma {:induction false} RenameReplaces(s: State, w: nat, before: Option<seq<byte>>)
    requires Inv(s, before) && w in s.pcs && s.pcs[w].Filled?
    ensures Enabled(s, Rename(w))
    ensures var t := Next(s, Rename(w));
      && t.target == Some(s.pcs[w].data) && t.pcs[w] == Replaced(s.pcs[w].data) && s.pcs[w].temp !in t.temps
      && t.asked == s.asked
  {
    assert Filed(s, w);
  }

  lemma {:induction false} OpenTakes(s: State, w: nat, data: seq<byte>, n: nat, temp: string)
    requires w in s.pcs && s.pcs[w] == Opening(data, n) && n < ATTEMPTS && temp !in s.temps
    ensures Enabled(s, Open(w, temp))
    ensures w in Next(s, Open(w, temp)).pcs && Next(s, Open(w, temp)).pcs[w] == Filling(data, temp, 0)
  {
  }

  lemma {:induction false} FillTakes(s: State, w: nat, data: seq<byte>, temp: string)
    requires w in s.pcs && s.pcs[w] == Filling(data, temp, 0)
    ensures data != [] ==>
      && Enabled(s, Write(w, |data|)) && w in Next(s, Write(w, |data|)).pcs
      && Next(s, Write(w, |data|)).pcs[w] == Filling(data, temp, |data|)
  {
  }

  /** The steps of a write that meets a free temporary name and no failure. */
  function WriteEvents(w: nat, data: seq<byte>, temp: string): seq<Event> {
    [Open(w, temp)] + (if data == [] then [] else [Write(w, |data|)]) + [Sync(w)] + [Rename(w)]
  }

  /** From any state a write that is asked for can be finished: the target then holds exactly its text. */
  lemma {:induction false} WriteCompletes(
    s: State, before: Option<seq<byte>>, w: nat, data: seq<byte>, n: nat, temp: string)
    requires Inv(s, before) && w in s.pcs && s.pcs[w] == Opening(data, n) && n < ATTEMPTS && temp !in s.temps
    ensures Run(s, WriteEvents(w, data, temp))
    ensures var t := After(s, WriteEvents(w, data, temp));
      t.target == Some(data) && w in t.pcs && t.pcs[w] == Replaced(data) && temp !in t.temps
  {
    hide Inv, Enabled, Next, Run, After;
    OpenTakes(s, w, data, n, temp);
    NextKeepsInv(s, Open(w, temp), before);
    var a := [Open(w, temp)];
    RunNone(s);
    RunMore(s, [], Open(w, temp));
    assert [] + a == a;
    var s1 := After(s, a);
    FillTakes(s1, w, data, temp);
    var b := if data == [] then [] else [Write(w, |data|)];
    if data == [] {
      assert a + b == a;
    } else {
      NextKeepsInv(s1, Write(w, |data|), before);
      RunMore(s, a, Write(w, |data|));
    }
    var s2 := After(s, a + b);
    SyncTakes(s2, w, data, temp);
    NextKeepsInv(s2, Sync(w), before);
    RunMore(s, a + b, Sync(w));
    var s3 := After(s, a + b + [Sync(w)]);
    RenameReplaces(s3, w, before);
    RunMore(s, a + b + [Sync(w)], Rename(w));
    RenamePosition(s3, w);
  }

  lemma {:induction false} RunNone(s: State)
    ensures Run(s, []) && After(s, []) == s
  {
  }

  lemma {:induction false} SyncTakes(s: State, w: nat, data: seq<byte>, temp: string)
    requires w in s.pcs && s.pcs[w] == Filling(data, temp, |data|)
    ensures Enabled(s, Sync(w)) && w in Next(s, Sync(w)).pcs && Next(s, Sync(w)).pcs[w] == Filled(data, temp)
  {
  }

  lemma {:induction false} RenamePosition(s: State, w: nat)
    requires Enabled(s, Rename(w))
    ensures w in Next(s, Rename(w)).pcs
  {
  }

  /** A writer gives up for want of a name only after a hundred names that were all taken. */
  lemma {:induction false} OpenTries(s: State, w: nat, temp: string)
    requires w in s.pcs && s.pcs[w].Opening?
    ensures var t := Next(s, Open(w, temp));
      && Enabled(s, Open(w, temp))
      && (t.pcs[w].Failed? <==> s.pcs[w].attempt >= 100)
      && (t.pcs[w].Opening? <==> s.pcs[w].attempt < 100 && temp in s.temps)
      && (t.pcs[w].Opening? ==> t.pcs[w].attempt == s.pcs[w].attempt + 1 && t.temps == s.temps)
  {
  }
}
