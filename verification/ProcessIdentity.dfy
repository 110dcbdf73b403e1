/**
 Who a pid is, after `src/process_identity.rs`. The operating system is a table
 of live processes; a start token tells one process from a later one that was
 given the same pid.
 */
module ProcessIdentity {
  import opened Text

  datatype Instance = Instance(pid: nat, token: string)

  /** What the platform reports of a live pid; the executable may be unknown. */
  datatype Identity = Identity(token: string, executable: Option<string>)

  type Table = map<nat, Identity>

  datatype Verdict = Match | NotFound | Mismatch

  predicate Alive(table: Table, i: Instance) {
    i.pid in table && table[i.pid].token == i.token
  }

  function Capture(table: Table, pid: nat): Option<Identity> {
    if pid == 0 || pid !in table then None else Some(table[pid])
  }

  /** `match_process`; executables are compared as canonical paths. */
  function MatchProcess(table: Table, pid: nat, token: Option<string>, executable: Option<string>): Verdict {
    match Capture(table, pid)
    case None => NotFound
    case Some(actual) =>
      var expected := if executable == Some("") then None else executable;
      if token.None? && expected.None? then Mismatch
      else if token.Some? && token.value != actual.token then Mismatch
      else if expected.None? then Match
      else if actual.executable.None? then (if token.Some? then Match else Mismatch)
      else if expected != actual.executable then Mismatch
      else Match
  }

  /** An expected executable is met by a process whose executable is unknown, or the same. */
  predicate Meets(expected: Option<string>, actual: Option<string>) {
    expected.None? || expected.value == "" || actual.None? || actual == expected
  }

  /**
   With a token, a match is exactly a live instance that meets the expected
   executable; without one, exactly a live process known to run it.
   */
  lemma {:induction false} MatchNamesInstance(table: Table, pid: nat, token: string, executable: Option<string>)
    ensures MatchProcess(table, pid, Some(token), executable).Match? <==>
      pid > 0 && Alive(table, Instance(pid, token)) && Meets(executable, table[pid].executable)
    ensures MatchProcess(table, pid, None, executable).Match? <==>
      pid > 0 && pid in table && executable.Some? && executable.value != "" && table[pid].executable == executable
    ensures MatchProcess(table, pid, Some(token), executable).NotFound? <==> pid == 0 || pid !in table
  {
  }
}
