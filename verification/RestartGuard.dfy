/**
 The restart guard of `src/restart_guard.rs`: launches are counted in a sliding
 window over a file that forgets what has left the window.
 */
module RestartGuard {
  import opened Basics
  import opened Text
  import opened Utf8

  const U128_MAX := 0xFFFF_FFFF_FFFF_FFFF_FFFF_FFFF_FFFF_FFFF

  // ---------------------------------------------------------------- limits

  function WindowMs(configured: Option<nat>): nat {
    match configured case Some(n) => Clamp(n, 1, 3_600_000) case None => 120_000
  }

  function MaxAttempts(configured: Option<nat>): nat {
    match configured case Some(n) => Clamp(n, 1, 100) case None => 5
  }

  // ---------------------------------------------------------------- the file

  /** `read_attempts`: the lines that are numbers */
  function ReadAttempts(t: string): seq<nat>
    decreases |t|
  {
    if t == "" then []
    else
      var n := LineLen(t);
      (match ParseUint(Trim(t[..n]), 10, U128_MAX) case Some(v) => [v] case None => []) + ReadAttempts(t[n..])
  }

  function Joined(attempts: seq<nat>): string {
    if attempts == [] then ""
    else if |attempts| == 1 then Numeral(attempts[0], 10)
    else Numeral(attempts[0], 10) + "\n" + Joined(attempts[1..])
  }

  /** What `write_attempts` writes. */
  function Payload(attempts: seq<nat>): string { Joined(attempts) + "\n" }

  lemma {:induction false} ReadLine(n: nat, rest: string)
    requires n <= U128_MAX
    ensures ReadAttempts(Numeral(n, 10) + "\n" + rest) == [n] + ReadAttempts(rest)
  {
    hide Numeral, ParseUint, Trim, LineLen;
    NumeralDigits(n, 10);
    NumeralRoundTrip(n, 10, U128_MAX);
    var t := Numeral(n, 10);
    var line := t + "\n";
    var whole := line + rest;
    assert !HasNewline(t) by { hide HasNewline; NumeralHasNoNewline(t); }
    assert whole[..|t| + 1] == line && whole[..|t|] == t && whole[|t|] == '\n';
    LineLenIs(whole, |t| + 1);
    assert whole[|t| + 1..] == rest;
    TrimCore("", t, "\n");
    assert "" + t + "\n" == line;
  }

  lemma {:induction false} NumeralHasNoNewline(t: string)
    requires forall i | 0 <= i < |t| :: !IsSpace(t[i])
    ensures !HasNewline(t)
  {
    assert IsSpace('\n');
  }

  /** The attempt file's decimal text reads back to the same launches. */
  lemma {:induction false} AttemptsRoundTrip(attempts: seq<nat>)
    requires forall i | 0 <= i < |attempts| :: attempts[i] <= U128_MAX
    ensures ReadAttempts(Payload(attempts)) == attempts
  {
    if attempts == [] {
      BlankFile();
    } else if |attempts| == 1 {
      ReadLine(attempts[0], "");
      assert Payload(attempts) == Numeral(attempts[0], 10) + "\n" + "";
    } else {
      ReadLine(attempts[0], Payload(attempts[1..]));
      AttemptsRoundTrip(attempts[1..]);
      hide Numeral, ReadAttempts;
      Assoc(Numeral(attempts[0], 10) + "\n", Joined(attempts[1..]), "\n");
      assert attempts == [attempts[0]] + attempts[1..];
    }
  }

  lemma {:induction false} BlankFile()
    ensures ReadAttempts(Payload([])) == []
  {
    var t := Payload([]);
    assert t == "\n" && LineLen(t) == 1 && t[..1] == t && t[1..] == "";
    TrimBlank(t);
  }

  // ---------------------------------------------------------------- the window

  function Cutoff(now: nat, window: nat): nat { if now >= window then now - window else 0 }

  /** The launches of a list that lie in the window ending at `now`. */
  function Within(attempts: seq<nat>, now: nat, window: nat): seq<nat> {
    if attempts == [] then []
    else
      var v := attempts[|attempts| - 1];
      Within(attempts[..|attempts| - 1], now, window) + (if Cutoff(now, window) <= v <= now then [v] else [])
  }

  class Guard {
    var file: Option<string>

    function Attempts(): seq<nat>
      reads this
    {
      if file.Some? then ReadAttempts(file.value) else []
    }

    /** `check_and_record` at time `now`; a refusal reports how many launches it saw. */
    method CheckAndRecord(now: nat, windowSetting: Option<nat>, maxSetting: Option<nat>) returns (refused: Option<nat>)
      requires now <= U128_MAX
      modifies this
      ensures var window, max := WindowMs(windowSetting), MaxAttempts(maxSetting);
        var seen := Within(old(Attempts()), now, window);
        && refused == (if |seen| >= max then Some(|seen|) else None)
        && (refused.Some? ==> file == old(file))
        && (refused.None? ==> Attempts() == seen + [now])
        && Attempts() == Pruned(old(Attempts()), now, window, max)
    {
      hide ReadAttempts, Payload, Within, WindowMs, MaxAttempts;
      var window, max := WindowMs(windowSetting), MaxAttempts(maxSetting);
      var read := if file.Some? then ReadAttempts(file.value) else [];
      var attempts := Within(read, now, window);
      if |attempts| >= max { return Some(|attempts|); }
      WithinBounded(read, now, window);
      attempts := attempts + [now];
      AttemptsRoundTrip(attempts);
      file := Some(Payload(attempts));
      return None;
    }

    /** `clear` */
    method Clear()
      modifies this
      ensures file.None? && Attempts() == []
    {
      file := None;
    }
  }

  lemma {:induction false} WithinBounded(attempts: seq<nat>, now: nat, window: nat)
    ensures forall i | 0 <= i < |Within(attempts, now, window)| ::
      Cutoff(now, window) <= Within(attempts, now, window)[i] <= now
  {
    if attempts != [] { WithinBounded(attempts[..|attempts| - 1], now, window); }
  }

  // ---------------------------------------------------------------- the pruned file against the whole history

  /** One call over a list of launches: the pruned file keeps the window, the history keeps everything. */
  function Pruned(attempts: seq<nat>, now: nat, window: nat, max: nat): seq<nat> {
    if |Within(attempts, now, window)| >= max then attempts else Within(attempts, now, window) + [now]
  }

  function Recorded(history: seq<nat>, now: nat, window: nat, max: nat): seq<nat> {
    if |Within(history, now, window)| >= max then history else history + [now]
  }

  /** Which calls are accepted, deciding from the pruned file. */
  function FileDecisions(attempts: seq<nat>, times: seq<nat>, window: nat, max: nat): seq<bool>
    decreases |times|
  {
    if times == [] then []
    else
      [|Within(attempts, times[0], window)| < max]
      + FileDecisions(Pruned(attempts, times[0], window, max), times[1..], window, max)
  }

  /** Which calls are accepted, counting all past accepted launches. */
  function HistoryDecisions(history: seq<nat>, times: seq<nat>, window: nat, max: nat): seq<bool>
    decreases |times|
  {
    if times == [] then []
    else
      [|Within(history, times[0], window)| < max]
      + HistoryDecisions(Recorded(history, times[0], window, max), times[1..], window, max)
  }

  function History(history: seq<nat>, times: seq<nat>, window: nat, max: nat): seq<nat>
    decreases |times|
  {
    if times == [] then history else History(Recorded(history, times[0], window, max), times[1..], window, max)
  }

  predicate Ordered(times: seq<nat>) {
    forall i, j | 0 <= i < j < |times| :: times[i] <= times[j]
  }

  /** The file and the history look the same to every window that ends at `since` or later. */
  ghost predicate Agree(attempts: seq<nat>, history: seq<nat>, since: nat, window: nat) {
    forall now: nat | now >= since :: Within(attempts, now, window) == Within(history, now, window)
  }

  lemma {:induction false} WithinSnoc(a: seq<nat>, v: nat, now: nat, window: nat)
    ensures Within(a + [v], now, window) == Within(a, now, window) +
      (if Cutoff(now, window) <= v <= now then [v] else [])
  {
    assert (a + [v])[..|a|] == a;
  }

  /** Looking through an earlier window first changes nothing for a later one. */
  lemma {:induction false} WithinTwice(a: seq<nat>, early: nat, late: nat, window: nat)
    requires early <= late && forall i | 0 <= i < |a| :: a[i] <= early
    ensures Within(Within(a, early, window), late, window) == Within(a, late, window)
  {
    if a != [] {
      var n, v := |a| - 1, a[|a| - 1];
      WithinTwice(a[..n], early, late, window);
      WithinSnoc(Within(a[..n], early, window), v, late, window);
      assert Within(a[..n], early, window) + [] == Within(a[..n], early, window);
    }
  }

  lemma {:induction false} PrunedAgrees(attempts: seq<nat>, history: seq<nat>, since: nat, now: nat, window: nat,
      max: nat)
    requires Agree(attempts, history, since, window) && since <= now
    requires forall i | 0 <= i < |attempts| :: attempts[i] <= now
    ensures Agree(Pruned(attempts, now, window, max), Recorded(history, now, window, max), now, window)
    ensures forall i | 0 <= i < |Pruned(attempts, now, window, max)| :: Pruned(attempts, now, window, max)[i] <= now
  {
    hide Within;
    WithinBounded(attempts, now, window);
    forall late: nat | late >= now
      ensures Within(Pruned(attempts, now, window, max), late, window)
           == Within(Recorded(history, now, window, max), late, window)
    {
      WithinTwice(attempts, now, late, window);
      WithinSnoc(Within(attempts, now, window), now, late, window);
      WithinSnoc(history, now, late, window);
    }
  }

  /** With a clock that does not run backwards, the pruned file decides every call as the whole history would. */
  lemma {:induction false} PruningDecidesAlike(
    attempts: seq<nat>, history: seq<nat>, since: nat, times: seq<nat>, window: nat, max: nat)
    requires Agree(attempts, history, since, window) && Ordered(times) && (times != [] ==> since <= times[0])
    requires forall i | 0 <= i < |attempts| :: attempts[i] <= since
    ensures FileDecisions(attempts, times, window, max) == HistoryDecisions(history, times, window, max)
    decreases |times|
  {
    hide Within;
    if times != [] {
      PrunedAgrees(attempts, history, since, times[0], window, max);
      hide Pruned, Recorded, Agree;
      assert Within(attempts, times[0], window) == Within(history, times[0], window) by {
        AgreeAt(attempts, history, since, times[0], window);
      }
      PruningDecidesAlike(Pruned(attempts, times[0], window, max), Recorded(history, times[0], window, max),
                          times[0], times[1..], window, max);
    }
  }

  lemma {:induction false} AgreeAt(attempts: seq<nat>, history: seq<nat>, since: nat, now: nat, window: nat)
    requires Agree(attempts, history, since, window) && since <= now
    ensures Within(attempts, now, window) == Within(history, now, window)
  {
  }

  /** Starting without a file, file and history decide alike. */
  lemma {:induction false} GuardRefinesHistory(times: seq<nat>, window: nat, max: nat)
    requires Ordered(times)
    ensures FileDecisions([], times, window, max) == HistoryDecisions([], times, window, max)
  {
    PruningDecidesAlike([], [], 0, times, window, max);
  }

  // ---------------------------------------------------------------- no crowded window

  /** No window that ends at a recorded launch holds more than the maximum. */
  ghost predicate Uncrowded(history: seq<nat>, window: nat, max: nat) {
    forall i | 0 <= i < |history| :: |Within(history, history[i], window)| <= max
  }

  lemma {:induction false} RecordedUncrowded(history: seq<nat>, now: nat, window: nat, max: nat)
    requires Uncrowded(history, window, max) && forall i | 0 <= i < |history| :: history[i] <= now
    ensures Uncrowded(Recorded(history, now, window, max), window, max)
    ensures forall i | 0 <= i < |Recorded(history, now, window, max)| :: Recorded(history, now, window, max)[i] <= now
  {
    hide Within;
    var next := Recorded(history, now, window, max);
    forall i | 0 <= i < |next| ensures |Within(next, next[i], window)| <= max {
      WithinSnoc(history, now, next[i], window);
      if i < |history| { assert next[i] == history[i]; }
    }
  }

  lemma {:induction false} HistoryUncrowded(history: seq<nat>, times: seq<nat>, window: nat, max: nat)
    requires Uncrowded(history, window, max) && Ordered(times)
    requires forall i | 0 <= i < |history| :: times != [] ==> history[i] <= times[0]
    ensures Uncrowded(History(history, times, window, max), window, max)
    decreases |times|
  {
    if times != [] {
      RecordedUncrowded(history, times[0], window, max);
      hide Uncrowded, Recorded;
      HistoryUncrowded(Recorded(history, times[0], window, max), times[1..], window, max);
    }
  }

  /** Over every run with a clock that does not run backwards, accepted launches never crowd a window. */
  lemma {:induction false} NoCrowdedWindow(times: seq<nat>, window: nat, max: nat)
    requires Ordered(times)
    ensures Uncrowded(History([], times, window, max), window, max)
  {
    HistoryUncrowded([], times, window, max);
  }

  // ---------------------------------------------------------------- other contents of the file

  /** A line that is not a number is passed over. */
  lemma {:induction false} JunkIsSkipped(line: string, rest: string)
    requires !HasNewline(line) && ParseUint(Trim(line), 10, U128_MAX).None?
    ensures ReadAttempts(line + "\n" + rest) == ReadAttempts(rest)
  {
    hide ParseUint, Trim, LineLen;
    var l := line + "\n";
    assert (l + rest)[..|line| + 1] == l && (l + rest)[..|line|] == line && (l + rest)[|line|] == '\n';
    LineLenIs(l + rest, |l|);
    assert (l + rest)[|l|..] == rest;
    TrimWithBreak(line);
  }

  lemma {:induction false} TrimWithBreak(line: string)
    ensures Trim(line + "\n") == Trim(line)
  {
    var before, after := TrimSplit(line);
    hide IsSpace;
    assert IsSpace('\n') by { BreakIsSpace(); }
    var core := Trim(line);
    assert line + "\n" == before + core + (after + "\n");
    TrimCore(before, core, after + "\n");
  }

  lemma {:induction false} BreakIsSpace()
    ensures IsSpace('\n')
  {
  }

  /** Settings are taken as they are within their bounds, and cut to them otherwise. */
  lemma {:induction false} LimitsAreBounded(configured: Option<nat>)
    ensures 1 <= WindowMs(configured) <= 3_600_000 && 1 <= MaxAttempts(configured) <= 100
    ensures configured.Some? && 1 <= configured.value <= 3_600_000 ==> WindowMs(configured) == configured.value
    ensures configured.Some? && 1 <= configured.value <= 100 ==> MaxAttempts(configured) == configured.value
    ensures configured.None? ==> WindowMs(configured) == 120_000 && MaxAttempts(configured) == 5
  {
  }

  /** The window holds the launches of the last `window` milliseconds, and none of the future. */
  lemma {:induction false} WithinMeans(attempts: seq<nat>, now: nat, window: nat, v: nat)
    ensures v in Within(attempts, now, window) <==> v in attempts && now - window <= v <= now
  {
    if attempts != [] {
      var n := |attempts| - 1;
      WithinMeans(attempts[..n], now, window, v);
      assert attempts == attempts[..n] + [attempts[n]];
    }
  }
}
