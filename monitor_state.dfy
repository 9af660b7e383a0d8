/** The rule by which an active monitor turns check results into its
    announced state (irisett/monitor/active.py): a consecutive-result counter
    and thresholds that delay the move to DOWN and to UNKNOWN, the delay until
    the next check, and which transitions are notified. Also how the outcome
    of the Nagios plugin becomes a check result and a stored message. */
module MonitorState {
  import opened Wrappers
  import Nagios

  datatype CheckState = Up | Down | Unknown

  const DEFAULT_MONITOR_INTERVAL: int := 180
  const DOWN_THRESHOLD: nat := 3
  const UNKNOWN_THRESHOLD: nat := 5

  /** `last_check_state` and `consecutive_checks`. */
  datatype Counter = Counter(last: Option<CheckState>, consecutive: nat)

  /** `update_consecutive_checks(state)`: a repeated result counts up, a
      different one restarts the count at zero. */
  function CountCheck(c: Counter, check: CheckState): (r: Counter)
    ensures r.last == Some(check)
    ensures c.last == Some(check) ==> r.consecutive == c.consecutive + 1
    ensures c.last != Some(check) ==> r.consecutive == 0
  {
    if c.last == Some(check) then Counter(Some(check), c.consecutive + 1)
    else Counter(Some(check), 0)
  }

  function CountAll(c: Counter, checks: seq<CheckState>): Counter
  {
    if |checks| == 0 then c else CountCheck(CountAll(c, checks[..|checks| - 1]), checks[|checks| - 1])
  }

  function Repeat(s: CheckState, k: nat): (r: seq<CheckState>)
    ensures |r| == k && forall i :: 0 <= i < k ==> r[i] == s
  {
    if k == 0 then [] else Repeat(s, k - 1) + [s]
  }

  /** After `k` equal results the counter is `k - 1` more than where the run
      started: `k - 1` for a fresh run, the old count plus `k` when the run
      continues the previous result. */
  lemma {:induction false} TrailingRun(c: Counter, s: CheckState, k: nat)
    requires k >= 1
    ensures CountAll(c, Repeat(s, k)).last == Some(s)
    ensures CountAll(c, Repeat(s, k)).consecutive ==
              if c.last == Some(s) then c.consecutive + k else k - 1
  {
    assert Repeat(s, k)[..k - 1] == Repeat(s, k - 1);
    if k > 1 {
      TrailingRun(c, s, k - 1);
    }
  }

  /** What `handle_check_result` does with one result: the state it moves to
      through `state_change`, if any, and the delay of the next check. */
  datatype Decision = Decision(newState: Option<CheckState>, delay: int)

  /** `handle_check_result(check_state, msg)`, given the counter already
      updated and the random variation `jitter` of an UP-on-UP reschedule. */
  function Decide(state: CheckState, check: CheckState, consecutive: nat, jitter: int): (d: Decision)
    requires -5 <= jitter <= 5
    // a transition is always to the observed result, never to the current state
    ensures d.newState.Some? ==> d.newState.value == check && check != state
    ensures check == state ==> d.newState.None?
    // UP is adopted at once; DOWN is adopted at once from UNKNOWN
    ensures check == Up && state != Up ==> d.newState == Some(Up)
    ensures check == Down && state == Unknown ==> d.newState == Some(Down)
    // from UP, DOWN needs the threshold; from UP or DOWN, so does UNKNOWN
    ensures check == Down && state == Up ==> (d.newState.Some? <==> consecutive >= DOWN_THRESHOLD)
    ensures check == Unknown && state != Unknown ==> (d.newState.Some? <==> consecutive >= UNKNOWN_THRESHOLD)
    // delays
    ensures check == Up && state == Up ==> 175 <= d.delay <= 185 && d.delay == DEFAULT_MONITOR_INTERVAL + jitter
    ensures d.newState.Some? || (check == state && check != Up) ==> d.delay == DEFAULT_MONITOR_INTERVAL
    ensures d.newState.None? && check == Down && state != Down ==> d.delay == 30
    ensures d.newState.None? && check == Unknown && state != Unknown ==> d.delay == 120
  {
    match (check, state)
    case (Up, Up) => Decision(None, DEFAULT_MONITOR_INTERVAL + jitter)
    case (Up, _) => Decision(Some(Up), DEFAULT_MONITOR_INTERVAL)
    case (Down, Down) => Decision(None, DEFAULT_MONITOR_INTERVAL)
    case (Down, Unknown) => Decision(Some(Down), DEFAULT_MONITOR_INTERVAL)
    case (Down, _) =>
      if consecutive >= DOWN_THRESHOLD then Decision(Some(Down), DEFAULT_MONITOR_INTERVAL)
      else Decision(None, 30)
    case (Unknown, Unknown) => Decision(None, DEFAULT_MONITOR_INTERVAL)
    case (Unknown, _) =>
      if consecutive >= UNKNOWN_THRESHOLD then Decision(Some(Unknown), DEFAULT_MONITOR_INTERVAL)
      else Decision(None, 120)
  }

  /** `state_change(new_state)` notifies on every move into DOWN and on a
      move into UP from DOWN, never on a move into UNKNOWN (when alerts are
      enabled; otherwise never). */
  predicate Notifies(prev: CheckState, next: CheckState) {
    next == Down || (next == Up && prev == Down)
  }

  /** The announced state together with the counter. */
  datatype Tracker = Tracker(state: CheckState, counter: Counter)

  /** One check: the counter is updated, then the decision is applied. */
  function Observe(t: Tracker, check: CheckState): (r: Tracker)
    ensures r.counter == CountCheck(t.counter, check)
  {
    var c := CountCheck(t.counter, check);
    var d := Decide(t.state, check, c.consecutive, 0);
    Tracker(d.newState.GetOr(t.state), c)
  }

  function ObserveAll(t: Tracker, checks: seq<CheckState>): (r: Tracker)
    ensures r.counter == CountAll(t.counter, checks)
  {
    if |checks| == 0 then t else Observe(ObserveAll(t, checks[..|checks| - 1]), checks[|checks| - 1])
  }

  /** From UP, a fresh run of DOWN results changes the state on the fourth
      result, not the third: the counter starts at 0. */
  lemma {:induction false} DownNeedsFourResults(t: Tracker, k: nat)
    requires t.state == Up && t.counter.last != Some(Down)
    ensures ObserveAll(t, Repeat(Down, k)).state == if k >= DOWN_THRESHOLD + 1 then Down else Up
  {
    if k > 0 {
      assert Repeat(Down, k)[..k - 1] == Repeat(Down, k - 1);
      DownNeedsFourResults(t, k - 1);
      TrailingRun(t.counter, Down, k);
    }
  }

  /** From UP or DOWN, a fresh run of UNKNOWN results changes the state on
      the sixth result. */
  lemma {:induction false} UnknownNeedsSixResults(t: Tracker, k: nat)
    requires t.state != Unknown && t.counter.last != Some(Unknown)
    ensures ObserveAll(t, Repeat(Unknown, k)).state == if k >= UNKNOWN_THRESHOLD + 1 then Unknown else t.state
  {
    if k > 0 {
      assert Repeat(Unknown, k)[..k - 1] == Repeat(Unknown, k - 1);
      UnknownNeedsSixResults(t, k - 1);
      TrailingRun(t.counter, Unknown, k);
    }
  }

  /** Only results can move the state, and only to a result seen: a run of
      results all equal to the current state never changes it. */
  lemma {:induction false} SameResultsKeepState(t: Tracker, k: nat)
    ensures ObserveAll(t, Repeat(t.state, k)).state == t.state
  {
    if k > 0 {
      assert Repeat(t.state, k)[..k - 1] == Repeat(t.state, k - 1);
      SameResultsKeepState(t, k - 1);
    }
  }

  /** The state after any results is the initial state or one of the results. */
  lemma {:induction false} StateComesFromResults(t: Tracker, checks: seq<CheckState>)
    ensures var s := ObserveAll(t, checks).state; s == t.state || s in checks
  {
    if |checks| > 0 {
      var front := checks[..|checks| - 1];
      StateComesFromResults(t, front);
      assert forall x :: x in front ==> x in checks;
    }
  }

  /** Python's `msg[:199]`. */
  function Truncate<T>(s: seq<T>): (r: seq<T>)
    ensures |r| <= 199 && |r| <= |s| && r == s[..|r|]
    ensures |s| <= 199 ==> r == s
  {
    if |s| <= 199 then s else s[..199]
  }

  /** The check result and stored message of `_run` for a plugin outcome:
      a normal return is UP with the status text; `MonitorFailedError` is
      DOWN with its argument (raw bytes are cut to 199 bytes and then decoded
      as UTF-8 dropping invalid sequences, which is the parameter `utf8`);
      a plain `NagiosError` is UNKNOWN with its message. */
  function CheckOutcome(r: Nagios.PluginResult, utf8: seq<Nagios.Byte> -> string): (o: (CheckState, string))
    ensures r.Success? ==> o == (Up, Truncate(r.text))
    ensures r.MonitorFailed? && r.msg.Str? ==> o == (Down, Truncate(r.msg.s))
    ensures r.MonitorFailed? && r.msg.Raw? ==> o == (Down, utf8(Truncate(r.msg.data)))
    ensures r.NagiosFailure? ==> o == (Unknown, Truncate(r.reason))
  {
    match r
    case Success(text, _) => (Up, Truncate(text))
    case MonitorFailed(Str(s)) => (Down, Truncate(s))
    case MonitorFailed(Raw(data)) => (Down, utf8(Truncate(data)))
    case NagiosFailure(reason) => (Unknown, Truncate(reason))
  }

  /** The plugin's exit code decides the check result: 0 and 1 are UP, 2 and
      every other code (including 3, UNKNOWN in the plugin API) are DOWN, and
      only a missing executable is UNKNOWN. */
  lemma ExitCodeToState(spawn: Nagios.Spawn, utf8: seq<Nagios.Byte> -> string)
    ensures var s := CheckOutcome(Nagios.RunPlugin(spawn), utf8).0;
      && (spawn.NotFound? <==> s == Unknown)
      && (spawn.Exited? && spawn.code in {0, 1} <==> s == Up)
      && (spawn.Exited? && spawn.code !in {0, 1} <==> s == Down)
  {
  }
}
