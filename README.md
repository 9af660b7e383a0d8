# irisett active-monitoring core in Dafny

irisett is a network monitoring server. It runs Nagios plugins as service
checks ("active monitors"), turns each plugin's exit code into a check result
(UP, DOWN or UNKNOWN), and applies a hysteresis rule to decide when a monitor's
announced state changes. It opens and closes alerts, sends notifications, and
schedules the next check, with a limit on how many checks run at once. Around
this engine sit a few small helpers: an event tracer with filtering
listeners, a statistics table, validators for HTTP input, a duration
formatter, and the metadata helper of the web API.

This project models that core and proves what it promises:

- `monitor_state.dfy` holds the hysteresis rule as pure functions:
  - the consecutive-result counter;
  - `handle_check_result`'s decision and its next-check delay;
  - which transitions notify;
  - the classification of plugin outcomes.

  Lemmas about runs of results sit alongside them. For example, from UP it
  takes four DOWN results in a row, not three, to go DOWN.
- `active.dfy` holds the classes `ActiveMonitorDef`, `ActiveMonitor` and
  `ActiveMonitorManager`, with the fields the source updates in place.
  - Time is an integer `now` parameter.
  - `random.randint` is a value chosen in its range.
  - The row id the database returns is a parameter.
  - Ghost logs record what the monitor writes to the database (`db`) and
    which notifications it hands over (`sent`).
  - The pending `call_later` job of each monitor is held in the manager's
    `pending` map, which maps a monitor id to the delay it was scheduled
    with, so there is at most one job per monitor.
  - A check is split into the steps between which other coroutines can run:
    - on the monitor, `BeginRunAsWritten`, then `CompleteCheck` or
      `AbortRun`; `Run` composes these as the code is written, and
      `BeginRun` and `RunCorrected` are the corrected first step and run of
      the first row under "Findings";
    - on the manager, `AdmitRun`, then `FinishRun` or `FailRun`.
- `monitor_defs.dfy` covers argument specifications: the
  default-then-override merge and argument validation.
- `nagios.py`'s logic is in `nagios.dfy`: the exit-code convention of the
  Nagios plugin API, latin-1 decoding, and the split of the output at `|`.
- The remaining helpers are in `event.dfy`, `stats.dfy`, `require.dfy`,
  `utils.dfy` and `view.dfy`.
- `text.dfy` models the parts of Python's `str` behaviour those helpers
  rely on.

The model follows the code on these points, which are easy to get wrong:

- A differing result resets the consecutive counter to 0, not 1.
- Plugin exit code 1 (WARNING) counts as UP.
- Exit code 3 and every other unexpected code count as DOWN.
- The plugin timeout is never applied.
- The admission test `num_running_jobs > max_concurrent_jobs` lets
  `max_concurrent_jobs + 1` checks run at once.

## Model

| member | source | states |
|---|---|---|
| PyText.Strip | irisett/nagios.py:62 | `strip()` returns a slice of its input with only whitespace cut off on either side, and the result neither starts nor ends with whitespace |
| PyText.Split | irisett/nagios.py:61 | `split(c)` gives at least one piece, and no piece contains `c` |
| PyText.JoinSplit | irisett/nagios.py:60-61 | joining the pieces of `split(c)` with `c` gives the original string back |
| PyText.ParseIntRoundTrip | irisett/webapi/require.py:91 | `int(str(i)) == i` for every integer |
| Utils.ParseBoolStrings | irisett/utils.py:6-14 | a string parses as true exactly when it is one of the sixteen upper/lower-case spellings of "true" |
| Utils.PartsShape | irisett/utils.py:17-38 | the duration components are non-zero and ordered strictly from weeks down to seconds |
| Utils.PartsTotal | irisett/utils.py:31-35 | the components, each times its unit size, add up to the whole number of seconds |
| Utils.PartsBounded | irisett/utils.py:31-35 | days stay below 7, hours below 24, minutes and seconds below 60; only weeks are unbounded |
| Utils.PyPrefix | irisett/utils.py:39 | `result[:granularity]` keeps the first `granularity` items, or drops items from the end for a negative bound |
| Utils.RenderPart | irisett/utils.py:33-36 | the loop's text for one component is `Render` of it: the value, a space, and the unit name made singular for a value of one |
| Utils.GetDisplayTime | irisett/utils.py:26-40 | the loop's result is the first `granularity` components, each rendered as "value unit", with a singular unit name for a value of one, joined by ", " |
| Utils.DisplayOfZero | irisett/utils.py:26-40 | zero seconds display as the empty string for every granularity, positive, zero or negative |
| Stats.TouchKeepsLookups | irisett/stats.py:14-20 | creating a missing section through the `defaultdict` changes no counter's value |
| Stats.SetValueSpec | irisett/stats.py:23-26 | `set` fails only on a section that is a plain counter; otherwise the counter reads back as the value set and every other counter is unchanged |
| Stats.AddToSpec | irisett/stats.py:29-38 | `inc`/`dec` succeed exactly when the counter exists; they move it by the delta and change no other counter |
| Stats.IncThenDecRestores | irisett/stats.py:29-38 | `inc` followed by `dec` on the same counter restores the table |
| Stats.Statistics.GetSection | irisett/stats.py:14-20 | no section gives the whole table; a named section gives its entry, created empty when missing |
| Stats.Statistics.Set | irisett/stats.py:23-26 | the table after `set` is the one `SetValue` describes |
| Stats.Statistics.Inc | irisett/stats.py:29-32 | the table after `inc` is the one `AddTo(+1)` describes |
| Stats.Statistics.Dec | irisett/stats.py:35-38 | the table after `dec` is the one `AddTo(-1)` describes |
| Stats.Statistics.Add | irisett/stats.py:29-38 | `stats[name] += delta`, with the `KeyError` and `TypeError` paths |
| Stats.Statistics.GetStats | irisett/stats.py:41-47 | the copy has exactly the top-level keys of the table and the same entries |
| Nagios.DecodeLatin1 | irisett/nagios.py:66-75 | the decoded string has one character per byte, with each character's code equal to its byte |
| Nagios.EncodeDecodeLatin1 | irisett/nagios.py:69-71 | latin-1 decoding loses nothing: encoding the result gives the bytes back |
| Nagios.DecodeEncodeLatin1 | irisett/nagios.py:69-71 | every string of code points below 256 is the decoding of its encoding |
| Nagios.DecodePluginOutput | irisett/nagios.py:66-75 | text passes through unchanged; bytes decode as latin-1, which never fails |
| Nagios.ParsePluginOutput | irisett/nagios.py:50-63 | without `|`: no perf data, and the text is the stripped output; with `|`: the text is the stripped part before the first `|`, there is at least one perf item, none contains `|`, and text part + "|" + the joined items equals the output; the text never has surrounding whitespace |
| Nagios.RunPlugin | irisett/nagios.py:32-47 | a missing executable is a plain `NagiosError`; exit 0/1 return the parsed text and perf; exit 2 fails with the parsed text; any other code fails with the raw stdout+stderr |
| Nagios.UnknownExitIsFailure | irisett/nagios.py:42-43 | exit code 3 (UNKNOWN in the plugin API) is a `MonitorFailedError` with the raw output |
| Require.IntOf | irisett/webapi/require.py:89-93 | `int(value)`: ints unchanged, bools as 0/1, strings parsed, None/list/dict rejected |
| Require.RequireStr | irisett/webapi/require.py:12-23 | accepted exactly for allowed None, a str, or `convert`; a str is returned unchanged, anything else is stringified |
| Require.RequireBool | irisett/webapi/require.py:26-42 | a bool is returned unchanged; otherwise, with `convert`, exactly the false-like values {None, 0, '0', 'false', 'False'} and the true-like values {1, '1', 'true', 'True'} are accepted, as false and true |
| Require.EntriesConform | irisett/webapi/require.py:56-61 | the item loop passes exactly when every key and every value has the required type |
| Require.RequireDict | irisett/webapi/require.py:45-62 | accepted exactly for a dict whose keys and values all have the given types; the dict itself is returned |
| Require.ItemsConform | irisett/webapi/require.py:75-78 | the item loop passes exactly when every item has the required type |
| Require.RequireList | irisett/webapi/require.py:65-79 | accepted exactly for a list whose items all have the given type; the list itself is returned |
| Require.RequireInt | irisett/webapi/require.py:82-94 | accepted exactly where `int(value)` succeeds, giving its value; allowed None gives None |
| Require.IntStrRoundTrip | irisett/webapi/require.py:12-94 | an int stringified by `require_str` is read back as the same int by `require_int` |
| Require.BoolStrRoundTrip | irisett/webapi/require.py:12-42 | a bool stringified by `require_str` is read back as the same bool by `require_bool` |
| Event.ParseFilterList | irisett/event.py:55-65 | None or an empty list means no filter; anything else becomes the non-empty set of its elements |
| Event.IntsOf | irisett/event.py:50-53 | the list converts exactly when every item does, element by element |
| Event.ParseActiveMonitorFilter | irisett/event.py:46-53 | a non-empty list is converted to ints first, and the conversion error is reported; an empty or absent list means no filter |
| Event.EventListener.constructor | irisett/event.py:34-41 | both filters are normalised; the monitor filter is not converted to ints here |
| Event.EventListener.SetEventFilter | irisett/event.py:43-44 | only the event filter is replaced, by its normalised form |
| Event.EventListener.SetActiveMonitorFilter | irisett/event.py:46-47 | on success the monitor filter becomes the converted, normalised list; on a conversion error nothing changes |
| Event.UnfilteredWantsAll | irisett/event.py:67-78 | a listener with neither filter wants every event |
| Event.WantsEventSpec | irisett/event.py:67-78 | an event is wanted exactly when its name passes the event filter and it is not about an active monitor whose id is missing from the monitor filter (with Python's `1 == True`); an absent or empty filter is falsy and passes everything |
| Event.ConvertedFilterAdmits | irisett/event.py:46-53 | after setting a monitor filter given as strings, events about those monitors are wanted |
| Event.EventTracer.constructor | irisett/event.py:87-91 | the tracer starts with no listeners, and both counters are zero; the new statistics table is the old one with exactly those two `EVENT` counters set to 0 |
| Event.EventTracer.Listen | irisett/event.py:93-105 | exactly one fresh listener is added; the listener count stays equal to the size of the set; the new statistics table is the old one with `num_listeners` incremented and nothing else changed |
| Event.EventTracer.StopListening | irisett/event.py:107-111 | a registered listener is removed, and the new statistics table is the old one with `num_listeners` decremented and nothing else changed; for any other listener, the statistics table is untouched |
| Event.EventTracer.Running | irisett/event.py:113-130 | the new statistics table is the old one with `events_fired` incremented and nothing else changed; exactly the listeners that want the event are called; a raising callback does not stop delivery to the rest |
| Event.StopListeningTwice | irisett/event.py:107-111 | stopping twice is the same as stopping once: the same listener set, `events_fired` unchanged, and the statistics table decremented once for a registered listener and untouched otherwise |
| View.FirstValue | irisett/webapi/view.py:66 | the query's value for a name is that of its first occurrence, and it exists exactly when the name occurs |
| View.GetRequestParam | irisett/webapi/view.py:56-67 | a missing name is `NotFound` when `error_if_missing`, `None` otherwise; a present name gives its first value |
| View.DistinctIds | irisett/webapi/view.py:75 | the keys of the id dict are the distinct model ids, each where it first occurs |
| View.LastIndex | irisett/webapi/view.py:75 | the comprehension keeps the last model with each id |
| View.ModelDict | irisett/webapi/view.py:75 | the dict the comprehension builds: ids in first-occurrence order, with the fields of the last model carrying each id |
| View.EmptyMetadata | irisett/webapi/view.py:76-77 | every id of the dict gets an empty metadata map, and no other key appears |
| View.AddMetadata | irisett/webapi/view.py:78-81 | after the loop, each present object's metadata is what its entries give, applied in order |
| View.DictValues | irisett/webapi/view.py:82 | the values come out one per key, in key insertion order |
| View.ApplyMetadataToModelList | irisett/webapi/view.py:70-82 | the result is `Applied`: one annotated model per distinct id, in first-occurrence order |
| View.LaterMetaWins | irisett/webapi/view.py:78-81 | for a repeated (object, key), the later entry's value wins |
| View.MetaForKeys | irisett/webapi/view.py:78-81 | an object's metadata has exactly the keys of the entries addressed to it |
| View.UnmatchedMetaIgnored | irisett/webapi/view.py:79-80 | an entry whose object matches no model changes nothing |
| View.OneResultPerId | irisett/webapi/view.py:75-82 | there are exactly as many results as distinct model ids |
| MonitorState.CountCheck | irisett/monitor/active.py:542-548 | a repeated result counts up by one; a different result restarts the count at 0; the result is recorded |
| MonitorState.TrailingRun | irisett/monitor/active.py:542-548 | after k equal results the counter is k-1 for a fresh run, or the old count plus k when the run continues the previous result |
| MonitorState.Decide | irisett/monitor/active.py:458-492 | a transition is only ever to the observed result; UP is adopted at once; DOWN is adopted at once from UNKNOWN; from UP, DOWN needs the counter at 3 or more; UNKNOWN needs 5 or more; delays are 175..185 for UP-on-UP, 180 after a change or a repeated state, 30 for a deferred DOWN and 120 for a deferred UNKNOWN |
| MonitorState.DownNeedsFourResults | irisett/monitor/active.py:476-482 | from UP, a fresh run of DOWN results changes the state exactly from the fourth result on |
| MonitorState.UnknownNeedsSixResults | irisett/monitor/active.py:486-492 | from UP or DOWN, a fresh run of UNKNOWN results changes the state exactly from the sixth result on |
| MonitorState.SameResultsKeepState | irisett/monitor/active.py:459-492 | any number of results equal to the current state never change it |
| MonitorState.StateComesFromResults | irisett/monitor/active.py:458-492 | after any results, the state is the initial one or one of the results seen |
| MonitorState.Truncate | irisett/monitor/active.py:448 | `msg[:199]` is a prefix of at most 199 items, and the whole message when it is short enough |
| MonitorState.CheckOutcome | irisett/monitor/active.py:436-450 | a normal return is UP with its text; `MonitorFailedError` is DOWN with its argument, cut to 199 and, for raw bytes, then decoded; a plain `NagiosError` is UNKNOWN with its message |
| MonitorState.ExitCodeToState | irisett/monitor/active.py:436-447 | a missing executable is exactly UNKNOWN; exit codes 0 and 1 are exactly UP; every other code is DOWN |
| MonitorDefs.FirstArgIndex | irisett/monitor/active.py:266-272 | the position of the first declared argument with the name, and none before it has the name |
| MonitorDefs.FirstArgIndexAt | irisett/monitor/active.py:266-272 | an entry with the name and none before it is the one the search finds |
| MonitorDefs.Names | irisett/monitor/active.py:305 | `arg_name_set` holds exactly the declared names |
| MonitorDefs.DefaultsSpec | irisett/monitor/active.py:280 | the defaults dict has exactly the declared names, each with the default of its last declaration |
| MonitorDefs.MergeArgsSpec | irisett/monitor/active.py:280-281 | a merged argument exists exactly when the monitor gives it or the definition declares it; the monitor's value wins, and otherwise the default applies |
| MonitorDefs.EmptyArgsPermitted | irisett/monitor/active.py:300-309 | with `permit_missing`, no arguments at all are valid |
| MonitorDefs.AllDeclaredValid | irisett/monitor/active.py:300-309 | the defaults of every declared argument are always valid arguments |
| Active.OpenAlertSnoc | irisett/monitor/active.py:577-587 | creating an alert makes it the open one; closing leaves none; other writes keep it |
| Active.DownUnknownDownLeavesAlertOpen | irisett/monitor/active.py:499-581 | as written, a DOWN monitor moved to UNKNOWN keeps its alert, and the next DOWN result opens a new alert at once without closing it |
| Active.CorrectedClosesReplacedAlert | irisett/monitor/active.py:499-587 | with the corrected writes, an open alert that a state change replaces or ends is closed in the same writes, and the open alert afterwards is the one the change gives |
| Active.Elapsed | irisett/monitor/active.py:526-527 | `state_elapsed` is present exactly when the previous timestamp is set and differs from the new one |
| Active.WithArgShape | irisett/monitor/active.py:347-366 | on distinct names, `set_arg` keeps names distinct, adds the name, and puts the new settings in the one entry with the name |
| Active.WithArgSpec | irisett/monitor/active.py:347-366 | after `set_arg`, the merged arguments use the new default |
| Active.WithoutArgSpec | irisett/monitor/active.py:368-373 | on distinct names, `delete_arg` removes exactly the name, shortens the list by one, and keeps the rest; an unknown name changes nothing |
| Active.ActiveMonitorDef.constructor | irisett/monitor/active.py:250-261 | all fields are taken from the arguments |
| Active.ActiveMonitorDef.GetArgWithName | irisett/monitor/active.py:266-272 | a match exists exactly when the name is declared, and it is the first such entry |
| Active.ActiveMonitorDef.ValidateMonitorArgs | irisett/monitor/active.py:300-309 | no error exactly when the arguments are valid; a missing-argument error names the first required argument that is absent; an invalid-argument error names an undeclared key and comes only once no required argument is missing |
| Active.ActiveMonitorDef.SetArg | irisett/monitor/active.py:347-366 | the spec becomes `WithArg`, and the returned entry is the first with the name, carrying the new settings |
| Active.ActiveMonitorDef.DeleteArg | irisett/monitor/active.py:368-373 | the spec becomes `WithoutArg` |
| Active.ActiveMonitorDef.Update | irisett/monitor/active.py:318-340 | each field given in the update is replaced, and the others are kept |
| Active.ActiveMonitorDef.Delete | irisett/monitor/active.py:311-316 | refused exactly when a monitor uses the definition; fails exactly when it is unregistered; otherwise unregisters it |
| Active.ActiveMonitor.constructor | irisett/monitor/active.py:388-411 | the counter and flags start cleared; a zero `state_ts` becomes the current time |
| Active.ActiveMonitor.UpdateConsecutiveChecks | irisett/monitor/active.py:542-548 | the counter fields move as `CountCheck` says |
| Active.ActiveMonitor.TxnSaveState | irisett/monitor/active.py:589-592 | the current state, time, message and alert are written, and the open alert is kept |
| Active.ActiveMonitor.TxnCreateAlert | irisett/monitor/active.py:577-581 | a new alert row is written, and its id becomes `alert_id` |
| Active.ActiveMonitor.TxnCloseAlert | irisett/monitor/active.py:583-587 | the open alert ends at the state time, and `alert_id` is cleared |
| Active.ActiveMonitor.CloseAlertIfAny | irisett/monitor/active.py:550-558 | only a truthy `alert_id` is closed; afterwards no alert is open |
| Active.ActiveMonitor.NotifyStateChange | irisett/monitor/active.py:516-537 | one notification with the new state, the previous state, the message and the elapsed time when alerts are enabled; nothing otherwise |
| Active.ActiveMonitor.StateChange | irisett/monitor/active.py:499-575 | DOWN opens an alert and always notifies; UP closes any alert and notifies only from DOWN; UNKNOWN only saves the state; the new alert and the writes are `AlertAfter` and `ChangeWrites` of the previous alert |
| Active.ActiveMonitor.HandleCheckResult | irisett/monitor/active.py:458-492 | the state moves as `Decide` says and the monitor is rescheduled with its delay for the returned jitter, which lies in [-5, 5]; when the state stays nothing else changes, including `state_ts`; when it changes, the time, alert, writes and notification are those of `state_change` |
| Active.ActiveMonitor.BeginRun | irisett/monitor/active.py:416-434 | the corrected first step of `run` (first row under Findings): a deleted or running monitor is refused and nothing changes; otherwise a deferred reset is carried out with the writes of `ResetWrites`, or state, time, message, alert, counter and writes stay; a monitor with checks disabled is rescheduled in 180s and not marked running |
| Active.ActiveMonitor.BeginRunAsWritten | irisett/monitor/active.py:416-434 | the first step of `run` as written: refused exactly for a deleted or running monitor; the deferred reset is only deferred again, so the state, time, message, counter, alert, writes and `_pending_reset` are unchanged; checks disabled reschedules in 180s and clears `monitoring` |
| Active.ActiveMonitor.CompleteCheck | irisett/monitor/active.py:436-456 | `CheckDone` (through `RecordCheck`), measured from the state before the call: the plugin outcome gives the result and message; the counter and state move by `CountCheck` and `Decide`; the next check is pending with `Decide`'s delay; a change of state is stamped, written and notified as `state_change` does; a monitor deleted meanwhile is purged; `monitoring` is cleared |
| Active.ActiveMonitor.Run | irisett/monitor/active.py:416-456 | `run` as written: refused exactly for a deleted or running monitor, with `monitoring` cleared on every other path; `_pending_reset` is never cleared; a completed check has the effect `CheckDone` states on the state as it was; a raising or skipped check changes no state, alert or write |
| Active.ActiveMonitor.RunCorrected | irisett/monitor/active.py:416-456 | the corrected `run` of the first Findings row: every run that is not refused clears the deferred reset, and a check after a reset starts from UNKNOWN with a zero counter |
| Active.ActiveMonitor.AbortRun | irisett/monitor/active.py:421-425 | a raising `_run` leaves `monitoring` cleared |
| Active.ActiveMonitor.ResetState | irisett/monitor/active.py:675-686 | the monitor is UNKNOWN with an empty message, a zero counter and no open alert, and the writes are `ResetWrites` of the previous alert |
| Active.ActiveMonitor.ResetMonitor | irisett/monitor/active.py:666-686 | a running monitor only notes the reset and changes nothing else, its time included; otherwise the reset is carried out with the writes of `ResetWrites` |
| Active.ActiveMonitor.Delete | irisett/monitor/active.py:594-617 | idempotent; the monitor leaves the manager at once, and is purged now or only marked deleted while it runs |
| Active.ActiveMonitor.UpdateArgs | irisett/monitor/active.py:619-633 | invalid arguments change nothing; valid ones replace the arguments, are written, and become the template arguments |
| Active.ActiveMonitor.SetChecksEnabledStatus | irisett/monitor/active.py:635-645 | no change at all when the flag is unchanged; enabling, or disabling a running monitor (which defers the reset), keeps state, time, message, counter and alert and writes only the flag; disabling an idle monitor resets it with the writes of `ResetWrites` and then the flag; any change asks for a check in 5s unless running or deleted |
| Active.ActiveMonitor.SetAlertsEnabledStatus | irisett/monitor/active.py:647-654 | the flag is set and written only when it changes |
| Active.ActiveMonitor.ScheduleImmediately | irisett/monitor/active.py:656-660 | a check in 5s, unless the monitor is running or deleted |
| Active.ActiveMonitorManager.constructor | irisett/monitor/active.py:148-159 | no monitors, definitions, jobs or running checks |
| Active.ActiveMonitorManager.ScheduleMonitor | irisett/monitor/active.py:235-242 | any pending job of the monitor is replaced, so a monitor has at most one |
| Active.ActiveMonitorManager.AddMonitor | irisett/monitor/active.py:244-246 | the monitor is registered under its id and scheduled at once |
| Active.ActiveMonitorManager.CheckMissingSchedules | irisett/monitor/active.py:188-199 | exactly the registered monitors that are neither deleted nor running and have no job get one in 180s |
| Active.ActiveMonitorManager.Start | irisett/monitor/active.py:179-186 | every monitor gets a job in 1..180s (0 in debug mode), and other jobs are kept |
| Active.ActiveMonitorManager.AdmitRun | irisett/monitor/active.py:209-224 | a missing monitor is skipped; the job is cleared; with more than `max_concurrent_jobs` running, the run is deferred by 10..30s with the counter untouched; otherwise the counter goes up and stays at most `max_concurrent_jobs + 1` |
| Active.ActiveMonitorManager.FinishRun | irisett/monitor/active.py:232-233 | the counter goes back down by one |
| Active.ActiveMonitorManager.FailRun | irisett/monitor/active.py:225-231 | the counter goes back down by one, and a monitor left without a job is rescheduled in 180s |
| Active.ActiveMonitorManager.AdmitThenRelease | irisett/monitor/active.py:215-233 | whether the run returns or raises, the running-job counter is back at its prior value |
| Active.CreateActiveMonitor | irisett/monitor/active.py:722-741 | invalid arguments create nothing; a created monitor starts UNKNOWN with an empty message, no alert, checks and alerts enabled, is written, registered and scheduled at once |
| Active.GetMonitorDefByName | irisett/monitor/active.py:817-824 | a definition with the name, when one is registered, and `None` exactly when none is |

## Left out

- The database is left out: SQL text, drivers and transactions. Each write
  is one entry of the ghost `db` log, and a new row's id is a parameter.
  The startup loading and purging of monitors (`load_monitors`,
  `remove_deleted_monitors`) are not part of this model.
- Template expansion is left out. `expand_monitor_args` and
  `get_monitor_description` are modelled only as their default-then-override
  merge (`MergeArgs`). The jinja2 rendering and the `shlex` split are
  foreign library calls, so `expanded_args` is the derived function
  `TemplateArgs` rather than a stored field.
- Notification delivery (contacts, metadata, the transports) is network I/O.
  A notification is a ghost record of its template data: state, previous
  state, message and elapsed time.
- asyncio scheduling is left out:
  - `call_later`, `create_task` and `cancel` become the manager's `pending`
    map;
  - the 600-second re-arming timer of `check_missing_schedules` is not
    modelled;
  - interleaving between coroutines is represented only by the separate
    begin and end steps of a run.
- Process spawning and the subprocess's output streams are left out. The
  outcome of running the plugin is an input (`Nagios.Spawn`), and the plugin
  timeout is never used by the code.
- Decoding raw bytes as UTF-8 with invalid sequences dropped (`_run`'s
  `decode('utf-8', errors='ignore')`) is a parameter `utf8` of the model;
  Unicode decoding itself is not modelled.
- Floating-point timestamps and `time.time()` become integers: seconds are
  whole numbers and `get_display_time` takes `int(seconds)`.
- The `ACT_MON` statistics counters that `active.py` increments (checks_up,
  jobs_deferred and the others) are not modelled in the monitor classes.
  The statistics table itself is modelled in `Stats`.
- The `deleted=true` update in `ActiveMonitor.delete` passes two values for
  one placeholder. Only the fact that the monitor is marked deleted is kept.
- `create_active_monitor_def`, `create_active_monitor_def_arg` and the other
  `*_in_db` helpers only write to the database and are not part of this
  model.
- The `description` key of `ActiveMonitorDef.update` is only written to the
  database, so it has no in-memory effect here.
- An event's `monitor` argument is represented by its `monitor_type()` value
  and its id (`Event.MonitorRef`); other event arguments are not modelled.
- `Active.GetMonitorDefByName`: the dict's iteration order is not modelled.
  When several definitions share a name, the contract promises one of them,
  not the first in insertion order.
- `Active.ActiveMonitorDef.ValidateMonitorArgs`: when several given keys are
  undeclared, the contract names one of them, not the first in the dict's
  order.
- `Active.ActiveMonitor.HandleCheckResult`: the returned jitter may be any
  value in [-5, 5]; the distribution of `random.randint` is not modelled.
- `Event.EventTracer.Running`: the callback's task and its timestamp are not
  modelled. Only which listeners are called, and which of them raise, is
  kept.
- `Require.RequireInt`: the value model has no floats and no bytes, so
  `int(2.7) == 2` (truncation toward zero), `int(b"12") == 12`, the
  `OverflowError` that `int()` raises on an infinite float (which
  `require_int` does not catch) and `require_bool(1.0, convert=True)` are
  not covered; `int()` on strings accepts ASCII digits only, while Python
  also accepts other Unicode decimal digits.
- `Event.EventListener.constructor`: a list or dict element in a filter
  list makes Python's `set()` raise `TypeError` (unhashable); the model
  builds the set of any values.
- String conversion of Python values (`Require.ToStr`) does not model
  character escapes in `repr` of strings inside containers.

## Findings

| source | as written | input that shows it | evidently intended | confidence | as-written member | corrected member |
|---|---|---|---|---|---|---|
| irisett/monitor/active.py:429-430 | `_run` applies a deferred reset by calling `reset_monitor`. `run` has already set `monitoring` (line 419), so `reset_monitor` (lines 672-674) only sets `_pending_reset` again, and the reset is never carried out | checks are disabled while a check runs, so the reset is deferred; the next run then leaves the monitor DOWN with its alert open and sets `_pending_reset` again | the next run carries out the deferred reset: the state becomes UNKNOWN, the message is cleared, the counter is zeroed and any open alert is closed | not executed | Active.ActiveMonitor.BeginRunAsWritten | Active.ActiveMonitor.BeginRun |
| irisett/monitor/active.py:560-581 | `set_down` always creates a new alert and `set_unknown` keeps the current one, so an alert opened while DOWN is never closed when the monitor goes UNKNOWN and then DOWN again | alert `a` open in DOWN; six UNKNOWN results move the monitor to UNKNOWN with `a` still open; one DOWN result then opens alert `b` and `a` keeps `end_ts` 0 for good | an open alert is closed before a new one replaces it | not executed | Active.DownUnknownDownLeavesAlertOpen | Active.CorrectedClosesReplacedAlert |
