/** The active-monitor engine (irisett/monitor/active.py): monitor
    definitions with their argument specification, monitors with their check
    state, alert bookkeeping and lifecycle flags, and the manager that
    schedules checks and limits how many run at once.

    Time is an integer clock passed in as `now`; `random.randint` is a value
    chosen in its range; the id the database gives a new row is a parameter.
    The database and the notification sender are ghost logs: `db` records
    the writes a monitor makes, `sent` the notifications it hands over.
    A check is split into the steps between which other operations can run:
    `BeginRun`, then `CompleteCheck` or `AbortRun`, framed on the manager by
    `AdmitRun` and `FinishRun` or `FailRun`. */
module Active {
  import opened Wrappers
  import opened MonitorState
  import opened MonitorDefs
  import Nagios
  import PyText
  import Utils

  /** The template data of a notification, as far as the engine decides it. */
  datatype Notification = Notification(monitorId: int, state: CheckState, prevState: CheckState,
                                       msg: string, stateElapsed: Option<string>)

  /** The database writes of a monitor. */
  datatype DbWrite =
    | InsertMonitor(defId: int, args: Args)                                  // create_active_monitor
    | SaveState(state: CheckState, stateTs: int, msg: string, alertId: Option<int>)  // txn_save_state
    | CreateAlert(startTs: int, msg: string, newAlert: int)                  // txn_create_alert
    | CloseAlert(closedAlert: int, endTs: int)                                  // txn_close_alert
    | MarkDeleted                                                             // deleted=true
    | Purge                                                                   // remove_monitor_from_db
    | SaveArgs(args: Args)
    | SaveChecksEnabled(checksEnabled: bool)
    | SaveAlertsEnabled(alertsEnabled: bool)

  /** The alert a log of writes leaves open: the last one created, unless a
      close came after it. */
  function OpenAlert(initial: Option<int>, log: seq<DbWrite>): Option<int> {
    if |log| == 0 then initial
    else
      match log[|log| - 1]
      case CreateAlert(_, _, a) => Some(a)
      case CloseAlert(_, _) => None
      case _ => OpenAlert(initial, log[..|log| - 1])
  }

  lemma OpenAlertSnoc(initial: Option<int>, log: seq<DbWrite>, w: DbWrite)
    ensures OpenAlert(initial, log + [w]) ==
      match w
      case CreateAlert(_, _, a) => Some(a)
      case CloseAlert(_, _) => None
      case _ => OpenAlert(initial, log)
  {
    assert (log + [w])[..|log|] == log;
  }

  /** `if self.alert_id:`: `None` and `0` count as no alert. */
  predicate IsAlert(a: Option<int>) {
    a.Some? && a.value != 0
  }

  /** The alert id after `state_change(newState, ...)` from alert `prev`:
      DOWN opens a new alert, UP closes an open one, UNKNOWN keeps it. */
  function AlertAfter(newState: CheckState, prev: Option<int>, newAlertId: int): Option<int> {
    match newState
    case Down => Some(newAlertId)
    case Up => if IsAlert(prev) then None else prev
    case Unknown => prev
  }

  /** The writes of `state_change(newState, msg)` at time `now` from alert
      `prev`: `set_down`, `set_up` or `set_unknown`. */
  function ChangeWrites(newState: CheckState, prev: Option<int>, now: int, msg: string, newAlertId: int)
    : seq<DbWrite>
  {
    var a := AlertAfter(newState, prev, newAlertId);
    match newState
    case Down => [CreateAlert(now, msg, newAlertId), SaveState(Down, now, msg, a)]
    case Up => (if IsAlert(prev) then [CloseAlert(prev.value, now)] else []) + [SaveState(Up, now, msg, a)]
    case Unknown => [SaveState(Unknown, now, msg, a)]
  }

  /** The writes of the resetting part of `reset_monitor` at time `now` from
      alert `prev`: the open alert is closed, then the UNKNOWN state saved. */
  function ResetWrites(prev: Option<int>, now: int): seq<DbWrite> {
    (if IsAlert(prev) then [CloseAlert(prev.value, now)] else [])
    + [SaveState(Unknown, now, "", if IsAlert(prev) then None else prev)]
  }

  /** The writes of `state_change` as written leave an alert open for good:
      enough UNKNOWN results move a DOWN monitor to UNKNOWN, which keeps its
      alert, and the next DOWN result opens a new alert at once without
      closing that one. */
  lemma DownUnknownDownLeavesAlertOpen(a: int, b: int, t1: int, t2: int, m1: string, m2: string)
    requires a != 0 && b != a
    ensures Decide(Down, Unknown, UNKNOWN_THRESHOLD, 0).newState == Some(Unknown)
    ensures Decide(Unknown, Down, 0, 0).newState == Some(Down)
    ensures var unknown := ChangeWrites(Unknown, Some(a), t1, m1, b);
            var down := ChangeWrites(Down, AlertAfter(Unknown, Some(a), b), t2, m2, b);
      && AlertAfter(Unknown, Some(a), b) == Some(a)
      && OpenAlert(Some(a), unknown + down) == Some(b)
      && forall w :: w in unknown + down ==> !w.CloseAlert?
  {
    var unknown := ChangeWrites(Unknown, Some(a), t1, m1, b);
    var down := ChangeWrites(Down, Some(a), t2, m2, b);
    assert unknown + down == [SaveState(Unknown, t1, m1, Some(a)), CreateAlert(t2, m2, b), SaveState(Down, t2, m2, Some(b))];
  }

  /** `state_change` writes with an open alert closed before a DOWN opens
      a new one. */
  function ChangeWritesCorrected(newState: CheckState, prev: Option<int>, now: int, msg: string, newAlertId: int)
    : seq<DbWrite>
  {
    if newState == Down && IsAlert(prev) then [CloseAlert(prev.value, now)] + ChangeWrites(Down, prev, now, msg, newAlertId)
    else ChangeWrites(newState, prev, now, msg, newAlertId)
  }

  /** With the corrected writes, an open alert that a state change replaces
      or ends is always closed in the same writes. */
  lemma CorrectedClosesReplacedAlert(newState: CheckState, prev: Option<int>, now: int, msg: string, newAlertId: int)
    requires IsAlert(prev) && AlertAfter(newState, prev, newAlertId) != prev
    ensures CloseAlert(prev.value, now) in ChangeWritesCorrected(newState, prev, now, msg, newAlertId)
    ensures OpenAlert(prev, ChangeWritesCorrected(newState, prev, now, msg, newAlertId))
            == AlertAfter(newState, prev, newAlertId)
  {
    var w := ChangeWritesCorrected(newState, prev, now, msg, newAlertId);
    if newState == Down {
      assert w == [CloseAlert(prev.value, now), CreateAlert(now, msg, newAlertId),
                   SaveState(Down, now, msg, Some(newAlertId))];
    } else {
      assert newState == Up;
      assert w == [CloseAlert(prev.value, now), SaveState(Up, now, msg, None)];
    }
  }

  /** The write `_run` adds for a monitor deleted during its check. */
  function PurgeIf(deleted: bool): seq<DbWrite> {
    if deleted then [Purge] else []
  }

  /** `state_elapsed` of a notification: `get_display_time` of the time since
      the previous state change, when both the previous timestamp and the
      difference are non-zero. */
  function Elapsed(prevTs: int, ts: int): (r: Option<string>)
    ensures r.Some? <==> prevTs != 0 && ts != prevTs
  {
    if prevTs != 0 && ts - prevTs != 0 then
      Some(PyText.Join(Utils.PyPrefix(Utils.RenderAll(Utils.Parts(ts - prevTs, 0)), 2), ", "))
    else None
  }

  /** An element of a non-empty set: a witness for choosing one. */
  lemma AnElement<T>(s: set<T>) returns (x: T)
    requires s != {}
    ensures x in s
  {
    x :| x in s;
  }

  /** The fields of a monitor that a check reads and writes, and its
      manager's pending jobs. */
  datatype Snapshot = Snapshot(state: CheckState, stateTs: int, alertId: Option<int>,
                               lastCheckState: Option<CheckState>, consecutiveChecks: nat,
                               db: seq<DbWrite>, sent: seq<Notification>, pending: map<int, int>)

  /** How `run` ends its first step. */
  datatype RunStart = Refused | ChecksDisabled | Checking

  /** What `_run_monitor` does with a job. */
  datatype Admission = Missing | Deferred | Admitted

  /** The errors `ActiveMonitorDef.delete` raises. */
  datatype DefDeleteError = InUse | NoSuchDef

  /** The in-memory changes `ActiveMonitorDef.update` makes; `None` is a key
      absent from `update_params`. The `description` parameter is only
      written to the database. */
  datatype DefUpdate = DefUpdate(name: Option<string>, active: Option<bool>, cmdlineFilename: Option<string>,
                                 cmdlineArgsTmpl: Option<string>, descriptionTmpl: Option<string>)

  /** `arg_spec` after `set_arg`: the first entry with the name is updated in
      place keeping its id, or a new entry with the database's id is
      appended. */
  function WithArg(spec: seq<ArgSpec>, name: string, required: bool, defaultValue: string, newId: int)
    : seq<ArgSpec>
  {
    var i := FirstArgIndex(spec, name);
    if i < |spec| then spec[i := ArgSpec(spec[i].id, name, required, defaultValue)]
    else spec + [ArgSpec(newId, name, required, defaultValue)]
  }

  /** `arg_spec` after `delete_arg`: the first entry with the name is removed. */
  function WithoutArg(spec: seq<ArgSpec>, name: string): seq<ArgSpec> {
    var i := FirstArgIndex(spec, name);
    if i < |spec| then spec[..i] + spec[i + 1..] else spec
  }

  /** No two declared arguments share a name. */
  predicate DistinctNames(spec: seq<ArgSpec>) {
    forall i, j :: 0 <= i < j < |spec| ==> spec[i].name != spec[j].name
  }

  /** After `set_arg` the name is declared once more or in place, every
      other entry is kept, and the new entry is the first with the name. */
  lemma WithArgShape(spec: seq<ArgSpec>, name: string, required: bool, defaultValue: string, newId: int)
    requires DistinctNames(spec)
    ensures var s := WithArg(spec, name, required, defaultValue, newId);
      && DistinctNames(s)
      && Names(s) == Names(spec) + {name}
      && FirstArgIndex(s, name) < |s|
      && s[FirstArgIndex(s, name)] == ArgSpec(s[FirstArgIndex(s, name)].id, name, required, defaultValue)
      && forall j :: FirstArgIndex(s, name) < j < |s| ==> s[j].name != name
  {
    var s := WithArg(spec, name, required, defaultValue, newId);
    var i := FirstArgIndex(spec, name);
    assert forall j :: 0 <= j < |s| && j != i ==> s[j] == spec[j];
    FirstArgIndexAt(s, name, i);
    forall n | n in Names(s) ensures n in Names(spec) + {name} {
      var j :| 0 <= j < |s| && s[j].name == n;
    }
    forall n | n in Names(spec) ensures n in Names(s) {
      var j :| 0 <= j < |spec| && spec[j].name == n;
      assert s[j].name == n;
    }
  }

  /** After `set_arg` on distinct names, the name is declared with the given
      settings and the merge uses its new default; names stay distinct. */
  lemma WithArgSpec(spec: seq<ArgSpec>, name: string, required: bool, defaultValue: string, newId: int)
    requires DistinctNames(spec)
    ensures var s := WithArg(spec, name, required, defaultValue, newId);
      && DistinctNames(s)
      && Names(s) == Names(spec) + {name}
      && name in Defaults(s) && Defaults(s)[name] == defaultValue
  {
    var s := WithArg(spec, name, required, defaultValue, newId);
    WithArgShape(spec, name, required, defaultValue, newId);
    DefaultsSpec(s);
    var k := FirstArgIndex(s, name);
    assert s[k].name == name && s[k].defaultValue == defaultValue;
  }

  /** After `delete_arg` on distinct names the name is no longer declared and
      every other declaration is kept, in order. */
  lemma WithoutArgSpec(spec: seq<ArgSpec>, name: string)
    requires DistinctNames(spec)
    ensures var s := WithoutArg(spec, name);
      && DistinctNames(s)
      && Names(s) == Names(spec) - {name}
      && (name in Names(spec) ==> |s| == |spec| - 1)
      && (name !in Names(spec) ==> s == spec)
  {
    var s := WithoutArg(spec, name);
    var i := FirstArgIndex(spec, name);
    if i < |spec| {
      assert forall j :: 0 <= j < i ==> s[j] == spec[j];
      assert forall j :: i <= j < |s| ==> s[j] == spec[j + 1];
      forall n | n in Names(s) ensures n in Names(spec) - {name} {
        var j :| 0 <= j < |s| && s[j].name == n;
        if j >= i {
          assert s[j] == spec[j + 1];
        }
      }
      forall n | n in Names(spec) - {name} ensures n in Names(s) {
        var j :| 0 <= j < |spec| && spec[j].name == n;
        if j < i {
          assert s[j].name == n;
        } else {
          assert j > i && s[j - 1].name == n;
        }
      }
    }
  }

  class ActiveMonitorDef {
    const id: int
    var name: string
    var active: bool
    var cmdlineFilename: string
    var cmdlineArgsTmpl: string
    var descriptionTmpl: string
    var argSpec: seq<ArgSpec>
    const manager: ActiveMonitorManager

    constructor (id: int, name: string, active: bool, cmdlineFilename: string, cmdlineArgsTmpl: string,
                 descriptionTmpl: string, argSpec: seq<ArgSpec>, manager: ActiveMonitorManager)
      ensures this.id == id && this.name == name && this.active == active
      ensures this.cmdlineFilename == cmdlineFilename && this.cmdlineArgsTmpl == cmdlineArgsTmpl
      ensures this.descriptionTmpl == descriptionTmpl && this.argSpec == argSpec && this.manager == manager
    {
      this.id := id;
      this.name := name;
      this.active := active;
      this.cmdlineFilename := cmdlineFilename;
      this.cmdlineArgsTmpl := cmdlineArgsTmpl;
      this.descriptionTmpl := descriptionTmpl;
      this.argSpec := argSpec;
      this.manager := manager;
    }

    /** `get_arg_with_name(name)`: the first declared argument with that name. */
    method GetArgWithName(name: string) returns (r: Option<ArgSpec>)
      ensures r.Some? <==> name in Names(argSpec)
      ensures r.Some? ==> r.value.name == name && r.value == argSpec[FirstArgIndex(argSpec, name)]
    {
      r := None;
      var i := 0;
      while i < |argSpec|
        invariant 0 <= i <= |argSpec|
        invariant forall j :: 0 <= j < i ==> argSpec[j].name != name
      {
        if argSpec[i].name == name {
          r := Some(argSpec[i]);
          break;
        }
        i := i + 1;
      }
    }

    /** `validate_monitor_args(monitor_args, permit_missing)`: missing required
        arguments are looked for first, in declaration order; then the given
        keys are checked against the declared names. */
    method ValidateMonitorArgs(args: Args, permitMissing: bool) returns (err: Option<ArgError>)
      ensures err.None? <==> ArgsValid(argSpec, args, permitMissing)
      ensures err.Some? && err.value.MissingArgument? ==>
        !permitMissing &&
        exists i ::
          && 0 <= i < |argSpec| && argSpec[i].required && argSpec[i].name !in args
          && argSpec[i].name == err.value.name
          && forall j :: 0 <= j < i ==> !argSpec[j].required || argSpec[j].name in args
      ensures err.Some? && err.value.InvalidArgument? ==>
        err.value.key in args && err.value.key !in Names(argSpec)
        && (permitMissing || forall i :: 0 <= i < |argSpec| && argSpec[i].required ==> argSpec[i].name in args)
    {
      if !permitMissing {
        for i := 0 to |argSpec|
          invariant forall j :: 0 <= j < i ==> !argSpec[j].required || argSpec[j].name in args
        {
          if argSpec[i].required && argSpec[i].name !in args {
            return Some(MissingArgument(argSpec[i].name));
          }
        }
      }
      var names := Names(argSpec);
      var keys := args.Keys;
      while keys != {}
        invariant keys <= args.Keys
        invariant forall k :: k in args && k !in keys ==> k in names
        decreases keys
      {
        var k :| k in keys;
        if k !in names {
          return Some(InvalidArgument(k));
        }
        keys := keys - {k};
      }
      return None;
    }

    /** `set_arg(name, ...)`; `newId` is the id the database gives a new row. */
    method SetArg(name: string, required: bool, defaultValue: string, newId: int) returns (arg: ArgSpec)
      modifies `argSpec
      ensures argSpec == WithArg(old(argSpec), name, required, defaultValue, newId)
      ensures FirstArgIndex(argSpec, name) < |argSpec| && arg == argSpec[FirstArgIndex(argSpec, name)]
      ensures arg.name == name && arg.required == required && arg.defaultValue == defaultValue
    {
      var found := GetArgWithName(name);
      var i := FirstArgIndex(argSpec, name);
      if found.Some? {
        arg := ArgSpec(found.value.id, name, required, defaultValue);
        argSpec := argSpec[i := arg];
      } else {
        arg := ArgSpec(newId, name, required, defaultValue);
        argSpec := argSpec + [arg];
      }
      FirstArgIndexAt(argSpec, name, i);
    }

    /** `delete_arg(name)` */
    method DeleteArg(name: string)
      modifies `argSpec
      ensures argSpec == WithoutArg(old(argSpec), name)
    {
      var found := GetArgWithName(name);
      if found.Some? {
        var i := FirstArgIndex(argSpec, name);
        argSpec := argSpec[..i] + argSpec[i + 1..];
      }
    }

    /** `update(update_params)`, in memory: each given field is replaced. */
    method Update(u: DefUpdate)
      modifies `name, `active, `cmdlineFilename, `cmdlineArgsTmpl, `descriptionTmpl
      ensures name == u.name.GetOr(old(name)) && active == u.active.GetOr(old(active))
      ensures cmdlineFilename == u.cmdlineFilename.GetOr(old(cmdlineFilename))
      ensures cmdlineArgsTmpl == u.cmdlineArgsTmpl.GetOr(old(cmdlineArgsTmpl))
      ensures descriptionTmpl == u.descriptionTmpl.GetOr(old(descriptionTmpl))
    {
      if u.name.Some? { name := u.name.value; }
      if u.active.Some? { active := u.active.value; }
      if u.cmdlineFilename.Some? { cmdlineFilename := u.cmdlineFilename.value; }
      if u.cmdlineArgsTmpl.Some? { cmdlineArgsTmpl := u.cmdlineArgsTmpl.value; }
      if u.descriptionTmpl.Some? { descriptionTmpl := u.descriptionTmpl.value; }
    }

    /** `delete()`: refused while a monitor of the manager uses the
        definition; `del monitor_defs[id]` fails when it is not registered. */
    method Delete() returns (err: Option<DefDeleteError>)
      modifies manager`monitorDefs
      ensures err == Some(InUse) <==> exists k :: k in manager.monitors && manager.monitors[k].monitorDef.id == id
      ensures err == Some(NoSuchDef) <==>
        (forall k :: k in manager.monitors ==> manager.monitors[k].monitorDef.id != id) && id !in old(manager.monitorDefs)
      ensures manager.monitorDefs == if err.None? then old(manager.monitorDefs) - {id} else old(manager.monitorDefs)
    {
      var todo := manager.monitors.Keys;
      while todo != {}
        invariant todo <= manager.monitors.Keys
        invariant forall k :: k in manager.monitors && k !in todo ==> manager.monitors[k].monitorDef.id != id
        invariant manager.monitorDefs == old(manager.monitorDefs)
        decreases todo
      {
        ghost var some := AnElement(todo);
        var k :| k in todo;
        if manager.monitors[k].monitorDef.id == id {
          return Some(InUse);
        }
        todo := todo - {k};
      }
      if id !in manager.monitorDefs {
        return Some(NoSuchDef);
      }
      manager.monitorDefs := manager.monitorDefs - {id};
      return None;
    }
  }

  class ActiveMonitor {
    const id: int
    const monitorDef: ActiveMonitorDef
    const manager: ActiveMonitorManager
    var args: Args
    var state: CheckState
    var lastCheckState: Option<CheckState>
    var consecutiveChecks: nat
    var lastCheck: int
    var msg: string
    var alertId: Option<int>
    var stateTs: int
    var monitoring: bool
    var deleted: bool
    var checksEnabled: bool
    var alertsEnabled: bool
    var pendingReset: bool
    /** The alert id the monitor was loaded with, and its writes since. */
    ghost const alertId0: Option<int>
    ghost var db: seq<DbWrite>
    /** The notifications handed to the notification manager. */
    ghost var sent: seq<Notification>

    /** `alert_id` is the alert the monitor's writes leave open. */
    ghost predicate Valid()
      reads this
    {
      alertId == OpenAlert(alertId0, db)
    }

    /** `if self.alert_id:`: `None` and `0` count as no alert. */
    predicate HasAlert()
      reads this
    {
      IsAlert(alertId)
    }

    /** The arguments the command line and the description are rendered
        from (`expanded_args` before template expansion). */
    function TemplateArgs(): Args
      reads this, monitorDef
    {
      MergeArgs(monitorDef.argSpec, args)
    }

    /** `ActiveMonitor(...)`; a falsy `state_ts` becomes the current time. */
    constructor (id: int, args: Args, monitorDef: ActiveMonitorDef, state: CheckState, stateTs: int,
                 msg: string, alertId: Option<int>, checksEnabled: bool, alertsEnabled: bool,
                 manager: ActiveMonitorManager, now: int)
      ensures Valid()
      ensures this.id == id && this.args == args && this.monitorDef == monitorDef && this.manager == manager
      ensures this.state == state && this.stateTs == (if stateTs == 0 then now else stateTs)
      ensures this.msg == msg && this.alertId == alertId
      ensures this.checksEnabled == checksEnabled && this.alertsEnabled == alertsEnabled
      ensures lastCheckState.None? && consecutiveChecks == 0 && lastCheck == now
      ensures !monitoring && !deleted && !pendingReset
      ensures db == [] && sent == []
    {
      this.id := id;
      this.args := args;
      this.monitorDef := monitorDef;
      this.manager := manager;
      this.state := state;
      this.stateTs := if stateTs == 0 then now else stateTs;
      this.msg := msg;
      this.alertId := alertId;
      this.checksEnabled := checksEnabled;
      this.alertsEnabled := alertsEnabled;
      lastCheckState := None;
      consecutiveChecks := 0;
      lastCheck := now;
      monitoring := false;
      deleted := false;
      pendingReset := false;
      alertId0 := alertId;
      db := [];
      sent := [];
    }

    /** `update_consecutive_checks(state)` */
    method UpdateConsecutiveChecks(check: CheckState)
      modifies `lastCheckState, `consecutiveChecks
      ensures Counter(lastCheckState, consecutiveChecks) ==
              CountCheck(Counter(old(lastCheckState), old(consecutiveChecks)), check)
    {
      if Some(check) == lastCheckState {
        consecutiveChecks := consecutiveChecks + 1;
      } else {
        consecutiveChecks := 0;
      }
      lastCheckState := Some(check);
    }

    /** `txn_save_state` */
    method TxnSaveState()
      requires Valid()
      modifies `db
      ensures Valid()
      ensures db == old(db) + [SaveState(state, stateTs, msg, alertId)]
    {
      OpenAlertSnoc(alertId0, db, SaveState(state, stateTs, msg, alertId));
      db := db + [SaveState(state, stateTs, msg, alertId)];
    }

    /** `txn_create_alert`: a new alert row, whose id becomes `alert_id`. */
    method TxnCreateAlert(newAlertId: int)
      requires Valid()
      modifies `alertId, `db
      ensures Valid()
      ensures alertId == Some(newAlertId)
      ensures db == old(db) + [CreateAlert(stateTs, msg, newAlertId)]
    {
      OpenAlertSnoc(alertId0, db, CreateAlert(stateTs, msg, newAlertId));
      db := db + [CreateAlert(stateTs, msg, newAlertId)];
      alertId := Some(newAlertId);
    }

    /** `txn_close_alert`: the open alert ends now and `alert_id` is cleared. */
    method TxnCloseAlert()
      requires Valid() && alertId.Some?
      modifies `alertId, `db
      ensures Valid()
      ensures alertId.None?
      ensures db == old(db) + [CloseAlert(old(alertId).value, stateTs)]
    {
      OpenAlertSnoc(alertId0, db, CloseAlert(alertId.value, stateTs));
      db := db + [CloseAlert(alertId.value, stateTs)];
      alertId := None;
    }

    /** The alert closing of `set_up` and `reset_monitor`: only a truthy
        `alert_id` is closed. */
    method CloseAlertIfAny()
      requires Valid()
      modifies `alertId, `db
      ensures Valid() && !HasAlert()
      ensures old(HasAlert()) ==> alertId.None? && db == old(db) + [CloseAlert(old(alertId).value, stateTs)]
      ensures !old(HasAlert()) ==> alertId == old(alertId) && db == old(db)
    {
      if HasAlert() {
        TxnCloseAlert();
      }
    }

    /** `notify_state_change(prev_state, prev_state_ts)`: nothing is sent
        while alerts are disabled. */
    method NotifyStateChange(prevState: CheckState, prevStateTs: int)
      modifies `sent
      ensures sent == old(sent) +
        (if alertsEnabled then [Notification(id, state, prevState, msg, Elapsed(prevStateTs, stateTs))] else [])
    {
      if !alertsEnabled {
        return;
      }
      var elapsed: Option<string> := None;
      if prevStateTs != 0 && stateTs - prevStateTs != 0 {
        var text := Utils.GetDisplayTime(stateTs - prevStateTs, 2);
        elapsed := Some(text);
      }
      sent := sent + [Notification(id, state, prevState, msg, elapsed)];
    }

    /** `state_change(new_state, msg)`: the new state is stored with its time
        and message; DOWN opens an alert and notifies; UP closes the alert and
        notifies only when coming from DOWN; UNKNOWN only saves the state. */
    method StateChange(newState: CheckState, newMsg: string, now: int, newAlertId: int)
      requires Valid()
      modifies `state, `stateTs, `msg, `alertId, `db, `sent
      ensures Valid()
      ensures state == newState && stateTs == now && msg == newMsg
      ensures sent == old(sent) +
        (if alertsEnabled && Notifies(old(state), newState)
         then [Notification(id, newState, old(state), newMsg, Elapsed(old(stateTs), now))] else [])
      ensures alertId == AlertAfter(newState, old(alertId), newAlertId)
      ensures db == old(db) + ChangeWrites(newState, old(alertId), now, newMsg, newAlertId)
    {
      var prevState := state;
      var prevStateTs := stateTs;
      state := newState;
      stateTs := now;
      msg := newMsg;
      if newState == Down {
        TxnCreateAlert(newAlertId);
        TxnSaveState();
        NotifyStateChange(prevState, prevStateTs);
      } else if newState == Up {
        CloseAlertIfAny();
        TxnSaveState();
        if prevState == Down {
          NotifyStateChange(prevState, prevStateTs);
        }
      } else {
        TxnSaveState();
      }
    }

    /** `handle_check_result(check_state, msg)`, the counter already updated:
        the state moves as `Decide` says and the next check is scheduled
        with the delay it gives. */
    method HandleCheckResult(check: CheckState, newMsg: string, now: int, newAlertId: int) returns (jitter: int)
      requires Valid()
      modifies `state, `stateTs, `msg, `alertId, `db, `sent, manager`pending
      ensures Valid()
      ensures state == Decide(old(state), check, consecutiveChecks, 0).newState.GetOr(old(state))
      ensures id in manager.pending
      ensures -5 <= jitter <= 5
      ensures manager.pending == old(manager.pending)[id := Decide(old(state), check, consecutiveChecks, jitter).delay]
      ensures state == old(state) ==>
        msg == old(msg) && stateTs == old(stateTs) && alertId == old(alertId) && db == old(db) && sent == old(sent)
      ensures state != old(state) ==>
        msg == newMsg && stateTs == now
        && alertId == AlertAfter(state, old(alertId), newAlertId)
        && db == old(db) + ChangeWrites(state, old(alertId), now, newMsg, newAlertId)
        && sent == old(sent) +
             (if alertsEnabled && Notifies(old(state), state)
              then [Notification(id, state, old(state), newMsg, Elapsed(old(stateTs), now))] else [])
    {
      jitter :| -5 <= jitter <= 5;
      var d := Decide(state, check, consecutiveChecks, jitter);
      manager.ScheduleMonitor(this, d.delay);
      if d.newState.Some? {
        StateChange(d.newState.value, newMsg, now, newAlertId);
      }
    }

    /** `run()` up to the plugin call, with the pending reset applied: a
        deleted or running monitor is refused; otherwise `monitoring` is set,
        a reset deferred by `reset_monitor` is carried out, and a monitor
        with checks disabled is rescheduled and finishes. */
    method BeginRun(now: int) returns (r: RunStart)
      requires Valid()
      modifies `lastCheck, `monitoring, `pendingReset, `state, `stateTs, `msg, `consecutiveChecks, `alertId, `db,
               manager`pending
      ensures Valid()
      ensures r == Refused <==> old(deleted || monitoring)
      ensures r == Refused ==>
        && lastCheck == old(lastCheck) && monitoring == old(monitoring) && pendingReset == old(pendingReset)
        && state == old(state) && stateTs == old(stateTs) && msg == old(msg)
        && consecutiveChecks == old(consecutiveChecks) && alertId == old(alertId) && db == old(db)
        && manager.pending == old(manager.pending)
      ensures r != Refused ==> lastCheck == now && !pendingReset
      ensures r != Refused && old(pendingReset) ==>
        state == Unknown && stateTs == now && msg == "" && consecutiveChecks == 0 && !HasAlert()
        && db == old(db) + ResetWrites(old(alertId), now)
      ensures r != Refused && !old(pendingReset) ==>
        state == old(state) && stateTs == old(stateTs) && msg == old(msg) && alertId == old(alertId)
        && consecutiveChecks == old(consecutiveChecks) && db == old(db)
      ensures r == Checking <==> r != Refused && checksEnabled
      ensures r == Checking ==> monitoring && manager.pending == old(manager.pending)
      ensures r == ChecksDisabled ==> !monitoring && manager.pending == old(manager.pending)[id := DEFAULT_MONITOR_INTERVAL]
    {
      if deleted || monitoring {
        return Refused;
      }
      monitoring := true;
      lastCheck := now;
      ApplyPendingReset(now);
      if !checksEnabled {
        manager.ScheduleMonitor(this, DEFAULT_MONITOR_INTERVAL);
        monitoring := false;
        return ChecksDisabled;
      }
      return Checking;
    }

    /** `if self._pending_reset:` with the reset carried out. */
    method ApplyPendingReset(now: int)
      requires Valid()
      modifies `pendingReset, `state, `stateTs, `msg, `consecutiveChecks, `alertId, `db
      ensures Valid() && !pendingReset
      ensures old(pendingReset) ==>
        state == Unknown && stateTs == now && msg == "" && consecutiveChecks == 0 && !HasAlert()
        && db == old(db) + ResetWrites(old(alertId), now)
      ensures !old(pendingReset) ==>
        state == old(state) && stateTs == old(stateTs) && msg == old(msg) && alertId == old(alertId)
        && consecutiveChecks == old(consecutiveChecks) && db == old(db)
    {
      if pendingReset {
        ResetState(now);
      }
    }

    /** `run()` up to the plugin call, as written: `_run` calls
        `reset_monitor` while `monitoring` is already set, so the reset is
        deferred again instead of being carried out. */
    method BeginRunAsWritten(now: int) returns (r: RunStart)
      requires Valid()
      modifies `lastCheck, `monitoring, `pendingReset, `state, `stateTs, `msg, `consecutiveChecks, `alertId, `db,
               manager`pending
      ensures Valid()
      ensures r == Refused <==> old(deleted || monitoring)
      ensures r == Refused ==> lastCheck == old(lastCheck) && monitoring == old(monitoring)
      ensures r != Refused ==> lastCheck == now
      ensures pendingReset == old(pendingReset)
      ensures state == old(state) && stateTs == old(stateTs) && msg == old(msg)
      ensures consecutiveChecks == old(consecutiveChecks) && alertId == old(alertId) && db == old(db)
      ensures r == Checking <==> r != Refused && checksEnabled
      ensures r != ChecksDisabled ==> manager.pending == old(manager.pending)
      ensures r == Checking ==> monitoring
      ensures r == ChecksDisabled ==> !monitoring && manager.pending == old(manager.pending)[id := DEFAULT_MONITOR_INTERVAL]
    {
      if deleted || monitoring {
        return Refused;
      }
      monitoring := true;
      lastCheck := now;
      if pendingReset {
        ResetMonitor(now);
      }
      if !checksEnabled {
        manager.ScheduleMonitor(this, DEFAULT_MONITOR_INTERVAL);
        monitoring := false;
        return ChecksDisabled;
      }
      return Checking;
    }

    /** The fields a check reads and writes, as they are at one moment. */
    ghost function Snap(): Snapshot
      reads this, manager
    {
      Snapshot(state, stateTs, alertId, lastCheckState, consecutiveChecks, db, sent, manager.pending)
    }

    /** What a completed check with result `check` and message `newMsg`
        does, from the moment `b`: the counter moves by `CountCheck`, the
        message is stored, the state moves as `Decide` says with the next
        check scheduled by its delay, a change of state is stamped, written
        and notified, and a monitor deleted meanwhile is purged. */
    ghost predicate CheckDone(b: Snapshot, check: CheckState, newMsg: string, now: int, newAlertId: int)
      reads this, manager
    {
      && Counter(lastCheckState, consecutiveChecks) == CountCheck(Counter(b.lastCheckState, b.consecutiveChecks), check)
      && msg == newMsg
      && state == Decide(b.state, check, consecutiveChecks, 0).newState.GetOr(b.state)
      && (exists jitter ::
            -5 <= jitter <= 5 &&
            manager.pending == b.pending[id := Decide(b.state, check, consecutiveChecks, jitter).delay])
      && (state == b.state ==>
            stateTs == b.stateTs && alertId == b.alertId && sent == b.sent && db == b.db + PurgeIf(deleted))
      && (state != b.state ==>
            stateTs == now && alertId == AlertAfter(state, b.alertId, newAlertId)
            && db == b.db + ChangeWrites(state, b.alertId, now, newMsg, newAlertId) + PurgeIf(deleted)
            && sent == b.sent +
                 (if alertsEnabled && Notifies(b.state, state)
                  then [Notification(id, state, b.state, newMsg, Elapsed(b.stateTs, now))] else []))
    }

    /** The rest of `_run` and `run` once the plugin has returned: the
        outcome gives the check result and message, the counter is updated,
        the result handled, a monitor deleted meanwhile is purged, and
        `monitoring` is cleared. */
    method CompleteCheck(result: Nagios.PluginResult, utf8: seq<Nagios.Byte> -> string, now: int, newAlertId: int)
      requires Valid() && monitoring
      modifies `msg, `lastCheckState, `consecutiveChecks, `state, `stateTs, `alertId, `db, `sent, `monitoring,
               manager`pending
      ensures Valid() && !monitoring
      ensures CheckDone(old(Snap()), CheckOutcome(result, utf8).0, CheckOutcome(result, utf8).1, now, newAlertId)
      ensures id in manager.pending
    {
      var o := CheckOutcome(result, utf8);
      RecordCheck(o.0, o.1, now, newAlertId);
    }

    /** The steps of `_run` after the outcome is known: the message and the
        counter are stored, the result handled, a deleted monitor purged and
        `monitoring` cleared. */
    method RecordCheck(check: CheckState, newMsg: string, now: int, newAlertId: int)
      requires Valid() && monitoring
      modifies `msg, `lastCheckState, `consecutiveChecks, `state, `stateTs, `alertId, `db, `sent, `monitoring,
               manager`pending
      ensures Valid() && !monitoring
      ensures CheckDone(old(Snap()), check, newMsg, now, newAlertId)
      ensures id in manager.pending
    {
      ghost var b := Snap();
      msg := newMsg;
      UpdateConsecutiveChecks(check);
      var jitter := HandleCheckResult(check, newMsg, now, newAlertId);
      assert manager.pending == b.pending[id := Decide(b.state, check, consecutiveChecks, jitter).delay];
      PurgeIfDeleted();
      monitoring := false;
    }

    /** `if self.deleted: await self._purge()` at the end of `_run`. */
    method PurgeIfDeleted()
      requires Valid()
      modifies `db
      ensures Valid()
      ensures db == old(db) + PurgeIf(deleted)
    {
      if deleted {
        OpenAlertSnoc(alertId0, db, Purge);
        db := db + [Purge];
      }
    }

    /** `run()` as written, with no other operation in between: `outcome`
        is what the plugin gives, or `None` where `_run` raises. A run that
        is not refused leaves `monitoring` cleared; a deferred reset stays
        deferred, and a completed check acts on the state as it was. */
    method Run(outcome: Option<Nagios.PluginResult>, utf8: seq<Nagios.Byte> -> string, now: int, newAlertId: int)
      returns (r: RunStart)
      requires Valid()
      modifies `lastCheck, `monitoring, `pendingReset, `state, `stateTs, `msg, `consecutiveChecks, `alertId, `db,
               `sent, `lastCheckState, manager`pending
      ensures Valid()
      ensures r == Refused <==> old(deleted || monitoring)
      ensures r == Checking <==> r != Refused && checksEnabled
      ensures r == Refused ==> lastCheck == old(lastCheck) && monitoring == old(monitoring)
      ensures r != Refused ==> !monitoring && lastCheck == now
      ensures pendingReset == old(pendingReset)
      ensures r == Checking && outcome.Some? ==>
        CheckDone(old(Snap()), CheckOutcome(outcome.value, utf8).0, CheckOutcome(outcome.value, utf8).1, now, newAlertId)
      ensures r != Checking || outcome.None? ==>
        state == old(state) && stateTs == old(stateTs) && msg == old(msg) && alertId == old(alertId)
        && consecutiveChecks == old(consecutiveChecks) && lastCheckState == old(lastCheckState)
        && db == old(db) && sent == old(sent)
      ensures r == ChecksDisabled ==> manager.pending == old(manager.pending)[id := DEFAULT_MONITOR_INTERVAL]
      ensures r == Refused || (r == Checking && outcome.None?) ==> manager.pending == old(manager.pending)
    {
      r := BeginRunAsWritten(now);
      if r == Checking {
        if outcome.Some? {
          CompleteCheck(outcome.value, utf8, now, newAlertId);
        } else {
          AbortRun();
        }
      }
    }

    /** `run()` with the deferred reset carried out (`BeginRun` in place of
        its as-written first step): a run that is not refused clears the
        reset, and a completed check after a reset starts from UNKNOWN with
        a zero counter. */
    method RunCorrected(outcome: Option<Nagios.PluginResult>, utf8: seq<Nagios.Byte> -> string, now: int,
                        newAlertId: int)
      returns (r: RunStart)
      requires Valid()
      modifies `lastCheck, `monitoring, `pendingReset, `state, `stateTs, `msg, `consecutiveChecks, `alertId, `db,
               `sent, `lastCheckState, manager`pending
      ensures Valid()
      ensures r == Refused <==> old(deleted || monitoring)
      ensures r == Checking <==> r != Refused && checksEnabled
      ensures r == Refused ==> lastCheck == old(lastCheck) && monitoring == old(monitoring) && pendingReset == old(pendingReset)
      ensures r != Refused ==> !monitoring && lastCheck == now && !pendingReset
      ensures r == Checking && outcome.Some? && !old(pendingReset) ==>
        CheckDone(old(Snap()), CheckOutcome(outcome.value, utf8).0, CheckOutcome(outcome.value, utf8).1, now, newAlertId)
      ensures r == Checking && outcome.Some? && old(pendingReset) ==>
        var o := CheckOutcome(outcome.value, utf8);
        && Counter(lastCheckState, consecutiveChecks) == CountCheck(Counter(old(lastCheckState), 0), o.0)
        && state == Decide(Unknown, o.0, consecutiveChecks, 0).newState.GetOr(Unknown)
        && msg == o.1
      ensures r == ChecksDisabled && old(pendingReset) ==> state == Unknown && msg == "" && !HasAlert()
    {
      r := BeginRun(now);
      if r == Checking {
        if outcome.Some? {
          CompleteCheck(outcome.value, utf8, now, newAlertId);
        } else {
          AbortRun();
        }
      }
    }

    /** `run()` when `_run` raises: `monitoring` is cleared and the error
        goes on to the caller. */
    method AbortRun()
      modifies `monitoring
      ensures !monitoring
    {
      monitoring := false;
    }

    /** The resetting part of `reset_monitor`. */
    method ResetState(now: int)
      requires Valid()
      modifies `pendingReset, `state, `stateTs, `msg, `consecutiveChecks, `alertId, `db
      ensures Valid()
      ensures !pendingReset && state == Unknown && stateTs == now && msg == "" && consecutiveChecks == 0
      ensures !HasAlert() && alertId == (if old(HasAlert()) then None else old(alertId))
      ensures db == old(db) + ResetWrites(old(alertId), now)
    {
      pendingReset := false;
      state := Unknown;
      stateTs := now;
      msg := "";
      consecutiveChecks := 0;
      CloseAlertIfAny();
      TxnSaveState();
    }

    /** `reset_monitor()`: a running monitor only notes the reset for later;
        otherwise the monitor returns to UNKNOWN with its alert closed. The
        last check result is kept. */
    method ResetMonitor(now: int)
      requires Valid()
      modifies `pendingReset, `state, `stateTs, `msg, `consecutiveChecks, `alertId, `db
      ensures Valid()
      ensures old(monitoring) ==>
        pendingReset && state == old(state) && stateTs == old(stateTs) && msg == old(msg)
        && alertId == old(alertId) && consecutiveChecks == old(consecutiveChecks) && db == old(db)
      ensures !old(monitoring) ==>
        !pendingReset && state == Unknown && stateTs == now && msg == "" && consecutiveChecks == 0 && !HasAlert()
        && db == old(db) + ResetWrites(old(alertId), now)
    {
      if monitoring {
        pendingReset := true;
        return;
      }
      ResetState(now);
    }

    /** `delete()`: idempotent; the monitor leaves the manager at once and is
        purged now, or marked deleted and purged when its running check
        completes. */
    method Delete()
      requires Valid()
      modifies `deleted, `db, manager`monitors
      ensures Valid() && deleted
      ensures old(deleted) ==> db == old(db) && manager.monitors == old(manager.monitors)
      ensures !old(deleted) ==>
        manager.monitors == old(manager.monitors) - {id}
        && db == old(db) + [if monitoring then MarkDeleted else Purge]
    {
      if deleted {
        return;
      }
      deleted := true;
      if id in manager.monitors {
        manager.monitors := manager.monitors - {id};
      }
      var w := if monitoring then MarkDeleted else Purge;
      OpenAlertSnoc(alertId0, db, w);
      db := db + [w];
    }

    /** `update_args(args)`: arguments that fail validation change nothing. */
    method UpdateArgs(newArgs: Args) returns (err: Option<ArgError>)
      requires Valid()
      modifies `args, `db
      ensures Valid()
      ensures err.None? <==> ArgsValid(monitorDef.argSpec, newArgs, false)
      ensures err.Some? ==> args == old(args) && db == old(db)
      ensures err.None? ==> args == newArgs && db == old(db) + [SaveArgs(newArgs)]
      ensures err.None? ==> TemplateArgs() == MergeArgs(monitorDef.argSpec, newArgs)
    {
      err := monitorDef.ValidateMonitorArgs(newArgs, false);
      if err.Some? {
        return;
      }
      args := newArgs;
      OpenAlertSnoc(alertId0, db, SaveArgs(newArgs));
      db := db + [SaveArgs(newArgs)];
    }

    /** `set_checks_enabled_status(checks_enabled)`: disabling resets the
        monitor (or defers the reset while it runs); any change asks for an
        immediate check. */
    method SetChecksEnabledStatus(enabled: bool, now: int)
      requires Valid()
      modifies `checksEnabled, `pendingReset, `state, `stateTs, `msg, `consecutiveChecks, `alertId, `db,
               manager`pending
      ensures Valid()
      ensures checksEnabled == enabled
      ensures old(checksEnabled) == enabled ==>
        pendingReset == old(pendingReset) && state == old(state) && stateTs == old(stateTs) && msg == old(msg)
        && consecutiveChecks == old(consecutiveChecks) && alertId == old(alertId) && db == old(db)
        && manager.pending == old(manager.pending)
      ensures old(checksEnabled) != enabled ==>
        manager.pending == (if !monitoring && !deleted then old(manager.pending)[id := 5] else old(manager.pending))
      ensures old(checksEnabled) != enabled && (enabled || monitoring) ==>
        state == old(state) && stateTs == old(stateTs) && msg == old(msg)
        && consecutiveChecks == old(consecutiveChecks) && alertId == old(alertId)
        && db == old(db) + [SaveChecksEnabled(enabled)]
      ensures old(checksEnabled) != enabled && enabled ==> pendingReset == old(pendingReset)
      ensures old(checksEnabled) != enabled && !enabled && monitoring ==> pendingReset
      ensures old(checksEnabled) != enabled && !enabled && !monitoring ==>
        !pendingReset && state == Unknown && stateTs == now && msg == "" && consecutiveChecks == 0 && !HasAlert()
        && db == old(db) + ResetWrites(old(alertId), now) + [SaveChecksEnabled(false)]
    {
      if checksEnabled == enabled {
        return;
      }
      checksEnabled := enabled;
      if !enabled {
        ResetMonitor(now);
      }
      ScheduleImmediately();
      OpenAlertSnoc(alertId0, db, SaveChecksEnabled(enabled));
      db := db + [SaveChecksEnabled(enabled)];
    }

    /** `set_alerts_enabled_status(alerts_enabled)` */
    method SetAlertsEnabledStatus(enabled: bool)
      requires Valid()
      modifies `alertsEnabled, `db
      ensures Valid()
      ensures alertsEnabled == enabled
      ensures db == old(db) + (if old(alertsEnabled) == enabled then [] else [SaveAlertsEnabled(enabled)])
    {
      if alertsEnabled == enabled {
        return;
      }
      alertsEnabled := enabled;
      OpenAlertSnoc(alertId0, db, SaveAlertsEnabled(enabled));
      db := db + [SaveAlertsEnabled(enabled)];
    }

    /** `schedule_immediately()`: a check in 5 seconds, unless the monitor
        is running or deleted. */
    method ScheduleImmediately()
      modifies manager`pending
      ensures manager.pending == if !monitoring && !deleted then old(manager.pending)[id := 5] else old(manager.pending)
    {
      if !monitoring && !deleted {
        manager.ScheduleMonitor(this, 5);
      }
    }
  }

  class ActiveMonitorManager {
    var monitors: map<int, ActiveMonitor>
    var monitorDefs: map<int, ActiveMonitorDef>
    /** The pending `call_later` job of each monitor, by monitor id, as the
        delay it was scheduled with: at most one per monitor. */
    var pending: map<int, int>
    var numRunningJobs: int
    const maxConcurrentJobs: int
    const debugMode: bool
    /** The monitors whose admitted run has not finished. */
    ghost var inFlight: multiset<int>

    /** The running-job counter counts the admitted runs and never exceeds
        `max_concurrent_jobs + 1`; monitors are keyed by their id. */
    ghost predicate Valid()
      reads this
    {
      && numRunningJobs == |inFlight|
      && (numRunningJobs == 0 || numRunningJobs <= maxConcurrentJobs + 1)
      && forall k :: k in monitors ==> monitors[k].id == k
    }

    constructor (maxConcurrentJobs: int, debugMode: bool)
      ensures Valid()
      ensures monitors == map[] && monitorDefs == map[] && pending == map[] && numRunningJobs == 0
      ensures this.maxConcurrentJobs == maxConcurrentJobs && this.debugMode == debugMode
    {
      monitors := map[];
      monitorDefs := map[];
      pending := map[];
      numRunningJobs := 0;
      this.maxConcurrentJobs := maxConcurrentJobs;
      this.debugMode := debugMode;
      inFlight := multiset{};
    }

    /** `schedule_monitor(monitor, interval)`: any pending job is cancelled
        and replaced. */
    method ScheduleMonitor(m: ActiveMonitor, interval: int)
      modifies `pending
      ensures pending == old(pending)[m.id := interval]
    {
      pending := pending[m.id := interval];
    }

    /** `add_monitor(monitor)`: registered and checked at once. */
    method AddMonitor(m: ActiveMonitor)
      requires Valid()
      modifies `monitors, `pending
      ensures Valid()
      ensures monitors == old(monitors)[m.id := m]
      ensures pending == old(pending)[m.id := 0]
    {
      monitors := monitors[m.id := m];
      ScheduleMonitor(m, 0);
    }

    /** The schedules `check_missing_schedules` adds, given the pending jobs:
        every registered monitor that is neither deleted nor running and has
        no pending job gets one in `DEFAULT_MONITOR_INTERVAL` seconds. */
    function MissingSchedules(pending: map<int, int>, keys: set<int>): map<int, int>
      reads this, monitors.Values
    {
      map k | k in keys && k in monitors && !monitors[k].deleted && !monitors[k].monitoring && k !in pending
        :: DEFAULT_MONITOR_INTERVAL
    }

    /** Looking at one more monitor. */
    lemma MissingStep(p: map<int, int>, done: set<int>, k: int)
      requires k in monitors && k !in done
      ensures MissingSchedules(p, done + {k}) ==
        if !monitors[k].deleted && !monitors[k].monitoring && k !in p
        then MissingSchedules(p, done)[k := DEFAULT_MONITOR_INTERVAL] else MissingSchedules(p, done)
    {
    }

    /** `check_missing_schedules()` (its own re-arming timer is not modelled). */
    method CheckMissingSchedules()
      requires Valid()
      modifies `pending
      ensures Valid()
      ensures pending == old(pending) + MissingSchedules(old(pending), monitors.Keys)
    {
      var todo := monitors.Keys;
      while todo != {}
        invariant todo <= monitors.Keys
        invariant pending == old(pending) + MissingSchedules(old(pending), monitors.Keys - todo)
        decreases todo
      {
        ghost var some := AnElement(todo);
        var k :| k in todo;
        var m := monitors[k];
        MissingStep(old(pending), monitors.Keys - todo, k);
        assert monitors.Keys - todo + {k} == monitors.Keys - (todo - {k});
        if !m.deleted && !m.monitoring && m.id !in pending {
          ScheduleMonitor(m, DEFAULT_MONITOR_INTERVAL);
        }
        todo := todo - {k};
      }
    }

    /** `start()`: every monitor is scheduled after a random delay of 1 to 180
        seconds, or at once in debug mode; the failsafe then finds nothing
        missing. */
    method Start()
      requires Valid()
      modifies `pending
      ensures Valid()
      ensures pending.Keys == old(pending).Keys + monitors.Keys
      ensures forall k :: k in monitors ==> if debugMode then pending[k] == 0 else 1 <= pending[k] <= DEFAULT_MONITOR_INTERVAL
      ensures forall k :: k in old(pending) && k !in monitors ==> pending[k] == old(pending)[k]
    {
      var todo := monitors.Keys;
      while todo != {}
        invariant todo <= monitors.Keys
        invariant pending.Keys == old(pending).Keys + (monitors.Keys - todo)
        invariant forall k :: k in monitors && k !in todo ==>
          if debugMode then pending[k] == 0 else 1 <= pending[k] <= DEFAULT_MONITOR_INTERVAL
        invariant forall k :: k in old(pending) && k !in monitors.Keys - todo ==> pending[k] == old(pending)[k]
        decreases todo
      {
        ghost var some := AnElement(todo);
        var k :| k in todo;
        var startDelay := 0;
        if !debugMode {
          startDelay :| 1 <= startDelay <= DEFAULT_MONITOR_INTERVAL;
        }
        ScheduleMonitor(monitors[k], startDelay);
        todo := todo - {k};
      }
      ghost var scheduled := pending;
      assert MissingSchedules(scheduled, monitors.Keys) == map[];
      CheckMissingSchedules();
    }

    /** `_run_monitor(monitor_id)` up to `monitor.run()`: a job for a missing
        monitor is dropped; the pending job is cleared; with more than
        `max_concurrent_jobs` runs going the job is deferred by 10 to 30
        seconds, otherwise it is admitted and counted. */
    method AdmitRun(monitorId: int) returns (a: Admission)
      requires Valid()
      modifies `pending, `numRunningJobs, `inFlight
      ensures Valid()
      ensures a == Missing <==> monitorId !in monitors
      ensures a == Deferred <==> monitorId in monitors && old(numRunningJobs) > maxConcurrentJobs
      ensures a == Missing ==> pending == old(pending)
      ensures a == Deferred ==>
        monitorId in pending && 10 <= pending[monitorId] <= 30
        && pending == old(pending)[monitorId := pending[monitorId]]
      ensures a != Admitted ==> numRunningJobs == old(numRunningJobs) && inFlight == old(inFlight)
      ensures a == Admitted ==>
        pending == old(pending) - {monitorId}
        && numRunningJobs == old(numRunningJobs) + 1 <= maxConcurrentJobs + 1
        && inFlight == old(inFlight) + multiset{monitorId}
    {
      if monitorId !in monitors {
        return Missing;
      }
      var m := monitors[monitorId];
      pending := pending - {monitorId};
      if numRunningJobs > maxConcurrentJobs {
        var delay :| 10 <= delay <= 30;
        ScheduleMonitor(m, delay);
        return Deferred;
      }
      numRunningJobs := numRunningJobs + 1;
      inFlight := inFlight + multiset{monitorId};
      return Admitted;
    }

    /** The end of `_run_monitor` when `monitor.run()` returns. */
    method FinishRun(monitorId: int)
      requires Valid() && monitorId in inFlight
      modifies `numRunningJobs, `inFlight
      ensures Valid()
      ensures numRunningJobs == old(numRunningJobs) - 1
      ensures inFlight == old(inFlight) - multiset{monitorId}
    {
      numRunningJobs := numRunningJobs - 1;
      inFlight := inFlight - multiset{monitorId};
    }

    /** The end of `_run_monitor` when `monitor.run()` raises: the counter
        is released too, and a monitor left without a pending job is
        rescheduled before the error goes on. */
    method FailRun(monitorId: int)
      requires Valid() && monitorId in inFlight
      modifies `numRunningJobs, `inFlight, `pending
      ensures Valid()
      ensures numRunningJobs == old(numRunningJobs) - 1
      ensures inFlight == old(inFlight) - multiset{monitorId}
      ensures pending == if monitorId in old(pending) then old(pending)
                         else old(pending)[monitorId := DEFAULT_MONITOR_INTERVAL]
    {
      numRunningJobs := numRunningJobs - 1;
      inFlight := inFlight - multiset{monitorId};
      if monitorId !in pending {
        pending := pending[monitorId := DEFAULT_MONITOR_INTERVAL];
      }
    }

    /** An admitted run releases exactly what it took, whichever way it ends. */
    method AdmitThenRelease(monitorId: int, raises: bool) returns (a: Admission)
      requires Valid()
      modifies `pending, `numRunningJobs, `inFlight
      ensures Valid()
      ensures numRunningJobs == old(numRunningJobs) && inFlight == old(inFlight)
    {
      a := AdmitRun(monitorId);
      if a == Admitted {
        if raises {
          FailRun(monitorId);
        } else {
          FinishRun(monitorId);
        }
      }
    }
  }

  /** `create_active_monitor(manager, args, monitor_def)`: the arguments are
      validated first, so invalid ones create nothing; a new monitor starts
      UNKNOWN with checks and alerts enabled and is scheduled at once.
      `newId` is the id the database gives the new row. */
  method CreateActiveMonitor(manager: ActiveMonitorManager, args: Args, monitorDef: ActiveMonitorDef,
                             newId: int, now: int)
    returns (r: Result<ActiveMonitor, ArgError>)
    requires manager.Valid()
    modifies manager`monitors, manager`pending
    ensures manager.Valid()
    ensures r.Ok? <==> ArgsValid(monitorDef.argSpec, args, false)
    ensures r.Err? ==> manager.monitors == old(manager.monitors) && manager.pending == old(manager.pending)
    ensures r.Ok? ==>
      var m := r.value;
      && fresh(m) && m.Valid()
      && m.id == newId && m.monitorDef == monitorDef && m.args == args
      && m.state == Unknown && m.stateTs == now && m.msg == "" && m.alertId.None?
      && m.checksEnabled && m.alertsEnabled && !m.monitoring && !m.deleted
      && m.db == [InsertMonitor(monitorDef.id, args)]
      && manager.monitors == old(manager.monitors)[newId := m]
      && manager.pending == old(manager.pending)[newId := 0]
  {
    var err := monitorDef.ValidateMonitorArgs(args, false);
    if err.Some? {
      return Err(err.value);
    }
    var m := new ActiveMonitor(newId, args, monitorDef, Unknown, 0, "", None, true, true, manager, now);
    OpenAlertSnoc(m.alertId0, m.db, InsertMonitor(monitorDef.id, args));
    m.db := m.db + [InsertMonitor(monitorDef.id, args)];
    manager.AddMonitor(m);
    return Ok(m);
  }

  /** `get_monitor_def_by_name(manager, name)`: a definition with that name,
      if there is one. */
  method GetMonitorDefByName(manager: ActiveMonitorManager, name: string) returns (r: Option<ActiveMonitorDef>)
    ensures r.None? <==> forall k :: k in manager.monitorDefs ==> manager.monitorDefs[k].name != name
    ensures r.Some? ==> r.value in manager.monitorDefs.Values && r.value.name == name
  {
    var todo := manager.monitorDefs.Keys;
    while todo != {}
      invariant todo <= manager.monitorDefs.Keys
      invariant forall k :: k in manager.monitorDefs && k !in todo ==> manager.monitorDefs[k].name != name
      decreases todo
    {
      ghost var some := AnElement(todo);
      var k :| k in todo;
      var d := manager.monitorDefs[k];
      if d.name == name {
        return Some(d);
      }
      todo := todo - {k};
    }
    return None;
  }
}
