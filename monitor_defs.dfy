/** The argument specification of an active monitor definition
    (irisett/monitor/active.py, class `ActiveMonitorDef`): the list of
    declared arguments, how a monitor's own arguments are merged over the
    declared defaults, and when a monitor's arguments are acceptable. */
module MonitorDefs {
  import opened Wrappers

  /** One entry of `arg_spec`: its database id, name, whether it is
      required and its default value. */
  datatype ArgSpec = ArgSpec(id: int, name: string, required: bool, defaultValue: string)

  /** A monitor's arguments, name to value. */
  type Args = map<string, string>

  /** Position of the first declared argument called `name`, or `|spec|`. */
  function FirstArgIndex(spec: seq<ArgSpec>, name: string): (i: nat)
    ensures i <= |spec|
    ensures i < |spec| ==> spec[i].name == name
    ensures forall j :: 0 <= j < i ==> spec[j].name != name
  {
    if |spec| == 0 then 0
    else if spec[0].name == name then 0
    else FirstArgIndex(spec[1..], name) + 1
  }

  /** An entry with the name and none before it is the first one. */
  lemma {:induction false} FirstArgIndexAt(spec: seq<ArgSpec>, name: string, i: nat)
    requires i < |spec| && spec[i].name == name
    requires forall j :: 0 <= j < i ==> spec[j].name != name
    ensures FirstArgIndex(spec, name) == i
  {
    if i > 0 {
      FirstArgIndexAt(spec[1..], name, i - 1);
    }
  }

  /** The names declared in `spec` (`arg_name_set`). */
  function Names(spec: seq<ArgSpec>): (names: set<string>)
    ensures forall n :: n in names <==> exists i :: 0 <= i < |spec| && spec[i].name == n
  {
    set i | 0 <= i < |spec| :: spec[i].name
  }

  /** `{a['name']: a['default_value'] for a in arg_spec}`: a later entry with
      the same name overrides an earlier one. */
  function Defaults(spec: seq<ArgSpec>): map<string, string> {
    if |spec| == 0 then map[]
    else
      var last := spec[|spec| - 1];
      Defaults(spec[..|spec| - 1])[last.name := last.defaultValue]
  }

  /** The defaults have exactly the declared names, and each name carries the
      default of its last declaration. */
  lemma DefaultsSpec(spec: seq<ArgSpec>)
    ensures Defaults(spec).Keys == Names(spec)
    ensures forall i :: 0 <= i < |spec| && (forall j :: i < j < |spec| ==> spec[j].name != spec[i].name) ==>
      Defaults(spec)[spec[i].name] == spec[i].defaultValue
  {
    DefaultsKeys(spec);
    forall i | 0 <= i < |spec| && (forall j :: i < j < |spec| ==> spec[j].name != spec[i].name)
      ensures Defaults(spec)[spec[i].name] == spec[i].defaultValue
    {
      DefaultsLast(spec, i);
    }
  }

  lemma {:induction false} DefaultsKeys(spec: seq<ArgSpec>)
    ensures Defaults(spec).Keys == Names(spec)
  {
    if |spec| > 0 {
      DefaultsKeys(spec[..|spec| - 1]);
      NamesSnoc(spec);
    }
  }

  /** The default of a declaration no later one overrides. */
  lemma {:induction false} DefaultsLast(spec: seq<ArgSpec>, i: nat)
    requires i < |spec|
    requires forall j :: i < j < |spec| ==> spec[j].name != spec[i].name
    ensures spec[i].name in Defaults(spec) && Defaults(spec)[spec[i].name] == spec[i].defaultValue
  {
    if i < |spec| - 1 {
      var front := spec[..|spec| - 1];
      assert front[i] == spec[i];
      forall j | i < j < |front| ensures front[j].name != front[i].name {
        assert front[j] == spec[j];
      }
      DefaultsLast(front, i);
    }
  }

  /** The names of a list are those of all but its last entry, and that one's. */
  lemma NamesSnoc(spec: seq<ArgSpec>)
    requires |spec| > 0
    ensures Names(spec) == Names(spec[..|spec| - 1]) + {spec[|spec| - 1].name}
  {
    var front := spec[..|spec| - 1];
    assert forall i :: 0 <= i < |front| ==> front[i] == spec[i];
  }

  /** The argument dict of `expand_monitor_args` and
      `get_monitor_description`: the defaults, updated with the monitor's
      own arguments. */
  function MergeArgs(spec: seq<ArgSpec>, args: Args): Args {
    Defaults(spec) + args
  }

  /** A merged argument is present exactly when the monitor gives it or the
      definition declares it; the monitor's own value wins; otherwise the
      default of the last declaration applies. */
  lemma MergeArgsSpec(spec: seq<ArgSpec>, args: Args)
    ensures MergeArgs(spec, args).Keys == args.Keys + Names(spec)
    ensures forall n :: n in args ==> MergeArgs(spec, args)[n] == args[n]
    ensures forall i :: 0 <= i < |spec| && spec[i].name !in args
                        && (forall j :: i < j < |spec| ==> spec[j].name != spec[i].name) ==>
      MergeArgs(spec, args)[spec[i].name] == spec[i].defaultValue
  {
    DefaultsSpec(spec);
  }

  /** The `InvalidArguments` errors `validate_monitor_args` raises. */
  datatype ArgError = MissingArgument(name: string) | InvalidArgument(key: string)

  /** Every required argument is given (unless missing ones are permitted)
      and every given argument is declared. */
  predicate ArgsValid(spec: seq<ArgSpec>, args: Args, permitMissing: bool) {
    && (permitMissing || forall i :: 0 <= i < |spec| && spec[i].required ==> spec[i].name in args)
    && forall k :: k in args ==> k in Names(spec)
  }

  /** Declared arguments may always be left out when missing ones are
      permitted, and an empty argument dict is then always valid. */
  lemma EmptyArgsPermitted(spec: seq<ArgSpec>)
    ensures ArgsValid(spec, map[], true)
  {
  }

  /** Giving every declared argument a value satisfies every definition. */
  lemma {:induction false} AllDeclaredValid(spec: seq<ArgSpec>, permitMissing: bool)
    ensures ArgsValid(spec, MergeArgs(spec, map[]), permitMissing)
  {
    MergeArgsSpec(spec, map[]);
    forall i | 0 <= i < |spec| && spec[i].required
      ensures spec[i].name in MergeArgs(spec, map[])
    {
      assert spec[i].name in Names(spec);
    }
  }
}
