/** The event tracer (irisett/event.py): listeners register with optional
    filters on the event name and on the active monitor's id, and every event
    is handed to the listeners whose filters accept it. The tracer counts its
    listeners and the events fired in the shared statistics table. */
module Event {
  import opened Wrappers
  import Stats
  import opened Require

  /** The statistics section the tracer writes to. */
  const SECTION: string := "EVENT"

  /** `_parse_filter_list`: `None` or an empty list means "no filter",
      anything else becomes the set of its elements. */
  function ParseFilterList<T(!new)>(filter: Option<seq<T>>): (r: Option<set<T>>)
    ensures r.None? <==> filter.None? || |filter.value| == 0
    ensures r.Some? ==> r.value != {} && forall x :: x in r.value <==> x in filter.value
  {
    if filter.Some? && |filter.value| > 0 then
      var r := set x | x in filter.value;
      assert filter.value[0] in r;
      Some(r)
    else None
  }

  /** `[int(n) for n in filter]`; `None` where some `int(n)` raises. */
  function IntsOf(items: seq<Value>): (r: Option<seq<int>>)
    ensures r.Some? <==> forall i :: 0 <= i < |items| ==> IntOf(items[i]).Some?
    ensures r.Some? ==>
      |r.value| == |items| && forall i :: 0 <= i < |items| ==> r.value[i] == IntOf(items[i]).value
  {
    if |items| == 0 then Some([])
    else
      match (IntOf(items[0]), IntsOf(items[1..]))
      case (Some(n), Some(rest)) => Some([n] + rest)
      case _ => None
  }

  /** The converted ids, as the values the filter set holds. */
  function AsPyInts(ns: seq<int>): (r: seq<Value>)
    ensures |r| == |ns| && forall i :: 0 <= i < |ns| ==> r[i] == PyInt(ns[i])
  {
    if |ns| == 0 then [] else [PyInt(ns[0])] + AsPyInts(ns[1..])
  }

  /** `_parse_active_monitor_filter` followed by `_parse_filter_list`: a
      non-empty list is converted to integers first; `None` in the outer
      `Option` is the error `int()` raises. */
  function ParseActiveMonitorFilter(filter: Option<seq<Value>>): (r: Option<Option<set<Value>>>)
    ensures r.None? <==> filter.Some? && |filter.value| > 0 && IntsOf(filter.value).None?
    ensures r.Some? ==> (r.value.None? <==> filter.None? || |filter.value| == 0)
    ensures r.Some? && r.value.Some? ==>
      forall x :: x in r.value.value <==> x in AsPyInts(IntsOf(filter.value).value)
  {
    if filter.Some? && |filter.value| > 0 then
      match IntsOf(filter.value)
      case None => None
      case Some(ns) => Some(ParseFilterList(Some(AsPyInts(ns))))
    else Some(None)
  }

  /** The monitor an event is about, when it has a `monitor` argument. */
  datatype MonitorRef = MonitorRef(monitorType: string, id: int)

  /** The keyword arguments of an event, as far as the filters look at them. */
  datatype EventArgs = EventArgs(monitor: Option<MonitorRef>)

  /** `id in filter` with Python's `==`: the integer `1` also equals `True`. */
  predicate IdIn(id: int, filter: set<Value>) {
    PyInt(id) in filter || (id == 1 && PyBool(true) in filter) || (id == 0 && PyBool(false) in filter)
  }

  class EventListener {
    var eventFilter: Option<set<string>>
    var activeMonitorFilter: Option<set<Value>>

    /** The listener `listen` creates; note that the active monitor filter
        given here is not converted to integers. */
    constructor (eventFilter: Option<seq<string>>, activeMonitorFilter: Option<seq<Value>>)
      ensures this.eventFilter == ParseFilterList(eventFilter)
      ensures this.activeMonitorFilter == ParseFilterList(activeMonitorFilter)
    {
      this.eventFilter := ParseFilterList(eventFilter);
      this.activeMonitorFilter := ParseFilterList(activeMonitorFilter);
    }

    /** `set_event_filter(filter)` */
    method SetEventFilter(filter: Option<seq<string>>)
      modifies this
      ensures eventFilter == ParseFilterList(filter)
      ensures activeMonitorFilter == old(activeMonitorFilter)
    {
      eventFilter := ParseFilterList(filter);
    }

    /** `set_active_monitor_filter(filter)`; `ok` is false, and nothing
        changes, where `int(n)` raises for some element. */
    method SetActiveMonitorFilter(filter: Option<seq<Value>>) returns (ok: bool)
      modifies this
      ensures ok <==> ParseActiveMonitorFilter(filter).Some?
      ensures ok ==> activeMonitorFilter == ParseActiveMonitorFilter(filter).value
      ensures !ok ==> activeMonitorFilter == old(activeMonitorFilter)
      ensures eventFilter == old(eventFilter)
    {
      var parsed := ParseActiveMonitorFilter(filter);
      if parsed.Some? {
        activeMonitorFilter := parsed.value;
        ok := true;
      } else {
        ok := false;
      }
    }

    /** `wants_event(event_name, args)`; an empty filter set is falsy and
        filters nothing, like an absent one. */
    predicate WantsEvent(name: string, args: EventArgs)
      reads this
    {
      if eventFilter.Some? && eventFilter.value != {} && name !in eventFilter.value then false
      else if activeMonitorFilter.Some? && activeMonitorFilter.value != {}
              && args.monitor.Some? && args.monitor.value.monitorType == "active"
              && !IdIn(args.monitor.value.id, activeMonitorFilter.value) then false
      else true
    }
  }

  /** A listener without filters wants every event. */
  lemma UnfilteredWantsAll(l: EventListener, name: string, args: EventArgs)
    requires l.eventFilter.None? && l.activeMonitorFilter.None?
    ensures l.WantsEvent(name, args)
  {
  }

  /** `wants_event` holds exactly when the name passes the event filter and
      the event is not about an active monitor missing from the monitor
      filter. */
  lemma WantsEventSpec(l: EventListener, name: string, args: EventArgs)
    ensures l.WantsEvent(name, args) <==>
      (l.eventFilter.None? || l.eventFilter.value == {} || name in l.eventFilter.value)
      && (l.activeMonitorFilter.None? || l.activeMonitorFilter.value == {}
          || args.monitor.None? || args.monitor.value.monitorType != "active"
          || IdIn(args.monitor.value.id, l.activeMonitorFilter.value))
  {
  }

  /** After `set_active_monitor_filter` with monitor ids given as strings,
      an event about one of those monitors is wanted. */
  lemma ConvertedFilterAdmits(l: EventListener, filter: seq<Value>, i: nat, name: string)
    requires i < |filter|
    requires l.eventFilter.None?
    requires ParseActiveMonitorFilter(Some(filter)).Some?
    requires l.activeMonitorFilter == ParseActiveMonitorFilter(Some(filter)).value
    ensures l.WantsEvent(name, EventArgs(Some(MonitorRef("active", IntOf(filter[i]).value))))
  {
    var ns := IntsOf(filter).value;
    assert AsPyInts(ns)[i] == PyInt(IntOf(filter[i]).value);
  }

  class EventTracer {
    var listeners: set<EventListener>
    const stats: Stats.Statistics

    /** The listener count in the statistics table is the size of the
        listener set, and the event counter exists. */
    ghost predicate Valid()
      reads this, stats
    {
      && Stats.Lookup(stats.table, Some(SECTION), "num_listeners") == Some(|listeners|)
      && Stats.Lookup(stats.table, Some(SECTION), "events_fired").Some?
    }

    function EventsFired(): int
      reads this, stats
      requires Valid()
    {
      Stats.Lookup(stats.table, Some(SECTION), "events_fired").value
    }

    /** The tracer starts without listeners and with both counters at zero;
        `stats.set` raises if `EVENT` is a plain counter. */
    constructor (stats: Stats.Statistics)
      requires SECTION !in stats.table || stats.table[SECTION].Section?
      modifies stats
      ensures Valid() && listeners == {} && EventsFired() == 0
      ensures this.stats == stats
      ensures stats.table ==
        Stats.SetValue(Stats.SetValue(old(stats.table), "num_listeners", 0, Some(SECTION)).table,
                       "events_fired", 0, Some(SECTION)).table
    {
      this.stats := stats;
      listeners := {};
      new;
      Stats.SetValueSpec(stats.table, "num_listeners", 0, Some(SECTION));
      var ok := stats.Set("num_listeners", 0, Some(SECTION));
      Stats.SetValueSpec(stats.table, "events_fired", 0, Some(SECTION));
      ok := stats.Set("events_fired", 0, Some(SECTION));
    }

    /** `listen(callback, event_filter, active_monitor_filter)`: exactly one
        new listener is added and counted. */
    method Listen(eventFilter: Option<seq<string>>, activeMonitorFilter: Option<seq<Value>>)
      returns (l: EventListener)
      requires Valid()
      modifies this, stats
      ensures Valid()
      ensures fresh(l) && listeners == old(listeners) + {l}
      ensures l.eventFilter == ParseFilterList(eventFilter)
      ensures l.activeMonitorFilter == ParseFilterList(activeMonitorFilter)
      ensures EventsFired() == old(EventsFired())
      ensures stats.table == Stats.AddTo(old(stats.table), "num_listeners", 1, Some(SECTION)).table
    {
      Stats.AddToSpec(stats.table, "num_listeners", 1, Some(SECTION));
      var ok := stats.Inc("num_listeners", Some(SECTION));
      l := new EventListener(eventFilter, activeMonitorFilter);
      listeners := listeners + {l};
    }

    /** `stop_listening(listener)`: removes a registered listener and does
        nothing for any other. */
    method StopListening(l: EventListener)
      requires Valid()
      modifies this, stats
      ensures Valid()
      ensures listeners == old(listeners) - {l}
      ensures l !in old(listeners) ==> stats.table == old(stats.table)
      ensures l in old(listeners) ==>
        stats.table == Stats.AddTo(old(stats.table), "num_listeners", -1, Some(SECTION)).table
      ensures EventsFired() == old(EventsFired())
    {
      if l in listeners {
        Stats.AddToSpec(stats.table, "num_listeners", -1, Some(SECTION));
        var ok := stats.Dec("num_listeners", Some(SECTION));
        listeners := listeners - {l};
      }
    }

    /** The listeners an event is handed to. */
    ghost function Interested(name: string, args: EventArgs): set<EventListener>
      reads this, listeners
    {
      set l | l in listeners && l.WantsEvent(name, args)
    }

    /** `running(event_name, **kwargs)`: counts the event and calls back every
        interested listener. `raising` are the listeners whose callback
        raises; the error is logged and the loop goes on, so `called` is
        every interested listener and `started` those whose task was
        created. */
    method Running(name: string, args: EventArgs, raising: set<EventListener>)
      returns (called: set<EventListener>, started: set<EventListener>)
      requires Valid()
      modifies stats
      ensures Valid() && EventsFired() == old(EventsFired()) + 1
      ensures stats.table == Stats.AddTo(old(stats.table), "events_fired", 1, Some(SECTION)).table
      ensures called == Interested(name, args)
      ensures started == called - raising
      ensures listeners == old(listeners)
    {
      Stats.AddToSpec(stats.table, "events_fired", 1, Some(SECTION));
      var ok := stats.Inc("events_fired", Some(SECTION));
      called := {};
      started := {};
      if listeners == {} {
        return;
      }
      var todo := listeners;
      while todo != {}
        invariant todo <= listeners
        invariant called == set l | l in listeners - todo && l.WantsEvent(name, args)
        invariant started == called - raising
        decreases todo
      {
        var l :| l in todo;
        if l.WantsEvent(name, args) {
          called := called + {l};
          if l !in raising {
            started := started + {l};
          }
        }
        todo := todo - {l};
      }
    }
  }

  /** Stopping twice is the same as stopping once. */
  method StopListeningTwice(t: EventTracer, l: EventListener)
    requires t.Valid()
    modifies t, t.stats
    ensures t.Valid() && t.listeners == old(t.listeners) - {l}
    ensures t.EventsFired() == old(t.EventsFired())
    ensures l !in old(t.listeners) ==> t.stats.table == old(t.stats.table)
    ensures l in old(t.listeners) ==>
      t.stats.table == Stats.AddTo(old(t.stats.table), "num_listeners", -1, Some(SECTION)).table
  {
    t.StopListening(l);
    t.StopListening(l);
  }
}
