/** The process-wide statistics table (irisett/stats.py): a `defaultdict(dict)`
    whose top level holds named sections of counters (and, when no section is
    given, plain counters). */
module Stats {
  import opened Wrappers

  /** A top-level entry: a counter set without a section, or a section that
      maps counter names to values. */
  datatype Stat = Num(n: int) | Section(vars: map<string, int>)

  type Table = map<string, Stat>

  /** What `get_section` hands back: the whole table, or one top-level entry. */
  datatype SectionView = Whole(entries: Table) | Entry(stat: Stat)

  /** The new table after an update, and whether the update completed (false:
      Python raised `KeyError` or `TypeError`). */
  datatype Update = Update(table: Table, ok: bool)

  /** `if section:` treats both `None` and the empty string as "no section". */
  function SectionKey(section: Option<string>): Option<string> {
    if section.Some? && section.value != "" then section else None
  }

  /** The numeric value of counter `name` in `section`, if there is one. */
  function Lookup(t: Table, section: Option<string>, name: string): Option<int> {
    match SectionKey(section)
    case None => if name in t && t[name].Num? then Some(t[name].n) else None
    case Some(s) =>
      if s in t && t[s].Section? && name in t[s].vars then Some(t[s].vars[name]) else None
  }

  /** Indexing the `defaultdict` with a missing section creates it empty. */
  function Touch(t: Table, section: Option<string>): Table {
    match SectionKey(section)
    case None => t
    case Some(s) => if s in t then t else t[s := Section(map[])]
  }

  /** `set(name, value, section)`: `stats[name] = value` on the section. */
  function SetValue(t: Table, name: string, value: int, section: Option<string>): Update {
    var t1 := Touch(t, section);
    match SectionKey(section)
    case None => Update(t1[name := Num(value)], true)
    case Some(s) =>
      match t1[s]
      case Section(vars) => Update(t1[s := Section(vars[name := value])], true)
      case Num(_) => Update(t1, false)
  }

  /** `stats[name] += delta` on the section, as `inc` (+1) and `dec` (-1) do.
      A missing top-level counter is created as an empty dict by the
      `defaultdict` before the addition fails. */
  function AddTo(t: Table, name: string, delta: int, section: Option<string>): Update {
    var t1 := Touch(t, section);
    match SectionKey(section)
    case None =>
      if name !in t1 then Update(t1[name := Section(map[])], false)
      else if t1[name].Num? then Update(t1[name := Num(t1[name].n + delta)], true)
      else Update(t1, false)
    case Some(s) =>
      if t1[s].Section? && name in t1[s].vars then
        Update(t1[s := Section(t1[s].vars[name := t1[s].vars[name] + delta])], true)
      else Update(t1, false)
  }

  /** Touching a section never changes what any lookup sees. */
  lemma TouchKeepsLookups(t: Table, section: Option<string>, s2: Option<string>, n2: string)
    ensures Lookup(Touch(t, section), s2, n2) == Lookup(t, s2, n2)
  {
  }

  /** `set` fails only when the named section is a plain counter; when it
      succeeds the counter reads back as `value` and every other counter is
      unchanged, except that a top-level `set` replaces a section of that name. */
  lemma SetValueSpec(t: Table, name: string, value: int, section: Option<string>)
    ensures var u := SetValue(t, name, value, section);
      && (u.ok <==> (SectionKey(section).None? || SectionKey(section).value !in t
                      || t[SectionKey(section).value].Section?))
      && (u.ok ==> Lookup(u.table, section, name) == Some(value))
      && (forall s2, n2 {:trigger Lookup(u.table, s2, n2)} ::
            (SectionKey(s2), n2) != (SectionKey(section), name)
            && !(SectionKey(section).None? && SectionKey(s2) == Some(name))
            ==> Lookup(u.table, s2, n2) == Lookup(t, s2, n2))
  {
  }

  /** `inc`/`dec` succeed exactly when the counter exists; they move it by
      `delta` and leave every other counter as it was. A failed call changes
      no counter either. */
  lemma AddToSpec(t: Table, name: string, delta: int, section: Option<string>)
    ensures var u := AddTo(t, name, delta, section);
      && (u.ok <==> Lookup(t, section, name).Some?)
      && (u.ok ==> Lookup(u.table, section, name) == Some(Lookup(t, section, name).value + delta))
      && (!u.ok ==> Lookup(u.table, section, name) == Lookup(t, section, name))
      && (forall s2, n2 {:trigger Lookup(u.table, s2, n2)} ::
            (SectionKey(s2), n2) != (SectionKey(section), name)
            ==> Lookup(u.table, s2, n2) == Lookup(t, s2, n2))
  {
  }

  /** `inc` followed by `dec` on the same counter restores the table. */
  lemma {:induction false} IncThenDecRestores(t: Table, name: string, section: Option<string>)
    requires AddTo(t, name, 1, section).ok
    ensures AddTo(AddTo(t, name, 1, section).table, name, -1, section) == Update(t, true)
  {
    var t1 := AddTo(t, name, 1, section).table;
    match SectionKey(section)
    case None =>
      assert t1 == t[name := Num(t[name].n + 1)];
      assert t1[name := Num(t1[name].n - 1)] == t;
    case Some(s) =>
      assert s in t;
      var vars := t[s].vars;
      assert t1 == t[s := Section(vars[name := vars[name] + 1])];
      assert t1[s].vars[name := t1[s].vars[name] - 1] == vars;
      assert t1[s := Section(vars)] == t;
  }

  /** The module-global `statistics` dict. */
  class Statistics {
    var table: Table

    constructor ()
      ensures table == map[]
    {
      table := map[];
    }

    /** `get_section(section)`: with no section, the whole table; otherwise
        that section's entry, created empty when it was missing. */
    method GetSection(section: Option<string>) returns (v: SectionView)
      modifies this
      ensures table == Touch(old(table), section)
      ensures SectionKey(section).None? ==> v == Whole(table)
      ensures SectionKey(section).Some? ==> SectionKey(section).value in table
                                            && v == Entry(table[SectionKey(section).value])
    {
      if SectionKey(section).None? {
        v := Whole(table);
      } else {
        var s := SectionKey(section).value;
        if s !in table {
          table := table[s := Section(map[])];
        }
        v := Entry(table[s]);
      }
    }

    /** `set(name, value, section)`; `ok` is false where Python raises. */
    method Set(name: string, value: int, section: Option<string>) returns (ok: bool)
      modifies this
      ensures Update(table, ok) == SetValue(old(table), name, value, section)
    {
      var view := GetSection(section);
      match view
      case Whole(_) =>
        table := table[name := Num(value)];
        ok := true;
      case Entry(stat) =>
        var s := SectionKey(section).value;
        if stat.Section? {
          table := table[s := Section(stat.vars[name := value])];
          ok := true;
        } else {
          ok := false;
        }
    }

    /** `inc(name, section)`. */
    method Inc(name: string, section: Option<string>) returns (ok: bool)
      modifies this
      ensures Update(table, ok) == AddTo(old(table), name, 1, section)
    {
      ok := Add(name, 1, section);
    }

    /** `dec(name, section)`. */
    method Dec(name: string, section: Option<string>) returns (ok: bool)
      modifies this
      ensures Update(table, ok) == AddTo(old(table), name, -1, section)
    {
      ok := Add(name, -1, section);
    }

    /** The shared body of `inc` and `dec`: `stats[name] += delta`. */
    method Add(name: string, delta: int, section: Option<string>) returns (ok: bool)
      modifies this
      ensures Update(table, ok) == AddTo(old(table), name, delta, section)
    {
      var view := GetSection(section);
      match view
      case Whole(_) =>
        if name !in table {
          table := table[name := Section(map[])];
          ok := false;
        } else if table[name].Num? {
          table := table[name := Num(table[name].n + delta)];
          ok := true;
        } else {
          ok := false;
        }
      case Entry(stat) =>
        var s := SectionKey(section).value;
        if stat.Section? && name in stat.vars {
          table := table[s := Section(stat.vars[name := stat.vars[name] + delta])];
          ok := true;
        } else {
          ok := false;
        }
    }

    /** `get_stats()`: a copy of the top level, key by key. */
    method GetStats() returns (r: map<string, Stat>)
      ensures r.Keys == table.Keys
      ensures forall k :: k in r ==> r[k] == table[k]
    {
      r := map[];
      var keys := table.Keys;
      while keys != {}
        invariant keys <= table.Keys
        invariant r.Keys == table.Keys - keys
        invariant forall k :: k in r ==> r[k] == table[k]
        decreases keys
      {
        var k :| k in keys;
        r := r[k := table[k]];
        keys := keys - {k};
      }
    }
  }
}
