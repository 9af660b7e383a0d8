/** Validators for values decoded from HTTP request data
    (irisett/webapi/require.py). Each returns the (possibly converted) value
    or fails with `InvalidData`. */
module Require {
  import opened Wrappers
  import opened PyText

  /** A decoded request value: JSON's null, booleans, integers, strings,
      lists and objects (a dict is kept as its item list, in order). */
  datatype Value =
    | PyNone
    | PyBool(b: bool)
    | PyInt(i: int)
    | PyStr(s: string)
    | PyList(items: seq<Value>)
    | PyDict(entries: seq<Entry>)

  /** One key/value item of a dict. */
  datatype Entry = Entry(key: Value, val: Value)

  /** `type(value)`, compared exactly: a bool is not of type `int`. */
  datatype PyType = NoneType | BoolType | IntType | StrType | ListType | DictType

  function TypeOf(v: Value): PyType {
    match v
    case PyNone => NoneType
    case PyBool(_) => BoolType
    case PyInt(_) => IntType
    case PyStr(_) => StrType
    case PyList(_) => ListType
    case PyDict(_) => DictType
  }

  /** The error every validator raises. */
  datatype InvalidData = InvalidData

  /** Python's `repr` of a string, choosing the quote as Python does
      (character escapes are not modelled). */
  function QuoteStr(s: string): string {
    if '\'' in s && '"' !in s then "\"" + s + "\"" else "'" + s + "'"
  }

  /** `str(value)`; inside a container each item appears as its `repr`. */
  function ToStr(v: Value): string
    decreases v, 1
  {
    match v
    case PyNone => "None"
    case PyBool(b) => if b then "True" else "False"
    case PyInt(i) => IntToString(i)
    case PyStr(s) => s
    case PyList(items) => "[" + ReprItems(items) + "]"
    case PyDict(entries) => "{" + ReprEntries(entries) + "}"
  }

  function Repr(v: Value): string
    decreases v, 2
  {
    if v.PyStr? then QuoteStr(v.s) else ToStr(v)
  }

  function ReprItems(items: seq<Value>): string
    decreases items
  {
    if |items| == 0 then ""
    else if |items| == 1 then Repr(items[0])
    else Repr(items[0]) + ", " + ReprItems(items[1..])
  }

  function ReprEntry(e: Entry): string
    decreases e
  {
    Repr(e.key) + ": " + Repr(e.val)
  }

  function ReprEntries(entries: seq<Entry>): string
    decreases entries
  {
    if |entries| == 0 then ""
    else if |entries| == 1 then ReprEntry(entries[0])
    else ReprEntry(entries[0]) + ", " + ReprEntries(entries[1..])
  }

  /** `int(value)`: a bool gives 0 or 1, a string is parsed in base 10; None,
      lists and dicts raise `TypeError`, a malformed string `ValueError`. */
  function IntOf(v: Value): (r: Option<int>)
    ensures v.PyInt? ==> r == Some(v.i)
    ensures v.PyBool? ==> r == Some(if v.b then 1 else 0)
    ensures v.PyStr? ==> r == ParseInt(v.s)
    ensures (v.PyNone? || v.PyList? || v.PyDict?) ==> r == None
  {
    match v
    case PyInt(i) => Some(i)
    case PyBool(b) => Some(if b then 1 else 0)
    case PyStr(s) => ParseInt(s)
    case _ => None
  }

  /** `require_str(value, convert, allow_none)` */
  function RequireStr(value: Value, convert: bool, allowNone: bool): (r: Result<Option<string>, InvalidData>)
    ensures r.Ok? <==> (value.PyNone? && allowNone) || value.PyStr? || convert
    ensures value.PyNone? && allowNone ==> r == Ok(None)
    ensures value.PyStr? ==> r == Ok(Some(value.s))
    ensures r.Ok? && !value.PyStr? && !(value.PyNone? && allowNone) ==> r == Ok(Some(ToStr(value)))
  {
    if value.PyNone? && allowNone then Ok(None)
    else if !value.PyStr? then
      if !convert then Err(InvalidData) else Ok(Some(ToStr(value)))
    else Ok(Some(value.s))
  }

  /** The values `require_bool` converts to false and to true; `in` on a
      list compares with `==`, so `None` is among the false ones. */
  predicate FalseLike(v: Value) {
    v == PyNone || v == PyInt(0) || v == PyStr("0") || v == PyStr("false") || v == PyStr("False")
  }

  predicate TrueLike(v: Value) {
    v == PyInt(1) || v == PyStr("1") || v == PyStr("true") || v == PyStr("True")
  }

  /** `require_bool(value, convert, allow_none)` */
  function RequireBool(value: Value, convert: bool, allowNone: bool): (r: Result<Option<bool>, InvalidData>)
    ensures value.PyNone? && allowNone ==> r == Ok(None)
    ensures value.PyBool? ==> r == Ok(Some(value.b))
    ensures !value.PyBool? && !(value.PyNone? && allowNone) ==>
      (r.Ok? <==> convert && (FalseLike(value) || TrueLike(value)))
      && (r.Ok? ==> r.value == Some(TrueLike(value)))
  {
    if value.PyNone? && allowNone then Ok(None)
    else if !value.PyBool? then
      if !convert then Err(InvalidData)
      else if FalseLike(value) then Ok(Some(false))
      else if TrueLike(value) then Ok(Some(true))
      else Err(InvalidData)
    else Ok(Some(value.b))
  }

  /** `if key_type and type(k) != key_type`: a missing type accepts anything. */
  predicate HasType(v: Value, t: Option<PyType>) {
    t.None? || TypeOf(v) == t.value
  }

  /** The item loop of `require_dict`: it raises at the first key or value of
      the wrong type. */
  function EntriesConform(entries: seq<Entry>, keyType: Option<PyType>, valueType: Option<PyType>): (ok: bool)
    ensures ok <==> forall i :: 0 <= i < |entries| ==>
      HasType(entries[i].key, keyType) && HasType(entries[i].val, valueType)
  {
    if |entries| == 0 then true
    else
      HasType(entries[0].key, keyType) && HasType(entries[0].val, valueType)
      && EntriesConform(entries[1..], keyType, valueType)
  }

  /** `require_dict(value, key_type, value_type, allow_none)`: on success the
      dict itself is returned. */
  function RequireDict(value: Value, keyType: Option<PyType>, valueType: Option<PyType>, allowNone: bool)
    : (r: Result<Option<seq<Entry>>, InvalidData>)
    ensures value.PyNone? && allowNone ==> r == Ok(None)
    ensures !(value.PyNone? && allowNone) ==>
      (r.Ok? <==> value.PyDict? && forall i :: 0 <= i < |value.entries| ==>
        HasType(value.entries[i].key, keyType) && HasType(value.entries[i].val, valueType))
      && (r.Ok? ==> r.value == Some(value.entries))
  {
    if value.PyNone? && allowNone then Ok(None)
    else if !value.PyDict? then Err(InvalidData)
    else if (keyType.Some? || valueType.Some?) && !EntriesConform(value.entries, keyType, valueType) then
      Err(InvalidData)
    else Ok(Some(value.entries))
  }

  /** The item loop of `require_list`. */
  function ItemsConform(items: seq<Value>, itemType: Option<PyType>): (ok: bool)
    ensures ok <==> forall i :: 0 <= i < |items| ==> HasType(items[i], itemType)
  {
    if |items| == 0 then true else HasType(items[0], itemType) && ItemsConform(items[1..], itemType)
  }

  /** `require_list(value, item_type, allow_none)`: on success the list itself
      is returned. */
  function RequireList(value: Value, itemType: Option<PyType>, allowNone: bool)
    : (r: Result<Option<seq<Value>>, InvalidData>)
    ensures value.PyNone? && allowNone ==> r == Ok(None)
    ensures !(value.PyNone? && allowNone) ==>
      (r.Ok? <==> value.PyList? && forall i :: 0 <= i < |value.items| ==> HasType(value.items[i], itemType))
      && (r.Ok? ==> r.value == Some(value.items))
  {
    if value.PyNone? && allowNone then Ok(None)
    else if !value.PyList? then Err(InvalidData)
    else if itemType.Some? && !ItemsConform(value.items, itemType) then Err(InvalidData)
    else Ok(Some(value.items))
  }

  /** `require_int(value, allow_none)`: `int(value)`, with `InvalidData` where
      `int` raises. */
  function RequireInt(value: Value, allowNone: bool): (r: Result<Option<int>, InvalidData>)
    ensures value.PyNone? && allowNone ==> r == Ok(None)
    ensures !(value.PyNone? && allowNone) ==>
      (r.Ok? <==> IntOf(value).Some?) && (r.Ok? ==> r.value == Some(IntOf(value).value))
  {
    if value.PyNone? && allowNone then Ok(None)
    else
      match IntOf(value)
      case None => Err(InvalidData)
      case Some(i) => Ok(Some(i))
  }

  /** An integer converted to a string by `require_str` is read back by
      `require_int` as the same integer. */
  lemma IntStrRoundTrip(i: int, allowNone: bool)
    ensures RequireStr(PyInt(i), true, allowNone) == Ok(Some(IntToString(i)))
    ensures RequireInt(PyStr(IntToString(i)), allowNone) == Ok(Some(i))
  {
    ParseIntRoundTrip(i);
  }

  /** A boolean converted to a string by `require_str` is read back by
      `require_bool` as the same boolean. */
  lemma BoolStrRoundTrip(b: bool, allowNone: bool)
    ensures var s := RequireStr(PyBool(b), true, allowNone);
      s.Ok? && s.value.Some? && RequireBool(PyStr(s.value.value), true, allowNone) == Ok(Some(b))
  {
  }
}
