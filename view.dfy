/** The two helpers of the web API views (irisett/webapi/view.py) that hold
    logic of their own: reading a query parameter, and attaching metadata
    entries to a list of model objects. */
module View {
  import opened Wrappers

  /** A URL query string: its parameters in order; a name may repeat. */
  type Query = seq<(string, string)>

  /** Position of the first parameter called `name`, or `|query|`. */
  function FirstIndex(query: Query, name: string): (i: nat)
    ensures i <= |query|
    ensures i < |query| ==> query[i].0 == name
    ensures forall j :: 0 <= j < i ==> query[j].0 != name
  {
    if |query| == 0 then 0
    else if query[0].0 == name then 0
    else FirstIndex(query[1..], name) + 1
  }

  /** The value the query's multidict gives for `name`: the first one. */
  function FirstValue(query: Query, name: string): (r: Option<string>)
    ensures r.Some? <==> exists i :: 0 <= i < |query| && query[i].0 == name
    ensures r.Some? ==> exists i :: (0 <= i < |query| && query[i] == (name, r.value)
                                     && forall j :: 0 <= j < i ==> query[j].0 != name)
  {
    var i := FirstIndex(query, name);
    if i < |query| then
      assert query[i] == (name, query[i].1);
      Some(query[i].1)
    else None
  }

  /** The error `get_request_param` raises. */
  datatype NotFound = NotFound

  /** `get_request_param(request, name, error_if_missing)` */
  function GetRequestParam(query: Query, name: string, errorIfMissing: bool)
    : (r: Result<Option<string>, NotFound>)
    ensures r.Err? <==> errorIfMissing && forall i :: 0 <= i < |query| ==> query[i].0 != name
    ensures r == Ok(None) <==> !errorIfMissing && forall i :: 0 <= i < |query| ==> query[i].0 != name
    ensures r.Ok? && r.value.Some? ==> FirstValue(query, name) == r.value
  {
    match FirstValue(query, name)
    case None => if errorIfMissing then Err(NotFound) else Ok(None)
    case Some(v) => Ok(Some(v))
  }

  /** A model object: its id and the rest of its fields (`asdict(model)`). */
  datatype Model<F> = Model(id: int, fields: F)

  /** An `ObjectMetadata` row: a key and value attached to object `objectId`. */
  datatype Meta = Meta(objectId: int, key: string, value: string)

  /** A model dict with its `metadata` entry. */
  datatype Annotated<F> = Annotated(fields: F, metadata: map<string, string>)

  /** The keys of `{model.id: ... for model in models}`, in the dict's
      insertion order: each id where it first occurs. */
  function DistinctIds<F>(models: seq<Model<F>>): (ids: seq<int>)
    ensures forall i, j :: 0 <= i < j < |ids| ==> ids[i] != ids[j]
    ensures forall id :: id in ids <==> exists k :: 0 <= k < |models| && models[k].id == id
  {
    if |models| == 0 then []
    else
      var front := models[..|models| - 1];
      var d := DistinctIds(front);
      var last := models[|models| - 1];
      assert forall k :: 0 <= k < |front| ==> front[k] == models[k];
      if last.id in d then d else d + [last.id]
  }

  /** Where the model the comprehension keeps for `id` sits: the last model
      with that id. */
  function LastIndex<F>(models: seq<Model<F>>, id: int): (k: nat)
    requires exists k :: 0 <= k < |models| && models[k].id == id
    ensures k < |models| && models[k].id == id
    ensures forall j :: k < j < |models| ==> models[j].id != id
  {
    if models[|models| - 1].id == id then |models| - 1
    else
      var front := models[..|models| - 1];
      var k :| 0 <= k < |models| && models[k].id == id;
      assert front[k] == models[k];
      LastIndex(front, id)
  }

  /** The `metadata` map of object `id` after the entries in `metas` have been
      applied in order. */
  function MetaFor(metas: seq<Meta>, id: int): map<string, string> {
    if |metas| == 0 then map[]
    else
      var m := MetaFor(metas[..|metas| - 1], id);
      var last := metas[|metas| - 1];
      if last.objectId == id then m[last.key := last.value] else m
  }

  /** Applying one more entry. */
  lemma MetaForStep(metas: seq<Meta>, k: nat)
    requires k < |metas|
    ensures forall id :: MetaFor(metas[..k + 1], id) ==
                         if metas[k].objectId == id then MetaFor(metas[..k], id)[metas[k].key := metas[k].value]
                         else MetaFor(metas[..k], id)
  {
    assert metas[..k + 1][..k] == metas[..k];
  }

  /** What `apply_metadata_to_model_list` returns, as a function of its inputs. */
  ghost function Applied<F>(models: seq<Model<F>>, metas: seq<Meta>): seq<Annotated<F>> {
    var ids := DistinctIds(models);
    seq(|ids|, i requires 0 <= i < |ids| =>
      assert ids[i] in ids;
      Annotated(models[LastIndex(models, ids[i])].fields, MetaFor(metas, ids[i])))
  }

  /** `{model.id: asdict(model) for model in model_list}`: the ids in
      insertion order and, for each, the fields of the last model with it. */
  method ModelDict<F>(models: seq<Model<F>>) returns (ids: seq<int>, fields: map<int, F>)
    ensures ids == DistinctIds(models)
    ensures fields.Keys == set id | id in ids
    ensures forall id :: id in ids ==> fields[id] == models[LastIndex(models, id)].fields
  {
    ids := [];
    fields := map[];
    for i := 0 to |models|
      invariant ids == DistinctIds(models[..i])
      invariant fields.Keys == set id | id in ids
      invariant forall id :: id in ids ==> fields[id] == models[LastIndex(models[..i], id)].fields
    {
      assert models[..i + 1][..i] == models[..i];
      var m := models[i];
      forall id | id in ids || id == m.id
        ensures LastIndex(models[..i + 1], id) == if id == m.id then i else LastIndex(models[..i], id)
      {
        if id != m.id {
          var k := LastIndex(models[..i], id);
          assert models[..i + 1][k] == models[k];
        }
      }
      if m.id !in fields {
        ids := ids + [m.id];
      }
      fields := fields[m.id := m.fields];
    }
    assert models[..|models|] == models;
  }

  /** The metadata loop: each entry addressed to a present object is
      stored under its key, later entries overwriting earlier ones. */
  method AddMetadata(meta0: map<int, map<string, string>>, metas: seq<Meta>)
    returns (meta: map<int, map<string, string>>)
    requires forall id :: id in meta0 ==> meta0[id] == map[]
    ensures meta.Keys == meta0.Keys
    ensures forall id :: id in meta ==> meta[id] == MetaFor(metas, id)
  {
    meta := meta0;
    assert metas[..0] == [];
    for k := 0 to |metas|
      invariant meta.Keys == meta0.Keys
      invariant forall id :: id in meta ==> meta[id] == MetaFor(metas[..k], id)
    {
      var mo := metas[k];
      MetaForStep(metas, k);
      var model := if mo.objectId in meta then Some(meta[mo.objectId]) else None;   // model_dict.get(...)
      if model.Some? {
        meta := meta[mo.objectId := model.value[mo.key := mo.value]];
      }
    }
    assert metas[..|metas|] == metas;
  }

  /** `for model in model_dict.values(): model['metadata'] = {}` */
  method EmptyMetadata(ids: seq<int>) returns (meta: map<int, map<string, string>>)
    ensures meta.Keys == set id | id in ids
    ensures forall id :: id in meta ==> meta[id] == map[]
  {
    meta := map[];
    for j := 0 to |ids|
      invariant meta.Keys == set id | id in ids[..j]
      invariant forall id :: id in meta ==> meta[id] == map[]
    {
      meta := meta[ids[j] := map[]];
    }
    assert ids[..|ids|] == ids;
  }

  /** `apply_metadata_to_model_list(model_list, metadata_list)`: one result
      per distinct model id, in first-occurrence order, each carrying the
      last model with that id and the metadata entries addressed to it. */
  method ApplyMetadataToModelList<F>(models: seq<Model<F>>, metas: seq<Meta>) returns (r: seq<Annotated<F>>)
    ensures r == Applied(models, metas)
  {
    var ids, fields := ModelDict(models);
    var meta := EmptyMetadata(ids);
    meta := AddMetadata(meta, metas);
    r := DictValues(ids, fields, meta);
    forall p | 0 <= p < |ids|
      ensures r[p] == Applied(models, metas)[p]
    {
      AppliedAt(models, metas, p);
      assert ids[p] in ids;
    }
  }

  /** `list(model_dict.values())`: the entries in key insertion order. */
  method DictValues<F>(ids: seq<int>, fields: map<int, F>, meta: map<int, map<string, string>>)
    returns (r: seq<Annotated<F>>)
    requires forall p :: 0 <= p < |ids| ==> ids[p] in fields && ids[p] in meta
    ensures |r| == |ids|
    ensures forall p :: 0 <= p < |ids| ==> r[p] == Annotated(fields[ids[p]], meta[ids[p]])
  {
    r := [];
    for i := 0 to |ids|
      invariant |r| == i
      invariant forall p :: 0 <= p < i ==> r[p] == Annotated(fields[ids[p]], meta[ids[p]])
    {
      r := r + [Annotated(fields[ids[i]], meta[ids[i]])];
    }
  }

  /** One element of `Applied`. */
  lemma AppliedAt<F>(models: seq<Model<F>>, metas: seq<Meta>, p: nat)
    requires p < |DistinctIds(models)|
    ensures |Applied(models, metas)| == |DistinctIds(models)|
    ensures DistinctIds(models)[p] in DistinctIds(models)
    ensures Applied(models, metas)[p] ==
      Annotated(models[LastIndex(models, DistinctIds(models)[p])].fields, MetaFor(metas, DistinctIds(models)[p]))
  {
  }

  /** A key of object `id`'s metadata holds the value of the last entry for
      that object and key: later entries win. */
  lemma {:induction false} LaterMetaWins(metas: seq<Meta>, id: int, i: nat)
    requires i < |metas| && metas[i].objectId == id
    requires forall j :: i < j < |metas| ==> !(metas[j].objectId == id && metas[j].key == metas[i].key)
    ensures metas[i].key in MetaFor(metas, id) && MetaFor(metas, id)[metas[i].key] == metas[i].value
  {
    var front := metas[..|metas| - 1];
    if i < |metas| - 1 {
      assert front[i] == metas[i];
      LaterMetaWins(front, id, i);
    }
  }

  /** Object `id`'s metadata has exactly the keys of the entries addressed to it. */
  lemma {:induction false} MetaForKeys(metas: seq<Meta>, id: int)
    ensures forall key :: key in MetaFor(metas, id) <==>
      exists j :: 0 <= j < |metas| && metas[j].objectId == id && metas[j].key == key
  {
    if |metas| > 0 {
      var front := metas[..|metas| - 1];
      MetaForKeys(front, id);
      assert forall j :: 0 <= j < |front| ==> front[j] == metas[j];
    }
  }

  /** A metadata entry whose object matches no model changes nothing. */
  lemma UnmatchedMetaIgnored<F>(models: seq<Model<F>>, metas: seq<Meta>, m: Meta)
    requires forall k :: 0 <= k < |models| ==> models[k].id != m.objectId
    ensures Applied(models, metas + [m]) == Applied(models, metas)
  {
    var ids := DistinctIds(models);
    forall i | 0 <= i < |ids|
      ensures MetaFor(metas + [m], ids[i]) == MetaFor(metas, ids[i])
    {
      assert ids[i] in ids;
      assert (metas + [m])[..|metas|] == metas;
    }
  }

  lemma {:induction false} DistinctCard(s: seq<int>)
    requires forall i, j :: 0 <= i < j < |s| ==> s[i] != s[j]
    ensures |set x | x in s| == |s|
  {
    if |s| > 0 {
      var front := s[..|s| - 1];
      DistinctCard(front);
      assert (set x | x in s) == (set x | x in front) + {s[|s| - 1]};
      assert s[|s| - 1] !in front;
    }
  }

  /** There are exactly as many results as distinct model ids. */
  lemma OneResultPerId<F>(models: seq<Model<F>>, metas: seq<Meta>)
    ensures |Applied(models, metas)| == |set k | 0 <= k < |models| :: models[k].id|
  {
    var ids := DistinctIds(models);
    DistinctCard(ids);
    assert (set k | 0 <= k < |models| :: models[k].id) == set x | x in ids;
  }
}
