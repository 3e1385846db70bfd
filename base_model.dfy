/** `BaseModelPydantic` (sanic_agent/core/model/base_model.py): a pydantic
    model instance with dictionary-style access. The instance is a fixed,
    ordered table of field names (`model_fields`) and a map from each field
    to its current value. */
module BaseModel {
  import opened Wrappers
  import opened Pydantic

  /** The `KeyError` raised for a name that is not a field. */
  datatype KeyError = KeyError(message: string)

  function NotFound(name: string, className: string): KeyError {
    KeyError("Field '" + name + "' not found in " + className)
  }

  predicate Distinct(names: seq<string>) {
    forall i, j :: 0 <= i < j < |names| ==> names[i] != names[j]
  }

  /** `data.items()` of a dictionary: its pairs in iteration order. */
  type Items = seq<(string, Value)>

  /** The value of the last pair with key `k` (the only one, in a dictionary). */
  function LastValue(items: Items, k: string): (r: Option<Value>)
    ensures r.Some? <==> exists i :: 0 <= i < |items| && items[i].0 == k
    ensures r.Some? ==> exists i :: 0 <= i < |items| && items[i] == (k, r.value)
    decreases |items|
  {
    if items == [] then None
    else if items[|items| - 1].0 == k then Some(items[|items| - 1].1)
    else
      var r := LastValue(items[..|items| - 1], k);
      assert forall i :: 0 <= i < |items| - 1 ==> items[..|items| - 1][i] == items[i];
      r
  }

  /** The values after `update(data)`: each pair, in order, is assigned
      when its key is a field and skipped otherwise. */
  function FilteredUpdate(values: Args, fields: seq<string>, items: Items): (r: Args)
    ensures forall k <- values :: k in r
    ensures forall k <- r :: k in values || k in fields
    ensures forall k <- values :: k !in fields ==> r[k] == values[k]
    decreases |items|
  {
    if items == [] then values
    else
      var (key, value) := items[|items| - 1];
      var before := FilteredUpdate(values, fields, items[..|items| - 1]);
      if key in fields then before[key := value] else before
  }

  /** `update` sets exactly the keys of `data` that are fields, to the value
      `data` gives them, and leaves every other entry as it was. */
  lemma {:induction false} FilteredUpdateAt(values: Args, fields: seq<string>, items: Items, k: string)
    ensures k in FilteredUpdate(values, fields, items) <==>
      k in values || (k in fields && LastValue(items, k).Some?)
    ensures k in fields && LastValue(items, k).Some? ==>
      FilteredUpdate(values, fields, items)[k] == LastValue(items, k).value
    ensures (k !in fields || LastValue(items, k).None?) && k in values ==>
      FilteredUpdate(values, fields, items)[k] == values[k]
    decreases |items|
  {
    if items != [] {
      FilteredUpdateAt(values, fields, items[..|items| - 1], k);
    }
  }

  /** Applying `update` to a value table keeps its keys equal to the fields. */
  lemma FilteredUpdateKeepsKeys(values: Args, fields: seq<string>, items: Items)
    requires forall n :: n in values <==> n in fields
    ensures forall n :: n in FilteredUpdate(values, fields, items) <==> n in fields
  {
    forall n ensures n in FilteredUpdate(values, fields, items) <==> n in fields {
      FilteredUpdateAt(values, fields, items, n);
    }
  }

  class Record {
    /** The model class's name, used in the `KeyError` message. */
    const className: string
    /** `model_fields` in declaration order. */
    const fields: seq<string>
    /** The current value of every field. */
    var values: Args

    ghost predicate Valid()
      reads this
    {
      Distinct(fields) && forall n :: n in values <==> n in fields
    }

    /** An instance whose fields hold `values` (the result of validation). */
    constructor (className: string, fields: seq<string>, values: Args)
      requires Distinct(fields) && forall n :: n in values <==> n in fields
      ensures Valid()
      ensures this.className == className && this.fields == fields && this.values == values
    {
      this.className := className;
      this.fields := fields;
      this.values := values;
    }

    /** `name in obj`: whether `keys()` lists the name. */
    predicate Contains(name: string): (r: bool)
      ensures r <==> name in Keys()
    {
      name in fields
    }

    /** `obj[name]`: the field's value, or `KeyError` for a non-field. */
    function GetItem(name: string): (r: Result<Value, KeyError>)
      reads this
      requires Valid()
      ensures r.Failure? <==> !Contains(name)
      ensures r.Failure? ==> r.error == NotFound(name, className)
      ensures r.Success? ==> r.value == values[name]
    {
      if name !in fields then Failure(NotFound(name, className)) else Success(values[name])
    }

    /** `obj[name] = value`: `KeyError` and no change for a non-field;
        otherwise only that field changes, and reading it back gives `value`. */
    method SetItem(name: string, value: Value) returns (r: Outcome<KeyError>)
      requires Valid()
      modifies this
      ensures Valid()
      ensures !Contains(name) ==> r == Fail(NotFound(name, className)) && values == old(values)
      ensures Contains(name) ==> r == Pass && values == old(values)[name := value]
      ensures Contains(name) ==> GetItem(name) == Success(value)
    {
      if name !in fields {
        return Fail(NotFound(name, className));
      }
      values := values[name := value];
      r := Pass;
    }

    /** `update(data)`: the loop over `data.items()` that assigns the keys
        that are fields. */
    method Update(items: Items)
      requires Valid()
      modifies this
      ensures Valid()
      ensures values == FilteredUpdate(old(values), fields, items)
      ensures forall k <- fields :: LastValue(items, k).Some? ==> values[k] == LastValue(items, k).value
      ensures forall k <- fields :: LastValue(items, k).None? ==> values[k] == old(values)[k]
    {
      var i := 0;
      while i < |items|
        invariant 0 <= i <= |items|
        invariant values == FilteredUpdate(old(values), fields, items[..i])
      {
        var (key, value) := items[i];
        assert items[..i + 1][..i] == items[..i];
        if key in fields {
          values := values[key := value];
        }
        i := i + 1;
      }
      assert items[..i] == items;
      FilteredUpdateKeepsKeys(old(values), fields, items);
      forall k <- fields
        ensures LastValue(items, k).Some? ==> values[k] == LastValue(items, k).value
        ensures LastValue(items, k).None? ==> values[k] == old(values)[k]
      {
        FilteredUpdateAt(old(values), fields, items, k);
      }
    }

    /** `keys()`: the field names in declaration order. */
    function Keys(): (r: seq<string>)
      ensures r == fields
    {
      fields
    }

    /** `values()`: the field values in declaration order. */
    function Values(): (r: seq<Value>)
      reads this
      requires Valid()
      ensures |r| == |fields|
      ensures forall i :: 0 <= i < |r| ==> r[i] == values[fields[i]]
    {
      var vs := values;
      seq(|fields|, i requires 0 <= i < |fields| && fields[i] in vs => vs[fields[i]])
    }

    /** `items()`: the (name, value) pairs in declaration order. */
    function Items(): (r: Items)
      reads this
      requires Valid()
      ensures |r| == |fields|
      ensures forall i :: 0 <= i < |r| ==> r[i] == (fields[i], values[fields[i]])
    {
      var vs := values;
      seq(|fields|, i requires 0 <= i < |fields| && fields[i] in vs => (fields[i], vs[fields[i]]))
    }

    /** `items()` is `keys()` zipped with `values()`, and as a dictionary it is
        exactly the instance's field table. */
    lemma ItemsAreZipAndSnapshot()
      requires Valid()
      ensures |Items()| == |Keys()| == |Values()|
      ensures forall i :: 0 <= i < |Items()| ==> Items()[i] == (Keys()[i], Values()[i])
      ensures forall k, v :: (k, v) in Items() <==> k in values && values[k] == v
      ensures Distinct(Keys())
    {
      var items := Items();
      forall k, v ensures (k, v) in items <==> k in values && values[k] == v {
        if k in values && values[k] == v {
          var i :| 0 <= i < |fields| && fields[i] == k;
          assert items[i] == (k, v);
        }
      }
    }
  }

  /** `from_data(data)` on a plain `BaseModelPydantic` subclass:
      `model_validate(data or {})`, validated with the class's own field
      validators `hook` (none in this class). */
  function FromData(schema: Schema, hook: BeforeHook, coerce: Coercer,
                    data: Option<Args>): (r: Result<Args, seq<ErrorDetail>>)
    requires schema.Valid()
    ensures data.None? ==> r == Validate(schema, hook, coerce, map[])
    ensures data.Some? ==> r == Validate(schema, hook, coerce, data.value)
  {
    Validate(schema, hook, coerce, if data.Some? then data.value else map[])
  }

  /** Round trip: the field table of a valid instance, fed back to
      `from_data`, rebuilds the same table when coercion keeps each value. */
  lemma FromDataRoundTrip(schema: Schema, coerce: Coercer, values: Args)
    requires schema.Valid()
    requires forall n :: n in values <==> n in schema.names
    requires forall n <- values :: coerce(n, values[n]) == Success(values[n])
    ensures FromData(schema, NoHook(), coerce, Some(values)) == Success(values)
  {
    var hook := NoHook();
    forall n <- schema.names
      ensures ValidateField(schema, hook, coerce, values, n).Success?
      ensures ValidateField(schema, hook, coerce, values, n).value == values[n]
    {
      assert hook(schema.info[n], values[n]) == Success(values[n]);
    }
    var r := Validate(schema, hook, coerce, values);
    assert r.Success?;
    forall n | n in values ensures n in r.value && r.value[n] == values[n] {
      assert Success(r.value[n]) == ValidateField(schema, hook, coerce, values, n);
    }
    assert r.value == values;
  }
}
