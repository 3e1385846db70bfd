/** The older `BaseModelPydantic` (sanic-agent/core/model/base_model.py):
    the same dictionary-style access, but `update` assigns every key of its
    argument without a membership test, `from_data` is `cls(**data)`, and
    instances compare by their `dict()` snapshots. */
module LegacyBaseModel {
  import opened Wrappers
  import opened Pydantic
  import BaseModel

  /** Pydantic's `ValueError` for an assignment to a name that is not a
      field of the model. */
  function NoFieldMessage(className: string, name: string): string {
    "\"" + className + "\" object has no field \"" + name + "\""
  }

  /** The values after `update(data)` and how it ended: the pairs are
      assigned in order; the first key that is not a field makes pydantic's
      `setattr` raise, after the pairs before it were assigned. */
  function UnfilteredUpdate(values: Args, fields: seq<string>, className: string,
                            items: BaseModel.Items): (r: (Args, Outcome<string>))
    ensures forall k <- values :: k in r.0
    ensures forall k <- r.0 :: k in values || k in fields
    ensures forall k <- values :: k !in fields ==> r.0[k] == values[k]
    ensures r.1.Pass? <==> forall i :: 0 <= i < |items| ==> items[i].0 in fields
    ensures r.1.Fail? ==>
      exists i :: 0 <= i < |items| && items[i].0 !in fields && r.1 == Fail(NoFieldMessage(className, items[i].0))
    decreases |items|
  {
    if items == [] then (values, Pass)
    else
      var (key, value) := items[0];
      if key in fields then UnfilteredUpdate(values[key := value], fields, className, items[1..])
      else (values, Fail(NoFieldMessage(className, key)))
  }

  /** Assigning a field first and then the rest is the filtered update of
      the whole list, when that first key is a field. */
  lemma {:induction false} FilteredUpdateCons(values: Args, fields: seq<string>,
                                              items: BaseModel.Items)
    requires items != [] && items[0].0 in fields
    ensures BaseModel.FilteredUpdate(values, fields, items)
         == BaseModel.FilteredUpdate(values[items[0].0 := items[0].1], fields, items[1..])
    decreases |items|
  {
    if |items| > 1 {
      var init := items[..|items| - 1];
      FilteredUpdateCons(values, fields, init);
      assert init[1..] == items[1..][..|items[1..]| - 1];
      assert init[0] == items[0];
    }
  }

  /** The two `update` policies agree when every key is a field: the older
      one then completes and assigns what the newer one assigns. */
  lemma {:induction false} PoliciesAgreeOnFields(values: Args, fields: seq<string>,
                                                 className: string, items: BaseModel.Items)
    requires forall i :: 0 <= i < |items| ==> items[i].0 in fields
    ensures UnfilteredUpdate(values, fields, className, items)
         == (BaseModel.FilteredUpdate(values, fields, items), Pass)
    decreases |items|
  {
    if items != [] {
      PoliciesAgreeOnFields(values[items[0].0 := items[0].1], fields, className, items[1..]);
      FilteredUpdateCons(values, fields, items);
    }
  }

  /** When `items[j]` is the first key that is not a field, the older
      `update` raises for it, keeping the assignments of `items[..j]`. */
  lemma {:induction false} StopsAtFirstNonField(values: Args, fields: seq<string>,
                                                className: string, items: BaseModel.Items, j: nat)
    requires j < |items| && items[j].0 !in fields
    requires forall i :: 0 <= i < j ==> items[i].0 in fields
    ensures UnfilteredUpdate(values, fields, className, items)
         == (BaseModel.FilteredUpdate(values, fields, items[..j]),
             Fail(NoFieldMessage(className, items[j].0)))
    decreases j
  {
    if j > 0 {
      StopsAtFirstNonField(values[items[0].0 := items[0].1], fields, className, items[1..], j - 1);
      FilteredUpdateCons(values, fields, items[..j]);
      assert items[..j][1..] == items[1..][..j - 1];
    }
  }

  /** A `BaseModelPydantic` instance, or any other Python object, as the
      right operand of `==`. */
  datatype Operand = Model(record: LegacyRecord) | Other(value: Value)

  class LegacyRecord {
    /** The model class's name, used in error messages. */
    const className: string
    /** `__fields__` in declaration order. */
    const fields: seq<string>
    /** The current value of every field. */
    var values: Args

    ghost predicate Valid()
      reads this
    {
      BaseModel.Distinct(fields) && forall n :: n in values <==> n in fields
    }

    /** An instance whose fields hold `values` (the result of validation). */
    constructor (className: string, fields: seq<string>, values: Args)
      requires BaseModel.Distinct(fields) && forall n :: n in values <==> n in fields
      ensures Valid()
      ensures this.className == className && this.fields == fields && this.values == values
    {
      this.className := className;
      this.fields := fields;
      this.values := values;
    }

    /** `self.dict()`: every field and its value. */
    function Snapshot(): (r: Args)
      reads this
      ensures Valid() ==> (forall n :: n in r <==> n in Keys()) && forall n <- fields :: r[n] == values[n]
    {
      values
    }

    /** `self == other`: false for an operand that is not a model, otherwise
        their `dict()` snapshots are equal (whatever the classes). */
    predicate Equals(other: Operand): (r: bool)
      reads this, if other.Model? then {other.record} else {}
      ensures other.Other? ==> !r
      ensures other.Model? ==> (r <==>
        && (forall n :: n in values <==> n in other.record.values)
        && (forall n <- values :: values[n] == other.record.values[n]))
    {
      other.Model? && Snapshot() == other.record.Snapshot()
    }

    /** `self != other`. */
    predicate NotEquals(other: Operand): (r: bool)
      reads this, if other.Model? then {other.record} else {}
      ensures other.Other? ==> r
      ensures other.Model? ==> (r <==>
        exists n :: ((n in values) != (n in other.record.values)) || (n in values && values[n] != other.record.values[n]))
    {
      !Equals(other)
    }

    /** `==` is an equivalence on instances, `!=` its negation, and an
        instance never equals a non-model. */
    lemma EqualsIsEquivalence(b: LegacyRecord, c: LegacyRecord, v: Value)
      ensures Equals(Model(this))
      ensures Equals(Model(b)) <==> b.Equals(Model(this))
      ensures Equals(Model(b)) && b.Equals(Model(c)) ==> Equals(Model(c))
      ensures !Equals(Other(v)) && NotEquals(Other(v))
      ensures NotEquals(Model(b)) <==> !Equals(Model(b))
    {
    }

    /** Equal instances have the same field names and the same value in
        every field. */
    lemma EqualInstancesAgree(other: LegacyRecord)
      requires Valid() && other.Valid()
      requires Equals(Model(other))
      ensures forall n :: n in fields <==> n in other.fields
      ensures forall n <- fields :: values[n] == other.values[n]
    {
    }

    /** `obj[name]`: the field's value, or `KeyError` for a non-field. */
    function GetItem(name: string): (r: Result<Value, BaseModel.KeyError>)
      reads this
      requires Valid()
      ensures r.Failure? <==> name !in fields
      ensures r.Failure? ==> r.error == BaseModel.NotFound(name, className)
      ensures r.Success? ==> r.value == values[name]
    {
      if name !in fields then Failure(BaseModel.NotFound(name, className)) else Success(values[name])
    }

    /** `name in obj`: whether `keys()` lists the name. */
    predicate Contains(name: string): (r: bool)
      ensures r <==> name in Keys()
    {
      name in fields
    }

    /** `obj[name] = value`: `KeyError` and no change for a non-field;
        otherwise only that field changes, and reading it back gives `value`. */
    method SetItem(name: string, value: Value) returns (r: Outcome<BaseModel.KeyError>)
      requires Valid()
      modifies this
      ensures Valid()
      ensures name !in fields ==> r == Fail(BaseModel.NotFound(name, className)) && values == old(values)
      ensures name in fields ==> r == Pass && values == old(values)[name := value]
      ensures name in fields ==> GetItem(name) == Success(value)
    {
      if name !in fields {
        return Fail(BaseModel.NotFound(name, className));
      }
      values := values[name := value];
      r := Pass;
    }

    /** `update(data)`: `setattr` for every pair in order, with no
        membership test; pydantic raises at the first non-field. */
    method Update(items: BaseModel.Items) returns (r: Outcome<string>)
      requires Valid()
      modifies this
      ensures Valid()
      ensures (values, r) == UnfilteredUpdate(old(values), fields, className, items)
    {
      var i := 0;
      while i < |items|
        invariant 0 <= i <= |items|
        invariant forall n :: n in values <==> n in fields
        invariant UnfilteredUpdate(old(values), fields, className, items)
               == UnfilteredUpdate(values, fields, className, items[i..])
      {
        var (key, value) := items[i];
        assert items[i..][1..] == items[i + 1..];
        if key !in fields {
          return Fail(NoFieldMessage(className, key));
        }
        values := values[key := value];
        i := i + 1;
      }
      r := Pass;
    }

    /** `keys()`: the field names in declaration order. */
    function Keys(): (r: seq<string>)
      ensures r == fields
    {
      fields
    }

    /** `values()`: the field values in declaration order. */
    function Values(): (r: seq<Value>)
      reads this
      requires Valid()
      ensures |r| == |fields|
      ensures forall i :: 0 <= i < |r| ==> r[i] == values[fields[i]]
    {
      var vs := values;
      seq(|fields|, i requires 0 <= i < |fields| && fields[i] in vs => vs[fields[i]])
    }

    /** `items()`: the (name, value) pairs in declaration order. */
    function Items(): (r: BaseModel.Items)
      reads this
      requires Valid()
      ensures |r| == |fields|
      ensures forall i :: 0 <= i < |r| ==> r[i] == (fields[i], values[fields[i]])
    {
      var vs := values;
      seq(|fields|, i requires 0 <= i < |fields| && fields[i] in vs => (fields[i], vs[fields[i]]))
    }
  }

  /** `from_data(data)`: `cls(**data)`, pydantic's validation of the
      keyword arguments with the class's own field validators `hook`. */
  function FromData(schema: Schema, hook: BeforeHook, coerce: Coercer,
                    data: Args): (r: Result<Args, seq<ErrorDetail>>)
    requires schema.Valid()
    ensures r.Success? ==> forall n :: n in r.value <==> n in schema.names
    ensures r.Failure? ==> |r.error| > 0
    ensures r == BaseModel.FromData(schema, hook, coerce, Some(data))
  {
    Validate(schema, hook, coerce, data)
  }

  /** The demo's `TestModel` fields and the instance it updates. */
  const TestFields: seq<string> := ["Id", "Name", "Code", "Sec"]
  const DemoSec: Value := Dict(map["c" := Int(3), "d" := Int(4)])
  const DemoXyz: Value := List([Str("x"), Str("y"), Str("z")])
  const DemoInitial: Args := map["Id" := Int(2), "Name" := Str("test2"),
                                 "Code" := List([Str("a"), Str("b")]), "Sec" := DemoSec]
  const DemoItems: BaseModel.Items := [("Name", Str("updated")), ("Code", DemoXyz)]
  const DemoUpdated: Args := map["Id" := Int(2), "Name" := Str("updated"),
                                 "Code" := DemoXyz, "Sec" := DemoSec]
  /** `TestModel(Id=3)`: the class defaults for the other fields. */
  const DemoThird: Args := map["Id" := Int(3), "Name" := Str("test"),
                               "Code" := List([Str("a"), Str("b")]),
                               "Sec" := Dict(map["a" := Int(1), "b" := Int(2)])]

  /** The demo's `update` completes and gives the values of `test2`. */
  lemma DemoUpdateCompletes()
    ensures UnfilteredUpdate(DemoInitial, TestFields, "TestModel", DemoItems) == (DemoUpdated, Pass)
  {
    var after := DemoInitial["Name" := Str("updated")]["Code" := DemoXyz];
    assert after.Keys == DemoUpdated.Keys;
    assert after == DemoUpdated;
    assert "Name" in TestFields && "Code" in TestFields;
    var first := DemoInitial["Name" := Str("updated")];
    assert DemoItems[0] == ("Name", Str("updated")) && DemoItems[1] == ("Code", DemoXyz);
    assert DemoItems[1..][1..] == [];
    assert UnfilteredUpdate(after, TestFields, "TestModel", DemoItems[1..][1..]) == (after, Pass);
    assert UnfilteredUpdate(first, TestFields, "TestModel", DemoItems[1..]) == (after, Pass);
  }

  /** The demo's tables are keyed by exactly the `TestModel` fields. */
  lemma DemoTablesKeyed()
    ensures BaseModel.Distinct(TestFields)
    ensures forall n :: n in DemoInitial <==> n in TestFields
    ensures forall n :: n in DemoUpdated <==> n in TestFields
    ensures forall n :: n in DemoThird <==> n in TestFields
    ensures DemoUpdated["Id"] != DemoThird["Id"]
  {
  }

  /** The demo session: the instance with `Id=2, Name='test2'`, the default
      `Code` and `Sec={'c': 3, 'd': 4}` is updated with a new `Name` and
      `Code`; it then equals a fresh instance built with the same values,
      differs from `TestModel(Id=3)`, and `obj['Name'] = …` reads back. */
  method DemoSession() returns (same: bool, differs: bool, name: Value)
    ensures same && differs
    ensures name == Str("new name")
  {
    DemoTablesKeyed();
    var test := new LegacyRecord("TestModel", TestFields, DemoInitial);
    DemoUpdateCompletes();
    var updated := test.Update(DemoItems);
    var test2 := new LegacyRecord("TestModel", TestFields, DemoUpdated);
    var test3 := new LegacyRecord("TestModel", TestFields, DemoThird);
    same := test.Equals(Model(test2));
    assert test.values == DemoUpdated;
    differs := test.NotEquals(Model(test3));
    var stored := test.SetItem("Name", Str("new name"));
    var got := test.GetItem("Name");
    name := got.value;
  }
}
