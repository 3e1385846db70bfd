/** The part of pydantic that the models of this project stand on: dynamic
    values, field metadata, error records, and pydantic's own field-by-field
    validation of a model. The type coercion itself is foreign and is given
    as a parameter (`Coercer`); so is the "before" field validator that a
    model class may hook in (`BeforeHook`). */
module Pydantic {
  import opened Wrappers

  /** A dynamic Python value. `Null` is Python's `None`; `Undefined` is
      pydantic's `PydanticUndefined` sentinel (the default of a required
      field), which is distinct from it. */
  datatype Value =
    | Undefined
    | Null
    | Bool(b: bool)
    | Int(i: int)
    | Str(s: string)
    | List(items: seq<Value>)
    | Dict(entries: map<string, Value>)

  /** A keyword-argument dictionary or a dictionary of field values. */
  type Args = map<string, Value>

  /** Python truthiness: `not value` holds exactly for these values. */
  predicate Falsy(v: Value) {
    match v
    case Undefined => false
    case Null => true
    case Bool(b) => !b
    case Int(i) => i == 0
    case Str(s) => s == ""
    case List(items) => items == []
    case Dict(entries) => entries == map[]
  }

  /** The metadata of one declared field. `default` is `Undefined` for a
      required field and `Null` for a field declared with `default=None`.
      The three other parts are the entries the model reads from
      `json_schema_extra`: the validator name, its per-field arguments
      (`None` when the key is absent) and the custom messages keyed by
      error type (empty when the key is absent). */
  datatype FieldInfo = FieldInfo(
    default: Value,
    validator: Option<string>,
    validatorArgs: Option<Args>,
    errorMessages: map<string, string>)

  /** A model's fields in declaration order (`model_fields`). */
  datatype Schema = Schema(names: seq<string>, info: map<string, FieldInfo>) {
    predicate Valid() {
      && (forall i, j :: 0 <= i < j < |names| ==> names[i] != names[j])
      && (forall n <- info :: n in names)
      && (forall n <- names :: n in info)
    }
  }

  /** One element of an error location: a field name or a list index. */
  datatype LocItem = Key(key: string) | Index(index: int)

  /** Pydantic's `ErrorDetails`: location, message, error type, the optional
      context and the optional offending input. */
  datatype ErrorDetail = ErrorDetail(
    loc: seq<LocItem>,
    msg: string,
    kind: string,
    ctx: Option<Args>,
    input: Option<Value>)

  /** What a failing validator reports: never an empty list. */
  type ErrorList = es: seq<ErrorDetail> | |es| > 0
    witness [ErrorDetail([], "", "", None, None)]

  /** Pydantic's coercion of a value to the declared type of a field (given
      by name); error locations are relative to the field. */
  type Coercer = (string, Value) -> Result<Value, ErrorList>

  /** A "before" field validator: runs on the raw value of a field and
      returns a value, or raises `ValueError` with a message. */
  type BeforeHook = (FieldInfo, Value) -> Result<Value, string>

  /** The hook of a model class that declares no field validator. */
  function NoHook(): BeforeHook {
    (f: FieldInfo, v: Value) => Success(v)
  }

  /** The error pydantic records when a field validator raises `ValueError`. */
  function ValueErrorDetail(name: string, message: string, input: Value): ErrorDetail {
    ErrorDetail([Key(name)], "Value error, " + message, "value_error",
      Some(map["error" := Str(message)]), Some(input))
  }

  /** The error pydantic records for a required field that is absent. */
  function MissingDetail(name: string, input: Args): ErrorDetail {
    ErrorDetail([Key(name)], "Field required", "missing", None, Some(Dict(input)))
  }

  /** Puts the field name in front of every location of a coercion error. */
  function Located(name: string, es: seq<ErrorDetail>): (r: seq<ErrorDetail>)
    ensures |r| == |es|
    ensures forall i :: 0 <= i < |r| ==>
      r[i] == es[i].(loc := [Key(name)] + es[i].loc)
  {
    seq(|es|, i requires 0 <= i < |es| => es[i].(loc := [Key(name)] + es[i].loc))
  }

  /** The errors located at field `name` (first location element). */
  predicate AtField(e: ErrorDetail, name: string) {
    |e.loc| > 0 && e.loc[0] == Key(name)
  }

  /** Validation of one field of an input dictionary: a present value goes
      through the hook and then the coercer; an absent one takes the
      field's default without validation, or is reported missing when the
      field is required. */
  function ValidateField(schema: Schema, hook: BeforeHook, coerce: Coercer,
                         input: Args, name: string): (r: Result<Value, ErrorList>)
    requires name in schema.info
    ensures r.Failure? ==> forall e <- r.error :: AtField(e, name)
    ensures name !in input ==>
      r == if schema.info[name].default == Undefined
           then Failure([MissingDetail(name, input)])
           else Success(schema.info[name].default)
  {
    if name in input then
      var v := input[name];
      match hook(schema.info[name], v)
      case Failure(m) => Failure([ValueErrorDetail(name, m, v)])
      case Success(v') =>
        match coerce(name, v')
        case Success(c) => Success(c)
        case Failure(es) => Failure(Located(name, es))
    else if schema.info[name].default == Undefined then
      Failure([MissingDetail(name, input)])
    else
      Success(schema.info[name].default)
  }

  /** Pydantic validates every field of `names` in order and collects all
      errors instead of stopping at the first: the validated values of the
      fields that passed and the concatenated errors of those that failed. */
  function ValidateFields(schema: Schema, hook: BeforeHook, coerce: Coercer,
                          input: Args, names: seq<string>): (r: (Args, seq<ErrorDetail>))
    requires forall n <- names :: n in schema.info
    ensures forall n <- r.0 :: n in names
    ensures forall n <- names ::
      match ValidateField(schema, hook, coerce, input, n)
      case Success(v) => n in r.0 && r.0[n] == v
      case Failure(es) => n !in r.0 && forall e <- es :: e in r.1
    ensures forall e <- r.1 :: exists n <- names :: AtField(e, n)
    ensures forall e <- r.1 :: exists n <- names ::
      ValidateField(schema, hook, coerce, input, n).Failure? &&
      e in ValidateField(schema, hook, coerce, input, n).error
    ensures r.1 == [] <==>
      forall n <- names :: ValidateField(schema, hook, coerce, input, n).Success?
    decreases |names|
  {
    if names == [] then (map[], [])
    else
      var n := names[|names| - 1];
      var prefix := names[..|names| - 1];
      assert forall m <- names :: m in prefix || m == n;
      var (vals, errs) := ValidateFields(schema, hook, coerce, input, prefix);
      match ValidateField(schema, hook, coerce, input, n)
      case Success(v) => (vals[n := v], errs)
      case Failure(es) => (vals - {n}, errs + es)
  }

  /** The outcome of validating a whole model: its field values, or the
      non-empty list of every field error (a `ValidationError`). */
  function Validate(schema: Schema, hook: BeforeHook, coerce: Coercer,
                    input: Args): (r: Result<Args, seq<ErrorDetail>>)
    requires schema.Valid()
    ensures r.Success? <==>
      forall n <- schema.names :: ValidateField(schema, hook, coerce, input, n).Success?
    ensures r.Success? ==>
      && (forall n :: n in r.value <==> n in schema.names)
      && (forall n <- schema.names :: Success(r.value[n]) == ValidateField(schema, hook, coerce, input, n))
    ensures r.Failure? ==>
      && |r.error| > 0
      && (forall e <- r.error :: exists n <- schema.names :: AtField(e, n))
      && (forall e <- r.error :: exists n <- schema.names ::
            ValidateField(schema, hook, coerce, input, n).Failure? &&
            e in ValidateField(schema, hook, coerce, input, n).error)
      && (forall n <- schema.names :: ValidateField(schema, hook, coerce, input, n).Failure? ==>
            forall e <- ValidateField(schema, hook, coerce, input, n).error :: e in r.error)
  {
    var (vals, errs) := ValidateFields(schema, hook, coerce, input, schema.names);
    if errs == [] then Success(vals) else Failure(errs)
  }

  /** A model with one field: its validation is that field's. */
  lemma ValidateOneField(schema: Schema, hook: BeforeHook, coerce: Coercer, input: Args)
    requires schema.Valid() && |schema.names| == 1
    ensures Validate(schema, hook, coerce, input) ==
      match ValidateField(schema, hook, coerce, input, schema.names[0])
      case Success(v) => Success(map[schema.names[0] := v])
      case Failure(es) => Failure(es)
  {
    var a := schema.names[0];
    assert schema.names[..0] == [];
    var ra := ValidateField(schema, hook, coerce, input, a);
    var all := ValidateFields(schema, hook, coerce, input, schema.names);
    if ra.Failure? {
      assert [] + ra.error == ra.error;
      assert all.1 == ra.error;
    } else {
      assert all == (map[a := ra.value], []);
    }
  }

  /** A model with two fields: the values of both, or the errors of the
      first failing field followed by those of the second. */
  lemma ValidateTwoFields(schema: Schema, hook: BeforeHook, coerce: Coercer, input: Args)
    requires schema.Valid() && |schema.names| == 2
    ensures
      var a := schema.names[0];
      var b := schema.names[1];
      var ra := ValidateField(schema, hook, coerce, input, a);
      var rb := ValidateField(schema, hook, coerce, input, b);
      Validate(schema, hook, coerce, input) ==
        if ra.Success? && rb.Success? then Success(map[a := ra.value, b := rb.value])
        else Failure((if ra.Failure? then ra.error else []) + (if rb.Failure? then rb.error else []))
  {
    var a := schema.names[0];
    var b := schema.names[1];
    assert schema.names[..1] == [a];
    assert [a][..0] == [];
    var first := ValidateFields(schema, hook, coerce, input, [a]);
    var ra := ValidateField(schema, hook, coerce, input, a);
    assert first == if ra.Success? then (map[a := ra.value], []) else (map[] - {a}, [] + ra.error);
    var both := ValidateFields(schema, hook, coerce, input, schema.names);
    var rb := ValidateField(schema, hook, coerce, input, b);
    assert both == if rb.Success? then (first.0[b := rb.value], first.1)
                   else (first.0 - {b}, first.1 + rb.error);
    if ra.Failure? {
      assert first.1 == ra.error;
      assert ra.error + [] == ra.error;
      assert |both.1| > 0;
    } else if rb.Failure? {
      assert both.1 == rb.error;
    } else {
      assert both.1 == [];
    }
  }
}
