/** `ParseModel` (sanic_agent/rest/httpx/request.py): a pydantic model base
    class with a process-wide registry of named validators, a constructor
    that fills defaults before validation, a "before" validator run on every
    field that dispatches to the registered validator named in the field's
    metadata, and an error translator that substitutes per-field custom
    messages into pydantic's error list. */
module ParseModel {
  import opened Wrappers
  import opened Pydantic

  /** A registered validator: called with the value and the merged keyword
      arguments; returns the (possibly transformed) value or raises
      `ValueError` with a message. */
  type ValidatorFn = (Value, Args) -> Result<Value, string>

  /** A registry entry: the validator and its default keyword arguments. */
  datatype Entry = Entry(validator: ValidatorFn, defaultArgs: Args)

  /** The class-level `_validators_registry` dictionary. */
  class ValidatorRegistry {
    var entries: map<string, Entry>

    constructor ()
      ensures entries == map[]
    {
      entries := map[];
    }

    /** `register_validator(name, validator, **kwargs)`: stores the pair
        under `name`, replacing any earlier entry of that name. */
    method Register(name: string, validator: ValidatorFn, kwargs: Args)
      modifies this
      ensures name in entries && entries[name] == Entry(validator, kwargs)
      ensures forall n :: n != name ==>
        (n in entries <==> n in old(entries)) &&
        (n in entries ==> entries[n] == old(entries)[n])
    {
      entries := entries[name := Entry(validator, kwargs)];
    }
  }

  /** The field's `validator_args`, or `{}` when the key is absent. */
  function ExtraArgs(info: FieldInfo): (r: Args)
    ensures info.validatorArgs.None? ==> r == map[]
    ensures info.validatorArgs.Some? ==> r == info.validatorArgs.value
  {
    match info.validatorArgs
    case None => map[]
    case Some(args) => args
  }

  /** `{**default_args, **extra_args}`: every default argument, overridden
      by the per-field ones. */
  function MergeArgs(defaultArgs: Args, extraArgs: Args): (r: Args)
    ensures forall k :: k in r <==> k in defaultArgs || k in extraArgs
    ensures forall k <- extraArgs :: r[k] == extraArgs[k]
    ensures forall k <- defaultArgs :: k !in extraArgs ==> r[k] == defaultArgs[k]
    ensures extraArgs == map[] ==> r == defaultArgs
  {
    defaultArgs + extraArgs
  }

  /** `apply_custom_validators`: the "before" validator pydantic runs on the
      raw value of every field. */
  function ApplyCustomValidators(registry: map<string, Entry>, info: FieldInfo,
                                 value: Value): (r: Result<Value, string>)
    ensures info.validator.None? ==> r == Success(value)
    ensures info.validator.Some? && info.validator.value !in registry ==> r == Success(value)
    ensures value.Undefined? || value.Null? ==> r == Success(value)
    ensures info.validator.Some? && info.validator.value in registry &&
            !value.Undefined? && !value.Null? ==>
      var entry := registry[info.validator.value];
      r == entry.validator(value, MergeArgs(entry.defaultArgs, ExtraArgs(info)))
  {
    if info.validator.Some? then
      var name := info.validator.value;
      var extra := ExtraArgs(info);
      if name in registry then
        var entry := registry[name];
        var combined := MergeArgs(entry.defaultArgs, extra);
        if value.Undefined? || value.Null? then Success(value)
        else entry.validator(value, combined)
      else Success(value)
    else Success(value)
  }

  /** The dispatcher as the hook pydantic calls for every field. */
  function Hook(registry: map<string, Entry>): (h: BeforeHook)
    ensures forall f, v :: h(f, v) == ApplyCustomValidators(registry, f, v)
  {
    (f: FieldInfo, v: Value) => ApplyCustomValidators(registry, f, v)
  }

  /** The keyword arguments `__init__` passes on after its default fill:
      given keys are kept; every absent field whose default is not `None`
      gets it (the `Undefined` sentinel of a required field included);
      absent fields declared `default=None` stay absent; nothing else is
      added. */
  function DefaultFilled(schema: Schema, kwargs: Args): (r: Args)
    requires schema.Valid()
    ensures forall n <- kwargs :: n in r && r[n] == kwargs[n]
    ensures forall n <- schema.names :: n !in kwargs && schema.info[n].default != Null ==>
      n in r && r[n] == schema.info[n].default
    ensures forall n <- schema.names :: n !in kwargs && schema.info[n].default == Null ==>
      n !in r
    ensures forall n <- r :: n in kwargs || n in schema.names
  {
    kwargs + map n | n in schema.info && n !in kwargs && schema.info[n].default != Null
                   :: schema.info[n].default
  }

  /** When every field is given, the default fill adds nothing. */
  lemma CompleteInputUnfilled(schema: Schema, kwargs: Args)
    requires schema.Valid()
    requires forall n <- schema.names :: n in kwargs
    ensures DefaultFilled(schema, kwargs) == kwargs
  {
    var r := DefaultFilled(schema, kwargs);
    assert r.Keys == kwargs.Keys;
  }

  /** A table that has the keys and values the fill describes is the fill. */
  lemma FillCharacterized(schema: Schema, kwargs: Args, filled: Args)
    requires schema.Valid()
    requires forall n :: n in filled <==> n in kwargs || (n in schema.names && schema.info[n].default != Null)
    requires forall n <- filled :: filled[n] == (if n in kwargs then kwargs[n] else schema.info[n].default)
    ensures filled == DefaultFilled(schema, kwargs)
  {
    var r := DefaultFilled(schema, kwargs);
    assert forall n :: n in filled <==> n in r;
    assert forall n <- filled :: filled[n] == r[n];
  }

  /** The loop of `__init__` over `model_fields`, writing into `kwargs`. */
  method FillDefaults(schema: Schema, kwargs: Args) returns (filled: Args)
    requires schema.Valid()
    ensures filled == DefaultFilled(schema, kwargs)
  {
    filled := kwargs;
    var i := 0;
    while i < |schema.names|
      invariant 0 <= i <= |schema.names|
      invariant forall n :: n in filled <==>
        n in kwargs || (n in schema.names[..i] && schema.info[n].default != Null)
      invariant forall n <- filled ::
        filled[n] == (if n in kwargs then kwargs[n] else schema.info[n].default)
    {
      var name := schema.names[i];
      if name !in filled {
        var info := schema.info[name];
        if info.default != Null {
          filled := filled[name := info.default];
        }
      }
      assert schema.names[..i + 1] == schema.names[..i] + [name];
      i := i + 1;
    }
    assert schema.names[..i] == schema.names;
    FillCharacterized(schema, kwargs, filled);
  }

  /** The field an error is charged to: the first location element, or the
      field name "unknown" when the location is empty. */
  function FieldKey(e: ErrorDetail): (k: LocItem)
    ensures |e.loc| > 0 ==> k == e.loc[0]
    ensures |e.loc| == 0 ==> k == Key("unknown")
  {
    if |e.loc| > 0 then e.loc[0] else Key("unknown")
  }

  /** The entry of the charged field's `error_messages` table for the
      error's type, if there is one. */
  function CustomMessage(schema: Schema, e: ErrorDetail): (r: Option<string>)
    ensures r.Some? <==>
      FieldKey(e).Key? && FieldKey(e).key in schema.info &&
      e.kind in schema.info[FieldKey(e).key].errorMessages
    ensures r.Some? ==> r.value == schema.info[FieldKey(e).key].errorMessages[e.kind]
  {
    var k := FieldKey(e);
    if k.Key? && k.key in schema.info && e.kind in schema.info[k.key].errorMessages
    then Some(schema.info[k.key].errorMessages[e.kind])
    else None
  }

  /** One step of `customize_errors`: with a non-empty custom message the
      error is rebuilt from its location, the message, its type and its
      context (`{}` when it has none), dropping its input; otherwise (no
      entry, or an empty message) it is kept as it is. */
  function CustomizeError(schema: Schema, e: ErrorDetail): (r: ErrorDetail)
    ensures r.loc == e.loc && r.kind == e.kind
    ensures CustomMessage(schema, e).Some? && CustomMessage(schema, e).value != "" ==>
      && r.msg == CustomMessage(schema, e).value
      && r.ctx == Some(if e.ctx.Some? then e.ctx.value else map[])
      && r.input == None
    ensures CustomMessage(schema, e).None? || CustomMessage(schema, e) == Some("") ==>
      r == e
  {
    var m := CustomMessage(schema, e);
    if m.Some? && m.value != "" then
      ErrorDetail(e.loc, m.value, e.kind, Some(if e.ctx.Some? then e.ctx.value else map[]), None)
    else e
  }

  /** The list `customize_errors` returns: element by element. */
  function Customized(schema: Schema, errors: seq<ErrorDetail>): (r: seq<ErrorDetail>)
    ensures |r| == |errors|
    ensures forall i :: 0 <= i < |r| ==> r[i] == CustomizeError(schema, errors[i])
  {
    seq(|errors|, i requires 0 <= i < |errors| => CustomizeError(schema, errors[i]))
  }

  /** `customize_errors`: the loop appending to `custom_errors`. */
  method CustomizeErrors(schema: Schema, errors: seq<ErrorDetail>) returns (custom: seq<ErrorDetail>)
    ensures custom == Customized(schema, errors)
  {
    custom := [];
    var i := 0;
    while i < |errors|
      invariant 0 <= i <= |errors|
      invariant |custom| == i
      invariant forall j :: 0 <= j < i ==> custom[j] == CustomizeError(schema, errors[j])
    {
      var error := errors[i];
      var k := if |error.loc| > 0 then error.loc[0] else Key("unknown");
      var customMessage: Option<string> := None;
      if k.Key? && k.key in schema.info {
        var messages := schema.info[k.key].errorMessages;
        if error.kind in messages {
          customMessage := Some(messages[error.kind]);
        }
      }
      if customMessage.Some? && customMessage.value != "" {
        var ctx := if error.ctx.Some? then error.ctx.value else map[];
        custom := custom + [ErrorDetail(error.loc, customMessage.value, error.kind, Some(ctx), None)];
      } else {
        custom := custom + [error];
      }
      i := i + 1;
    }
  }

  /** `ParseModel.model_validate` on a dictionary: pydantic calls the custom
      `__init__`, which fills the defaults; the fields are then validated
      with the dispatcher as their before-validator; a `ValidationError` is
      re-raised with the customized error list. */
  function ModelValidate(schema: Schema, registry: map<string, Entry>, coerce: Coercer,
                         obj: Args): (r: Result<Args, seq<ErrorDetail>>)
    requires schema.Valid()
    ensures r.Success? ==> forall n :: n in r.value <==> n in schema.names
    ensures r.Failure? ==>
      && |r.error| > 0
      && forall e <- r.error :: exists n <- schema.names :: AtField(e, n)
    ensures var raw := Validate(schema, Hook(registry), coerce, DefaultFilled(schema, obj));
      && (r.Success? <==> raw.Success?)
      && (r.Success? ==> r.value == raw.value)
      && (r.Failure? ==> r.error == Customized(schema, raw.error))
  {
    match Validate(schema, Hook(registry), coerce, DefaultFilled(schema, obj))
    case Success(values) => Success(values)
    case Failure(errors) =>
      var custom := Customized(schema, errors);
      assert forall e <- custom :: exists d <- errors :: d.loc == e.loc by {
        forall e <- custom ensures exists d <- errors :: d.loc == e.loc {
          var i :| 0 <= i < |custom| && custom[i] == e;
          assert errors[i].loc == e.loc;
        }
      }
      Failure(custom)
  }

  /** A model whose fields declare no `error_messages` reports pydantic's
      own errors unchanged. */
  lemma PlainErrorsWithoutMessages(schema: Schema, registry: map<string, Entry>, coerce: Coercer,
                                   obj: Args)
    requires schema.Valid()
    requires forall n <- schema.names :: schema.info[n].errorMessages == map[]
    ensures ModelValidate(schema, registry, coerce, obj)
         == Validate(schema, Hook(registry), coerce, DefaultFilled(schema, obj))
  {
    var v := Validate(schema, Hook(registry), coerce, DefaultFilled(schema, obj));
    if v.Failure? {
      var custom := Customized(schema, v.error);
      forall i | 0 <= i < |custom| ensures custom[i] == v.error[i] {
        assert CustomMessage(schema, v.error[i]).None?;
      }
      assert custom == v.error;
    }
  }

  /** `model_validate` of a one-field model without `error_messages`: the
      field's value, or its errors. */
  lemma ModelOfOneField(schema: Schema, registry: map<string, Entry>, coerce: Coercer,
                        obj: Args, filled: Args)
    requires schema.Valid() && |schema.names| == 1
    requires forall n <- schema.names :: schema.info[n].errorMessages == map[]
    requires DefaultFilled(schema, obj) == filled
    ensures ModelValidate(schema, registry, coerce, obj) ==
      match ValidateField(schema, Hook(registry), coerce, filled, schema.names[0])
      case Success(v) => Success(map[schema.names[0] := v])
      case Failure(es) => Failure(es)
  {
    PlainErrorsWithoutMessages(schema, registry, coerce, obj);
    ValidateOneField(schema, Hook(registry), coerce, filled);
  }

  /** `model_validate` of a two-field model without `error_messages`: both
      values, or the errors of the first field followed by the second's. */
  lemma ModelOfTwoFields(schema: Schema, registry: map<string, Entry>, coerce: Coercer,
                         obj: Args, filled: Args)
    requires schema.Valid() && |schema.names| == 2
    requires forall n <- schema.names :: schema.info[n].errorMessages == map[]
    requires DefaultFilled(schema, obj) == filled
    ensures
      var a := schema.names[0];
      var b := schema.names[1];
      var ra := ValidateField(schema, Hook(registry), coerce, filled, a);
      var rb := ValidateField(schema, Hook(registry), coerce, filled, b);
      ModelValidate(schema, registry, coerce, obj) ==
        if ra.Success? && rb.Success? then Success(map[a := ra.value, b := rb.value])
        else Failure((if ra.Failure? then ra.error else []) + (if rb.Failure? then rb.error else []))
  {
    PlainErrorsWithoutMessages(schema, registry, coerce, obj);
    ValidateTwoFields(schema, Hook(registry), coerce, filled);
  }

  /** `from_data(data)` on a `ParseModel` subclass: `model_validate(data or {})`. */
  function FromData(schema: Schema, registry: map<string, Entry>, coerce: Coercer,
                    data: Option<Args>): (r: Result<Args, seq<ErrorDetail>>)
    requires schema.Valid()
    ensures data.None? ==> r == ModelValidate(schema, registry, coerce, map[])
    ensures data.Some? ==> r == ModelValidate(schema, registry, coerce, data.value)
  {
    ModelValidate(schema, registry, coerce, if data.Some? then data.value else map[])
  }

  /** Customizing twice changes nothing more: a rewritten error keeps the
      location and type that selected its message. */
  lemma CustomizeIdempotent(schema: Schema, e: ErrorDetail)
    ensures CustomizeError(schema, CustomizeError(schema, e)) == CustomizeError(schema, e)
  {
    var r := CustomizeError(schema, e);
    assert FieldKey(r) == FieldKey(e);
    assert CustomMessage(schema, r) == CustomMessage(schema, e);
  }

  /** An optional field (`default=None`) that the input leaves out is not
      filled, is validated by nobody, and ends up `None`. */
  lemma AbsentOptionalStaysNull(schema: Schema, registry: map<string, Entry>, coerce: Coercer,
                                obj: Args, name: string)
    requires schema.Valid() && name in schema.names
    requires name !in obj && schema.info[name].default == Null
    ensures ValidateField(schema, Hook(registry), coerce, DefaultFilled(schema, obj), name)
            == Success(Null)
    ensures ModelValidate(schema, registry, coerce, obj).Success? ==>
            ModelValidate(schema, registry, coerce, obj).value[name] == Null
  {
    var filled := DefaultFilled(schema, obj);
    assert name !in filled;
    var r := Validate(schema, Hook(registry), coerce, filled);
    if r.Success? {
      assert Success(r.value[name]) == ValidateField(schema, Hook(registry), coerce, filled, name);
    }
  }

  /** A required field that the input leaves out gets the `Undefined`
      sentinel, which the dispatcher passes through untouched; when the
      coercion rejects the sentinel, validation fails with an error charged
      to that field, whatever messages are substituted. */
  lemma RequiredAbsentIsReported(schema: Schema, registry: map<string, Entry>, coerce: Coercer,
                                 obj: Args, name: string)
    requires schema.Valid() && name in schema.names
    requires name !in obj && schema.info[name].default == Undefined
    requires coerce(name, Undefined).Failure?
    ensures ModelValidate(schema, registry, coerce, obj).Failure?
    ensures exists e <- ModelValidate(schema, registry, coerce, obj).error :: AtField(e, name)
  {
    var filled := DefaultFilled(schema, obj);
    assert filled[name] == Undefined;
    var hook := Hook(registry);
    assert hook(schema.info[name], Undefined) == Success(Undefined);
    var es := coerce(name, Undefined).error;
    assert ValidateField(schema, hook, coerce, filled, name) == Failure(Located(name, es));
    var raw := Validate(schema, hook, coerce, filled);
    var d := Located(name, es)[0];
    assert d in raw.error;
    CustomizedKeepsField(schema, raw.error, d, name);
  }

  /** An error charged to a field is still charged to it after customization. */
  lemma CustomizedKeepsField(schema: Schema, errors: seq<ErrorDetail>, d: ErrorDetail, name: string)
    requires d in errors && AtField(d, name)
    ensures exists e <- Customized(schema, errors) :: AtField(e, name)
  {
    var i :| 0 <= i < |errors| && errors[i] == d;
    assert AtField(Customized(schema, errors)[i], name);
  }

  /** Errors are aggregated: when two fields both fail, the one error list
      returned holds an error for each of them. */
  lemma BothFailuresReported(schema: Schema, registry: map<string, Entry>, coerce: Coercer,
                             obj: Args, f1: string, f2: string)
    requires schema.Valid() && f1 in schema.names && f2 in schema.names
    requires ValidateField(schema, Hook(registry), coerce, DefaultFilled(schema, obj), f1).Failure?
    requires ValidateField(schema, Hook(registry), coerce, DefaultFilled(schema, obj), f2).Failure?
    ensures ModelValidate(schema, registry, coerce, obj).Failure?
    ensures exists e <- ModelValidate(schema, registry, coerce, obj).error :: AtField(e, f1)
    ensures exists e <- ModelValidate(schema, registry, coerce, obj).error :: AtField(e, f2)
  {
    var filled := DefaultFilled(schema, obj);
    var raw := Validate(schema, Hook(registry), coerce, filled);
    var d1 := ValidateField(schema, Hook(registry), coerce, filled, f1).error[0];
    var d2 := ValidateField(schema, Hook(registry), coerce, filled, f2).error[0];
    assert d1 in raw.error && d2 in raw.error;
    CustomizedKeepsField(schema, raw.error, d1, f1);
    CustomizedKeepsField(schema, raw.error, d2, f2);
  }

  /** Customizing a list turns an error that has a non-empty custom message
      into one carrying that message at the same location. */
  lemma CustomizedCarriesMessage(schema: Schema, errors: seq<ErrorDetail>, d: ErrorDetail, name: string)
    requires d in errors && AtField(d, name) && name in schema.info
    requires d.kind in schema.info[name].errorMessages
    requires schema.info[name].errorMessages[d.kind] != ""
    ensures exists e <- Customized(schema, errors) ::
      e.loc == d.loc && e.kind == d.kind && e.msg == schema.info[name].errorMessages[d.kind]
  {
    var i :| 0 <= i < |errors| && errors[i] == d;
    assert CustomMessage(schema, d) == Some(schema.info[name].errorMessages[d.kind]);
    assert Customized(schema, errors)[i].msg == schema.info[name].errorMessages[d.kind];
  }

  /** Message override: an error whose field has a non-empty custom message
      for its type reaches the caller with that message, and with the
      location and type it was raised with. */
  lemma CustomMessageReachesCaller(schema: Schema, registry: map<string, Entry>, coerce: Coercer,
                                   obj: Args, name: string, d: ErrorDetail)
    requires schema.Valid() && name in schema.names
    requires ValidateField(schema, Hook(registry), coerce, DefaultFilled(schema, obj), name).Failure?
    requires d in ValidateField(schema, Hook(registry), coerce, DefaultFilled(schema, obj), name).error
    requires d.kind in schema.info[name].errorMessages
    requires schema.info[name].errorMessages[d.kind] != ""
    ensures ModelValidate(schema, registry, coerce, obj).Failure?
    ensures exists e <- ModelValidate(schema, registry, coerce, obj).error ::
      e.loc == d.loc && e.kind == d.kind && e.msg == schema.info[name].errorMessages[d.kind]
  {
    var filled := DefaultFilled(schema, obj);
    var raw := Validate(schema, Hook(registry), coerce, filled);
    assert d in raw.error;
    CustomizedCarriesMessage(schema, raw.error, d, name);
  }

}
