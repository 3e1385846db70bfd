/** The example that closes sanic_agent/rest/httpx/request.py: the
    `validate_phone` validator, registered without default arguments, and
    the three demo models that use it. */
module PhoneDemo {
  import opened Wrappers
  import opened Pydantic
  import opened ParseModel

  predicate IsDigit(c: char) {
    '0' <= c <= '9'
  }

  /** `str.isdigit()` for ASCII text: non-empty and digits only. */
  predicate AllDigits(s: string) {
    |s| > 0 && forall i :: 0 <= i < |s| ==> IsDigit(s[i])
  }

  /** Decimal text of a natural number. */
  function NatText(n: nat): (r: string)
    ensures AllDigits(r)
    decreases n
  {
    var d := [(48 + n % 10) as char];
    if n < 10 then d else NatText(n / 10) + d
  }

  /** Python's `str()` of the values a keyword argument may hold. */
  function Show(v: Value): string {
    match v
    case Int(i) => if i < 0 then "-" + NatText(-i) else NatText(i)
    case Str(s) => s
    case Bool(b) => if b then "True" else "False"
    case Null => "None"
    case _ => "<value>"
  }

  /** The `prefix` keyword argument, `"1"` when not passed. */
  function PrefixArg(args: Args): Value {
    if "prefix" in args then args["prefix"] else Str("1")
  }

  /** The `min_length` keyword argument, `11` when not passed. */
  function MinLengthArg(args: Args): Value {
    if "min_length" in args then args["min_length"] else Int(11)
  }

  /** `validate_phone(value, min_length=11, prefix="1")`: a falsy value is
      returned as it is; a string is returned when it starts with the
      prefix, has exactly `min_length` characters and is all digits, and is
      rejected with `ValueError` otherwise. */
  function ValidatePhone(value: Value, args: Args): (r: Result<Value, string>)
    ensures Falsy(value) ==> r == Success(value)
    ensures r.Success? ==> r.value == value
    ensures value.Str? && value.s != "" ==>
      (r.Success? <==>
        && PrefixArg(args).Str? && PrefixArg(args).s <= value.s
        && MinLengthArg(args) == Int(|value.s|)
        && AllDigits(value.s))
  {
    var prefix := PrefixArg(args);
    var minLength := MinLengthArg(args);
    if Falsy(value) then Success(value)
    else if !value.Str? then
      Failure("object has no attribute 'startswith'")
    else if !prefix.Str? then
      Failure("startswith first arg must be str or a tuple of str")
    else if !(prefix.s <= value.s) || minLength != Int(|value.s|) || !AllDigits(value.s) then
      Failure("Invalid phone number format: must start with '" + prefix.s + "' and be "
              + Show(minLength) + " digits")
    else Success(value)
  }

  /** A non-digit in the prefix makes every non-empty phone number invalid:
      the accepted value must begin with the prefix and be digits only. */
  lemma {:induction false} NonDigitPrefixRejectsAll(s: string, args: Args, k: nat)
    requires s != ""
    requires PrefixArg(args).Str? && k < |PrefixArg(args).s| && !IsDigit(PrefixArg(args).s[k])
    ensures ValidatePhone(Str(s), args).Failure?
  {
    var p := PrefixArg(args).s;
    if p <= s {
      assert s[k] == p[k];
      assert !AllDigits(s);
    }
  }

  /** The registry after `register_validator("validate_phone", validate_phone)`. */
  function DemoRegistry(): (r: map<string, Entry>)
    ensures forall n <- r :: n == "validate_phone"
    ensures "validate_phone" in r && r["validate_phone"].validator == ValidatePhone
    ensures "validate_phone" in r && r["validate_phone"].defaultArgs == map[]
  {
    map["validate_phone" := Entry(ValidatePhone, map[])]
  }

  /** The registration statement, run on an empty registry. */
  method BuildDemoRegistry() returns (registry: ValidatorRegistry)
    ensures registry.entries == DemoRegistry()
  {
    registry := new ValidatorRegistry();
    registry.Register("validate_phone", ValidatePhone, map[]);
    assert registry.entries.Keys == DemoRegistry().Keys;
  }

  /** Pydantic's coercion for `str` and `Optional[str]` fields in strict
      form: strings (and `None` for optional ones) are kept, anything else
      is a `string_type` error. */
  function StrCoercer(optional: set<string>): (c: Coercer)
    ensures forall n, v :: c(n, v).Success? <==> v.Str? || (v.Null? && n in optional)
    ensures forall n, v :: c(n, v).Success? ==> c(n, v).value == v
    ensures forall n, v :: c(n, v).Failure? ==> |c(n, v).error| == 1 && c(n, v).error[0].kind == "string_type"
  {
    (name: string, v: Value) =>
      if v.Str? || (v.Null? && name in optional) then Success(v)
      else Failure([ErrorDetail([], "Input should be a valid string", "string_type", None, Some(v))])
  }

  const PhoneField := FieldInfo(Undefined, Some("validate_phone"), None, map[])

  /** `RequiredPhoneModel`: a required validated `Phone` and a required `Name`. */
  function RequiredPhoneModel(): (s: Schema)
    ensures s.Valid()
  {
    Schema(["Phone", "Name"],
      map["Phone" := PhoneField, "Name" := FieldInfo(Undefined, None, None, map[])])
  }

  /** `OptionalPhoneModel`: `Phone: Optional[str] = None`, validated. */
  function OptionalPhoneModel(): (s: Schema)
    ensures s.Valid()
  {
    Schema(["Phone"], map["Phone" := PhoneField.(default := Null)])
  }

  /** `CustomPhoneModel`: a required `Phone` with `prefix="+"` and
      `min_length=13` as per-field arguments. */
  function CustomPhoneModel(): (s: Schema)
    ensures s.Valid()
  {
    Schema(["Phone"], map["Phone" := PhoneField.(validatorArgs :=
      Some(map["prefix" := Str("+"), "min_length" := Int(13)]))])
  }

  /** A single error, charged to `field`, of the given type. */
  predicate OneErrorAt(r: Result<Args, seq<ErrorDetail>>, field: string, kind: string) {
    r.Failure? && |r.error| == 1 && r.error[0].loc == [Key(field)] && r.error[0].kind == kind
  }

  /** The demo registry sends every value other than `None` and the
      sentinel to `validate_phone`, with the field's own arguments. */
  lemma DemoDispatch(info: FieldInfo, v: Value)
    requires info.validator == Some("validate_phone") && !v.Undefined? && !v.Null?
    ensures Hook(DemoRegistry())(info, v) == ValidatePhone(v, ExtraArgs(info))
  {
    var e := DemoRegistry()["validate_phone"];
    assert e.validator == ValidatePhone && e.defaultArgs == map[];
    assert MergeArgs(map[], ExtraArgs(info)) == ExtraArgs(info);
    assert ApplyCustomValidators(DemoRegistry(), info, v)
        == e.validator(v, MergeArgs(e.defaultArgs, ExtraArgs(info)));
  }

  /** A validated phone field given a well-formed number (prefix "1", 11
      digits) passes the dispatcher and string coercion unchanged. */
  lemma PhoneFieldAccepts(s: Schema, optional: set<string>, input: Args, name: string, phone: string)
    requires s.Valid() && name in s.names && name in input && input[name] == Str(phone)
    requires s.info[name].validator == Some("validate_phone") && s.info[name].validatorArgs.None?
    requires |phone| == 11 && phone[0] == '1' && AllDigits(phone)
    ensures ValidateField(s, Hook(DemoRegistry()), StrCoercer(optional), input, name) == Success(Str(phone))
  {
    assert phone[..1] == "1";
    DemoDispatch(s.info[name], Str(phone));
  }

  /** A validated phone field given a string `validate_phone` rejects with
      the field's arguments fails with one `value_error`. */
  lemma PhoneFieldRejects(s: Schema, optional: set<string>, input: Args, name: string, phone: string)
    requires s.Valid() && name in s.names && name in input && input[name] == Str(phone)
    requires s.info[name].validator == Some("validate_phone")
    requires ValidatePhone(Str(phone), ExtraArgs(s.info[name])).Failure?
    ensures var r := ValidateField(s, Hook(DemoRegistry()), StrCoercer(optional), input, name);
      r.Failure? && |r.error| == 1 && r.error[0].loc == [Key(name)] && r.error[0].kind == "value_error"
  {
    var m := ValidatePhone(Str(phone), ExtraArgs(s.info[name])).error;
    DemoDispatch(s.info[name], Str(phone));
    assert ValidateField(s, Hook(DemoRegistry()), StrCoercer(optional), input, name)
        == Failure([ValueErrorDetail(name, m, Str(phone))]);
  }

  /** A plain `str` field given a string keeps it. */
  lemma TextFieldAccepts(s: Schema, optional: set<string>, input: Args, name: string, text: string)
    requires s.Valid() && name in s.names && name in input && input[name] == Str(text)
    requires s.info[name].validator.None?
    ensures ValidateField(s, Hook(DemoRegistry()), StrCoercer(optional), input, name) == Success(Str(text))
  {
    assert Hook(DemoRegistry())(s.info[name], Str(text)) == Success(Str(text));
  }

  /** With both fields given, a well-formed number is accepted as it is. */
  lemma RequiredPhoneAccepted()
    ensures FromData(RequiredPhoneModel(), DemoRegistry(), StrCoercer({}),
                     Some(map["Phone" := Str("13800138000"), "Name" := Str("Alice")]))
         == Success(map["Phone" := Str("13800138000"), "Name" := Str("Alice")])
  {
    var s := RequiredPhoneModel();
    var input := map["Phone" := Str("13800138000"), "Name" := Str("Alice")];
    CompleteInputUnfilled(s, input);
    assert AllDigits("13800138000") && "13800138000"[0] == '1';
    PhoneFieldAccepts(s, {}, input, "Phone", "13800138000");
    TextFieldAccepts(s, {}, input, "Name", "Alice");
    ModelOfTwoFields(s, DemoRegistry(), StrCoercer({}), input, input);
  }

  /** `__init__` fills the absent required `Name` with the sentinel. */
  lemma RequiredSampleFilled(phone: string)
    ensures DefaultFilled(RequiredPhoneModel(), map["Phone" := Str(phone)])
         == map["Phone" := Str(phone), "Name" := Undefined]
  {
    var filled := DefaultFilled(RequiredPhoneModel(), map["Phone" := Str(phone)]);
    assert filled.Keys == {"Phone", "Name"};
  }

  /** The `str` field `Name` holding the sentinel is one `string_type` error. */
  lemma SentinelNameRejected(filled: Args)
    requires "Name" in filled && filled["Name"] == Undefined
    ensures var r := ValidateField(RequiredPhoneModel(), Hook(DemoRegistry()), StrCoercer({}), filled, "Name");
      r.Failure? && |r.error| == 1 && r.error[0].loc == [Key("Name")] && r.error[0].kind == "string_type"
  {
    var s := RequiredPhoneModel();
    var c := StrCoercer({});
    assert Hook(DemoRegistry())(s.info["Name"], Undefined) == Success(Undefined);
    assert ValidateField(s, Hook(DemoRegistry()), c, filled, "Name")
        == Failure(Located("Name", c("Name", Undefined).error));
  }

  /** The demo's first "valid" sample gives only `Phone`; `__init__` fills
      the required `Name` with the `Undefined` sentinel, which a `str`
      field rejects: one `string_type` error on `Name`. */
  lemma RequiredSampleLacksName()
    ensures OneErrorAt(FromData(RequiredPhoneModel(), DemoRegistry(), StrCoercer({}),
                                Some(map["Phone" := Str("13800138000")])), "Name", "string_type")
  {
    var s := RequiredPhoneModel();
    var filled := map["Phone" := Str("13800138000"), "Name" := Undefined];
    var c := StrCoercer({});
    RequiredSampleFilled("13800138000");
    assert AllDigits("13800138000") && "13800138000"[0] == '1';
    PhoneFieldAccepts(s, {}, filled, "Phone", "13800138000");
    SentinelNameRejected(filled);
    ModelOfTwoFields(s, DemoRegistry(), c, map["Phone" := Str("13800138000")], filled);
    var name := ValidateField(s, Hook(DemoRegistry()), c, filled, "Name");
    assert [] + name.error == name.error;
  }

  /** The demo's invalid sample "31111111111" (again without `Name`): a
      `value_error` on `Phone` followed by a `string_type` error on `Name`. */
  lemma RequiredPhoneRejected()
    ensures var r := FromData(RequiredPhoneModel(), DemoRegistry(), StrCoercer({}),
                              Some(map["Phone" := Str("31111111111")]));
      && r.Failure? && |r.error| == 2
      && r.error[0].loc == [Key("Phone")] && r.error[0].kind == "value_error"
      && r.error[1].loc == [Key("Name")] && r.error[1].kind == "string_type"
  {
    var s := RequiredPhoneModel();
    var filled := map["Phone" := Str("31111111111"), "Name" := Undefined];
    var c := StrCoercer({});
    RequiredSampleFilled("31111111111");
    assert "31111111111"[0] == '3';
    PhoneFieldRejects(s, {}, filled, "Phone", "31111111111");
    SentinelNameRejected(filled);
    ModelOfTwoFields(s, DemoRegistry(), c, map["Phone" := Str("31111111111")], filled);
  }

  /** The optional model with `Phone` left out: it is `None` and is never
      validated. */
  lemma OptionalPhoneOmitted()
    ensures FromData(OptionalPhoneModel(), DemoRegistry(), StrCoercer({"Phone"}), None)
         == Success(map["Phone" := Null])
  {
    var s := OptionalPhoneModel();
    var c := StrCoercer({"Phone"});
    assert DefaultFilled(s, map[]) == map[];
    assert ValidateField(s, Hook(DemoRegistry()), c, map[], "Phone") == Success(Null);
    ModelOfOneField(s, DemoRegistry(), c, map[], map[]);
  }

  /** The optional model keeps a valid number. */
  lemma OptionalPhoneAccepted()
    ensures FromData(OptionalPhoneModel(), DemoRegistry(), StrCoercer({"Phone"}),
                     Some(map["Phone" := Str("13900139000")]))
         == Success(map["Phone" := Str("13900139000")])
  {
    var s := OptionalPhoneModel();
    var good := map["Phone" := Str("13900139000")];
    CompleteInputUnfilled(s, good);
    assert AllDigits("13900139000") && "13900139000"[0] == '1';
    PhoneFieldAccepts(s, {"Phone"}, good, "Phone", "13900139000");
    ModelOfOneField(s, DemoRegistry(), StrCoercer({"Phone"}), good, good);
  }

  /** The optional model rejects an invalid number with a `value_error`. */
  lemma OptionalPhoneRejected()
    ensures OneErrorAt(FromData(OptionalPhoneModel(), DemoRegistry(), StrCoercer({"Phone"}),
                                Some(map["Phone" := Str("31111111111")])), "Phone", "value_error")
  {
    var s := OptionalPhoneModel();
    var bad := map["Phone" := Str("31111111111")];
    CompleteInputUnfilled(s, bad);
    assert "31111111111"[0] == '3';
    PhoneFieldRejects(s, {"Phone"}, bad, "Phone", "31111111111");
    ModelOfOneField(s, DemoRegistry(), StrCoercer({"Phone"}), bad, bad);
  }

  /** The custom model's sample labelled as a valid international number,
      "+8613800138000", is rejected: '+' is not a digit (and the sample has
      14 characters, not 13). */
  lemma CustomPhoneSampleRejected()
    ensures OneErrorAt(FromData(CustomPhoneModel(), DemoRegistry(), StrCoercer({}),
                                Some(map["Phone" := Str("+8613800138000")])), "Phone", "value_error")
  {
    var s := CustomPhoneModel();
    var args := map["prefix" := Str("+"), "min_length" := Int(13)];
    var plus := map["Phone" := Str("+8613800138000")];
    CompleteInputUnfilled(s, plus);
    NonDigitPrefixRejectsAll("+8613800138000", args, 0);
    PhoneFieldRejects(s, {}, plus, "Phone", "+8613800138000");
    ModelOfOneField(s, DemoRegistry(), StrCoercer({}), plus, plus);
  }

  /** The custom model's invalid sample "8613800138000", which lacks the
      "+" prefix, is rejected. */
  lemma CustomPhoneMissingPlusRejected()
    ensures OneErrorAt(FromData(CustomPhoneModel(), DemoRegistry(), StrCoercer({}),
                                Some(map["Phone" := Str("8613800138000")])), "Phone", "value_error")
  {
    var s := CustomPhoneModel();
    var bare := map["Phone" := Str("8613800138000")];
    CompleteInputUnfilled(s, bare);
    assert "8613800138000"[0] == '8';
    PhoneFieldRejects(s, {}, bare, "Phone", "8613800138000");
    ModelOfOneField(s, DemoRegistry(), StrCoercer({}), bare, bare);
  }

  /** The digits of a phone number: the text after a leading "+", if any. */
  function PhoneDigits(s: string): (d: string)
    ensures |s| > 0 && s[0] == '+' ==> d == s[1..]
    ensures |s| == 0 || s[0] != '+' ==> d == s
  {
    if |s| > 0 && s[0] == '+' then s[1..] else s
  }

  /** `validate_phone` as the custom model's sample evidently intends it:
      the length and digit tests apply to the digits after a leading "+". */
  function ValidatePhoneIntended(value: Value, args: Args): (r: Result<Value, string>)
    ensures Falsy(value) ==> r == Success(value)
    ensures r.Success? ==> r.value == value
    ensures value.Str? && value.s != "" ==>
      (r.Success? <==>
        && PrefixArg(args).Str? && PrefixArg(args).s <= value.s
        && MinLengthArg(args) == Int(|PhoneDigits(value.s)|)
        && AllDigits(PhoneDigits(value.s)))
  {
    var prefix := PrefixArg(args);
    var minLength := MinLengthArg(args);
    if Falsy(value) then Success(value)
    else if !value.Str? then
      Failure("object has no attribute 'startswith'")
    else if !prefix.Str? then
      Failure("startswith first arg must be str or a tuple of str")
    else
      var digits := PhoneDigits(value.s);
      if !(prefix.s <= value.s) || minLength != Int(|digits|) || !AllDigits(digits) then
        Failure("Invalid phone number format: must start with '" + prefix.s + "' and be "
                + Show(minLength) + " digits")
      else Success(value)
  }

  /** For numbers without a leading "+" the intended validator is the
      validator as written. */
  lemma IntendedAgreesWithoutPlus(s: string, args: Args)
    requires s == "" || s[0] != '+'
    ensures ValidatePhoneIntended(Str(s), args) == ValidatePhone(Str(s), args)
  {
  }

  /** The intended validator accepts the custom model's international sample
      and still rejects the sample without "+". */
  lemma IntendedJudgesCustomSamples()
    ensures ValidatePhoneIntended(Str("+8613800138000"),
                                  map["prefix" := Str("+"), "min_length" := Int(13)]).Success?
    ensures ValidatePhoneIntended(Str("8613800138000"),
                                  map["prefix" := Str("+"), "min_length" := Int(13)]).Failure?
  {
    var args := map["prefix" := Str("+"), "min_length" := Int(13)];
    assert PhoneDigits("+8613800138000") == "8613800138000";
    assert AllDigits("8613800138000");
    assert "+8613800138000"[..1] == "+";
    assert "8613800138000"[0] == '8';
  }

  /** With the intended validator registered instead, the custom model
      accepts its international sample. */
  lemma CustomPhoneSampleAcceptedAsIntended()
    ensures FromData(CustomPhoneModel(), map["validate_phone" := Entry(ValidatePhoneIntended, map[])],
                     StrCoercer({}), Some(map["Phone" := Str("+8613800138000")]))
         == Success(map["Phone" := Str("+8613800138000")])
  {
    var s := CustomPhoneModel();
    var registry := map["validate_phone" := Entry(ValidatePhoneIntended, map[])];
    var plus := map["Phone" := Str("+8613800138000")];
    var args := map["prefix" := Str("+"), "min_length" := Int(13)];
    CompleteInputUnfilled(s, plus);
    IntendedJudgesCustomSamples();
    assert ExtraArgs(s.info["Phone"]) == args;
    assert MergeArgs(map[], args) == args;
    assert Hook(registry)(s.info["Phone"], Str("+8613800138000")) == Success(Str("+8613800138000"));
    assert ValidateField(s, Hook(registry), StrCoercer({}), plus, "Phone") == Success(Str("+8613800138000"));
    ModelOfOneField(s, registry, StrCoercer({}), plus, plus);
  }
}
