/** `TypeBase` and `RegexValidationMixin` of
    `onebase_api/models/types/_base.py`: the size cap every soft type
    enforces, and the dispatch of `render` and `get_attrs` to a handler
    method chosen by mimetype. */
module TypeBase {
  import opened Wrappers
  import opened Errors
  import opened Json

  /** `maximum_size`. */
  const MaximumSize := 1024

  /** A slot as the type handlers see it: its value. */
  datatype Slot = Slot(value: Json)

  /** `validate`: E-100 when `str(value)` is longer than the cap. The error
      reports `len(value)`, not `len(str(value))`, so a value without a
      length (a number, None, a bool) raises TypeError instead. */
  function BaseValidate(value: Json): Result<bool, Error>
  {
    if |Str(value)| > MaximumSize then
      match Len(value)
      case Failure(e) => Failure(e)
      case Success(n) => Failure(SizeExceeded(MaximumSize, n))
    else Success(true)
  }

  /** `RegexValidationMixin.validate`: the size check, then `EXPRESSION`
      against `str(value)`; `matches` is `re.compile(EXPRESSION).match(...) is not None`. */
  function RegexValidate(value: Json, matches: string -> bool): Result<bool, Error>
  {
    match BaseValidate(value)
    case Failure(e) => Failure(e)
    case Success(ok) => Success(ok && matches(Str(value)))
  }

  /** The base `validate` never answers False: it accepts exactly the values
      whose text fits the cap, reports a string's own length when it does not,
      and raises TypeError for an oversized value without a length. */
  lemma BaseValidateSpec(value: Json)
    ensures BaseValidate(value) != Success(false)
    ensures BaseValidate(value) == Success(true) <==> |Str(value)| <= MaximumSize
    ensures value.JStr? && |value.s| > MaximumSize ==> BaseValidate(value) == Failure(SizeExceeded(MaximumSize, |value.s|))
    ensures (value.JInt? || value.JNull? || value.JBool? || value.JFloat?) && |Str(value)| > MaximumSize ==>
              BaseValidate(value).Failure? && BaseValidate(value).error.TypeError?
  {
  }

  /** The regex validation is true exactly when the value fits and matches,
      false exactly when it fits and does not match, and raises otherwise. */
  lemma RegexValidateSpec(value: Json, matches: string -> bool)
    ensures RegexValidate(value, matches) == Success(true) <==> |Str(value)| <= MaximumSize && matches(Str(value))
    ensures RegexValidate(value, matches) == Success(false) <==> |Str(value)| <= MaximumSize && !matches(Str(value))
    ensures RegexValidate(value, matches).Failure? <==> |Str(value)| > MaximumSize
  {
    BaseValidateSpec(value);
  }

  /** The base `prepare`: every type must override it. */
  function BasePrepare(slot: Slot): (r: Result<Json, Error>)
    ensures r.Failure? && r.error.NotImplementedError?
  {
    Failure(NotImplementedError("prepare"))
  }

  /** A handler method's positional parameters after `self`: how many are
      required and how many it accepts at most. Every handler also takes
      `**kwargs`. */
  datatype Signature = Signature(required: nat, maximum: nat)

  /** A positional argument of a handler call. */
  datatype Arg = SlotArg | MimetypeArg(mimetype: string)

  /** The handler `_call_function` invokes, with its positional arguments. */
  datatype Call = Call(handler: string, args: seq<Arg>)

  /** Python's check of positional arguments against a signature. */
  function Bind(name: string, sig: Signature, args: seq<Arg>): Result<Call, Error>
  {
    if |args| > sig.maximum then Failure(TypeError(name + "() takes too many positional arguments"))
    else if |args| < sig.required then Failure(TypeError(name + "() missing a required positional argument"))
    else Success(Call(name, args))
  }

  /** `_call_function(prefix, mimetype, slot)`: the handler named by the
      mimetype, called with the slot; failing that the default handler,
      called with the slot and the mimetype; failing that AttributeError.
      `methods` maps each handler the type defines to its signature and
      `suffixOf` is `mimetype_to_method`. */
  function PlanCall(methods: map<string, Signature>, prefix: string, mimetype: string,
                    suffixOf: string -> string): Result<Call, Error>
  {
    var mname := prefix + suffixOf(mimetype);
    var dflt := prefix + "default";
    if mname in methods then Bind(mname, methods[mname], [SlotArg])
    else if dflt in methods then Bind(dflt, methods[dflt], [SlotArg, MimetypeArg(mimetype)])
    else Failure(AttributeError(dflt))
  }

  /** `prefix + suffix` names `key` exactly when `key` starts with `prefix`
      and continues with `suffix`. */
  lemma HandlerName(prefix: string, suffix: string, key: string)
    ensures prefix + suffix == key <==> |prefix| <= |key| && key[..|prefix|] == prefix && key[|prefix|..] == suffix
  {
    if |prefix| <= |key| && key[..|prefix|] == prefix && key[|prefix|..] == suffix {
      assert key == key[..|prefix|] + key[|prefix|..];
    }
    if prefix + suffix == key {
      assert (prefix + suffix)[..|prefix|] == prefix;
      assert (prefix + suffix)[|prefix|..] == suffix;
    }
  }

  /** The prefixes and default mimetype of `get_attrs` and `render`. */
  const GetAttrsPrefix := "get_attrs_"
  const RenderPrefix := "render_"
  const DefaultRenderMimetype := "application/html"

  /** The specialised handler wins whenever it exists; the default handler is
      used only in its absence and then also receives the mimetype; with
      neither, dispatch fails. A call goes through exactly when its argument
      count suits the chosen handler. */
  lemma PlanCallSpec(methods: map<string, Signature>, prefix: string, mimetype: string, suffixOf: string -> string)
    ensures var mname := prefix + suffixOf(mimetype);
      var r := PlanCall(methods, prefix, mimetype, suffixOf);
      && (mname in methods ==>
            (r.Success? <==> methods[mname].required <= 1 <= methods[mname].maximum)
            && (r.Success? ==> r.value == Call(mname, [SlotArg])))
      && (mname !in methods && prefix + "default" in methods ==>
            (r.Success? <==> methods[prefix + "default"].required <= 2 <= methods[prefix + "default"].maximum)
            && (r.Success? ==> r.value == Call(prefix + "default", [SlotArg, MimetypeArg(mimetype)])))
      && (mname !in methods && prefix + "default" !in methods ==> r == Failure(AttributeError(prefix + "default")))
  {
  }
}
