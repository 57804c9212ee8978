/** `StringType` of `onebase_api/models/types/string.py`. */
module StringType {
  import opened Wrappers
  import opened Errors
  import opened Json
  import opened TypeBase

  const Names: seq<string> := ["STRING"]

  /** The handlers the class defines, with their positional parameters after
      `self`: `get_attrs_default` names its first parameter
      `requested_mimetype` but receives the slot there. */
  const Methods: map<string, Signature> := map[
    "get_attrs_application_html" := Signature(1, 1),
    "get_attrs_default" := Signature(2, 2),
    "render_default" := Signature(1, 1)
  ]

  /** `get_attrs(slot, mimetype)`. */
  function GetAttrs(slot: Slot, mimetype: string, suffixOf: string -> string): Result<map<string, string>, Error>
  {
    match PlanCall(Methods, GetAttrsPrefix, mimetype, suffixOf)
    case Failure(e) => Failure(e)
    case Success(call) =>
      if call.handler == "get_attrs_application_html" then Success(map["type" := "text/plain"])
      else Success(map[])
  }

  /** `render(slot, mimetype)` as written. */
  function Render(slot: Slot, mimetype: string, suffixOf: string -> string): Result<string, Error>
  {
    match PlanCall(Methods, RenderPrefix, mimetype, suffixOf)
    case Failure(e) => Failure(e)
    case Success(_) => Success(Str(slot.value))
  }

  /** `prepare`: the value's text. */
  function Prepare(slot: Slot): Result<Json, Error>
  {
    Success(JStr(Str(slot.value)))
  }

  /** The handler a name made of `prefix` and `suffix` refers to, if any. */
  lemma MethodLookup(prefix: string, suffix: string)
    requires prefix == GetAttrsPrefix || prefix == RenderPrefix
    ensures prefix + suffix in Methods <==>
      (prefix == GetAttrsPrefix && (suffix == "application_html" || suffix == "default"))
      || (prefix == RenderPrefix && suffix == "default")
  {
    HandlerName(prefix, suffix, "get_attrs_application_html");
    HandlerName(prefix, suffix, "get_attrs_default");
    HandlerName(prefix, suffix, "render_default");
    if prefix == GetAttrsPrefix {
      assert "get_attrs_application_html"[..10] == prefix && "get_attrs_application_html"[10..] == "application_html";
      assert "get_attrs_default"[..10] == prefix && "get_attrs_default"[10..] == "default";
      assert "render_default"[..10][0] != prefix[0];
    } else {
      assert "get_attrs_application_html"[..7][0] != prefix[0];
      assert "get_attrs_default"[..7][0] != prefix[0];
      assert "render_default"[..7] == prefix && "render_default"[7..] == "default";
    }
  }

  /** The html attributes are `{'type': 'text/plain'}`, every other mimetype
      gets `{}`, except one whose method name is 'default' itself: the
      default handler is then called with the slot alone and misses an
      argument. */
  lemma GetAttrsSpec(slot: Slot, mimetype: string, suffixOf: string -> string)
    ensures suffixOf(mimetype) == "application_html" ==> GetAttrs(slot, mimetype, suffixOf) == Success(map["type" := "text/plain"])
    ensures suffixOf(mimetype) == "default" ==> GetAttrs(slot, mimetype, suffixOf).Failure?
    ensures suffixOf(mimetype) != "application_html" && suffixOf(mimetype) != "default" ==>
              GetAttrs(slot, mimetype, suffixOf) == Success(map[])
  {
    MethodLookup(GetAttrsPrefix, suffixOf(mimetype));
    MethodLookup(GetAttrsPrefix, "default");
  }

  /** As written, rendering succeeds only when the mimetype's method name is
      'default': for any other mimetype `render_default` is reached through
      the fallback, which passes the mimetype as a second positional argument
      that it does not accept. */
  lemma RenderAsWritten(slot: Slot, mimetype: string, suffixOf: string -> string)
    ensures suffixOf(mimetype) == "default" ==> Render(slot, mimetype, suffixOf) == Success(Str(slot.value))
    ensures suffixOf(mimetype) != "default" ==>
              Render(slot, mimetype, suffixOf).Failure? && Render(slot, mimetype, suffixOf).error.TypeError?
  {
    MethodLookup(RenderPrefix, suffixOf(mimetype));
    MethodLookup(RenderPrefix, "default");
  }

  /** The same class with `render_default` accepting the mimetype. */
  const MethodsIntended: map<string, Signature> := Methods["render_default" := Signature(1, 2)]

  /** `render` as intended: `str(slot.value)` for every mimetype. */
  function RenderIntended(slot: Slot, mimetype: string, suffixOf: string -> string): (r: Result<string, Error>)
    ensures r == Success(Str(slot.value))
  {
    MethodLookup(RenderPrefix, suffixOf(mimetype));
    MethodLookup(RenderPrefix, "default");
    assert MethodsIntended.Keys == Methods.Keys;
    match PlanCall(MethodsIntended, RenderPrefix, mimetype, suffixOf)
    case Failure(e) => Failure(e)
    case Success(_) => Success(Str(slot.value))
  }

  /** Rendering the default mimetype 'application/html' fails as written
      whenever its method name is not 'default', and the intended render
      gives the text `prepare` stores. */
  lemma RenderCounterexample(slot: Slot, suffixOf: string -> string)
    requires suffixOf(DefaultRenderMimetype) == "application_html"
    ensures Render(slot, DefaultRenderMimetype, suffixOf).Failure?
    ensures RenderIntended(slot, DefaultRenderMimetype, suffixOf) == Success(Str(slot.value))
    ensures Prepare(slot) == Success(JStr(RenderIntended(slot, DefaultRenderMimetype, suffixOf).value))
  {
    RenderAsWritten(slot, DefaultRenderMimetype, suffixOf);
  }
}
