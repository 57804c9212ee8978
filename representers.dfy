/** The representers of `onebase_api/api/representers.py`: they render a
    slot's value in the format the request's environment asks for. The
    request body is a parameter. */
module Representers {
  import opened Wrappers
  import opened Errors
  import opened Json

  /** What a representer returns: an `ApiResponse` carrying data, an empty
      `ApiResponse`, or a raw Flask `Response` with a mimetype. */
  datatype Response =
    | ApiData(data: map<string, string>)
    | EmptyApi
    | Raw(text: string, mimetype: string)

  const JsonMimetype := "application/json"
  const HtmlMimetype := "application/html"
  const TextMimetype := "text/plain"
  const PngMimetype := "image/png"
  const DefaultHeight := "20px"

  /** `environment[key]` inside a bare `try`: the environment is
      `body.get('environment', {})`, and any failure (no such key, an
      environment that is not an object) yields None. */
  function EnvironmentLookup(body: Body, key: string): Option<Json>
  {
    var env := if "environment" in body then body["environment"] else JObject(map[], "{}");
    if env.JObject? && key in env.fields then Some(env.fields[key]) else None
  }

  /** The requested format, 'application/json' by default. */
  function ReturnFormat(body: Body): Json
  {
    match EnvironmentLookup(body, "return_mimetype")
    case Some(f) => f
    case None => JStr(JsonMimetype)
  }

  /** `primitive_repr`; None when no branch is taken. */
  function PrimitiveRepr(body: Body): Option<Response>
  {
    var fmt := ReturnFormat(body);
    var text := Str(Get(body, "value"));
    if fmt == JStr(JsonMimetype) then Some(ApiData(map["repr" := text]))
    else if fmt == JStr(HtmlMimetype) then Some(Raw(text, HtmlMimetype))
    else if fmt == JStr(TextMimetype) then Some(Raw(text, TextMimetype))
    else None
  }

  /** The `<img>`-like tag of the html branch. */
  function Tag(mediaType: string, staticUrl: string, value: string, height: string): string
  {
    "<" + mediaType + " src=\"" + staticUrl + value + "\" height=\"" + height + "\"/>"
  }

  /** `media_repr(media_type)`. `height_pct` is only bound when the
      environment has no 'scale', so the html branch raises
      UnboundLocalError when it has one; the json branch adds `static_url` to
      a string, which raises TypeError when it is not one. */
  function MediaRepr(body: Body, mediaType: string): Result<Option<Response>, Error>
  {
    var fmt := ReturnFormat(body);
    var staticUrl := match EnvironmentLookup(body, "static_url") case Some(u) => u case None => JStr("");
    var scaled := EnvironmentLookup(body, "scale").Some?;
    var text := Str(Get(body, "value"));
    if fmt == JStr(HtmlMimetype) then
      if scaled then Failure(UnboundLocalError("height_pct"))
      else Success(Some(Raw(Tag(mediaType, Str(staticUrl), text, DefaultHeight), HtmlMimetype)))
    else if fmt == JStr(JsonMimetype) then
      if !staticUrl.JStr? then Failure(TypeError("unsupported operand type(s) for +"))
      else Success(Some(ApiData(map["image" := staticUrl.s + text])))
    else if fmt == JStr(PngMimetype) then Success(Some(EmptyApi))
    else Success(None)
  }

  /** Without an environment object holding 'return_mimetype' the format is json. */
  lemma ReturnFormatDefault(body: Body)
    ensures ("environment" !in body || !body["environment"].JObject?
             || "return_mimetype" !in body["environment"].fields) ==> ReturnFormat(body) == JStr(JsonMimetype)
    ensures "environment" in body && body["environment"].JObject? && "return_mimetype" in body["environment"].fields ==>
              ReturnFormat(body) == body["environment"].fields["return_mimetype"]
  {
  }

  /** The primitive representer answers for json, html and plain text only,
      and always with `str(value)`: as data under 'repr' for json, raw with
      the requested mimetype otherwise. */
  lemma PrimitiveReprSpec(body: Body)
    ensures PrimitiveRepr(body).Some? <==> ReturnFormat(body) in {JStr(JsonMimetype), JStr(HtmlMimetype), JStr(TextMimetype)}
    ensures ReturnFormat(body) == JStr(JsonMimetype) ==> PrimitiveRepr(body) == Some(ApiData(map["repr" := Str(Get(body, "value"))]))
    ensures PrimitiveRepr(body).Some? && PrimitiveRepr(body).value.Raw? ==>
              PrimitiveRepr(body).value.text == Str(Get(body, "value")) && JStr(PrimitiveRepr(body).value.mimetype) == ReturnFormat(body)
  {
  }

  /** The media representer: html and json carry the static url followed by
      `str(value)`; html fails whenever 'scale' is given; png gives an empty
      response; any other format gives None. */
  lemma MediaReprSpec(body: Body, mediaType: string)
    ensures var r := MediaRepr(body, mediaType);
      && (ReturnFormat(body) == JStr(HtmlMimetype) ==>
            (r.Failure? <==> EnvironmentLookup(body, "scale").Some?))
      && (ReturnFormat(body) == JStr(JsonMimetype) && EnvironmentLookup(body, "static_url").None? ==>
            r == Success(Some(ApiData(map["image" := Str(Get(body, "value"))]))))
      && (ReturnFormat(body) == JStr(PngMimetype) ==> r == Success(Some(EmptyApi)))
      && (ReturnFormat(body) !in {JStr(HtmlMimetype), JStr(JsonMimetype), JStr(PngMimetype)} ==> r == Success(None))
  {
    assert "" + Str(Get(body, "value")) == Str(Get(body, "value"));
  }

  /** The html and json answers in full: the static url (by default '')
      followed by `str(value)`, inside a 20px tag for html, under 'image'
      for json, where a static url that is not a string cannot be added. */
  lemma MediaReprContents(body: Body, mediaType: string)
    ensures var url := if EnvironmentLookup(body, "static_url").Some? then EnvironmentLookup(body, "static_url").value else JStr("");
      var text := Str(Get(body, "value"));
      && (ReturnFormat(body) == JStr(HtmlMimetype) && EnvironmentLookup(body, "scale").None? ==>
            MediaRepr(body, mediaType) == Success(Some(Raw(Tag(mediaType, Str(url), text, DefaultHeight), HtmlMimetype))))
      && (ReturnFormat(body) == JStr(JsonMimetype) && url.JStr? ==>
            MediaRepr(body, mediaType) == Success(Some(ApiData(map["image" := url.s + text]))))
      && (ReturnFormat(body) == JStr(JsonMimetype) && !url.JStr? ==>
            MediaRepr(body, mediaType).Failure? && MediaRepr(body, mediaType).error.TypeError?)
  {
  }

  /** An html request with a static url and no scale. */
  lemma MediaHtmlExample()
    ensures var env := JObject(map["return_mimetype" := JStr(HtmlMimetype), "static_url" := JStr("/static/")], "");
      MediaRepr(map["environment" := env, "value" := JStr("a.png")], "img")
        == Success(Some(Raw("<img src=\"" + "/static/" + "a.png" + "\" height=\"20px\"/>", HtmlMimetype)))
  {
    var env := JObject(map["return_mimetype" := JStr(HtmlMimetype), "static_url" := JStr("/static/")], "");
    var body := map["environment" := env, "value" := JStr("a.png")];
    assert ReturnFormat(body) == JStr(HtmlMimetype);
    assert EnvironmentLookup(body, "static_url") == Some(JStr("/static/"));
    assert EnvironmentLookup(body, "scale") == None;
    assert Get(body, "value") == JStr("a.png");
    MediaReprContents(body, "img");
    TagExample();
  }

  lemma TagExample()
    ensures Tag("img", "/static/", "a.png", DefaultHeight) == "<img src=\"" + "/static/" + "a.png" + "\" height=\"20px\"/>"
  {
  }
}
