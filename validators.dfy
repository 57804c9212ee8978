/** The validation endpoints of `onebase_api/api/validators.py`. The request
    body is a parameter; a reply is modelled by its HTTP status. */
module Validators {
  import opened Wrappers
  import opened Errors
  import opened Json
  import Text
  import Uri

  const OK := 200
  const INTERNAL_SERVER_ERROR := 500

  /** An optional leading '-' and the rest. */
  function Unsigned(s: string): string
  {
    if |s| > 0 && s[0] == '-' then s[1..] else s
  }

  /** `RE_INT`: `^\-?\d+$`. */
  predicate IsInt(s: string)
  {
    Text.AllDigits(Unsigned(s))
  }

  /** `RE_FLOAT`: `^\-?\d+\.\d+$`. */
  predicate IsFloat(s: string)
  {
    var u := Unsigned(s);
    exists d :: 0 < d < |u| - 1 && u[d] == '.' && Text.AllDigits(u[..d]) && Text.AllDigits(u[d + 1..])
  }

  /** `RE_BOOLEAN`: `^(false|true|1|0)$` matched with `re.I`. */
  predicate IsBoolean(s: string)
  {
    Text.Fold(s) in {"false", "true", "1", "0"}
  }

  /** `RE_URI` of this file: its path part accepts anything but '?'. */
  predicate IsImageUri(s: string)
  {
    Uri.Matches(s, Uri.AnyButQuery)
  }

  /** `make_validation_response`: the status of the ApiResponse. */
  function MakeValidationResponse(isValid: bool, okStatus: int := OK, errorStatus: int := INTERNAL_SERVER_ERROR): (status: int)
    ensures isValid ==> status == okStatus
    ensures !isValid ==> status == errorStatus
  {
    if isValid then okStatus else errorStatus
  }

  /** `get_parts`: 'value' then 'size' must be present and truthy (E-102
      naming the first that is not); the result is `(str(value), int(size))`. */
  function GetParts(body: Body): Result<(string, int), Error>
  {
    var value := Get(body, "value");
    var size := Get(body, "size");
    if !Truthy(value) then Failure(MissingKeys(["value"]))
    else if !Truthy(size) then Failure(MissingKeys(["size"]))
    else match ToInt(size)
      case Failure(e) => Failure(e)
      case Success(n) => Success((Str(value), n))
  }

  /** `basic_regex_validation`: the size check (E-100), then the format check
      (E-101), then the strict `len(value) < size`. */
  function BasicRegexValidation(matches: string -> bool, body: Body): Result<bool, Error>
  {
    match GetParts(body)
    case Failure(e) => Failure(e)
    case Success((value, length)) =>
      if |value| > length then Failure(SizeExceeded(length, |value|))
      else if !matches(value) then Failure(InvalidFormat)
      else Success(|value| < length && matches(value))
  }

  /** The status of a route: any exception gives a 500 from Flask. A
      OneBaseException goes to `handle_obe` first, which raises NameError
      itself, since `Response` is not imported, so its 500 comes from Flask
      as well. */
  function Respond(r: Result<bool, Error>): int
  {
    match r
    case Failure(_) => INTERNAL_SERVER_ERROR
    case Success(valid) => MakeValidationResponse(valid)
  }

  function ValidateInt(body: Body): int { Respond(BasicRegexValidation(IsInt, body)) }
  function ValidateBoolean(body: Body): int { Respond(BasicRegexValidation(IsBoolean, body)) }
  function ValidateFloat(body: Body): int { Respond(BasicRegexValidation(IsFloat, body)) }
  function ValidateImage(body: Body): int { Respond(BasicRegexValidation(IsImageUri, body)) }

  /** `validate_str`: no format check, only `len(value) < size`. */
  function ValidateStr(body: Body): int
  {
    match GetParts(body)
    case Failure(_) => INTERNAL_SERVER_ERROR
    case Success((value, length)) => MakeValidationResponse(|value| < length)
  }

  /** The order of `get_parts`' checks, and what it returns. A value or size
      of 0, '' or None counts as missing. */
  lemma GetPartsSpec(body: Body)
    ensures !Truthy(Get(body, "value")) ==> GetParts(body) == Failure(MissingKeys(["value"]))
    ensures Truthy(Get(body, "value")) && !Truthy(Get(body, "size")) ==> GetParts(body) == Failure(MissingKeys(["size"]))
    ensures GetParts(body).Success? <==>
      Truthy(Get(body, "value")) && Truthy(Get(body, "size")) && ToInt(Get(body, "size")).Success?
    ensures GetParts(body).Success? ==>
      GetParts(body).value == (Str(Get(body, "value")), ToInt(Get(body, "size")).value)
  {
  }

  /** Once the parts are read: E-100 exactly when the value is longer than
      the size, E-101 exactly when it fits but does not match, and otherwise
      valid exactly when it is strictly shorter, so a matching value of
      length `size` is reported invalid rather than raising. */
  lemma BasicRegexValidationSpec(matches: string -> bool, body: Body)
    requires GetParts(body).Success?
    ensures var (value, length) := GetParts(body).value;
      && (BasicRegexValidation(matches, body) == Failure(SizeExceeded(length, |value|)) <==> |value| > length)
      && (BasicRegexValidation(matches, body) == Failure(InvalidFormat) <==> |value| <= length && !matches(value))
      && (BasicRegexValidation(matches, body) == Success(true) <==> |value| < length && matches(value))
      && (BasicRegexValidation(matches, body) == Success(false) <==> |value| == length && matches(value))
  {
  }

  /** Every route answers 200 exactly when the validation returned true; all
      errors, coded or not, become 500. */
  lemma RespondSpec(r: Result<bool, Error>)
    ensures Respond(r) == OK <==> r == Success(true)
    ensures Respond(r) != OK ==> Respond(r) == INTERNAL_SERVER_ERROR
  {
  }

  /** Every decimal rendering of an integer is an int for `RE_INT`, and every
      string `RE_INT` accepts is one `int()` parses. */
  lemma IntGrammar(i: int, s: string)
    ensures IsInt(Text.IntToString(i))
    ensures IsInt(s) ==> ToInt(JStr(s)).Success?
  {
    RenderedIsInt(i);
    if IsInt(s) {
      IntParses(s);
    }
  }

  lemma RenderedIsInt(i: int)
    ensures IsInt(Text.IntToString(i))
  {
    if i < 0 {
      Text.NatToStringDigits(-i);
      assert Unsigned(Text.IntToString(i)) == Text.NatToString(-i);
    } else {
      Text.NatToStringDigits(i);
      assert Text.NatToString(i)[0] != '-';
    }
  }

  lemma IntParses(s: string)
    requires IsInt(s)
    ensures ToInt(JStr(s)).Success?
  {
    var u := Unsigned(s);
    assert s[|s| - 1] == u[|u| - 1];
    Text.StripUnchanged(s);
    DigitsAreGroups(u);
    if s[0] == '-' {
      assert s[1..] == u;
    }
  }

  /** `RE_INT` on sample inputs. */
  lemma IntExamples()
    ensures IsInt("-42") && IsInt("007") && !IsInt("") && !IsInt("-") && !IsInt("+1") && !IsInt("1.5")
  {
    assert !Text.IsDigit("+1"[0]);
    assert !Text.IsDigit("1.5"[1]);
  }

  /** A string with a dot at `d`, digits before it and after it, is a float. */
  lemma FloatAt(s: string, d: int)
    requires 0 < d < |Unsigned(s)| - 1 && Unsigned(s)[d] == '.'
    requires Text.AllDigits(Unsigned(s)[..d]) && Text.AllDigits(Unsigned(s)[d + 1..])
    ensures IsFloat(s)
  {
  }

  /** `RE_FLOAT` on sample inputs. */
  lemma FloatExamples()
    ensures IsFloat("3.14") && IsFloat("-0.5") && !IsFloat("3.") && !IsFloat(".5") && !IsFloat("1e5")
  {
    assert "3.14"[..1] == "3" && "3.14"[2..] == "14";
    FloatAt("3.14", 1);
    assert Unsigned("-0.5") == "0.5" && "0.5"[..1] == "0" && "0.5"[2..] == "5";
    FloatAt("-0.5", 1);
    assert forall d :: 0 < d < 2 ==> "1e5"[d] != '.';
  }

  /** `RE_BOOLEAN` on sample inputs, case-insensitive, with U+017F matching 's'. */
  lemma BooleanExamples()
    ensures IsBoolean("TRUE") && IsBoolean("False") && IsBoolean("0") && IsBoolean("fal\U{017F}e")
    ensures !IsBoolean("yes") && !IsBoolean("")
  {
    assert Text.Fold("TRUE") == "true";
    assert Text.Fold("False") == "false";
    assert Text.Fold("fal\U{017F}e") == "false";
    assert Text.Fold("0") == "0";
    assert |Text.Fold("yes")| == 3;
  }

  /** A body whose value is a non-zero integer and whose size exceeds its
      length by one validates as an int. */
  lemma IntRouteAccepts(i: int)
    requires i != 0
    ensures ValidateInt(map["value" := JInt(i), "size" := JInt(|Text.IntToString(i)| + 1)]) == OK
  {
    var body := map["value" := JInt(i), "size" := JInt(|Text.IntToString(i)| + 1)];
    assert Get(body, "value") == JInt(i);
    assert Get(body, "size") == JInt(|Text.IntToString(i)| + 1);
    IntGrammar(i, "");
  }

  /** The same body with value 0 is rejected: 0 is falsy, so E-102. */
  lemma ZeroValueRejected(size: int)
    ensures GetParts(map["value" := JInt(0), "size" := JInt(size)]) == Failure(MissingKeys(["value"]))
    ensures ValidateInt(map["value" := JInt(0), "size" := JInt(size)]) == INTERNAL_SERVER_ERROR
  {
    assert Get(map["value" := JInt(0), "size" := JInt(size)], "value") == JInt(0);
  }

  /** A string fails whenever the size is not larger than its length. */
  lemma StrRouteRejectsShortSize(s: string, size: int)
    requires size <= |s|
    ensures ValidateStr(map["value" := JStr(s), "size" := JInt(size)]) == INTERNAL_SERVER_ERROR
  {
    var body := map["value" := JStr(s), "size" := JInt(size)];
    assert Get(body, "value") == JStr(s);
    assert Get(body, "size") == JInt(size);
  }

  /** A non-empty string passes exactly when the size is larger than its length. */
  lemma StrRouteAccepts(s: string, size: int)
    requires s != [] && size != 0
    ensures ValidateStr(map["value" := JStr(s), "size" := JInt(size)]) == OK <==> |s| < size
  {
    var body := map["value" := JStr(s), "size" := JInt(size)];
    assert Get(body, "value") == JStr(s);
    assert Get(body, "size") == JInt(size);
  }

  /** The size may be any string `int()` reads, white space around the
      digits included: `{"value": "ab", "size": " 5"}` is valid. */
  lemma StrRouteTextSize(s: string, pre: string, n: int, post: string)
    requires s != [] && n != 0
    requires forall k :: 0 <= k < |pre| ==> Text.IsSpace(pre[k])
    requires forall k :: 0 <= k < |post| ==> Text.IsSpace(post[k])
    ensures GetParts(map["value" := JStr(s), "size" := JStr(pre + Text.IntToString(n) + post)]) == Success((s, n))
    ensures ValidateStr(map["value" := JStr(s), "size" := JStr(pre + Text.IntToString(n) + post)]) == OK <==> |s| < n
  {
    var size := pre + Text.IntToString(n) + post;
    var body := map["value" := JStr(s), "size" := JStr(size)];
    assert Get(body, "value") == JStr(s);
    assert Get(body, "size") == JStr(size);
    IntIgnoresPadding(pre, Text.IntToString(n), post);
    IntRoundTrip(n);
    ParseIntRoundTrip(n);
    assert size != [];
  }

  /** The body `{"value": "ab", "size": " 5"}` gives the parts ("ab", 5)
      and passes `validate_str`. */
  lemma PaddedSizeExample()
    ensures GetParts(map["value" := JStr("ab"), "size" := JStr(" 5")]) == Success(("ab", 5))
    ensures ValidateStr(map["value" := JStr("ab"), "size" := JStr(" 5")]) == OK
  {
    PaddedFive();
    StrRouteParsedSize("ab", " 5", 5);
  }

  /** A non-empty value with a non-empty size string that `int()` reads as
      `n` gives the parts (value, n). */
  lemma StrRouteParsedSize(s: string, size: string, n: int)
    requires s != [] && size != [] && ToInt(JStr(size)) == Success(n)
    ensures GetParts(map["value" := JStr(s), "size" := JStr(size)]) == Success((s, n))
    ensures ValidateStr(map["value" := JStr(s), "size" := JStr(size)]) == OK <==> |s| < n
  {
    var body := map["value" := JStr(s), "size" := JStr(size)];
    assert Get(body, "value") == JStr(s);
    assert Get(body, "size") == JStr(size);
  }

  /** A size that is truthy but that `int()` cannot read ends every route
      with the error `int()` raised, hence a 500. */
  lemma UnreadableSize(s: string, size: Json, matches: string -> bool)
    requires s != [] && Truthy(size) && ToInt(size).Failure?
    ensures GetParts(map["value" := JStr(s), "size" := size]) == Failure(ToInt(size).error)
    ensures ValidateStr(map["value" := JStr(s), "size" := size]) == INTERNAL_SERVER_ERROR
    ensures BasicRegexValidation(matches, map["value" := JStr(s), "size" := size]) == Failure(ToInt(size).error)
  {
    var body := map["value" := JStr(s), "size" := size];
    assert Get(body, "value") == JStr(s);
    assert Get(body, "size") == size;
  }

  /** `{"value": "ab", "size": "\u001c5"}`: `int()` does not skip U+001C,
      so `validate_str` answers 500. */
  lemma SeparatorSizeExample()
    ensures ValidateStr(map["value" := JStr("ab"), "size" := JStr("\U{1C}5")]) == INTERNAL_SERVER_ERROR
  {
    RejectsInfoSeparator("\U{1C}5");
    UnreadableSize("ab", JStr("\U{1C}5"), IsInt);
  }

  /** `{"value": "ab", "size": 1e400}` and a NaN size: `json.loads` reads
      them as floats `int()` cannot convert, so every route answers 500. */
  lemma NonFiniteSize(s: string, text: string, v: FloatValue, matches: string -> bool)
    requires s != [] && !v.Finite?
    ensures ValidateStr(map["value" := JStr(s), "size" := JFloat(text, v)]) == INTERNAL_SERVER_ERROR
    ensures Respond(BasicRegexValidation(matches, map["value" := JStr(s), "size" := JFloat(text, v)])) == INTERNAL_SERVER_ERROR
  {
    FloatToInt(text, v);
    UnreadableSize(s, JFloat(text, v), matches);
  }
}
