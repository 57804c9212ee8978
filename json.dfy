/** Request bodies as decoded by `request.get_json()`, and the Python
    built-ins the modelled code applies to their values: `str()`, truth
    testing, `int()`, `len()` and `dict.get`. */
module Json {
  import opened Wrappers
  import opened Errors
  import Text

  /** A float as `json.loads` reads it: a finite number, which `int()`
      truncates, or the infinity that an out-of-range literal such as `1e400`
      or `Infinity` gives, or `NaN`. */
  datatype FloatValue =
    | Finite(truncated: int, isZero: bool)
    | Infinite
    | NaN

  /** A decoded JSON value. Floats and composite values carry the text that
      Python's `str()` gives for them (and, for floats, what `int()` and truth
      testing need) instead of computing it. */
  datatype Json =
    | JNull
    | JBool(b: bool)
    | JInt(i: int)
    | JFloat(text: string, value: FloatValue)
    | JStr(s: string)
    | JArray(items: seq<Json>, text: string)
    | JObject(fields: map<string, Json>, text: string)

  type Body = map<string, Json>

  /** Python's `str(v)`. */
  function Str(v: Json): string
  {
    match v
    case JNull => "None"
    case JBool(b) => if b then "True" else "False"
    case JInt(i) => Text.IntToString(i)
    case JFloat(text, _) => text
    case JStr(s) => s
    case JArray(_, text) => text
    case JObject(_, text) => text
  }

  /** Python's truth value of `v`. */
  predicate Truthy(v: Json)
  {
    match v
    case JNull => false
    case JBool(b) => b
    case JInt(i) => i != 0
    case JFloat(_, value) => !(value.Finite? && value.isZero)
    case JStr(s) => s != ""
    case JArray(items, _) => items != []
    case JObject(fields, _) => fields != map[]
  }

  /** The digits of a base-10 `int()` literal: ASCII digits, where a single
      underscore may stand between two digits. */
  predicate IsDigitGroups(g: string)
  {
    && |g| > 0
    && (forall i :: 0 <= i < |g| ==> Text.IsDigit(g[i]) || g[i] == '_')
    && (forall i :: 0 <= i < |g| && g[i] == '_' ==> Separates(g, i))
  }

  /** The character at `i` stands between two characters and a digit follows it. */
  predicate Separates(g: string, i: int)
  {
    0 < i < |g| - 1 && Text.IsDigit(g[i + 1])
  }

  /** The digits of `g` without its underscores. */
  function RemoveUnderscores(g: string): string
  {
    if g == [] then [] else (if g[0] == '_' then [] else [g[0]]) + RemoveUnderscores(g[1..])
  }

  /** Removing the underscores from digits and underscores leaves digits. */
  lemma {:induction false} RemoveUnderscoresDigits(g: string)
    requires forall i :: 0 <= i < |g| ==> Text.IsDigit(g[i]) || g[i] == '_'
    ensures forall i :: 0 <= i < |RemoveUnderscores(g)| ==> Text.IsDigit(RemoveUnderscores(g)[i])
  {
    if g != [] {
      RemoveUnderscoresDigits(g[1..]);
    }
  }

  /** A string without underscores is left as it is. */
  lemma {:induction false} RemoveUnderscoresNone(g: string)
    requires forall i :: 0 <= i < |g| ==> g[i] != '_'
    ensures RemoveUnderscores(g) == g
  {
    if g != [] {
      RemoveUnderscoresNone(g[1..]);
      assert g == [g[0]] + g[1..];
    }
  }

  /** The value of digit groups. */
  function GroupsValue(g: string): nat
    requires IsDigitGroups(g)
  {
    RemoveUnderscoresDigits(g);
    Text.DigitsValue(RemoveUnderscores(g))
  }

  /** An optional sign followed by digit groups. */
  predicate IsSignedGroups(t: string)
  {
    if |t| > 0 && (t[0] == '-' || t[0] == '+') then IsDigitGroups(t[1..]) else IsDigitGroups(t)
  }

  /** `int()` on a string once its surrounding white space is stripped. */
  function ParseInt(t: string): Result<int, Error>
  {
    if !IsSignedGroups(t) then Failure(ValueError("invalid literal for int() with base 10"))
    else if t[0] == '-' then (var n: int := GroupsValue(t[1..]); Success(-n))
    else if t[0] == '+' then Success(GroupsValue(t[1..]))
    else Success(GroupsValue(t))
  }

  /** Python's `int(v)`. */
  function ToInt(v: Json): Result<int, Error>
  {
    match v
    case JNull => Failure(TypeError("int() argument must be a string or a number, not 'NoneType'"))
    case JBool(b) => Success(if b then 1 else 0)
    case JInt(i) => Success(i)
    case JFloat(_, Finite(truncated, _)) => Success(truncated)
    case JFloat(_, Infinite) => Failure(OverflowError("cannot convert float infinity to integer"))
    case JFloat(_, NaN) => Failure(ValueError("cannot convert float NaN to integer"))
    case JStr(s) => ParseInt(Text.Strip(s))
    case JArray(_, _) => Failure(TypeError("int() argument must be a string or a number, not 'list'"))
    case JObject(_, _) => Failure(TypeError("int() argument must be a string or a number, not 'dict'"))
  }

  /** Python's `len(v)`. */
  function Len(v: Json): Result<int, Error>
  {
    match v
    case JStr(s) => Success(|s|)
    case JArray(items, _) => Success(|items|)
    case JObject(fields, _) => Success(|fields|)
    case _ => Failure(TypeError("object has no len()"))
  }

  /** `body.get(key, None)`. */
  function Get(body: Body, key: string): Json
  {
    if key in body then body[key] else JNull
  }

  /** Plain digits are digit groups worth their decimal value. */
  lemma DigitsAreGroups(g: string)
    requires Text.AllDigits(g)
    ensures IsDigitGroups(g) && GroupsValue(g) == Text.DigitsValue(g)
  {
    RemoveUnderscoresNone(g);
  }

  /** `int(str(i))` gives `i` back. */
  lemma IntRoundTrip(i: int)
    ensures ToInt(JStr(Text.IntToString(i))) == Success(i)
  {
    var s := Text.IntToString(i);
    ParseIntRoundTrip(i);
    assert !Text.IsSpace(s[0]) && !Text.IsSpace(s[|s| - 1]);
    Text.StripUnchanged(s);
  }

  /** The text `str(i)` parses back to `i`, and is a sign or a digit
      followed by digits. */
  lemma ParseIntRoundTrip(i: int)
    ensures ParseInt(Text.IntToString(i)) == Success(i)
    ensures var s := Text.IntToString(i); |s| > 0 && (s[0] == '-' || Text.IsDigit(s[0])) && Text.IsDigit(s[|s| - 1])
  {
    if i < 0 {
      ParseNegative(i);
    } else {
      ParseNatural(i);
    }
  }

  lemma ParseNatural(i: int)
    requires i >= 0
    ensures ParseInt(Text.IntToString(i)) == Success(i)
    ensures var s := Text.IntToString(i); |s| > 0 && Text.IsDigit(s[0]) && Text.IsDigit(s[|s| - 1])
  {
    var s := Text.NatToString(i);
    assert Text.IntToString(i) == s;
    Text.NatToStringDigits(i);
    assert s[0] != '-' && s[0] != '+';
    DigitsAreGroups(s);
  }

  lemma ParseNegative(i: int)
    requires i < 0
    ensures ParseInt(Text.IntToString(i)) == Success(i)
    ensures var s := Text.IntToString(i); |s| > 1 && s[0] == '-' && Text.IsDigit(s[|s| - 1])
  {
    var d := Text.NatToString(-i);
    Text.NatToStringDigits(-i);
    ParseMinus(d, -i);
  }

  /** A minus sign before a run of digits negates their value. */
  lemma ParseMinus(d: string, n: nat)
    requires Text.AllDigits(d) && Text.DigitsValue(d) == n
    ensures ParseInt("-" + d) == Success(-(n as int))
    ensures var s := "-" + d; |s| > 1 && Text.IsDigit(s[|s| - 1])
  {
    DigitsAreGroups(d);
    var s := "-" + d;
    assert s[1..] == d;
    assert s[|s| - 1] == d[|d| - 1];
    assert IsSignedGroups(s);
  }

  /** `int()` reads a string the same with white space around it. */
  lemma IntIgnoresPadding(pre: string, s: string, post: string)
    requires forall k :: 0 <= k < |pre| ==> Text.IsSpace(pre[k])
    requires forall k :: 0 <= k < |post| ==> Text.IsSpace(post[k])
    ensures ToInt(JStr(pre + s + post)) == ToInt(JStr(s))
  {
    Text.StripIgnoresPadding(pre, s, post);
  }

  /** Removing underscores distributes over concatenation. */
  lemma {:induction false} RemoveUnderscoresAppend(a: string, b: string)
    ensures RemoveUnderscores(a + b) == RemoveUnderscores(a) + RemoveUnderscores(b)
  {
    if a == [] {
      assert a + b == b;
    } else {
      assert (a + b)[0] == a[0];
      assert (a + b)[1..] == a[1..] + b;
      RemoveUnderscoresAppend(a[1..], b);
    }
  }

  /** An underscore between two digit groups joins them without changing
      the value: `int("1_000") == int("1000")`. */
  lemma UnderscoreSeparator(a: string, b: string)
    requires IsDigitGroups(a) && IsDigitGroups(b)
    ensures IsDigitGroups(a + b) && IsDigitGroups(a + "_" + b)
    ensures GroupsValue(a + "_" + b) == GroupsValue(a + b)
  {
    GroupsAppend(a, b);
    GroupsJoin(a, b);
    RemoveUnderscoresAppend(a + "_", b);
    RemoveUnderscoresAppend(a, "_");
    assert RemoveUnderscores("_") == [];
    assert RemoveUnderscores(a + "_") == RemoveUnderscores(a);
    RemoveUnderscoresAppend(a, b);
    assert RemoveUnderscores(a + "_" + b) == RemoveUnderscores(a + b);
  }

  lemma GroupsAppend(a: string, b: string)
    requires IsDigitGroups(a) && IsDigitGroups(b)
    ensures IsDigitGroups(a + b)
  {
    var ab := a + b;
    forall i | 0 <= i < |ab|
      ensures Text.IsDigit(ab[i]) || ab[i] == '_'
      ensures ab[i] == '_' ==> Separates(ab, i)
    {
      if i < |a| {
        assert ab[i] == a[i];
        if a[i] == '_' { assert Separates(a, i); assert ab[i + 1] == a[i + 1]; }
      } else {
        assert ab[i] == b[i - |a|];
        if b[i - |a|] == '_' { assert Separates(b, i - |a|); assert ab[i + 1] == b[i + 1 - |a|]; }
      }
    }
  }

  lemma GroupsJoin(a: string, b: string)
    requires IsDigitGroups(a) && IsDigitGroups(b)
    ensures IsDigitGroups(a + "_" + b)
  {
    var aub := a + "_" + b;
    assert b[0] != '_';
    forall i | 0 <= i < |aub|
      ensures Text.IsDigit(aub[i]) || aub[i] == '_'
      ensures aub[i] == '_' ==> Separates(aub, i)
    {
      if i < |a| {
        assert aub[i] == a[i];
        if a[i] == '_' { assert Separates(a, i); assert aub[i + 1] == a[i + 1]; }
      } else if i == |a| {
        assert aub[i + 1] == b[0];
      } else {
        assert aub[i] == b[i - |a| - 1];
        if b[i - |a| - 1] == '_' { assert Separates(b, i - |a| - 1); assert aub[i + 1] == b[i - |a|]; }
      }
    }
  }

  /** `int()` skips surrounding white space: `int(" 5") == 5` and
      `int("-7\n") == -7`. */
  lemma ToIntPaddedExamples()
    ensures ToInt(JStr(" 5")) == Success(5)
    ensures ToInt(JStr("-7\n")) == Success(-7)
  {
    PaddedFive();
    PaddedMinusSeven();
  }

  lemma PaddedFive()
    ensures ToInt(JStr(" 5")) == Success(5)
  {
    StrippedFive();
    ParseIntRoundTrip(5);
    ParsesAfterStrip(" 5", "5", 5);
  }

  lemma PaddedMinusSeven()
    ensures ToInt(JStr("-7\n")) == Success(-7)
  {
    StrippedMinusSeven();
    ParseIntRoundTrip(-7);
    ParsesAfterStrip("-7\n", "-7", -7);
  }

  lemma StrippedFive()
    ensures Text.Strip(" 5") == "5"
  {
    assert " 5" == " " + "5";
    StrippedSplit(" ", "5", "");
  }

  lemma StrippedMinusSeven()
    ensures Text.Strip("-7\n") == "-7"
  {
    assert "-7\n" == "-7" + "\n";
    StrippedSplit("", "-7", "\n");
  }

  /** A string without white space at its ends, padded with white space,
      strips back to itself. */
  lemma StrippedSplit(pre: string, s: string, post: string)
    requires forall k :: 0 <= k < |pre| ==> Text.IsSpace(pre[k])
    requires forall k :: 0 <= k < |post| ==> Text.IsSpace(post[k])
    requires |s| > 0 ==> !Text.IsSpace(s[0]) && !Text.IsSpace(s[|s| - 1])
    ensures Text.Strip(pre + s + post) == s
  {
    Text.StripIgnoresPadding(pre, s, post);
    Text.StripUnchanged(s);
  }

  lemma ParsesAfterStrip(s: string, t: string, i: int)
    requires Text.Strip(s) == t && ParseInt(t) == Success(i)
    ensures ToInt(JStr(s)) == Success(i)
  {
  }

  /** `int("1_0") == 10`. */
  lemma ToIntUnderscoreExample()
    ensures ToInt(JStr("1_0")) == Success(10)
  {
    OneUnderscoreZero();
    Text.StripUnchanged("1_0");
    ParsesAfterStrip("1_0", "1_0", 10);
  }

  lemma OneUnderscoreZero()
    ensures ParseInt("1_0") == Success(10)
  {
    assert "1_0" == "1" + "_" + "0";
    JoinedValue("1", "0", 10);
  }

  /** Two runs of digits joined by an underscore parse as the run of all
      their digits. */
  lemma JoinedValue(a: string, b: string, n: int)
    requires Text.AllDigits(a) && Text.AllDigits(b) && a[0] != '-' && a[0] != '+'
    requires Text.DigitsValue(a + b) == n
    ensures ParseInt(a + "_" + b) == Success(n)
  {
    DigitsAreGroups(a);
    DigitsAreGroups(b);
    UnderscoreSeparator(a, b);
    DigitsAreGroups(a + b);
    assert (a + "_" + b)[0] == a[0];
  }

  /** `int()` refuses two underscores in a row, e.g. "1__0". */
  lemma RejectsDoubleUnderscore(a: string, b: string)
    requires Text.AllDigits(a) && Text.AllDigits(b)
    ensures ToInt(JStr(a + "__" + b)).Failure?
  {
    var t := a + "__" + b;
    Text.StripUnchanged(t);
    assert t[|a|] == '_' && t[|a| + 1] == '_';
    assert !Separates(t, |a|);
    assert t[0] == a[0];
    assert t[1..][|a| - 1] == '_';
    assert !Separates(t[1..], |a| - 1);
  }

  /** `int()` refuses a leading underscore, e.g. "_1". */
  lemma RejectsLeadingUnderscore(g: string)
    requires Text.AllDigits(g)
    ensures ToInt(JStr("_" + g)).Failure?
  {
    var t := "_" + g;
    Text.StripUnchanged(t);
    assert t[0] == '_';
    assert !Separates(t, 0);
  }

  /** `int()` refuses a trailing underscore, e.g. "1_". */
  lemma RejectsTrailingUnderscore(g: string)
    requires Text.AllDigits(g)
    ensures ToInt(JStr(g + "_")).Failure?
  {
    var t := g + "_";
    Text.StripUnchanged(t);
    assert t[|g|] == '_' && t[0] == g[0];
    assert !Separates(t, |g|);
    assert !Separates(t[1..], |g| - 1);
  }

  /** `int()` refuses white space between the sign and the digits, e.g. "- 5". */
  lemma RejectsSpaceAfterSign(g: string)
    requires Text.AllDigits(g)
    ensures ToInt(JStr("-" + " " + g)).Failure?
  {
    var t := "-" + " " + g;
    assert t[0] == '-' && t[|t| - 1] == g[|g| - 1];
    Text.StripUnchanged(t);
    assert t[1..][0] == ' ';
  }

  /** `int()` refuses white space alone, the empty string included. */
  lemma RejectsBlank(w: string)
    requires forall k :: 0 <= k < |w| ==> Text.IsSpace(w[k])
    ensures ToInt(JStr(w)).Failure?
  {
    assert w == w + "" + "";
    Text.StripIgnoresPadding(w, "", "");
    Text.StripUnchanged("");
  }

  /** `int()` refuses a decimal point, e.g. "1.5". */
  lemma RejectsDot(a: string, b: string)
    requires Text.AllDigits(a) && Text.AllDigits(b)
    ensures ToInt(JStr(a + "." + b)).Failure?
  {
    var t := a + "." + b;
    assert t[0] == a[0] && t[|t| - 1] == b[|b| - 1];
    Text.StripUnchanged(t);
    assert t[|a|] == '.';
    assert t[1..][|a| - 1] == '.';
  }

  /** `int()` keeps the separators U+001C..U+001F: a string starting with one
      is a ValueError, though `str.isspace()` counts them as white space. */
  lemma RejectsInfoSeparator(s: string)
    requires |s| > 0 && '\U{1C}' <= s[0] <= '\U{1F}'
    ensures ToInt(JStr(s)).Failure? && ToInt(JStr(s)).error.ValueError?
  {
    assert !Text.IsSpace(s[0]);
    var l := Text.StripLeft(s);
    assert l == s;
    var r := Text.StripRight(s);
    assert |r| > 0 && r[0] == s[0];
    assert !IsDigitGroups(r) by {
      assert !Text.IsDigit(r[0]) && r[0] != '_';
    }
  }

  /** `int()` of a float truncates a finite one and raises for infinity
      (OverflowError) and NaN (ValueError); only a finite zero is falsy. */
  lemma FloatToInt(text: string, v: FloatValue)
    ensures ToInt(JFloat(text, v)).Success? <==> v.Finite?
    ensures v.Finite? ==> ToInt(JFloat(text, v)) == Success(v.truncated)
    ensures v.Infinite? ==> ToInt(JFloat(text, v)).error.OverflowError?
    ensures v.NaN? ==> ToInt(JFloat(text, v)).error.ValueError?
    ensures Truthy(JFloat(text, v)) <==> !(v.Finite? && v.isZero)
  {
  }
}
