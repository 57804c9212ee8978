/** `Color` of `onebase_api/models/types/color.py`: a regex-validated type. */
module ColorType {
  import opened Wrappers
  import opened Errors
  import opened Json
  import Text
  import TypeBase

  const Names: seq<string> := ["COLOR"]

  /** `SIZES`: named square sizes in pixels. */
  const Sizes: map<string, int> := map[
    "bit" := 1, "micro" := 25, "small" := 75, "medium" := 400, "large" := 1024, "huge" := 2048
  ]

  const DefaultSize := "small"

  /** `EXPRESSION`, `^\#[\w\d]{6,8}$`: a '#' and six to eight word characters. */
  predicate IsColorExpression(s: string)
  {
    7 <= |s| <= 9 && s[0] == '#' && forall i :: 1 <= i < |s| ==> Text.IsWordChar(s[i])
  }

  function Validate(value: Json): Result<bool, Error>
  {
    TypeBase.RegexValidate(value, IsColorExpression)
  }

  /** `prepare`: the slot is stored as it is. */
  function Prepare(slot: TypeBase.Slot): (r: TypeBase.Slot)
    ensures r == slot
  {
    slot
  }

  /** A string value validates exactly when it is '#' and six to eight word
      characters (not only hex digits); anything else is reported invalid,
      never raised, since no such string exceeds the size cap unless it is
      over 1024 characters long. */
  lemma ValidateSpec(s: string)
    requires |s| <= TypeBase.MaximumSize
    ensures Validate(JStr(s)) == Success(IsColorExpression(s))
  {
    TypeBase.RegexValidateSpec(JStr(s), IsColorExpression);
  }

  lemma ColorExamples()
    ensures IsColorExpression("#ffffff") && IsColorExpression("#FFFFFF80") && IsColorExpression("#zz_zzz")
    ensures !IsColorExpression("ffffff") && !IsColorExpression("#fffff")
    ensures !IsColorExpression("#fffffffff") && !IsColorExpression("#fff fff")
  {
    assert !Text.IsWordChar("#fff fff"[4]);
  }

  /** The default size is one of the sizes, and the sizes grow with their names' order. */
  lemma SizesSpec()
    ensures DefaultSize in Sizes && Sizes[DefaultSize] == 75
    ensures Sizes["bit"] < Sizes["micro"] < Sizes["small"] < Sizes["medium"] < Sizes["large"] < Sizes["huge"]
    ensures |Sizes| == 6
  {
  }
}
