/** The custom mongoengine fields of `fields.py`. Both validators answer with
    a boolean and never raise. */
module Fields {
  import Text
  import Uri

  /** `ForgivingURLField.validate`: the fields.py copy of the URI grammar. */
  predicate ForgivingUrlValidate(value: string)
  {
    Uri.Matches(value, Uri.Segments)
  }

  /** `[a-z\d\_\-]`. */
  predicate IsSlugChar(c: char)
  {
    Text.IsLower(c) || Text.IsDigit(c) || c == '_' || c == '-'
  }

  /** `[a-z\d\_\-]*`, consumed one character at a time. */
  function SlugTail(s: string): (r: bool)
    ensures r <==> forall i :: 0 <= i < |s| ==> IsSlugChar(s[i])
  {
    if s == [] then true
    else if IsSlugChar(s[0]) then SlugTail(s[1..])
    else (assert !IsSlugChar(s[0]); false)
  }

  /** `SlugField.validate`: `RE_SLUG` is `^[a-z\d\_\-]+$`, one or more slug characters. */
  function SlugValidate(value: string): (r: bool)
    ensures r <==> |value| > 0 && forall i :: 0 <= i < |value| ==> IsSlugChar(value[i])
  {
    |value| > 0 && IsSlugChar(value[0]) && SlugTail(value[1..])
  }

  /** The slugs documented on `SlugField` pass. */
  lemma SlugExamples()
    ensures SlugValidate("my-name") && SlugValidate("my_name")
  {
  }

  /** Two slugs side by side make a slug. */
  lemma SlugConcat(a: string, b: string, s: string)
    requires s == a + b && SlugValidate(a) && SlugValidate(b)
    ensures SlugValidate(s)
  {
    forall i | 0 <= i < |s| ensures IsSlugChar(s[i]) {
      if i < |a| { assert s[i] == a[i]; } else { assert s[i] == b[i - |a|]; }
    }
  }

  /** Digits count as slug characters. */
  lemma SlugWithDigit()
    ensures SlugValidate("the_4th_one")
  {
    assert SlugValidate("the_4") && SlugValidate("th_one");
    SlugConcat("the_4", "th_one", "the_4th_one");
  }

  /** Capitals, spaces and the empty string do not. */
  lemma SlugCounterExamples()
    ensures !SlugValidate("My-name") && !SlugValidate("my name") && !SlugValidate("")
  {
    assert !IsSlugChar("My-name"[0]);
    assert !IsSlugChar("my name"[2]);
  }

  /** Every slug is a forgiving URL: a domain of name characters without dots. */
  lemma SlugIsUrl(value: string)
    requires SlugValidate(value)
    ensures ForgivingUrlValidate(value)
  {
    assert Uri.IsDomain(value);
    assert value[0..|value|] == value;
    assert Uri.SplitsAt(value, Uri.Segments, 0, |value|, |value|);
  }

  /** The URLs documented on `ForgivingURLField` pass, and so does the empty string. */
  lemma ForgivingUrlExamples()
    ensures ForgivingUrlValidate("/path/to/file/")
    ensures ForgivingUrlValidate("/path/to/file/" + "?format=jpeg")
    ensures ForgivingUrlValidate("example.com" + "?" + "param=1" + "&other=2")
    ensures ForgivingUrlValidate("")
  {
    Uri.PathExample();
    Uri.PathQueryExample();
    Uri.DomainQueryExample();
    Uri.EmptyMatches(Uri.Segments);
  }

  /** A space before any '?' makes a URL invalid. */
  lemma SpaceRejected(value: string, p: int)
    requires 0 <= p < |value| && value[p] == ' '
    requires forall t :: 0 <= t < p ==> value[t] != '?'
    ensures !ForgivingUrlValidate(value)
  {
    Uri.ForeignCharacterRejected(value, p);
  }
}
