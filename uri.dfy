/** The "forgiving" URI grammar, which exists in two copies: `fields.py`
    (`RE_URI`, path segments of word characters and '-') and
    `onebase_api/api/validators.py` (`RE_URI`, a path of any characters but
    '?'). Every part is optional: protocol, domain, path, query. The regex is
    anchored at both ends, so acceptance is membership of the whole string. */
module Uri {
  import Text

  datatype PathFlavour = Segments | AnyButQuery

  /** `[\w\d\-]`. */
  predicate IsNameChar(c: char) { Text.IsWordChar(c) || c == '-' }

  /** `\w{1,5}\:\/\/`. */
  predicate IsProtocol(s: string)
  {
    4 <= |s| <= 8 && s[|s| - 3..] == "://"
    && forall t :: 0 <= t < |s| - 3 ==> Text.IsWordChar(s[t])
  }

  /** `([\w\d\-](\.[\w\d\-])*)+`: name characters and dots, starting and
      ending with a name character, never two dots in a row. */
  predicate IsDomain(s: string)
  {
    |s| > 0 && IsNameChar(s[0]) && IsNameChar(s[|s| - 1])
    && (forall t :: 0 <= t < |s| ==> IsNameChar(s[t]) || s[t] == '.')
    && (forall t :: 0 <= t < |s| - 1 ==> s[t] == '.' ==> s[t + 1] != '.')
  }

  /** `\/([\w\d\-]\/?)*` in fields.py: a '/' followed by name characters and
      single slashes; `\/([^\?]\/?)*` in validators.py: a '/' followed by
      anything but '?'. */
  predicate IsPath(s: string, flavour: PathFlavour)
  {
    |s| > 0 && s[0] == '/'
    && match flavour
       case Segments =>
         (forall t :: 0 <= t < |s| ==> IsNameChar(s[t]) || s[t] == '/')
         && (forall t :: 0 <= t < |s| - 1 ==> s[t] == '/' ==> s[t + 1] != '/')
       case AnyButQuery =>
         forall t :: 0 <= t < |s| ==> s[t] != '?'
  }

  /** `([^\=]+\=[^\&]+)*`: a sequence of key=value pairs, keys without '='
      and values without '&', both non-empty. */
  predicate IsPairs(s: string)
    decreases |s|
  {
    s == [] ||
    exists e, v :: 0 < e && e + 1 < v <= |s| && s[e] == '='
      && (forall t :: 0 <= t < e ==> s[t] != '=')
      && (forall t :: e < t < v ==> s[t] != '&')
      && IsPairs(s[v..])
  }

  /** `\?([^\=]+\=[^\&]+)*`. */
  predicate IsQuery(s: string)
  {
    |s| > 0 && s[0] == '?' && IsPairs(s[1..])
  }

  /** The string splits at i <= j <= k into an optional protocol, domain,
      path and query. */
  predicate SplitsAt(s: string, flavour: PathFlavour, i: int, j: int, k: int)
  {
    0 <= i <= j <= k <= |s|
    && (i == 0 || IsProtocol(s[..i]))
    && (j == i || IsDomain(s[i..j]))
    && (k == j || IsPath(s[j..k], flavour))
    && (k == |s| || IsQuery(s[k..]))
  }

  /** `RE_URI(value) is not None`. */
  predicate Matches(s: string, flavour: PathFlavour)
  {
    exists i, j, k | 0 <= i <= j <= k <= |s| :: SplitsAt(s, flavour, i, j, k)
  }

  /** Every part is optional: the empty string is a URL. */
  lemma EmptyMatches(flavour: PathFlavour)
    ensures Matches("", flavour)
  {
    assert SplitsAt("", flavour, 0, 0, 0);
  }

  /** `key=value` with a non-empty key without '=' and a non-empty value without '&'. */
  lemma SinglePair(key: string, value: string)
    requires |key| > 0 && |value| > 0 && '=' !in key && '&' !in value
    ensures IsPairs(key + "=" + value)
  {
    var s := key + "=" + value;
    var e, v := |key|, |s|;
    assert s[e] == '=';
    forall t | 0 <= t < e ensures s[t] != '=' {
      assert s[t] == key[t];
    }
    forall t | e < t < v ensures s[t] != '&' {
      assert s[t] == value[t - e - 1];
    }
    assert s[v..] == [];
  }

  /** Pairs prefixed by one more pair are pairs. */
  lemma ConsPair(key: string, value: string, rest: string)
    requires |key| > 0 && |value| > 0 && '=' !in key && '&' !in value && IsPairs(rest)
    ensures IsPairs(key + "=" + value + rest)
  {
    var s := key + "=" + value + rest;
    var e, v := |key|, |key| + 1 + |value|;
    assert s[e] == '=';
    forall t | 0 <= t < e ensures s[t] != '=' {
      assert s[t] == key[t];
    }
    forall t | e < t < v ensures s[t] != '&' {
      assert s[t] == value[t - e - 1];
    }
    assert s[v..] == rest;
  }

  /** A domain followed by a query is a URL. */
  lemma DomainQuery(s: string, d: string, q: string, flavour: PathFlavour)
    requires s == d + q && IsDomain(d) && IsQuery(q)
    ensures Matches(s, flavour)
  {
    assert s[0..|d|] == d && s[|d|..] == q;
    assert SplitsAt(s, flavour, 0, |d|, |d|);
  }

  /** A path followed by an optional query is a URL. */
  lemma PathQuery(s: string, p: string, q: string, flavour: PathFlavour)
    requires s == p + q && IsPath(p, flavour) && (q == [] || IsQuery(q))
    ensures Matches(s, flavour)
  {
    assert s[0..|p|] == p && s[|p|..] == q;
    assert SplitsAt(s, flavour, 0, 0, |p|);
  }

  /** The examples documented on `ForgivingURLField`. */
  lemma PathExample()
    ensures Matches("/path/to/file/", Segments)
  {
    assert IsPath("/path/to/file/", Segments);
    PathQuery("/path/to/file/", "/path/to/file/", "", Segments);
  }

  /** A '?' followed by pairs is a query. */
  lemma QueryOfPairs(q: string, pairs: string)
    requires q == "?" + pairs && IsPairs(pairs)
    ensures IsQuery(q)
  {
    assert q[1..] == pairs;
  }

  lemma FormatQuery()
    ensures IsQuery("?format=jpeg")
  {
    SinglePair("format", "jpeg");
    QueryOfPairs("?format=jpeg", "format" + "=" + "jpeg");
  }

  // The longer examples below are written as concatenations of their
  // parts: the same strings, split where the grammar splits them.

  lemma PathQueryExample()
    ensures Matches("/path/to/file/" + "?format=jpeg", Segments)
  {
    assert IsPath("/path/to/file/", Segments);
    FormatQuery();
    PathQuery("/path/to/file/" + "?format=jpeg", "/path/to/file/", "?format=jpeg", Segments);
  }

  /** In "?param=1&other=2" the '&' opens the second key: values exclude '&', keys do not. */
  lemma ParamQuery()
    ensures IsQuery("?" + "param=1" + "&other=2")
  {
    SinglePair("&other", "2");
    ConsPair("param", "1", "&other" + "=" + "2");
    QueryOfPairs("?" + "param=1" + "&other=2", "param" + "=" + "1" + ("&other" + "=" + "2"));
  }

  lemma ExampleDomain()
    ensures IsDomain("example.com")
  {
  }

  lemma DomainQueryExample()
    ensures Matches("example.com" + "?" + "param=1" + "&other=2", Segments)
  {
    ExampleDomain();
    ParamQuery();
    DomainQuery("example.com" + "?" + "param=1" + "&other=2", "example.com", "?" + "param=1" + "&other=2", Segments);
  }

  lemma NotProtocol(x: string, q: int)
    requires 0 <= q < |x| && !Text.IsWordChar(x[q]) && x[q] != ':' && x[q] != '/'
    ensures !IsProtocol(x)
  {
    if 3 <= |x| && |x| - 3 <= q {
      assert x[|x| - 3..][q - (|x| - 3)] == x[q];
    }
  }

  /** A space, or any other character outside name characters and '.', '/',
      ':', makes the fields.py URL invalid when no '?' comes before it. */
  lemma ForeignCharacterRejected(s: string, p: int)
    requires 0 <= p < |s|
    requires !IsNameChar(s[p]) && s[p] !in "./:?"
    requires forall t :: 0 <= t < p ==> s[t] != '?'
    ensures !Matches(s, Segments)
  {
    forall i, j, k | 0 <= i <= j <= k <= |s| ensures !SplitsAt(s, Segments, i, j, k) {
      if k <= p {
        assert s[k..][0] == s[k];
      } else if p < i {
        assert s[..i][p] == s[p];
        NotProtocol(s[..i], p);
      } else if p < j {
        assert s[i..j][p - i] == s[p];
      } else {
        assert s[j..k][p - j] == s[p];
      }
    }
  }

  /** In the validators.py copy, the path accepts characters the fields.py
      copy refuses, such as a space. */
  lemma FlavoursDiffer()
    ensures Matches("/a b", AnyButQuery)
    ensures !Matches("/a b", Segments)
  {
    assert SplitsAt("/a b", AnyButQuery, 0, 0, 4);
    ForeignCharacterRejected("/a b", 2);
  }
}
