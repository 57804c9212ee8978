/** The database-shaped documents of onebase_api/models/main.py: the remote
    validation rule of `Type`, the rendering of a `Path` and of a `Node`'s
    full path, and `Value.validate`.

    The HTTP call to the validator becomes its outcome, a status code and a
    response body, given as parameters. `join` is POSIX path joining. */
module MainModels {
  import opened Wrappers
  import opened Errors
  import Fields

  // ---------------------------------------------------------------------
  // Type.validate_value

  /** Status code of a successful validator response. */
  const OK: int := 200

  /** `Type.validate_value` as written: a 200 from the validator raises a
      OneBaseException carrying the response body; any other status
      returns True. */
  function ValidateValue(status: int, body: string): (r: Result<bool, Error>)
    ensures r.Success? ==> r.value
  {
    if status == OK then Failure(RemoteRejected(body)) else Success(true)
  }

  /** What the docstring promises: True on a successful validator response,
      a OneBaseException otherwise. */
  function ValidateValueIntended(status: int, body: string): (r: Result<bool, Error>)
    ensures r.Success? ==> r.value
  {
    if status == OK then Success(true) else Failure(RemoteRejected(body))
  }

  /** As written, a value is accepted exactly when the validator does NOT
      answer 200, and the raised code is the validator's body. */
  lemma ValidateValueSpec(status: int, body: string)
    ensures ValidateValue(status, body).Success? <==> status != OK
    ensures ValidateValue(status, body).Failure? ==>
              ValidateValue(status, body).error.Code() == Some(body)
  {
  }

  /** The code as written is the exact inverse of the documented rule: it
      accepts precisely the values the validator rejects. */
  lemma ValidateValueInverted(status: int, body: string)
    ensures ValidateValue(status, body).Success? <==> ValidateValueIntended(status, body).Failure?
    ensures ValidateValueIntended(status, body).Success? <==> status == OK
  {
  }

  /** A validator that accepts the value (200) makes `validate_value` raise. */
  lemma ValidateValueCounterexample()
    ensures ValidateValue(200, "").Failure?
    ensures ValidateValueIntended(200, "") == Success(true)
  {
  }

  // ---------------------------------------------------------------------
  // Path and Node

  /** A directory-like path element; `parent` is the enclosing element. */
  datatype Path = Path(name: string, parent: Option<Path>)

  /** `posixpath.join(a, b)`: an absolute `b` replaces `a`; otherwise `b` is
      appended, with a '/' in between unless `a` is empty or already ends
      with one. */
  function Join(a: string, b: string): (r: string)
    ensures |b| > 0 && b[0] == '/' ==> r == b
    ensures !(|b| > 0 && b[0] == '/') ==> (|a| == 0 || a[|a| - 1] == '/' ==> r == a + b)
    ensures !(|b| > 0 && b[0] == '/') && |a| > 0 && a[|a| - 1] != '/' ==> r == a + "/" + b
  {
    if |b| > 0 && b[0] == '/' then b
    else if |a| == 0 || a[|a| - 1] == '/' then a + b
    else a + "/" + b
  }

  /** `Path.__str__`: a root renders as '/' followed by its name; any other
      element is its parent's rendering joined with its name. */
  function PathStr(p: Path): string
    decreases p
  {
    match p.parent
    case None => "/" + p.name
    case Some(q) => Join(PathStr(q), p.name)
  }

  /** The names from the root down to `p`. */
  function Names(p: Path): (r: seq<string>)
    ensures |r| > 0 && r[|r| - 1] == p.name
    decreases p
  {
    match p.parent
    case None => [p.name]
    case Some(q) => Names(q) + [p.name]
  }

  /** Each name preceded by a '/'. */
  function Slashed(names: seq<string>): string
  {
    if |names| == 0 then "" else Slashed(names[..|names| - 1]) + "/" + names[|names| - 1]
  }

  /** A name that can stand as one path segment: non-empty and free of '/'. */
  predicate IsSegment(name: string)
  {
    |name| > 0 && forall i :: 0 <= i < |name| ==> name[i] != '/'
  }

  /** Every rendered path is absolute. */
  lemma {:induction false} PathStrAbsolute(p: Path)
    ensures |PathStr(p)| > 0 && PathStr(p)[0] == '/'
    decreases p
  {
    match p.parent
    case None =>
    case Some(q) =>
      PathStrAbsolute(q);
  }

  /** For a chain of proper segment names the rendering is '/'-separated
      names from the root down: a -> b -> c renders as "/a/b/c". */
  lemma {:induction false} PathStrChain(p: Path)
    requires forall n | n in Names(p) :: IsSegment(n)
    ensures PathStr(p) == Slashed(Names(p))
    decreases p
  {
    match p.parent
    case None =>
      assert Names(p) == [p.name];
      assert Names(p)[..0] == [];
    case Some(q) =>
      assert Names(p) == Names(q) + [p.name];
      assert forall n | n in Names(q) :: n in Names(p);
      PathStrChain(q);
      var qs := Names(q);
      assert qs[|qs| - 1] == q.name && IsSegment(q.name);
      SlashedEndsWith(qs);
      assert p.name in Names(p);
      assert Names(p)[..|Names(p)| - 1] == qs;
  }

  /** A non-empty list whose last name is a segment renders without a
      trailing '/'. */
  lemma SlashedEndsWith(names: seq<string>)
    requires |names| > 0 && IsSegment(names[|names| - 1])
    ensures |Slashed(names)| > 0 && Slashed(names)[|Slashed(names)| - 1] != '/'
  {
    var last := names[|names| - 1];
    assert Slashed(names) == Slashed(names[..|names| - 1]) + "/" + last;
    assert Slashed(names)[|Slashed(names)| - 1] == last[|last| - 1];
  }

  /** The three-level example: /a/b/c. */
  lemma ThreeLevels()
    ensures PathStr(Path("c", Some(Path("b", Some(Path("a", None)))))) == "/a/b/c"
  {
    var a := Path("a", None);
    var b := Path("b", Some(a));
    assert PathStr(a) == "/a";
    assert PathStr(b) == "/a" + "/" + "b";
  }

  /** A name starting with '/' discards everything above it: `join` treats
      it as absolute. */
  lemma AbsoluteNameDropsParent(name: string, q: Path)
    requires |name| > 0 && name[0] == '/'
    ensures PathStr(Path(name, Some(q))) == name
  {
  }

  /** `Path.children`: the query result is computed and dropped, so the
      property always yields None, whatever the store holds. */
  function Children(store: seq<Path>, p: Path): (r: Option<seq<Path>>)
    ensures r.None?
  {
    None
  }

  /** A table, placed at one path; `name` is a slug. */
  datatype Node = Node(name: string, path: Path)

  /** `Node.full_path`: the path's rendering joined with the node's name. */
  function FullPath(n: Node): string
  {
    Join(PathStr(n.path), n.name)
  }

  /** A node's full path is the rendering of a path element of the same
      name placed under the node's path; for a slug name under proper
      segments it is the '/'-separated chain ending in the node's name. */
  lemma FullPathSpec(n: Node)
    ensures FullPath(n) == PathStr(Path(n.name, Some(n.path)))
    ensures |FullPath(n)| > 0 && FullPath(n)[0] == '/'
    ensures Fields.SlugValidate(n.name) && (forall m | m in Names(n.path) :: IsSegment(m)) ==>
              FullPath(n) == Slashed(Names(n.path) + [n.name])
  {
    PathStrAbsolute(Path(n.name, Some(n.path)));
    if Fields.SlugValidate(n.name) && (forall m | m in Names(n.path) :: IsSegment(m)) {
      SlugIsSegment(n.name);
      var p := Path(n.name, Some(n.path));
      assert Names(p) == Names(n.path) + [n.name];
      PathStrChain(p);
    }
  }

  /** A slug never contains '/'. */
  lemma SlugIsSegment(name: string)
    requires Fields.SlugValidate(name)
    ensures IsSegment(name)
  {
    forall i | 0 <= i < |name|
      ensures name[i] != '/'
    {
      assert Fields.IsSlugChar(name[i]);
    }
  }

  // ---------------------------------------------------------------------
  // Value.validate

  /** `Value.validate`: delegates to its key's type with the validator's
      answer and, when that does not raise, returns nothing. */
  function ValueValidate(status: int, body: string): (r: Outcome<Error>)
    ensures r.Pass? <==> ValidateValue(status, body).Success?
    ensures r.Fail? ==> r.error == RemoteRejected(body)
  {
    match ValidateValue(status, body)
    case Success(_) => Pass
    case Failure(e) => Fail(e)
  }
}
