/** The soft-type registration of `onebase_api/models/types/__init__.py`:
    every class found in the type modules that descends from `TypeBase`
    (as `inspect.getclasstree` shows it) is entered in `TYPE_SELECTION` under
    the upper-cased first of its `NAMES`. Loading modules from the
    directory is replaced by the sequence of classes the loop visits. */
module TypeRegistry {
  import opened Wrappers
  import opened Errors
  import Text

  /** What `Class.NAMES` is, as attribute lookup finds it (own or inherited). */
  datatype NamesAttr =
    | Missing
    | AsList(items: seq<string>)
    | AsTuple(items: seq<string>)
    | AsSet(members: set<string>)
    | Other

  /** A class: its `__name__`, its `__bases__` and its `NAMES`. */
  datatype PyClass = PyClass(name: string, bases: seq<PyClass>, names: NamesAttr)

  const ObjectClass := PyClass("object", [], Missing)
  const TypeBaseClass := PyClass("TypeBase", [ObjectClass], Missing)
  const RegexValidationMixinClass := PyClass("RegexValidationMixin", [TypeBaseClass], Missing)

  /** `_SKIPPED_TYPES`. */
  const SkippedTypes: seq<PyClass> := [TypeBaseClass, RegexValidationMixinClass]

  /** The nested lists and tuples `inspect.getclasstree` returns, with classes at the leaves. */
  datatype Tree = Leaf(cls: PyClass) | Node(items: seq<Tree>)

  /** `recursive_find(item, l)`: a list or tuple holds the item if some
      element does; a class is the item if their names agree. */
  predicate RecursiveFind(itemName: string, t: Tree)
    decreases t
  {
    match t
    case Leaf(c) => c.name == itemName
    case Node(items) => exists i :: 0 <= i < |items| && RecursiveFind(itemName, items[i])
  }

  function Leaves(cs: seq<PyClass>): (r: seq<Tree>)
    ensures |r| == |cs| && forall i :: 0 <= i < |cs| ==> r[i] == Leaf(cs[i])
  {
    if cs == [] then [] else [Leaf(cs[0])] + Leaves(cs[1..])
  }

  /** The entry `(b, b.__bases__)` for a base `b`. */
  function BaseEntry(b: PyClass): Tree
  {
    Node([Leaf(b), Node(Leaves(b.bases))])
  }

  /** The entry `[(c, c.__bases__)]` listed under each base of `c`. */
  function OwnEntry(c: PyClass): Tree
  {
    Node([Node([Leaf(c), Node(Leaves(c.bases))])])
  }

  /** `inspect.getclasstree([c])`: for each base `b` of `c`, the pair
      `(b, b.__bases__)` followed by the list holding `(c, c.__bases__)`. */
  function ClassTreeOf(c: PyClass): Tree
  {
    Node(BaseEntries(c, c.bases))
  }

  function BaseEntries(c: PyClass, bs: seq<PyClass>): seq<Tree>
  {
    if bs == [] then [] else [BaseEntry(bs[0]), OwnEntry(c)] + BaseEntries(c, bs[1..])
  }

  /** Some class of `cs` is named `itemName`. */
  predicate NamedIn(cs: seq<PyClass>, itemName: string)
  {
    exists i :: 0 <= i < |cs| && cs[i].name == itemName
  }

  /** Some class of `bs`, or one of its bases, is named `itemName`. */
  predicate NamedInOrAbove(bs: seq<PyClass>, itemName: string)
  {
    exists i :: 0 <= i < |bs| && (bs[i].name == itemName || NamedIn(bs[i].bases, itemName))
  }

  /** An empty list holds nothing. */
  lemma EmptyNodeFind(itemName: string)
    ensures !RecursiveFind(itemName, Node([]))
  {
  }

  lemma NodeOfOne(itemName: string, a: Tree)
    ensures RecursiveFind(itemName, Node([a])) <==> RecursiveFind(itemName, a)
  {
    if RecursiveFind(itemName, a) { assert RecursiveFind(itemName, [a][0]); }
  }

  lemma NodeOfTwo(itemName: string, a: Tree, b: Tree)
    ensures RecursiveFind(itemName, Node([a, b])) <==> RecursiveFind(itemName, a) || RecursiveFind(itemName, b)
  {
    var items := [a, b];
    if RecursiveFind(itemName, a) { assert RecursiveFind(itemName, items[0]); }
    if RecursiveFind(itemName, b) { assert RecursiveFind(itemName, items[1]); }
  }

  /** Searching a concatenation searches both parts. */
  lemma NodeConcat(itemName: string, xs: seq<Tree>, ys: seq<Tree>)
    ensures RecursiveFind(itemName, Node(xs + ys)) <==> RecursiveFind(itemName, Node(xs)) || RecursiveFind(itemName, Node(ys))
  {
    var zs := xs + ys;
    if RecursiveFind(itemName, Node(zs)) {
      var i :| 0 <= i < |zs| && RecursiveFind(itemName, zs[i]);
      if i < |xs| { assert zs[i] == xs[i]; } else { assert zs[i] == ys[i - |xs|]; }
    }
    if RecursiveFind(itemName, Node(xs)) {
      var i :| 0 <= i < |xs| && RecursiveFind(itemName, xs[i]);
      assert zs[i] == xs[i];
    }
    if RecursiveFind(itemName, Node(ys)) {
      var i :| 0 <= i < |ys| && RecursiveFind(itemName, ys[i]);
      assert zs[|xs| + i] == ys[i];
    }
  }

  /** A list of class leaves holds the item exactly when one of the classes has its name. */
  lemma LeavesFind(itemName: string, cs: seq<PyClass>)
    ensures RecursiveFind(itemName, Node(Leaves(cs))) <==> NamedIn(cs, itemName)
  {
    var ls := Leaves(cs);
    if NamedIn(cs, itemName) {
      var i :| 0 <= i < |cs| && cs[i].name == itemName;
      assert RecursiveFind(itemName, ls[i]);
    }
  }

  /** The entry `[(c, c.__bases__)]` names the class and its bases. */
  lemma OwnEntryFind(c: PyClass, itemName: string)
    ensures RecursiveFind(itemName, OwnEntry(c)) <==> c.name == itemName || NamedIn(c.bases, itemName)
  {
    LeavesFind(itemName, c.bases);
    NodeOfTwo(itemName, Leaf(c), Node(Leaves(c.bases)));
    NodeOfOne(itemName, Node([Leaf(c), Node(Leaves(c.bases))]));
  }

  /** The entry `(b, b.__bases__)` names the base and its own bases. */
  lemma BaseEntryFind(b: PyClass, itemName: string)
    ensures RecursiveFind(itemName, BaseEntry(b)) <==> b.name == itemName || NamedIn(b.bases, itemName)
  {
    LeavesFind(itemName, b.bases);
    NodeOfTwo(itemName, Leaf(b), Node(Leaves(b.bases)));
  }

  lemma {:induction false} BaseEntriesFind(c: PyClass, bs: seq<PyClass>, itemName: string)
    ensures RecursiveFind(itemName, Node(BaseEntries(c, bs))) <==>
      (bs != [] && RecursiveFind(itemName, OwnEntry(c))) || NamedInOrAbove(bs, itemName)
  {
    if bs == [] {
      EmptyNodeFind(itemName);
    } else {
      var rest := BaseEntries(c, bs[1..]);
      BaseEntriesFind(c, bs[1..], itemName);
      NodeConcat(itemName, [BaseEntry(bs[0]), OwnEntry(c)], rest);
      NodeOfTwo(itemName, BaseEntry(bs[0]), OwnEntry(c));
      BaseEntryFind(bs[0], itemName);
      if NamedInOrAbove(bs[1..], itemName) {
        var i :| 0 <= i < |bs[1..]| && (bs[1..][i].name == itemName || NamedIn(bs[1..][i].bases, itemName));
        assert bs[i + 1] == bs[1..][i];
      }
      if NamedInOrAbove(bs, itemName) {
        var i :| 0 <= i < |bs| && (bs[i].name == itemName || NamedIn(bs[i].bases, itemName));
        if i > 0 {
          assert bs[1..][i - 1] == bs[i];
        }
      }
    }
  }

  /** The class tree names the class itself, its bases and their bases: a
      class with bases is seen to descend from `item` exactly when one of
      them has that name. Ancestors further up do not appear. */
  lemma ClassTreeFind(c: PyClass, itemName: string)
    requires |c.bases| > 0
    ensures RecursiveFind(itemName, ClassTreeOf(c)) <==> c.name == itemName || NamedInOrAbove(c.bases, itemName)
  {
    BaseEntriesFind(c, c.bases, itemName);
    OwnEntryFind(c, itemName);
    if NamedIn(c.bases, itemName) {
      var i :| 0 <= i < |c.bases| && c.bases[i].name == itemName;
      assert c.bases[i].name == itemName;
    }
  }

  /** Classes the loop registers: not skipped, and `TypeBase` found in the tree. */
  predicate Eligible(c: PyClass)
  {
    c !in SkippedTypes && RecursiveFind("TypeBase", ClassTreeOf(c))
  }

  /** The checks on `NAMES` and the key `NAMES[0].upper()`. */
  function RegistryKey(c: PyClass): Result<string, Error>
  {
    match c.names
    case Missing => Failure(NotImplementedError(c.name + ".NAMES"))
    case Other => Failure(TypeError("{}.NAMES must be an list-like type"))
    case AsSet(_) => Failure(TypeError("'set' object is not subscriptable"))
    case AsList(items) => if items == [] then Failure(IndexError("list index out of range")) else Success(Text.Upper(items[0]))
    case AsTuple(items) => if items == [] then Failure(IndexError("tuple index out of range")) else Success(Text.Upper(items[0]))
  }

  /** One pass of the loop body, for a given eligibility test. */
  function Step(registry: map<string, PyClass>, c: PyClass, eligible: PyClass -> bool): Result<map<string, PyClass>, Error>
  {
    if !eligible(c) then Success(registry)
    else match RegistryKey(c)
      case Failure(e) => Failure(e)
      case Success(key) => Success(registry[key := c])
  }

  /** The registry after the loop has visited `classes`, or the exception
      that ended the import. The registration rule is stated for any
      eligibility test; the loop uses `Eligible`. */
  function Registry(classes: seq<PyClass>, eligible: PyClass -> bool): Result<map<string, PyClass>, Error>
  {
    if classes == [] then Success(map[])
    else match Registry(classes[..|classes| - 1], eligible)
      case Failure(e) => Failure(e)
      case Success(m) => Step(m, classes[|classes| - 1], eligible)
  }

  /** `TYPE_SELECTION` after the loop. */
  function RegistryOf(classes: seq<PyClass>): Result<map<string, PyClass>, Error>
  {
    Registry(classes, Eligible)
  }

  /** The registration loop. */
  method Register(classes: seq<PyClass>) returns (r: Result<map<string, PyClass>, Error>)
    ensures r == RegistryOf(classes)
  {
    var selection: map<string, PyClass> := map[];
    var i := 0;
    while i < |classes|
      invariant 0 <= i <= |classes|
      invariant Registry(classes[..i], Eligible) == Success(selection)
    {
      assert classes[..i + 1][..i] == classes[..i];
      assert classes[..i + 1][i] == classes[i];
      var c := classes[i];
      if c in SkippedTypes {
        i := i + 1;
        continue;
      }
      if !RecursiveFind("TypeBase", ClassTreeOf(c)) {
        i := i + 1;
        continue;
      }
      var key := RegistryKey(c);
      if key.Failure? {
        assert Registry(classes[..i + 1], Eligible) == Failure(key.error);
        RegistryStopsAtFailure(classes, i + 1, Eligible);
        return Failure(key.error);
      }
      selection := selection[key.value := c];
      i := i + 1;
    }
    assert classes[..i] == classes;
    return Success(selection);
  }

  /** Once the loop has raised, later classes do not matter. */
  lemma {:induction false} RegistryStopsAtFailure(classes: seq<PyClass>, n: int, eligible: PyClass -> bool)
    requires 0 <= n <= |classes| && Registry(classes[..n], eligible).Failure?
    ensures Registry(classes, eligible) == Registry(classes[..n], eligible)
    decreases |classes| - n
  {
    if n < |classes| {
      assert classes[..n + 1][..n] == classes[..n];
      RegistryStopsAtFailure(classes, n + 1, eligible);
    } else {
      assert classes[..n] == classes;
    }
  }

  /** A run that fails stops at the first eligible class whose `NAMES` is
      unusable, with that class's error; it succeeds when there is none. */
  lemma {:induction false} RegistryFailure(classes: seq<PyClass>, eligible: PyClass -> bool)
    ensures Registry(classes, eligible).Success? <==>
      forall i :: 0 <= i < |classes| && eligible(classes[i]) ==> RegistryKey(classes[i]).Success?
    ensures Registry(classes, eligible).Failure? ==>
      exists i :: 0 <= i < |classes| && eligible(classes[i]) && RegistryKey(classes[i]) == Failure(Registry(classes, eligible).error)
        && forall j :: 0 <= j < i && eligible(classes[j]) ==> RegistryKey(classes[j]).Success?
  {
    if classes != [] {
      var n := |classes| - 1;
      var init := classes[..n];
      RegistryFailure(init, eligible);
      assert forall i :: 0 <= i < n ==> classes[i] == init[i];
      if Registry(init, eligible).Failure? {
        var i :| 0 <= i < |init| && eligible(init[i]) && RegistryKey(init[i]) == Failure(Registry(init, eligible).error)
          && forall j :: 0 <= j < i && eligible(init[j]) ==> RegistryKey(init[j]).Success?;
        assert classes[i] == init[i];
      } else if Registry(classes, eligible).Failure? {
        assert eligible(classes[n]) && RegistryKey(classes[n]) == Failure(Registry(classes, eligible).error);
      }
    }
  }

  /** Every entry of a successful run is an eligible class filed under its
      own key, and every eligible class's key is present. */
  lemma {:induction false} RegistryEntries(classes: seq<PyClass>, eligible: PyClass -> bool)
    requires Registry(classes, eligible).Success?
    ensures var m := Registry(classes, eligible).value;
      (forall k :: k in m ==> eligible(m[k]) && RegistryKey(m[k]) == Success(k) && m[k] in classes)
      && (forall i :: 0 <= i < |classes| && eligible(classes[i]) ==> RegistryKey(classes[i]).Success? && RegistryKey(classes[i]).value in m)
  {
    if classes != [] {
      var n := |classes| - 1;
      var init := classes[..n];
      assert Registry(init, eligible).Success?;
      RegistryEntries(init, eligible);
      assert forall i :: 0 <= i < n ==> classes[i] == init[i];
      assert forall c :: c in init ==> c in classes;
    }
  }

  /** A later class with the same key replaces an earlier one: the class
      filed under a key is the last eligible class with that key. */
  lemma {:induction false} RegistryLastWins(classes: seq<PyClass>, eligible: PyClass -> bool, i: int)
    requires Registry(classes, eligible).Success?
    requires 0 <= i < |classes| && eligible(classes[i])
    requires forall j :: i < j < |classes| && eligible(classes[j]) ==> RegistryKey(classes[j]) != RegistryKey(classes[i])
    ensures RegistryKey(classes[i]).Success? && RegistryKey(classes[i]).value in Registry(classes, eligible).value
    ensures Registry(classes, eligible).value[RegistryKey(classes[i]).value] == classes[i]
  {
    RegistryEntries(classes, eligible);
    var n := |classes| - 1;
    var init := classes[..n];
    assert Registry(init, eligible).Success?;
    RegistryFailure(classes, eligible);
    if i < n {
      assert init[i] == classes[i];
      forall j | i < j < |init| && eligible(init[j]) ensures RegistryKey(init[j]) != RegistryKey(init[i]) {
        assert init[j] == classes[j];
      }
      RegistryLastWins(init, eligible, i);
      RegistryEntries(init, eligible);
    }
  }

  const StringTypeClass := PyClass("StringType", [TypeBaseClass], AsList(["STRING"]))
  const ColorClass := PyClass("Color", [RegexValidationMixinClass], AsList(["COLOR"]))
  const ExceptionClass := PyClass("OneBaseException", [PyClass("Exception", [ObjectClass], Missing)], Missing)

  /** Direct subclasses of `TypeBase` and of `RegexValidationMixin` are seen
      to be types; the skipped classes themselves are not. */
  lemma EligibleTypes(names: NamesAttr)
    ensures Eligible(PyClass("StringType", [TypeBaseClass], names))
    ensures Eligible(PyClass("Color", [RegexValidationMixinClass], names))
    ensures !Eligible(TypeBaseClass) && !Eligible(RegexValidationMixinClass)
  {
    var s := PyClass("StringType", [TypeBaseClass], names);
    ClassTreeFind(s, "TypeBase");
    assert s.bases[0].name == "TypeBase";
    var c := PyClass("Color", [RegexValidationMixinClass], names);
    ClassTreeFind(c, "TypeBase");
    assert c.bases[0].bases[0].name == "TypeBase";
    assert NamedIn(c.bases[0].bases, "TypeBase");
  }

  /** A subclass of a concrete type such as `Color` is not seen to be a type:
      `TypeBase` is three levels up. Neither is an unrelated class. */
  lemma IneligibleClasses(names: NamesAttr)
    ensures !Eligible(PyClass("DarkColor", [PyClass("Color", [RegexValidationMixinClass], names)], names))
    ensures !Eligible(ExceptionClass)
  {
    var d := PyClass("DarkColor", [PyClass("Color", [RegexValidationMixinClass], names)], names);
    ClassTreeFind(d, "TypeBase");
    ClassTreeFind(ExceptionClass, "TypeBase");
  }

  /** One more class visited. */
  lemma RegistrySnoc(classes: seq<PyClass>, c: PyClass, eligible: PyClass -> bool)
    ensures Registry(classes + [c], eligible) ==
      match Registry(classes, eligible)
      case Failure(e) => Failure(e)
      case Success(m) => Step(m, c, eligible)
  {
    assert (classes + [c])[..|classes|] == classes;
  }

  /** Registering the namespaces of the string and color modules, given
      which of their classes are types and what their keys are. */
  lemma {:induction false} TwoModules(tb: PyClass, str: PyClass, rv: PyClass, exc: PyClass, color: PyClass,
                                      eligible: PyClass -> bool)
    requires !eligible(tb) && eligible(str) && !eligible(rv) && !eligible(exc) && eligible(color)
    requires RegistryKey(str) == Success("STRING") && RegistryKey(color) == Success("COLOR")
    ensures Registry([tb, str, tb, rv, exc, color], eligible) == Success(map["STRING" := str, "COLOR" := color])
  {
    var m1 := map["STRING" := str];
    FirstModule(tb, str, eligible);
    RegistrySnoc([tb, str], tb, eligible);
    assert [tb, str] + [tb] == [tb, str, tb];
    RegistrySnoc([tb, str, tb], rv, eligible);
    assert [tb, str, tb] + [rv] == [tb, str, tb, rv];
    RegistrySnoc([tb, str, tb, rv], exc, eligible);
    assert [tb, str, tb, rv] + [exc] == [tb, str, tb, rv, exc];
    assert Registry([tb, str, tb, rv, exc], eligible) == Success(m1);
    RegistrySnoc([tb, str, tb, rv, exc], color, eligible);
    assert [tb, str, tb, rv, exc] + [color] == [tb, str, tb, rv, exc, color];
  }

  /** The string module's namespace alone. */
  lemma {:induction false} FirstModule(tb: PyClass, str: PyClass, eligible: PyClass -> bool)
    requires !eligible(tb) && eligible(str) && RegistryKey(str) == Success("STRING")
    ensures Registry([tb, str], eligible) == Success(map["STRING" := str])
  {
    RegistrySnoc([], tb, eligible);
    assert [] + [tb] == [tb];
    RegistrySnoc([tb], str, eligible);
    assert [tb] + [str] == [tb, str];
  }

  /** The shipped types: the string module's namespace holds `TypeBase` and
      `StringType`, the color module's also `RegexValidationMixin` and
      `OneBaseException`; the result files them under 'STRING' and 'COLOR'. */
  lemma ShippedTypes()
    ensures RegistryOf([TypeBaseClass, StringTypeClass, TypeBaseClass, RegexValidationMixinClass, ExceptionClass, ColorClass])
        == Success(map["STRING" := StringTypeClass, "COLOR" := ColorClass])
  {
    ShippedEligibility();
    ShippedKeys();
    TwoModules(TypeBaseClass, StringTypeClass, RegexValidationMixinClass, ExceptionClass, ColorClass, Eligible);
  }

  /** Which of the shipped classes are types. */
  lemma ShippedEligibility()
    ensures Eligible(StringTypeClass) && Eligible(ColorClass)
    ensures !Eligible(TypeBaseClass) && !Eligible(RegexValidationMixinClass) && !Eligible(ExceptionClass)
  {
    EligibleTypes(AsList(["STRING"]));
    EligibleTypes(AsList(["COLOR"]));
    IneligibleClasses(Missing);
  }

  /** The keys of the shipped types are their first names, upper-cased. */
  lemma ShippedKeys()
    ensures RegistryKey(StringTypeClass) == Success("STRING")
    ensures RegistryKey(ColorClass) == Success("COLOR")
  {
    Text.UpperUnchanged("STRING");
    Text.UpperUnchanged("COLOR");
  }

  /** A `NAMES` given as a set passes the list-like check but cannot be indexed. */
  lemma SetNamesFail(c: PyClass)
    requires Eligible(c) && c.names.AsSet?
    ensures RegistryOf([c]).Failure? && RegistryOf([c]).error.TypeError?
  {
    RegistrySnoc([], c, Eligible);
    assert [] + [c] == [c];
  }
}
