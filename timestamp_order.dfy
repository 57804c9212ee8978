/** Comparison of documents by their `timestamp` field.

    Two versions exist: `onebase_api/models/mixin.py` defines only `>` and
    `<`, each guarded by an `isinstance(other, type(self))` check, and
    `models/mixin.py` defines all six operators on the timestamp alone. A
    compared object is seen through what the operators look at: the name of
    its class, the names of every class it is an instance of (its class and
    that class's bases, so `isinstance(o, C)` is `C in o.ancestors`), and its
    timestamp; `fields` stands for everything else. */
module TimestampOrder {

  type Timestamp = int

  datatype Stamped<T> = Stamped(cls: string, ancestors: set<string>, timestamp: Timestamp, fields: T)

  /** An object is an instance of its own class. */
  predicate WellFormed<T>(o: Stamped<T>)
  {
    o.cls in o.ancestors
  }

  /** `isinstance(o, C)` for a class named `C`. */
  predicate IsInstance<T>(o: Stamped<T>, c: string)
  {
    c in o.ancestors
  }

  /** Python never lets two distinct classes each subclass the other. */
  predicate Acyclic<T>(a: Stamped<T>, b: Stamped<T>)
  {
    a.cls == b.cls || !(IsInstance(a, b.cls) && IsInstance(b, a.cls))
  }

  // onebase_api/models/mixin.py: guarded `__gt__` and `__lt__`.

  predicate GuardedGt<T>(self: Stamped<T>, other: Stamped<T>)
  {
    IsInstance(other, self.cls) && self.timestamp > other.timestamp
  }

  predicate GuardedLt<T>(self: Stamped<T>, other: Stamped<T>)
  {
    IsInstance(other, self.cls) && self.timestamp < other.timestamp
  }

  /** The expression `a > b`: when `b`'s class is a proper subclass of
      `a`'s, Python calls the reflected `b.__lt__(a)` first, and as the
      guarded methods return a bool, never NotImplemented, its answer is
      final; otherwise `a.__gt__(b)` answers. */
  predicate GuardedGtExpr<T>(a: Stamped<T>, b: Stamped<T>)
  {
    if a.cls != b.cls && IsInstance(b, a.cls) then GuardedLt(b, a) else GuardedGt(a, b)
  }

  /** The expression `a < b`, dispatched the same way. */
  predicate GuardedLtExpr<T>(a: Stamped<T>, b: Stamped<T>)
  {
    if a.cls != b.cls && IsInstance(b, a.cls) then GuardedGt(b, a) else GuardedLt(a, b)
  }

  // models/mixin.py: six unguarded operators.

  predicate Gt<T>(self: Stamped<T>, other: Stamped<T>) { self.timestamp > other.timestamp }
  predicate Lt<T>(self: Stamped<T>, other: Stamped<T>) { self.timestamp < other.timestamp }
  predicate Ge<T>(self: Stamped<T>, other: Stamped<T>) { self.timestamp >= other.timestamp }
  predicate Le<T>(self: Stamped<T>, other: Stamped<T>) { self.timestamp <= other.timestamp }
  predicate Eq<T>(self: Stamped<T>, other: Stamped<T>) { self.timestamp == other.timestamp }
  predicate Ne<T>(self: Stamped<T>, other: Stamped<T>) { self.timestamp != other.timestamp }

  /** `!=` is the negation of `==`; `>=` is `>` or `==`; `<=` is `<` or `==`;
      and `<`, `>` are each other's converse. */
  lemma OperatorsAgree<T>(a: Stamped<T>, b: Stamped<T>)
    ensures Ne(a, b) <==> !Eq(a, b)
    ensures Ge(a, b) <==> Gt(a, b) || Eq(a, b)
    ensures Le(a, b) <==> Lt(a, b) || Eq(a, b)
    ensures Gt(a, b) <==> Lt(b, a)
  {
  }

  /** Exactly one of `<`, `==`, `>` holds for any two objects. */
  lemma Trichotomy<T>(a: Stamped<T>, b: Stamped<T>)
    ensures (Lt(a, b) && !Eq(a, b) && !Gt(a, b))
         || (!Lt(a, b) && Eq(a, b) && !Gt(a, b))
         || (!Lt(a, b) && !Eq(a, b) && Gt(a, b))
  {
  }

  /** Objects with equal timestamps compare equal, whatever else differs,
      even their class. */
  lemma EqualTimestampsCompareEqual<T>(a: Stamped<T>, b: Stamped<T>)
    requires a.timestamp == b.timestamp
    ensures Eq(a, b) && !Ne(a, b) && Le(a, b) && Ge(a, b) && !Lt(a, b) && !Gt(a, b)
  {
  }

  /** The guarded methods compare timestamps exactly when the other object
      is an instance of the receiver's class, and are both false otherwise;
      in particular they agree with the plain comparison on two objects of
      one class. */
  lemma GuardedOperators<T>(a: Stamped<T>, b: Stamped<T>)
    ensures IsInstance(b, a.cls) ==> (GuardedGt(a, b) <==> Gt(a, b)) && (GuardedLt(a, b) <==> Lt(a, b))
    ensures !IsInstance(b, a.cls) ==> !GuardedGt(a, b) && !GuardedLt(a, b)
    ensures WellFormed(b) && a.cls == b.cls ==> (GuardedGt(a, b) <==> Gt(a, b)) && (GuardedLt(a, b) <==> Lt(a, b))
  {
  }

  /** Called as methods, the guards order an instance of a subclass one way
      only: the base-class object's method compares, the subclass object's
      method refuses. */
  lemma SubclassMethodsOneWay<T>(a: Stamped<T>, b: Stamped<T>)
    requires a.cls != b.cls && IsInstance(b, a.cls) && Acyclic(a, b)
    ensures (GuardedGt(a, b) <==> Gt(a, b)) && (GuardedLt(a, b) <==> Lt(a, b))
    ensures !GuardedGt(b, a) && !GuardedLt(b, a)
  {
  }

  /** Written as `a > b` and `a < b`, the guarded operators agree with the
      plain ones on two objects of one class and are both false across two
      distinct classes, a subclass included: the reflected call goes to the
      subclass object, whose guard refuses. */
  lemma GuardedExpressions<T>(a: Stamped<T>, b: Stamped<T>)
    requires WellFormed(a) && WellFormed(b) && Acyclic(a, b)
    ensures a.cls == b.cls ==> (GuardedGtExpr(a, b) <==> Gt(a, b)) && (GuardedLtExpr(a, b) <==> Lt(a, b))
    ensures a.cls != b.cls ==> !GuardedGtExpr(a, b) && !GuardedLtExpr(a, b)
  {
  }
}
