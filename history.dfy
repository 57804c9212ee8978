/** The audit-trail event alphabet and `Action` records of
    `onebase_api/models/history.py`, and the timestamp ordering the history
    list is persisted in. */
module History {
  import opened Wrappers
  import opened Errors
  import Auth
  import TimestampOrder

  type Timestamp = TimestampOrder.Timestamp

  /** `datetime.now()` in the field declaration: evaluated once, when the
      module is imported, so every Action created without an explicit
      timestamp gets this same value. */
  const ImportTime: Timestamp

  datatype Event = Create | Modify | Delete | ReadOnly | Writable | Hide | Show

  /** EVENTS, in declaration order. */
  const Events: seq<Event> := [Create, Modify, Delete, ReadOnly, Writable, Hide, Show]

  /** The one-letter code stored in the `event` field. */
  function Code(e: Event): string
  {
    match e
    case Create => "c"
    case Modify => "m"
    case Delete => "d"
    case ReadOnly => "r"
    case Writable => "w"
    case Hide => "h"
    case Show => "s"
  }

  function Label(e: Event): string
  {
    match e
    case Create => "Created"
    case Modify => "Modified"
    case Delete => "Deleted"
    case ReadOnly => "Mark Read-Only"
    case Writable => "Mark Writable"
    case Hide => "Hide"
    case Show => "Show"
  }

  /** The `choices=EVENTS` check on a stored event string. */
  function ParseEvent(code: string): Option<Event>
  {
    if code == "c" then Some(Create)
    else if code == "m" then Some(Modify)
    else if code == "d" then Some(Delete)
    else if code == "r" then Some(ReadOnly)
    else if code == "w" then Some(Writable)
    else if code == "h" then Some(Hide)
    else if code == "s" then Some(Show)
    else None
  }

  /** Seven events, listed once each, whose codes are pairwise distinct:
      each code parses back to its event, and nothing else parses. */
  lemma EventCodes()
    ensures |Events| == 7
    ensures forall e: Event :: e in Events && ParseEvent(Code(e)) == Some(e)
    ensures forall e1: Event, e2: Event :: Code(e1) == Code(e2) ==> e1 == e2
    ensures forall s: string :: ParseEvent(s).Some? ==> s == Code(ParseEvent(s).value)
  {
    forall e: Event ensures e in Events && ParseEvent(Code(e)) == Some(e) {
      match e
      case Create => assert Events[0] == e;
      case Modify => assert Events[1] == e;
      case Delete => assert Events[2] == e;
      case ReadOnly => assert Events[3] == e;
      case Writable => assert Events[4] == e;
      case Hide => assert Events[5] == e;
      case Show => assert Events[6] == e;
    }
  }

  datatype Action = Action(user: Auth.User, event: Event, timestamp: Timestamp)

  /** `Action(user=user, event=event)`: the timestamp takes its default. */
  function NewAction(user: Auth.User, event: Event): Action
  {
    Action(user, event, ImportTime)
  }

  /** An Action document as stored, before mongoengine validates it. */
  datatype RawAction = RawAction(user: Option<Auth.User>, event: Option<string>, timestamp: Option<Timestamp>)

  /** Field validation of an Action: `user` and `event` are required, `event`
      must be one of the EVENTS codes, `timestamp` takes its default. */
  function ValidateAction(raw: RawAction): Result<Action, Error>
  {
    var badUser := if raw.user.None? then {"user"} else {};
    var badEvent := if raw.event.None? || ParseEvent(raw.event.value).None? then {"event"} else {};
    if badUser + badEvent != {} then Failure(ValidationError(badUser + badEvent))
    else Success(Action(raw.user.value, ParseEvent(raw.event.value).value,
                        if raw.timestamp.Some? then raw.timestamp.value else ImportTime))
  }

  function ToRaw(a: Action): RawAction
  {
    RawAction(Some(a.user), Some(Code(a.event)), Some(a.timestamp))
  }

  /** A raw action is accepted exactly when it names a user and a known event
      code, and a stored Action validates back to itself. */
  lemma ValidateActionSpec(raw: RawAction, a: Action)
    ensures ValidateAction(raw).Success? <==> raw.user.Some? && raw.event.Some? && ParseEvent(raw.event.value).Some?
    ensures ValidateAction(ToRaw(a)) == Success(a)
    ensures raw.timestamp.None? && ValidateAction(raw).Success? ==> ValidateAction(raw).value.timestamp == ImportTime
  {
    EventCodes();
    assert ParseEvent(Code(a.event)) == Some(a.event);
  }

  /** Actions compare through TimestampOrderableMixin's guarded operators;
      an Action is an instance of its class and of its two bases (their own
      bases are not listed: the guard only asks about classes with the
      mixin). */
  function AsStamped(a: Action): TimestampOrder.Stamped<Action>
  {
    TimestampOrder.Stamped("Action", {"Action", "TimestampOrderableMixin", "DynamicEmbeddedDocument"}, a.timestamp, a)
  }

  /** Two Actions built without an explicit timestamp tie: neither is before the other. */
  lemma DefaultActionsTie(u1: Auth.User, e1: Event, u2: Auth.User, e2: Event)
    ensures !TimestampOrder.GuardedLt(AsStamped(NewAction(u1, e1)), AsStamped(NewAction(u2, e2)))
    ensures !TimestampOrder.GuardedGt(AsStamped(NewAction(u1, e1)), AsStamped(NewAction(u2, e2)))
  {
  }

  // The history is a SortedListField ordered by 'timestamp': what the store
  // receives is the list sorted by timestamp with Python's stable sort.

  predicate SortedByTimestamp(s: seq<Action>)
  {
    forall i, j :: 0 <= i < j < |s| ==> s[i].timestamp <= s[j].timestamp
  }

  /** Inserts `a` after every element whose timestamp is not later than its own. */
  function Insert(a: Action, s: seq<Action>): seq<Action>
  {
    if s == [] then [a]
    else if a.timestamp < s[0].timestamp then [a] + s
    else [s[0]] + Insert(a, s[1..])
  }

  /** Stable insertion sort by timestamp, taking elements in list order. */
  function SortByTimestamp(s: seq<Action>): seq<Action>
  {
    if s == [] then [] else Insert(s[|s| - 1], SortByTimestamp(s[..|s| - 1]))
  }

  lemma {:induction false} InsertPermutes(a: Action, s: seq<Action>)
    ensures multiset(Insert(a, s)) == multiset(s) + multiset{a}
  {
    if s != [] && a.timestamp >= s[0].timestamp {
      InsertPermutes(a, s[1..]);
      assert s == [s[0]] + s[1..];
    }
  }

  lemma {:induction false} InsertLowerBound(a: Action, s: seq<Action>, lo: Timestamp)
    requires lo <= a.timestamp
    requires forall i :: 0 <= i < |s| ==> lo <= s[i].timestamp
    ensures forall i :: 0 <= i < |Insert(a, s)| ==> lo <= Insert(a, s)[i].timestamp
  {
    if s != [] && a.timestamp >= s[0].timestamp {
      InsertLowerBound(a, s[1..], lo);
    }
  }

  lemma {:induction false} InsertSorted(a: Action, s: seq<Action>)
    requires SortedByTimestamp(s)
    ensures SortedByTimestamp(Insert(a, s))
  {
    if s != [] && a.timestamp >= s[0].timestamp {
      InsertSorted(a, s[1..]);
      InsertLowerBound(a, s[1..], s[0].timestamp);
      var r := Insert(a, s[1..]);
      assert Insert(a, s) == [s[0]] + r;
    }
  }

  /** What the store receives is sorted by timestamp and has the same actions. */
  lemma {:induction false} SortByTimestampSpec(s: seq<Action>)
    ensures SortedByTimestamp(SortByTimestamp(s))
    ensures multiset(SortByTimestamp(s)) == multiset(s)
  {
    if s != [] {
      SortByTimestampSpec(s[..|s| - 1]);
      InsertSorted(s[|s| - 1], SortByTimestamp(s[..|s| - 1]));
      InsertPermutes(s[|s| - 1], SortByTimestamp(s[..|s| - 1]));
      assert s == s[..|s| - 1] + [s[|s| - 1]];
    }
  }

  /** The actions of `s` stamped `t`, in their order in `s`. */
  function WithTimestamp(s: seq<Action>, t: Timestamp): seq<Action>
  {
    if s == [] then []
    else (if s[0].timestamp == t then [s[0]] else []) + WithTimestamp(s[1..], t)
  }

  lemma {:induction false} WithTimestampAppend(s: seq<Action>, u: seq<Action>, t: Timestamp)
    ensures WithTimestamp(s + u, t) == WithTimestamp(s, t) + WithTimestamp(u, t)
  {
    if s == [] {
      assert s + u == u;
    } else {
      var first: seq<Action> := if s[0].timestamp == t then [s[0]] else [];
      assert (s + u)[0] == s[0];
      assert (s + u)[1..] == s[1..] + u;
      assert WithTimestamp(s + u, t) == first + WithTimestamp(s[1..] + u, t);
      assert WithTimestamp(s, t) == first + WithTimestamp(s[1..], t);
      WithTimestampAppend(s[1..], u, t);
    }
  }

  lemma {:induction false} WithTimestampNone(s: seq<Action>, t: Timestamp)
    requires forall i :: 0 <= i < |s| ==> s[i].timestamp != t
    ensures WithTimestamp(s, t) == []
  {
    if s != [] {
      WithTimestampNone(s[1..], t);
    }
  }

  lemma SortedTail(s: seq<Action>)
    requires SortedByTimestamp(s) && s != []
    ensures SortedByTimestamp(s[1..])
    ensures forall i :: 0 <= i < |s| ==> s[0].timestamp <= s[i].timestamp
  {
  }

  /** Inserting into a sorted list puts `a` after every action with its
      timestamp. */
  lemma {:induction false} InsertStable(a: Action, s: seq<Action>, t: Timestamp)
    requires SortedByTimestamp(s)
    ensures WithTimestamp(Insert(a, s), t) == WithTimestamp(s, t) + (if a.timestamp == t then [a] else [])
  {
    if s == [] {
      assert Insert(a, s) == [a];
      assert [a][1..] == [];
    } else {
      SortedTail(s);
      if a.timestamp < s[0].timestamp {
        InsertStableFront(a, s, t);
      } else {
        InsertStable(a, s[1..], t);
        InsertStableStep(a, s, t);
      }
    }
  }

  /** An action earlier than all others goes first, and has no peer. */
  lemma InsertStableFront(a: Action, s: seq<Action>, t: Timestamp)
    requires s != [] && a.timestamp < s[0].timestamp
    requires forall i :: 0 <= i < |s| ==> s[0].timestamp <= s[i].timestamp
    ensures WithTimestamp(Insert(a, s), t) == WithTimestamp(s, t) + (if a.timestamp == t then [a] else [])
  {
    var mine: seq<Action> := if a.timestamp == t then [a] else [];
    assert Insert(a, s) == [a] + s;
    assert ([a] + s)[1..] == s;
    assert WithTimestamp([a] + s, t) == mine + WithTimestamp(s, t);
    if a.timestamp == t {
      WithTimestampNone(s, t);
    }
  }

  /** One step of the insertion past the first action. */
  lemma InsertStableStep(a: Action, s: seq<Action>, t: Timestamp)
    requires s != [] && a.timestamp >= s[0].timestamp
    requires WithTimestamp(Insert(a, s[1..]), t) == WithTimestamp(s[1..], t) + (if a.timestamp == t then [a] else [])
    ensures WithTimestamp(Insert(a, s), t) == WithTimestamp(s, t) + (if a.timestamp == t then [a] else [])
  {
    var first: seq<Action> := if s[0].timestamp == t then [s[0]] else [];
    var r := Insert(a, s[1..]);
    assert Insert(a, s) == [s[0]] + r;
    assert ([s[0]] + r)[1..] == r;
    assert WithTimestamp([s[0]] + r, t) == first + WithTimestamp(r, t);
    assert WithTimestamp(s, t) == first + WithTimestamp(s[1..], t);
  }

  /** The sort is stable: the actions sharing a timestamp keep their
      relative order. */
  lemma {:induction false} SortStable(s: seq<Action>, t: Timestamp)
    ensures WithTimestamp(SortByTimestamp(s), t) == WithTimestamp(s, t)
  {
    if s != [] {
      var init := s[..|s| - 1];
      var last := s[|s| - 1];
      var mine: seq<Action> := if last.timestamp == t then [last] else [];
      SortStable(init, t);
      assert SortedByTimestamp(SortByTimestamp(init)) by { SortByTimestampSpec(init); }
      InsertStable(last, SortByTimestamp(init), t);
      assert SortByTimestamp(s) == Insert(last, SortByTimestamp(init));
      assert s == init + [last];
      WithTimestampAppend(init, [last], t);
      assert [last][1..] == [];
      assert WithTimestamp([last], t) == mine + WithTimestamp([], t);
    }
  }

  lemma {:induction false} InsertLast(a: Action, s: seq<Action>)
    requires forall i :: 0 <= i < |s| ==> s[i].timestamp <= a.timestamp
    ensures Insert(a, s) == s + [a]
  {
    if s != [] {
      InsertLast(a, s[1..]);
      assert s == [s[0]] + s[1..];
    }
  }

  /** A history whose timestamps never decrease is stored in append order. */
  lemma {:induction false} SortKeepsSortedOrder(s: seq<Action>)
    requires SortedByTimestamp(s)
    ensures SortByTimestamp(s) == s
  {
    if s != [] {
      var init := s[..|s| - 1];
      SortKeepsSortedOrder(init);
      InsertLast(s[|s| - 1], init);
      assert init + [s[|s| - 1]] == s;
    }
  }

  /** In particular a history of actions that all took the import-time default
      is stored in append order: the ties keep their order. */
  lemma DefaultTimestampsKeepAppendOrder(s: seq<Action>)
    requires forall i :: 0 <= i < |s| ==> s[i].timestamp == ImportTime
    ensures SortByTimestamp(s) == s
  {
    SortKeepsSortedOrder(s);
  }
}
