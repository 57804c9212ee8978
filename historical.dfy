/** `HistoricalMixin` of `onebase_api/models/mixin.py`: a document that keeps
    an audit trail of Actions and derives its creator, read-only state and
    visibility from it. */
module Historical {
  import opened Wrappers
  import opened Errors
  import Auth
  import opened History

  /** `creator`: the user of the first action, None for an empty history. */
  function CreatorOf(h: seq<Action>): Option<Auth.User>
  {
    if |h| == 0 then None else Some(h[0].user)
  }

  /** Scanning the history from the newest action: true if `on` is met
      before `off`, false if `off` is met first or neither occurs. */
  function LatestDecisive(h: seq<Action>, on: Event, off: Event): bool
  {
    if h == [] then false
    else if h[|h| - 1].event == on then true
    else if h[|h| - 1].event == off then false
    else LatestDecisive(h[..|h| - 1], on, off)
  }

  function IsReadonlyOf(h: seq<Action>): bool { LatestDecisive(h, ReadOnly, Writable) }
  function IsHiddenOf(h: seq<Action>): bool { LatestDecisive(h, Hide, Show) }

  /** `h[i]` is an `on` action with no `on` or `off` action after it. */
  predicate DecidedAt(h: seq<Action>, i: int, on: Event, off: Event)
  {
    0 <= i < |h| && h[i].event == on
    && forall j :: i < j < |h| ==> h[j].event != on && h[j].event != off
  }

  /** The latest-decisive scan holds exactly when some `on` action has no `on`
      or `off` action after it. */
  lemma {:induction false} LatestDecisiveIff(h: seq<Action>, on: Event, off: Event)
    requires on != off
    ensures LatestDecisive(h, on, off) <==> exists i :: DecidedAt(h, i, on, off)
  {
    if h != [] {
      var n := |h| - 1;
      var init := h[..n];
      LatestDecisiveIff(init, on, off);
      if h[n].event == on {
        assert DecidedAt(h, n, on, off);
      } else if h[n].event == off {
        forall i | 0 <= i < |h| ensures !DecidedAt(h, i, on, off) {
          if i < n {
            assert h[n].event == off;
          }
        }
      } else {
        if LatestDecisive(init, on, off) {
          var i :| DecidedAt(init, i, on, off);
          forall j | i < j < |h| ensures h[j].event != on && h[j].event != off {
            if j < n { assert h[j] == init[j]; }
          }
          assert DecidedAt(h, i, on, off);
        }
        forall i | DecidedAt(h, i, on, off) ensures DecidedAt(init, i, on, off) {
          forall j | i < j < |init| ensures init[j].event != on && init[j].event != off {
            assert init[j] == h[j];
          }
        }
      }
    }
  }

  /** Appending an action decides the state by its event alone: `on` sets it,
      `off` clears it, any other event leaves it as it was. */
  lemma AppendEffect(h: seq<Action>, a: Action, on: Event, off: Event)
    requires on != off
    ensures a.event == on ==> LatestDecisive(h + [a], on, off)
    ensures a.event == off ==> !LatestDecisive(h + [a], on, off)
    ensures a.event != on && a.event != off ==> LatestDecisive(h + [a], on, off) == LatestDecisive(h, on, off)
  {
    assert (h + [a])[..|h|] == h;
  }

  /** `for h in reversed(history)` with its two early returns. */
  method ScanLatest(h: seq<Action>, on: Event, off: Event) returns (r: bool)
    ensures r == LatestDecisive(h, on, off)
  {
    var i := |h|;
    assert h[..i] == h;
    while i > 0
      invariant 0 <= i <= |h|
      invariant LatestDecisive(h, on, off) == LatestDecisive(h[..i], on, off)
    {
      assert h[..i][..i - 1] == h[..i - 1];
      i := i - 1;
      if h[i].event == on {
        return true;
      }
      if h[i].event == off {
        return false;
      }
    }
    return false;
  }

  /** The checks `save` makes before it appends: a read-only document needs
      the writability flag and the 'set_writability' permission (E-101
      otherwise), then the user needs 'save_document' (E-200 otherwise). */
  function SaveCheck(h: seq<Action>, user: Auth.User, modifyWritability: bool): Outcome<Error>
    reads user
  {
    if IsReadonlyOf(h) && !(modifyWritability && Auth.CanAnyOf(user.groups, ["set_writability"])) then
      Fail(ReadOnlyDocument)
    else if !Auth.CanAnyOf(user.groups, ["save_document"]) then
      Fail(PermissionDenied(user))
    else
      Pass
  }

  /** The event a successful save appends. */
  function SaveEvent(h: seq<Action>): Event
  {
    if |h| == 0 then Create else Modify
  }

  /** A save succeeds exactly when the user may save and the document is
      writable or the save is a permitted writability change. */
  lemma SaveCheckIff(h: seq<Action>, user: Auth.User, modifyWritability: bool)
    ensures SaveCheck(h, user, modifyWritability).Pass? <==>
      Auth.CanAnyOf(user.groups, ["save_document"])
      && (!IsReadonlyOf(h) || (modifyWritability && Auth.CanAnyOf(user.groups, ["set_writability"])))
    ensures SaveCheck(h, user, modifyWritability) == Fail(ReadOnlyDocument) ==> IsReadonlyOf(h)
  {
  }

  /** A saved document's creator is the user of its first successful save,
      and later appends never change it. */
  lemma {:induction false} CreatorStable(h: seq<Action>, more: seq<Action>)
    requires h != []
    ensures CreatorOf(h + more) == CreatorOf(h)
  {
    assert (h + more)[0] == h[0];
  }

  /** After `set_readonly` the document is read-only, and after `hide` in its
      intended form it is hidden, whatever the history was. */
  lemma SetReadonlyMakesReadonly(h: seq<Action>, u: Auth.User)
    ensures IsReadonlyOf(h + [NewAction(u, ReadOnly)])
    ensures IsReadonlyOf(h + [NewAction(u, ReadOnly)] + [NewAction(u, Modify)])
  {
    AppendEffect(h, NewAction(u, ReadOnly), ReadOnly, Writable);
    AppendEffect(h + [NewAction(u, ReadOnly)], NewAction(u, Modify), ReadOnly, Writable);
  }

  /** As written, `set_writable` appends a READONLY action, so a document it
      has been applied to is read-only afterwards. */
  lemma SetWritableAsWrittenLeavesReadonly(h: seq<Action>, u: Auth.User)
    ensures IsReadonlyOf(h + [NewAction(u, ReadOnly)] + [NewAction(u, Modify)])
  {
    SetReadonlyMakesReadonly(h, u);
  }

  /** The intended `set_writable` appends WRITABLE, and the document is writable afterwards. */
  lemma SetWritableIntendedMakesWritable(h: seq<Action>, u: Auth.User)
    ensures !IsReadonlyOf(h + [NewAction(u, Writable)] + [NewAction(u, Modify)])
  {
    AppendEffect(h, NewAction(u, Writable), ReadOnly, Writable);
    AppendEffect(h + [NewAction(u, Writable)], NewAction(u, Modify), ReadOnly, Writable);
  }

  /** As written, `hide` and `show` append MODIFY actions only, which never
      change visibility: hiding a shown document leaves it shown, and showing
      a hidden one leaves it hidden. */
  lemma VisibilityAsWrittenUnchanged(h: seq<Action>, u: Auth.User)
    ensures IsHiddenOf(h + [NewAction(u, Modify)] + [NewAction(u, Modify)]) == IsHiddenOf(h)
  {
    AppendEffect(h, NewAction(u, Modify), Hide, Show);
    AppendEffect(h + [NewAction(u, Modify)], NewAction(u, Modify), Hide, Show);
  }

  /** The intended `hide` and `show` append HIDE and SHOW, and the document's
      visibility is what was asked for afterwards. */
  lemma VisibilityIntended(h: seq<Action>, u: Auth.User)
    ensures IsHiddenOf(h + [NewAction(u, Hide)] + [NewAction(u, Modify)])
    ensures !IsHiddenOf(h + [NewAction(u, Show)] + [NewAction(u, Modify)])
  {
    AppendEffect(h, NewAction(u, Hide), Hide, Show);
    AppendEffect(h + [NewAction(u, Hide)], NewAction(u, Modify), Hide, Show);
    AppendEffect(h, NewAction(u, Show), Hide, Show);
    AppendEffect(h + [NewAction(u, Show)], NewAction(u, Modify), Hide, Show);
  }

  /** A concrete case: a new document is created, hidden with `hide` as
      written, and is still shown; with the intended `hide` it is hidden. */
  lemma HideCounterexample(u: Auth.User)
    ensures var created := [NewAction(u, Create)];
      !IsHiddenOf(created + [NewAction(u, Modify)] + [NewAction(u, Modify)])
      && IsHiddenOf(created + [NewAction(u, Hide)] + [NewAction(u, Modify)])
  {
    AppendEffect([], NewAction(u, Create), Hide, Show);
    assert [] + [NewAction(u, Create)] == [NewAction(u, Create)];
    VisibilityAsWrittenUnchanged([NewAction(u, Create)], u);
    VisibilityIntended([NewAction(u, Create)], u);
  }

  /** A concrete case: `set_readonly` then `set_writable` as written leaves
      the document read-only; the intended pair leaves it writable. */
  lemma SetWritableCounterexample(u: Auth.User)
    ensures var ro := [NewAction(u, Create), NewAction(u, ReadOnly), NewAction(u, Modify)];
      IsReadonlyOf(ro + [NewAction(u, ReadOnly)] + [NewAction(u, Modify)])
      && !IsReadonlyOf(ro + [NewAction(u, Writable)] + [NewAction(u, Modify)])
  {
    var ro := [NewAction(u, Create), NewAction(u, ReadOnly), NewAction(u, Modify)];
    SetWritableAsWrittenLeavesReadonly(ro, u);
    SetWritableIntendedMakesWritable(ro, u);
  }

  /** A document with `HistoricalMixin`. `history` is the in-memory list,
      appended to by every operation; `stored` is what the last successful
      save handed to the store: the list sorted by timestamp. */
  class Document {
    var history: seq<Action>
    var stored: Option<seq<Action>>

    constructor ()
      ensures history == [] && stored == None
    {
      history := [];
      stored := None;
    }

    function Creator(): Option<Auth.User>
      reads this
    {
      CreatorOf(history)
    }

    method IsReadonly() returns (r: bool)
      ensures r == IsReadonlyOf(history)
    {
      r := ScanLatest(history, ReadOnly, Writable);
    }

    method IsWritable() returns (r: bool)
      ensures r == !IsReadonlyOf(history)
    {
      var ro := IsReadonly();
      r := !ro;
    }

    method IsHidden() returns (r: bool)
      ensures r == IsHiddenOf(history)
    {
      r := ScanLatest(history, Event.Hide, Event.Show);
    }

    method IsShown() returns (r: bool)
      ensures r == !IsHiddenOf(history)
    {
      var hidden := IsHidden();
      r := !hidden;
    }

    /** `save(user, __modify_writability__=modifyWritability)`. */
    method Save(user: Auth.User, modifyWritability: bool) returns (r: Outcome<Error>)
      modifies this
      ensures r == SaveCheck(old(history), user, modifyWritability)
      ensures r.Pass? ==> history == old(history) + [NewAction(user, SaveEvent(old(history)))]
                          && stored == Some(SortByTimestamp(history))
      ensures r.Fail? ==> history == old(history) && stored == old(stored)
    {
      var ro := IsReadonly();
      if ro {
        var mayChange := user.CanAny(["set_writability"]);
        if !(modifyWritability && mayChange) {
          return Fail(ReadOnlyDocument);
        }
      }
      var maySave := user.CanAny(["save_document"]);
      if !maySave {
        return Fail(PermissionDenied(user));
      }
      var event := Modify;
      if |history| == 0 {
        event := Create;
      }
      history := history + [NewAction(user, event)];
      stored := Some(SortByTimestamp(history));
      return Pass;
    }

    /** `set_readonly`: a READONLY action is appended before the save, so it
        stays in the in-memory history even when the save then fails. */
    method SetReadonly(user: Auth.User) returns (r: Outcome<Error>)
      modifies this
      ensures !Auth.CanAnyOf(user.groups, ["set_writability"]) ==>
        r == Fail(PermissionDenied(user)) && history == old(history) && stored == old(stored)
      ensures Auth.CanAnyOf(user.groups, ["set_writability"]) ==>
        var h1 := old(history) + [NewAction(user, ReadOnly)];
        r == SaveCheck(h1, user, true)
        && (r.Pass? ==> history == h1 + [NewAction(user, SaveEvent(h1))] && stored == Some(SortByTimestamp(history)))
        && (r.Fail? ==> history == h1 && stored == old(stored))
    {
      var may := user.CanAny(["set_writability"]);
      if !may {
        return Fail(PermissionDenied(user));
      }
      history := history + [NewAction(user, ReadOnly)];
      r := Save(user, true);
    }

    /** `set_writable` as written: it appends a READONLY action, exactly like
        `set_readonly`. */
    method SetWritable(user: Auth.User) returns (r: Outcome<Error>)
      modifies this
      ensures !Auth.CanAnyOf(user.groups, ["set_writability"]) ==>
        r == Fail(PermissionDenied(user)) && history == old(history) && stored == old(stored)
      ensures Auth.CanAnyOf(user.groups, ["set_writability"]) ==>
        var h1 := old(history) + [NewAction(user, ReadOnly)];
        r == SaveCheck(h1, user, true)
        && (r.Pass? ==> history == h1 + [NewAction(user, SaveEvent(h1))] && stored == Some(SortByTimestamp(history)))
        && (r.Fail? ==> history == h1 && stored == old(stored))
      ensures r.Pass? ==> IsReadonlyOf(history)
    {
      var may := user.CanAny(["set_writability"]);
      if !may {
        return Fail(PermissionDenied(user));
      }
      history := history + [NewAction(user, ReadOnly)];
      ghost var h1 := history;
      r := Save(user, true);
      if r.Pass? {
        AppendEffect(h1, NewAction(user, SaveEvent(h1)), ReadOnly, Writable);
      }
    }

    /** `set_writable` as intended: it appends a WRITABLE action, and a
        successful call leaves the document writable. */
    method SetWritableIntended(user: Auth.User) returns (r: Outcome<Error>)
      modifies this
      ensures !Auth.CanAnyOf(user.groups, ["set_writability"]) ==>
        r == Fail(PermissionDenied(user)) && history == old(history) && stored == old(stored)
      ensures Auth.CanAnyOf(user.groups, ["set_writability"]) ==>
        var h1 := old(history) + [NewAction(user, Writable)];
        r == SaveCheck(h1, user, true)
        && (r.Pass? ==> history == h1 + [NewAction(user, SaveEvent(h1))] && stored == Some(SortByTimestamp(history)))
        && (r.Fail? ==> history == h1 && stored == old(stored))
      ensures r.Pass? ==> !IsReadonlyOf(history)
    {
      var may := user.CanAny(["set_writability"]);
      if !may {
        return Fail(PermissionDenied(user));
      }
      history := history + [NewAction(user, Writable)];
      ghost var h1 := history;
      r := Save(user, true);
      if r.Pass? {
        AppendEffect(old(history), NewAction(user, Writable), ReadOnly, Writable);
        AppendEffect(h1, NewAction(user, SaveEvent(h1)), ReadOnly, Writable);
      }
    }

    /** `hide` as written. Success(Some(true)) is the early `return True` for
        an already hidden document, Success(None) the fall-through. The
        appended action is a MODIFY, so visibility never changes. */
    method Hide(user: Auth.User) returns (r: Result<Option<bool>, Error>)
      modifies this
      ensures !Auth.CanAnyOf(user.groups, ["set_visibility"]) ==>
        r == Failure(PermissionDenied(user)) && history == old(history) && stored == old(stored)
      ensures Auth.CanAnyOf(user.groups, ["set_visibility"]) && IsHiddenOf(old(history)) ==>
        r == Success(Some(true)) && history == old(history) && stored == old(stored)
      ensures Auth.CanAnyOf(user.groups, ["set_visibility"]) && !IsHiddenOf(old(history)) ==>
        var h1 := old(history) + [NewAction(user, Modify)];
        (SaveCheck(h1, user, false).Pass? ==> r == Success(None) && history == h1 + [NewAction(user, SaveEvent(h1))]
                                              && stored == Some(SortByTimestamp(history)))
        && (SaveCheck(h1, user, false).Fail? ==> r == Failure(SaveCheck(h1, user, false).error)
                                                 && history == h1 && stored == old(stored))
      ensures IsHiddenOf(history) == IsHiddenOf(old(history))
    {
      var may := user.CanAny(["set_visibility"]);
      if !may {
        return Failure(PermissionDenied(user));
      }
      var hidden := IsHidden();
      if hidden {
        return Success(Some(true));
      }
      r := AppendAndSave(user, Modify);
      VisibilityAsWrittenUnchanged(old(history), user);
    }

    /** `show` as written: symmetric to `hide`. */
    method Show(user: Auth.User) returns (r: Result<Option<bool>, Error>)
      modifies this
      ensures !Auth.CanAnyOf(user.groups, ["set_visibility"]) ==>
        r == Failure(PermissionDenied(user)) && history == old(history) && stored == old(stored)
      ensures Auth.CanAnyOf(user.groups, ["set_visibility"]) && !IsHiddenOf(old(history)) ==>
        r == Success(Some(true)) && history == old(history) && stored == old(stored)
      ensures Auth.CanAnyOf(user.groups, ["set_visibility"]) && IsHiddenOf(old(history)) ==>
        var h1 := old(history) + [NewAction(user, Modify)];
        (SaveCheck(h1, user, false).Pass? ==> r == Success(None) && history == h1 + [NewAction(user, SaveEvent(h1))]
                                              && stored == Some(SortByTimestamp(history)))
        && (SaveCheck(h1, user, false).Fail? ==> r == Failure(SaveCheck(h1, user, false).error)
                                                 && history == h1 && stored == old(stored))
      ensures IsHiddenOf(history) == IsHiddenOf(old(history))
    {
      var may := user.CanAny(["set_visibility"]);
      if !may {
        return Failure(PermissionDenied(user));
      }
      var shown := IsShown();
      if shown {
        return Success(Some(true));
      }
      r := AppendAndSave(user, Modify);
      VisibilityAsWrittenUnchanged(old(history), user);
    }

    /** `hide` as intended: a HIDE action; a successful call leaves the document hidden. */
    method HideIntended(user: Auth.User) returns (r: Result<Option<bool>, Error>)
      modifies this
      ensures !Auth.CanAnyOf(user.groups, ["set_visibility"]) ==>
        r == Failure(PermissionDenied(user)) && history == old(history) && stored == old(stored)
      ensures Auth.CanAnyOf(user.groups, ["set_visibility"]) && IsHiddenOf(old(history)) ==>
        r == Success(Some(true)) && history == old(history) && stored == old(stored)
      ensures Auth.CanAnyOf(user.groups, ["set_visibility"]) && !IsHiddenOf(old(history)) ==>
        var h1 := old(history) + [NewAction(user, Event.Hide)];
        (SaveCheck(h1, user, false).Pass? ==> r == Success(None) && history == h1 + [NewAction(user, SaveEvent(h1))]
                                              && stored == Some(SortByTimestamp(history)))
        && (SaveCheck(h1, user, false).Fail? ==> r == Failure(SaveCheck(h1, user, false).error)
                                                 && history == h1 && stored == old(stored))
      ensures r.Success? ==> IsHiddenOf(history)
    {
      var may := user.CanAny(["set_visibility"]);
      if !may {
        return Failure(PermissionDenied(user));
      }
      var hidden := IsHidden();
      if hidden {
        return Success(Some(true));
      }
      r := AppendAndSave(user, Event.Hide);
      VisibilityIntended(old(history), user);
    }

    /** `show` as intended: a SHOW action; a successful call leaves the document shown. */
    method ShowIntended(user: Auth.User) returns (r: Result<Option<bool>, Error>)
      modifies this
      ensures !Auth.CanAnyOf(user.groups, ["set_visibility"]) ==>
        r == Failure(PermissionDenied(user)) && history == old(history) && stored == old(stored)
      ensures Auth.CanAnyOf(user.groups, ["set_visibility"]) && !IsHiddenOf(old(history)) ==>
        r == Success(Some(true)) && history == old(history) && stored == old(stored)
      ensures Auth.CanAnyOf(user.groups, ["set_visibility"]) && IsHiddenOf(old(history)) ==>
        var h1 := old(history) + [NewAction(user, Event.Show)];
        (SaveCheck(h1, user, false).Pass? ==> r == Success(None) && history == h1 + [NewAction(user, SaveEvent(h1))]
                                              && stored == Some(SortByTimestamp(history)))
        && (SaveCheck(h1, user, false).Fail? ==> r == Failure(SaveCheck(h1, user, false).error)
                                                 && history == h1 && stored == old(stored))
      ensures r.Success? ==> !IsHiddenOf(history)
    {
      var may := user.CanAny(["set_visibility"]);
      if !may {
        return Failure(PermissionDenied(user));
      }
      var shown := IsShown();
      if shown {
        return Success(Some(true));
      }
      r := AppendAndSave(user, Event.Show);
      VisibilityIntended(old(history), user);
    }

    /** The tail shared by `hide` and `show`: append an action, then a plain save. */
    method AppendAndSave(user: Auth.User, e: Event) returns (r: Result<Option<bool>, Error>)
      modifies this
      ensures var h1 := old(history) + [NewAction(user, e)];
        (SaveCheck(h1, user, false).Pass? ==> r == Success(None) && history == h1 + [NewAction(user, SaveEvent(h1))]
                                              && stored == Some(SortByTimestamp(history)))
        && (SaveCheck(h1, user, false).Fail? ==> r == Failure(SaveCheck(h1, user, false).error)
                                                 && history == h1 && stored == old(stored))
    {
      history := history + [NewAction(user, e)];
      var saved := Save(user, false);
      if saved.Fail? {
        return Failure(saved.error);
      }
      return Success(None);
    }
  }
}
