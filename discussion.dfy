/** Threaded comments of onebase_api/models/discussion.py.

    The comment collection is a `Store`: the document ids in the order the
    collection returns them, and each id's document. A document is a
    `Comment` or a `DeletedComment` placeholder; both keep their replies (ids
    of other comments) and a timestamp. Deleting a comment leaves a
    placeholder in its place so that its replies stay reachable. */
module Discussion {
  import opened Wrappers
  import opened Errors
  import TimestampOrder

  type Id = nat

  /** The concrete class of a stored CommentBase document. */
  datatype Kind = CommentKind | DeletedKind

  datatype CommentDoc = CommentDoc(kind: Kind, replies: seq<Id>, timestamp: TimestampOrder.Timestamp)

  datatype Store = Store(order: seq<Id>, docs: map<Id, CommentDoc>)

  /** Ids are unique, and the ordered ids are exactly the stored ones. */
  predicate Valid(s: Store)
  {
    (forall i, j | 0 <= i < j < |s.order| :: s.order[i] != s.order[j])
    && (forall id | id in s.docs :: id in s.order)
    && (forall id | id in s.order :: id in s.docs)
  }

  // ---------------------------------------------------------------------
  // CommentBase.parent

  /** Document `id` is of one of `kinds` and lists `x` among its replies. */
  predicate Holds(docs: map<Id, CommentDoc>, id: Id, kinds: set<Kind>, x: Id)
  {
    id in docs && docs[id].kind in kinds && x in docs[id].replies
  }

  /** `objects(replies__in=[x]).first()` over the documents of `kinds`: the
      first id, in collection order, whose document lists `x`. */
  function FirstHolder(order: seq<Id>, docs: map<Id, CommentDoc>, kinds: set<Kind>, x: Id): (r: Option<Id>)
    ensures r.None? <==> forall id | id in order :: !Holds(docs, id, kinds, x)
    ensures r.Some? ==> exists k | 0 <= k < |order| :: order[k] == r.value
                          && Holds(docs, order[k], kinds, x)
                          && forall j | 0 <= j < k :: !Holds(docs, order[j], kinds, x)
  {
    if |order| == 0 then None
    else if Holds(docs, order[0], kinds, x) then Some(order[0])
    else
      var r := FirstHolder(order[1..], docs, kinds, x);
      assert forall id | id in order :: id == order[0] || id in order[1..];
      if r.Some? then
        var k :| 0 <= k < |order[1..]| && order[1..][k] == r.value
                 && Holds(docs, order[1..][k], kinds, x)
                 && forall j | 0 <= j < k :: !Holds(docs, order[1..][j], kinds, x);
        assert order[k + 1] == r.value;
        assert forall j | 0 <= j < k + 1 :: !Holds(docs, order[j], kinds, x) by {
          forall j | 0 <= j < k + 1 ensures !Holds(docs, order[j], kinds, x) {
            if j > 0 { assert order[j] == order[1..][j - 1]; }
          }
        }
        r
      else r
  }

  /** `CommentBase.parent` as written: the query runs on `self.__class__`,
      so only documents of the comment's own class are searched. */
  function ParentOf(s: Store, x: Id): Option<Id>
    requires x in s.docs
  {
    FirstHolder(s.order, s.docs, {s.docs[x].kind}, x)
  }

  /** The parent as the comment tree means it: any CommentBase document,
      placeholders included, that lists `x`. */
  function ParentAnyKind(s: Store, x: Id): Option<Id>
  {
    FirstHolder(s.order, s.docs, {CommentKind, DeletedKind}, x)
  }

  /** As written, the parent of a Comment is always a Comment: a
      DeletedComment is never found. */
  lemma ParentOfCommentIsComment(s: Store, x: Id)
    requires x in s.docs && s.docs[x].kind == CommentKind
    ensures ParentOf(s, x).Some? ==> s.docs[ParentOf(s, x).value].kind == CommentKind
    ensures forall id | id in s.order && id in s.docs && s.docs[id].kind == DeletedKind ::
              ParentOf(s, x) != Some(id)
  {
  }

  // ---------------------------------------------------------------------
  // Comment.delete

  /** Every occurrence of `x` in `rs` replaced by `y`. */
  function ReplaceAll(rs: seq<Id>, x: Id, y: Id): (r: seq<Id>)
    ensures |r| == |rs|
    ensures forall k | 0 <= k < |rs| :: r[k] == (if rs[k] == x then y else rs[k])
  {
    if |rs| == 0 then []
    else ReplaceAll(rs[..|rs| - 1], x, y) + [if rs[|rs| - 1] == x then y else rs[|rs| - 1]]
  }

  /** `ids` without `x`, order kept. */
  function Without(ids: seq<Id>, x: Id): seq<Id>
  {
    if |ids| == 0 then []
    else Without(ids[..|ids| - 1], x) + (if ids[|ids| - 1] == x then [] else [ids[|ids| - 1]])
  }

  /** `Without` keeps every id but `x`. */
  lemma {:induction false} WithoutMembers(ids: seq<Id>, x: Id, y: Id)
    ensures y in Without(ids, x) <==> y in ids && y != x
  {
    if |ids| > 0 {
      var t := ids[..|ids| - 1];
      WithoutMembers(t, x, y);
      assert ids == t + [ids[|ids| - 1]];
    }
  }

  /** The placeholder that stands for a deleted comment. */
  function Placeholder(doc: CommentDoc): (p: CommentDoc)
    ensures p.kind == DeletedKind && p.replies == doc.replies && p.timestamp == doc.timestamp
  {
    CommentDoc(DeletedKind, doc.replies, doc.timestamp)
  }

  /** The store once the placeholder for `x` is saved under `newId`. */
  function Saved(s: Store, x: Id, newId: Id): Store
    requires x in s.docs
  {
    Store(s.order + [newId], s.docs[newId := Placeholder(s.docs[x])])
  }

  /** The documents once the parent of `x`, found among the documents of
      x's class, has every occurrence of `x` in its replies replaced by
      `newId`. */
  function Relink(s: Store, x: Id, newId: Id): map<Id, CommentDoc>
    requires x in s.docs
  {
    match ParentOf(s, x)
    case None => s.docs
    case Some(p) => s.docs[p := s.docs[p].(replies := ReplaceAll(s.docs[p].replies, x, newId))]
  }

  /** The store after `Comment.delete` on `x` as its comments intend, the
      placeholder receiving id `newId`: the placeholder is saved, the
      parent relinked, then `x` is removed. */
  function AfterDelete(s: Store, x: Id, newId: Id): Store
    requires x in s.docs
  {
    var saved := Saved(s, x, newId);
    Store(Without(saved.order, x), Relink(saved, x, newId) - {x})
  }

  /** The store after `Comment.delete` as written: every `self.parent` runs
      the query again and returns a fresh object, so the relinking loop
      writes into a copy that is dropped, and the parent saved afterwards is
      another unmodified copy. Only the placeholder is added and `x`
      removed. */
  function AfterDeleteAsWritten(s: Store, x: Id, newId: Id): Store
    requires x in s.docs
  {
    var saved := Saved(s, x, newId);
    Store(Without(saved.order, x), saved.docs - {x})
  }

  class CommentStore {
    var order: seq<Id>
    var docs: map<Id, CommentDoc>

    function State(): Store
      reads this
    {
      Store(order, docs)
    }

    constructor ()
      ensures State() == Store([], map[])
    {
      order := [];
      docs := map[];
    }

    /** Saves a new document under `id`. */
    method Insert(id: Id, doc: CommentDoc)
      requires id !in docs
      modifies this
      ensures State() == Store(old(order) + [id], old(docs)[id := doc])
    {
      order := order + [id];
      docs := docs[id := doc];
    }

    /** `Comment.delete` as intended: builds the placeholder from `x`'s
        replies and timestamp, saves it as `newId`, rewrites the parent's
        replies in an index loop on one fetched parent, and removes `x`. */
    method Delete(x: Id, newId: Id)
      requires x in docs && docs[x].kind == CommentKind && newId !in docs
      modifies this
      ensures State() == AfterDelete(old(State()), x, newId)
    {
      var placeholder := Placeholder(docs[x]);
      docs := docs[newId := placeholder];
      order := order + [newId];
      var parent := FirstHolder(order, docs, {CommentKind}, x);
      if parent.Some? {
        var p := parent.value;
        var rs := docs[p].replies;
        var i := 0;
        while i < |rs|
          invariant 0 <= i <= |rs| == |docs[p].replies|
          invariant forall k | 0 <= k < i ::
                      rs[k] == (if docs[p].replies[k] == x then newId else docs[p].replies[k])
          invariant forall k | i <= k < |rs| :: rs[k] == docs[p].replies[k]
        {
          if rs[i] == x {
            rs := rs[i := newId];
          }
          i := i + 1;
        }
        assert rs == ReplaceAll(docs[p].replies, x, newId);
        docs := docs[p := docs[p].(replies := rs)];
      }
      docs := docs - {x};
      order := Without(order, x);
    }

    /** `Comment.delete` as written: the loop walks the replies of one
        fetch of the parent and assigns into the replies of another, and
        neither is the stored document. */
    method DeleteAsWritten(x: Id, newId: Id)
      requires x in docs && docs[x].kind == CommentKind && newId !in docs
      modifies this
      ensures State() == AfterDeleteAsWritten(old(State()), x, newId)
    {
      var placeholder := Placeholder(docs[x]);
      docs := docs[newId := placeholder];
      order := order + [newId];
      var parent := FirstHolder(order, docs, {CommentKind}, x);
      if parent.Some? {
        var p := parent.value;
        var rs := docs[p].replies;
        var i := 0;
        while i < |rs|
          invariant 0 <= i <= |rs|
        {
          if rs[i] == x {
            var fetched := docs[p].replies;
            fetched := fetched[i := newId];
          }
          i := i + 1;
        }
      }
      docs := docs - {x};
      order := Without(order, x);
    }
  }

  /** Number of ids in `ids` whose document is of `kind`. */
  function CountKind(ids: seq<Id>, docs: map<Id, CommentDoc>, kind: Kind): nat
  {
    if |ids| == 0 then 0
    else CountKind(ids[..|ids| - 1], docs, kind)
         + (if ids[|ids| - 1] in docs && docs[ids[|ids| - 1]].kind == kind then 1 else 0)
  }

  /** `Comment.objects.count()`. */
  function CommentCount(s: Store): nat
  {
    CountKind(s.order, s.docs, CommentKind)
  }

  /** Counting only looks at the kinds of the listed ids. */
  lemma {:induction false} CountSameKinds(ids: seq<Id>, d1: map<Id, CommentDoc>, d2: map<Id, CommentDoc>, kind: Kind)
    requires forall id | id in ids :: (id in d1 <==> id in d2)
    requires forall id | id in ids && id in d1 && id in d2 :: d1[id].kind == d2[id].kind
    ensures CountKind(ids, d1, kind) == CountKind(ids, d2, kind)
  {
    if |ids| > 0 {
      CountSameKinds(ids[..|ids| - 1], d1, d2, kind);
    }
  }

  /** Dropping `x` from unique ids lowers the count by one exactly when `x`
      was listed and of the counted kind. */
  lemma {:induction false} CountWithout(ids: seq<Id>, docs: map<Id, CommentDoc>, kind: Kind, x: Id)
    requires forall i, j | 0 <= i < j < |ids| :: ids[i] != ids[j]
    ensures CountKind(ids, docs, kind)
         == CountKind(Without(ids, x), docs, kind)
            + (if x in ids && x in docs && docs[x].kind == kind then 1 else 0)
  {
    if |ids| > 0 {
      var t := ids[..|ids| - 1];
      var l := ids[|ids| - 1];
      assert ids == t + [l];
      CountWithout(t, docs, kind, x);
      var c := if l in docs && docs[l].kind == kind then 1 else 0;
      assert CountKind(ids, docs, kind) == CountKind(t, docs, kind) + c;
      if l == x {
        assert x !in t by {
          forall k | 0 <= k < |t| ensures t[k] != x {
            assert t[k] == ids[k];
          }
        }
        assert Without(ids, x) == Without(t, x);
      } else {
        assert x in ids <==> x in t;
        var w := Without(t, x) + [l];
        assert Without(ids, x) == w;
        assert w[..|w| - 1] == Without(t, x);
        assert CountKind(w, docs, kind) == CountKind(Without(t, x), docs, kind) + c;
      }
    }
  }

  /** Relinking keeps every document with its kind and timestamp. */
  lemma RelinkKeeps(s: Store, x: Id, newId: Id, id: Id)
    requires x in s.docs
    ensures id in Relink(s, x, newId) <==> id in s.docs
    ensures id in s.docs ==> Relink(s, x, newId)[id].kind == s.docs[id].kind
    ensures id in s.docs ==> Relink(s, x, newId)[id].timestamp == s.docs[id].timestamp
  {
  }

  /** Relinking changes no reply other than `x` and `newId`. */
  lemma RelinkReplies(s: Store, x: Id, newId: Id, id: Id, c: Id)
    requires x in s.docs && id in s.docs && c != x && c != newId
    ensures c in Relink(s, x, newId)[id].replies <==> c in s.docs[id].replies
  {
    match ParentOf(s, x)
    case None =>
    case Some(p) =>
      if id == p {
        ReplaceAllMembership(s.docs[p].replies, x, newId, c);
      }
  }

  /** Saving the placeholder keeps the store well formed. */
  lemma SavedValid(s: Store, x: Id, newId: Id)
    requires Valid(s) && x in s.docs && newId !in s.docs
    ensures Valid(Saved(s, x, newId))
  {
    var saved := Saved(s, x, newId);
    assert newId !in s.order;
    forall i, j | 0 <= i < j < |saved.order| ensures saved.order[i] != saved.order[j] {
      if j == |s.order| {
        assert saved.order[i] in s.order;
      }
    }
  }

  /** Deleting a comment keeps the store well formed. */
  lemma DeleteValid(s: Store, x: Id, newId: Id)
    requires Valid(s) && x in s.docs && newId !in s.docs
    ensures Valid(AfterDelete(s, x, newId))
  {
    var saved := Saved(s, x, newId);
    SavedValid(s, x, newId);
    WithoutUnique(saved.order, x);
    DeleteKeepsIdsStored(s, x, newId);
  }

  /** After a delete the listed ids are exactly the stored ones. */
  lemma DeleteKeepsIdsStored(s: Store, x: Id, newId: Id)
    requires x in s.docs && Valid(Saved(s, x, newId))
    ensures forall id :: id in AfterDelete(s, x, newId).docs <==> id in AfterDelete(s, x, newId).order
  {
    var saved := Saved(s, x, newId);
    forall id ensures id in AfterDelete(s, x, newId).docs <==> id in AfterDelete(s, x, newId).order {
      RelinkKeeps(saved, x, newId, id);
      WithoutMembers(saved.order, x, id);
    }
  }

  /** Saving the placeholder adds no Comment. */
  lemma SavedCount(s: Store, x: Id, newId: Id)
    requires Valid(s) && x in s.docs && newId !in s.docs
    ensures CountKind(Saved(s, x, newId).order, Saved(s, x, newId).docs, CommentKind) == CommentCount(s)
  {
    var saved := Saved(s, x, newId);
    assert saved.order[..|saved.order| - 1] == s.order;
    assert CountKind(saved.order, saved.docs, CommentKind) == CountKind(s.order, saved.docs, CommentKind);
    assert newId !in s.order;
    CountSameKinds(s.order, saved.docs, s.docs, CommentKind);
  }

  /** Deleting a comment removes exactly that comment from the Comment
      count. */
  lemma DeleteCount(s: Store, x: Id, newId: Id)
    requires Valid(s) && x in s.docs && s.docs[x].kind == CommentKind && newId !in s.docs
    ensures CommentCount(AfterDelete(s, x, newId)) == CommentCount(s) - 1
  {
    var saved := Saved(s, x, newId);
    var t := AfterDelete(s, x, newId);
    SavedValid(s, x, newId);
    SavedCount(s, x, newId);
    CountWithout(saved.order, saved.docs, CommentKind, x);
    assert x in saved.order && saved.docs[x].kind == CommentKind;
    forall id | id in t.order
      ensures id in saved.docs && id in t.docs && saved.docs[id].kind == t.docs[id].kind
    {
      WithoutMembers(saved.order, x, id);
      RelinkKeeps(saved, x, newId, id);
    }
    CountSameKinds(t.order, saved.docs, t.docs, CommentKind);
  }

  /** Deleting a comment removes it and stores the placeholder under the
      new id, after the other ids, with the deleted comment's replies and
      timestamp. */
  lemma DeletePlaceholder(s: Store, x: Id, newId: Id)
    requires x in s.docs && s.docs[x].kind == CommentKind && newId !in s.docs
    ensures x !in AfterDelete(s, x, newId).docs
    ensures newId in AfterDelete(s, x, newId).docs && newId in AfterDelete(s, x, newId).order
    ensures AfterDelete(s, x, newId).docs[newId] == Placeholder(s.docs[x])
  {
    var saved := Saved(s, x, newId);
    RelinkKeeps(saved, x, newId, newId);
    WithoutMembers(saved.order, x, newId);
    assert newId != x;
    assert ParentOf(saved, x) != Some(newId) by {
      assert !Holds(saved.docs, newId, {CommentKind}, x);
    }
  }

  /** Saving a placeholder that does not hold `x` under `kinds` leaves the
      first holder of `x` unchanged. */
  lemma {:induction false} FirstHolderSaved(order: seq<Id>, docs: map<Id, CommentDoc>, kinds: set<Kind>, x: Id, n: Id, d: CommentDoc)
    requires n !in docs && !(d.kind in kinds && x in d.replies)
    ensures FirstHolder(order + [n], docs[n := d], kinds, x) == FirstHolder(order, docs, kinds, x)
  {
    var docs' := docs[n := d];
    if |order| == 0 {
      assert order + [n] == [n];
      assert !Holds(docs', n, kinds, x);
      assert FirstHolder([n][1..], docs', kinds, x) == None;
    } else {
      assert (order + [n])[0] == order[0];
      assert (order + [n])[1..] == order[1..] + [n];
      assert Holds(docs', order[0], kinds, x) <==> Holds(docs, order[0], kinds, x);
      FirstHolderSaved(order[1..], docs, kinds, x, n, d);
    }
  }

  /** Saving the placeholder does not change the parent of `x`. */
  lemma SavedParent(s: Store, x: Id, newId: Id)
    requires x in s.docs && s.docs[x].kind == CommentKind && newId !in s.docs
    ensures ParentOf(Saved(s, x, newId), x) == ParentOf(s, x)
  {
    FirstHolderSaved(s.order, s.docs, {CommentKind}, x, newId, Placeholder(s.docs[x]));
  }

  /** The intended delete relinks the parent: its replies are its old
      replies with `x` replaced by the placeholder's id, so it no longer
      lists `x` and lists the placeholder instead. */
  lemma DeleteRelinksParent(s: Store, x: Id, newId: Id)
    requires x in s.docs && s.docs[x].kind == CommentKind && newId !in s.docs
    requires ParentOf(s, x).Some? && ParentOf(s, x).value != x
    ensures var p := ParentOf(s, x).value;
      && p in AfterDelete(s, x, newId).docs
      && AfterDelete(s, x, newId).docs[p].replies == ReplaceAll(s.docs[p].replies, x, newId)
      && x !in AfterDelete(s, x, newId).docs[p].replies
      && newId in AfterDelete(s, x, newId).docs[p].replies
  {
    var p := ParentOf(s, x).value;
    SavedParent(s, x, newId);
    assert Holds(s.docs, p, {CommentKind}, x);
    var rs := s.docs[p].replies;
    var k :| 0 <= k < |rs| && rs[k] == x;
    assert ReplaceAll(rs, x, newId)[k] == newId;
    assert x != newId;
  }

  /** `Comment.delete` as written leaves the parent as it was: it still
      lists `x`, whose document no longer exists. */
  lemma DeleteAsWrittenKeepsDeletedReply(s: Store, x: Id, newId: Id)
    requires x in s.docs && s.docs[x].kind == CommentKind && newId !in s.docs
    requires ParentOf(s, x).Some? && ParentOf(s, x).value != x
    ensures var p := ParentOf(s, x).value;
      && x !in AfterDeleteAsWritten(s, x, newId).docs
      && p in AfterDeleteAsWritten(s, x, newId).docs
      && AfterDeleteAsWritten(s, x, newId).docs[p] == s.docs[p]
      && x in AfterDeleteAsWritten(s, x, newId).docs[p].replies
  {
    var p := ParentOf(s, x).value;
    assert Holds(s.docs, p, {CommentKind}, x);
  }

  /** Dropping an id keeps ids unique. */
  lemma {:induction false} WithoutUnique(ids: seq<Id>, x: Id)
    requires forall i, j | 0 <= i < j < |ids| :: ids[i] != ids[j]
    ensures forall i, j | 0 <= i < j < |Without(ids, x)| :: Without(ids, x)[i] != Without(ids, x)[j]
  {
    if |ids| > 0 {
      var t := ids[..|ids| - 1];
      var l := ids[|ids| - 1];
      WithoutUnique(t, x);
      assert l !in t;
      WithoutMembers(t, x, l);
    }
  }

  /** Replacing `x` by `y` changes no other membership. */
  lemma ReplaceAllMembership(rs: seq<Id>, x: Id, y: Id, c: Id)
    requires c != x && c != y
    ensures c in ReplaceAll(rs, x, y) <==> c in rs
  {
    var r := ReplaceAll(rs, x, y);
    if c in rs {
      var k :| 0 <= k < |rs| && rs[k] == c;
      assert r[k] == c;
    }
    if c in r {
      var k :| 0 <= k < |r| && r[k] == c;
      assert rs[k] == c;
    }
  }

  /** After deleting `x`, a document lists a reply `c` of `x` exactly when
      it is the placeholder or it listed `c` before. */
  lemma HoldersAfterDelete(s: Store, x: Id, newId: Id, c: Id, id: Id)
    requires x in s.docs && newId !in s.docs && c != x && c != newId
    requires c in s.docs[x].replies
    ensures Holds(AfterDelete(s, x, newId).docs, id, {CommentKind, DeletedKind}, c)
        <==> id == newId || (id != x && id in s.docs && c in s.docs[id].replies)
  {
    var saved := Saved(s, x, newId);
    assert newId != x;
    RelinkKeeps(saved, x, newId, id);
    if id in saved.docs {
      RelinkReplies(saved, x, newId, id, c);
    }
  }

  /** When exactly one listed document holds `x`, it is the one found. */
  lemma FirstHolderOnly(order: seq<Id>, docs: map<Id, CommentDoc>, kinds: set<Kind>, x: Id, h: Id)
    requires h in order
    requires forall id | id in order :: Holds(docs, id, kinds, x) <==> id == h
    ensures FirstHolder(order, docs, kinds, x) == Some(h)
  {
  }

  /** Deleting a comment that is the only holder of its reply `c` (the
      deleted root of the thread, say) leaves `c` under the placeholder; the
      parent query as written, searching only Comments, then finds no
      parent, whereas a search over all comment documents finds the
      DeletedComment. */
  lemma DeletedParentIsPlaceholder(s: Store, x: Id, newId: Id, c: Id)
    requires Valid(s) && x in s.docs && s.docs[x].kind == CommentKind && newId !in s.docs
    requires c in s.docs && s.docs[c].kind == CommentKind && c != x
    requires c in s.docs[x].replies
    requires forall id | id in s.docs && c in s.docs[id].replies :: id == x
    ensures c in AfterDelete(s, x, newId).docs
    ensures ParentOf(AfterDelete(s, x, newId), c) == None
    ensures ParentAnyKind(AfterDelete(s, x, newId), c) == Some(newId)
    ensures AfterDelete(s, x, newId).docs[newId].kind == DeletedKind
  {
    var t := AfterDelete(s, x, newId);
    DeletePlaceholder(s, x, newId);
    assert c != newId;
    forall id | id in t.order
      ensures Holds(t.docs, id, {CommentKind, DeletedKind}, c) <==> id == newId
    {
      HoldersAfterDelete(s, x, newId, c, id);
    }
    RelinkKeeps(Saved(s, x, newId), x, newId, c);
    OnlyPlaceholderHolds(t, c, newId);
  }

  /** A Comment held only by a placeholder has no parent as written, and
      the placeholder as its parent across all kinds. */
  lemma OnlyPlaceholderHolds(t: Store, c: Id, h: Id)
    requires c in t.docs && t.docs[c].kind == CommentKind
    requires h in t.order && h in t.docs && t.docs[h].kind == DeletedKind
    requires forall id | id in t.order :: Holds(t.docs, id, {CommentKind, DeletedKind}, c) <==> id == h
    ensures ParentOf(t, c) == None
    ensures ParentAnyKind(t, c) == Some(h)
  {
    FirstHolderOnly(t.order, t.docs, {CommentKind, DeletedKind}, c, h);
    forall id | id in t.order ensures !Holds(t.docs, id, {CommentKind}, c) {
      assert Holds(t.docs, id, {CommentKind}, c) ==> Holds(t.docs, id, {CommentKind, DeletedKind}, c);
    }
  }

  // ---------------------------------------------------------------------
  // Discussion

  datatype DiscussionDoc = DiscussionDoc(title: string, comments: seq<Id>, isLocked: bool)

  /** `Discussion.starter`: `comments[0]`, an IndexError on an empty list. */
  function Starter(d: DiscussionDoc): (r: Result<Id, Error>)
  {
    if |d.comments| == 0 then Failure(IndexError("list index out of range")) else Success(d.comments[0])
  }

  /** Saving a Discussion: the required `comments` list must be non-empty. */
  function ValidateDiscussion(d: DiscussionDoc): (r: Outcome<Error>)
  {
    if |d.comments| == 0 then Fail(ValidationError({"comments"})) else Pass
  }

  /** A discussion passes validation exactly when it has a starter, and the
      starter is its first comment. */
  lemma StarterSpec(d: DiscussionDoc)
    ensures ValidateDiscussion(d).Pass? <==> Starter(d).Success?
    ensures Starter(d).Success? ==> Starter(d).value in d.comments && Starter(d).value == d.comments[0]
    ensures ValidateDiscussion(d).Fail? ==> ValidateDiscussion(d).error == ValidationError({"comments"})
    ensures Starter(d).Failure? ==> Starter(d).error.IndexError?
  {
  }
}
