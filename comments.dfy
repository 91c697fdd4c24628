/** The in-memory comment store: comments keyed by id (kept in insertion order, as a
    JavaScript Map is), the reactions of each comment, and one id counter that comments,
    attachments and reactions all draw from. Clock readings are passed in as `now`. */
module Comments {
  import opened JsPrelude
  import Mentions

  datatype Attachment = Attachment(id: int, url: string)

  datatype Reaction = Reaction(id: int, userId: int, emoji: string)

  /** A stored comment. `attachmentUrls` is the creation argument, kept on the record by
      the object spread; `editedAt` is absent until the first edit. */
  datatype Comment = Comment(
    id: int,
    taskId: int,
    userId: int,
    content: string,
    attachmentUrls: Option<seq<string>>,
    mentions: seq<string>,
    attachments: seq<Attachment>,
    createdAt: int,
    updatedAt: int,
    editedAt: Option<int>,
    isDeleted: bool)

  /** The two errors the store throws. */
  datatype StoreError = NotFoundOrForbidden | NotFound

  function ErrorMessage(e: StoreError): string {
    match e
    case NotFoundOrForbidden => "Comment not found or permission denied"
    case NotFound => "Comment not found"
  }

  /** The paging argument of a listing; a key left out of it is None. */
  datatype PageOptions = PageOptions(limit: Option<int>, offset: Option<int>)

  /** What each id drawn from the counter was given to. */
  datatype IdHolder =
    | CommentHolder(commentId: int)
    | AttachmentHolder(commentId: int, index: int)
    | ReactionHolder(commentId: int, index: int)

  function UrlsOrEmpty(urls: Option<seq<string>>): seq<string> {
    if urls.Some? then urls.value else []
  }

  function ReactionsOf(reactions: map<int, seq<Reaction>>, commentId: int): seq<Reaction> {
    if commentId in reactions then reactions[commentId] else []
  }

  // ---------------------------------------------------------------------------
  // Listing: filter, stable sort by creation time, slice.

  /** `Array.from(comments.values())`: the stored records in key insertion order. */
  function InsertionOrder(order: seq<int>, comments: map<int, Comment>): (r: seq<Comment>)
    ensures forall c :: c in r ==> c in comments.Values
    ensures forall i :: 0 <= i < |order| && order[i] in comments ==> comments[order[i]] in r
    ensures (forall i :: 0 <= i < |order| ==> order[i] in comments) ==>
      |r| == |order| && forall i :: 0 <= i < |order| ==> r[i] == comments[order[i]]
  {
    if order == [] then []
    else (if order[0] in comments then [comments[order[0]]] else []) + InsertionOrder(order[1..], comments)
  }

  /** The comments of one task that are not deleted, in their original order. */
  function LiveForTask(cs: seq<Comment>, taskId: int): (r: seq<Comment>)
    ensures forall c :: c in r <==> c in cs && c.taskId == taskId && !c.isDeleted
    ensures |r| <= |cs|
  {
    if cs == [] then []
    else (if cs[0].taskId == taskId && !cs[0].isDeleted then [cs[0]] else []) + LiveForTask(cs[1..], taskId)
  }

  predicate SortedByCreatedAt(cs: seq<Comment>) {
    forall i, j :: 0 <= i < j < |cs| ==> cs[i].createdAt <= cs[j].createdAt
  }

  /** Places `x` before the first element that was not created earlier than it. */
  function InsertByCreatedAt(x: Comment, ys: seq<Comment>): seq<Comment> {
    if ys == [] || x.createdAt <= ys[0].createdAt then [x] + ys
    else [ys[0]] + InsertByCreatedAt(x, ys[1..])
  }

  lemma {:induction false} InsertIsPermutation(x: Comment, ys: seq<Comment>)
    ensures multiset(InsertByCreatedAt(x, ys)) == multiset(ys) + multiset{x}
    decreases |ys|
  {
    if !(ys == [] || x.createdAt <= ys[0].createdAt) {
      InsertIsPermutation(x, ys[1..]);
      assert ys == [ys[0]] + ys[1..];
    }
  }

  lemma SortedCons(x: Comment, ys: seq<Comment>)
    requires SortedByCreatedAt(ys)
    requires forall j :: 0 <= j < |ys| ==> x.createdAt <= ys[j].createdAt
    ensures SortedByCreatedAt([x] + ys)
  {
    var r := [x] + ys;
    forall i, j | 0 <= i < j < |r| ensures r[i].createdAt <= r[j].createdAt {
      assert r[j] == ys[j - 1];
      if i > 0 {
        assert r[i] == ys[i - 1];
      }
    }
  }

  lemma {:induction false} InsertKeepsSorted(x: Comment, ys: seq<Comment>)
    requires SortedByCreatedAt(ys)
    ensures SortedByCreatedAt(InsertByCreatedAt(x, ys))
    decreases |ys|
  {
    if ys == [] || x.createdAt <= ys[0].createdAt {
      SortedCons(x, ys);
    } else {
      var tail := ys[1..];
      var rest := InsertByCreatedAt(x, tail);
      assert SortedByCreatedAt(tail) by {
        forall i, j | 0 <= i < j < |tail| ensures tail[i].createdAt <= tail[j].createdAt {
          assert tail[i] == ys[i + 1] && tail[j] == ys[j + 1];
        }
      }
      InsertKeepsSorted(x, tail);
      InsertIsPermutation(x, tail);
      forall j | 0 <= j < |rest| ensures ys[0].createdAt <= rest[j].createdAt {
        assert rest[j] in multiset(rest);
        if rest[j] != x {
          assert rest[j] in multiset(tail);
          var k :| 0 <= k < |tail| && tail[k] == rest[j];
          assert ys[k + 1] == rest[j];
        }
      }
      SortedCons(ys[0], rest);
    }
  }

  /** The stable sort by `createdAt` that `Array.prototype.sort` performs with the
      comparator `a.createdAt - b.createdAt`: sorted, and a permutation of its input. */
  function SortByCreatedAt(cs: seq<Comment>): (r: seq<Comment>)
    ensures SortedByCreatedAt(r)
    ensures multiset(r) == multiset(cs)
  {
    if cs == [] then []
    else
      var rest := SortByCreatedAt(cs[1..]);
      InsertKeepsSorted(cs[0], rest);
      InsertIsPermutation(cs[0], rest);
      assert cs == [cs[0]] + cs[1..];
      InsertByCreatedAt(cs[0], rest)
  }

  /** The elements created at time t, in order. */
  function CreatedAt(cs: seq<Comment>, t: int): seq<Comment> {
    if cs == [] then [] else (if cs[0].createdAt == t then [cs[0]] else []) + CreatedAt(cs[1..], t)
  }

  lemma {:induction false} InsertKeepsTies(x: Comment, ys: seq<Comment>, t: int)
    ensures CreatedAt(InsertByCreatedAt(x, ys), t) == (if x.createdAt == t then [x] else []) + CreatedAt(ys, t)
    decreases |ys|
  {
    var r := InsertByCreatedAt(x, ys);
    if ys == [] || x.createdAt <= ys[0].createdAt {
      assert r[0] == x && r[1..] == ys;
    } else {
      var rest := InsertByCreatedAt(x, ys[1..]);
      InsertKeepsTies(x, ys[1..], t);
      assert r[0] == ys[0] && r[1..] == rest;
      var tail := CreatedAt(ys[1..], t);
      assert CreatedAt(ys, t) == (if ys[0].createdAt == t then [ys[0]] else []) + tail;
      if x.createdAt == t {
        assert CreatedAt(r, t) == CreatedAt(rest, t);
      } else {
        assert CreatedAt(rest, t) == tail;
      }
    }
  }

  /** The sort is stable: comments created at the same instant keep their relative order. */
  lemma {:induction false} SortIsStable(cs: seq<Comment>, t: int)
    ensures CreatedAt(SortByCreatedAt(cs), t) == CreatedAt(cs, t)
    decreases |cs|
  {
    if cs != [] {
      SortIsStable(cs[1..], t);
      InsertKeepsTies(cs[0], SortByCreatedAt(cs[1..]), t);
      assert CreatedAt(cs, t) == (if cs[0].createdAt == t then [cs[0]] else []) + CreatedAt(cs[1..], t);
    }
  }

  /** Input already in creation order comes out unchanged. */
  lemma {:induction false} SortKeepsSorted(cs: seq<Comment>)
    requires SortedByCreatedAt(cs)
    ensures SortByCreatedAt(cs) == cs
    decreases |cs|
  {
    if cs != [] {
      assert SortedByCreatedAt(cs[1..]);
      SortKeepsSorted(cs[1..]);
      assert cs == [cs[0]] + cs[1..];
    }
  }

  /** The slice arguments of a listing: `{limit: 10, offset: 0}` when the options are
      left out; when given, a missing offset reads as 0 and a missing limit or offset
      makes the end `NaN`, which reads as 0. */
  function PageBounds(options: Option<PageOptions>): (b: (int, int))
    ensures options.None? ==> b == (0, 10)
    ensures options.Some? && options.value.limit.Some? && options.value.offset.Some? ==>
      b == (options.value.offset.value, options.value.offset.value + options.value.limit.value)
    ensures options.Some? && options.value.offset.None? ==> b == (0, 0)
    ensures options.Some? && options.value.limit.None? && options.value.offset.Some? ==>
      b == (options.value.offset.value, 0)
  {
    match options
    case None => (0, 10)
    case Some(PageOptions(Some(limit), Some(offset))) => (offset, offset + limit)
    case Some(PageOptions(_, Some(offset))) => (offset, 0)
    case Some(PageOptions(_, None)) => (0, 0)
  }

  /** The live comments of a task, in the order the listing sorts them into. */
  function SortedLive(order: seq<int>, comments: map<int, Comment>, taskId: int): seq<Comment> {
    SortByCreatedAt(LiveForTask(InsertionOrder(order, comments), taskId))
  }

  /** `getComments(taskId, options)` over the store's contents. */
  function ListComments(order: seq<int>, comments: map<int, Comment>, taskId: int, options: Option<PageOptions>)
    : (r: seq<Comment>)
    ensures forall c :: c in r ==> c in comments.Values && c.taskId == taskId && !c.isDeleted
    ensures SortedByCreatedAt(r)
    ensures options == None ==> |r| <= 10
    ensures options.Some? && options.value.limit.Some? && options.value.offset.Some? && options.value.limit.value >= 0
      ==> |r| <= options.value.limit.value
    ensures options.Some? && (options.value.limit.None? || options.value.offset.None?) ==> r == []
  {
    var sorted := SortedLive(order, comments, taskId);
    var (start, end) := PageBounds(options);
    SortedLiveAreLive(order, comments, taskId);
    SliceKeepsOrder(sorted, start, end);
    Slice(sorted, start, end)
  }

  /** The sorted live comments are stored, live comments of the task, in creation order. */
  lemma SortedLiveAreLive(order: seq<int>, comments: map<int, Comment>, taskId: int)
    ensures forall c :: c in SortedLive(order, comments, taskId) ==>
      c in comments.Values && c.taskId == taskId && !c.isDeleted
    ensures SortedByCreatedAt(SortedLive(order, comments, taskId))
  {
    var live := LiveForTask(InsertionOrder(order, comments), taskId);
    var sorted := SortByCreatedAt(live);
    forall c | c in sorted ensures c in live {
      assert c in multiset(sorted);
    }
  }

  lemma SliceKeepsOrder(s: seq<Comment>, start: int, end: int)
    requires SortedByCreatedAt(s)
    ensures SortedByCreatedAt(Slice(s, start, end))
  {
    var from := SliceIndex(start, |s|);
    var to := SliceIndex(end, |s|);
    if from < to {
      assert Slice(s, start, end) == s[from..to];
      forall i, j | 0 <= i < j < to - from ensures s[from..to][i].createdAt <= s[from..to][j].createdAt {
        assert s[from..to][i] == s[from + i] && s[from..to][j] == s[from + j];
      }
    }
  }

  /** With a non-negative offset and limit, the listing is the window
      [offset, offset + limit) of the sorted live comments, cut at their end. */
  lemma ListingIsWindow(order: seq<int>, comments: map<int, Comment>, taskId: int, limit: int, offset: int)
    requires 0 <= limit && 0 <= offset
    ensures var s := SortedLive(order, comments, taskId);
      ListComments(order, comments, taskId, Some(PageOptions(Some(limit), Some(offset))))
        == s[Min(offset, |s|)..Min(offset + limit, |s|)]
  {
  }

  /** Without options, the listing is the first ten of the sorted live comments. */
  lemma DefaultListingIsFirstTen(order: seq<int>, comments: map<int, Comment>, taskId: int)
    ensures var s := SortedLive(order, comments, taskId);
      ListComments(order, comments, taskId, None) == s[..Min(10, |s|)]
  {
  }

  /** The paging example: over five live comments, `{limit: 2, offset: 1}` answers the
      comments at sorted positions 1 and 2. */
  lemma PagingExample(order: seq<int>, comments: map<int, Comment>, taskId: int)
    requires |SortedLive(order, comments, taskId)| == 5
    ensures var s := SortedLive(order, comments, taskId);
      ListComments(order, comments, taskId, Some(PageOptions(Some(2), Some(1)))) == [s[1], s[2]]
  {
    ListingIsWindow(order, comments, taskId, 2, 1);
  }

  /** A stored comment is among the sorted live comments of a task exactly when it
      belongs to that task and is not deleted (given that `order` lists every key). */
  lemma ListedIffLive(order: seq<int>, comments: map<int, Comment>, taskId: int, k: int)
    requires forall key :: key in comments ==> key in order
    requires k in comments
    ensures comments[k] in SortedLive(order, comments, taskId) <==> comments[k].taskId == taskId && !comments[k].isDeleted
  {
    var all := InsertionOrder(order, comments);
    var live := LiveForTask(all, taskId);
    var sorted := SortByCreatedAt(live);
    assert comments[k] in sorted <==> comments[k] in live by {
      assert comments[k] in sorted <==> comments[k] in multiset(sorted);
      assert comments[k] in live <==> comments[k] in multiset(live);
    }
    var i :| 0 <= i < |order| && order[i] == k;
    assert comments[k] in all;
  }

  // ---------------------------------------------------------------------------
  // The store's invariant, over the values of its fields.

  /** `order` lists every key of the map exactly once, in ascending order (ids are drawn
      from an increasing counter, so insertion order is id order). */
  ghost predicate OrderTracksKeys(order: seq<int>, comments: map<int, Comment>) {
    && (forall i :: 0 <= i < |order| ==> order[i] in comments)
    && (forall k :: k in comments ==> k in order)
    && (forall i, j :: 0 <= i < j < |order| ==> order[i] < order[j])
  }

  /** Every id in use was drawn from the counter, below its current value, and given to
      exactly one comment, attachment or reaction; reactions belong to stored comments. */
  ghost predicate IdsAccounted(comments: map<int, Comment>, reactions: map<int, seq<Reaction>>, nextId: int,
                               owner: map<int, IdHolder>) {
    && nextId >= 1
    && (forall id :: id in owner ==> 1 <= id < nextId)
    && (forall k :: k in comments ==> comments[k].id == k && k in owner && owner[k] == CommentHolder(k))
    && (forall k, n :: k in comments && 0 <= n < |comments[k].attachments| ==>
          comments[k].attachments[n].id == k + 1 + n
          && comments[k].attachments[n].id in owner && owner[comments[k].attachments[n].id] == AttachmentHolder(k, n))
    && (forall k :: k in reactions ==> k in comments)
    && (forall k, n :: k in reactions && 0 <= n < |reactions[k]| ==>
          reactions[k][n].id in owner && owner[reactions[k][n].id] == ReactionHolder(k, n))
  }

  /** Every comment was created no earlier than the one inserted before it. */
  ghost predicate InCreationOrder(order: seq<int>, comments: map<int, Comment>) {
    forall i, j :: 0 <= i < j < |order| && order[i] in comments && order[j] in comments ==>
      comments[order[i]].createdAt <= comments[order[j]].createdAt
  }

  /** No stored comment was created after `now`. */
  ghost predicate NotAfter(comments: map<int, Comment>, now: int) {
    forall k :: k in comments ==> comments[k].createdAt <= now
  }

  /** The ids drawn for the attachments of comment `id`, in URL order. */
  ghost function AttachmentOwners(id: int, count: nat): (m: map<int, IdHolder>)
    ensures forall x :: x in m <==> id + 1 <= x < id + 1 + count
    ensures forall x :: x in m ==> m[x] == AttachmentHolder(id, x - id - 1)
  {
    if count == 0 then map[] else AttachmentOwners(id, count - 1)[id + count := AttachmentHolder(id, count - 1)]
  }

  /** Replacing a comment by one with the same id and attachments keeps every id accounted for. */
  lemma EditKeepsIds(comments: map<int, Comment>, reactions: map<int, seq<Reaction>>, nextId: int,
                     owner: map<int, IdHolder>, k: int, c: Comment)
    requires IdsAccounted(comments, reactions, nextId, owner) && k in comments
    requires c.id == k && c.attachments == comments[k].attachments
    ensures IdsAccounted(comments[k := c], reactions, nextId, owner)
  {
  }

  /** Replacing a comment by one created at the same time keeps the creation order. */
  lemma EditKeepsCreationOrder(order: seq<int>, comments: map<int, Comment>, k: int, c: Comment)
    requires k in comments && c.createdAt == comments[k].createdAt
    ensures InCreationOrder(order, comments[k := c]) == InCreationOrder(order, comments)
  {
  }

  /** Appending a reaction that takes the counter's id keeps every id accounted for. */
  lemma ReactKeepsIds(comments: map<int, Comment>, reactions: map<int, seq<Reaction>>, nextId: int,
                      owner: map<int, IdHolder>, k: int, r: Reaction)
    requires IdsAccounted(comments, reactions, nextId, owner) && k in comments && r.id == nextId
    ensures IdsAccounted(comments, reactions[k := ReactionsOf(reactions, k) + [r]], nextId + 1,
                         owner[nextId := ReactionHolder(k, |ReactionsOf(reactions, k)|)])
  {
    var list: seq<Reaction> := ReactionsOf(reactions, k) + [r];
    var grown: map<int, seq<Reaction>> := reactions[k := list];
    var owner2: map<int, IdHolder> := owner[nextId := ReactionHolder(k, |ReactionsOf(reactions, k)|)];
    forall j: int, n: int | j in grown && 0 <= n < |grown[j]|
      ensures grown[j][n].id in owner2 && owner2[grown[j][n].id] == ReactionHolder(j, n)
    {
      if j != k || n < |ReactionsOf(reactions, k)| {
        assert grown[j][n] == reactions[j][n];
        assert reactions[j][n].id in owner;
      }
    }
  }

  /** Storing a new comment under the counter's id, its attachments under the ids after
      it, keeps every id accounted for. */
  lemma CreateKeepsIds(comments: map<int, Comment>, reactions: map<int, seq<Reaction>>, id: int,
                       owner: map<int, IdHolder>, c: Comment, nextId: int, owner': map<int, IdHolder>)
    requires IdsAccounted(comments, reactions, id, owner)
    requires c.id == id
    requires forall n :: 0 <= n < |c.attachments| ==> c.attachments[n].id == id + 1 + n
    requires nextId == id + 1 + |c.attachments|
    requires owner' == owner[id := CommentHolder(id)] + AttachmentOwners(id, |c.attachments|)
    ensures forall k :: k in comments ==> k < id
    ensures IdsAccounted(comments[id := c], reactions, nextId, owner')
  {
    var comments' := comments[id := c];
    var drawn := AttachmentOwners(id, |c.attachments|);
    assert id !in owner;
    forall x | x in owner ensures x in owner' && owner'[x] == owner[x] {
      assert x !in drawn && x != id;
    }
    forall x | x in owner' ensures 1 <= x < id + 1 + |c.attachments| {
      if x !in drawn && x != id {
        assert x in owner;
      }
    }
    forall k | k in comments' ensures comments'[k].id == k && k in owner' && owner'[k] == CommentHolder(k) {
      if k != id {
        assert k in owner;
      }
    }
    forall k, n | k in comments' && 0 <= n < |comments'[k].attachments|
      ensures comments'[k].attachments[n].id == k + 1 + n
        && comments'[k].attachments[n].id in owner' && owner'[comments'[k].attachments[n].id] == AttachmentHolder(k, n)
    {
      if k != id {
        assert comments'[k].attachments[n] == comments[k].attachments[n];
        assert comments[k].attachments[n].id in owner;
      } else {
        assert c.attachments[n].id in drawn;
      }
    }
  }

  /** Appending a comment with a fresh id keeps the key order. */
  lemma CreateKeepsOrder(order: seq<int>, comments: map<int, Comment>, c: Comment)
    requires OrderTracksKeys(order, comments)
    requires forall k :: k in comments ==> k < c.id
    ensures OrderTracksKeys(order + [c.id], comments[c.id := c])
  {
    assert forall i :: 0 <= i < |order| ==> order[i] < c.id;
  }

  /** A comment created at `now`, after every stored one, keeps the creation order. */
  lemma CreateKeepsCreationOrder(order: seq<int>, comments: map<int, Comment>, c: Comment, now: int)
    requires OrderTracksKeys(order, comments) && c.id !in comments && c.createdAt == now
    ensures InCreationOrder(order, comments) && NotAfter(comments, now) ==>
      InCreationOrder(order + [c.id], comments[c.id := c]) && NotAfter(comments[c.id := c], now)
  {
    if !(InCreationOrder(order, comments) && NotAfter(comments, now)) {
      return;
    }
    var order' := order + [c.id];
    var comments' := comments[c.id := c];
    forall i, j | 0 <= i < j < |order'| && order'[i] in comments' && order'[j] in comments'
      ensures comments'[order'[i]].createdAt <= comments'[order'[j]].createdAt
    {
      assert order'[i] == order[i] && order[i] in comments;
      if j < |order| {
        assert order'[j] == order[j];
      }
    }
  }

  /** `a` was created no later than `b` and has the smaller id. */
  predicate Precedes(a: Comment, b: Comment) {
    a.createdAt <= b.createdAt && a.id < b.id
  }

  predicate AscendingByCreation(cs: seq<Comment>) {
    forall i, j :: 0 <= i < j < |cs| ==> Precedes(cs[i], cs[j])
  }

  lemma AscendingCons(x: Comment, ys: seq<Comment>)
    requires AscendingByCreation(ys)
    requires forall j :: 0 <= j < |ys| ==> Precedes(x, ys[j])
    ensures AscendingByCreation([x] + ys)
  {
    var r := [x] + ys;
    forall i, j | 0 <= i < j < |r| ensures Precedes(r[i], r[j]) {
      assert r[j] == ys[j - 1];
      if i > 0 {
        assert r[i] == ys[i - 1];
      }
    }
  }

  /** Read in key order, a store kept in creation order is ascending in time and in id. */
  lemma InsertionOrderAscending(order: seq<int>, comments: map<int, Comment>)
    requires OrderTracksKeys(order, comments) && InCreationOrder(order, comments)
    requires forall k :: k in comments ==> comments[k].id == k
    ensures AscendingByCreation(InsertionOrder(order, comments))
  {
  }

  /** Filtering keeps the relative order of what it keeps. */
  lemma {:induction false} LiveKeepsOrder(cs: seq<Comment>, taskId: int)
    requires AscendingByCreation(cs)
    ensures AscendingByCreation(LiveForTask(cs, taskId))
    decreases |cs|
  {
    if cs != [] {
      var tail := cs[1..];
      var rest := LiveForTask(tail, taskId);
      assert AscendingByCreation(tail) by {
        forall i, j | 0 <= i < j < |tail| ensures Precedes(tail[i], tail[j]) {
          assert tail[i] == cs[i + 1] && tail[j] == cs[j + 1];
        }
      }
      LiveKeepsOrder(tail, taskId);
      if cs[0].taskId == taskId && !cs[0].isDeleted {
        forall j | 0 <= j < |rest| ensures Precedes(cs[0], rest[j]) {
          assert rest[j] in tail;
          var k :| 0 <= k < |tail| && tail[k] == rest[j];
          assert cs[k + 1] == rest[j];
        }
        AscendingCons(cs[0], rest);
      }
    }
  }

  // ---------------------------------------------------------------------------
  // The store.

  class InMemoryCommentStore {
    var comments: map<int, Comment>
    /** The keys of `comments` in insertion order, as the Map iterates them. */
    var order: seq<int>
    var reactions: map<int, seq<Reaction>>
    var nextId: int
    /** What each id drawn so far was given to. */
    ghost var owner: map<int, IdHolder>

    ghost predicate Valid()
      reads this
    {
      OrderTracksKeys(order, comments) && IdsAccounted(comments, reactions, nextId, owner)
    }

    /** Every comment was created no earlier than the one inserted before it. */
    ghost predicate CreatedInOrder()
      reads this
    {
      InCreationOrder(order, comments)
    }

    constructor ()
      ensures Valid() && CreatedInOrder()
      ensures comments == map[] && order == [] && reactions == map[] && nextId == 1
    {
      comments := map[];
      order := [];
      reactions := map[];
      nextId := 1;
      owner := map[];
    }

    /** `createComment` at clock reading `now`: the comment takes the next id, its
        attachments the ids after it in URL order, and it is stored under its id. */
    method CreateComment(taskId: int, userId: int, content: string, attachmentUrls: Option<seq<string>>, now: int)
      returns (c: Comment)
      requires Valid()
      modifies this
      ensures Valid()
      ensures c.id == old(nextId) && c.id !in old(comments)
      ensures c.taskId == taskId && c.userId == userId && c.content == content && c.attachmentUrls == attachmentUrls
      ensures c.mentions == Mentions.ScanMentions(content)
      ensures |c.attachments| == |UrlsOrEmpty(attachmentUrls)|
      ensures forall n :: 0 <= n < |c.attachments| ==>
        c.attachments[n] == Attachment(c.id + 1 + n, UrlsOrEmpty(attachmentUrls)[n])
      ensures c.createdAt == now && c.updatedAt == now && c.editedAt == None && !c.isDeleted
      ensures comments == old(comments)[c.id := c] && order == old(order) + [c.id]
      ensures reactions == old(reactions)
      ensures nextId == old(nextId) + 1 + |UrlsOrEmpty(attachmentUrls)|
    {
      var id := nextId;
      nextId := nextId + 1;
      var urls := UrlsOrEmpty(attachmentUrls);
      var attachments := NumberAttachments(urls);
      c := Comment(id, taskId, userId, content, attachmentUrls, Mentions.ScanMentions(content), attachments,
                   now, now, None, false);
      StoreNew(c);
    }

    /** `this.comments.set(comment.id, comment)` for a comment whose id and attachment ids
        were just drawn: the map gains the key at the end of its order. */
    method StoreNew(c: Comment)
      requires OrderTracksKeys(order, comments) && IdsAccounted(comments, reactions, c.id, owner)
      requires nextId == c.id + 1 + |c.attachments|
      requires forall n :: 0 <= n < |c.attachments| ==> c.attachments[n].id == c.id + 1 + n
      modifies this
      ensures Valid()
      ensures c.id !in old(comments)
      ensures comments == old(comments)[c.id := c] && order == old(order) + [c.id]
      ensures reactions == old(reactions) && nextId == old(nextId)
    {
      CreateKeepsIds(comments, reactions, c.id, owner, c, nextId,
                     owner[c.id := CommentHolder(c.id)] + AttachmentOwners(c.id, |c.attachments|));
      CreateKeepsOrder(order, comments, c);
      owner := owner[c.id := CommentHolder(c.id)] + AttachmentOwners(c.id, |c.attachments|);
      comments := comments[c.id := c];
      order := order + [c.id];
    }

    /** `attachmentUrls.map(url => ({id: this.nextId++, url}))`: each URL in turn takes
        the next id. */
    method NumberAttachments(urls: seq<string>) returns (attachments: seq<Attachment>)
      modifies this
      ensures nextId == old(nextId) + |urls|
      ensures |attachments| == |urls|
      ensures forall n :: 0 <= n < |urls| ==> attachments[n] == Attachment(old(nextId) + n, urls[n])
      ensures comments == old(comments) && order == old(order) && reactions == old(reactions) && owner == old(owner)
    {
      attachments := [];
      var i := 0;
      while i < |urls|
        invariant 0 <= i <= |urls|
        invariant comments == old(comments) && order == old(order) && reactions == old(reactions) && owner == old(owner)
        invariant nextId == old(nextId) + i
        invariant |attachments| == i
        invariant forall n :: 0 <= n < i ==> attachments[n] == Attachment(old(nextId) + n, urls[n])
      {
        attachments := attachments + [Attachment(nextId, urls[i])];
        nextId := nextId + 1;
        i := i + 1;
      }
    }

    /** `getComments(taskId, options)`; None stands for the options left out. */
    function GetComments(taskId: int, options: Option<PageOptions>): (r: seq<Comment>)
      reads this
      ensures forall c :: c in r ==> c in comments.Values && c.taskId == taskId && !c.isDeleted
      ensures SortedByCreatedAt(r)
      ensures options == None ==> |r| <= 10
    {
      ListComments(order, comments, taskId, options)
    }

    /** Stored in creation order, the listing is a window of the live comments of the
        task in insertion order, which is ascending id order: sorting moves nothing. */
    lemma ListingInIdOrder(taskId: int, options: Option<PageOptions>)
      requires Valid() && CreatedInOrder()
      ensures var live := LiveForTask(InsertionOrder(order, comments), taskId);
        && SortedLive(order, comments, taskId) == live
        && (forall i, j :: 0 <= i < j < |live| ==> live[i].id < live[j].id)
        && GetComments(taskId, options) == Slice(live, PageBounds(options).0, PageBounds(options).1)
    {
      var live := LiveForTask(InsertionOrder(order, comments), taskId);
      InsertionOrderAscending(order, comments);
      LiveKeepsOrder(InsertionOrder(order, comments), taskId);
      SortKeepsSorted(live);
    }

    /** `updateComment`: only the author may edit, and both a missing id and another
        user get the same error, with the store unchanged. An edit replaces the content
        and sets `editedAt`; mentions, attachments, the deleted flag, `updatedAt` and all
        other comments stay as they were. */
    method UpdateComment(commentId: int, userId: int, content: string, now: int) returns (r: Result<Comment, StoreError>)
      requires Valid()
      modifies this
      ensures Valid()
      ensures r.Err? <==> commentId !in old(comments) || old(comments)[commentId].userId != userId
      ensures r.Err? ==> r.error == NotFoundOrForbidden && comments == old(comments)
      ensures r.Ok? ==>
        && r.value == old(comments)[commentId].(content := content, editedAt := Some(now))
        && comments == old(comments)[commentId := r.value]
      ensures order == old(order) && reactions == old(reactions) && nextId == old(nextId)
      ensures CreatedInOrder() == old(CreatedInOrder())
    {
      if commentId !in comments || comments[commentId].userId != userId {
        return Err(NotFoundOrForbidden);
      }
      var comment := comments[commentId];
      comment := comment.(content := content);
      comment := comment.(editedAt := Some(now));
      EditKeepsIds(comments, reactions, nextId, owner, commentId, comment);
      EditKeepsCreationOrder(order, comments, commentId, comment);
      comments := comments[commentId := comment];
      r := Ok(comment);
    }

    /** `deleteComment`: the same ownership check and error as an edit; on success the
        record stays in the map with `isDeleted` set, and nothing else changes. */
    method DeleteComment(commentId: int, userId: int) returns (r: Result<(), StoreError>)
      requires Valid()
      modifies this
      ensures Valid()
      ensures r.Err? <==> commentId !in old(comments) || old(comments)[commentId].userId != userId
      ensures r.Err? ==> r.error == NotFoundOrForbidden && comments == old(comments)
      ensures r.Ok? ==> comments == old(comments)[commentId := old(comments)[commentId].(isDeleted := true)]
      ensures order == old(order) && reactions == old(reactions) && nextId == old(nextId)
      ensures CreatedInOrder() == old(CreatedInOrder())
    {
      if commentId !in comments || comments[commentId].userId != userId {
        return Err(NotFoundOrForbidden);
      }
      var comment := comments[commentId];
      comment := comment.(isDeleted := true);
      EditKeepsIds(comments, reactions, nextId, owner, commentId, comment);
      EditKeepsCreationOrder(order, comments, commentId, comment);
      comments := comments[commentId := comment];
      r := Ok(());
    }

    /** `addReaction`: fails exactly for an id never created (a deleted comment still takes
        reactions); otherwise one reaction with the next id is appended to that comment's
        list, without de-duplication. */
    method AddReaction(commentId: int, userId: int, emoji: string) returns (r: Result<Reaction, StoreError>)
      requires Valid()
      modifies this
      ensures Valid()
      ensures r.Err? <==> commentId !in old(comments)
      ensures r.Err? ==> r.error == NotFound && reactions == old(reactions) && nextId == old(nextId)
      ensures r.Ok? ==>
        && r.value == Reaction(old(nextId), userId, emoji)
        && nextId == old(nextId) + 1
        && reactions == old(reactions)[commentId := ReactionsOf(old(reactions), commentId) + [r.value]]
      ensures comments == old(comments) && order == old(order)
    {
      if commentId !in comments {
        return Err(NotFound);
      }
      var reaction := Reaction(nextId, userId, emoji);
      ReactKeepsIds(comments, reactions, nextId, owner, commentId, reaction);
      owner := owner[nextId := ReactionHolder(commentId, |ReactionsOf(reactions, commentId)|)];
      nextId := nextId + 1;
      var list := ReactionsOf(reactions, commentId);
      list := list + [reaction];
      reactions := reactions[commentId := list];
      r := Ok(reaction);
    }
  }

  /** Ids are never shared: no two comments, attachments or reactions of a valid store
      carry the same id. */
  lemma IdsDistinct(comments: map<int, Comment>, reactions: map<int, seq<Reaction>>, nextId: int,
                    owner: map<int, IdHolder>)
    requires IdsAccounted(comments, reactions, nextId, owner)
    ensures forall k1, n1, k2, n2 ::
      (k1 in comments && 0 <= n1 < |comments[k1].attachments| &&
       k2 in comments && 0 <= n2 < |comments[k2].attachments| &&
       comments[k1].attachments[n1].id == comments[k2].attachments[n2].id) ==> k1 == k2 && n1 == n2
    ensures forall k1, k2, n2 ::
      k1 in comments && k2 in comments && 0 <= n2 < |comments[k2].attachments| ==>
      comments[k1].id != comments[k2].attachments[n2].id
    ensures forall k1, k2, n2 ::
      k1 in comments && k2 in reactions && 0 <= n2 < |reactions[k2]| ==>
      comments[k1].id != reactions[k2][n2].id
    ensures forall k1, n1, k2, n2 ::
      k1 in comments && 0 <= n1 < |comments[k1].attachments| &&
      k2 in reactions && 0 <= n2 < |reactions[k2]| ==>
      comments[k1].attachments[n1].id != reactions[k2][n2].id
    ensures forall k1, n1, k2, n2 ::
      (k1 in reactions && 0 <= n1 < |reactions[k1]| &&
       k2 in reactions && 0 <= n2 < |reactions[k2]| &&
       reactions[k1][n1].id == reactions[k2][n2].id) ==> k1 == k2 && n1 == n2
  {
  }

  /** The soft-delete story of the comment tests, followed through the store's contracts:
      another user cannot delete; the author can; the comment then leaves the listing
      but stays stored, can still be edited by its author and still takes reactions. */
  method SoftDeleteScenario()
    returns (c: Comment, denied: Result<(), StoreError>, listed: seq<Comment>, edited: Result<Comment, StoreError>)
    ensures c.content == "To delete" && c.taskId == 1 && c.userId == 1 && !c.isDeleted
    ensures denied == Err(NotFoundOrForbidden)
    ensures forall x :: x in listed ==> x.id != c.id
    ensures edited == Ok(c.(content := "Updated", editedAt := Some(2000), isDeleted := true))
  {
    var store := new InMemoryCommentStore();
    c := store.CreateComment(1, 1, "To delete", None, 1000);
    denied := store.DeleteComment(c.id, 2);
    assert !store.comments[c.id].isDeleted;
    var done := store.DeleteComment(c.id, 1);
    assert done.Ok? && store.comments[c.id].isDeleted;
    listed := store.GetComments(1, None);
    edited := store.UpdateComment(c.id, 1, "Updated", 2000);
    var liked := store.AddReaction(c.id, 2, "+1");
    assert liked.Ok? && liked.value.emoji == "+1";
    var missing := store.AddReaction(c.id + 100, 2, "+1");
    assert missing == Err(NotFound);
  }
}
