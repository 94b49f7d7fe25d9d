/**
 * The comment section under a post, in its two variants: the fetched flat
 * list of comments is built into a thread (the root comments plus, for every
 * fetched comment, the ids of its replies), and adding a comment or a reply
 * inserts a row, bumps the post's `comments_count` and, in the enhanced
 * variant, notifies the post owner or the parent's author.
 *
 * The thread is kept as parent-id adjacency, so deep nesting, cycles and
 * orphans are all expressible.
 */
module Comments {
  import opened Wrappers
  import opened Rows
  import opened Text
  import opened StableSort
  import opened Buckets

  datatype Comment = Comment(id: Id, postId: Id, userId: Id, content: string, parentId: Option<Id>, createdAt: int)

  function CommentTime(c: Comment): int { c.createdAt }

  /** `if (comment.parent_id)`: a null or empty parent id makes a root comment. */
  predicate IsRoot(c: Comment) {
    c.parentId.None? || c.parentId.value == []
  }

  /** `c` names `p` as its parent. */
  predicate ReplyTo(c: Comment, p: Id) {
    !IsRoot(c) && c.parentId.value == p
  }

  function Ids(cs: seq<Comment>): (r: seq<Id>)
    ensures |r| == |cs| && forall i :: 0 <= i < |cs| ==> r[i] == cs[i].id
  {
    seq(|cs|, i requires 0 <= i < |cs| => cs[i].id)
  }

  /** The ids of the fetched comments: the keys of `commentsMap`. */
  function IdSet(cs: seq<Comment>): set<Id> {
    set c | c in cs :: c.id
  }

  /** The root list: the root comments' ids, in fetched order. */
  function RootIds(cs: seq<Comment>): seq<Id> {
    Ids(Filter(cs, IsRoot))
  }

  /** The replies of `p`: the ids of the comments naming `p` as parent, in fetched order. */
  function ChildIds(cs: seq<Comment>, p: Id): seq<Id> {
    Ids(Filter(cs, (c: Comment) => ReplyTo(c, p)))
  }

  /** The comments query: this post's comments by `created_at` ascending. */
  function CommentsQuery(table: seq<Comment>, postId: Id): (r: seq<Comment>)
    ensures forall c :: c in r ==> c in table && c.postId == postId
    ensures forall c :: c in table && c.postId == postId ==> c in r
    ensures SortedBy(r, CommentTime)
  {
    var rows := Filter(table, (c: Comment) => c.postId == postId);
    SortBySorted(rows, CommentTime);
    SortByMembers(rows, CommentTime);
    SortBy(rows, CommentTime)
  }

  lemma IdsSnoc(cs: seq<Comment>, c: Comment)
    ensures Ids(cs + [c]) == Ids(cs) + [c.id]
  {
  }

  lemma IdSetSnoc(cs: seq<Comment>, c: Comment)
    ensures IdSet(cs + [c]) == IdSet(cs) + {c.id}
  {
    assert c in cs + [c];
    assert forall d :: d in cs + [c] <==> d in cs || d == c;
  }

  /** One more fetched comment extends the root list exactly when it has no parent. */
  lemma RootsSnoc(cs: seq<Comment>, c: Comment)
    ensures RootIds(cs + [c]) == RootIds(cs) + (if IsRoot(c) then [c.id] else [])
  {
    FilterSnoc(cs, c, IsRoot);
    IdsSnoc(Filter(cs, IsRoot), c);
  }

  /** One more fetched comment extends the root list or exactly the reply list of its parent. */
  lemma ThreadSnoc(cs: seq<Comment>, c: Comment)
    ensures RootIds(cs + [c]) == RootIds(cs) + (if IsRoot(c) then [c.id] else [])
    ensures forall p :: ChildIds(cs + [c], p) == ChildIds(cs, p) + (if ReplyTo(c, p) then [c.id] else [])
  {
    RootsSnoc(cs, c);
    forall p
      ensures ChildIds(cs + [c], p) == ChildIds(cs, p) + (if ReplyTo(c, p) then [c.id] else [])
    {
      FilterSnoc(cs, c, (d: Comment) => ReplyTo(d, p));
      IdsSnoc(Filter(cs, (d: Comment) => ReplyTo(d, p)), c);
    }
  }

  /**
   * The two `forEach` passes of `fetchComments`: first an empty reply list
   * for every fetched id, then every comment either pushed onto the root
   * list or onto its parent's replies, or dropped when its parent was not
   * fetched.
   */
  method BuildThread(data: seq<Comment>) returns (roots: seq<Id>, replies: map<Id, seq<Id>>)
    ensures roots == RootIds(data)
    ensures replies.Keys == IdSet(data)
    ensures forall p :: p in replies ==> replies[p] == ChildIds(data, p)
  {
    replies := EmptyReplyLists(data);
    ghost var empties := replies;
    roots := [];
    var j := 0;
    while j < |data|
      invariant 0 <= j <= |data|
      invariant Thread(roots, replies) == Place(data[..j], empties)
    {
      var c := data[j];
      TakeOneMore(data, j);
      PlaceSnoc(data[..j], c, empties);
      if !IsRoot(c) {
        var parent := c.parentId.value;
        if parent in replies {
          replies := replies[parent := replies[parent] + [c.id]];
        }
      } else {
        roots := roots + [c.id];
      }
      j := j + 1;
    }
    assert data[..j] == data;
    PlaceMeetsSpec(data, empties);
  }

  /** The root list and the reply lists while the second `forEach` runs. */
  datatype Thread = Thread(roots: seq<Id>, replies: map<Id, seq<Id>>)

  /** One step of the second `forEach`: a root joins the roots, a reply joins its fetched parent's list, any other comment is dropped. */
  function PlaceOne(t: Thread, c: Comment): Thread {
    if IsRoot(c) then Thread(t.roots + [c.id], t.replies)
    else if c.parentId.value in t.replies then
      Thread(t.roots, t.replies[c.parentId.value := t.replies[c.parentId.value] + [c.id]])
    else t
  }

  /** The second `forEach` over `cs`, starting from the reply lists `init` and no roots. */
  function Place(cs: seq<Comment>, init: map<Id, seq<Id>>): Thread {
    if cs == [] then Thread([], init)
    else PlaceOne(Place(cs[..|cs| - 1], init), cs[|cs| - 1])
  }

  /** Placing one more comment is one more step. */
  lemma PlaceSnoc(cs: seq<Comment>, c: Comment, init: map<Id, seq<Id>>)
    ensures Place(cs + [c], init) == PlaceOne(Place(cs, init), c)
  {
    assert (cs + [c])[..|cs + [c]| - 1] == cs;
  }

  /** Placing the comments on empty reply lists gives the root list and, for every listed id, exactly its replies. */
  lemma {:induction false} PlaceMeetsSpec(cs: seq<Comment>, init: map<Id, seq<Id>>)
    requires forall p :: p in init ==> init[p] == []
    ensures Place(cs, init).roots == RootIds(cs)
    ensures Place(cs, init).replies.Keys == init.Keys
    ensures forall p :: p in Place(cs, init).replies ==> Place(cs, init).replies[p] == ChildIds(cs, p)
  {
    if cs == [] {
      NothingAttachedYet(cs, init);
      assert cs[..0] == cs;
    } else {
      var front := cs[..|cs| - 1];
      var c := cs[|cs| - 1];
      assert cs == front + [c];
      PlaceMeetsSpec(front, init);
      var before := Place(front, init);
      RootsSnoc(front, c);
      if !IsRoot(c) && c.parentId.value in before.replies {
        AttachKeepsChildren(front, c, c.parentId.value, before.replies);
      } else {
        SkipKeepsChildren(front, c, before.replies);
      }
    }
  }

  /** The first `forEach` of `fetchComments`: an empty reply list for every fetched id. */
  method EmptyReplyLists(data: seq<Comment>) returns (replies: map<Id, seq<Id>>)
    ensures replies.Keys == IdSet(data)
    ensures forall p :: p in replies ==> replies[p] == []
  {
    replies := map[];
    var i := 0;
    while i < |data|
      invariant 0 <= i <= |data|
      invariant replies.Keys == IdSet(data[..i])
      invariant forall p :: p in replies ==> replies[p] == []
    {
      TakeOneMore(data, i);
      IdSetSnoc(data[..i], data[i]);
      replies := replies[data[i].id := []];
      i := i + 1;
    }
    assert data[..i] == data;
  }

  /** Before the second pass no comment has been placed: the root list and every reply list are empty. */
  lemma NothingAttachedYet(data: seq<Comment>, replies: map<Id, seq<Id>>)
    requires forall p :: p in replies ==> replies[p] == []
    ensures RootIds(data[..0]) == []
    ensures forall p :: p in replies ==> replies[p] == ChildIds(data[..0], p)
  {
    assert data[..0] == [];
  }

  /** Attaching one more comment to its fetched parent's list keeps every list equal to that parent's replies so far. */
  lemma AttachKeepsChildren(cs: seq<Comment>, c: Comment, parent: Id, replies: map<Id, seq<Id>>)
    requires forall p :: p in replies ==> replies[p] == ChildIds(cs, p)
    requires ReplyTo(c, parent) && parent in replies
    ensures replies[parent := replies[parent] + [c.id]].Keys == replies.Keys
    ensures forall p :: p in replies[parent := replies[parent] + [c.id]] ==>
      replies[parent := replies[parent] + [c.id]][p] == ChildIds(cs + [c], p)
  {
    ThreadSnoc(cs, c);
  }

  /** A root comment, or one whose parent was not fetched, is in no list, and none of the lists changes. */
  lemma SkipKeepsChildren(cs: seq<Comment>, c: Comment, replies: map<Id, seq<Id>>)
    requires forall p :: p in replies ==> replies[p] == ChildIds(cs, p)
    requires IsRoot(c) || c.parentId.value !in replies
    ensures forall p :: p in replies ==> replies[p] == ChildIds(cs + [c], p)
  {
    ThreadSnoc(cs, c);
  }

  /** Exactly the root comments are in the root list. */
  lemma RootsAreTheParentless(data: seq<Comment>, id: Id)
    ensures id in RootIds(data) <==> exists c :: c in data && IsRoot(c) && c.id == id
  {
    var rs := Filter(data, IsRoot);
    if id in RootIds(data) {
      var i :| 0 <= i < |rs| && Ids(rs)[i] == id;
      assert rs[i] in rs;
    }
    if c :| c in data && IsRoot(c) && c.id == id {
      var i :| 0 <= i < |rs| && rs[i] == c;
      assert Ids(rs)[i] == id;
    }
  }

  /** A reply is attached to its fetched parent wherever the parent sits in the list. */
  lemma ReplyFollowsParent(data: seq<Comment>, c: Comment)
    requires c in data && !IsRoot(c) && c.parentId.value in IdSet(data)
    ensures c.id in ChildIds(data, c.parentId.value)
  {
    var p := c.parentId.value;
    var rs := Filter(data, (d: Comment) => ReplyTo(d, p));
    assert c in rs;
    var i :| 0 <= i < |rs| && rs[i] == c;
    assert Ids(rs)[i] == c.id;
  }

  ghost predicate UniqueIds(data: seq<Comment>) {
    forall i, j :: 0 <= i < j < |data| ==> data[i].id != data[j].id
  }

  /** A comment whose parent was not fetched is neither a root nor anyone's reply. */
  lemma OrphanAppearsNowhere(data: seq<Comment>, c: Comment, p: Id)
    requires UniqueIds(data) && c in data && !IsRoot(c) && c.parentId.value !in IdSet(data)
    ensures c.id !in RootIds(data)
    ensures p in IdSet(data) ==> c.id !in ChildIds(data, p)
  {
    if c.id in RootIds(data) {
      RootsAreTheParentless(data, c.id);
      assert false;
    }
    var rs := Filter(data, (d: Comment) => ReplyTo(d, p));
    if p in IdSet(data) && c.id in ChildIds(data, p) {
      var i :| 0 <= i < |rs| && Ids(rs)[i] == c.id;
      assert rs[i] in rs;
      SameIdSameComment(data, c, rs[i]);
      assert false;
    }
  }

  lemma SameIdSameComment(data: seq<Comment>, c: Comment, d: Comment)
    requires UniqueIds(data) && c in data && d in data && c.id == d.id
    ensures c == d
  {
    var i :| 0 <= i < |data| && data[i] == c;
    var j :| 0 <= j < |data| && data[j] == d;
    assert i == j;
  }

  /** The comments that are replies to a fetched parent, and those whose parent is missing. */
  predicate Attached(c: Comment, ids: set<Id>) { !IsRoot(c) && c.parentId.value in ids }
  predicate Orphaned(c: Comment, ids: set<Id>) { !IsRoot(c) && c.parentId.value !in ids }

  /**
   * The count reported to the post is `data.length`: the roots, the
   * attached replies and the dropped orphans together.
   */
  lemma ReportedCountIncludesOrphans(data: seq<Comment>)
    ensures var ids := IdSet(data);
      |data| == |RootIds(data)| + |Filter(data, (c: Comment) => Attached(c, ids))| +
        |Filter(data, (c: Comment) => Orphaned(c, ids))|
  {
    var ids := IdSet(data);
    var nonRoot := (c: Comment) => !IsRoot(c);
    FilterComplement(data, IsRoot, nonRoot);
    FilterSplit(data, ids);
  }

  lemma {:induction false} FilterSplit(data: seq<Comment>, ids: set<Id>)
    ensures |Filter(data, (c: Comment) => !IsRoot(c))| ==
      |Filter(data, (c: Comment) => Attached(c, ids))| + |Filter(data, (c: Comment) => Orphaned(c, ids))|
  {
    if data != [] {
      var init := data[..|data| - 1];
      var c := data[|data| - 1];
      assert data == init + [c];
      FilterSplit(init, ids);
      FilterSnoc(init, c, (c: Comment) => !IsRoot(c));
      FilterSnoc(init, c, (c: Comment) => Attached(c, ids));
      FilterSnoc(init, c, (c: Comment) => Orphaned(c, ids));
    }
  }

  /** The Reply button: closes the box it belongs to, otherwise opens it. */
  function ToggleReply(replyTo: Option<Id>, id: Id): (r: Option<Id>)
    ensures r == Some(id) <==> replyTo != Some(id)
    ensures r.Some? ==> r.value == id
  {
    if replyTo == Some(id) then None else Some(id)
  }

  /** Pressing the same Reply button twice leaves the boxes as they were, when that box started closed. */
  lemma ToggleTwice(replyTo: Option<Id>, id: Id)
    requires replyTo != Some(id)
    ensures ToggleReply(ToggleReply(replyTo, id), id) == None
    ensures ToggleReply(replyTo, id) == Some(id)
  {
  }

  /**
   * The enhanced variant's notice to the post owner after a comment: none
   * when the post read failed, the owner is unknown, or the commenter owns
   * the post.
   */
  function CommentNotice(post: Option<PostStats>, readOk: bool, me: Id, postId: Id): (r: seq<Notice>)
    ensures |r| <= 1
    ensures r != [] <==> readOk && post.Some? && post.value.ownerId != [] && post.value.ownerId != me
    ensures r != [] ==> r[0] == Notice(post.value.ownerId, me, "comment", Some(postId), "commented on your post")
  {
    if readOk && post.Some? && post.value.ownerId != [] && post.value.ownerId != me then
      [Notice(post.value.ownerId, me, "comment", Some(postId), "commented on your post")]
    else []
  }

  /** The enhanced variant's notice to the parent's author after a reply, unless they reply to themselves. */
  function ReplyNotice(parentUserId: Id, me: Id, postId: Id): (r: seq<Notice>)
    ensures |r| <= 1
    ensures r != [] <==> parentUserId != me
    ensures r != [] ==> r[0] == Notice(parentUserId, me, "comment", Some(postId), "replied to your comment")
  {
    if parentUserId != me then [Notice(parentUserId, me, "comment", Some(postId), "replied to your comment")] else []
  }

  /** Nobody is notified of their own comment or reply. */
  lemma NoSelfNotice(post: Option<PostStats>, readOk: bool, parentUserId: Id, me: Id, postId: Id)
    ensures forall n :: n in CommentNotice(post, readOk, me, postId) ==> n.recipient != me && n.actor == me
    ensures forall n :: n in ReplyNotice(parentUserId, me, postId) ==> n.recipient != me && n.actor == me
  {
  }

  /** The post's `comments_count` and owner. */
  datatype PostStats = PostStats(commentsCount: int, ownerId: Id)

  /**
   * The count update after an insert: the count read back plus one, or 1
   * when the read failed; without a row there is nothing to update.
   */
  function Bumped(post: Option<PostStats>, readOk: bool): (r: Option<PostStats>)
    ensures r.None? <==> post.None?
    ensures r.Some? ==> r.value.ownerId == post.value.ownerId
    ensures r.Some? && readOk ==> r.value.commentsCount == post.value.commentsCount + 1
    ensures r.Some? && !readOk ==> r.value.commentsCount == 1
  {
    if post.None? then None
    else Some(post.value.(commentsCount := (if readOk then post.value.commentsCount else 0) + 1))
  }

  /** One comment section. `notifies` is set for the enhanced variant. */
  class CommentSection {
    const postId: Id
    const user: Option<Id>
    const notifies: bool
    /** The `comments` table. */
    var table: seq<Comment>
    /** This post's row of the `posts` table, if it exists. */
    var post: Option<PostStats>
    /** The `notifications` table. */
    var notices: seq<Notice>
    /** The built thread and the last count passed to `onCommentCountChange`. */
    var roots: seq<Id>
    var replies: map<Id, seq<Id>>
    var reported: nat
    var newComment: string
    var replyTo: Option<Id>
    var replyContent: string

    constructor (postId: Id, user: Option<Id>, notifies: bool, table: seq<Comment>, post: Option<PostStats>)
      ensures this.postId == postId && this.user == user && this.notifies == notifies
      ensures this.table == table && this.post == post && notices == []
      ensures roots == [] && replies == map[] && reported == 0
      ensures newComment == [] && replyTo.None? && replyContent == []
    {
      this.postId := postId;
      this.user := user;
      this.notifies := notifies;
      this.table := table;
      this.post := post;
      notices := [];
      roots := [];
      replies := map[];
      reported := 0;
      newComment := [];
      replyTo := None;
      replyContent := [];
    }

    /** `fetchComments`: on success the thread is rebuilt and the row count reported. */
    method Fetch(ok: bool)
      modifies this`roots, this`replies, this`reported
      ensures ok ==> roots == RootIds(CommentsQuery(table, postId)) && reported == |CommentsQuery(table, postId)|
      ensures ok ==> replies.Keys == IdSet(CommentsQuery(table, postId))
      ensures ok ==> forall p :: p in replies ==> replies[p] == ChildIds(CommentsQuery(table, postId), p)
      ensures !ok ==> roots == old(roots) && replies == old(replies) && reported == old(reported)
    {
      if ok {
        var data := CommentsQuery(table, postId);
        roots, replies := BuildThread(data);
        reported := |data|;
      }
    }

    /**
     * `handleAddComment`. The refetch it starts without awaiting is the
     * separate `Fetch` event. The errors of the count write and of the
     * notice insert are not read: a refused one leaves its table as it was.
     */
    method AddComment(newId: Id, now: int, insertOk: bool, readOk: bool, countOk: bool, noticeOk: bool)
      modifies this`table, this`newComment, this`post, this`notices
      ensures user.None? || IsBlank(old(newComment)) || !insertOk ==>
        table == old(table) && newComment == old(newComment) && post == old(post) && notices == old(notices)
      ensures user.Some? && !IsBlank(old(newComment)) && insertOk ==>
        table == old(table) + [Comment(newId, postId, user.value, Trim(old(newComment)), None, now)] &&
        newComment == [] && post == (if countOk then Bumped(old(post), readOk) else old(post))
      ensures user.Some? && !IsBlank(old(newComment)) && insertOk ==>
        notices == old(notices) + (if notifies && noticeOk then CommentNotice(old(post), readOk, user.value, postId) else [])
    {
      if user.None? || IsBlank(newComment) || !insertOk {
        return;
      }
      var row := Comment(newId, postId, user.value, Trim(newComment), None, now);
      table := table + [row];
      newComment := [];
      if notifies && noticeOk {
        notices := notices + CommentNotice(post, readOk, user.value, postId);
      }
      if countOk {
        post := Bumped(post, readOk);
      }
    }

    /**
     * `handleAddReply(parentId, parentUserId)`; the refetch is again a
     * separate `Fetch`, and the count write and notice insert may again be
     * refused unnoticed.
     */
    method AddReply(parentId: Id, parentUserId: Id, newId: Id, now: int, insertOk: bool, readOk: bool, countOk: bool, noticeOk: bool)
      modifies this`table, this`replyContent, this`replyTo, this`post, this`notices
      ensures user.None? || IsBlank(old(replyContent)) || !insertOk ==>
        table == old(table) && replyContent == old(replyContent) && replyTo == old(replyTo) &&
        post == old(post) && notices == old(notices)
      ensures user.Some? && !IsBlank(old(replyContent)) && insertOk ==>
        table == old(table) + [Comment(newId, postId, user.value, Trim(old(replyContent)), Some(parentId), now)] &&
        replyContent == [] && replyTo.None? && post == (if countOk then Bumped(old(post), readOk) else old(post))
      ensures user.Some? && !IsBlank(old(replyContent)) && insertOk ==>
        notices == old(notices) + (if notifies && noticeOk then ReplyNotice(parentUserId, user.value, postId) else [])
    {
      if user.None? || IsBlank(replyContent) || !insertOk {
        return;
      }
      var row := Comment(newId, postId, user.value, Trim(replyContent), Some(parentId), now);
      table := table + [row];
      replyContent := [];
      replyTo := None;
      if notifies && noticeOk {
        notices := notices + ReplyNotice(parentUserId, user.value, postId);
      }
      if countOk {
        post := Bumped(post, readOk);
      }
    }

    method PressReply(id: Id)
      modifies this`replyTo
      ensures replyTo == ToggleReply(old(replyTo), id)
    {
      replyTo := ToggleReply(replyTo, id);
    }
  }

  /** A stored comment is never blank: its content is the trimmed, non-blank draft. */
  lemma StoredContentTrimmed(draft: string)
    requires !IsBlank(draft)
    ensures Trim(draft) != [] && Trim(Trim(draft)) == Trim(draft)
  {
    TrimIdempotent(draft);
  }
}
