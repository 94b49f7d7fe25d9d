/**
 * Assembly of a conversation's history: the direct messages and the post
 * shares exchanged by two users are fetched as two streams, each entry is
 * tagged and resolved (reply preview, shared-post snapshot), the streams are
 * concatenated messages first and stably sorted by `created_at`, and the
 * reactions of the fetched messages are bucketed by message id.
 *
 * Two components do this: the Instagram-style view queries the tables one by
 * one and resolves replies and posts through lookup maps, aborting when the
 * messages query fails; the enhanced view lets the store join them and shows
 * an empty stream for a query that fails.
 */
module Timeline {
  import opened Wrappers
  import opened Rows
  import opened StableSort
  import opened Buckets

  /** What a reply bubble shows of the message replied to. */
  datatype ReplyPreview = ReplyPreview(id: Id, content: string, senderId: Id)

  /** One item of the conversation view, tagged 'message' or 'shared_post'. */
  datatype Entry =
    | MessageEntry(msg: Message, reply: Option<ReplyPreview>)
    | SharedPostEntry(share: Share, post: Option<Post>)

  function EntryTime(e: Entry): int {
    match e
    case MessageEntry(m, _) => m.createdAt
    case SharedPostEntry(s, _) => s.createdAt
  }

  function MessageTime(m: Message): int { m.createdAt }

  function ShareTime(s: Share): int { s.createdAt }

  /** The tables a fetch reads. */
  datatype Store = Store(messages: seq<Message>, shares: seq<Share>, posts: seq<Post>, reactions: seq<Reaction>)

  /** Which of the store calls of one fetch succeed. */
  datatype Outcomes = Outcomes(messagesOk: bool, repliesOk: bool, sharesOk: bool, postsOk: bool, reactionsOk: bool)

  /** The pair filter of both queries: sent by one of the two users to the other. */
  predicate Between(me: Id, other: Id, sender: Id, receiver: Id) {
    (sender == me && receiver == other) || (sender == other && receiver == me)
  }

  /**
   * The row filter of the messages query. Both views require
   * `deleted_for_everyone = false`; the enhanced view also requires
   * `is_deleted = false`.
   */
  predicate Visible(m: Message, me: Id, other: Id, hideDeleted: bool) {
    Between(me, other, m.senderId, m.receiverId) && !m.deletedForEveryone && (hideDeleted ==> !m.isDeleted)
  }

  /** The messages query, ordered by `created_at` ascending. */
  function MessagesQuery(table: seq<Message>, me: Id, other: Id, hideDeleted: bool): (r: seq<Message>)
    ensures forall m :: m in r ==> m in table && Visible(m, me, other, hideDeleted)
    ensures forall m :: m in table && Visible(m, me, other, hideDeleted) ==> m in r
    ensures SortedBy(r, MessageTime)
  {
    var rows := Filter(table, (m: Message) => Visible(m, me, other, hideDeleted));
    SortBySorted(rows, MessageTime);
    SortByMembers(rows, MessageTime);
    SortBy(rows, MessageTime)
  }

  /** The `post_shares` query, ordered by `created_at` ascending. */
  function SharesQuery(table: seq<Share>, me: Id, other: Id): (r: seq<Share>)
    ensures forall s :: s in r ==> s in table && Between(me, other, s.senderId, s.receiverId)
    ensures forall s :: s in table && Between(me, other, s.senderId, s.receiverId) ==> s in r
    ensures SortedBy(r, ShareTime)
  {
    var rows := Filter(table, (s: Share) => Between(me, other, s.senderId, s.receiverId));
    SortBySorted(rows, ShareTime);
    SortByMembers(rows, ShareTime);
    SortBy(rows, ShareTime)
  }

  function Preview(m: Message): ReplyPreview {
    ReplyPreview(m.id, m.content, m.senderId)
  }

  /**
   * `msg.reply_to ? lookup[msg.reply_to] : null`, where the lookup holds the
   * rows of the whole messages table with the wanted ids (no flag filter), or
   * nothing when that query failed. A missing target yields no preview.
   */
  function ReplyFor(m: Message, table: seq<Message>, lookupOk: bool): (r: Option<ReplyPreview>)
    ensures m.replyTo.None? || !lookupOk ==> r.None?
    ensures r.Some? ==> exists t :: t in table && t.id == m.replyTo.value && r.value == Preview(t)
  {
    if m.replyTo.None? || !lookupOk then None
    else
      match FindMessage(table, m.replyTo.value)
      case Some(t) => Some(Preview(t))
      case None => None
  }

  /** `share.post_id ? postsMap[share.post_id] : null`; a failed posts query leaves the map empty. */
  function PostFor(s: Share, posts: seq<Post>, lookupOk: bool): (r: Option<Post>)
    ensures s.postId.None? || !lookupOk ==> r.None?
    ensures r.Some? ==> r.value in posts && r.value.id == s.postId.value
  {
    if s.postId.None? || !lookupOk then None else FindPost(posts, s.postId.value)
  }

  function TagMessages(ms: seq<Message>, table: seq<Message>, lookupOk: bool): (r: seq<Entry>)
    ensures |r| == |ms|
    ensures forall i :: 0 <= i < |ms| ==> r[i] == MessageEntry(ms[i], ReplyFor(ms[i], table, lookupOk))
  {
    seq(|ms|, i requires 0 <= i < |ms| => MessageEntry(ms[i], ReplyFor(ms[i], table, lookupOk)))
  }

  function TagShares(ss: seq<Share>, posts: seq<Post>, lookupOk: bool): (r: seq<Entry>)
    ensures |r| == |ss|
    ensures forall i :: 0 <= i < |ss| ==> r[i] == SharedPostEntry(ss[i], PostFor(ss[i], posts, lookupOk))
  {
    seq(|ss|, i requires 0 <= i < |ss| => SharedPostEntry(ss[i], PostFor(ss[i], posts, lookupOk)))
  }

  /**
   * `[...messages, ...shares].sort((a, b) => time(a) - time(b))`: nothing is
   * dropped or duplicated and the result is in time order.
   */
  function Combine(ms: seq<Entry>, ss: seq<Entry>): (r: seq<Entry>)
    ensures |r| == |ms| + |ss|
    ensures multiset(r) == multiset(ms) + multiset(ss)
    ensures SortedBy(r, EntryTime)
  {
    SortBySorted(ms + ss, EntryTime);
    SortBy(ms + ss, EntryTime)
  }

  /**
   * Ties: among the entries with one timestamp, the messages come first and
   * each stream keeps its fetched order.
   */
  lemma CombineTies(ms: seq<Entry>, ss: seq<Entry>, t: int)
    ensures WithKey(Combine(ms, ss), EntryTime, t) == WithKey(ms, EntryTime, t) + WithKey(ss, EntryTime, t)
  {
    SortByStable(ms + ss, EntryTime, t);
    WithKeyAppend(ms, ss, EntryTime, t);
  }

  /**
   * The Instagram-style fetch. A failed messages query aborts (None: the view
   * keeps what it showed); a failed share, reply or post query only empties
   * that stream or lookup.
   */
  function InstagramFetch(db: Store, me: Id, other: Id, ok: Outcomes): (r: Option<seq<Entry>>)
    ensures r.None? <==> !ok.messagesOk
  {
    if !ok.messagesOk then None
    else
      var ms := MessagesQuery(db.messages, me, other, false);
      var ss := if ok.sharesOk then SharesQuery(db.shares, me, other) else [];
      Some(Combine(TagMessages(ms, db.messages, ok.repliesOk), TagShares(ss, db.posts, ok.postsOk)))
  }

  /**
   * The enhanced fetch: the store joins sender, reply target and post; each
   * failed query contributes `data || []`, so the other stream is still shown.
   */
  function EnhancedFetch(db: Store, me: Id, other: Id, ok: Outcomes): (r: seq<Entry>)
    ensures |r| == (if ok.messagesOk then |MessagesQuery(db.messages, me, other, true)| else 0)
                 + (if ok.sharesOk then |SharesQuery(db.shares, me, other)| else 0)
  {
    var ms := if ok.messagesOk then MessagesQuery(db.messages, me, other, true) else [];
    var ss := if ok.sharesOk then SharesQuery(db.shares, me, other) else [];
    Combine(TagMessages(ms, db.messages, true), TagShares(ss, db.posts, true))
  }

  /** The timeline holds exactly the entries of the two streams. */
  lemma CombineMembers(ms: seq<Entry>, ss: seq<Entry>, e: Entry)
    ensures e in Combine(ms, ss) <==> e in ms || e in ss
  {
    var r := Combine(ms, ss);
    assert e in r <==> e in multiset(r);
    assert e in ms + ss <==> e in multiset(ms + ss);
  }

  lemma TaggedMessage(ms: seq<Message>, table: seq<Message>, lookupOk: bool, e: Entry)
    requires e in TagMessages(ms, table, lookupOk)
    ensures e.MessageEntry? && e.msg in ms && e.reply == ReplyFor(e.msg, table, lookupOk)
  {
    var tm := TagMessages(ms, table, lookupOk);
    var i :| 0 <= i < |tm| && tm[i] == e;
  }

  lemma TaggedShare(ss: seq<Share>, posts: seq<Post>, lookupOk: bool, e: Entry)
    requires e in TagShares(ss, posts, lookupOk)
    ensures e.SharedPostEntry? && e.share in ss && e.post == PostFor(e.share, posts, lookupOk)
  {
    var ts := TagShares(ss, posts, lookupOk);
    var i :| 0 <= i < |ts| && ts[i] == e;
  }

  /** Every entry of an Instagram-style timeline is a visible message or a share of the conversation. */
  lemma InstagramShowsOnlyVisible(db: Store, me: Id, other: Id, ok: Outcomes, e: Entry)
    requires InstagramFetch(db, me, other, ok).Some? && e in InstagramFetch(db, me, other, ok).value
    ensures e.MessageEntry? ==> e.msg in db.messages && Visible(e.msg, me, other, false) && !e.msg.deletedForEveryone
    ensures e.SharedPostEntry? ==> ok.sharesOk && e.share in db.shares && Between(me, other, e.share.senderId, e.share.receiverId)
  {
    var ms := MessagesQuery(db.messages, me, other, false);
    var ss := if ok.sharesOk then SharesQuery(db.shares, me, other) else [];
    var tm := TagMessages(ms, db.messages, ok.repliesOk);
    var ts := TagShares(ss, db.posts, ok.postsOk);
    assert InstagramFetch(db, me, other, ok).value == Combine(tm, ts);
    CombineMembers(tm, ts, e);
    if e in tm {
      TaggedMessage(ms, db.messages, ok.repliesOk, e);
    } else {
      TaggedShare(ss, db.posts, ok.postsOk, e);
    }
  }

  /** Every visible message and every share of the conversation is in the timeline, with its resolved reply or post. */
  lemma InstagramShowsEverything(db: Store, me: Id, other: Id, ok: Outcomes, m: Message, s: Share)
    requires ok.messagesOk
    ensures m in db.messages && Visible(m, me, other, false) ==>
      MessageEntry(m, ReplyFor(m, db.messages, ok.repliesOk)) in InstagramFetch(db, me, other, ok).value
    ensures ok.sharesOk && s in db.shares && Between(me, other, s.senderId, s.receiverId) ==>
      SharedPostEntry(s, PostFor(s, db.posts, ok.postsOk)) in InstagramFetch(db, me, other, ok).value
  {
    if m in db.messages && Visible(m, me, other, false) {
      InstagramShowsMessage(db, me, other, ok, m);
    }
    if ok.sharesOk && s in db.shares && Between(me, other, s.senderId, s.receiverId) {
      InstagramShowsShare(db, me, other, ok, s);
    }
  }

  /** The message half of `InstagramShowsEverything`. */
  lemma InstagramShowsMessage(db: Store, me: Id, other: Id, ok: Outcomes, m: Message)
    requires ok.messagesOk && m in db.messages && Visible(m, me, other, false)
    ensures MessageEntry(m, ReplyFor(m, db.messages, ok.repliesOk)) in InstagramFetch(db, me, other, ok).value
  {
    var ms := MessagesQuery(db.messages, me, other, false);
    var ss := if ok.sharesOk then SharesQuery(db.shares, me, other) else [];
    var tm := TagMessages(ms, db.messages, ok.repliesOk);
    var ts := TagShares(ss, db.posts, ok.postsOk);
    assert InstagramFetch(db, me, other, ok).value == Combine(tm, ts);
    assert m in ms;
    var i :| 0 <= i < |ms| && ms[i] == m;
    assert tm[i] == MessageEntry(m, ReplyFor(m, db.messages, ok.repliesOk));
    CombineMembers(tm, ts, tm[i]);
  }

  /** The share half of `InstagramShowsEverything`. */
  lemma InstagramShowsShare(db: Store, me: Id, other: Id, ok: Outcomes, s: Share)
    requires ok.messagesOk && ok.sharesOk && s in db.shares && Between(me, other, s.senderId, s.receiverId)
    ensures SharedPostEntry(s, PostFor(s, db.posts, ok.postsOk)) in InstagramFetch(db, me, other, ok).value
  {
    var ms := MessagesQuery(db.messages, me, other, false);
    var ss := SharesQuery(db.shares, me, other);
    var tm := TagMessages(ms, db.messages, ok.repliesOk);
    var ts := TagShares(ss, db.posts, ok.postsOk);
    assert InstagramFetch(db, me, other, ok).value == Combine(tm, ts);
    assert s in ss;
    var i :| 0 <= i < |ss| && ss[i] == s;
    assert ts[i] == SharedPostEntry(s, PostFor(s, db.posts, ok.postsOk));
    CombineMembers(tm, ts, ts[i]);
  }

  /** The enhanced view also hides rows deleted only for the sender. */
  lemma EnhancedShowsOnlyVisible(db: Store, me: Id, other: Id, ok: Outcomes, e: Entry)
    requires e in EnhancedFetch(db, me, other, ok)
    ensures e.MessageEntry? ==> ok.messagesOk && e.msg in db.messages && Visible(e.msg, me, other, true)
    ensures e.MessageEntry? ==> !e.msg.isDeleted && !e.msg.deletedForEveryone
    ensures e.SharedPostEntry? ==> ok.sharesOk && e.share in db.shares && Between(me, other, e.share.senderId, e.share.receiverId)
  {
    var ms := if ok.messagesOk then MessagesQuery(db.messages, me, other, true) else [];
    var ss := if ok.sharesOk then SharesQuery(db.shares, me, other) else [];
    var tm := TagMessages(ms, db.messages, true);
    var ts := TagShares(ss, db.posts, true);
    assert EnhancedFetch(db, me, other, ok) == Combine(tm, ts);
    CombineMembers(tm, ts, e);
    if e in tm {
      TaggedMessage(ms, db.messages, true, e);
    } else {
      TaggedShare(ss, db.posts, true, e);
    }
  }

  /**
   * Every message the enhanced view may show is in it when the messages
   * query succeeds, and every share of the conversation when the shares
   * query succeeds, each with its joined reply or post.
   */
  lemma EnhancedShowsEverything(db: Store, me: Id, other: Id, ok: Outcomes, m: Message, s: Share)
    ensures ok.messagesOk && m in db.messages && Visible(m, me, other, true) ==>
      MessageEntry(m, ReplyFor(m, db.messages, true)) in EnhancedFetch(db, me, other, ok)
    ensures ok.sharesOk && s in db.shares && Between(me, other, s.senderId, s.receiverId) ==>
      SharedPostEntry(s, PostFor(s, db.posts, true)) in EnhancedFetch(db, me, other, ok)
  {
    if ok.messagesOk && m in db.messages && Visible(m, me, other, true) {
      EnhancedShowsMessage(db, me, other, ok, m);
    }
    if ok.sharesOk && s in db.shares && Between(me, other, s.senderId, s.receiverId) {
      EnhancedShowsShare(db, me, other, ok, s);
    }
  }

  /** The message half of `EnhancedShowsEverything`. */
  lemma EnhancedShowsMessage(db: Store, me: Id, other: Id, ok: Outcomes, m: Message)
    requires ok.messagesOk && m in db.messages && Visible(m, me, other, true)
    ensures MessageEntry(m, ReplyFor(m, db.messages, true)) in EnhancedFetch(db, me, other, ok)
  {
    var ms := MessagesQuery(db.messages, me, other, true);
    var ss := if ok.sharesOk then SharesQuery(db.shares, me, other) else [];
    var tm := TagMessages(ms, db.messages, true);
    var ts := TagShares(ss, db.posts, true);
    assert EnhancedFetch(db, me, other, ok) == Combine(tm, ts);
    assert m in ms;
    var i :| 0 <= i < |ms| && ms[i] == m;
    assert tm[i] == MessageEntry(m, ReplyFor(m, db.messages, true));
    CombineMembers(tm, ts, tm[i]);
  }

  /** The share half of `EnhancedShowsEverything`. */
  lemma EnhancedShowsShare(db: Store, me: Id, other: Id, ok: Outcomes, s: Share)
    requires ok.sharesOk && s in db.shares && Between(me, other, s.senderId, s.receiverId)
    ensures SharedPostEntry(s, PostFor(s, db.posts, true)) in EnhancedFetch(db, me, other, ok)
  {
    var ms := if ok.messagesOk then MessagesQuery(db.messages, me, other, true) else [];
    var ss := SharesQuery(db.shares, me, other);
    var tm := TagMessages(ms, db.messages, true);
    var ts := TagShares(ss, db.posts, true);
    assert EnhancedFetch(db, me, other, ok) == Combine(tm, ts);
    assert s in ss;
    var i :| 0 <= i < |ss| && ss[i] == s;
    assert ts[i] == SharedPostEntry(s, PostFor(s, db.posts, true));
    CombineMembers(tm, ts, ts[i]);
  }

  /** When the messages query fails the enhanced view is exactly the conversation's shares, in time order. */
  lemma EnhancedMessagesFailure(db: Store, me: Id, other: Id, ok: Outcomes)
    requires !ok.messagesOk && ok.sharesOk
    ensures EnhancedFetch(db, me, other, ok) == Combine([], TagShares(SharesQuery(db.shares, me, other), db.posts, true))
    ensures |EnhancedFetch(db, me, other, ok)| == |SharesQuery(db.shares, me, other)|
  {
  }

  /**
   * Reply targets are looked up over the whole table, so a reply to a message
   * that was later deleted for everyone still previews that message.
   */
  lemma ReplyToDeletedStillPreviews(m: Message, table: seq<Message>, target: Message)
    requires UniqueMessageIds(table) && target in table
    requires m.replyTo == Some(target.id)
    ensures ReplyFor(m, table, true) == Some(Preview(target))
  {
    FindMessageUnique(table, target);
  }

  /** A reply whose target row no longer exists shows no preview and does not fail. */
  lemma ReplyToMissingShowsNothing(m: Message, table: seq<Message>)
    requires m.replyTo.Some? && forall t :: t in table ==> t.id != m.replyTo.value
    ensures ReplyFor(m, table, true) == None
  {
  }

  /** What a shared-post bubble renders. */
  datatype ShareView = Unavailable(notice: string) | PostPreview(post: Post)

  const unavailableNotice: string := "This post is no longer available"

  /** A share whose post is missing renders the placeholder; it is not omitted. */
  function RenderShare(e: Entry): (v: ShareView)
    requires e.SharedPostEntry?
    ensures e.post.None? <==> v == Unavailable(unavailableNotice)
    ensures e.post.Some? ==> v == PostPreview(e.post.value)
  {
    match e.post
    case None => Unavailable(unavailableNotice)
    case Some(p) => PostPreview(p)
  }

  /**
   * The reactions `reduce`: one bucket per message id that occurs, holding
   * that message's reactions in fetched order.
   */
  function Grouped(rs: seq<Reaction>): (groups: map<Id, seq<Reaction>>)
    ensures forall k :: k in groups <==> k in Keys(rs, MessageIdOf)
    ensures forall k :: k in groups ==> groups[k] == Bucket(rs, MessageIdOf, k)
  {
    GroupBy(rs, MessageIdOf)
  }

  /** The `reduce` itself: a loop that pushes each reaction onto its message's bucket. */
  method GroupReactions(rs: seq<Reaction>) returns (groups: map<Id, seq<Reaction>>)
    ensures groups == Grouped(rs)
  {
    groups := map[];
    var i := 0;
    while i < |rs|
      invariant 0 <= i <= |rs|
      invariant GroupsOf(rs[..i], MessageIdOf, groups)
    {
      PushPrefix(rs, i, MessageIdOf, groups);
      groups := Push(rs[..i], rs[i], MessageIdOf, groups);
      i := i + 1;
    }
    GroupedWhole(rs, groups);
  }

  /** A grouping of the whole list is `Grouped`. */
  lemma GroupedWhole(rs: seq<Reaction>, groups: map<Id, seq<Reaction>>)
    requires GroupsOf(rs[..|rs|], MessageIdOf, groups)
    ensures groups == Grouped(rs)
  {
    assert rs[..|rs|] == rs;
    GroupsOfUnique(rs, MessageIdOf, groups);
  }

  /** Every fetched reaction is in the bucket of its message and in no other. */
  lemma ReactionInOneBucket(rs: seq<Reaction>, r: Reaction, k: Id)
    requires r in rs
    ensures r.messageId in Grouped(rs) && r in Grouped(rs)[r.messageId]
    ensures k in Grouped(rs) && k != r.messageId ==> r !in Grouped(rs)[k]
  {
  }

  /** The bucket sizes over the message ids that occur add up to the number of reactions fetched. */
  lemma ReactionBucketsSum(rs: seq<Reaction>)
    ensures SumSizes(rs, MessageIdOf, Keys(rs, MessageIdOf)) == |rs|
  {
    BucketSizesSum(rs, MessageIdOf);
  }
}
