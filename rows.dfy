/**
 * The rows of the hosted store that the messaging components read and write,
 * after the `messages`, `post_shares`, `posts` and `message_reactions` tables.
 * Timestamps are integers (milliseconds); ids are strings.
 */
module Rows {
  import opened Wrappers

  type Id = string

  datatype Message = Message(
    id: Id,
    senderId: Id,
    receiverId: Id,
    content: string,
    createdAt: int,
    replyTo: Option<Id>,
    isRead: bool,
    isDeleted: bool,
    deletedForEveryone: bool,
    deletedForEveryoneAt: Option<int>,
    isEdited: bool,
    editedAt: Option<int>)

  datatype Share = Share(
    id: Id,
    senderId: Id,
    receiverId: Id,
    postId: Option<Id>,
    message: Option<string>,
    createdAt: int)

  /** The snapshot of a post shown inside a shared-post bubble. */
  datatype Post = Post(id: Id, userId: Id, content: string, createdAt: int)

  datatype Reaction = Reaction(id: Id, messageId: Id, userId: Id, reactionType: string)

  /** A row of the `notifications` table; follow notices carry no post. */
  datatype Notice = Notice(recipient: Id, actor: Id, kind: string, postId: Option<Id>, message: string)

  /** A row of the `follows` table. */
  datatype Follow = Follow(follower: Id, following: Id)

  function MessageIdOf(r: Reaction): Id { r.messageId }

  /** Ids are primary keys: no two rows of a table share one. */
  ghost predicate UniqueMessageIds(table: seq<Message>) {
    forall i, j :: 0 <= i < j < |table| ==> table[i].id != table[j].id
  }

  /** `.eq('id', id)` on the messages table, keeping the last row found (a `reduce` into an object overwrites). */
  function FindMessage(table: seq<Message>, id: Id): (r: Option<Message>)
    ensures r.Some? ==> r.value in table && r.value.id == id
    ensures r.None? ==> forall m :: m in table ==> m.id != id
  {
    if table == [] then None
    else if table[|table| - 1].id == id then Some(table[|table| - 1])
    else FindMessage(table[..|table| - 1], id)
  }

  /** On a table with unique ids the lookup finds the one row carrying the id. */
  lemma {:induction false} FindMessageUnique(table: seq<Message>, m: Message)
    requires UniqueMessageIds(table) && m in table
    ensures FindMessage(table, m.id) == Some(m)
  {
    var last := table[|table| - 1];
    if last != m {
      var init := table[..|table| - 1];
      assert table == init + [last];
      assert m in init;
      assert UniqueMessageIds(init);
      FindMessageUnique(init, m);
      var i :| 0 <= i < |init| && init[i] == m;
      assert table[i] == m;
    }
  }

  function FindPost(table: seq<Post>, id: Id): (r: Option<Post>)
    ensures r.Some? ==> r.value in table && r.value.id == id
    ensures r.None? ==> forall p :: p in table ==> p.id != id
  {
    if table == [] then None
    else if table[|table| - 1].id == id then Some(table[|table| - 1])
    else FindPost(table[..|table| - 1], id)
  }
}
