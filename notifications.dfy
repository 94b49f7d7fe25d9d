/**
 * The notifications page: the signed-in user's notifications, newest first,
 * with a read flag each; a click marks an unread one read, a button marks
 * them all read, and each is rendered as a sentence naming its actor.
 */
module Notifications {
  import opened Wrappers
  import opened Rows

  /** The actor columns joined to a notification; a null name is the empty string. */
  datatype Actor = Actor(username: string, firstName: string, lastName: string)

  /** A fetched notification; a null `message` is the empty string. */
  datatype Item = Item(id: Id, kind: string, message: string, isRead: bool, actor: Actor)

  /** Ids are the primary key of the table. */
  ghost predicate UniqueIds(items: seq<Item>) {
    forall i, j :: 0 <= i < j < |items| ==> items[i].id != items[j].id
  }

  /** `notifications.filter(n => !n.is_read).length`. */
  function UnreadCount(items: seq<Item>): (n: nat)
    ensures n <= |items|
    ensures n == 0 <==> forall i :: 0 <= i < |items| ==> items[i].isRead
  {
    if items == [] then 0
    else UnreadCount(items[..|items| - 1]) + if items[|items| - 1].isRead then 0 else 1
  }

  /** The number of unread entries carrying `id`. */
  function UnreadWithId(items: seq<Item>, id: Id): nat {
    if items == [] then 0
    else
      var last := items[|items| - 1];
      UnreadWithId(items[..|items| - 1], id) + if !last.isRead && last.id == id then 1 else 0
  }

  /** `markAsRead(id)` on the local list: the entry with that id is read, every other entry and the order are kept. */
  function MarkedRead(items: seq<Item>, id: Id): (r: seq<Item>)
    ensures |r| == |items|
    ensures forall i :: 0 <= i < |r| ==> r[i] == if items[i].id == id then items[i].(isRead := true) else items[i]
  {
    seq(|items|, i requires 0 <= i < |items| => if items[i].id == id then items[i].(isRead := true) else items[i])
  }

  /** `markAllAsRead` on the local list. */
  function AllRead(items: seq<Item>): (r: seq<Item>)
    ensures |r| == |items|
    ensures forall i :: 0 <= i < |r| ==> r[i] == items[i].(isRead := true)
  {
    seq(|items|, i requires 0 <= i < |items| => items[i].(isRead := true))
  }

  /** Marking the same notification twice is marking it once. */
  lemma MarkedReadIdempotent(items: seq<Item>, id: Id)
    ensures MarkedRead(MarkedRead(items, id), id) == MarkedRead(items, id)
  {
  }

  /** Marking one notification read lowers the unread count by the number of unread entries with its id. */
  lemma {:induction false} MarkedReadCount(items: seq<Item>, id: Id)
    ensures UnreadCount(MarkedRead(items, id)) + UnreadWithId(items, id) == UnreadCount(items)
  {
    if items != [] {
      var init := items[..|items| - 1];
      assert MarkedRead(items, id)[..|items| - 1] == MarkedRead(init, id);
      MarkedReadCount(init, id);
    }
  }

  /** With unique ids at most one entry carries an id. */
  lemma {:induction false} AtMostOneWithId(items: seq<Item>, id: Id)
    requires UniqueIds(items)
    ensures UnreadWithId(items, id) <= 1
  {
    if items != [] {
      var init := items[..|items| - 1];
      AtMostOneWithId(init, id);
      if items[|items| - 1].id == id {
        NoneWithId(init, id);
      }
    }
  }

  lemma {:induction false} NoneWithId(items: seq<Item>, id: Id)
    requires forall i :: 0 <= i < |items| ==> items[i].id != id
    ensures UnreadWithId(items, id) == 0
  {
    if items != [] {
      NoneWithId(items[..|items| - 1], id);
    }
  }

  /** `markAsRead` lowers the unread count by at most one, and by one exactly when the entry was unread. */
  lemma MarkAsReadLowersByAtMostOne(items: seq<Item>, id: Id)
    requires UniqueIds(items)
    ensures UnreadCount(items) - 1 <= UnreadCount(MarkedRead(items, id)) <= UnreadCount(items)
    ensures (exists i :: 0 <= i < |items| && items[i].id == id && !items[i].isRead) ==>
      UnreadCount(MarkedRead(items, id)) == UnreadCount(items) - 1
  {
    MarkedReadCount(items, id);
    AtMostOneWithId(items, id);
    if exists i :: 0 <= i < |items| && items[i].id == id && !items[i].isRead {
      var i :| 0 <= i < |items| && items[i].id == id && !items[i].isRead;
      UnreadWithIdAt(items, id, i);
    }
  }

  lemma {:induction false} UnreadWithIdAt(items: seq<Item>, id: Id, i: nat)
    requires i < |items| && items[i].id == id && !items[i].isRead
    ensures UnreadWithId(items, id) >= 1
  {
    if i < |items| - 1 {
      UnreadWithIdAt(items[..|items| - 1], id, i);
    }
  }

  /** After `markAllAsRead` nothing is unread. */
  lemma AllReadNoneUnread(items: seq<Item>)
    ensures |AllRead(items)| == |items| && UnreadCount(AllRead(items)) == 0
  {
  }

  /** The name shown: "first last" when both are non-empty, otherwise the username. */
  function ActorName(a: Actor): (r: string)
    ensures a.firstName != [] && a.lastName != [] ==> r == a.firstName + " " + a.lastName
    ensures a.firstName == [] || a.lastName == [] ==> r == a.username
  {
    if a.firstName != [] && a.lastName != [] then a.firstName + " " + a.lastName else a.username
  }

  /** The sentence ending for each known kind. */
  function Ending(kind: string): Option<string> {
    match kind
    case "like" => Some(" liked your post")
    case "comment" => Some(" commented on your post")
    case "follow" => Some(" started following you")
    case "message" => Some(" sent you a message")
    case "story" => Some(" posted a new story")
    case "mention" => Some(" mentioned you in a post")
    case _ => None
  }

  /** `getNotificationMessage`: the actor's name and the kind's ending, or the stored message, or the generic text. */
  function MessageOf(n: Item): (r: string)
    ensures Ending(n.kind).Some? ==> r == ActorName(n.actor) + Ending(n.kind).value
    ensures Ending(n.kind).None? && n.message != [] ==> r == n.message
    ensures Ending(n.kind).None? && n.message == [] ==> r == "New notification"
  {
    var ending := Ending(n.kind);
    if ending.Some? then ActorName(n.actor) + ending.value
    else if n.message != [] then n.message
    else "New notification"
  }

  /** Every notification renders as a non-empty sentence; a known kind starts with the actor's name. */
  lemma MessageNeverEmpty(n: Item)
    ensures MessageOf(n) != []
    ensures Ending(n.kind).Some? ==> MessageOf(n)[..|ActorName(n.actor)|] == ActorName(n.actor)
  {
  }

  class NotificationsPage {
    const user: Option<Id>
    var items: seq<Item>
    var loading: bool

    constructor (user: Option<Id>)
      ensures this.user == user && items == [] && loading
    {
      this.user := user;
      items := [];
      loading := true;
    }

    /** `fetchNotifications`: without a user nothing happens; a failed read keeps the list; loading ends. */
    method Fetch(data: Option<seq<Item>>, ok: bool)
      modifies this`items, this`loading
      ensures user.None? ==> items == old(items) && loading == old(loading)
      ensures user.Some? ==> items == (if ok then data.GetOr([]) else old(items)) && !loading
    {
      if user.None? {
        return;
      }
      if ok {
        items := data.GetOr([]);
      }
      loading := false;
    }

    method MarkAsRead(id: Id)
      modifies this`items
      ensures items == MarkedRead(old(items), id)
    {
      items := MarkedRead(items, id);
    }

    method MarkAllAsRead()
      modifies this`items
      ensures items == AllRead(old(items))
    {
      items := AllRead(items);
    }

    /** A click on entry `i` marks it read only if it is unread. */
    method Click(i: nat)
      requires i < |items|
      modifies this`items
      ensures old(items)[i].isRead ==> items == old(items)
      ensures !old(items)[i].isRead ==> items == MarkedRead(old(items), old(items)[i].id)
    {
      if !items[i].isRead {
        MarkAsRead(items[i].id);
      }
    }
  }
}
