/**
 * The conversation pane of the two messaging components: the draft, the
 * reply and edit state, the typing indicator with its single pending timer,
 * and the send / edit / delete-for-everyone handlers that write the messages
 * table and then refetch the timeline.
 *
 * The hosted tables are the `db` field: the store as this client sees it.
 * Each store call's success is a parameter; the ids and timestamps the store
 * assigns are parameters too.
 */
module Chat {
  import opened Wrappers
  import opened Rows
  import opened Text
  import opened Buckets
  import opened Timeline

  /** `replyingTo?.id || null`: an empty id counts as no reply. */
  function ReplyTarget(replyingTo: Option<Id>): (r: Option<Id>)
    ensures r.Some? ==> r == replyingTo && r.value != []
    ensures replyingTo.Some? && replyingTo.value != [] ==> r == replyingTo
  {
    if replyingTo.Some? && replyingTo.value != [] then replyingTo else None
  }

  /** The row `sendMessage` inserts; the store assigns `id` and `created_at`. */
  function Outgoing(id: Id, me: Id, other: Id, draft: string, replyingTo: Option<Id>, now: int): (m: Message)
    requires !IsBlank(draft)
    ensures m.senderId == me && m.receiverId == other && m.content == Trim(draft)
    ensures m.content != [] && !IsSpace(m.content[0]) && !IsSpace(m.content[|m.content| - 1])
    ensures !m.isRead && !m.isDeleted && !m.deletedForEveryone && !m.isEdited
    ensures m.replyTo == ReplyTarget(replyingTo)
  {
    Message(id, me, other, Trim(draft), now, ReplyTarget(replyingTo), false, false, false, None, false, None)
  }

  /** A freshly sent message passes both views' row filters. */
  lemma OutgoingVisible(id: Id, me: Id, other: Id, draft: string, replyingTo: Option<Id>, now: int, hideDeleted: bool)
    requires !IsBlank(draft)
    ensures Visible(Outgoing(id, me, other, draft, replyingTo, now), me, other, hideDeleted)
    ensures Visible(Outgoing(id, me, other, draft, replyingTo, now), other, me, hideDeleted)
  {
  }

  /** Whether a row is hit by an update filtered on `id` and `sender_id`. */
  predicate Targets(m: Message, id: Id, me: Id) {
    m.id == id && m.senderId == me
  }

  /** The `editMessage` update: `.eq('id', id).eq('sender_id', me)`. */
  function ApplyEdit(rows: seq<Message>, id: Id, me: Id, content: string, now: int): (r: seq<Message>)
    ensures |r| == |rows|
    ensures forall i :: 0 <= i < |rows| && !Targets(rows[i], id, me) ==> r[i] == rows[i]
    ensures forall i :: 0 <= i < |rows| && Targets(rows[i], id, me) ==>
      r[i] == rows[i].(content := Trim(content), isEdited := true, editedAt := Some(now))
  {
    seq(|rows|, i requires 0 <= i < |rows| =>
      if Targets(rows[i], id, me) then rows[i].(content := Trim(content), isEdited := true, editedAt := Some(now))
      else rows[i])
  }

  /** The `deleteForEveryone` update: `.eq('id', id).eq('sender_id', me)`. */
  function ApplyDeleteForEveryone(rows: seq<Message>, id: Id, me: Id, now: int): (r: seq<Message>)
    ensures |r| == |rows|
    ensures forall i :: 0 <= i < |rows| && !Targets(rows[i], id, me) ==> r[i] == rows[i]
    ensures forall i :: 0 <= i < |rows| && Targets(rows[i], id, me) ==>
      r[i] == rows[i].(deletedForEveryone := true, deletedForEveryoneAt := Some(now))
  {
    seq(|rows|, i requires 0 <= i < |rows| =>
      if Targets(rows[i], id, me) then rows[i].(deletedForEveryone := true, deletedForEveryoneAt := Some(now))
      else rows[i])
  }

  /** Neither update can touch a message someone else sent. */
  lemma UpdatesSpareOthers(rows: seq<Message>, id: Id, me: Id, content: string, now: int, i: int)
    requires 0 <= i < |rows| && rows[i].senderId != me
    ensures ApplyEdit(rows, id, me, content, now)[i] == rows[i]
    ensures ApplyDeleteForEveryone(rows, id, me, now)[i] == rows[i]
  {
  }

  /** Every row the delete targeted is flagged afterwards. */
  lemma DeletedRowsFlagged(rows: seq<Message>, id: Id, me: Id, now: int, m: Message)
    requires m in ApplyDeleteForEveryone(rows, id, me, now) && Targets(m, id, me)
    ensures m.deletedForEveryone
  {
    var r := ApplyDeleteForEveryone(rows, id, me, now);
    var i :| 0 <= i < |r| && r[i] == m;
  }

  /** After deleting a message for everyone, no refetch of either view shows it as an entry. */
  lemma DeletedForEveryoneNotShown(db: Store, me: Id, other: Id, ok: Outcomes, id: Id, now: int, e: Entry)
    requires e.MessageEntry? && Targets(e.msg, id, me)
    ensures var db' := db.(messages := ApplyDeleteForEveryone(db.messages, id, me, now));
      InstagramFetch(db', me, other, ok).Some? ==> e !in InstagramFetch(db', me, other, ok).value
    ensures var db' := db.(messages := ApplyDeleteForEveryone(db.messages, id, me, now));
      e !in EnhancedFetch(db', me, other, ok)
  {
    var db' := db.(messages := ApplyDeleteForEveryone(db.messages, id, me, now));
    if InstagramFetch(db', me, other, ok).Some? && e in InstagramFetch(db', me, other, ok).value {
      InstagramShowsOnlyVisible(db', me, other, ok, e);
      DeletedRowsFlagged(db.messages, id, me, now, e.msg);
      assert false;
    }
    if e in EnhancedFetch(db', me, other, ok) {
      EnhancedShowsOnlyVisible(db', me, other, ok, e);
      DeletedRowsFlagged(db.messages, id, me, now, e.msg);
      assert false;
    }
  }

  /** The reactions query: the rows whose message is one of the fetched ones. */
  function ReactionsFor(table: seq<Reaction>, ms: seq<Message>): (r: seq<Reaction>)
    ensures forall x :: x in r ==> x in table && x.messageId in IdsOf(ms)
    ensures forall x :: x in table && x.messageId in IdsOf(ms) ==> x in r
  {
    var ids := IdsOf(ms);
    Filter(table, (x: Reaction) => x.messageId in ids)
  }

  /** `messagesData.map(m => m.id)`, as the set an `.in(...)` filter tests against. */
  function IdsOf(ms: seq<Message>): (ids: set<Id>)
    ensures forall m :: m in ms ==> m.id in ids
    ensures forall k :: k in ids ==> exists m :: m in ms && m.id == k
  {
    set m | m in ms :: m.id
  }

  /**
   * What `fetchMessages` leaves in the Instagram-style pane: the timeline when
   * the messages query succeeds, else the old one; the grouped reactions of
   * the fetched messages when there are some and their query succeeds, else
   * the old reactions.
   */
  ghost predicate InstagramRefetched(db: Store, me: Id, other: Id, ok: Outcomes,
                                     messages0: seq<Entry>, reactions0: map<Id, seq<Reaction>>,
                                     messages: seq<Entry>, reactions: map<Id, seq<Reaction>>)
  {
    var ms := MessagesQuery(db.messages, me, other, false);
    (ok.messagesOk ==> messages == InstagramFetch(db, me, other, ok).value) &&
    (!ok.messagesOk ==> messages == messages0) &&
    (ok.messagesOk && ok.reactionsOk && ms != [] ==> reactions == Grouped(ReactionsFor(db.reactions, ms))) &&
    (!(ok.messagesOk && ok.reactionsOk && ms != []) ==> reactions == reactions0)
  }

  /** The reactions the enhanced pane's `fetchMessages` leaves: as above, over the rows not deleted by the user. */
  ghost predicate EnhancedReactionsRefetched(db: Store, me: Id, other: Id, ok: Outcomes,
                                             reactions0: map<Id, seq<Reaction>>, reactions: map<Id, seq<Reaction>>)
  {
    var ms := MessagesQuery(db.messages, me, other, true);
    (ok.messagesOk && ok.reactionsOk && ms != [] ==> reactions == Grouped(ReactionsFor(db.reactions, ms))) &&
    (!(ok.messagesOk && ok.reactionsOk && ms != []) ==> reactions == reactions0)
  }

  /** The Instagram-style conversation pane. */
  class InstagramChat {
    const user: Option<Id>
    const other: Option<Id>
    var db: Store
    var messages: seq<Entry>
    var reactions: map<Id, seq<Reaction>>
    var newMessage: string
    var replyingTo: Option<Id>
    var editingMessage: Option<Id>
    var editedContent: string
    var isTyping: bool
    /** The timers scheduled and neither cleared nor fired, and the id the next one gets. */
    var pendingTimers: seq<nat>
    var nextTimer: nat

    /** At most one typing timer is ever pending. */
    predicate Valid()
      reads this`pendingTimers, this`nextTimer
    {
      |pendingTimers| <= 1 && forall t :: t in pendingTimers ==> t < nextTimer
    }

    constructor (user: Option<Id>, other: Option<Id>, db: Store)
      ensures Valid()
      ensures this.user == user && this.other == other && this.db == db
      ensures messages == [] && reactions == map[] && newMessage == [] && replyingTo.None?
      ensures editingMessage.None? && editedContent == [] && !isTyping && pendingTimers == []
    {
      this.user := user;
      this.other := other;
      this.db := db;
      messages := [];
      reactions := map[];
      newMessage := [];
      replyingTo := None;
      editingMessage := None;
      editedContent := [];
      isTyping := false;
      pendingTimers := [];
      nextTimer := 0;
    }

    /** `handleTyping`: shows the indicator and replaces the pending timer by a new one. */
    method HandleTyping()
      requires Valid()
      modifies this`isTyping, this`pendingTimers, this`nextTimer
      ensures Valid()
      ensures isTyping && pendingTimers == [old(nextTimer)] && nextTimer == old(nextTimer) + 1
      ensures forall t :: t in old(pendingTimers) ==> t !in pendingTimers
    {
      isTyping := true;
      pendingTimers := [nextTimer];
      nextTimer := nextTimer + 1;
    }

    /** Timer `t` expires: only a pending one hides the indicator. */
    method TimerFires(t: nat)
      requires Valid()
      modifies this`isTyping, this`pendingTimers
      ensures Valid()
      ensures t in old(pendingTimers) ==> !isTyping && pendingTimers == []
      ensures t !in old(pendingTimers) ==> isTyping == old(isTyping) && pendingTimers == old(pendingTimers)
    {
      if t in pendingTimers {
        isTyping := false;
        pendingTimers := [];
      }
    }

    /**
     * `fetchMessages(other)`: a failed messages query keeps the old timeline;
     * reactions are refetched only when at least one message came back.
     */
    method FetchMessages(ok: Outcomes)
      modifies this`messages, this`reactions
      ensures user.None? || other.None? ==> messages == old(messages) && reactions == old(reactions)
      ensures user.Some? && other.Some? ==>
        InstagramRefetched(old(db), user.value, other.value, ok, old(messages), old(reactions), messages, reactions)
    {
      if user.None? || other.None? || !ok.messagesOk {
        return;
      }
      var ms := MessagesQuery(db.messages, user.value, other.value, false);
      var fetched := InstagramFetch(db, user.value, other.value, ok).value;
      var grouped := reactions;
      if ms != [] && ok.reactionsOk {
        grouped := GroupReactions(ReactionsFor(db.reactions, ms));
      }
      assert InstagramRefetched(db, user.value, other.value, ok, messages, reactions, fetched, grouped);
      messages, reactions := fetched, grouped;
    }

    /**
     * `sendMessage`: nothing without a user, a conversation or a non-blank
     * draft, or when the insert fails; otherwise the row is inserted, the
     * draft, reply and typing state are cleared and the timeline is refetched.
     */
    method SendMessage(id: Id, now: int, insertOk: bool, ok: Outcomes)
      modifies this`db, this`newMessage, this`replyingTo, this`isTyping, this`messages, this`reactions
      ensures user.None? || other.None? || IsBlank(old(newMessage)) || !insertOk ==>
        db == old(db) && messages == old(messages) && reactions == old(reactions) &&
        newMessage == old(newMessage) && replyingTo == old(replyingTo) && isTyping == old(isTyping)
      ensures user.Some? && other.Some? && !IsBlank(old(newMessage)) && insertOk ==>
        db.messages == old(db.messages) + [Outgoing(id, user.value, other.value, old(newMessage), old(replyingTo), now)] &&
        db.(messages := old(db.messages)) == old(db) &&
        newMessage == [] && replyingTo.None? && !isTyping &&
        InstagramRefetched(db, user.value, other.value, ok, old(messages), old(reactions), messages, reactions)
    {
      if user.None? || other.None? || IsBlank(newMessage) || !insertOk {
        return;
      }
      ghost var shown, grouped := messages, reactions;
      Post(Outgoing(id, user.value, other.value, newMessage, replyingTo, now));
      ghost var stored := db;
      FetchMessages(ok);
      assert InstagramRefetched(stored, user.value, other.value, ok, shown, grouped, messages, reactions);
      assert db == stored;
    }

    /** The successful insert: the row is stored and the draft, reply and typing state are cleared. */
    method Post(m: Message)
      modifies this`db, this`newMessage, this`replyingTo, this`isTyping
      ensures db == old(db).(messages := old(db.messages) + [m])
      ensures newMessage == [] && replyingTo.None? && !isTyping
    {
      db := db.(messages := db.messages + [m]);
      newMessage := [];
      replyingTo := None;
      isTyping := false;
    }

    /**
     * `editMessage`: blank content is rejected before any store call;
     * otherwise the update hits only the user's own row with that id, and on
     * success the edit box is closed and the timeline refetched.
     */
    method EditMessage(id: Id, content: string, now: int, updateOk: bool, ok: Outcomes)
      requires user.Some? && other.Some?
      modifies this`db, this`editingMessage, this`editedContent, this`messages, this`reactions
      ensures IsBlank(content) || !updateOk ==>
        db == old(db) && messages == old(messages) && reactions == old(reactions) &&
        editingMessage == old(editingMessage) && editedContent == old(editedContent)
      ensures !IsBlank(content) && updateOk ==>
        db.messages == ApplyEdit(old(db.messages), id, user.value, content, now) &&
        db.(messages := old(db.messages)) == old(db) &&
        editingMessage.None? && editedContent == [] &&
        InstagramRefetched(db, user.value, other.value, ok, old(messages), old(reactions), messages, reactions)
    {
      if IsBlank(content) || !updateOk {
        return;
      }
      ghost var shown, grouped := messages, reactions;
      db := db.(messages := ApplyEdit(db.messages, id, user.value, content, now));
      editingMessage := None;
      editedContent := [];
      ghost var stored := db;
      FetchMessages(ok);
      assert InstagramRefetched(stored, user.value, other.value, ok, shown, grouped, messages, reactions);
      assert db == stored;
    }

    /** `deleteForEveryone`: flags only the user's own row with that id, then refetches. */
    method DeleteForEveryone(id: Id, now: int, updateOk: bool, ok: Outcomes)
      requires user.Some? && other.Some?
      modifies this`db, this`messages, this`reactions
      ensures !updateOk ==> db == old(db) && messages == old(messages) && reactions == old(reactions)
      ensures updateOk ==>
        db.messages == ApplyDeleteForEveryone(old(db.messages), id, user.value, now) &&
        db.(messages := old(db.messages)) == old(db) &&
        InstagramRefetched(db, user.value, other.value, ok, old(messages), old(reactions), messages, reactions)
    {
      if !updateOk {
        return;
      }
      ghost var shown, grouped := messages, reactions;
      db := db.(messages := ApplyDeleteForEveryone(db.messages, id, user.value, now));
      ghost var stored := db;
      FetchMessages(ok);
      assert InstagramRefetched(stored, user.value, other.value, ok, shown, grouped, messages, reactions);
      assert db == stored;
    }
  }

  /** The enhanced conversation pane: no typing indicator, and the send does not touch one. */
  class EnhancedChat {
    const user: Option<Id>
    const other: Option<Id>
    var db: Store
    var messages: seq<Entry>
    var reactions: map<Id, seq<Reaction>>
    var newMessage: string
    var replyingTo: Option<Id>
    var editingMessage: Option<Id>
    var editedContent: string

    constructor (user: Option<Id>, other: Option<Id>, db: Store)
      ensures this.user == user && this.other == other && this.db == db
      ensures messages == [] && reactions == map[] && newMessage == [] && replyingTo.None?
      ensures editingMessage.None? && editedContent == []
    {
      this.user := user;
      this.other := other;
      this.db := db;
      messages := [];
      reactions := map[];
      newMessage := [];
      replyingTo := None;
      editingMessage := None;
      editedContent := [];
    }

    /** `fetchMessages(other)`: always replaces the timeline; a failed query contributes an empty stream. */
    method FetchMessages(ok: Outcomes)
      modifies this`messages, this`reactions
      ensures user.None? || other.None? ==> messages == old(messages) && reactions == old(reactions)
      ensures user.Some? && other.Some? ==>
        messages == EnhancedFetch(old(db), user.value, other.value, ok) &&
        EnhancedReactionsRefetched(old(db), user.value, other.value, ok, old(reactions), reactions)
    {
      if user.None? || other.None? {
        return;
      }
      var ms := MessagesQuery(db.messages, user.value, other.value, true);
      var fetched := EnhancedFetch(db, user.value, other.value, ok);
      var grouped := reactions;
      if ok.messagesOk && ms != [] && ok.reactionsOk {
        grouped := GroupReactions(ReactionsFor(db.reactions, ms));
      }
      assert EnhancedReactionsRefetched(db, user.value, other.value, ok, reactions, grouped);
      messages, reactions := fetched, grouped;
    }

    /** `sendMessage`: as in the Instagram-style pane, without the typing reset. */
    method SendMessage(id: Id, now: int, insertOk: bool, ok: Outcomes)
      modifies this`db, this`newMessage, this`replyingTo, this`messages, this`reactions
      ensures user.None? || other.None? || IsBlank(old(newMessage)) || !insertOk ==>
        db == old(db) && messages == old(messages) && reactions == old(reactions) &&
        newMessage == old(newMessage) && replyingTo == old(replyingTo)
      ensures user.Some? && other.Some? && !IsBlank(old(newMessage)) && insertOk ==>
        db.messages == old(db.messages) + [Outgoing(id, user.value, other.value, old(newMessage), old(replyingTo), now)] &&
        db.(messages := old(db.messages)) == old(db) &&
        newMessage == [] && replyingTo.None? &&
        messages == EnhancedFetch(db, user.value, other.value, ok) &&
        EnhancedReactionsRefetched(db, user.value, other.value, ok, old(reactions), reactions)
    {
      if user.None? || other.None? || IsBlank(newMessage) || !insertOk {
        return;
      }
      ghost var grouped := reactions;
      Post(Outgoing(id, user.value, other.value, newMessage, replyingTo, now));
      ghost var stored := db;
      FetchMessages(ok);
      assert messages == EnhancedFetch(stored, user.value, other.value, ok);
      assert EnhancedReactionsRefetched(stored, user.value, other.value, ok, grouped, reactions);
      assert db == stored;
    }

    /** The successful insert: the row is stored and the draft and reply state are cleared. */
    method Post(m: Message)
      modifies this`db, this`newMessage, this`replyingTo
      ensures db == old(db).(messages := old(db.messages) + [m])
      ensures newMessage == [] && replyingTo.None?
    {
      db := db.(messages := db.messages + [m]);
      newMessage := [];
      replyingTo := None;
    }

    /** `editMessage`: blank content is rejected before any store call. */
    method EditMessage(id: Id, content: string, now: int, updateOk: bool, ok: Outcomes)
      requires user.Some? && other.Some?
      modifies this`db, this`editingMessage, this`editedContent, this`messages, this`reactions
      ensures IsBlank(content) || !updateOk ==>
        db == old(db) && messages == old(messages) && reactions == old(reactions) &&
        editingMessage == old(editingMessage) && editedContent == old(editedContent)
      ensures !IsBlank(content) && updateOk ==>
        db.messages == ApplyEdit(old(db.messages), id, user.value, content, now) &&
        db.(messages := old(db.messages)) == old(db) &&
        editingMessage.None? && editedContent == [] &&
        messages == EnhancedFetch(db, user.value, other.value, ok) &&
        EnhancedReactionsRefetched(db, user.value, other.value, ok, old(reactions), reactions)
    {
      if IsBlank(content) || !updateOk {
        return;
      }
      ghost var grouped := reactions;
      db := db.(messages := ApplyEdit(db.messages, id, user.value, content, now));
      editingMessage := None;
      editedContent := [];
      ghost var stored := db;
      FetchMessages(ok);
      assert messages == EnhancedFetch(stored, user.value, other.value, ok);
      assert EnhancedReactionsRefetched(stored, user.value, other.value, ok, grouped, reactions);
      assert db == stored;
    }

    /** `deleteForEveryone`: flags only the user's own row with that id, then refetches. */
    method DeleteForEveryone(id: Id, now: int, updateOk: bool, ok: Outcomes)
      requires user.Some? && other.Some?
      modifies this`db, this`messages, this`reactions
      ensures !updateOk ==> db == old(db) && messages == old(messages) && reactions == old(reactions)
      ensures updateOk ==>
        db.messages == ApplyDeleteForEveryone(old(db.messages), id, user.value, now) &&
        db.(messages := old(db.messages)) == old(db) &&
        messages == EnhancedFetch(db, user.value, other.value, ok) &&
        EnhancedReactionsRefetched(db, user.value, other.value, ok, old(reactions), reactions)
    {
      if !updateOk {
        return;
      }
      ghost var grouped := reactions;
      db := db.(messages := ApplyDeleteForEveryone(db.messages, id, user.value, now));
      ghost var stored := db;
      FetchMessages(ok);
      assert messages == EnhancedFetch(stored, user.value, other.value, ok);
      assert EnhancedReactionsRefetched(stored, user.value, other.value, ok, grouped, reactions);
      assert db == stored;
    }
  }

  /** A sent message shows up in the timeline the Instagram-style pane refetches. */
  lemma SentMessageShown(db: Store, id: Id, me: Id, other: Id, draft: string, replyingTo: Option<Id>, now: int, ok: Outcomes)
    requires !IsBlank(draft) && ok.messagesOk
    ensures var m := Outgoing(id, me, other, draft, replyingTo, now);
      var db' := db.(messages := db.messages + [m]);
      MessageEntry(m, ReplyFor(m, db'.messages, ok.repliesOk)) in InstagramFetch(db', me, other, ok).value
  {
    var m := Outgoing(id, me, other, draft, replyingTo, now);
    var db' := db.(messages := db.messages + [m]);
    assert m in db'.messages;
    InstagramShowsEverything(db', me, other, ok, m, Share([], [], [], None, None, 0));
  }
}
