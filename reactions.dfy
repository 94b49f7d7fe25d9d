/**
 * The reaction bar under a message: the per-emoji count chips, the user's own
 * reaction, and the two ways of reacting — clicking a count chip (a toggle)
 * and picking from the popover (always an add) — which write the
 * `message_reactions` table.
 */
module Reactions {
  import opened Wrappers
  import opened Rows
  import opened Buckets

  function TypeOf(r: Reaction): string { r.reactionType }

  /** `reactions.find(r => r.user_id === user.id)`: the first reaction of the user. */
  function FindByUser(shown: seq<Reaction>, user: Id): (r: Option<Reaction>)
    ensures r.None? <==> forall x :: x in shown ==> x.userId != user
    ensures r.Some? ==> exists i :: (0 <= i < |shown| && shown[i] == r.value && r.value.userId == user &&
      forall j :: 0 <= j < i ==> shown[j].userId != user)
  {
    if shown == [] then None
    else if shown[0].userId == user then
      Some(shown[0])
    else
      var r := FindByUser(shown[1..], user);
      assert forall x :: x in shown ==> x == shown[0] || x in shown[1..];
      if r.Some? then
        var i :| 0 <= i < |shown[1..]| && shown[1..][i] == r.value && r.value.userId == user &&
          forall j :: 0 <= j < i ==> shown[1..][j].userId != user;
        assert shown[i + 1] == r.value;
        r
      else r
  }

  /** `userReaction`: nothing without a signed-in user. */
  function UserReaction(shown: seq<Reaction>, user: Option<Id>): Option<Reaction> {
    if user.None? then None else FindByUser(shown, user.value)
  }

  /** `counts` has a key for each type present in `shown`, holding how many reactions have it. */
  ghost predicate CountsOf(shown: seq<Reaction>, counts: map<string, nat>) {
    (forall t :: t in counts <==> t in Keys(shown, TypeOf)) &&
    (forall t :: t in counts ==> counts[t] == |Bucket(shown, TypeOf, t)|)
  }

  /**
   * `reactionCounts`: the `reduce` that adds one per reaction under its
   * type. Its keys, in insertion order, are `Keys(shown, TypeOf)`.
   */
  function Counts(shown: seq<Reaction>): (counts: map<string, nat>)
    ensures CountsOf(shown, counts)
  {
    if shown == [] then map[]
    else
      var init := shown[..|shown| - 1];
      assert shown == init + [shown[|shown| - 1]];
      CountStep(init, shown[|shown| - 1], Counts(init))
  }

  /** One step of the `reduce`: `acc[type] = (acc[type] || 0) + 1`. */
  function CountStep(done: seq<Reaction>, x: Reaction, counts: map<string, nat>): (next: map<string, nat>)
    requires CountsOf(done, counts)
    ensures CountsOf(done + [x], next)
  {
    KeysSnoc(done, x, TypeOf);
    CountsAfterStep(done, x, counts);
    if x.reactionType in counts then counts[x.reactionType := counts[x.reactionType] + 1]
    else counts[x.reactionType := 1]
  }

  lemma CountsAfterStep(done: seq<Reaction>, x: Reaction, counts: map<string, nat>)
    requires CountsOf(done, counts)
    ensures var next := if x.reactionType in counts then counts[x.reactionType := counts[x.reactionType] + 1]
                        else counts[x.reactionType := 1];
      forall t :: t in next ==> next[t] == |Bucket(done + [x], TypeOf, t)|
  {
    if x.reactionType !in counts {
      BucketEmpty(done, TypeOf, x.reactionType);
    }
    forall t ensures Bucket(done + [x], TypeOf, t) == Bucket(done, TypeOf, t) + (if x.reactionType == t then [x] else []) {
      BucketSnoc(done, x, TypeOf, t);
    }
  }

  /** A chip is shown exactly for each type present, and the counts add up to the number of reactions. */
  lemma CountsSum(shown: seq<Reaction>)
    ensures forall t :: t in Counts(shown) <==> exists r :: r in shown && r.reactionType == t
    ensures SumSizes(shown, TypeOf, Keys(shown, TypeOf)) == |shown|
  {
    BucketSizesSum(shown, TypeOf);
  }

  /** The update `.update({ reaction_type }).eq('id', id)`. */
  function SetType(rows: seq<Reaction>, id: Id, t: string): (r: seq<Reaction>)
    ensures |r| == |rows|
    ensures forall i :: 0 <= i < |rows| ==> r[i].id == rows[i].id && r[i].messageId == rows[i].messageId && r[i].userId == rows[i].userId
    ensures forall i :: 0 <= i < |rows| ==> r[i].reactionType == if rows[i].id == id then t else rows[i].reactionType
  {
    seq(|rows|, i requires 0 <= i < |rows| => if rows[i].id == id then rows[i].(reactionType := t) else rows[i])
  }

  predicate OwnedBy(r: Reaction, messageId: Id, user: Id) {
    r.messageId == messageId && r.userId == user
  }

  /** The delete `.eq('message_id', messageId).eq('user_id', user)`. */
  function Unreact(rows: seq<Reaction>, messageId: Id, user: Id): (r: seq<Reaction>)
    ensures forall x :: x in r ==> x in rows && !OwnedBy(x, messageId, user)
    ensures forall x :: x in rows && !OwnedBy(x, messageId, user) ==> x in r
  {
    Filter(rows, (x: Reaction) => !OwnedBy(x, messageId, user))
  }

  /** Each user has at most one reaction on the message. */
  ghost predicate OnePerUser(rows: seq<Reaction>, messageId: Id) {
    forall i, j :: 0 <= i < j < |rows| && rows[i].messageId == messageId && rows[j].messageId == messageId ==>
      rows[i].userId != rows[j].userId
  }

  ghost predicate UniqueReactionIds(rows: seq<Reaction>) {
    forall i, j :: 0 <= i < j < |rows| ==> rows[i].id != rows[j].id
  }

  /** The reaction bar of one message, over the reaction table it writes. */
  class ReactionBar {
    const messageId: Id
    const user: Option<Id>
    /** The `message_reactions` table. */
    var rows: seq<Reaction>
    var isOpen: bool

    constructor (messageId: Id, user: Option<Id>, rows: seq<Reaction>)
      ensures this.messageId == messageId && this.user == user && this.rows == rows && !isOpen
    {
      this.messageId := messageId;
      this.user := user;
      this.rows := rows;
      isOpen := false;
    }

    /**
     * `addReaction(t)`, given the reactions the bar shows: an existing
     * reaction of the user is retyped in place, otherwise one row is
     * inserted. Store errors are not reported, so the popover closes either way.
     */
    method AddReaction(shown: seq<Reaction>, t: string, newId: Id, storeOk: bool)
      modifies this`rows, this`isOpen
      ensures user.None? ==> rows == old(rows) && isOpen == old(isOpen)
      ensures user.Some? ==> !isOpen
      ensures user.Some? && storeOk && FindByUser(shown, user.value).Some? ==>
        rows == SetType(old(rows), FindByUser(shown, user.value).value.id, t)
      ensures user.Some? && storeOk && FindByUser(shown, user.value).None? ==>
        rows == old(rows) + [Reaction(newId, messageId, user.value, t)]
      ensures !storeOk ==> rows == old(rows)
    {
      if user.None? {
        return;
      }
      if storeOk {
        var existing := FindByUser(shown, user.value);
        if existing.Some? {
          rows := SetType(rows, existing.value.id, t);
        } else {
          rows := rows + [Reaction(newId, messageId, user.value, t)];
        }
      }
      isOpen := false;
    }

    /** `removeReaction`: deletes every row of this user on this message and no other. */
    method RemoveReaction(storeOk: bool)
      modifies this`rows
      ensures user.Some? && storeOk ==> rows == Unreact(old(rows), messageId, user.value)
      ensures user.None? || !storeOk ==> rows == old(rows)
    {
      if user.None? || !storeOk {
        return;
      }
      rows := Unreact(rows, messageId, user.value);
    }

    /** A count chip: removes the user's reaction when it has that emoji, else switches to it. */
    method ChipClick(shown: seq<Reaction>, emoji: string, newId: Id, storeOk: bool)
      modifies this`rows, this`isOpen
      ensures var mine := UserReaction(shown, user);
        mine.Some? && mine.value.reactionType == emoji ==>
        isOpen == old(isOpen) && (storeOk ==> rows == Unreact(old(rows), messageId, user.value))
      ensures var mine := UserReaction(shown, user);
        mine.Some? && mine.value.reactionType != emoji && storeOk ==>
        rows == SetType(old(rows), mine.value.id, emoji)
      ensures user.Some? && UserReaction(shown, user).None? && storeOk ==>
        rows == old(rows) + [Reaction(newId, messageId, user.value, emoji)]
      ensures var mine := UserReaction(shown, user);
        user.Some? && !(mine.Some? && mine.value.reactionType == emoji) ==> !isOpen
      ensures !storeOk ==> rows == old(rows)
      ensures user.None? ==> rows == old(rows) && isOpen == old(isOpen)
    {
      var mine := UserReaction(shown, user);
      if mine.Some? && mine.value.reactionType == emoji {
        RemoveReaction(storeOk);
      } else {
        AddReaction(shown, emoji, newId, storeOk);
      }
    }

    /** A popover emoji: always `addReaction`, never a toggle. */
    method PopoverPick(shown: seq<Reaction>, emoji: string, newId: Id, storeOk: bool)
      modifies this`rows, this`isOpen
      ensures var mine := UserReaction(shown, user);
        mine.Some? && storeOk ==> rows == SetType(old(rows), mine.value.id, emoji)
      ensures user.Some? && UserReaction(shown, user).None? && storeOk ==>
        rows == old(rows) + [Reaction(newId, messageId, user.value, emoji)]
      ensures user.Some? ==> !isOpen
      ensures user.None? || !storeOk ==> rows == old(rows)
    {
      AddReaction(shown, emoji, newId, storeOk);
    }
  }

  /**
   * Re-picking the current emoji from the popover leaves the table as it was,
   * while clicking its chip removes the reaction.
   */
  lemma PopoverIsNotAToggle(rows: seq<Reaction>, messageId: Id, user: Id, shown: seq<Reaction>, emoji: string)
    requires UniqueReactionIds(rows)
    requires FindByUser(shown, user).Some? && FindByUser(shown, user).value in rows
    requires FindByUser(shown, user).value.reactionType == emoji
    ensures SetType(rows, FindByUser(shown, user).value.id, emoji) == rows
    ensures FindByUser(shown, user).value !in Unreact(rows, messageId, user) <==> FindByUser(shown, user).value.messageId == messageId
  {
    var mine := FindByUser(shown, user).value;
    var r := SetType(rows, mine.id, emoji);
    forall i | 0 <= i < |rows|
      ensures r[i] == rows[i]
    {
      if rows[i].id == mine.id {
        var j :| 0 <= j < |rows| && rows[j] == mine;
        assert i == j;
      }
    }
  }

  /** Retyping changes no row's message or user, so at most one reaction per user is kept. */
  lemma SetTypeKeepsOnePerUser(rows: seq<Reaction>, messageId: Id, id: Id, t: string)
    requires OnePerUser(rows, messageId)
    ensures OnePerUser(SetType(rows, id, t), messageId)
  {
  }

  /**
   * Inserting is done only when the shown reactions (all of the message's
   * rows) hold none of the user's, so at most one reaction per user is kept.
   */
  lemma InsertKeepsOnePerUser(rows: seq<Reaction>, messageId: Id, user: Id, shown: seq<Reaction>, newId: Id, t: string)
    requires OnePerUser(rows, messageId)
    requires shown == Bucket(rows, MessageIdOf, messageId)
    requires FindByUser(shown, user).None?
    ensures OnePerUser(rows + [Reaction(newId, messageId, user, t)], messageId)
  {
    var r := rows + [Reaction(newId, messageId, user, t)];
    forall i, j | 0 <= i < j < |r| && r[i].messageId == messageId && r[j].messageId == messageId
      ensures r[i].userId != r[j].userId
    {
      if j == |rows| {
        assert rows[i] in shown;
      }
    }
  }

  /** After a remove, the user has no reaction on the message and every other row is kept. */
  lemma UnreactClears(rows: seq<Reaction>, messageId: Id, user: Id)
    ensures FindByUser(Bucket(Unreact(rows, messageId, user), MessageIdOf, messageId), user).None?
    ensures forall x :: x in rows && !OwnedBy(x, messageId, user) ==> x in Unreact(rows, messageId, user)
  {
  }
}
