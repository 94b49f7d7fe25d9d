/**
 * The trending panel on the home page: the five most used hashtags of the
 * recent posts, three suggested users the signed-in user does not follow,
 * and a follow button that inserts the follow and raises both users'
 * counters from values read just before.
 */
module Trending {
  import opened Wrappers
  import opened Rows
  import opened StableSort
  import opened Hashtags

  /** The columns of a `users` row that the panel reads and writes. */
  datatype UserRow = UserRow(id: Id, followersCount: int, followingCount: int)

  /** `id` is the primary key of the `users` table. */
  ghost predicate UniqueIds(people: seq<UserRow>) {
    forall i, j :: 0 <= i < j < |people| ==> people[i].id != people[j].id
  }

  /** `.eq('id', id).single()`: the row with that id, if any. */
  function FindUser(people: seq<UserRow>, id: Id): (r: Option<UserRow>)
    ensures r.Some? ==> r.value in people && r.value.id == id
    ensures r.None? ==> forall u :: u in people ==> u.id != id
  {
    if people == [] then None
    else if people[0].id == id then Some(people[0])
    else FindUser(people[1..], id)
  }

  /** With unique ids, the row found is the one at the index holding that id. */
  lemma {:induction false} FindUserAt(people: seq<UserRow>, i: nat)
    requires UniqueIds(people) && i < |people|
    ensures FindUser(people, people[i].id) == Some(people[i])
  {
    if i > 0 && people[0].id != people[i].id {
      assert UniqueIds(people[1..]) by {
        forall a, b | 0 <= a < b < |people| - 1
          ensures people[1..][a].id != people[1..][b].id
        {
          assert people[1..][a] == people[a + 1] && people[1..][b] == people[b + 1];
        }
      }
      assert people[1..][i - 1] == people[i];
      FindUserAt(people[1..], i - 1);
    }
  }

  /** `(read?.count || 0) + 1`: a failed read, a missing row or a zero count all count from 0. */
  function OnePlus(read: Option<int>): int {
    read.GetOr(0) + 1
  }

  /**
   * `.update({ following_count: v }).eq('id', id)` and `.update({ followers_count: v }).eq('id', id)`;
   * `None` is a write the store refused, which changes no row.
   */
  function SetCounts(people: seq<UserRow>, me: Id, following: Option<int>, target: Id, followers: Option<int>): (r: seq<UserRow>)
    ensures |r| == |people|
    ensures forall i :: 0 <= i < |r| ==> r[i].id == people[i].id
    ensures forall i :: 0 <= i < |r| ==>
      r[i].followingCount == if following.Some? && people[i].id == me then following.value else people[i].followingCount
    ensures forall i :: 0 <= i < |r| ==>
      r[i].followersCount == if followers.Some? && people[i].id == target then followers.value else people[i].followersCount
  {
    seq(|people|, i requires 0 <= i < |people| =>
      var u := people[i];
      u.(followingCount := if following.Some? && u.id == me then following.value else u.followingCount,
         followersCount := if followers.Some? && u.id == target then followers.value else u.followersCount))
  }

  /**
   * The rows after `handleFollow(target)`: both counts are read before
   * either is written, then each is written back plus one; a refused write
   * leaves its count as it was.
   */
  function AfterFollow(people: seq<UserRow>, me: Id, target: Id, readMeOk: bool, readTargetOk: bool,
                       writeMeOk: bool, writeTargetOk: bool): seq<UserRow> {
    var mine := if readMeOk then FindUser(people, me) else None;
    var theirs := if readTargetOk then FindUser(people, target) else None;
    SetCounts(people,
      me, if writeMeOk then Some(OnePlus(if mine.Some? then Some(mine.value.followingCount) else None)) else None,
      target, if writeTargetOk then Some(OnePlus(if theirs.Some? then Some(theirs.value.followersCount) else None)) else None)
  }

  /**
   * With both reads answered, the follower's `following_count` and the
   * target's `followers_count` each go up by exactly one, and nothing else
   * changes.
   */
  lemma FollowRaisesBothCounts(people: seq<UserRow>, me: Id, target: Id, i: nat)
    requires UniqueIds(people) && i < |people|
    ensures var r := AfterFollow(people, me, target, true, true, true, true);
      |r| == |people| && r[i].id == people[i].id &&
      r[i].followingCount == people[i].followingCount + (if people[i].id == me then 1 else 0) &&
      r[i].followersCount == people[i].followersCount + (if people[i].id == target then 1 else 0)
  {
    FindUserAt(people, i);
  }

  /** The ids a suggestion must not have: the followed ones (none on a failed read) and the user's own. */
  function Excluded(followed: Option<seq<Id>>, me: Id): (r: seq<Id>)
    ensures me in r
    ensures forall k :: k in r <==> k == me || (followed.Some? && k in followed.value)
  {
    followed.GetOr([]) + [me]
  }

  function NegFollowers(u: UserRow): int { -u.followersCount }

  /** The users not excluded, in table order. */
  function NotIn(people: seq<UserRow>, excl: seq<Id>): (r: seq<UserRow>)
    ensures forall u :: u in r <==> u in people && u.id !in excl
  {
    if people == [] then []
    else
      var u := people[|people| - 1];
      NotIn(people[..|people| - 1], excl) + if u.id in excl then [] else [u]
  }

  /**
   * `.not('id', 'in', excl).order('followers_count', desc).limit(3)`: at
   * most three users outside the exclusion list, most followed first.
   */
  function Suggestions(people: seq<UserRow>, excl: seq<Id>): (r: seq<UserRow>)
    ensures |r| <= 3
    ensures forall u :: u in r ==> u in people && u.id !in excl
    ensures forall i, j :: 0 <= i < j < |r| ==> r[i].followersCount >= r[j].followersCount
  {
    var pool := NotIn(people, excl);
    var sorted := SortBy(pool, NegFollowers);
    SortBySorted(pool, NegFollowers);
    SortByMembers(pool, NegFollowers);
    sorted[..if |sorted| < 3 then |sorted| else 3]
  }

  /** A user left out of the suggestions has no more followers than any suggested one. */
  lemma SuggestionsAreTop(people: seq<UserRow>, excl: seq<Id>, u: UserRow)
    requires u in people && u.id !in excl && u !in Suggestions(people, excl)
    ensures |Suggestions(people, excl)| == 3
    ensures forall v :: v in Suggestions(people, excl) ==> v.followersCount >= u.followersCount
  {
    var pool := NotIn(people, excl);
    var sorted := SortBy(pool, NegFollowers);
    SortBySorted(pool, NegFollowers);
    SortByMembers(pool, NegFollowers);
    var top := Suggestions(people, excl);
    var n := |top|;
    assert top == sorted[..n];
    var j :| 0 <= j < |sorted| && sorted[j] == u;
    forall v | v in top
      ensures v.followersCount >= u.followersCount
    {
      var i :| 0 <= i < n && top[i] == v;
      assert sorted[i] == v;
    }
  }

  class TrendingPanel {
    const user: Option<Id>
    /** The `users` and `follows` tables. */
    var people: seq<UserRow>
    var follows: seq<Follow>
    var topics: seq<TagCount>
    var suggested: seq<UserRow>

    ghost predicate Valid()
      reads this`people
    {
      UniqueIds(people)
    }

    constructor (user: Option<Id>, people: seq<UserRow>, follows: seq<Follow>)
      requires UniqueIds(people)
      ensures Valid()
      ensures this.user == user && this.people == people && this.follows == follows
      ensures topics == [] && suggested == []
    {
      this.user := user;
      this.people := people;
      this.follows := follows;
      topics := [];
      suggested := [];
    }

    /** `fetchTrendingTopics`: the tally of the fetched texts, ranked; a failed read tallies nothing. */
    method FetchTrending(posts: Option<seq<string>>)
      modifies this`topics
      ensures topics == Trending(posts.GetOr([]))
    {
      var counts := TrendingTally(posts.GetOr([]));
      topics := Top5(counts);
    }

    /**
     * `fetchSuggestedUsers`: without a user nothing happens. Otherwise the
     * suggestions are read with the user's followed ids (none when that read
     * fails) and the user's own id excluded; a failed read of the users shows
     * no suggestions.
     */
    method FetchSuggested(followedOk: bool, usersOk: bool)
      modifies this`suggested
      ensures user.None? ==> suggested == old(suggested)
      ensures user.Some? && usersOk ==>
        suggested == Suggestions(people, Excluded(if followedOk then Some(FollowingOf(follows, user.value)) else None, user.value))
      ensures user.Some? && !usersOk ==> suggested == []
      ensures user.Some? ==> forall u :: u in suggested ==> u.id != user.value
      ensures user.Some? && followedOk ==> forall u :: u in suggested ==> Follow(user.value, u.id) !in follows
    {
      if user.None? {
        return;
      }
      if !usersOk {
        suggested := [];
        return;
      }
      var followed := if followedOk then Some(FollowingOf(follows, user.value)) else None;
      suggested := Suggestions(people, Excluded(followed, user.value));
    }

    /**
     * `handleFollow(target)`: without a user nothing happens. Otherwise the
     * follow is inserted when the store accepts it, and both counters are
     * raised whether or not it did, each when its own write is accepted. The refetch of suggestions that follows
     * is a separate `FetchSuggested` event.
     */
    method HandleFollow(target: Id, insertOk: bool, readMeOk: bool, readTargetOk: bool, writeMeOk: bool, writeTargetOk: bool)
      requires Valid()
      modifies this`people, this`follows
      ensures Valid()
      ensures user.None? ==> people == old(people) && follows == old(follows)
      ensures user.Some? ==> follows == old(follows) + if insertOk then [Follow(user.value, target)] else []
      ensures user.Some? ==> people == AfterFollow(old(people), user.value, target, readMeOk, readTargetOk, writeMeOk, writeTargetOk)
    {
      if user.None? {
        return;
      }
      var me := user.value;
      if insertOk {
        follows := follows + [Follow(me, target)];
      }
      people := AfterFollow(people, me, target, readMeOk, readTargetOk, writeMeOk, writeTargetOk);
    }
  }

  /** `.select('following_id').eq('follower_id', me)` on the follows table. */
  function FollowingOf(follows: seq<Follow>, me: Id): (r: seq<Id>)
    ensures forall k :: k in r <==> Follow(me, k) in follows
  {
    if follows == [] then []
    else
      var f := follows[|follows| - 1];
      FollowingOf(follows[..|follows| - 1], me) + if f.follower == me then [f.following] else []
  }
}
