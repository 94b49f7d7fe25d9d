/**
 * The search page: a search fetches matching users and posts, tallies the
 * hashtags of the posts that contain the query, and loads which of the
 * listed users the signed-in user follows; each listed user has a follow
 * button that flips its flag.
 */
module Search {
  import opened Wrappers
  import opened Rows
  import opened Text
  import opened Hashtags

  /**
   * `.eq('follower_id', me).in('following_id', listed)` on the follows
   * table: the `following_id` of each matching row, in table order.
   */
  function FollowedAmong(follows: seq<Follow>, me: Id, listed: seq<Id>): (r: seq<Id>)
    ensures forall k :: k in r <==> Follow(me, k) in follows && k in listed
  {
    if follows == [] then []
    else
      var f := follows[|follows| - 1];
      FollowedAmong(follows[..|follows| - 1], me, listed) + if f.follower == me && f.following in listed then [f.following] else []
  }

  /** A flag of the follow map: a missing key reads as `undefined`, which is falsy. */
  predicate Following(flags: map<Id, bool>, k: Id) {
    k in flags && flags[k]
  }

  /** The `delete().eq('follower_id', me).eq('following_id', target)` on the follows table. */
  function Unfollowed(follows: seq<Follow>, me: Id, target: Id): (r: seq<Follow>)
    ensures forall f :: f in r <==> f in follows && f != Follow(me, target)
    ensures |r| <= |follows|
  {
    if follows == [] then []
    else
      var f := follows[|follows| - 1];
      Unfollowed(follows[..|follows| - 1], me, target) + if f == Follow(me, target) then [] else [f]
  }

  /** Unfollowing undoes a follow: the rows are those before it, less any older copy of the pair. */
  lemma {:induction false} FollowThenUnfollow(follows: seq<Follow>, me: Id, target: Id)
    ensures Unfollowed(follows + [Follow(me, target)], me, target) == Unfollowed(follows, me, target)
  {
    var grown := follows + [Follow(me, target)];
    assert grown[..|grown| - 1] == follows;
  }

  /** Unfollowing leaves every other pair's rows, in order. */
  lemma {:induction false} UnfollowKeepsOthers(follows: seq<Follow>, me: Id, target: Id)
    requires Follow(me, target) !in follows
    ensures Unfollowed(follows, me, target) == follows
  {
    if follows != [] {
      var init := follows[..|follows| - 1];
      var last := follows[|follows| - 1];
      assert follows == init + [last];
      assert Follow(me, target) !in init;
      UnfollowKeepsOthers(init, me, target);
    }
  }

  /** The follow notice sent to `target`. */
  function FollowNotice(target: Id, me: Id): Notice {
    Notice(target, me, "follow", None, "started following you")
  }

  class SearchPage {
    const user: Option<Id>
    /** The `follows` and `notifications` tables. */
    var follows: seq<Follow>
    var notices: seq<Notice>
    /** The listed users' ids and the fetched posts' texts. */
    var users: seq<Id>
    var posts: seq<string>
    var hashtags: seq<TagCount>
    var followMap: map<Id, bool>
    var loadingMap: map<Id, bool>

    constructor (user: Option<Id>, follows: seq<Follow>)
      ensures this.user == user && this.follows == follows && notices == []
      ensures users == [] && posts == [] && hashtags == []
      ensures followMap == map[] && loadingMap == map[]
    {
      this.user := user;
      this.follows := follows;
      notices := [];
      users := [];
      posts := [];
      hashtags := [];
      followMap := map[];
      loadingMap := map[];
    }

    /**
     * `fetchFollowStatus(listed)`: with a user and a successful read, the
     * map holds `true` exactly for the listed users the user follows; with
     * no user or a failed read the map is left as it was.
     */
    method FetchFollowStatus(listed: seq<Id>, ok: bool)
      modifies this`followMap
      ensures user.Some? && ok ==> forall k :: k in followMap <==> Follow(user.value, k) in follows && k in listed
      ensures user.Some? && ok ==> forall k :: k in followMap ==> followMap[k]
      ensures !(user.Some? && ok) ==> followMap == old(followMap)
    {
      if user.None? || !ok {
        return;
      }
      var rows := FollowedAmong(follows, user.value, listed);
      var flags: map<Id, bool> := map[];
      var i := 0;
      while i < |rows|
        invariant 0 <= i <= |rows|
        invariant forall k :: k in flags <==> k in rows[..i]
        invariant forall k :: k in flags ==> flags[k]
      {
        assert rows[..i + 1] == rows[..i] + [rows[i]];
        flags := flags[rows[i] := true];
        i := i + 1;
      }
      assert rows[..i] == rows;
      followMap := flags;
    }

    /**
     * `performSearch(q)`: nothing on a blank query. Otherwise the listed
     * users and posts are the fetched ones (empty on a failed read), the
     * hashtags are the tally of the posts' tags that contain the
     * lower-cased query, and the follow flags are reloaded for the listed
     * users.
     */
    method PerformSearch(q: string, usersData: Option<seq<Id>>, postsData: Option<seq<string>>, followOk: bool)
      modifies this`users, this`posts, this`hashtags, this`followMap
      ensures IsBlank(q) ==> users == old(users) && posts == old(posts) && hashtags == old(hashtags) && followMap == old(followMap)
      ensures !IsBlank(q) ==> users == usersData.GetOr([]) && posts == postsData.GetOr([])
      ensures !IsBlank(q) ==> hashtags == Tally(SearchTags(postsData.GetOr([]), q))
      ensures !IsBlank(q) && user.Some? && followOk ==>
        forall k :: Following(followMap, k) <==> Follow(user.value, k) in follows && k in users
      ensures !IsBlank(q) && !(user.Some? && followOk) ==> followMap == old(followMap)
    {
      if IsBlank(q) {
        return;
      }
      var tally := [];
      if postsData.Some? {
        tally := SearchTally(postsData.value, q);
      }
      users := usersData.GetOr([]);
      posts := postsData.GetOr([]);
      hashtags := tally;
      FetchFollowStatus(users, followOk);
    }

    /**
     * `toggleFollow(target)`: refused without a user or on oneself.
     * Otherwise the target's flag flips whatever the store answers; on a
     * successful write the follows table gains or loses the pair, and only a
     * follow sends a notice. The loading flag ends false.
     */
    method ToggleFollow(target: Id, storeOk: bool, noticeOk: bool)
      modifies this`follows, this`notices, this`followMap, this`loadingMap
      ensures user.None? || user == Some(target) ==>
        follows == old(follows) && notices == old(notices) && followMap == old(followMap) && loadingMap == old(loadingMap)
      ensures user.Some? && user != Some(target) ==>
        followMap == old(followMap)[target := !Following(old(followMap), target)] &&
        loadingMap == old(loadingMap)[target := false]
      ensures user.Some? && user != Some(target) ==>
        follows == (if !storeOk then old(follows)
                    else if Following(old(followMap), target) then Unfollowed(old(follows), user.value, target)
                    else old(follows) + [Follow(user.value, target)])
      ensures user.Some? && user != Some(target) ==>
        notices == old(notices) + if !Following(old(followMap), target) && noticeOk then [FollowNotice(target, user.value)] else []
      ensures user.Some? && storeOk && (Following(old(followMap), target) <==> Follow(user.value, target) in old(follows)) ==>
        (Following(followMap, target) <==> Follow(user.value, target) in follows)
    {
      if user.None? || user.value == target {
        return;
      }
      var me := user.value;
      loadingMap := loadingMap[target := true];
      var isFollowing := target in followMap && followMap[target];
      if isFollowing {
        if storeOk {
          follows := Unfollowed(follows, me, target);
        }
        followMap := followMap[target := false];
      } else {
        if storeOk {
          follows := follows + [Follow(me, target)];
        }
        followMap := followMap[target := true];
        if noticeOk {
          notices := notices + [FollowNotice(target, me)];
        }
      }
      loadingMap := loadingMap[target := false];
    }
  }
}
