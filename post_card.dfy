/**
 * One post in the feed with its like, save and follow buttons and the
 * owner's edit and delete actions. A like or follow runs in two steps: the
 * press guards against a second press, writes to the store and marks the
 * action in flight; the settle step, after the store has answered, updates
 * the card and clears the in-flight flag.
 */
module PostCards {
  import opened Wrappers
  import opened Rows

  /** `Math.max(0, c)`. */
  function ClampZero(c: int): (r: nat)
    ensures r >= c && (c >= 0 ==> r == c)
  {
    if c < 0 then 0 else c
  }

  /** The card's like count after the like settles: one up, or one down but never below zero. */
  function LikeCount(c: int, wasLiked: bool): (r: int)
    ensures wasLiked ==> r == ClampZero(c - 1)
    ensures !wasLiked ==> r == c + 1
  {
    if wasLiked then ClampZero(c - 1) else c + 1
  }

  /** Like then unlike gives back any count that was not negative. */
  lemma LikeThenUnlike(c: nat)
    ensures LikeCount(LikeCount(c, false), true) == c
  {
  }

  /** Unlike then like does not give back zero: the clamp loses the step below zero. */
  lemma UnlikeThenLikeAtZero()
    ensures LikeCount(LikeCount(0, true), false) == 1
  {
  }

  /** From a count that is not negative, a like or unlike never goes below zero. */
  lemma LikeCountNonNegative(c: nat, wasLiked: bool)
    ensures LikeCount(c, wasLiked) >= 0
  {
  }

  /** `saved_count` after a save or unsave, from the count just read (0 when the read failed). */
  function SavedCount(read: Option<int>, wasSaved: bool): (r: int)
    ensures wasSaved ==> r == ClampZero(read.GetOr(0) - 1)
    ensures !wasSaved ==> r == read.GetOr(0) + 1
  {
    if wasSaved then ClampZero(read.GetOr(0) - 1) else read.GetOr(0) + 1
  }

  /** The columns of the post's row that the card writes. */
  datatype PostRow = PostRow(userId: Id, content: string, isEdited: bool, likesCount: int, savedCount: int)

  /** Every row of a table but those equal to `x`. */
  function Without<T(==,!new)>(xs: seq<T>, x: T): (r: seq<T>)
    ensures forall y :: y in r <==> y in xs && y != x
  {
    if xs == [] then []
    else Without(xs[..|xs| - 1], x) + if xs[|xs| - 1] == x then [] else [xs[|xs| - 1]]
  }

  class PostCard {
    const user: Option<Id>
    const postId: Id
    const ownerId: Id
    /** This post's row (absent once deleted), its likers and savers, and the follows and notifications tables. */
    var row: Option<PostRow>
    var likes: seq<Id>
    var saves: seq<Id>
    var follows: seq<Follow>
    var notices: seq<Notice>
    /** What the card shows. */
    var isLiked: bool
    var isSaved: bool
    var isFollowing: bool
    var likesCount: int
    var content: string
    var isEdited: bool
    /** In-flight flags, with the branch each pending action took. */
    var isLiking: bool
    var likeBranch: Option<bool>
    var isFollowLoading: bool
    var followBranch: Option<bool>

    /** A flag is up exactly while its action is pending. */
    ghost predicate Valid()
      reads this`isLiking, this`likeBranch, this`isFollowLoading, this`followBranch
    {
      (isLiking <==> likeBranch.Some?) && (isFollowLoading <==> followBranch.Some?)
    }

    predicate IsOwner()
    {
      user == Some(ownerId)
    }

    constructor (user: Option<Id>, postId: Id, row: PostRow, likes: seq<Id>, saves: seq<Id>, follows: seq<Follow>)
      ensures Valid()
      ensures this.user == user && this.postId == postId && ownerId == row.userId
      ensures this.row == Some(row) && this.likes == likes && this.saves == saves && this.follows == follows
      ensures notices == [] && !isLiked && !isSaved && !isFollowing
      ensures likesCount == row.likesCount && content == row.content && isEdited == row.isEdited
      ensures !isLiking && !isFollowLoading
    {
      this.user := user;
      this.postId := postId;
      ownerId := row.userId;
      this.row := Some(row);
      this.likes := likes;
      this.saves := saves;
      this.follows := follows;
      notices := [];
      isLiked := false;
      isSaved := false;
      isFollowing := false;
      likesCount := row.likesCount;
      content := row.content;
      isEdited := row.isEdited;
      isLiking := false;
      likeBranch := None;
      isFollowLoading := false;
      followBranch := None;
    }

    /**
     * The mount effect, run only with a user: `checkIfLiked`, `checkIfSaved`
     * and `checkIfFollowing` each read with `.single()`, which yields a row
     * only when exactly one matches, so a failed read or zero or several
     * matching rows leave the flag false; one's own post is not checked for
     * a follow. `fetchRealTimeCounts` sets the like count to the number of
     * the post's like rows, or 0 when the count read fails.
     */
    method Mount(likedOk: bool, savedOk: bool, followingOk: bool, countOk: bool)
      modifies this`isLiked, this`isSaved, this`isFollowing, this`likesCount
      ensures user.None? ==>
        isLiked == old(isLiked) && isSaved == old(isSaved) && isFollowing == old(isFollowing) && likesCount == old(likesCount)
      ensures user.Some? ==> (isLiked <==> likedOk && multiset(likes)[user.value] == 1)
      ensures user.Some? ==> (isSaved <==> savedOk && multiset(saves)[user.value] == 1)
      ensures user.Some? && user.value != ownerId ==>
        (isFollowing <==> followingOk && multiset(follows)[Follow(user.value, ownerId)] == 1)
      ensures user.Some? && user.value == ownerId ==> isFollowing == old(isFollowing)
      ensures user.Some? ==> likesCount == (if countOk then |likes| else 0)
    {
      if user.None? {
        return;
      }
      var me := user.value;
      isLiked := likedOk && multiset(likes)[me] == 1;
      isSaved := savedOk && multiset(saves)[me] == 1;
      if me != ownerId {
        isFollowing := followingOk && multiset(follows)[Follow(me, ownerId)] == 1;
      }
      likesCount := if countOk then |likes| else 0;
    }

    /**
     * The press of `handleLike`: ignored without a user or while a like is
     * in flight. Otherwise the like row is removed or added, the stored count
     * is written from the count the card shows, and a like of someone
     * else's post notifies its owner. No write's error is read: each of the
     * three writes has its own outcome, and a failed one leaves its table as
     * it was while the card goes on.
     */
    method PressLike(likeOk: bool, countOk: bool, noticeOk: bool)
      requires Valid()
      modifies this`likes, this`row, this`notices, this`isLiking, this`likeBranch
      ensures Valid()
      ensures user.None? || old(isLiking) ==>
        likes == old(likes) && row == old(row) && notices == old(notices) && isLiking == old(isLiking) && likeBranch == old(likeBranch)
      ensures user.Some? && !old(isLiking) ==> isLiking && likeBranch == Some(isLiked)
      ensures user.Some? && !old(isLiking) ==>
        likes == (if !likeOk then old(likes) else if isLiked then Without(old(likes), user.value) else old(likes) + [user.value])
      ensures user.Some? && !old(isLiking) ==>
        row == (if old(row).None? || !countOk then old(row) else Some(old(row).value.(likesCount := LikeCount(likesCount, isLiked))))
      ensures user.Some? && !old(isLiking) ==>
        notices == old(notices) + if noticeOk && !isLiked && ownerId != user.value then [Notice(ownerId, user.value, "like", Some(postId), "liked your post")] else []
    {
      if user.None? || isLiking {
        return;
      }
      var me := user.value;
      isLiking := true;
      likeBranch := Some(isLiked);
      if likeOk {
        if isLiked {
          likes := Without(likes, me);
        } else {
          likes := likes + [me];
        }
      }
      if row.Some? && countOk {
        row := Some(row.value.(likesCount := LikeCount(likesCount, isLiked)));
      }
      if noticeOk && !isLiked && ownerId != me {
        notices := notices + [Notice(ownerId, me, "like", Some(postId), "liked your post")];
      }
    }

    /** The settle of `handleLike`: the card flips to the other state and moves its count, then the flag drops. */
    method SettleLike()
      requires Valid()
      modifies this`isLiked, this`likesCount, this`isLiking, this`likeBranch
      ensures Valid()
      ensures old(likeBranch).None? ==> isLiked == old(isLiked) && likesCount == old(likesCount) && !isLiking
      ensures old(likeBranch).Some? ==>
        isLiked == !old(likeBranch).value && likesCount == LikeCount(old(likesCount), old(likeBranch).value) && !isLiking
      ensures likeBranch.None?
    {
      if likeBranch.Some? {
        var wasLiked := likeBranch.value;
        isLiked := !wasLiked;
        likesCount := LikeCount(likesCount, wasLiked);
      }
      isLiking := false;
      likeBranch := None;
    }

    /**
     * `handleSave`: without a user nothing happens. Otherwise the save row is
     * removed or added, `saved_count` is written from the value just read,
     * and the card flips. Neither write's error is read: a failed one leaves
     * its table as it was, and the card flips all the same.
     */
    method Save(saveOk: bool, readOk: bool, countOk: bool)
      modifies this`saves, this`row, this`isSaved
      ensures user.None? ==> saves == old(saves) && row == old(row) && isSaved == old(isSaved)
      ensures user.Some? ==> isSaved == !old(isSaved)
      ensures user.Some? ==>
        saves == (if !saveOk then old(saves) else if old(isSaved) then Without(old(saves), user.value) else old(saves) + [user.value])
      ensures user.Some? ==>
        row == (if old(row).None? || !countOk then old(row)
                else Some(old(row).value.(savedCount := SavedCount(if readOk then Some(old(row).value.savedCount) else None, old(isSaved)))))
    {
      if user.None? {
        return;
      }
      var me := user.value;
      if saveOk {
        if isSaved {
          saves := Without(saves, me);
        } else {
          saves := saves + [me];
        }
      }
      if row.Some? && countOk {
        var read := if readOk then Some(row.value.savedCount) else None;
        row := Some(row.value.(savedCount := SavedCount(read, isSaved)));
      }
      isSaved := !isSaved;
    }

    /**
     * The press of `handleFollow`: refused without a user, while a follow is
     * in flight, and on one's own post. Otherwise the follow row is removed
     * or added, and a follow notifies the author. Neither write's error is
     * read: a failed one leaves its table as it was.
     */
    method PressFollow(followOk: bool, noticeOk: bool)
      requires Valid()
      modifies this`follows, this`notices, this`isFollowLoading, this`followBranch
      ensures Valid()
      ensures user.None? || old(isFollowLoading) || IsOwner() ==>
        follows == old(follows) && notices == old(notices) && isFollowLoading == old(isFollowLoading) && followBranch == old(followBranch)
      ensures user.Some? && !old(isFollowLoading) && !IsOwner() ==>
        isFollowLoading && followBranch == Some(isFollowing) &&
        follows == (if !followOk then old(follows)
                    else if isFollowing then Without(old(follows), Follow(user.value, ownerId)) else old(follows) + [Follow(user.value, ownerId)]) &&
        notices == old(notices) + if noticeOk && !isFollowing then [Notice(ownerId, user.value, "follow", None, "started following you")] else []
    {
      if user.None? || isFollowLoading || user.value == ownerId {
        return;
      }
      var me := user.value;
      isFollowLoading := true;
      followBranch := Some(isFollowing);
      if followOk {
        if isFollowing {
          follows := Without(follows, Follow(me, ownerId));
        } else {
          follows := follows + [Follow(me, ownerId)];
        }
      }
      if noticeOk && !isFollowing {
        notices := notices + [Notice(ownerId, me, "follow", None, "started following you")];
      }
    }

    /** The settle of `handleFollow`: the card flips, then the flag drops. */
    method SettleFollow()
      requires Valid()
      modifies this`isFollowing, this`isFollowLoading, this`followBranch
      ensures Valid()
      ensures isFollowing == if old(followBranch).Some? then !old(followBranch).value else old(isFollowing)
      ensures !isFollowLoading && followBranch.None?
    {
      if followBranch.Some? {
        isFollowing := !followBranch.value;
      }
      isFollowLoading := false;
      followBranch := None;
    }

    /** `handleEdit`: only the owner may edit; on success the row and the card carry the new text, marked edited. */
    method Edit(edited: string, ok: bool)
      modifies this`row, this`content, this`isEdited
      ensures !IsOwner() || !ok ==> row == old(row) && content == old(content) && isEdited == old(isEdited)
      ensures IsOwner() && ok ==>
        row == (if old(row).None? then None else Some(old(row).value.(content := edited, isEdited := true))) &&
        content == edited && isEdited
    {
      if user.None? || user.value != ownerId || !ok {
        return;
      }
      if row.Some? {
        row := Some(row.value.(content := edited, isEdited := true));
      }
      content := edited;
      isEdited := true;
    }

    /** `handleDelete`: only the owner may delete; the row is gone when the store accepts. */
    method Delete(ok: bool)
      modifies this`row
      ensures IsOwner() && ok ==> row.None?
      ensures !(IsOwner() && ok) ==> row == old(row)
    {
      if user.None? || user.value != ownerId || !ok {
        return;
      }
      row := None;
    }
  }
}
