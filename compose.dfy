/**
 * The post composer and its media picker. The picker keeps its own list of
 * selected media and hands every new list to the composer through
 * `onMediaSelect`; the composer inserts the post and, on success, resets its
 * own text, media and visibility.
 */
module Compose {
  import opened Wrappers
  import opened Rows
  import opened Text

  /** 10 MiB: larger files are skipped. */
  const MaxUploadBytes: nat := 10 * 1024 * 1024

  datatype MediaKind = Image | Video

  /** A picked file: its size, MIME type and the data URL the reader produces for it. */
  datatype File = File(name: string, size: nat, mime: string, dataUrl: string)

  datatype MediaItem = MediaItem(kind: MediaKind, url: string, file: File)

  /** `file.type.startsWith('image/') ? 'image' : 'video'`. */
  function KindOf(mime: string): (k: MediaKind)
    ensures k == Image <==> StartsWith(mime, "image/")
  {
    if StartsWith(mime, "image/") then Image else Video
  }

  /** The item a kept file becomes. */
  function ItemOf(f: File): MediaItem {
    MediaItem(KindOf(f.mime), f.dataUrl, f)
  }

  /** The items the picker adds for `files`, in selection order: every file of at most 10 MiB, none larger. */
  function Accepted(files: seq<File>): (r: seq<MediaItem>)
    ensures |r| <= |files|
    ensures forall m :: m in r ==> m.file in files && m.file.size <= MaxUploadBytes && m == ItemOf(m.file)
  {
    if files == [] then []
    else
      var f := files[|files| - 1];
      Accepted(files[..|files| - 1]) + if f.size > MaxUploadBytes then [] else [ItemOf(f)]
  }

  /** No small file is skipped. */
  lemma {:induction false} AcceptedKeepsSmall(files: seq<File>, f: File)
    requires f in files && f.size <= MaxUploadBytes
    ensures ItemOf(f) in Accepted(files)
  {
    var last := files[|files| - 1];
    if f != last {
      var init := files[..|files| - 1];
      assert f in init by {
        var i :| 0 <= i < |files| && files[i] == f;
        assert i < |files| - 1 && init[i] == f;
      }
      AcceptedKeepsSmall(init, f);
    }
  }

  /** One more file: added when it is small enough, skipped otherwise. */
  lemma AcceptedSnoc(files: seq<File>, i: nat)
    requires i < |files|
    ensures Accepted(files[..i + 1]) == Accepted(files[..i]) + if files[i].size > MaxUploadBytes then [] else [ItemOf(files[i])]
  {
    assert files[..i + 1][..i] == files[..i];
  }

  /** Selecting the files one at a time adds the same items as selecting them together. */
  lemma {:induction false} AcceptedAppend(a: seq<File>, b: seq<File>)
    ensures Accepted(a + b) == Accepted(a) + Accepted(b)
    decreases |b|
  {
    if b == [] {
      assert a + b == a;
    } else {
      var init := b[..|b| - 1];
      assert (a + b)[..|a + b| - 1] == a + init;
      AcceptedAppend(a, init);
    }
  }

  /** `prev.filter((_, i) => i !== index)`: exactly index `i` is removed; an index past the end removes nothing. */
  function RemoveAt<T>(xs: seq<T>, i: nat): (r: seq<T>)
    ensures i < |xs| ==> |r| == |xs| - 1 && r == xs[..i] + xs[i + 1..]
    ensures i >= |xs| ==> r == xs
  {
    if i < |xs| then xs[..i] + xs[i + 1..] else xs
  }

  /** Removing an item keeps the others in order: the ones before stay put, the ones after move up by one. */
  lemma RemoveAtKeepsOrder<T>(xs: seq<T>, i: nat, j: nat)
    requires i < |xs| && j < |xs| - 1
    ensures RemoveAt(xs, i)[j] == if j < i then xs[j] else xs[j + 1]
  {
  }

  /** The post type: 'text' with no media, else 'video' iff the first item is a video, else 'image'. */
  function PostKind(media: seq<MediaItem>): (r: string)
    ensures media == [] <==> r == "text"
    ensures media != [] ==> (r == "video" <==> media[0].kind == Video)
    ensures r == "text" || r == "image" || r == "video"
  {
    if |media| > 0 then (if media[0].kind == Video then "video" else "image") else "text"
  }

  /** A row inserted into `posts`. */
  datatype NewPost = NewPost(userId: Id, content: string, mediaUrls: Option<seq<string>>, kind: string, isPublic: bool)

  /** `media_urls`: the items' urls in the list's order, or null when there are none. */
  function UrlsOf(media: seq<MediaItem>): (r: Option<seq<string>>)
    ensures r.None? <==> media == []
    ensures r.Some? ==> |r.value| == |media| && forall j :: 0 <= j < |media| ==> r.value[j] == media[j].url
  {
    if media == [] then None else Some(seq(|media|, j requires 0 <= j < |media| => media[j].url))
  }

  /** The row a submit inserts: the trimmed text, the urls, the type derived from the media, and the visibility. */
  function RowOf(userId: Id, content: string, media: seq<MediaItem>, isPublic: bool): NewPost {
    NewPost(userId, Trim(content), UrlsOf(media), PostKind(media), isPublic)
  }

  /** Whether a submit goes through: a user, some text or media, and an accepted insert. */
  predicate Publishes(user: Option<Id>, content: string, media: seq<MediaItem>, insertOk: bool) {
    user.Some? && !(IsBlank(content) && media == []) && insertOk
  }

  /** `(currentUser?.posts_count || 0) + 1`, written to the user's row if there is one. */
  function Raised(count: Option<int>, readOk: bool): (r: Option<int>)
    ensures r.None? <==> count.None?
    ensures r.Some? ==> r.value == (if readOk then count.value else 0) + 1
  {
    if count.None? then None else Some((if readOk then count.value else 0) + 1)
  }

  class Composer {
    const user: Option<Id>
    /** The composer's state. */
    var content: string
    var isPublic: bool
    var media: seq<MediaItem>
    /** The picker's own list. */
    var selected: seq<MediaItem>
    /** The `posts` table and the user's `posts_count` (absent without a row). */
    var posts: seq<NewPost>
    var postsCount: Option<int>

    /** The composer holds what the picker shows. */
    predicate Synced()
      reads this`media, this`selected
    {
      media == selected
    }

    constructor (user: Option<Id>, posts: seq<NewPost>, postsCount: Option<int>)
      ensures Synced()
      ensures this.user == user && this.posts == posts && this.postsCount == postsCount
      ensures content == [] && isPublic && media == [] && selected == []
    {
      this.user := user;
      content := [];
      isPublic := true;
      media := [];
      selected := [];
      this.posts := posts;
      this.postsCount := postsCount;
    }

    /** `handleEmojiClick`: the emoji goes at the end of the text. */
    method EmojiClick(emoji: string)
      modifies this`content
      ensures content == old(content) + emoji
    {
      content := content + emoji;
    }

    /**
     * `handleFileSelect`: every file of at most 10 MiB is handed to its own
     * reader; larger files are skipped. Each read's `onload` appends its item
     * to the picker's list and hands the list just stored to the composer.
     * The reads finish in an order nothing fixes: `arrived` is the accepted
     * items in the order their reads finished, any rearrangement of
     * `Accepted(files)`.
     */
    method SelectFiles(files: seq<File>, arrived: seq<MediaItem>)
      requires multiset(arrived) == multiset(Accepted(files))
      modifies this`selected, this`media
      ensures selected == old(selected) + arrived
      ensures multiset(selected) == multiset(old(selected)) + multiset(Accepted(files))
      ensures Accepted(files) == [] ==> media == old(media)
      ensures Accepted(files) != [] ==> media == selected
    {
      assert |arrived| == |multiset(arrived)| == |multiset(Accepted(files))| == |Accepted(files)|;
      var i := 0;
      while i < |arrived|
        invariant 0 <= i <= |arrived|
        invariant selected == old(selected) + arrived[..i]
        invariant i == 0 ==> media == old(media)
        invariant i > 0 ==> media == selected
      {
        assert arrived[..i + 1] == arrived[..i] + [arrived[i]];
        selected := selected + [arrived[i]];
        media := selected;
        i := i + 1;
      }
      assert arrived[..i] == arrived;
    }

    /** `removeMedia(i)`: the picker drops index `i` and the composer receives the list just stored. */
    method RemoveMedia(i: nat)
      modifies this`selected, this`media
      ensures selected == RemoveAt(old(selected), i) && media == selected
    {
      selected := RemoveAt(selected, i);
      media := selected;
    }

    /** The `for ... of` that collects the media urls, in the list's order. */
    method MediaUrls() returns (urls: seq<string>)
      ensures |urls| == |media|
      ensures forall j :: 0 <= j < |media| ==> urls[j] == media[j].url
    {
      urls := [];
      var i := 0;
      while i < |media|
        invariant 0 <= i <= |media|
        invariant |urls| == i
        invariant forall j :: 0 <= j < i ==> urls[j] == media[j].url
      {
        urls := urls + [media[i].url];
        i := i + 1;
      }
    }

    /**
     * `handleSubmit` as written: refused without a user, or with blank text
     * and no media. On success the row is inserted, the count read back is
     * raised by one (from 0 when the read failed) and the composer resets;
     * the picker's own list is left as it was. The count write's error is
     * not read: a refused write leaves the count as it was.
     */
    method Submit(insertOk: bool, readOk: bool, countOk: bool)
      modifies this`posts, this`postsCount, this`content, this`media, this`isPublic
      ensures !Publishes(user, old(content), old(media), insertOk) ==>
        posts == old(posts) && postsCount == old(postsCount) && content == old(content) && media == old(media) && isPublic == old(isPublic)
      ensures Publishes(user, old(content), old(media), insertOk) ==>
        posts == old(posts) + [RowOf(user.value, old(content), old(media), old(isPublic))] &&
        postsCount == (if countOk then Raised(old(postsCount), readOk) else old(postsCount)) && content == [] && media == [] && isPublic
    {
      if user.None? || (IsBlank(content) && media == []) {
        return;
      }
      var urls := MediaUrls();
      if !insertOk {
        return;
      }
      var mediaUrls := if |urls| > 0 then Some(urls) else None;
      if |urls| > 0 {
        assert urls == UrlsOf(media).value;
      }
      posts := posts + [NewPost(user.value, Trim(content), mediaUrls, PostKind(media), isPublic)];
      if countOk {
        postsCount := Raised(postsCount, readOk);
      }
      content := [];
      media := [];
      isPublic := true;
    }

    /** `handleSubmit` with the picker cleared as well on success, which keeps the two lists in step. */
    method SubmitClearingPicker(insertOk: bool, readOk: bool, countOk: bool)
      requires Synced()
      modifies this`posts, this`postsCount, this`content, this`media, this`isPublic, this`selected
      ensures Synced()
      ensures !Publishes(user, old(content), old(media), insertOk) ==>
        posts == old(posts) && selected == old(selected) && content == old(content) && isPublic == old(isPublic)
      ensures Publishes(user, old(content), old(media), insertOk) ==>
        posts == old(posts) + [RowOf(user.value, old(content), old(media), old(isPublic))]
      ensures Publishes(user, old(content), old(media), insertOk) ==>
        postsCount == (if countOk then Raised(old(postsCount), readOk) else old(postsCount)) && content == [] && selected == [] && isPublic
    {
      Submit(insertOk, readOk, countOk);
      if media == [] {
        selected := [];
      }
    }
  }

  lemma AcceptedOne(f: File)
    requires f.size <= MaxUploadBytes
    ensures Accepted([f]) == [ItemOf(f)]
  {
    assert [f][..0] == [];
  }

  /**
   * As written, the picker keeps the media of a published post: pick A,
   * publish, pick B, and the composer holds A and B for the next post.
   */
  method PublishedMediaComesBack(a: File, b: File) returns (next: seq<MediaItem>)
    requires a.size <= MaxUploadBytes && b.size <= MaxUploadBytes
    ensures next == [ItemOf(a), ItemOf(b)]
  {
    AcceptedOne(a);
    AcceptedOne(b);
    var c := new Composer(Some("me"), [], None);
    c.SelectFiles([a], [ItemOf(a)]);
    assert c.media == [ItemOf(a)] && c.selected == [ItemOf(a)];
    c.Submit(true, true, true);
    assert c.media == [] && c.selected == [ItemOf(a)];
    c.SelectFiles([b], [ItemOf(b)]);
    assert c.selected == [ItemOf(a)] + [ItemOf(b)];
    next := c.media;
  }

  /**
   * The reads of one selection may finish out of order, and the first item
   * to arrive decides the post type: a large video selected before a small
   * image whose read finishes first makes an image post, where the
   * selection order would make a video post.
   */
  lemma ArrivalOrderDecidesKind(video: File, image: File)
    requires video.size <= MaxUploadBytes && image.size <= MaxUploadBytes
    requires !StartsWith(video.mime, "image/") && StartsWith(image.mime, "image/")
    ensures multiset([ItemOf(image), ItemOf(video)]) == multiset(Accepted([video, image]))
    ensures PostKind(Accepted([video, image])) == "video"
    ensures PostKind([ItemOf(image), ItemOf(video)]) == "image"
  {
    assert [video, image][..1] == [video];
    assert [video][..0] == [];
    assert Accepted([video, image]) == [ItemOf(video), ItemOf(image)];
  }

  /** With the picker cleared on success, the next post carries only B. */
  method PublishedMediaCleared(a: File, b: File) returns (next: seq<MediaItem>)
    requires a.size <= MaxUploadBytes && b.size <= MaxUploadBytes
    ensures next == [ItemOf(b)]
  {
    AcceptedOne(a);
    AcceptedOne(b);
    var c := new Composer(Some("me"), [], None);
    c.SelectFiles([a], [ItemOf(a)]);
    assert c.media == [ItemOf(a)] && c.selected == [ItemOf(a)];
    c.SubmitClearingPicker(true, true, true);
    assert c.selected == [];
    c.SelectFiles([b], [ItemOf(b)]);
    next := c.media;
  }
}
