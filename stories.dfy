/**
 * The stories bar: the viewer's own stories and those of followed users,
 * grouped by author for the avatar row, and the full-screen viewer that
 * walks the flat list `userStories ++ stories` with a progress bar driven by
 * an interval. Every open of a story that is not the viewer's own calls the
 * `increment_story_views` RPC; the calls made are kept as a log.
 */
module Stories {
  import opened Wrappers
  import opened Rows
  import opened Buckets

  datatype Story = Story(id: Id, userId: Id, createdAt: int)

  function AuthorOf(s: Story): Id { s.userId }

  /**
   * The viewer's state: `selectedStory`, `currentStoryIndex`,
   * `storyProgress`, and the ids passed to the view-count RPC so far.
   */
  datatype Viewer = Viewer(selected: Option<Story>, index: nat, progress: int, viewed: seq<Id>)

  /** The progress bar only ever shows 0, 2, ..., 100. */
  predicate OnGrid(v: Viewer) {
    0 <= v.progress <= 100 && v.progress % 2 == 0
  }

  /** The open story is the one at the current flat index. */
  predicate Consistent(v: Viewer, all: seq<Story>) {
    v.selected.Some? ==> v.index < |all| && all[v.index] == v.selected.value
  }

  /** `viewStory(story, i)`: opens the story at progress 0; the RPC fires unless the viewer owns it. */
  function View(v: Viewer, user: Option<Id>, story: Story, i: nat): (r: Viewer)
    ensures r.selected == Some(story) && r.index == i && r.progress == 0
    ensures user != Some(story.userId) <==> r.viewed == v.viewed + [story.id]
    ensures user == Some(story.userId) <==> r.viewed == v.viewed
  {
    Viewer(Some(story), i, 0, if user != Some(story.userId) then v.viewed + [story.id] else v.viewed)
  }

  /** `handleNextStory`: the following story of the flat list, or close the viewer past its end. */
  function Next(v: Viewer, user: Option<Id>, all: seq<Story>): (r: Viewer)
    ensures v.index + 1 < |all| ==> r == View(v, user, all[v.index + 1], v.index + 1)
    ensures v.index + 1 >= |all| ==> r.selected.None? && r.progress == 0 && r.index == v.index && r.viewed == v.viewed
  {
    if v.index + 1 < |all| then View(v, user, all[v.index + 1], v.index + 1)
    else v.(selected := None, progress := 0)
  }

  /**
   * `handlePrevStory`: the preceding story, nothing at index 0. When the
   * lists have shrunk under the index, `allStories[prevIndex]` is undefined:
   * the viewer closes with the index moved back, and the RPC is never reached.
   */
  function Prev(v: Viewer, user: Option<Id>, all: seq<Story>): (r: Viewer)
    ensures v.index == 0 ==> r == v
    ensures 0 < v.index <= |all| ==> r == View(v, user, all[v.index - 1], v.index - 1)
    ensures v.index > |all| ==> r.selected.None? && r.index == v.index - 1 && r.progress == 0 && r.viewed == v.viewed
  {
    if v.index == 0 then v
    else if v.index - 1 < |all| then View(v, user, all[v.index - 1], v.index - 1)
    else v.(selected := None, index := v.index - 1, progress := 0)
  }

  /** One interval tick: two more percent, or on to the next story once the bar is full. */
  function Tick(v: Viewer, user: Option<Id>, all: seq<Story>): (r: Viewer)
    ensures v.progress < 100 ==> r == v.(progress := v.progress + 2)
    ensures v.progress >= 100 ==> r == Next(v, user, all) && r.progress == 0
  {
    if v.progress >= 100 then Next(v, user, all)
    else v.(progress := v.progress + 2)
  }

  /** `n` uninterrupted ticks. */
  function Ticks(v: Viewer, user: Option<Id>, all: seq<Story>, n: nat): Viewer {
    if n == 0 then v else Tick(Ticks(v, user, all, n - 1), user, all)
  }

  /**
   * One tick of an interval whose `handleNextStory` closure was captured
   * when the interval started: the progress is read live, but once the bar
   * is full the next story is taken from the captured index `at` and the
   * captured flat list `all`. Closing past the end leaves the live index.
   */
  function StaleTick(v: Viewer, user: Option<Id>, at: nat, all: seq<Story>): (r: Viewer)
    ensures v.progress < 100 ==> r == v.(progress := v.progress + 2)
    ensures v.progress >= 100 && at + 1 < |all| ==> r == View(v, user, all[at + 1], at + 1)
    ensures v.progress >= 100 && at + 1 >= |all| ==>
      r.selected.None? && r.index == v.index && r.progress == 0 && r.viewed == v.viewed
  {
    if v.progress < 100 then v.(progress := v.progress + 2)
    else if at + 1 < |all| then View(v, user, all[at + 1], at + 1)
    else v.(selected := None, progress := 0)
  }

  /** While the captured index and list are still the live ones, the stale tick is `Tick`. */
  lemma StaleTickAgrees(v: Viewer, user: Option<Id>, all: seq<Story>)
    ensures StaleTick(v, user, v.index, all) == Tick(v, user, all)
  {
    if v.progress >= 100 {
      assert Tick(v, user, all) == Next(v, user, all);
    }
  }

  /** The close button and the dialog's `onOpenChange`: only the selection is cleared. */
  function Close(v: Viewer): (r: Viewer)
    ensures r.selected.None? && r.index == v.index && r.progress == v.progress && r.viewed == v.viewed
  {
    v.(selected := None)
  }

  /**
   * The avatar of group `g` in the bar: opens the group's first story but
   * passes the group's position `g` as the flat index.
   */
  function ClickGroup(v: Viewer, user: Option<Id>, all: seq<Story>, g: nat): (r: Viewer)
    requires g < |Keys(all, AuthorOf)|
    ensures var k := Keys(all, AuthorOf)[g];
      r.selected.Some? && r.selected.value.userId == k && r.index == g && r.progress == 0
  {
    var k := Keys(all, AuthorOf)[g];
    assert k in Keys(all, AuthorOf);
    BucketHead(all, AuthorOf, k);
    View(v, user, Bucket(all, AuthorOf, k)[0], g)
  }

  /** The same click with the flat index of the group's first story, which keeps the viewer consistent. */
  function ClickGroupAtFlatIndex(v: Viewer, user: Option<Id>, all: seq<Story>, g: nat): (r: Viewer)
    requires g < |Keys(all, AuthorOf)|
    ensures r.selected == ClickGroup(v, user, all, g).selected
    ensures r.viewed == ClickGroup(v, user, all, g).viewed && r.progress == 0
    ensures Consistent(r, all)
  {
    var k := Keys(all, AuthorOf)[g];
    assert k in Keys(all, AuthorOf);
    BucketHead(all, AuthorOf, k);
    View(v, user, all[FirstIndex(all, AuthorOf, k)], FirstIndex(all, AuthorOf, k))
  }

  /** Every step keeps the progress bar on its grid. */
  lemma StepsStayOnGrid(v: Viewer, user: Option<Id>, all: seq<Story>, story: Story, i: nat)
    requires OnGrid(v)
    ensures OnGrid(View(v, user, story, i)) && OnGrid(Next(v, user, all)) && OnGrid(Prev(v, user, all))
    ensures OnGrid(Tick(v, user, all)) && OnGrid(Close(v))
  {
  }

  /** Next, previous and ticks keep the open story at the flat index. */
  lemma StepsKeepConsistent(v: Viewer, user: Option<Id>, all: seq<Story>)
    requires Consistent(v, all)
    ensures Consistent(Next(v, user, all), all) && Consistent(Prev(v, user, all), all)
    ensures Consistent(Tick(v, user, all), all) && Consistent(Close(v), all)
  {
  }

  /** From an empty bar, 50 ticks fill it without leaving the story. */
  lemma {:induction false} TicksFromEmpty(v: Viewer, user: Option<Id>, all: seq<Story>, n: nat)
    requires v.progress == 0 && n <= 50
    ensures Ticks(v, user, all, n) == v.(progress := 2 * n)
  {
    if n > 0 {
      TicksFromEmpty(v, user, all, n - 1);
    }
  }

  /** An uninterrupted story advances on the 51st tick, exactly as `handleNextStory` would. */
  lemma FiftyFirstTickAdvances(v: Viewer, user: Option<Id>, all: seq<Story>)
    requires v.progress == 0
    ensures forall n :: 0 <= n <= 50 ==> Ticks(v, user, all, n).selected == v.selected
    ensures Ticks(v, user, all, 50).progress == 100
    ensures Ticks(v, user, all, 51) == Next(v, user, all)
  {
    forall n | 0 <= n <= 50
      ensures Ticks(v, user, all, n).selected == v.selected
    {
      TicksFromEmpty(v, user, all, n);
    }
    TicksFromEmpty(v, user, all, 50);
  }

  /** Going forward and back returns to the story that was open. */
  lemma NextThenPrev(v: Viewer, user: Option<Id>, all: seq<Story>)
    requires Consistent(v, all) && v.selected.Some? && v.index + 1 < |all|
    ensures Prev(Next(v, user, all), user, all).selected == v.selected
    ensures Prev(Next(v, user, all), user, all).index == v.index
  {
  }

  /** Opening only one's own stories never calls the view-count RPC. */
  lemma {:induction false} OwnStoriesNotCounted(v: Viewer, me: Id, all: seq<Story>, n: nat)
    requires forall s :: s in all ==> s.userId == me
    ensures Ticks(v, Some(me), all, n).viewed == v.viewed
  {
    if n > 0 {
      OwnStoriesNotCounted(v, me, all, n - 1);
      var w := Ticks(v, Some(me), all, n - 1);
      if w.progress >= 100 && w.index + 1 < |all| {
        assert all[w.index + 1] in all;
      }
    }
  }

  /** Two stories by one author followed by one by another make two groups; the second group starts at flat index 2. */
  lemma TwoAuthors(a1: Story, a2: Story, b1: Story)
    requires a1.userId == "me" && a2.userId == "me" && b1.userId == "bob"
    ensures Keys([a1, a2, b1], AuthorOf) == ["me", "bob"]
    ensures Bucket([a1, a2, b1], AuthorOf, "bob") == [b1]
    ensures FirstIndex([a1, a2, b1], AuthorOf, "bob") == 2
  {
    TwoAuthorsKeys(a1, a2, b1);
    TwoAuthorsBucket(a1, a2, b1);
  }

  /** The key half of `TwoAuthors`. */
  lemma TwoAuthorsKeys(a1: Story, a2: Story, b1: Story)
    requires a1.userId == "me" && a2.userId == "me" && b1.userId == "bob"
    ensures Keys([a1, a2, b1], AuthorOf) == ["me", "bob"]
  {
    assert [a1, a2, b1] == [a1, a2] + [b1];
    assert [a1, a2] == [a1] + [a2];
    KeysSnoc([a1], a2, AuthorOf);
    KeysSnoc([a1, a2], b1, AuthorOf);
    assert Keys([a1], AuthorOf) == [AuthorOf(a1)];
  }

  /** The bucket half of `TwoAuthors`. */
  lemma TwoAuthorsBucket(a1: Story, a2: Story, b1: Story)
    requires a1.userId == "me" && a2.userId == "me" && b1.userId == "bob"
    ensures Bucket([a1, a2, b1], AuthorOf, "bob") == [b1]
  {
    assert [a1, a2, b1] == [a1, a2] + [b1];
    assert [a1, a2] == [a1] + [a2];
    BucketSnoc([a1, a2], b1, AuthorOf, "bob");
    BucketSnoc([a1], a2, AuthorOf, "bob");
    BucketSnoc([], a1, AuthorOf, "bob");
    assert [] + [a1] == [a1];
  }

  /**
   * With two stories of the viewer's own ahead of a followed user's single
   * story, opening that user's avatar (group 1) stores index 1, which is the
   * viewer's second story; "next" then opens the same story again.
   */
  lemma GroupClickRepeatsStory()
    ensures var a1 := Story("a1", "me", 2);
      var a2 := Story("a2", "me", 1);
      var b1 := Story("b1", "bob", 3);
      var all := [a1, a2, b1];
      var v := ClickGroup(Viewer(None, 0, 0, []), Some("me"), all, 1);
      v.selected == Some(b1) && !Consistent(v, all) &&
      Next(v, Some("me"), all).selected == Some(b1) &&
      ClickGroupAtFlatIndex(Viewer(None, 0, 0, []), Some("me"), all, 1).index == 2
  {
    var a1 := Story("a1", "me", 2);
    var a2 := Story("a2", "me", 1);
    var b1 := Story("b1", "bob", 3);
    var all := [a1, a2, b1];
    TwoAuthors(a1, a2, b1);
    var v := ClickGroup(Viewer(None, 0, 0, []), Some("me"), all, 1);
    assert v == Viewer(Some(b1), 1, 0, ["b1"]);
    assert all[v.index] == a2;
    assert all[v.index + 1] == b1;
  }

  /**
   * After the group click of `GroupClickRepeatsStory` the interval captured
   * index 1. Every time the bar fills it reopens `b1` at index 2: the
   * selection does not change, so the interval is never rebuilt, the captured
   * index stays 1, and each cycle passes `b1` to the view counter again.
   * Had the click stored the flat index 2, the first full bar closes the viewer.
   */
  lemma GroupClickReplaysForever(v: Viewer)
    requires v.progress >= 100
    ensures var a1 := Story("a1", "me", 2);
      var a2 := Story("a2", "me", 1);
      var b1 := Story("b1", "bob", 3);
      var all := [a1, a2, b1];
      var r := StaleTick(v, Some("me"), 1, all);
      r.selected == Some(b1) && r.index == 2 && r.progress == 0 && r.viewed == v.viewed + ["b1"] &&
      StaleTick(v, Some("me"), 2, all).selected.None?
  {
    var all := [Story("a1", "me", 2), Story("a2", "me", 1), Story("b1", "bob", 3)];
    assert all[2] == Story("b1", "bob", 3);
  }

  /** `groupedStories`: the viewer's own stories under their id first, then every fetched story pushed onto its author's group. */
  method GroupStories(me: Id, own: seq<Story>, stories: seq<Story>) returns (order: seq<Id>, groups: map<Id, seq<Story>>)
    requires forall s :: s in own ==> s.userId == me
    ensures order == Keys(own + stories, AuthorOf)
    ensures groups == GroupBy(own + stories, AuthorOf)
  {
    var start := OwnGroupOnly(me, own);
    order, groups := start.0, start.1;
    // The loop walks `stories`, which sit after `own` in the flat list.
    var all := own + stories;
    assert all[..|own|] == own;
    var i := |own|;
    while i < |all|
      invariant |own| <= i <= |all|
      invariant order == Keys(all[..i], AuthorOf)
      invariant GroupsOf(all[..i], AuthorOf, groups)
    {
      TakeOneMore(all, i);
      var next := AddToGroup(all[..i], all[i], order, groups);
      order, groups := next.0, next.1;
      i := i + 1;
    }
    assert all[..i] == all;
    GroupsOfUnique(all, AuthorOf, groups);
  }

  /** The Map as it stands before the loop: the viewer's own group when they have stories, else empty. */
  function OwnGroupOnly(me: Id, own: seq<Story>): (r: (seq<Id>, map<Id, seq<Story>>))
    requires forall s :: s in own ==> s.userId == me
    ensures r.0 == Keys(own, AuthorOf) && GroupsOf(own, AuthorOf, r.1)
  {
    if own != [] then
      OwnGroup(me, own);
      ([me], map[me := own])
    else ([], map[])
  }

  /** A single-author list is one group under that author. */
  lemma OwnGroup(me: Id, own: seq<Story>)
    requires own != [] && forall s :: s in own ==> s.userId == me
    ensures Keys(own, AuthorOf) == [me] && GroupsOf(own, AuthorOf, map[me := own])
  {
    SingleKey(own, AuthorOf, me);
  }

  /**
   * One `forEach` step: a new author is added to the end of the Map's
   * insertion order with an empty group, then the story is pushed onto its
   * author's group.
   */
  function AddToGroup(done: seq<Story>, s: Story, order: seq<Id>, groups: map<Id, seq<Story>>): (r: (seq<Id>, map<Id, seq<Story>>))
    requires order == Keys(done, AuthorOf) && GroupsOf(done, AuthorOf, groups)
    ensures r.0 == Keys(done + [s], AuthorOf) && GroupsOf(done + [s], AuthorOf, r.1)
  {
    KeysSnoc(done, s, AuthorOf);
    (if s.userId in groups then order else order + [s.userId], Push(done, s, AuthorOf, groups))
  }

  /** The viewer's own group comes first whenever they have stories. */
  lemma OwnGroupFirst(me: Id, own: seq<Story>, stories: seq<Story>)
    requires own != [] && forall s :: s in own ==> s.userId == me
    ensures Keys(own + stories, AuthorOf)[0] == me
    ensures GroupBy(own + stories, AuthorOf)[me] == own + Bucket(stories, AuthorOf, me)
  {
    SingleKey(own, AuthorOf, me);
    KeysPrefix(own, stories, AuthorOf);
    BucketAppend(own, stories, AuthorOf, me);
  }

  /** Every story is in its author's group and no other, and the group sizes add up to the number of stories. */
  lemma EachStoryInOneGroup(all: seq<Story>, s: Story, k: Id)
    requires s in all && k in GroupBy(all, AuthorOf)
    ensures s.userId in GroupBy(all, AuthorOf) && s in GroupBy(all, AuthorOf)[s.userId]
    ensures s in GroupBy(all, AuthorOf)[k] <==> k == s.userId
    ensures SumSizes(all, AuthorOf, Keys(all, AuthorOf)) == |all|
  {
    BucketSizesSum(all, AuthorOf);
  }

  /** Groups after the first come in order of their author's first story in the fetched list. */
  lemma GroupsInFirstSeenOrder(all: seq<Story>, i: nat, j: nat)
    requires i < j < |Keys(all, AuthorOf)|
    ensures var ks := Keys(all, AuthorOf);
      ks[i] in ks && ks[j] in ks && FirstIndex(all, AuthorOf, ks[i]) < FirstIndex(all, AuthorOf, ks[j])
  {
    var ks := Keys(all, AuthorOf);
    assert ks[i] in ks && ks[j] in ks;
    KeysInFirstSeenOrder(all, AuthorOf, i, j);
    var p :| 0 <= p < |all| && AuthorOf(all[p]) == ks[i] &&
      forall q :: 0 <= q <= p ==> AuthorOf(all[q]) != ks[j];
  }

  /**
   * The bar and its viewer. `interval` is the one running progress interval,
   * if any; `nextInterval` numbers the intervals as they are started.
   */
  class StoryBar {
    const user: Option<Id>
    /** `userStories` and `stories` as last fetched. */
    var own: seq<Story>
    var stories: seq<Story>
    var selected: Option<Story>
    var index: nat
    var progress: int
    /** The ids passed to `increment_story_views`, in order. */
    var viewed: seq<Id>
    var interval: Option<nat>
    var nextInterval: nat
    /** The flat index and the flat list the running interval's closure captured. */
    var tickIndex: nat
    var tickAll: seq<Story>

    function State(): Viewer
      reads this`selected, this`index, this`progress, this`viewed
    {
      Viewer(selected, index, progress, viewed)
    }

    function All(): seq<Story>
      reads this`own, this`stories
    {
      own + stories
    }

    /** Exactly one interval runs while a story is open, and none otherwise. */
    predicate Valid()
      reads this`selected, this`progress, this`interval, this`nextInterval
    {
      0 <= progress <= 100 && progress % 2 == 0 &&
      (interval.Some? <==> selected.Some?) &&
      (interval.Some? ==> interval.value < nextInterval)
    }

    constructor (user: Option<Id>)
      ensures Valid() && this.user == user && own == [] && stories == []
      ensures State() == Viewer(None, 0, 0, [])
    {
      this.user := user;
      own := [];
      stories := [];
      selected := None;
      index := 0;
      progress := 0;
      viewed := [];
      interval := None;
      nextInterval := 0;
      tickIndex := 0;
      tickAll := [];
    }

    /**
     * Moves to the viewer state `r`; when the selection changes, the effect
     * clears the old interval and, if a story is open, starts a new one.
     */
    method Show(r: Viewer)
      requires Valid() && OnGrid(r)
      modifies this`selected, this`index, this`progress, this`viewed, this`interval, this`nextInterval, this`tickIndex, this`tickAll
      ensures Valid() && State() == r
      ensures r.selected == old(selected) ==> interval == old(interval)
      ensures r.selected != old(selected) ==>
        interval != old(interval) && (interval.Some? ==> interval.value == old(nextInterval))
      ensures r.selected != old(selected) && r.selected.Some? ==>
        interval == Some(old(nextInterval)) && tickIndex == r.index && tickAll == All()
      ensures !(r.selected != old(selected) && r.selected.Some?) ==>
        tickIndex == old(tickIndex) && tickAll == old(tickAll)
    {
      if r.selected != selected {
        if r.selected.Some? {
          interval := Some(nextInterval);
          tickIndex, tickAll := r.index, own + stories;
        } else {
          interval := None;
        }
        nextInterval := nextInterval + 1;
      }
      selected, index, progress, viewed := r.selected, r.index, r.progress, r.viewed;
    }

    /** `fetchStories`: a failed query reads as an empty list; nothing happens without a user. */
    method Fetch(following: Option<seq<Story>>, ownRows: Option<seq<Story>>)
      requires ownRows.Some? ==> forall s :: s in ownRows.value ==> Some(s.userId) == user
      modifies this`own, this`stories
      ensures user.None? ==> own == old(own) && stories == old(stories)
      ensures user.Some? ==> stories == following.GetOr([]) && own == ownRows.GetOr([])
    {
      if user.None? {
        return;
      }
      stories := following.GetOr([]);
      own := ownRows.GetOr([]);
    }

    method ViewStory(story: Story, i: nat)
      requires Valid()
      modifies this`selected, this`index, this`progress, this`viewed, this`interval, this`nextInterval, this`tickIndex, this`tickAll
      ensures Valid() && State() == View(old(State()), user, story, i)
      ensures selected != old(selected) && selected.Some? ==>
        interval == Some(old(nextInterval)) && tickIndex == index && tickAll == All()
      ensures !(selected != old(selected) && selected.Some?) ==> tickIndex == old(tickIndex) && tickAll == old(tickAll)
      ensures selected == old(selected) ==> interval == old(interval)
    {
      Show(View(State(), user, story, i));
    }

    method NextStory()
      requires Valid()
      modifies this`selected, this`index, this`progress, this`viewed, this`interval, this`nextInterval, this`tickIndex, this`tickAll
      ensures Valid() && State() == Next(old(State()), user, All())
      ensures selected != old(selected) && selected.Some? ==>
        interval == Some(old(nextInterval)) && tickIndex == index && tickAll == All()
      ensures !(selected != old(selected) && selected.Some?) ==> tickIndex == old(tickIndex) && tickAll == old(tickAll)
      ensures selected == old(selected) ==> interval == old(interval)
    {
      Show(Next(State(), user, All()));
    }

    method PrevStory()
      requires Valid()
      modifies this`selected, this`index, this`progress, this`viewed, this`interval, this`nextInterval, this`tickIndex, this`tickAll
      ensures Valid() && State() == Prev(old(State()), user, All())
      ensures selected != old(selected) && selected.Some? ==>
        interval == Some(old(nextInterval)) && tickIndex == index && tickAll == All()
      ensures !(selected != old(selected) && selected.Some?) ==> tickIndex == old(tickIndex) && tickAll == old(tickAll)
      ensures selected == old(selected) ==> interval == old(interval)
    {
      Show(Prev(State(), user, All()));
    }

    method CloseViewer()
      requires Valid()
      modifies this`selected, this`index, this`progress, this`viewed, this`interval, this`nextInterval, this`tickIndex, this`tickAll
      ensures Valid() && State() == Close(old(State()))
      ensures old(selected).Some? ==> interval.None?
      ensures selected != old(selected) && selected.Some? ==>
        interval == Some(old(nextInterval)) && tickIndex == index && tickAll == All()
      ensures !(selected != old(selected) && selected.Some?) ==> tickIndex == old(tickIndex) && tickAll == old(tickAll)
      ensures selected == old(selected) ==> interval == old(interval)
    {
      Show(Close(State()));
    }

    /**
     * Interval `t` fires; a cleared interval no longer does anything. The
     * running interval ticks with the index and lists it captured, so a
     * full bar that reopens the open story keeps the same interval and the
     * same capture.
     */
    method IntervalFires(t: nat)
      requires Valid()
      modifies this`selected, this`index, this`progress, this`viewed, this`interval, this`nextInterval, this`tickIndex, this`tickAll
      ensures Valid()
      ensures old(interval) == Some(t) ==> State() == StaleTick(old(State()), user, old(tickIndex), old(tickAll))
      ensures old(interval) == Some(t) ==> (selected != old(selected) && selected.Some? ==>
        interval == Some(old(nextInterval)) && tickIndex == index && tickAll == All())
      ensures old(interval) == Some(t) && selected == old(selected) ==>
        interval == old(interval) && tickIndex == old(tickIndex) && tickAll == old(tickAll)
      ensures old(interval) != Some(t) ==>
        State() == old(State()) && interval == old(interval) && tickIndex == old(tickIndex) && tickAll == old(tickAll)
    {
      if interval == Some(t) {
        Show(StaleTick(State(), user, tickIndex, tickAll));
      }
    }

    /** Clicking the avatar of group `g`; the bar is only shown to a signed-in user. */
    method OpenGroup(g: nat)
      requires Valid() && user.Some? && g < |Keys(All(), AuthorOf)|
      modifies this`selected, this`index, this`progress, this`viewed, this`interval, this`nextInterval, this`tickIndex, this`tickAll
      ensures Valid() && State() == ClickGroup(old(State()), user, All(), g)
      ensures selected != old(selected) && selected.Some? ==>
        interval == Some(old(nextInterval)) && tickIndex == index && tickAll == All()
      ensures !(selected != old(selected) && selected.Some?) ==> tickIndex == old(tickIndex) && tickAll == old(tickAll)
      ensures selected == old(selected) ==> interval == old(interval)
    {
      Show(ClickGroup(State(), user, All(), g));
    }
  }
}
