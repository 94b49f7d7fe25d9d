# SocialConnect client logic, modelled in Dafny

SocialConnect is a React client for a social network whose data lives in a
hosted Supabase database. Most of its handlers are store calls. A number of
its components also hold real logic, and that logic is modelled here:

- the conversation timeline, which merges direct messages and post shares into
  one list ordered by time and groups message reactions;
- the reaction table under a message;
- the story viewer's state machine and the grouping of stories by author;
- the comment thread;
- hashtag counting in search and in the trending panel;
- the smaller validators and state updaters:
  - password rules;
  - post composition and the media picker;
  - like, save and follow counters on a post card;
  - notification read state;
  - the two settings panels;
  - the three story editors.

The store is an in-memory table of rows (a `seq` of records). Whatever the
store, the clock, the random generator, the file reader or the zxcvbn
strength library would supply comes in as a parameter. That covers whether a
call succeeded, the row it returned, `Date.now()` ids, random overlay
positions and strength scores. Server-side filters and orderings are
functions over the table (`MessagesQuery`, `CommentsQuery`). A component's
state is a `class` whose methods state the new state in terms of the old
one. The pure pieces (merging, grouping, counting, ranking) are functions,
and lemmas prove what the code promises about them.

Modules, one file each:

- `Wrappers`, `Text`: `Option`; trimming, lower-casing and prefix tests.
- `StableSort`: an insertion sort by an integer key, proved sorted, a permutation and stable. It stands for `Array.prototype.sort`, which is stable.
- `Buckets`: group-by in first-seen key order (the `reduce` / `Map` + `push` idiom) and filtering.
- `Rows`: the record types shared by the messaging modules, plus lookups by id.
- `Timeline`: `fetchMessages` of both chat panes: queries, tagging, reply and post lookups, the merge, the tombstone, reaction grouping.
- `Chat`: the two chat panes' state (`InstagramChat`, `EnhancedChat`): send, edit, delete for everyone, the typing timer.
- `Reactions`: `MessageReactions`: add, remove, counts, chip toggle, popover.
- `Stories`: `EnhancedStoriesBar`: viewer transitions, the progress interval, grouping.
- `Comments`: both comment sections: the thread build, adds, replies, notices, the reply-box toggle.
- `Hashtags`: the `#\w+` matcher and the search and trending tallies; `Top5`.
- `Search`: the search page's follow map and follow toggle.
- `Trending`: the trending panel's suggestions and follow counters.
- `Notifications`: the notifications page.
- `PostCards`: `PostCard`'s like, save, follow, edit and delete.
- `Compose`: `CreatePost` together with its `MediaUpload` picker.
- `Passwords`: the reset-password page and the signup checks of `AuthForm`.
- `Settings`: the notification and privacy settings panels.
- `StoryParts`, `StoryEditors`: `AdvancedStoryEditor`, `StoryEditor` and `EnhancedStoryUpload`.

## Model

| member | source | states |
|---|---|---|
| Text.TrimStart | src/components/messaging/EnhancedMessages.tsx:173 | the result is a suffix of the input, starts with a non-space, and only spaces were dropped |
| Text.TrimEnd | src/components/messaging/EnhancedMessages.tsx:173 | the result is a prefix of the input, ends with a non-space, and only spaces were dropped |
| Text.BlankIffAllSpace | src/components/messaging/InstagramMessages.tsx:296 | `!s.trim()` holds exactly when every character is white space |
| Text.TrimIdempotent | src/components/comments/CommentSection.tsx:95 | trimming stored (already trimmed) content changes nothing |
| Text.LowerChar | src/pages/Search.tsx:64 | A–Z map into a–z and every other character is kept |
| Text.Lower | src/pages/Search.tsx:64 | same length, with each character lower-cased |
| Text.LowerIdempotent | src/components/home/TrendingPanel.tsx:34 | lower-casing twice is lower-casing once |
| StableSort.SortBy | src/components/messaging/InstagramMessages.tsx:236-239 | the sorted timeline is a permutation of its input (same multiset and length) |
| StableSort.SortBySorted | src/components/messaging/InstagramMessages.tsx:236-239 | the sorted timeline is ascending by `created_at` |
| StableSort.SortByStable | src/components/messaging/InstagramMessages.tsx:236-239 | for every timestamp, the entries carrying it keep their input order (the sort is stable) |
| StableSort.SortByMembers | src/components/messaging/InstagramMessages.tsx:236-239 | the sorted list holds exactly the input's elements |
| StableSort.InsertSorted | src/components/messaging/InstagramMessages.tsx:236-239 | inserting into a sorted list keeps it sorted |
| StableSort.InsertWithKey | src/components/messaging/InstagramMessages.tsx:236-239 | an insertion puts the new element in front of the existing elements with the same key |
| Buckets.Bucket | src/components/messaging/InstagramMessages.tsx:270-276 | a bucket holds exactly the elements whose key is `k`, and is no longer than the input |
| Buckets.Keys | src/components/messaging/InstagramMessages.tsx:270-276 | a key is listed exactly when some element carries it |
| Buckets.KeysDistinct | src/components/messaging/InstagramMessages.tsx:270-276 | each key is listed once |
| Buckets.BucketSizesSum | src/components/messaging/InstagramMessages.tsx:270-276 | the bucket sizes add up to the input length, so nothing is lost or duplicated |
| Buckets.GroupBy | src/components/stories/EnhancedStoriesBar.tsx:222-240 | the group map has a key per author present, each mapped to that author's stories in input order |
| Buckets.Push | src/components/stories/EnhancedStoriesBar.tsx:231-237 | one `push` into the map turns the grouping of a prefix into the grouping of the prefix plus the element |
| Buckets.KeysInFirstSeenOrder | src/components/stories/EnhancedStoriesBar.tsx:222-240 | a key listed before another first occurs before any occurrence of the other |
| Buckets.BucketHead | src/components/stories/EnhancedStoriesBar.tsx:268-278 | a group's first element is the first element of the input with that key |
| Buckets.BucketAppend | src/components/stories/EnhancedStoriesBar.tsx:222-240 | grouping a concatenation concatenates the groups |
| Buckets.KeysPrefix | src/components/stories/EnhancedStoriesBar.tsx:222-240 | the keys of a prefix are a prefix of the keys of the whole |
| Buckets.Filter | src/components/comments/CommentSection.tsx:78 | the filtered list holds exactly the elements satisfying the predicate |
| Buckets.FilterComplement | src/components/comments/CommentSection.tsx:66-78 | a list splits by a predicate and its negation into two parts whose sizes add up to the whole |
| Rows.FindMessage | src/components/messaging/InstagramMessages.tsx:150-163 | a found message is in the table with that id; no result means no row has that id |
| Rows.FindMessageUnique | src/components/messaging/InstagramMessages.tsx:150-163 | with unique ids the lookup returns exactly the row with that id |
| Rows.FindPost | src/components/messaging/InstagramMessages.tsx:174-215 | a found post is in the table with that id; no result means no post has that id |
| Timeline.MessagesQuery | src/components/messaging/InstagramMessages.tsx:110-115 | the result holds exactly the rows between the two users, minus those deleted for everyone (and, in the enhanced pane, minus those deleted), ascending by time |
| Timeline.SharesQuery | src/components/messaging/InstagramMessages.tsx:166-170 | the result holds exactly the shares between the two users, ascending by time |
| Timeline.ReplyFor | src/components/messaging/InstagramMessages.tsx:146-163 | no `reply_to`, or a failed lookup, gives no preview; a preview is always that of a table row with the replied-to id |
| Timeline.PostFor | src/components/messaging/InstagramMessages.tsx:174-233 | a share without a post id, or a failed lookup, has no post; a found post has the share's post id |
| Timeline.TagMessages | src/components/messaging/InstagramMessages.tsx:220-225 | one `message` entry per fetched message, in order, each with its reply lookup |
| Timeline.TagShares | src/components/messaging/InstagramMessages.tsx:228-233 | one `shared_post` entry per fetched share, in order, each with its post lookup |
| Timeline.Combine | src/components/messaging/InstagramMessages.tsx:236-239 | the timeline's length is the sum of both streams; it is their multiset union and ascending by time |
| Timeline.CombineTies | src/components/messaging/InstagramMessages.tsx:236-239 | among entries with equal `created_at`, the messages come first in fetched order, then the shares in fetched order |
| Timeline.CombineMembers | src/components/messaging/InstagramMessages.tsx:236-239 | an entry is in the timeline exactly when it is in one of the two streams |
| Timeline.InstagramFetch | src/components/messaging/InstagramMessages.tsx:101-258 | the fetch gives a timeline exactly when the messages query succeeds |
| Timeline.EnhancedFetch | src/components/messaging/EnhancedMessages.tsx:84-145 | a failed query contributes an empty stream, so the timeline's length is that of the successful streams |
| Timeline.TaggedMessage | src/components/messaging/InstagramMessages.tsx:220-225 | every message entry wraps a fetched message and its reply lookup |
| Timeline.TaggedShare | src/components/messaging/InstagramMessages.tsx:228-233 | every share entry wraps a fetched share and its post lookup |
| Timeline.InstagramShowsOnlyVisible | src/components/messaging/InstagramMessages.tsx:110-170 | every entry is a table row between the two users; no message deleted for everyone is an entry |
| Timeline.InstagramShowsEverything | src/components/messaging/InstagramMessages.tsx:220-242 | every visible message, and every share when the shares query succeeds, appears in the timeline |
| Timeline.EnhancedShowsOnlyVisible | src/components/messaging/EnhancedMessages.tsx:89-119 | every message entry is neither deleted nor deleted for everyone; every entry is a row between the two users |
| Timeline.EnhancedShowsEverything | src/components/messaging/EnhancedMessages.tsx:88-134 | every message that is neither deleted nor deleted for everyone, when the messages query succeeds, and every share of the conversation, when the shares query succeeds, appears with its joined reply or post |
| Timeline.EnhancedShowsMessage | src/components/messaging/EnhancedMessages.tsx:88-99 | the message half of the above |
| Timeline.EnhancedShowsShare | src/components/messaging/EnhancedMessages.tsx:101-119 | the share half of the above |
| Timeline.EnhancedMessagesFailure | src/components/messaging/EnhancedMessages.tsx:121-134 | when the messages query fails, the shares are still shown, all of them |
| Timeline.ReplyToDeletedStillPreviews | src/components/messaging/InstagramMessages.tsx:150-153 | a reply to any row of the table, even one deleted for everyone, previews that row |
| Timeline.ReplyToMissingShowsNothing | src/components/messaging/InstagramMessages.tsx:150-163 | a reply whose target is not in the table shows no preview and raises nothing |
| Timeline.RenderShare | src/components/messaging/InstagramMessages.tsx:413-428 | a share without a post renders the "no longer available" placeholder; otherwise the post preview |
| Timeline.Grouped | src/components/messaging/InstagramMessages.tsx:270-276 | the reaction map has a key exactly for each `message_id` present, each mapped to its reactions in fetched order |
| Timeline.GroupReactions | src/components/messaging/InstagramMessages.tsx:270-276 | the loop with `push` into the accumulator computes `Grouped` |
| Timeline.ReactionInOneBucket | src/components/messaging/InstagramMessages.tsx:270-276 | each reaction lies in the bucket of its own message and in no other |
| Timeline.ReactionBucketsSum | src/components/messaging/InstagramMessages.tsx:270-276 | the bucket sizes sum to the number of reactions |
| Chat.ReplyTarget | src/components/messaging/InstagramMessages.tsx:307 | `reply_to` is the replied-to id when one is set and non-empty, else null |
| Chat.Outgoing | src/components/messaging/InstagramMessages.tsx:303-311 | the inserted row has trimmed, non-empty content; it is unread, not deleted and not edited; its `reply_to` is the reply target |
| Chat.OutgoingVisible | src/components/messaging/InstagramMessages.tsx:303-311 | the sent row passes both users' conversation filters |
| Chat.ApplyEdit | src/components/messaging/InstagramMessages.tsx:352-360 | only the sender's own row with that id takes the trimmed content and the edited flag; every other row is unchanged |
| Chat.ApplyDeleteForEveryone | src/components/messaging/InstagramMessages.tsx:385-393 | only the sender's own row with that id is flagged as deleted for everyone; every other row is unchanged |
| Chat.UpdatesSpareOthers | src/components/messaging/EnhancedMessages.tsx:251-260 | a row sent by someone else is never changed by an edit or a delete for everyone |
| Chat.DeletedRowsFlagged | src/components/messaging/InstagramMessages.tsx:385-393 | a targeted row comes out flagged as deleted for everyone |
| Chat.DeletedForEveryoneNotShown | src/components/messaging/InstagramMessages.tsx:110-115 | after a delete for everyone, the targeted message appears in neither pane's timeline |
| Chat.ReactionsFor | src/components/messaging/InstagramMessages.tsx:260-268 | the fetched reactions are exactly those whose `message_id` is one of the fetched messages |
| Chat.IdsOf | src/components/messaging/InstagramMessages.tsx:246 | the id set holds exactly the fetched messages' ids |
| Chat.SentMessageShown | src/components/messaging/InstagramMessages.tsx:295-339 | a sent message shows up in the refetched timeline |
| Chat.InstagramChat.constructor | src/components/messaging/InstagramMessages.tsx:30-39 | the pane starts empty, not typing, with no timer pending |
| Chat.InstagramChat.HandleTyping | src/components/messaging/InstagramMessages.tsx:285-293 | typing is on; the pending timer is replaced by exactly one new timer, never stacked |
| Chat.InstagramChat.TimerFires | src/components/messaging/InstagramMessages.tsx:290-292 | the pending timer's expiry turns typing off; a cleared timer has no effect |
| Chat.InstagramChat.FetchMessages | src/components/messaging/InstagramMessages.tsx:101-258 | without a user or a conversation nothing changes; otherwise `InstagramRefetched`: the timeline is `InstagramFetch` when the messages query succeeds and is kept when it fails, and reactions are the grouped reactions of the fetched messages when there are some and their query succeeds, else kept |
| Chat.InstagramChat.SendMessage | src/components/messaging/InstagramMessages.tsx:295-339 | blank input, a missing user or conversation, or a failed insert changes nothing; otherwise exactly `Outgoing` is appended, the input, reply and typing state are cleared, and timeline and reactions are as `InstagramRefetched` says over the new table (a failed refetch keeps both) |
| Chat.InstagramChat.Post | src/components/messaging/InstagramMessages.tsx:313-328 | the accepted insert appends exactly the one row and clears the draft, the reply target and the typing flag |
| Chat.InstagramChat.EditMessage | src/components/messaging/InstagramMessages.tsx:341-381 | blank content is refused before any store call; a successful edit applies `ApplyEdit`, closes the edit box, and leaves timeline and reactions as `InstagramRefetched` says |
| Chat.InstagramChat.DeleteForEveryone | src/components/messaging/InstagramMessages.tsx:383-411 | a failed call changes nothing; a successful one applies `ApplyDeleteForEveryone` and leaves timeline and reactions as `InstagramRefetched` says |
| Chat.EnhancedChat.constructor | src/components/messaging/EnhancedMessages.tsx:33-40 | the pane starts empty |
| Chat.EnhancedChat.FetchMessages | src/components/messaging/EnhancedMessages.tsx:84-145 | with both users the timeline is `EnhancedFetch` and the reactions are as `EnhancedReactionsRefetched` says: grouped when messages came back and their reactions were read, else kept |
| Chat.EnhancedChat.SendMessage | src/components/messaging/EnhancedMessages.tsx:172-207 | blank input or a failed insert changes nothing; otherwise exactly `Outgoing` is appended, the input and reply cleared, the timeline is `EnhancedFetch` of the new table and reactions follow `EnhancedReactionsRefetched` |
| Chat.EnhancedChat.Post | src/components/messaging/EnhancedMessages.tsx:188-201 | the accepted insert appends exactly the one row and clears the draft and the reply target |
| Chat.EnhancedChat.EditMessage | src/components/messaging/EnhancedMessages.tsx:209-249 | blank content is refused before any store call; the update is filtered on both id and sender; then the timeline is `EnhancedFetch` and reactions follow `EnhancedReactionsRefetched` |
| Chat.EnhancedChat.DeleteForEveryone | src/components/messaging/EnhancedMessages.tsx:251-279 | only rows the user sent are flagged; then the timeline is `EnhancedFetch` and reactions follow `EnhancedReactionsRefetched` |
| Reactions.FindByUser | src/components/messaging/MessageReactions.tsx:26 | no result exactly when the user has no reaction in the list; a result is the first reaction by that user |
| Reactions.Counts | src/components/messaging/MessageReactions.tsx:74-77 | each type's count is the number of reactions of that type |
| Reactions.CountStep | src/components/messaging/MessageReactions.tsx:74-77 | one step of the `reduce` turns the counts of a prefix into the counts of the longer prefix |
| Reactions.CountsAfterStep | src/components/messaging/MessageReactions.tsx:74-77 | the `acc[type] = (acc[type] \|\| 0) + 1` step keeps the counts right |
| Reactions.CountsSum | src/components/messaging/MessageReactions.tsx:74-77 | a type has a count exactly when some reaction has it, and the counts sum to the number of reactions |
| Reactions.SetType | src/components/messaging/MessageReactions.tsx:28-33 | only the row with that id takes the new type; ids, messages and users are kept |
| Reactions.Unreact | src/components/messaging/MessageReactions.tsx:60-65 | exactly the rows for (message, user) are deleted, and no other rows |
| Reactions.ReactionBar.constructor | src/components/messaging/MessageReactions.tsx:17 | the popover starts closed |
| Reactions.ReactionBar.AddReaction | src/components/messaging/MessageReactions.tsx:21-55 | no user: nothing happens; an existing reaction is updated in place; otherwise exactly one row is inserted; the popover closes |
| Reactions.ReactionBar.RemoveReaction | src/components/messaging/MessageReactions.tsx:57-71 | with a user and a successful call the table becomes `Unreact`; otherwise it is unchanged |
| Reactions.ReactionBar.ChipClick | src/components/messaging/MessageReactions.tsx:87 | clicking the chip of one's current emoji removes the reaction and leaves the popover as it was; any other chip switches to it or inserts it and closes the popover for a signed-in user; a failed store call leaves the rows as they were |
| Reactions.ReactionBar.PopoverPick | src/components/messaging/MessageReactions.tsx:101-111 | the popover always adds: re-picking the current emoji keeps the reaction |
| Reactions.PopoverIsNotAToggle | src/components/messaging/MessageReactions.tsx:107 | re-picking the current emoji leaves the table as it was, while the chip would have deleted the reaction |
| Reactions.SetTypeKeepsOnePerUser | src/components/messaging/MessageReactions.tsx:26-42 | an in-place update keeps at most one reaction per user on the message |
| Reactions.InsertKeepsOnePerUser | src/components/messaging/MessageReactions.tsx:26-42 | an insert for a user with no reaction keeps at most one reaction per user |
| Reactions.UnreactClears | src/components/messaging/MessageReactions.tsx:57-65 | after the delete the user has no reaction on the message, and all other rows remain |
| Stories.View | src/components/stories/EnhancedStoriesBar.tsx:135-144 | selects the story and index with progress 0; the view is counted exactly when the viewer is not the owner |
| Stories.Next | src/components/stories/EnhancedStoriesBar.tsx:146-156 | opens index i+1 of own-then-others when in range; otherwise closes the viewer with progress 0 |
| Stories.Prev | src/components/stories/EnhancedStoriesBar.tsx:158-165 | at index 0 nothing changes; otherwise index i−1 is opened |
| Stories.Tick | src/components/stories/EnhancedStoriesBar.tsx:62-76 | below 100 the progress grows by exactly 2; at 100 or more the next story opens and progress is 0 |
| Stories.StaleTick | src/components/stories/EnhancedStoriesBar.tsx:62-76 | a tick of the interval whose `handleNextStory` was captured when it started: progress is live, but a full bar opens the story after the captured index in the captured list, or closes past its end keeping the live index |
| Stories.StaleTickAgrees | src/components/stories/EnhancedStoriesBar.tsx:62-76 | while the captured index is the live one, the captured tick is exactly `Tick` |
| Stories.Close | src/components/stories/EnhancedStoriesBar.tsx:304 | the viewer is closed and nothing else changes |
| Stories.ClickGroup | src/components/stories/EnhancedStoriesBar.tsx:268-278 | a group click opens the group's first story but stores the group's position as the flat index |
| Stories.ClickGroupAtFlatIndex | src/components/stories/EnhancedStoriesBar.tsx:268-278 | the corrected click opens the same story and views, with the story's own flat index |
| Stories.StepsStayOnGrid | src/components/stories/EnhancedStoriesBar.tsx:62-76 | progress stays an even number from 0 to 100 under every transition |
| Stories.StepsKeepConsistent | src/components/stories/EnhancedStoriesBar.tsx:146-165 | once the stored index matches the open story, next, prev, tick and close keep it that way |
| Stories.TicksFromEmpty | src/components/stories/EnhancedStoriesBar.tsx:62-76 | n ticks from progress 0, while n ≤ 50, leave progress 2n |
| Stories.FiftyFirstTickAdvances | src/components/stories/EnhancedStoriesBar.tsx:62-76 | the story stays open for 50 ticks and the 51st moves to the next one |
| Stories.NextThenPrev | src/components/stories/EnhancedStoriesBar.tsx:146-165 | from a story that has a successor, next then prev gives back the same story and index |
| Stories.OwnStoriesNotCounted | src/components/stories/EnhancedStoriesBar.tsx:141-143 | a viewer who owns every story never counts a view, whatever the ticks |
| Stories.GroupClickRepeatsStory | src/components/stories/EnhancedStoriesBar.tsx:278 | an input where clicking the second group then pressing next shows that group's story again |
| Stories.GroupClickReplaysForever | src/components/stories/EnhancedStoriesBar.tsx:62-76 | after that group click the interval captured index 1, so every full bar reopens b1 at index 2 and counts one more view of it; with the flat index 2 captured the first full bar closes the viewer |
| Stories.GroupStories | src/components/stories/EnhancedStoriesBar.tsx:222-240 | the loops produce the author order and groups of `GroupBy` over own-then-others |
| Stories.OwnGroupOnly | src/components/stories/EnhancedStoriesBar.tsx:225-228 | the viewer's own stories form exactly one group, keyed by the viewer |
| Stories.OwnGroup | src/components/stories/EnhancedStoriesBar.tsx:225-228 | a non-empty list of the viewer's own stories groups to the single key `me` |
| Stories.AddToGroup | src/components/stories/EnhancedStoriesBar.tsx:231-237 | one loop step extends the author order and groups by one story |
| Stories.OwnGroupFirst | src/components/stories/EnhancedStoriesBar.tsx:222-240 | with own stories the viewer's group comes first and holds own stories then any fetched ones of the viewer |
| Stories.EachStoryInOneGroup | src/components/stories/EnhancedStoriesBar.tsx:222-240 | every story lies in its author's group and no other; group sizes sum to the story count |
| Stories.GroupsInFirstSeenOrder | src/components/stories/EnhancedStoriesBar.tsx:222-240 | the groups are ordered by their authors' first appearance |
| Stories.StoryBar.constructor | src/components/stories/EnhancedStoriesBar.tsx:33-38 | the bar starts with no stories, no open story, index 0 and progress 0 |
| Stories.StoryBar.Show | src/components/stories/EnhancedStoriesBar.tsx:62-76 | a change of the open story clears the old interval before starting a new one, which captures the new index and the current own-then-others list; closing leaves none; otherwise the interval and its capture are kept |
| Stories.StoryBar.Fetch | src/components/stories/EnhancedStoriesBar.tsx:78-117 | with a user, failed reads become empty lists (`\|\| []`) |
| Stories.StoryBar.ViewStory | src/components/stories/EnhancedStoriesBar.tsx:135-144 | the state becomes `View` of the old state; When the open story changes to another, a new interval starts and captures the new index and the own-then-others list; when it does not change, the interval and its capture stay. |
| Stories.StoryBar.NextStory | src/components/stories/EnhancedStoriesBar.tsx:146-156 | the state becomes `Next` of the old state over own-then-others; When the open story changes to another, a new interval starts and captures the new index and the own-then-others list; when it does not change, the interval and its capture stay. |
| Stories.StoryBar.PrevStory | src/components/stories/EnhancedStoriesBar.tsx:158-165 | the state becomes `Prev` of the old state; When the open story changes to another, a new interval starts and captures the new index and the own-then-others list; when it does not change, the interval and its capture stay. |
| Stories.StoryBar.CloseViewer | src/components/stories/EnhancedStoriesBar.tsx:337 | the state becomes `Close` of the old state and no interval remains |
| Stories.StoryBar.IntervalFires | src/components/stories/EnhancedStoriesBar.tsx:62-76 | the live interval's firing applies `StaleTick` with the index and lists it captured; when that reopens the open story the same interval and capture stay; when it opens another story a new interval captures the new index and lists; a cleared interval changes nothing, capture included |
| Stories.StoryBar.OpenGroup | src/components/stories/EnhancedStoriesBar.tsx:268-278 | the state becomes `ClickGroup` of the old state; When the open story changes to another, a new interval starts and captures the new index and the own-then-others list; when it does not change, the interval and its capture stay. |
| Comments.Ids | src/components/comments/CommentSection.tsx:59-65 | the ids of the fetched comments, in order |
| Comments.CommentsQuery | src/components/comments/CommentSection.tsx:50-55 | exactly the post's comments, ascending by `created_at` |
| Comments.IdsSnoc | src/components/comments/CommentSection.tsx:59-65 | the ids of a list with one more comment gain that comment's id |
| Comments.IdSetSnoc | src/components/comments/CommentSection.tsx:59-65 | the first pass's map gains the new comment's id |
| Comments.ThreadSnoc | src/components/comments/CommentSection.tsx:66-76 | one more comment joins the roots if it has no parent, else its parent's replies |
| Comments.BuildThread | src/components/comments/CommentSection.tsx:59-76 | the two passes give roots = the parentless comments in order, and each comment's replies = its fetched children in order |
| Comments.EmptyReplyLists | src/components/comments/CommentSection.tsx:62-64 | the first pass gives exactly the fetched ids as keys, each with an empty reply list |
| Comments.RootsSnoc | src/components/comments/CommentSection.tsx:72-74 | one more comment extends the root list exactly when it has no parent |
| Comments.AttachKeepsChildren | src/components/comments/CommentSection.tsx:66-71 | pushing a reply onto its fetched parent's list keeps every list equal to that id's replies so far |
| Comments.SkipKeepsChildren | src/components/comments/CommentSection.tsx:66-74 | a root or an orphan changes no reply list |
| Comments.PlaceSnoc | src/components/comments/CommentSection.tsx:66-76 | the second pass over one more comment is one more step |
| Comments.PlaceMeetsSpec | src/components/comments/CommentSection.tsx:59-76 | the second pass over empty lists yields the parentless comments as roots and, for every fetched id, exactly its children in fetch order |
| Comments.RootsAreTheParentless | src/components/comments/EnhancedCommentSection.tsx:60-76 | an id is a root exactly when it belongs to a fetched comment with no parent |
| Comments.ReplyFollowsParent | src/components/comments/EnhancedCommentSection.tsx:63-72 | a comment whose parent was fetched is among that parent's replies, even when the parent comes later |
| Comments.OrphanAppearsNowhere | src/components/comments/EnhancedCommentSection.tsx:67-72 | a comment whose parent was not fetched is neither a root nor anyone's reply |
| Comments.SameIdSameComment | src/components/comments/CommentSection.tsx:59-65 | with unique ids the map entry for an id is that comment |
| Comments.ReportedCountIncludesOrphans | src/components/comments/CommentSection.tsx:78 | the reported count equals roots + attached replies + orphans |
| Comments.FilterSplit | src/components/comments/CommentSection.tsx:66-78 | the non-root comments split into attached and orphaned ones |
| Comments.ToggleReply | src/components/comments/CommentSection.tsx:194 | Reply on the open comment closes the box; on any other comment it opens that one |
| Comments.ToggleTwice | src/components/comments/EnhancedCommentSection.tsx:225 | pressing Reply twice on a closed comment opens and then closes it |
| Comments.CommentNotice | src/components/comments/EnhancedCommentSection.tsx:121-133 | a notice goes to the post owner exactly when the post was read, has an owner and the owner is not the commenter |
| Comments.ReplyNotice | src/components/comments/EnhancedCommentSection.tsx:179-190 | a notice goes to the parent's author exactly when that author is not the replier |
| Comments.NoSelfNotice | src/components/comments/EnhancedCommentSection.tsx:121-190 | no notice is ever addressed to its own actor |
| Comments.Bumped | src/components/comments/CommentSection.tsx:108-118 | a read count is raised by exactly 1; a failed read writes 1 |
| Comments.CommentSection.constructor | src/components/comments/CommentSection.tsx:33-37 | the section starts with an empty thread and empty inputs |
| Comments.CommentSection.Fetch | src/components/comments/CommentSection.tsx:43-83 | on success the thread is `BuildThread` of the query and the count is the query's length |
| Comments.CommentSection.AddComment | src/components/comments/CommentSection.tsx:85-125 | blank input, no user or a failed insert change nothing; otherwise one trimmed root comment is stored, the count is bumped unless its write is refused, and the notice is sent when due and accepted; neither refusal is noticed |
| Comments.CommentSection.AddReply | src/components/comments/EnhancedCommentSection.tsx:141-196 | as for comments, with the parent id set and the reply notice; a refused count write or notice insert again goes unnoticed |
| Comments.CommentSection.PressReply | src/components/comments/CommentSection.tsx:194 | the open reply box becomes `ToggleReply` of the old one |
| Comments.StoredContentTrimmed | src/components/comments/CommentSection.tsx:85-96 | stored content is non-empty and already trimmed |
| Hashtags.WordRun | src/pages/Search.tsx:62 | the longest prefix of word characters (`\w+`) |
| Hashtags.Matches | src/pages/Search.tsx:62 | every match is `#` followed by one or more word characters |
| Hashtags.MatchesOccur | src/pages/Search.tsx:62 | every match occurs in the text, not followed by a word character |
| Hashtags.OccursShift | src/pages/Search.tsx:62 | an occurrence in a suffix is an occurrence in the whole text |
| Hashtags.NoHashNoMatches | src/components/home/TrendingPanel.tsx:31-32 | a text without `#` has no matches |
| Hashtags.LowerAll | src/pages/Search.tsx:64 | each match lower-cased, in order |
| Hashtags.AllTagsAreLowerTags | src/components/home/TrendingPanel.tsx:32-34 | every collected tag is a lower-case hashtag |
| Hashtags.Hits | src/pages/Search.tsx:65 | exactly the tags containing the query |
| Hashtags.HitsAppend | src/pages/Search.tsx:61-75 | filtering works post by post |
| Hashtags.Tally | src/pages/Search.tsx:61-75 | one entry per distinct tag in first-seen order, whose count is the tag's number of occurrences |
| Hashtags.FindTag | src/pages/Search.tsx:66 | `acc.find`: the first entry with the tag, or none |
| Hashtags.Bump | src/pages/Search.tsx:67-71 | a seen tag's count grows by 1 in place; a new tag is appended with count 1 |
| Hashtags.TallySnoc | src/pages/Search.tsx:61-75 | one `reduce` step (`count++` or `push`) turns the tally of a prefix into the tally of the longer prefix |
| Hashtags.TallySnocSeen | src/pages/Search.tsx:67-68 | the `count++` branch, for a tag already seen |
| Hashtags.BumpFound | src/pages/Search.tsx:66-68 | `count++` on the found entry raises that entry by 1 and leaves every other entry as it was |
| Hashtags.BumpCounts | src/pages/Search.tsx:66-68 | with unique tags, adding 1 to exactly the tag's own entry is the `count++` step |
| Hashtags.CountSnoc | src/pages/Search.tsx:61-75 | one more tag adds 1 to its own count and leaves the other counts alone |
| Hashtags.TallySnocNew | src/pages/Search.tsx:69-71 | the `push` branch, for a new tag |
| Hashtags.NextMatch | src/pages/Search.tsx:63-64 | one more match extends the lower-cased list by its lower-cased form |
| Hashtags.NextText | src/components/home/TrendingPanel.tsx:31-37 | one more post extends the collected tags by its lower-cased matches |
| Hashtags.SearchEntries | src/pages/Search.tsx:61-75 | each entry is a lower-case hashtag containing the query, counted over all posts, and unique by tag |
| Hashtags.TallyCounts | src/pages/Search.tsx:61-75 | each count is the number of occurrences, and the counts sum to the number of matches |
| Hashtags.SearchStep | src/pages/Search.tsx:63-72 | the inner loop's invariant step |
| Hashtags.SearchTally | src/pages/Search.tsx:61-75 | the nested loop computes `Tally` of the matching tags |
| Hashtags.TrendingTally | src/components/home/TrendingPanel.tsx:30-37 | the nested `forEach` over the Map computes `Tally` of all tags |
| Hashtags.Top5 | src/components/home/TrendingPanel.tsx:39-42 | at most 5 entries, taken from the input, with non-increasing counts; ties are stable: for every count the kept entries of that count are the first ones of that count in Map order |
| Hashtags.Top5Ranking | src/components/home/TrendingPanel.tsx:39-42 | an omitted entry means five were kept, none with a smaller count |
| Hashtags.SortedPrefixTies | src/components/home/TrendingPanel.tsx:39-42 | a prefix of the stably sorted entries holds, for each count, the first entries of that count, in input order |
| Hashtags.NoTagsNoTrending | src/components/home/TrendingPanel.tsx:31-42 | posts without `#` give no tags and an empty trending list |
| Search.FollowedAmong | src/pages/Search.tsx:102-106 | exactly the listed users the viewer follows |
| Search.Unfollowed | src/pages/Search.tsx:117-122 | exactly the (viewer, target) follow rows are deleted |
| Search.FollowThenUnfollow | src/pages/Search.tsx:109-130 | follow then unfollow restores the follow table (up to that pair) |
| Search.UnfollowKeepsOthers | src/pages/Search.tsx:117-122 | unfollowing someone not followed leaves the table as it is |
| Search.SearchPage.constructor | src/pages/Search.tsx:17-23 | the page starts with empty results and maps |
| Search.SearchPage.FetchFollowStatus | src/pages/Search.tsx:88-107 | `followMap` is true exactly for the listed users the viewer follows |
| Search.SearchPage.PerformSearch | src/pages/Search.tsx:33-86 | a blank query does nothing; otherwise users and posts are stored (failed reads as empty) and hashtags are `Tally` of the matching tags |
| Search.SearchPage.ToggleFollow | src/pages/Search.tsx:109-144 | refuses self-follow and a missing user; flips only the target's flag; a notice is inserted only on follow |
| Trending.FindUser | src/components/home/TrendingPanel.tsx:86-97 | a found profile has that id; none means no profile has it |
| Trending.FindUserAt | src/components/home/TrendingPanel.tsx:86-97 | with unique ids the lookup finds the row at its index |
| Trending.SetCounts | src/components/home/TrendingPanel.tsx:100-109 | only the follower's `following_count` and the target's `followers_count` change, each only when its write is accepted |
| Trending.FollowRaisesBothCounts | src/components/home/TrendingPanel.tsx:100-109 | after a follow with successful reads and writes, the follower's and target's counts are exactly one higher |
| Trending.Excluded | src/components/home/TrendingPanel.tsx:60-61 | the exclusion list always holds the viewer, plus the followed users when that read succeeded |
| Trending.NotIn | src/components/home/TrendingPanel.tsx:62-66 | exactly the profiles not excluded |
| Trending.Suggestions | src/components/home/TrendingPanel.tsx:62-68 | at most 3 non-excluded profiles, by non-increasing follower count |
| Trending.SuggestionsAreTop | src/components/home/TrendingPanel.tsx:62-68 | an omitted candidate means three were shown, none with fewer followers |
| Trending.FollowingOf | src/components/home/TrendingPanel.tsx:55-60 | exactly the ids the viewer follows |
| Trending.TrendingPanel.constructor | src/components/home/TrendingPanel.tsx:13-14 | the panel starts with no topics and no suggestions |
| Trending.TrendingPanel.FetchTrending | src/components/home/TrendingPanel.tsx:21-48 | the topics are the top 5 of the tag tally (none on a failed read) |
| Trending.TrendingPanel.FetchSuggested | src/components/home/TrendingPanel.tsx:50-74 | a successful users read stores `Suggestions` of the profiles minus the viewer and (when that read succeeded) the followed ids, so the viewer and anyone followed never appear; a failed users read stores an empty list |
| Trending.TrendingPanel.HandleFollow | src/components/home/TrendingPanel.tsx:76-115 | one follow row is inserted on success; the counters are set by the read-then-write updates whether or not the insert succeeded, each only when its own write is accepted |
| Notifications.UnreadCount | src/pages/Notifications.tsx:154 | the number of unread entries: 0 exactly when every entry is read |
| Notifications.MarkedRead | src/pages/Notifications.tsx:80-84 | only the entry with that id becomes read; the order and every other entry are unchanged |
| Notifications.AllRead | src/pages/Notifications.tsx:98 | same length, every entry read, nothing else changed |
| Notifications.MarkedReadIdempotent | src/pages/Notifications.tsx:80-84 | marking twice is marking once |
| Notifications.MarkedReadCount | src/pages/Notifications.tsx:80-84 | marking lowers the unread count by the number of unread entries with that id |
| Notifications.AtMostOneWithId | src/pages/Notifications.tsx:80-84 | with unique ids at most one unread entry carries an id |
| Notifications.NoneWithId | src/pages/Notifications.tsx:80-84 | an absent id matches nothing |
| Notifications.UnreadWithIdAt | src/pages/Notifications.tsx:80-84 | an unread entry with the id is counted |
| Notifications.MarkAsReadLowersByAtMostOne | src/pages/Notifications.tsx:80-84 | the unread count drops by at most one, and by exactly one when the entry was unread |
| Notifications.AllReadNoneUnread | src/pages/Notifications.tsx:98 | after marking all, the length is unchanged and the unread count is 0 |
| Notifications.ActorName | src/pages/Notifications.tsx:122-124 | "first last" when both are non-empty, else the username |
| Notifications.MessageOf | src/pages/Notifications.tsx:121-142 | a known type gives the actor's name and its ending; otherwise the stored message, then "New notification" |
| Notifications.MessageNeverEmpty | src/pages/Notifications.tsx:121-142 | the message is never empty, and a typed one starts with the actor's name |
| Notifications.NotificationsPage.constructor | src/pages/Notifications.tsx:14-15 | the page starts empty and loading |
| Notifications.NotificationsPage.Fetch | src/pages/Notifications.tsx:40-71 | with a user the list becomes the data read (or stays on failure) and loading ends |
| Notifications.NotificationsPage.MarkAsRead | src/pages/Notifications.tsx:73-88 | the list becomes `MarkedRead` of the old list |
| Notifications.NotificationsPage.MarkAllAsRead | src/pages/Notifications.tsx:90-102 | the list becomes `AllRead` of the old list |
| Notifications.NotificationsPage.Click | src/pages/Notifications.tsx:190 | a click marks the entry read only if it was unread |
| PostCards.ClampZero | src/components/post/PostCard.tsx:161 | `Math.max(0, c)`: at least c, and c itself when c is not negative |
| PostCards.LikeCount | src/components/post/PostCard.tsx:147-177 | unlike gives max(0, c−1); like gives c+1 |
| PostCards.LikeThenUnlike | src/components/post/PostCard.tsx:147-177 | like then unlike restores the count |
| PostCards.UnlikeThenLikeAtZero | src/components/post/PostCard.tsx:147-177 | at 0, unlike then like gives 1: the clamp loses the round trip |
| PostCards.LikeCountNonNegative | src/components/post/PostCard.tsx:147-177 | a like or unlike never takes a count that is not negative below zero |
| PostCards.SavedCount | src/components/post/PostCard.tsx:218-253 | save gives n+1, unsave max(0, n−1), with a failed read as 0 |
| PostCards.Without | src/components/post/PostCard.tsx:147-159 | the delete keeps exactly the other rows |
| PostCards.PostCard.constructor | src/components/post/PostCard.tsx:35-47 | the card starts unliked, unsaved, not following, with the post's stored like count unclamped, its content and edited flag |
| PostCards.PostCard.Mount | src/components/post/PostCard.tsx:50-115 | without a user nothing changes; with one, each flag is set exactly when its read succeeds and exactly one row matches (one's own post is never checked for a follow), and the count becomes the number of like rows, or 0 when that read fails |
| PostCards.PostCard.PressLike | src/components/post/PostCard.tsx:142-190 | ignored with no user or while a like is in flight; otherwise the like row is added or deleted, the count updated, and a notice sent only when the liker is not the owner; each of the three writes may be refused, leaving its table as it was, and the press goes on regardless |
| PostCards.PostCard.SettleLike | src/components/post/PostCard.tsx:160-202 | the pending branch sets `isLiked` and the count; `isLiking` ends |
| PostCards.PostCard.Save | src/components/post/PostCard.tsx:206-270 | with a user the saved flag flips, the save row is added or deleted, and `saved_count` follows `SavedCount`; a refused row or count write leaves that table as it was while the flag still flips |
| PostCards.PostCard.PressFollow | src/components/post/PostCard.tsx:272-295 | refuses one's own post, no user and an in-flight follow; otherwise the follow row is added or deleted and a follow notifies the author; a refused write leaves its table as it was while the press goes on |
| PostCards.PostCard.SettleFollow | src/components/post/PostCard.tsx:285-316 | `isFollowing` flips for the pending branch; loading ends |
| PostCards.PostCard.Edit | src/components/post/PostCard.tsx:319-354 | a no-op for non-owners and on failure; otherwise the content is stored and marked edited |
| PostCards.PostCard.Delete | src/components/post/PostCard.tsx:356-383 | only the owner's successful delete removes the post |
| Compose.KindOf | src/components/media/MediaUpload.tsx:34 | an item is an image exactly when its MIME type starts with `image/` |
| Compose.Accepted | src/components/media/MediaUpload.tsx:21-41 | only files of at most 10 MiB become items, each from its own file |
| Compose.AcceptedKeepsSmall | src/components/media/MediaUpload.tsx:22-29 | every file within the limit is added |
| Compose.AcceptedSnoc | src/components/media/MediaUpload.tsx:21-41 | the per-file loop skips a large file and appends a small one |
| Compose.AcceptedAppend | src/components/media/MediaUpload.tsx:21-41 | selections are handled file by file, in order |
| Compose.RemoveAt | src/components/media/MediaUpload.tsx:47-53 | exactly index i is removed; an index out of range changes nothing |
| Compose.RemoveAtKeepsOrder | src/components/media/MediaUpload.tsx:47-53 | the remaining items keep their order |
| Compose.PostKind | src/components/post/CreatePost.tsx:42-44 | "text" exactly with no media; otherwise "video" exactly when the first item is a video, else "image" |
| Compose.UrlsOf | src/components/post/CreatePost.tsx:37-51 | null exactly with no media; otherwise the urls in the order of the composer's list |
| Compose.Raised | src/components/post/CreatePost.tsx:64-76 | a read count is raised by 1; a failed read writes 1 |
| Compose.Composer.constructor | src/components/post/CreatePost.tsx:21-24 | the composer starts empty and public |
| Compose.Composer.EmojiClick | src/components/post/CreatePost.tsx:26-28 | the emoji is appended to the end of the content |
| Compose.Composer.SelectFiles | src/components/media/MediaUpload.tsx:18-45 | the accepted files' items are appended in the order their reads finish, any rearrangement of the selection's accepted files; the picker's list gains exactly those items; the composer receives the list just stored |
| Compose.ArrivalOrderDecidesKind | src/components/media/MediaUpload.tsx:30-42 | a video selected before an image whose read finishes first gives an image post, where selection order would give a video post |
| Compose.Composer.RemoveMedia | src/components/media/MediaUpload.tsx:47-53 | the picker's list loses index i and the composer receives it |
| Compose.Composer.MediaUrls | src/components/post/CreatePost.tsx:37-40 | the loop collects each item's url in order |
| Compose.Composer.Submit | src/components/post/CreatePost.tsx:30-97 | no-op without a user or with blank content and no media; otherwise exactly one post row is stored, the count raised unless its write is refused (unnoticed), and content, media and visibility reset, but the picker keeps its list |
| Compose.Composer.SubmitClearingPicker | src/components/post/CreatePost.tsx:78-80 | the corrected submit also empties the picker, so the picker and composer stay in step |
| Compose.AcceptedOne | src/components/media/MediaUpload.tsx:22-41 | a single file within the limit becomes a single item |
| Compose.PublishedMediaComesBack | src/components/post/CreatePost.tsx:78-80 | pick A, post, pick B: the next post's media is [A, B] |
| Compose.PublishedMediaCleared | src/components/post/CreatePost.tsx:78-80 | with the corrected submit the next post's media is [B] |
| Passwords.ResetValidNeedsEachRule | src/pages/reset-password.tsx:34-39 | the form is invalid when any one rule fails: length, upper case, digit, match or score |
| Passwords.EmptyFormInvalid | src/pages/reset-password.tsx:89-93 | the emptied form is invalid |
| Passwords.BarWidth | src/pages/reset-password.tsx:151-156 | `(score+1)*20`: 20 to 100 in steps of 20 for scores 0 to 4 |
| Passwords.BarWidthMonotone | src/pages/reset-password.tsx:151-156 | the width grows with the score |
| Passwords.BarColour | src/pages/reset-password.tsx:151-156 | a colour exists exactly for scores 0 to 4 |
| Passwords.StrengthLabel | src/pages/reset-password.tsx:159 | as written, a label exists only for scores 0 to 3 |
| Passwords.TopScoreHasNoLabel | src/pages/reset-password.tsx:159 | score 4 has a colour but no label |
| Passwords.StrengthLabelFixed | src/pages/reset-password.tsx:151-159 | the corrected table has a label exactly where a colour exists, and agrees on scores 0 to 3 |
| Passwords.Signup | src/components/auth/AuthForm.tsx:66-99 | mismatch first; then length below 8 or strength below 2 is too weak; otherwise sign up |
| Passwords.MismatchReportedFirst | src/components/auth/AuthForm.tsx:68-75 | a pair that is both mismatched and weak is reported as a mismatch |
| Passwords.SignupLooserThanReset | src/components/auth/AuthForm.tsx:77-84 | a password without upper case or digit can sign up yet is refused by the reset page |
| Passwords.ResetPasswordForm.constructor | src/pages/reset-password.tsx:16-26 | the form starts empty and invalid |
| Passwords.ResetPasswordForm.EditPassword | src/pages/reset-password.tsx:29-42 | the validity flag is recomputed from the new password and its score |
| Passwords.ResetPasswordForm.EditConfirm | src/pages/reset-password.tsx:29-42 | the validity flag is recomputed from the new confirmation |
| Passwords.ResetPasswordForm.Submit | src/pages/reset-password.tsx:73-106 | nothing unless valid; success sends the password once, empties both fields and makes the form invalid; failure shows the error |
| Passwords.SignupForm.constructor | src/components/auth/AuthForm.tsx:23-34 | empty fields, strength 0, no requests |
| Passwords.SignupForm.EditPassword | src/components/auth/AuthForm.tsx:36-39 | the strength is recomputed whenever the password changes |
| Passwords.SignupForm.EditConfirm | src/components/auth/AuthForm.tsx:23 | only the confirmation changes |
| Passwords.SignupForm.Submit | src/components/auth/AuthForm.tsx:66-121 | the outcome is `Signup`, and a request is made exactly when it is SignUp |
| Settings.NotificationDefaults | src/components/settings/NotificationSettings.tsx:17-24 | six switches, all on except `story_views` |
| Settings.PrivacyDefaults | src/components/settings/PrivacySettings.tsx:17-23 | five switches; `private_account` and `hide_last_seen` off, the rest on |
| Settings.Overlay | src/components/settings/NotificationSettings.tsx:43-45 | stored values win; every other key keeps its current value |
| Settings.Toggled | src/components/settings/NotificationSettings.tsx:83-86 | only the key is negated; the keys are unchanged |
| Settings.ToggleTwice | src/components/settings/PrivacySettings.tsx:82-85 | toggling a key twice gives back the settings |
| Settings.TogglesCommute | src/components/settings/PrivacySettings.tsx:82-85 | toggles of two keys commute |
| Settings.OverlayIdempotent | src/components/settings/NotificationSettings.tsx:31-50 | loading the same stored object twice is loading it once |
| Settings.SettingsPanel.constructor | src/components/settings/NotificationSettings.tsx:17-25 | the panel starts at its defaults |
| Settings.SettingsPanel.Fetch | src/components/settings/NotificationSettings.tsx:31-50 | with a user, a successful read and a stored object, the settings become `Overlay` of the old ones; otherwise unchanged |
| Settings.SettingsPanel.Update | src/components/settings/NotificationSettings.tsx:52-81 | the local settings change only when the write succeeds, and then equal what was written |
| Settings.SettingsPanel.Toggle | src/components/settings/NotificationSettings.tsx:83-86 | on success the settings become `Toggled` of the old ones; otherwise unchanged |
| StoryParts.RemoveId | src/components/stories/AdvancedStoryEditor.tsx:158-168 | exactly the overlays with another id remain |
| StoryParts.RemoveIdAppend | src/components/stories/AdvancedStoryEditor.tsx:158-168 | removal works piece by piece, so the rest keep their order |
| StoryParts.RemoveIdAbsent | src/components/stories/StoryEditor.tsx:146-156 | removing an id no overlay has changes nothing |
| StoryParts.RemoveJustAdded | src/components/stories/EnhancedStoryUpload.tsx:105-125 | removing the overlay just added gives back the list before it |
| StoryParts.Retexted | src/components/stories/EnhancedStoryUpload.tsx:436-440 | only the label with that id takes the new text; positions and all other overlays are kept |
| StoryParts.Recoloured | src/components/stories/EnhancedStoryUpload.tsx:448-451 | only the label with that id takes the new colour |
| StoryParts.RetextedTwice | src/components/stories/EnhancedStoryUpload.tsx:436-440 | two text edits leave only the second |
| StoryParts.EditsCommute | src/components/stories/EnhancedStoryUpload.tsx:436-451 | a text edit and a colour edit commute |
| StoryParts.Background | src/components/stories/AdvancedStoryEditor.tsx:112-130 | "transparent" is stored as no background; any other colour is kept |
| StoryParts.EditorMediaType | src/components/stories/AdvancedStoryEditor.tsx:230-231 | video exactly for `video/`, audio exactly for `audio/` that is not video, image otherwise |
| StoryParts.UploadMediaType | src/components/stories/EnhancedStoryUpload.tsx:153 | video exactly for `video/`; never audio |
| StoryParts.MediaTypesDisagreeOnAudio | src/components/stories/EnhancedStoryUpload.tsx:153 | the two mappings differ exactly on audio files, which the upload dialog files as images |
| StoryParts.Toggle | src/components/stories/EnhancedStoryUpload.tsx:360 | pressing the chosen entry clears the choice; pressing another chooses it |
| StoryParts.ToggleTwice | src/components/stories/AdvancedStoryEditor.tsx:440-474 | pressing twice restores the choice exactly when nothing or that entry was chosen |
| StoryParts.MusicData | src/components/stories/AdvancedStoryEditor.tsx:218-223 | `{}` exactly without music; otherwise the four fields |
| StoryParts.MusicRoundTrip | src/components/stories/AdvancedStoryEditor.tsx:218-223 | the stored object reads back as the selection |
| StoryParts.TrackData | src/components/stories/EnhancedStoryUpload.tsx:156 | `{}` exactly without a track; otherwise `{ track }` |
| StoryParts.Decimal | src/components/stories/EnhancedStoryUpload.tsx:210 | a non-empty string of decimal digits |
| StoryParts.DecimalRoundTrip | src/components/stories/EnhancedStoryUpload.tsx:210 | the printed digits denote the slider value |
| StoryParts.FilterStyle | src/components/stories/EnhancedStoryUpload.tsx:208-212 | the slider part at the end, preceded by the preset's filter and a space when the preset has one |
| StoryParts.NeutralStyle | src/components/stories/EnhancedStoryUpload.tsx:208-212 | with no preset the style is the slider part alone; a starting slider prints "100" |
| StoryEditors.AdvancedEditor.Draft | src/components/stories/AdvancedStoryEditor.tsx:179-237 | the inserted row: the user, media, caption, the three overlay lists, `EditorMediaType`, music that reads back as the selection, and `{ current: filter }` |
| StoryEditors.AdvancedEditor.constructor | src/components/stories/AdvancedStoryEditor.tsx:73-89 | the editor starts cleared, with the default text style |
| StoryEditors.AdvancedEditor.SelectFile | src/components/stories/AdvancedStoryEditor.tsx:94-110 | a file over 50 MiB is refused and nothing changes; otherwise it becomes the media and preview |
| StoryEditors.AdvancedEditor.AddText | src/components/stories/AdvancedStoryEditor.tsx:112-130 | a no-op on blank text; otherwise one caption is appended, the input cleared and the tool closed |
| StoryEditors.AdvancedEditor.AddSticker | src/components/stories/AdvancedStoryEditor.tsx:132-143 | one sticker of size 40 is appended and the tool stays open |
| StoryEditors.AdvancedEditor.AddGif | src/components/stories/AdvancedStoryEditor.tsx:145-156 | one GIF of size 100 is appended and the tool closes |
| StoryEditors.AdvancedEditor.RemoveText | src/components/stories/AdvancedStoryEditor.tsx:158-160 | only the caption list loses that id |
| StoryEditors.AdvancedEditor.RemoveSticker | src/components/stories/AdvancedStoryEditor.tsx:162-164 | only the sticker list loses that id |
| StoryEditors.AdvancedEditor.RemoveGif | src/components/stories/AdvancedStoryEditor.tsx:166-168 | only the GIF list loses that id |
| StoryEditors.AdvancedEditor.SelectMusic | src/components/stories/AdvancedStoryEditor.tsx:170-173 | the music is chosen and the tool closes |
| StoryEditors.AdvancedEditor.ClearMusic | src/components/stories/AdvancedStoryEditor.tsx:431 | the music is cleared |
| StoryEditors.AdvancedEditor.PressTool | src/components/stories/AdvancedStoryEditor.tsx:440-474 | pressing the active tool closes it; another tool is selected |
| StoryEditors.AdvancedEditor.Reset | src/components/stories/AdvancedStoryEditor.tsx:264-275 | media, caption, all overlays, music, filter, tool and input are back to their initial values; the text style is kept |
| StoryEditors.AdvancedEditor.Publish | src/components/stories/AdvancedStoryEditor.tsx:179-262 | without a user or media, or on failure, nothing changes; otherwise exactly the draft row is stored and the editor is reset |
| StoryEditors.PlainEditor.Draft | src/components/stories/StoryEditor.tsx:158-213 | as in the advanced editor, with `music_data` always `{}` |
| StoryEditors.PlainEditor.constructor | src/components/stories/StoryEditor.tsx:63-78 | the editor starts cleared, with the default text style |
| StoryEditors.PlainEditor.SelectFile | src/components/stories/StoryEditor.tsx:83-99 | a file over 50 MiB is refused and nothing changes |
| StoryEditors.PlainEditor.AddText | src/components/stories/StoryEditor.tsx:101-118 | a no-op on blank text; otherwise one Arial caption at (50, 50) is appended and the tool closes |
| StoryEditors.PlainEditor.AddSticker | src/components/stories/StoryEditor.tsx:120-131 | one sticker is appended and the tool closes |
| StoryEditors.PlainEditor.AddGif | src/components/stories/StoryEditor.tsx:133-144 | one GIF is appended and the tool closes |
| StoryEditors.PlainEditor.RemoveText | src/components/stories/StoryEditor.tsx:146-148 | only the caption list loses that id |
| StoryEditors.PlainEditor.RemoveSticker | src/components/stories/StoryEditor.tsx:150-152 | only the sticker list loses that id |
| StoryEditors.PlainEditor.RemoveGif | src/components/stories/StoryEditor.tsx:154-156 | only the GIF list loses that id |
| StoryEditors.PlainEditor.PressTool | src/components/stories/StoryEditor.tsx:390-418 | pressing the active tool closes it; another tool is selected |
| StoryEditors.PlainEditor.Reset | src/components/stories/StoryEditor.tsx:240-251 | every reset field is back to its initial value |
| StoryEditors.PlainEditor.Publish | src/components/stories/StoryEditor.tsx:158-238 | without a user or media, or on failure, nothing changes; otherwise the draft row is stored and the editor is reset |
| StoryEditors.StoryUpload.Draft | src/components/stories/EnhancedStoryUpload.tsx:127-165 | the inserted row: `UploadMediaType` (never audio), `{ track }` music, and the preset plus the three slider values as filters |
| StoryEditors.StoryUpload.constructor | src/components/stories/EnhancedStoryUpload.tsx:38-64 | the dialog starts closed: no file, sliders at 100, no overlays |
| StoryEditors.StoryUpload.SelectFile | src/components/stories/EnhancedStoryUpload.tsx:84-94 | a chosen file is taken with no size check, and its data becomes the preview |
| StoryEditors.StoryUpload.AddText | src/components/stories/EnhancedStoryUpload.tsx:96-106 | always appends one default label at (50, 50), with no blank check |
| StoryEditors.StoryUpload.AddSticker | src/components/stories/EnhancedStoryUpload.tsx:108-117 | appends one sticker of size 32 inside the 15–85 band |
| StoryEditors.StoryUpload.RemoveText | src/components/stories/EnhancedStoryUpload.tsx:119-121 | only the label list loses that id |
| StoryEditors.StoryUpload.RemoveSticker | src/components/stories/EnhancedStoryUpload.tsx:123-125 | only the sticker list loses that id |
| StoryEditors.StoryUpload.EditText | src/components/stories/EnhancedStoryUpload.tsx:436-440 | the labels become `Retexted` of the old ones |
| StoryEditors.StoryUpload.EditColor | src/components/stories/EnhancedStoryUpload.tsx:448-451 | the labels become `Recoloured` of the old ones |
| StoryEditors.StoryUpload.PickTrack | src/components/stories/EnhancedStoryUpload.tsx:360 | re-picking the track deselects it; another track replaces it |
| StoryEditors.StoryUpload.Close | src/components/stories/EnhancedStoryUpload.tsx:194-206 | file, preview, caption, preset, sliders (to 100), track and both overlay lists are reset |
| StoryEditors.StoryUpload.Create | src/components/stories/EnhancedStoryUpload.tsx:127-192 | without a user or file, or on failure, nothing changes; otherwise the draft row is stored and the dialog closes |

## Left out

- Network, realtime channels, toasts, routing and JSX rendering are not modelled. The one exception is the branch that decides what a shared post shows.
- Store calls are modelled by their outcome. Each call's success or failure, and the row it returns, is a parameter. The one exception is the notifications page's `is_read` writes, listed below. The read-then-write counter updates are modelled for a single client only; concurrent clients are a concurrency question.
- `setTimeout` and `setInterval` are explicit events (`TimerFires`, `IntervalFires`), not wall-clock time.
- Each asynchronous handler is one atomic step from the state before it, except the like and follow buttons of a post card. Those are split into a press and a settle, because their in-flight flags guard against a second press.
- `FileReader`, `URL.createObjectURL`, `Math.random` positions, `Date.now()` ids and date formatting are parameters. That includes the order in which the reads of one selection finish: `SelectFiles` takes it as the `arrived` list.
- Chat.InstagramChat.EditMessage: requires a signed-in user and an open conversation. The edit and delete buttons are shown only on the user's own messages inside an open conversation. The same holds for `DeleteForEveryone` and for both methods of `Chat.EnhancedChat`.
- The story editors' publish handlers: the `loading` flag is cleared in `finally` before the file reader and the insert finish. The model has no loading flag and treats a publish as one step. A failed insert in `AdvancedStoryEditor` and in `StoryEditor` throws inside the reader callback. The model reads that as "nothing changes".
- StoryEditors.AdvancedEditor.AddText: the random position is a parameter within the 50–250 band of the source. The model does not capture that two overlays added in the same millisecond share an id. `RemoveJustAdded` states what removal does then.
- The caption, preset, slider, text-colour and font setters are plain field writes and have no methods of their own.
- `toLowerCase` is modelled on ASCII letters only. Unicode case mapping is not part of this model.
- `\w` is modelled as ASCII letters, digits and `_`, as JavaScript defines it without the `u` flag.
- Database orderings are modelled as stable sorts of the table. Ties between equal timestamps follow table order.
- The zxcvbn score is a parameter in 0–4.
- A settings object whose stored values are not booleans is not modelled.
- The notifications page's `is_read` writes are not modelled. Its result is never checked, and the page updates its own list either way, which the model keeps.
- The notices that likes, comments and follows insert are modelled as an appended list of records. Delivery to the recipient's page is not part of this model.
- The signup failure message names upper-case and digit rules that `handleSignup` does not check. The model follows the checks, and `SignupLooserThanReset` shows the gap.
- The reactions popover re-adds the current emoji rather than toggling it off, and the chip click toggles. The model follows the code (`PopoverIsNotAToggle`).
- `sharePost` and `fetchFollowedUsers` in `PostCard` and the card's comment count are not modelled. They feed only the share dialog and the comment counter, which no modelled action reads. The mount reads of the flags and the like count are `PostCards.PostCard.Mount`.
- `NULL` text columns are modelled as empty strings. Of the joined profiles, only a notification's actor is a field of its row (`Notifications.Item`). Messages and shares carry the sender's id and no profile.
- The Instagram-style pane's sender lookup (src/components/messaging/InstagramMessages.tsx:128-143) is not modelled. That is the users read for the senders, the `usersMap` built from it, and a failed read that leaves each sender's name and picture unresolved. It affects only what a message shows beside its sender, and no entry, order or reaction depends on it. The same holds for the enhanced pane's joined sender profile.
- Passwords.ResetValid: `|pw| >= 8` counts Dafny characters, while JavaScript's `.length` counts UTF-16 code units. A password with characters outside the Basic Multilingual Plane can be 8 long in JavaScript and shorter here. The same holds for `Passwords.Signup`.
- Stories.StoryBar.IntervalFires: React compares the selected story by reference, while the model compares stories by value. Opening a story object from a newer fetch that equals the open story in value restarts the interval in the source but not here. The model keeps the old capture until the selection changes in value.

## Findings

| source | as written | input that shows it | evidently intended | confidence | as-written member | corrected member |
|---|---|---|---|---|---|---|
| src/components/stories/EnhancedStoriesBar.tsx:278 | a click on a group avatar stores the group's position as the flat story index | own stories [a1, a2], a followed user's [b1]: clicking group 1 opens b1 but stores index 1 (a2's place), so next opens b1 again; the progress interval (lines 62-76) captured index 1, so every full bar reopens b1 and counts another view, forever | the flat index of the opened story, so next, prev and the interval continue from it | high, not executed | Stories.ClickGroup / Stories.GroupClickRepeatsStory / Stories.GroupClickReplaysForever | Stories.ClickGroupAtFlatIndex / Stories.StaleTickAgrees |
| src/components/post/CreatePost.tsx:78-80 | a successful post empties the composer's media, but the mounted picker keeps its own list (src/components/media/MediaUpload.tsx:36-41) | pick A, post, pick B: the next post carries [A, B] | the picker's list is emptied together with the composer's | high, not executed | Compose.Composer.Submit / Compose.PublishedMediaComesBack | Compose.Composer.SubmitClearingPicker / Compose.PublishedMediaCleared |
| src/pages/reset-password.tsx:159 | the label table has four entries while scores run 0–4 | score 4 | a fifth label, one per colour of the bar | high, not executed | Passwords.StrengthLabel / Passwords.TopScoreHasNoLabel | Passwords.StrengthLabelFixed |
