# Social widgets: a Dafny model of their state handlers

The repository is a set of React widgets for a social page: a Q&A board, a
forum thread, an infinite social feed, a comment feed, a poll builder, an
event RSVP card, a post feed with floating emoji, a group chat, a profile
editor and a micro-post box. Under the markup each widget keeps a few
`useState` fields and updates them through named handlers. This project
models those handlers and the views derived from the state, and proves
what they promise.

Each widget is one module with a `class Store` whose fields are the widget's
state. Each handler is a method on that store. A method's `ensures` ties the
new state to a pure function of the old one: `ReactOn`, `AppendAnswer`,
`Rsvp`, `ExpireMarker` and so on. Lemmas then prove the properties of those
functions: "only the target changed", toggles that undo themselves, and
invariants the handlers preserve. A store's `Valid()` predicate is the
invariant its handlers keep. Shared pieces have their own modules:

- `Seqs`: `Option`, an order-keeping `Filter` with its characterization (`FilterSelects`: the k-th result is the element at the k-th position that satisfies the condition), a descending sort proved stable (`SortByKeyDescStable`: the elements of each key keep their input order) and sums.
- `Text`: the whitespace set of JavaScript's `trim`, and decimal rendering of
  numbers, proved injective.
- `Tags`: the sorted, duplicate-free union of tags, and `AllTagsOf`, the
  tag list of any sequence of tagged items, which the board and the thread share.
- `Reactions`: the three-branch reaction toggle shared by the forum and the
  social feed.

Timers, effects, the intersection observer, `Math.random` and `Date.now` are
not modelled as such. Each callback is a method of its own: load start and
finish, the scripted reply, typing expiry and marker expiry. Random draws,
clock ids and timestamps are parameters.

In `SocialFeed.tsx`, `loadMorePosts` compares the page with 5 before
incrementing it (lines 104-107), so the fifth load clears `hasMore` and at
most five loads of five posts happen.

## Model

| member | source | states |
|---|---|---|
| Text.Trim | src/components/social/QABoard.tsx:222 | The result is a slice of the input with only whitespace before and after it, and neither starts nor ends with whitespace |
| Text.TrimEmptyIffBlank | src/components/social/CommentFeed.tsx:101 | A text trims to the empty, falsy string exactly when every character is whitespace |
| Text.NatToStringInjective | src/components/social/CommentFeed.tsx:104 | Two numbers with the same decimal rendering are equal, so ids built from a counter or a length differ when the numbers do |
| Text.PrefixedNumbersDistinct | src/components/social/PostFeed.tsx:81 | Ids made of one prefix and two different numbers differ |
| Text.LessTransitive | src/components/social/QABoard.tsx:135 | The default string order used by `sort()` is transitive |
| Text.LessTotal | src/components/social/QABoard.tsx:135 | Two different strings are ordered one way or the other |
| Tags.SortedUnion | src/components/social/QABoard.tsx:133-135 | The result is strictly sorted and holds exactly the tags of the input |
| Tags.SortedUnionIsSet | src/components/social/ForumThreadViewer.tsx:56-58 | The union has no duplicates, and its set of tags equals the input's |
| Reactions.Set | src/components/social/ForumThreadViewer.tsx:64-65 | Writing one count changes that count only, and the total by the difference |
| Reactions.React | src/components/social/ForumThreadViewer.tsx:60-94 | The same kind again lowers its count by one and clears the held kind. Another kind moves one count from the old kind to the new one and keeps the total. With nothing held, the kind goes up by one and is held. No other kind changes, and the total moves by at most one |
| Reactions.ReactAllTracks | src/components/social/ForumThreadViewer.tsx:20-51 | From a seed with nothing held, after any sequence of reactions each count is the seed's plus one if the user holds that kind |
| Reactions.ReactSound | src/components/social/ForumThreadViewer.tsx:60-94 | A reaction keeps two facts: no count is negative, and the held kind's count is at least one |
| Reactions.TracksTotal | src/components/social/ForumThreadViewer.tsx:106 | The total is the seed's total plus one exactly when a kind is held |
| QABoard.CastVote | src/components/social/QABoard.tsx:157-172 | The three vote cases in full. With no stored vote, that counter goes up by one and is stored. The stored direction again lowers it and clears the vote. The other direction moves one count and stores the new one |
| QABoard.CastVotesAccounts | src/components/social/QABoard.tsx:157-198 | From a seed with no vote, after any vote sequence: up = seed up + [vote is up], and down = seed down + [vote is down] |
| QABoard.VoteOnAnswers | src/components/social/QABoard.tsx:177-198 | Only answers with the target id change, and only their counters and stored vote |
| QABoard.VoteOn | src/components/social/QABoard.tsx:153-204 | Other questions are unchanged. A question vote changes only that question's tally; an answer vote changes only that answer inside it |
| QABoard.Accept | src/components/social/QABoard.tsx:206-219 | In the target question each answer is accepted iff its id is the chosen one. Order, count, every other field and every other question remain unchanged |
| QABoard.AcceptExclusive | src/components/social/QABoard.tsx:211-214 | With distinct answer ids, at most one answer of the question is accepted |
| QABoard.MaxAnswerId | src/components/social/QABoard.tsx:223 | The result bounds every answer number in every question and, when any answer exists, is the number of one of them; with no answers it is 0 |
| QABoard.NewAnswerId | src/components/social/QABoard.tsx:223 | The new number exceeds every existing answer number across all questions |
| QABoard.AppendAnswer | src/components/social/QABoard.tsx:225-246 | Exactly one answer is appended to the target question, with the trimmed text, 0/0 votes, no vote and not accepted; every other question is unchanged |
| QABoard.AppendAnswerDistinct | src/components/social/QABoard.tsx:223-246 | Appending under the new number keeps answer ids distinct in every question |
| QABoard.AllTags | src/components/social/QABoard.tsx:133-135 | Strictly sorted, and a tag is listed iff some question carries it |
| QABoard.FilteredQuestions | src/components/social/QABoard.tsx:137-139 | All questions with no active tag. Otherwise exactly the questions carrying the tag, each with its multiplicity; the k-th result is the question at the k-th position that carries the tag |
| QABoard.LatestAnswer | src/components/social/QABoard.tsx:147-148 | The largest answer number of the question: it bounds every answer number and is one of them; 0 without answers |
| QABoard.SortedQuestions | src/components/social/QABoard.tsx:141-151 | A permutation of the filtered questions, in non-increasing order of id, net score or latest answer, as chosen |
| QABoard.SortedQuestionsStable | src/components/social/QABoard.tsx:141-151 | Questions with equal keys keep their filtered order, as the stable `sort` keeps them |
| QABoard.SeedValid | src/components/social/QABoard.tsx:36-126 | The seed board has answers, distinct answer ids per question and at most one accepted answer per question |
| QABoard.VoteOnKeepsValid | src/components/social/QABoard.tsx:153-204 | A vote keeps the board invariant |
| QABoard.AcceptKeepsValid | src/components/social/QABoard.tsx:206-219 | Accepting an answer keeps the board invariant, so a question never has two accepted answers |
| QABoard.AppendAnswerKeepsValid | src/components/social/QABoard.tsx:221-250 | Appending an answer under the new number keeps the board invariant |
| QABoard.Store.constructor | src/components/social/QABoard.tsx:36-131 | Seed questions, nothing open, no tag, "newest" order, empty input; the board invariant holds |
| QABoard.Store.HandleVote | src/components/social/QABoard.tsx:153-204 | The questions become `VoteOn` of the old ones, keeping the board invariant |
| QABoard.Store.HandleAcceptAnswer | src/components/social/QABoard.tsx:206-219 | The questions become `Accept` of the old ones, keeping the board invariant |
| QABoard.Store.HandleSubmitAnswer | src/components/social/QABoard.tsx:221-250 | A blank answer changes nothing. Otherwise the answer is appended under the new number and the input clears; the board invariant is kept |
| QABoard.Store.SetNewAnswer | src/components/social/QABoard.tsx:547 | Sets the answer input |
| QABoard.Store.SetActiveTag | src/components/social/QABoard.tsx:267-279 | Sets the active tag, or clears it for "All" |
| QABoard.Store.SetSortBy | src/components/social/QABoard.tsx:296 | Sets the order |
| QABoard.Store.SetActiveQuestion | src/components/social/QABoard.tsx:312 | Opens a question, or returns to the list |
| ForumThreadViewer.ReactOn | src/components/social/ForumThreadViewer.tsx:60-94 | The matching post follows the reaction rule, changing only its counts and held kind; every other post is unchanged |
| ForumThreadViewer.SeedSound | src/components/social/ForumThreadViewer.tsx:20-51 | The seed posts satisfy the reaction invariant |
| ForumThreadViewer.ReactOnSound | src/components/social/ForumThreadViewer.tsx:60-94 | A reaction keeps the invariant on every post |
| ForumThreadViewer.AllTags | src/components/social/ForumThreadViewer.tsx:56-58 | Strictly sorted, and a tag is listed iff some post carries it |
| ForumThreadViewer.FilteredPosts | src/components/social/ForumThreadViewer.tsx:96-98 | All posts with no filter. Otherwise exactly the posts with the tag, each with its multiplicity, in thread order |
| ForumThreadViewer.PopularPosts | src/components/social/ForumThreadViewer.tsx:100-110 | The "popular" order: a permutation with non-increasing total reactions |
| ForumThreadViewer.PopularPostsStable | src/components/social/ForumThreadViewer.tsx:100-110 | Posts with equal totals keep their input order, as the stable `sort` keeps them |
| ForumThreadViewer.Store.constructor | src/components/social/ForumThreadViewer.tsx:20-54 | Seed posts, no filter, "newest" order, invariant holds |
| ForumThreadViewer.Store.HandleReaction | src/components/social/ForumThreadViewer.tsx:60-94 | The posts become `ReactOn` of the old ones, and the invariant is kept |
| ForumThreadViewer.Store.SetFilter | src/components/social/ForumThreadViewer.tsx:53 | Sets the active filter |
| ForumThreadViewer.Store.SetSortBy | src/components/social/ForumThreadViewer.tsx:132 | Sets the sort order, keeping the invariant |
| SocialFeed.FeedIdInjective | src/components/social/SocialFeed.tsx:53 | The id `page-i` determines the page and the position |
| SocialFeed.GenerateMockPosts | src/components/social/SocialFeed.tsx:49-72 | One post per draw, with id `page-i`, no reaction of the user, and the drawn counts and text |
| SocialFeed.ReactOn | src/components/social/SocialFeed.tsx:111-130 | The matching post follows the reaction rule; every other post is unchanged |
| SocialFeed.FinishLoadKeeps | src/components/social/SocialFeed.tsx:99-109 | A finished load appends five posts and moves the page on. `hasMore` stays on only below page 5. The feed invariant is kept |
| SocialFeed.FeedIdsDistinct | src/components/social/SocialFeed.tsx:104-107 | Under the feed invariant post ids are distinct |
| SocialFeed.FeedBounded | src/components/social/SocialFeed.tsx:105-107 | Under the feed invariant the feed holds at most 25 posts |
| SocialFeed.ReactOnKeeps | src/components/social/SocialFeed.tsx:111-130 | A reaction keeps the feed invariant |
| SocialFeed.AggregatedReactions | src/components/social/SocialFeed.tsx:144-149 | No keys for an empty feed. Otherwise every kind's entry is the sum of that kind over all posts |
| SocialFeed.Store.constructor | src/components/social/SocialFeed.tsx:41-76 | Empty feed on page 1 with more to come; the mount load is in flight |
| SocialFeed.Store.ObserverFired | src/components/social/SocialFeed.tsx:78-97 | A load starts iff the sentinel intersects, more pages remain and nothing is loading |
| SocialFeed.Store.FinishLoad | src/components/social/SocialFeed.tsx:99-109 | Appends the page's five posts, moves the page on, sets `hasMore` iff the old page was below 5, ends loading |
| SocialFeed.Store.HandleReaction | src/components/social/SocialFeed.tsx:111-130 | The posts become `ReactOn` of the old ones, and the feed invariant is kept |
| CommentFeed.Toggle | src/components/social/CommentFeed.tsx:86-91 | `liked` flips; `likes` goes up by one from unliked and down by one from liked |
| CommentFeed.ToggleTwice | src/components/social/CommentFeed.tsx:76-90 | Two toggles restore the like state |
| CommentFeed.ToggleSound | src/components/social/CommentFeed.tsx:76-89 | A toggle keeps likes >= (liked ? 1 : 0) |
| CommentFeed.LikeReplies | src/components/social/CommentFeed.tsx:70-81 | Only the matching replies toggle; every other reply is unchanged |
| CommentFeed.LikeIn | src/components/social/CommentFeed.tsx:65-97 | Other comments are unchanged. A reply like touches only that comment's replies; a comment like toggles only its own like state |
| CommentFeed.LikeTwice | src/components/social/CommentFeed.tsx:65-97 | Liking the same target twice restores the feed exactly |
| CommentFeed.SeedWellformed | src/components/social/CommentFeed.tsx:28-59 | The seed satisfies the feed invariant: likes counted, comment ids distinct numbers, replies numbered |
| CommentFeed.ReplyIdsDistinct | src/components/social/CommentFeed.tsx:124 | Under the invariant reply ids are distinct within a comment |
| CommentFeed.LikeKeeps | src/components/social/CommentFeed.tsx:65-97 | A like keeps the invariant |
| CommentFeed.AddComment | src/components/social/CommentFeed.tsx:99-116 | A blank text changes nothing. Otherwise the new comment goes in front, with id length+1 and the untrimmed text, and the old comments follow in order |
| CommentFeed.AddCommentKeeps | src/components/social/CommentFeed.tsx:99-116 | Adding a comment keeps the invariant |
| CommentFeed.AddReply | src/components/social/CommentFeed.tsx:118-144 | The matching comment gets one reply with id `comment-(n+1)` at its end; others are unchanged |
| CommentFeed.AddReplyKeeps | src/components/social/CommentFeed.tsx:118-144 | Adding a reply keeps the invariant |
| CommentFeed.Store.constructor | src/components/social/CommentFeed.tsx:28-63 | Seed comments, empty inputs, no reply open, invariant holds |
| CommentFeed.Store.HandleLike | src/components/social/CommentFeed.tsx:65-97 | The comments become `LikeIn` of the old ones |
| CommentFeed.Store.SetNewComment | src/components/social/CommentFeed.tsx:164 | Sets the comment input |
| CommentFeed.Store.HandleAddComment | src/components/social/CommentFeed.tsx:99-116 | The comments become `AddComment` of the old ones; the input clears unless the text was blank |
| CommentFeed.Store.ToggleReplying | src/components/social/CommentFeed.tsx:211 | Opens the reply box of a comment, or closes it when it was open |
| CommentFeed.Store.SetReplyContent | src/components/social/CommentFeed.tsx:233 | Sets the reply input |
| CommentFeed.Store.HandleAddReply | src/components/social/CommentFeed.tsx:118-144 | A blank reply changes nothing. Otherwise the reply is added, the box closes and the input clears |
| PollCreator.AddOptionAsWritten | src/components/social/PollCreator.tsx:25-29 | Below eight options, an empty option with id length+1 is appended; otherwise nothing changes |
| PollCreator.AddOptionAsWrittenBounded | src/components/social/PollCreator.tsx:25-29 | Adding never takes the list past eight options, and below eight it adds exactly one |
| PollCreator.RemoveOption | src/components/social/PollCreator.tsx:31-35 | At two options or fewer nothing changes; otherwise exactly the options with another id remain, in order, one entry per such option |
| PollCreator.RemoveAfterReusedIdLeavesOne | src/components/social/PollCreator.tsx:27-33 | Seed, add, remove 2, add gives two options with id 3; removing 3 then leaves one option |
| PollCreator.AddOption | src/components/social/PollCreator.tsx:25-29 | Below eight options, an empty option with an id above every existing id is appended |
| PollCreator.AddOptionKeeps | src/components/social/PollCreator.tsx:13-27 | The corrected add keeps the count within [2, 8] and ids distinct |
| PollCreator.RemoveOptionKeeps | src/components/social/PollCreator.tsx:32-33 | With distinct ids a removal keeps the count within [2, 8] and ids distinct |
| PollCreator.ChangeOption | src/components/social/PollCreator.tsx:37-41 | Only the matching option's text changes; ids and votes stay |
| PollCreator.AddVote | src/components/social/PollCreator.tsx:46-48 | The matching option's votes go up by one; everything else stays |
| PollCreator.AddVoteTotal | src/components/social/PollCreator.tsx:46-68 | With distinct ids and the id present, the total rises by exactly one |
| PollCreator.SeedVotes | src/components/social/PollCreator.tsx:60-65 | Each option takes its drawn vote count; nothing else changes |
| PollCreator.SeedVotesKeeps | src/components/social/PollCreator.tsx:60-65 | Seeding votes keeps two to eight options with distinct ids |
| PollCreator.PieSegments | src/components/social/PollCreator.tsx:70-88 | No segments when the total is 0. Otherwise one per option in order, with colour index = position mod 8, each as wide as the option's votes, contiguous from 0 to the total |
| PollCreator.Store.constructor | src/components/social/PollCreator.tsx:12-23 | Empty question, two empty options, "1d", editing, no vote; at most eight options |
| PollCreator.Store.SetQuestion | src/components/social/PollCreator.tsx:120 | Sets the question |
| PollCreator.Store.SetDuration | src/components/social/PollCreator.tsx:167 | Sets the duration |
| PollCreator.Store.HandleAddOption | src/components/social/PollCreator.tsx:25-29 | The options become `AddOptionAsWritten` of the old ones, and stay at most eight |
| PollCreator.Store.HandleRemoveOption | src/components/social/PollCreator.tsx:31-35 | The options become `RemoveOption` of the old ones, and stay at most eight |
| PollCreator.Store.HandleOptionChange | src/components/social/PollCreator.tsx:37-41 | The options become `ChangeOption` of the old ones |
| PollCreator.Store.HandleVote | src/components/social/PollCreator.tsx:43-50 | Once a vote is recorded nothing changes; the first vote adds one to the option and records its id |
| PollCreator.Store.HandleCreatePoll | src/components/social/PollCreator.tsx:52-66 | Refused, changing nothing, when the question or an option is blank. Otherwise preview mode turns on; when no option has votes yet, every option takes its drawn count, else the options stay as they were |
| PollCreator.Store.EditPoll | src/components/social/PollCreator.tsx:239 | Leaves preview mode |
| PollCreator.CorrectedOptions.constructor | src/components/social/PollCreator.tsx:13-16 | The two seed options, with the corrected invariant: two to eight options with distinct ids |
| PollCreator.CorrectedOptions.HandleAddOption | src/components/social/PollCreator.tsx:25-29 | With the corrected `AddOption`, adding keeps two to eight options with distinct ids |
| PollCreator.CorrectedOptions.HandleRemoveOption | src/components/social/PollCreator.tsx:31-35 | Under the corrected ids, removing drops at most one option and keeps two to eight with distinct ids |
| PollCreator.CorrectedOptions.SeedDrawnVotes | src/components/social/PollCreator.tsx:60-65 | Seeding drawn votes keeps the corrected invariant |
| EventRSVP.Rsvp | src/components/social/EventRSVP.tsx:25-43 | Without a "You" record, one `{user, You, s}` is appended and the rest remain unchanged. With one, only the "You" statuses change and the length stays |
| EventRSVP.RsvpRecordsAnswer | src/components/social/EventRSVP.tsx:28-41 | After an answer a "You" record exists and every "You" record holds the answer |
| EventRSVP.RsvpIdempotent | src/components/social/EventRSVP.tsx:25-43 | Answering twice the same way equals answering once |
| EventRSVP.SeedHasNoYou | src/components/social/EventRSVP.tsx:17-23 | The seed has no "You" record |
| EventRSVP.RsvpKeepsOneYou | src/components/social/EventRSVP.tsx:28-41 | An answer never creates a second "You" record |
| EventRSVP.StatusCount | src/components/social/EventRSVP.tsx:45-51 | The count equals the number of positions whose attendee gave that answer; so it is at most the list length, and 0 iff nobody gave it |
| EventRSVP.CountsBounded | src/components/social/EventRSVP.tsx:45-51 | The three counts sum to at most the list length |
| EventRSVP.ShownAttendees | src/components/social/EventRSVP.tsx:136-137 | Exactly the going or maybe attendees, in list order, one entry per such position, as many as the going and maybe counts together |
| EventRSVP.Store.constructor | src/components/social/EventRSVP.tsx:16-23 | No answer, seed attendees, invariant holds |
| EventRSVP.Store.HandleRsvp | src/components/social/EventRSVP.tsx:25-43 | Status becomes the answer, the list becomes `Rsvp` of the old one, and there is still at most one "You" record |
| PostFeed.LikePost | src/components/social/PostFeed.tsx:69-74 | The matching post's likes rise by exactly one; other posts are unchanged |
| PostFeed.ExpireMarker | src/components/social/PostFeed.tsx:90-93 | Exactly the markers with another id remain, in order |
| PostFeed.ExpireRemovesOne | src/components/social/PostFeed.tsx:90-93 | When no other marker shares its id, an expiry removes that marker alone and keeps the others' order |
| PostFeed.NextMarkerFresh | src/components/social/PostFeed.tsx:79-88 | The counter's current id has not been issued before, and afterwards it has |
| PostFeed.AddMarkerKeeps | src/components/social/PostFeed.tsx:79-88 | A like's marker keeps marker ids issued and distinct |
| PostFeed.ExpireKeeps | src/components/social/PostFeed.tsx:90-93 | An expiry keeps marker ids issued and distinct |
| PostFeed.TrendingPosts | src/components/social/PostFeed.tsx:104 | Exactly the trending posts, with their multiplicity; the k-th result is the post at the k-th trending position |
| PostFeed.PostMarkers | src/components/social/PostFeed.tsx:139-140 | Exactly the markers of that post, in list order, one entry per such position |
| PostFeed.NewMarkerShown | src/components/social/PostFeed.tsx:139-140 | A like's marker appears at the end of its post's markers and of no other post's |
| PostFeed.Store.constructor | src/components/social/PostFeed.tsx:28-66 | Seed posts, no markers, counter at 1 |
| PostFeed.Store.HandleLike | src/components/social/PostFeed.tsx:68-95 | One more like, one more marker `emoji-n` at y = 0 for that post, and the counter moves on; marker ids stay distinct |
| PostFeed.Store.ExpireAnimation | src/components/social/PostFeed.tsx:90-93 | The markers become `ExpireMarker` of the old ones, keeping them distinct |
| GroupChat.SetTypingByName | src/components/social/GroupChat.tsx:120-132 | Only users with that name change, and only their typing flag |
| GroupChat.StopTypingById | src/components/social/GroupChat.tsx:101-103 | Only users with that id change, and only to not typing |
| GroupChat.FirstTyping | src/components/social/GroupChat.tsx:88-89 | `None` iff nobody types. Otherwise the minimal index of a typing user |
| GroupChat.ScriptedReplyStopsOne | src/components/social/GroupChat.tsx:88-103 | A scripted reply lowers the number of typing users |
| GroupChat.OnlineCount | src/components/social/GroupChat.tsx:174 | The number of positions holding an online user; so at most the number of users, and 0 iff nobody is online |
| GroupChat.TypingNames | src/components/social/GroupChat.tsx:268-270 | One name per typing user other than "You", in list order: the k-th name is that of the k-th such user. A name is listed iff such a user has it; "You" is never listed |
| GroupChat.Store.constructor | src/components/social/GroupChat.tsx:24-83 | Seed messages and users, empty input, not typing |
| GroupChat.Store.HandleInputChange | src/components/social/GroupChat.tsx:138-143 | Takes the text; the typing flag is raised, and reported as started, only when it was down |
| GroupChat.Store.TypingEffect | src/components/social/GroupChat.tsx:117-122 | While typing, only "You" is marked typing; otherwise nothing changes |
| GroupChat.Store.TypingExpired | src/components/social/GroupChat.tsx:124-132 | The flag drops and only "You" stops typing |
| GroupChat.Store.HandleSendMessage | src/components/social/GroupChat.tsx:145-164 | A blank input changes nothing. Otherwise one message from "You" with the trimmed text is appended; the input clears, and the flag and "You"'s typing drop |
| GroupChat.Store.Send | src/components/social/GroupChat.tsx:157-162 | The non-blank branch: the message is appended, the input clears, the flag drops and only "You" stops typing |
| GroupChat.Store.ScriptedReply | src/components/social/GroupChat.tsx:86-109 | With a typing user, the first one in order posts the fixed text as another user and stops typing, and fewer users type. With none, nothing changes |
| ProfileEditor.AddInterest | src/components/social/ProfileEditor.tsx:37-46 | A blank input changes nothing. Otherwise one interest with the trimmed name is appended after the unchanged others |
| ProfileEditor.RemoveInterest | src/components/social/ProfileEditor.tsx:48-50 | Exactly the interests with another id remain, in order |
| ProfileEditor.RemoveAbsent | src/components/social/ProfileEditor.tsx:48-50 | Removing an absent id changes nothing |
| ProfileEditor.RemoveUndoesAdd | src/components/social/ProfileEditor.tsx:37-50 | Removing an interest just added under a new id gives back the old list |
| ProfileEditor.Store.constructor | src/components/social/ProfileEditor.tsx:12-20 | Seed name, bio and interests; empty input |
| ProfileEditor.Store.SetName | src/components/social/ProfileEditor.tsx:105 | Sets the name |
| ProfileEditor.Store.SetBio | src/components/social/ProfileEditor.tsx:117 | Sets the bio |
| ProfileEditor.Store.SetNewInterest | src/components/social/ProfileEditor.tsx:152 | Sets the interest input |
| ProfileEditor.Store.HandleAddInterest | src/components/social/ProfileEditor.tsx:37-46 | The list becomes `AddInterest` of the old one; the input clears iff it was not blank |
| ProfileEditor.Store.HandleRemoveInterest | src/components/social/ProfileEditor.tsx:48-50 | The list becomes `RemoveInterest` of the old one |
| ProfileEditor.Store.HandleKeyDown | src/components/social/ProfileEditor.tsx:52-57 | Enter has exactly the add button's effect; any other key changes nothing |
| MicroPostInput.Cap | src/components/social/MicroPostInput.tsx:53 | At most 280 characters, a prefix of the typed text, the whole text when it fits |
| MicroPostInput.DisabledIffRefused | src/components/social/MicroPostInput.tsx:19-71 | The Post button is disabled exactly when a submit would be refused |
| MicroPostInput.RemainingBounds | src/components/social/MicroPostInput.tsx:13-57 | For a capped text the count is within [0, 280], and the warning shows iff the text is longer than 260 |
| MicroPostInput.Store.constructor | src/components/social/MicroPostInput.tsx:9-11 | Empty text, editing, 280 left |
| MicroPostInput.Store.HandleChange | src/components/social/MicroPostInput.tsx:13-53 | The text becomes the capped input and the count is 280 minus its length |
| MicroPostInput.Store.ShowWarning | src/components/social/MicroPostInput.tsx:57 | The warning shows iff the text is longer than 260 characters |
| MicroPostInput.Store.HandleSubmit | src/components/social/MicroPostInput.tsx:17-24 | Accepted iff the text is not blank and fits, i.e. iff the button is enabled. An accepted post clears the text and leaves preview; a refused one changes nothing |
| MicroPostInput.Store.Preview | src/components/social/MicroPostInput.tsx:64 | Enters preview mode |
| MicroPostInput.Store.Edit | src/components/social/MicroPostInput.tsx:90 | Leaves preview mode |

## Left out

- Markup, styling, images, avatars, `scrollIntoView` and the page that composes the widgets: presentation only.
- Timing, debouncing and cancellation of timers, effects and the intersection observer. Each callback is a method that the caller invokes, in any order.
- React's batching of state updates and stale closures: every handler reads the state current when it is called.
- The second mount load that React's development mode can run in `SocialFeed`: concurrency; the constructor starts exactly one.
- `Math.random`, `Date.now` and `toLocaleTimeString`: random content, emoji choice, poll vote draws, clock ids and times are parameters.
- Floating point: pie angles and arc paths, percentage widths and the markers' horizontal position. Pie segments are measured in votes instead of degrees.
- The "newest" and "oldest" comparators of `ForumThreadViewer` return constants; they are no ordering, so engines may differ on the result.
- `alert`, `URL.createObjectURL` and the avatar upload of `ProfileEditor`; the profile form's submit only alerts.
- JavaScript's UTF-16 strings: lengths are counted in Dafny characters, and `sort()`'s comparison of UTF-16 code units is modelled as character order, which agrees with it below U+10000.
- QABoard.Store.HandleSubmitAnswer: requires the board invariant, which includes at least one existing answer. The seed has four answers and no handler removes one, so every board the widget reaches meets it. With no answers, `Math.max()` of nothing is `-Infinity`, the new id would be `a-Infinity`, and the next submit's `parseInt` of `-Infinity` would be NaN; that path is not modelled.
- QABoard.Store.HandleAcceptAnswer: offered without the view's guard (an unaccepted answer on a question by "You", QABoard.tsx:525); no seed question is by "You", so the shipped widget never reaches it.
- QABoard: question and answer ids are numbers (`"a12"` is answer 12), so `parseInt` and `substring(1)` are not modelled.
- PollCreator: option and voted ids are numbers rather than their decimal strings.
- SocialFeed.FinishLoad: requires five draws with non-negative counts, which is what the mock generator produces.
- PollCreator.Store.HandleCreatePoll: draws are parameters in [1, 10], one per option, matching the random seeding.
- QABoard.Store.SetActiveTag: accepts `Some("")`, which `FilteredQuestions` reads as a filter by the empty tag (no questions) where the source's `activeTag ?` (QABoard.tsx:137) treats `""` as no filter; the view only passes listed, non-empty tags, so this is not reached.
- ForumThreadViewer.Store.SetFilter: the same for `Some("")` against `activeFilter ?` (ForumThreadViewer.tsx:96); the tag buttons pass only non-empty seed tags.

## Findings

| source | as written | input that shows it | evidently intended | confidence | as-written member | corrected member |
|---|---|---|---|---|---|---|
| src/components/social/PollCreator.tsx:27-33 | A new option takes id `length + 1`, and removal filters out every option with the id | Start with options 1 and 2, add (3), remove 2, add: the new id is again 3. Removing 3 drops both options, leaving one, below the minimum of two | New ids are unused, so a removal drops exactly one option and the count stays within [2, 8] | not executed | PollCreator.RemoveAfterReusedIdLeavesOne | PollCreator.AddOption |
