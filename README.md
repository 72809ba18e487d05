# YanjiJob portal — a Dafny model of the moderation and feed core

YanjiJob is a bilingual (Korean/Chinese) classifieds portal. Nobody logs in.
Visitors post listings in nine categories, comment on them, like or dislike
them and report them. The code also holds an admin dashboard for approving
partnership proposals, granting premium placement, toggling flags, deleting
posts and comments and blocking phone numbers. The app never sets its admin
login flag, so that dashboard is never shown (see "## Left out").

This project models the state that `App.tsx` keeps and every handler that
changes it:

- **the post list**: a `seq<Post>`;
- **the blacklist**: a `seq<BlacklistItem>`;
- **the markers**: a `set<Marker>`, standing for the browser-storage keys
  that make a reaction or a comment like count only once.

`App.Portal` is a class with one method per handler. Each method states its
new state as a function of the old one. Each method also keeps the comment
invariant `App.AllWellModerated`: every post's comments are most-liked first,
and every comment with three or more reports is hidden.

The per-post transitions (gate, reports, reactions, comments, admin actions)
are pure functions in `Moderation`. The public feed (`filteredPosts`) is the
pure function `Feed.FilteredPosts`. It is proved to contain exactly the posts
that pass the filter, premium first and newest first, with ties kept in
stored order.

The components contribute small functions and state machines:

- **`ContentCard`**: the active-comment counter and list, and the comment and
  inquiry composers.
- **`AdminDashboard`**: the counters, Views Top 5 (which reorders the shared
  post list), the button guards, the comment table and the block box.
- **`StatsDashboard`**: the sums, the category map and the top five by likes.
- **`ContentForm`** and **`JobForm`**: the record a form submits, built from
  the form fields and the translation result.
- **`NotificationBadge`**: the stored notification list, its unread counter
  and the badge label.

The modules below support the others:

- **`Text`**: ASCII lower-casing, substring search, JavaScript `trim`, and
  `split`/`join` on one character.
- **`Seqs`**: filter, count and sum.
- **`Sorting`**: a stable insertion sort by a descending lexicographic rank,
  which is what the source's comparator sorts compute since
  `Array.prototype.sort` is stable. It also holds `TopN`, the sort cut to
  its first n elements.

Dates are integer day numbers. Fresh ids, the current day, the banned-word
list and the category labels are parameters. The translation service is a
function parameter that either returns the four texts or fails.

The code behaves as follows in cases a reader might not expect:

- Approving a partnership overwrites the status unconditionally, so a banned
  post can be approved back to `active` (`Moderation.ApproveLiftsBan`).
- The anonymous nickname replaces only an empty name. A name of spaces is
  kept (`ContentCard.NicknameOrDefault`).
- The blacklist matches an entry of either type by value, and an entry's
  expiry is never consulted.
- A reaction marker is recorded even when no post has that id.

## Model

| member | source | states |
|---|---|---|
| Types.CategoriesAreNine | types.ts:4-14 | There are exactly nine categories, each listed once. |
| Moderation.CheckBannedWords | App.tsx:90-92 | True iff some banned word, lower-cased, occurs in the lower-cased text. |
| Moderation.IsUserBlocked | App.tsx:94-96 | True iff some blacklist entry's value equals the phone number. |
| Moderation.GateOrder | App.tsx:98-106 | A blacklisted phone is refused as Blocked whatever the text. A post is admitted iff its phone is not listed and neither its Korean title nor its Korean description holds a banned word. |
| Moderation.Gate | App.tsx:98-106 | Blocked iff some blacklist entry holds the post's phone. Refused for content iff the phone is not listed and the Korean title or description holds a banned word. |
| Moderation.GateIgnoresChineseText | App.tsx:103 | Changing the Chinese title or description never changes the gate's verdict. |
| Moderation.Admit | App.tsx:108-111 | The stored status is `pending` iff the post is a partnership or was already pending. Any other post is stored unchanged, and only the status ever changes. |
| Moderation.ReportPost | App.tsx:158-169 | The report count rises by one. The post is banned iff the new count is at least 5 or it was already banned. Below 5 the status is unchanged, and nothing else changes. |
| Moderation.RepeatedPostReports | App.tsx:158-169 | After n reports the count has grown by exactly n, and the post is banned iff it reached 5 or was banned before. |
| Moderation.ReportComment | App.tsx:178-182 | The comment's report count rises by one. It is hidden iff the new count is at least 3 or it was hidden before. Nothing else changes. |
| Moderation.RepeatedCommentReports | App.tsx:178-182 | After n reports the count has grown by n, and the comment is hidden iff it reached 3 or was hidden before. |
| Moderation.UpdateComments | App.tsx:178-184 | Same length. Comments with another id are unchanged, and comments with the id are transformed. |
| Moderation.ReportCommentIn | App.tsx:173-188 | Only the comments matching the id change, in place, and the post's other fields (its status included) are unchanged. |
| Moderation.React | App.tsx:196-205 | Exactly the counter of the given kind rises by one, and nothing else changes. |
| Moderation.IncrementView | App.tsx:231-233 | Views rise by one, and nothing else changes. |
| Moderation.SortByLikes | App.tsx:135 | The result is a permutation of the comments, in non-increasing like order. |
| Moderation.AddComment | App.tsx:133-138 | The comments are the old ones plus the new one (as a multiset), sorted by likes, and nothing else of the post changes. |
| Moderation.LikeComment | App.tsx:149 | The comment's likes rise by one, and nothing else changes. |
| Moderation.LikeCommentIn | App.tsx:145-154 | The comments are a permutation of the old ones with the target's likes raised, sorted by likes. The post's other fields are unchanged. |
| Moderation.LikeUnknownComment | App.tsx:145-154 | Liking an id the post does not hold leaves an already-sorted post unchanged. |
| Moderation.AddInquiry | App.tsx:222-227 | The inquiry is appended after the existing ones (none if absent), and nothing else changes. |
| Moderation.DeleteComment | App.tsx:284-286 | No comment with the id remains. Every other comment stays exactly as often as it occurred, nothing is added, and the post's other fields are unchanged. |
| Moderation.DeleteCommentKeepsOrder | App.tsx:284-286 | Deleting from two runs of comments is deleting from each, and a single comment stays iff its id differs, so the kept comments keep their order. |
| Moderation.AddCommentKeepsTiesInOrder | App.tsx:135 | Comments with equal likes keep the order they have with the new comment in front, since the sort is stable. |
| Moderation.AddCommentKeepsModeration | App.tsx:133-138 | A comment with fewer than 3 reports added to a well-moderated list keeps it well moderated. |
| Moderation.LikeCommentKeepsModeration | App.tsx:145-154 | A like keeps the comment list well moderated. |
| Moderation.ReportCommentKeepsModeration | App.tsx:173-188 | A report keeps the comment list well moderated. |
| Moderation.DeleteCommentKeepsModeration | App.tsx:284-286 | A deletion keeps the comment list well moderated. |
| Moderation.Approve | App.tsx:235-237 | The status becomes `active` whatever it was, and nothing else changes. |
| Moderation.Reject | App.tsx:239-241 | The status becomes `rejected` whatever it was, and nothing else changes. |
| Moderation.ApproveLiftsBan | App.tsx:235-237 | A banned post is approved back to `active`, with its report count kept. |
| Moderation.SetPremium | App.tsx:243-247 | The premium flag is set and the expiry day recorded, and nothing else changes. |
| Moderation.ToggleFlag | App.tsx:279 | Exactly the chosen flag is negated, and nothing else changes. |
| Moderation.ToggleTwice | App.tsx:279 | Toggling the same flag twice restores the post. |
| Moderation.UpdatePosts | App.tsx:232 | Same length. Posts with another id are unchanged, and posts with the id are transformed. |
| Moderation.UpdateUnknownId | App.tsx:232 | A handler given an id that no post has leaves the list unchanged. |
| Moderation.DeletePost | App.tsx:278 | No post with the id remains. Every other post stays exactly as often as it occurred, and nothing is added. |
| Moderation.DeletePostKeepsOrder | App.tsx:278 | Deleting from two runs of posts is deleting from each, and a single post stays iff its id differs, so the kept posts keep their order. |
| Feed.FilteredPosts | App.tsx:249-268 | Sound and complete for the four conditions, and a permutation of the filtered list. Premium posts come before the rest, and within each group later days come first. |
| Feed.FeedKeepsTiesInOrder | App.tsx:263-268 | Posts equal on both sort keys keep their stored relative order. |
| Feed.OtherTabExcludes | App.tsx:251 | A post never appears in another category's feed. |
| Feed.AdminBranchKeepsUnpublished | App.tsx:258-260 | A post that is not active is missing from the public feed, and the admin branch of the feed memo keeps it. That branch's value is never rendered: under the same condition the dashboard is drawn from the full post list instead (App.tsx:273-275), and the login flag is never set anyway (App.tsx:17). |
| Feed.PremiumFirstThenNewest | App.tsx:263-268 | For a concrete three-post list, the feed is the two premium posts (newest first), then the plain one. |
| Feed.TabAndRegionScenario | App.tsx:251-256 | For a concrete post, the tab and region filters include and exclude it as expected. |
| App.ReactStep | App.tsx:192-207 | With the marker already set the posts are unchanged; otherwise the posts with the id get the reaction. Either way the marker for (post, kind) is recorded. |
| App.ReactTwiceIsOnce | App.tsx:193-194 | Reacting the same way twice has the effect of reacting once. |
| App.ReactCountsOnce | App.tsx:192-207 | The reacted counter of the post rises by one iff its marker was absent, and the other counter is unchanged. |
| App.LikeThenDislike | App.tsx:192-207 | From no markers, a like then a dislike raises both counters by one. |
| App.CommentLikeStep | App.tsx:141-156 | With the comment's marker already set the posts are unchanged; otherwise the comment is liked within the post with that id. Either way the marker is recorded. |
| App.CommentLikedOnce | App.tsx:142-143 | Once a comment id is liked, a second like, even through another post id, changes nothing. |
| App.CommentHandlersKeepModeration | App.tsx:117-188 | Adding a fresh comment, liking, reporting and deleting comments keep every post well moderated. |
| App.UpdateKeepsModeration | App.tsx:232 | A transition that leaves comments alone keeps every post well moderated. |
| App.PostHandlersKeepModeration | App.tsx:158-247 | Reports, reactions, views, inquiries, approve, reject, premium, flag toggles and deletion keep every post well moderated. |
| App.AddPostKeepsModeration | App.tsx:113 | Prepending an admitted post with ordered comments keeps every post well moderated. |
| App.Portal.constructor | App.tsx:19-22 | The state starts as given, and a loaded list whose comments are well moderated gives a portal that meets the comment invariant. |
| App.Portal.HandleAddPost | App.tsx:98-115 | The outcome is the gate's verdict. If admitted, the admitted post is prepended to the old list; otherwise the list is unchanged. The blacklist and markers are unchanged. |
| App.Portal.HandleAddComment | App.tsx:117-139 | Accepted iff the content has no banned word. If accepted, the new comment is added to the post with that id; otherwise nothing changes. |
| App.Portal.HandleCommentLike | App.tsx:141-156 | The new posts and markers are those of the check-then-set step, and the blacklist is unchanged. |
| App.Portal.HandleReportPost | App.tsx:158-171 | The post with the id is reported, and nothing else changes. |
| App.Portal.HandleReportComment | App.tsx:173-190 | The comment is reported within the post with that id, and nothing else changes. |
| App.Portal.HandleReact | App.tsx:192-207 | The new posts and markers are those of the check-then-set step. |
| App.Portal.HandleAddInquiry | App.tsx:209-229 | Accepted iff the message has no banned word. If accepted, the inquiry is appended to the post with that id; otherwise nothing changes. |
| App.Portal.IncrementViewOf | App.tsx:231-233 | The post with the id gains a view, and nothing else changes. |
| App.Portal.HandleApprovePartnership | App.tsx:235-237 | The post with the id becomes `active`, and nothing else changes. |
| App.Portal.HandleRejectPartnership | App.tsx:239-241 | The post with the id becomes `rejected`, and nothing else changes. |
| App.Portal.HandleSetPremium | App.tsx:243-247 | The post with the id becomes premium until today plus the given days. |
| App.Portal.OnDeletePost | App.tsx:278 | The posts with the id are removed, and nothing else changes. |
| App.Portal.OnToggleStatus | App.tsx:279 | The flag is toggled on the post with the id. |
| App.Portal.OnAddBlacklist | App.tsx:283 | A phone entry with the value, the reason, today and no expiry is appended, and the posts and markers are unchanged. |
| App.Portal.OnDeleteComment | App.tsx:284-286 | The comment is removed from the post with that id, and nothing else changes. |
| App.BlockedAfterBlacklisting | App.tsx:283 | Once a phone is blocked, every later submission with that phone is refused as Blocked. |
| ContentCard.ActiveCommentCount | components/ContentCard.tsx:118 | At most the number of comments, and 0 iff every comment is hidden. |
| ContentCard.Pane | components/ContentCard.tsx:156-173 | The empty state is shown iff no comment is active. Otherwise exactly the active comments are listed, as many as the counter says, each as often as it is stored. |
| ContentCard.PaneKeepsOrder | components/ContentCard.tsx:157-158 | The listing of two runs of comments is the active comments of the first run followed by those of the second, so the pane keeps stored order. |
| ContentCard.PaneOfOne | components/ContentCard.tsx:156-158 | A single active comment is listed on its own; a single hidden comment gives the empty state. |
| ContentCard.PaneMostLikedFirst | components/ContentCard.tsx:157-158 | When the stored comments are well moderated, the listed ones are in non-increasing like order. |
| ContentCard.CountAfterNewComment | components/ContentCard.tsx:118 | A new active comment adds exactly one to the counter. |
| ContentCard.PostedCommentIsCounted | App.tsx:123-138 | A comment posted through the card raises the active counter by one and keeps a well-moderated comment list well moderated. |
| ContentCard.CountAfterLike | components/ContentCard.tsx:118 | A like never changes the counter. |
| ContentCard.CountAfterReport | components/ContentCard.tsx:118 | When exactly one comment has the reported id, a report lowers the counter by one exactly when it hides an active comment. |
| ContentCard.CountAfterReports | App.tsx:178-184 | For any number of comments sharing the reported id, the counter drops by the number of matching active comments whose new report count reaches 3. |
| ContentCard.NicknameOrDefault | components/ContentCard.tsx:55 | Never empty. A non-empty name is kept, and an empty one becomes 익명 for Korean and 匿名 for Chinese. |
| ContentCard.CommentComposer.constructor | components/ContentCard.tsx:26 | Starts with empty fields. |
| ContentCard.CommentComposer.Submit | components/ContentCard.tsx:52-57 | Blank text calls nothing and changes nothing. Otherwise the handler gets the post id, the default-filled nickname and the text, and the text box is cleared. |
| ContentCard.InquiriesOnlyForApprovedPartners | components/ContentCard.tsx:120-129 | The inquiry form is never shown without the button. In the public feed a card with the button is an active partnership post on the partnership tab, and a just-submitted proposal (stored pending) is not in the public feed. |
| ContentCard.InquiryComposer.constructor | components/ContentCard.tsx:24-28 | Starts closed with empty fields. |
| ContentCard.InquiryComposer.Toggle | components/ContentCard.tsx:121 | Flips the open state, and the fields are unchanged. |
| ContentCard.InquiryComposer.Submit | components/ContentCard.tsx:59-65 | Blank text calls nothing and changes nothing. Otherwise the handler is called, the text is cleared and the form is closed. |
| ContentCard.WhitespaceNeverSubmitted | components/ContentCard.tsx:54 | Whitespace-only text counts as blank. |
| AdminDashboard.PendingCount | components/AdminDashboard.tsx:97 | At most the number of posts, and 0 iff no post is pending. |
| AdminDashboard.PremiumActiveCount | components/AdminDashboard.tsx:37 | At most the number of posts, and 0 iff no post is flagged premium. |
| AdminDashboard.NewToday | components/AdminDashboard.tsx:31 | At most the number of posts, and 0 iff none was created today. |
| AdminDashboard.PremiumCountIgnoresExpiry | components/AdminDashboard.tsx:37 | Re-granting premium to premium posts leaves the count unchanged whatever the expiry. |
| AdminDashboard.LeavingPendingLowersCount | components/AdminDashboard.tsx:97 | A transition that moves posts out of pending lowers the count by the pending posts with that id. |
| AdminDashboard.DecisionLowersPending | components/AdminDashboard.tsx:126-129 | Approve and reject each lower the pending count by exactly the pending posts with that id. |
| AdminDashboard.ViewsTopFive | components/AdminDashboard.tsx:104 | The shared post list is left sorted by views, and the result is its first five. The blacklist, markers and comment invariant are kept. |
| AdminDashboard.ViewsTopFiveIsTop | components/AdminDashboard.tsx:104 | At most five posts, in non-increasing views, and no post left out has more views than one shown. |
| AdminDashboard.PartnershipPosts | components/AdminDashboard.tsx:117 | Exactly the partnership posts, each as often as it is stored. |
| AdminDashboard.PartnershipTabKeepsOrder | components/AdminDashboard.tsx:117 | The tab of two runs of posts is the two tabs joined, and a single post is listed iff it is a partnership, so the tab keeps stored order. |
| AdminDashboard.ButtonsGuardTheirActions | components/AdminDashboard.tsx:117-132 | Buttons appear only on the partnership tab. A partnership post has the approve and reject buttons iff the pending counter counts it, while a pending post of another type is counted but gets no buttons. A banned post gets no approve or premium button, and each button disappears once used. |
| AdminDashboard.RowsOf | components/AdminDashboard.tsx:167 | One row per comment of the post, in order, tagged with the post's id and Korean title. |
| AdminDashboard.AllComments | components/AdminDashboard.tsx:167 | As many rows as comments in all posts, hidden ones included, and every comment of every post has its row. |
| AdminDashboard.AllCommentsKeepsOrder | components/AdminDashboard.tsx:167 | The table of two runs of posts is the two tables joined, and a single post gives exactly its own rows in comment order, so the table runs post by post in stored order. |
| AdminDashboard.AllCommentsAt | components/AdminDashboard.tsx:167 | Row k of a non-empty table is a row of the first post when k is below its comment count, and otherwise row k minus that count of the remaining posts' table. |
| AdminDashboard.CommentRowsComeFromPosts | components/AdminDashboard.tsx:167 | Every row is a comment of some post, tagged with that post. |
| AdminDashboard.BlockForm.constructor | components/AdminDashboard.tsx:27 | The box starts empty. |
| AdminDashboard.BlockForm.Block | components/AdminDashboard.tsx:188-189 | Passes the typed value (even an empty one) with reason "Manual Block", and clears the box. |
| StatsDashboard.TotalComments | components/StatsDashboard.tsx:13 | Equals the number of rows of the admin comment table, so hidden comments are counted. |
| StatsDashboard.TotalLikes | components/StatsDashboard.tsx:11 | At least every post's likes, and 0 iff no post has a like. |
| StatsDashboard.TotalViews | components/StatsDashboard.tsx:12 | At least every post's views, and 0 iff no post has a view. |
| StatsDashboard.BumpRaisesSum | components/StatsDashboard.tsx:11-12 | A transition raising a counter on the posts with an id raises the sum by the number of those posts. |
| StatsDashboard.TotalsFollowHandlers | components/StatsDashboard.tsx:11-12 | A like raises the like total, and a view raises the view total, by the number of posts with that id. |
| StatsDashboard.CategoryStats | components/StatsDashboard.tsx:15-20 | A category has an entry iff it has posts, and each entry equals its number of posts. |
| StatsDashboard.CategoryStatsKeys | components/StatsDashboard.tsx:15-20 | A category has an entry iff some post is of that category. |
| StatsDashboard.CategoryStatsSumToTotal | components/StatsDashboard.tsx:10-20 | The per-category counts (absent read as 0) add up to the number of posts, and each equals the map entry. |
| StatsDashboard.TopPosts | components/StatsDashboard.tsx:22-24 | min(5, n) posts, drawn from the list. |
| StatsDashboard.TopPostsAreTop | components/StatsDashboard.tsx:22-24 | Length min(5, n), non-increasing likes, drawn from the posts, and no post left out has more likes than one shown. |
| StatsDashboard.TopPostsKeepTiesInOrder | components/StatsDashboard.tsx:22-23 | Posts with equal likes keep their stored order. |
| ContentForm.OrNoneRoundTrip | components/ContentForm.tsx:78-91 | Reading an absent field as empty gives back what was typed, and a present field is never empty. |
| ContentForm.Tags | components/ContentForm.tsx:81 | Absent iff the field is empty. Otherwise one tag per comma-separated piece, each trimmed. |
| ContentForm.TagsRoundTrip | components/ContentForm.tsx:81 | Every tag is comma-free with no surrounding whitespace. When no piece has surrounding spaces, joining the tags with commas gives back the field. |
| ContentForm.TrimmedPieceIsClean | components/ContentForm.tsx:81 | A comma-free piece, trimmed, is comma-free with no whitespace at its ends. |
| ContentForm.DefaultCategory | components/ContentForm.tsx:82 | Never empty. It is the chosen category, else the type's first label, else "기타". |
| ContentForm.TranslationSourceIsTyped | components/ContentForm.tsx:68 | The text sent as title is the title or the shop name, and it is empty iff both are. |
| ContentForm.PhotoPicker.constructor | components/ContentForm.tsx:17 | No photos. |
| ContentForm.PhotoPicker.AddFiles | components/ContentForm.tsx:43-57 | Accepted iff the total stays at most 3. Then the files are appended; otherwise nothing changes. There are never more than 3 photos. |
| ContentForm.PhotoPicker.RemovePhoto | components/ContentForm.tsx:59-61 | The photos after removing the index. |
| ContentForm.RemoveAt | components/ContentForm.tsx:60 | An index in range removes exactly that photo and keeps the others in order. An index out of range removes nothing. |
| ContentForm.BuildPost | components/ContentForm.tsx:71-108 | The translated texts; the tags, shop name and eleven detail fields with empty ones left out; the location, phone, WeChat id and the two flags as typed; the photos iff any. Created today, expiring 30 days later, active, with zero counters, no comments and no flags. |
| ContentForm.Submit | components/ContentForm.tsx:63-116 | Nothing is submitted iff the translation fails. Otherwise the built post is submitted. |
| ContentForm.FormPostIsFresh | components/ContentForm.tsx:102-107 | Once admitted, a form post is pending iff it is a partnership, and active otherwise. Its comments meet the invariant. |
| ContentForm.ChineseFallbackPassesWordCheck | services/geminiService.ts:57-68 | With the malformed-response fallback for a Chinese writer, the Korean fields are empty, so no non-empty banned word is found. |
| Translation.FallbackKeepsWriterText | services/geminiService.ts:57-68 | The Korean and Chinese fields joined give back the title and the description, and the fields of the other language are empty. |
| JobForm.JobCategoryIsListed | components/JobForm.tsx:46 | The chosen category or the head of a default list, the part-time list exactly for part-time posts, and never empty when both lists start with a label. |
| JobForm.BuildJobPost | components/JobForm.tsx:39-64 | The translated texts, the location, phone, WeChat id and the two flags as typed, the salary kept even when empty, and no photos, tags, shop or premium expiry. Active with zero counters and no flags, expiring after the type's lifetime. |
| JobForm.SubmitJob | components/JobForm.tsx:31-72 | Only the title (never a shop name) is translated. Nothing is submitted iff the translation fails; otherwise the built post is. |
| JobForm.JobPostIsLive | components/JobForm.tsx:54-58 | A job post expires 14 days after creation iff it is part-time and 30 days otherwise, and recruitment and part-time posts enter the list active. |
| NotificationBadge.UnreadCount | components/NotificationBadge.tsx:8 | At most the number of items, and 0 iff all are read. |
| NotificationBadge.AllRead | components/NotificationBadge.tsx:20 | Same length and order, with every item marked read and otherwise unchanged. |
| NotificationBadge.AllReadLeavesNoneUnread | components/NotificationBadge.tsx:18-23 | After marking all read nothing is unread, and doing it twice is doing it once. |
| NotificationBadge.Notifications.Items | components/NotificationBadge.tsx:25-27 | The stored list, or the empty list when nothing is stored. |
| NotificationBadge.Notifications.constructor | components/NotificationBadge.tsx:6-9 | The counter starts at the number of unread stored items. |
| NotificationBadge.Notifications.AddNotification | components/NotificationBadge.tsx:11-16 | An unread item is put in front of the old items, the counter rises by one, and the counter invariant is kept. |
| NotificationBadge.Notifications.MarkAllRead | components/NotificationBadge.tsx:18-23 | Every item is marked read, and the counter is 0 and agrees with the list. |
| NotificationBadge.BadgeLabel | components/NotificationBadge.tsx:36-43 | Nothing for 0, "9+" above 9, and otherwise the single digit of the count. |
| NotificationBadge.BadgeFits | components/NotificationBadge.tsx:41 | The label is one or two characters, and two exactly when the count exceeds 9. |
| Text.Lower | App.tsx:91 | Same length, and each character is lower-cased. |
| Text.Contains | App.tsx:91 | True iff the second string occurs at some position of the first. |
| Text.BlankIffAllWhitespace | components/ContentCard.tsx:54 | Trimming gives the empty string iff every character is whitespace. |
| Text.Trim | components/ContentCard.tsx:54 | No longer than the input, and empty or with a non-whitespace character at each end. |
| Text.TrimRemovesEdgeWhitespace | components/ContentForm.tsx:81 | Trimming leaves a run of the string with only whitespace before and after it. |
| Text.Split | components/ContentForm.tsx:81 | At least one piece, and no piece contains the separator. |
| Text.JoinSplit | components/ContentForm.tsx:81 | Splitting on a character and joining with it gives back the string. |
| Sorting.SortByRank | App.tsx:263-268 | A permutation of the input, in non-increasing rank order. |
| Sorting.SortStable | App.tsx:263-268 | The elements of any one rank keep their relative order. |
| Sorting.TopN | components/StatsDashboard.tsx:22-24 | The first n of the sorted list: sorted, drawn from the input, and never beaten by an element left out. |
| Seqs.Filter | App.tsx:278 | Every kept element passes the test and comes from the input, every passing element is kept, and nothing is added. |
| Seqs.FilterMultiplicity | App.tsx:278 | Each passing element is kept as often as it occurs, and each failing one is dropped. |
| Seqs.FilterAppend | App.tsx:278 | Filtering two runs is filtering each and joining, so filtering keeps order. |

## Left out

- `server.cjs` is not part of this model. It is an Express and SQLite server that the app does not call.
- The translation service (`services/geminiService.ts`) calls a remote language model. The forms take it as a function that returns the four texts or fails. Only its malformed-response fallback is modelled. `translateContent` is not used by the modelled code.
- Browser storage: the posts and the blacklist are loaded at start and saved on every change, and the seed posts are used when nothing is stored. The portal's constructor takes any initial state instead. The marker keys are a set.
- Dates are integer day numbers. Locale date strings, their parsing in the feed comparator, and `setDate` arithmetic are not modelled. A post's creation day is compared as a number.
- Ids from `Math.random` and `Date.now`, and the current day, are parameters.
- The banned-word list, the region list and the category labels live in a constants file that is not part of this model. They are parameters.
- Text.Lower: lower-cases ASCII letters only. Full Unicode case mapping is not modelled.
- `pendingReports`, `activeAds` and `adsCtr` on the admin overview: in the code the reports and campaigns lists are never filled, and `adsCtr` is a constant. The reports and ads tabs are not modelled.
- The admin dashboard and its handlers (`App.tsx:235-247` and `App.tsx:273-288`), and the admin branch of the feed filter (`App.tsx:258`), are modelled as reachable. In the code the login flag set up at `App.tsx:17` is never set, so none of them ever runs, and a partnership proposal stored as `pending` can never be approved or seen. Even with the flag set, that branch's value would never be shown: under the same condition the dashboard, which takes the full post list, replaces the feed (`App.tsx:273-275`). Feed.AdminBranchKeepsUnpublished states the value of that unused branch.
- App.Portal.constructor: it requires the loaded posts to meet the comment invariant. The seed posts have no comments, and stored posts are taken to come from these handlers. A list edited in storage by hand is not modelled.
- StatsDashboard.TotalComments: the code's `|| 0` fallbacks for missing counters do not arise, because every modelled post has its counters and comment list.
- ContentForm.PhotoPicker.AddFiles: the files are appended together and at once. In the code each file is read asynchronously and appended when its read completes, so two quick selections are both checked against the same stale count and can together exceed three photos. That interleaving is not modelled.
- NotificationBadge.Notifications.AddNotification: two calls within one render would each compute `count + 1` from the same stale value. Each call is modelled as seeing the latest counter.
- App.Portal.HandleAddPost: the handlers that use `posts` instead of the updater's `prev` (adding a post, deleting a post, toggling a flag, blocking) can lose a concurrent update. Every handler is modelled as seeing the latest state.
- The loading flags, `alert` messages, closing the forms, and all layout, styling, the chat window, the language selector and the job card are not modelled.
- `onAddInquiry` is optional on a card. The composer returns the call it would make, and making it is up to the caller.
- The `Admission` outcome of the gate names the refusal reason. The user sees it only as an alert text, which is not modelled.
- The total post count on the admin overview is the length of the list. It is stated, through the category counts, by `StatsDashboard.CategoryStatsSumToTotal`.
