# GeekNews feed core, modelled in Dafny

GeekNews is a browser news/video feed. It has posts with tags, reaction counters and
comments, a mock login that tells an administrator from a regular user, and an admin
panel for publishing posts. All its data lives in the browser's key-value storage. This
project models the logic under the user interface as pure functions over immutable values:

- **Store** (`store.dfy`, lemmas in `store_lemmas.dfy`): the mock database. The key-value
  storage becomes a record `Storage` of three typed tables, each possibly absent: the
  content list, a map from content id to its comments, and a map from content id to four
  reaction counters. The operations that write return the storage they leave: the seeding
  read, prepending a post, prepending a comment and raising a counter. The two reads that
  never write, of comments and of counters, return only their value.
- **Feed** (`feed.dfy`): the news/video filters of the application shell and their
  six-slot grids, which repeat a short list cyclically.
- **Home** (`home.dfy`): the home feed, a stable newest-first sort of a copy of the content.
- **AuthModal** (`auth.dfy`): the login form's submit handler. It is modelled as the
  sequence of callbacks it fires: set the error line, log in, close.
- **App** (`app.dfy`): the shell state those callbacks change (signed-in user, modal
  open), together with the modal's own error line, and the role guard of the `/admin` route.
- **AdminPanel** (`admin.dfy`): building a post from the form, the active tab, a clock
  reading `now` and the generated tags, then publishing it.
- **Decimal** (`decimal.dfy`): the decimal rendering of the clock reading used as a post id,
  with its inverse.
- **Types** (`types.dfy`): the records (`ContentItem`, `Comment`, `ReactionCounts`, `User`)
  and enumerations.

The clock (`Date.now()`), the tag generator and the storage engine are parameters. The
seed posts are dated from `loadTime`, one clock reading standing for the store's load time.
Publishing takes `now` and `tags` as inputs.

## Model

| member | source | states |
|---|---|---|
| Store.Seed | services/store.ts:4-39 | the built-in samples are exactly three posts: ids "1", "2", "3", two NEWS then one VIDEO, each carrying a video reference exactly when it is a video, all by "Admin", none dated after the load time |
| Store.GetStoredContent | services/store.ts:49-58 | the list returned is the list stored afterwards; on a storage without a content table it is the seed, which gets persisted; with a table present nothing is written; comments and reactions are never touched |
| StoreLemmas.FirstReadSeeds | services/store.ts:49-56 | on a never-used storage the first read yields the samples '1' NEWS, '2' NEWS, '3' VIDEO in that order, and only the content table gets written |
| StoreLemmas.ReadIsIdempotent | services/store.ts:49-58 | a second read returns the same list as the first and writes nothing |
| Store.AddContent | services/store.ts:60-64 | the stored list becomes the new item followed by the list a read would have returned (the seed if storage was empty); its length grows by exactly one; the other tables stay as they were |
| StoreLemmas.AddContentThenRead | services/store.ts:60-64 | the read after adding returns `[item] + previous` |
| StoreLemmas.AddContentKeepsShape | services/store.ts:60-64 | prepending a well-shaped item keeps every stored item well-shaped (video reference present exactly on videos) |
| Store.GetComments | services/store.ts:66-70 | empty when the comments table is absent or has no entry for the id; otherwise the stored list for that id |
| Store.AddComment | services/store.ts:72-81 | afterwards the id's comments read back as the new comment in front of the old ones; every other id reads back unchanged; the id gets a table entry; content and reactions stay as they were |
| StoreLemmas.AddCommentsNewestFirst | services/store.ts:72-81 | comments submitted one after another read back newest first (the submitted run reversed), ahead of the comments that were there before |
| StoreLemmas.AddCommentsLeavesOthers | services/store.ts:72-81 | a run of comments on one post leaves the comments of every other post, the content and the reactions unchanged |
| Store.GetReactions | services/store.ts:83-87 | all four counters zero for an id with no entry (or no table); otherwise the stored counters |
| Store.AddReaction | services/store.ts:89-100 | counter `t` of the id rises by exactly one, the other three stay, other ids stay, content and comments stay; the counters returned equal what a subsequent read of the id gives |
| StoreLemmas.AddReactionsCounts | services/store.ts:89-100 | after a run of clicks each counter of the post has grown by the number of clicks of its kind |
| StoreLemmas.AddReactionsTotal | services/store.ts:89-100 | after a run of clicks the sum of the post's four counters has grown by the number of clicks |
| StoreLemmas.AddReactionsLeavesOthers | services/store.ts:89-100 | a run of clicks on one post leaves the counters of every other post unchanged |
| StoreLemmas.AddReactionKeepsCountersNonNegative | services/store.ts:89-100 | if every stored counter is non-negative it stays so after a click, and the counters returned are non-negative |
| StoreLemmas.GetReactionsNonNegative | services/store.ts:83-87 | while stored counters are non-negative every read, defaults included, is non-negative |
| Feed.OfCategory | App.tsx:36-37 | every item kept has the requested category; an item is kept if and only if it is in the content with that category; the result is no longer than the content |
| Feed.OfCategoryAppend | App.tsx:36-37 | filtering a concatenation is the concatenation of the filtered parts, so relative order is preserved |
| Feed.NewsAndVideosPartition | App.tsx:36-37 | the news list and the video list together hold every item of the content exactly once (multiset union), so their lengths add up to the content's |
| Feed.Cycle | App.tsx:38-39 | repeating a non-empty list to length `n` gives length `n` with entry `i` equal to entry `i mod |xs|` of the list |
| Feed.Display | App.tsx:38-39 | the grid is empty if and only if the filtered list is; otherwise it has exactly six slots, slot `i` showing filtered item `i mod |filtered|` |
| Feed.DisplayCategories | App.tsx:36-39 | every card on the news grid is NEWS and every card on the video grid is VIDEO |
| Feed.DisplayDrawsFromFiltered | App.tsx:38-39 | every card on a grid is an item of its filtered list |
| Feed.DisplayCoversShortLists | App.tsx:38-39 | a list of one to six items appears entirely on the grid; a list of six or more shows exactly its first six |
| Home.Insert | pages/Home.tsx:14 | inserting into a newest-first list keeps it newest first and adds exactly that one item (multiset) |
| Home.SortedContent | pages/Home.tsx:14 | the home feed is a permutation of the content (same multiset, same length) with non-increasing timestamps |
| Home.SortIsStable | pages/Home.tsx:14 | for every timestamp, the posts with that timestamp appear in the feed in the same relative order as in the content |
| Home.SortKeepsSortedInput | pages/Home.tsx:14 | content already newest first is returned exactly as given |
| Home.SortIsIdempotent | pages/Home.tsx:14 | sorting the feed again changes nothing |
| Home.NewestHeadsFeed | pages/Home.tsx:14 | a post at the front of the content that is at least as recent as every other one heads the feed (on a tie a later post stays behind it, the sort being stable) |
| AuthModal.HandleSubmit | components/AuthModal.tsx:18-35 | the first callback always clears the error; an empty field sets 'Preencha todos os campos.' and never closes; the modal closes if and only if both fields are filled, and only after a login; a login is ADMIN exactly for 'admin'/'admin' (case-sensitive), as display name 'Admin'; otherwise it is USER with the name typed; never GUEST |
| AuthModal.SubmitLogsInOnce | components/AuthModal.tsx:22-33 | a submit logs in at most once, and does so if and only if both fields are non-empty |
| App.HandleLogin | App.tsx:27-29 | signing in makes the given name and role the current user and changes nothing else |
| App.HandleLogout | App.tsx:31-33 | signing out leaves no current user and changes nothing else |
| App.AdminDeniedWhenSignedOut | App.tsx:120-131 | at start-up and after any sign-out the `/admin` route shows the access-denied view; signing in again as ADMIN reopens it |
| App.AdminRoute | App.tsx:120-131 | the admin page renders if and only if a user is signed in with role ADMIN; otherwise the access-denied view shows |
| App.Apply | App.tsx:137-141 | the modal's callbacks as the shell wires them: `onLogin` makes the typed name and role the current user, `onClose` closes the modal, setting the error changes only the modal's error line; each leaves the other parts of the state as they were |
| App.ApplyAllAppend | App.tsx:137-141 | running two batches of callbacks one after the other has the same effect as running them as one batch |
| App.SubmitOutcome | components/AuthModal.tsx:18-35 | seen from the shell: an empty field keeps user and modal as they were and shows the error; 'admin'/'admin' signs in ('Admin', ADMIN) and closes the modal with no error; any other filled pair signs in (username, USER) and closes it |
| App.SubmitGrantsAdminOnlyToAdmin | App.tsx:120-131 | after a filled submit the admin page is reachable if and only if the pair typed was 'admin'/'admin' |
| Decimal.NatToString | pages/AdminPanel.tsx:32 | the rendering of a clock reading is a non-empty string of digits with no leading zero (except for 0 itself) |
| Decimal.ParseNatToString | pages/AdminPanel.tsx:32 | reading the rendered digits back yields the clock reading |
| Decimal.NatToStringInjective | pages/AdminPanel.tsx:32 | different clock readings render differently |
| AdminPanel.NewItem | pages/AdminPanel.tsx:31-41 | the post's category is the active tab; it has a video reference (the form's) if and only if the tab is VIDEO; its image is the form's when non-empty, else the picsum fallback suffixed with the id; its id is the canonical decimal numeral of `now` (digits only, no leading zero, reading back as `now`); timestamp is `now`, author 'Admin', tags as given, title and text from the form |
| AdminPanel.Submit | pages/AdminPanel.tsx:25-53 | publishing grows the stored list by one, with the new post at its head (timestamp `now`, the tab's category, author 'Admin', the given tags); the form is cleared, the success banner set, comments and reactions untouched |
| AdminPanel.DistinctTimesDistinctIds | pages/AdminPanel.tsx:32 | posts built at different clock readings get different ids |
| AdminPanel.PublishedHeadsStore | pages/AdminPanel.tsx:43 | after publishing, a read returns the new post followed by everything a read returned before |
| AdminPanel.PublishKeepsShape | pages/AdminPanel.tsx:37 | publishing keeps every stored post well-shaped |
| AdminPanel.PublishedLeadsItsGrid | App.tsx:36-39 | after publishing, the new post is the first card of the grid for its category |
| AdminPanel.PublishedHeadsHomeFeed | pages/Home.tsx:14 | a post published no earlier than every stored post is the first item of the home feed |

## Left out

- The storage engine and serialisation. The three storage keys become the three fields of
  `Storage`, and a stored table is assumed to read back exactly as written. Malformed
  stored text is not modelled, and neither are concurrent writers in other browser tabs.
- `canUserComment`, `setUserReaction` and `getUserReaction`. Components import them, but
  `services/store.ts` does not define them. The comment length limits, the link ban, the
  15-second throttle and per-user reaction switching are therefore not part of this model.
  Also, `components/ReactionSystem.tsx` shadows the imported `setUserReaction` with a state
  setter, so its click handler never reaches the store.
- `services/geminiService.ts`, the text and tag generator, calls a remote service. The
  generated tags are an input of `AdminPanel.NewItem`, and the text generator is not modelled.
- The 2-second content polling in the shell and the 3-second reset of the admin success
  banner are timers and are not modelled.
- All rendering and routing markup: the navigation bar, the content cards, the detail
  page and its `<meta>` updates. The `isOpen` guard of the login modal is left out too,
  because the submit handler can only run while the modal is open.
- Store.Seed: the source reads the clock three times at module load (one reading per sample
  post), and these reads may differ by a millisecond. The model dates all three samples from
  one reading `loadTime`.
- AdminPanel.NewItem: the source reads the clock three times (for the id, the fallback image
  and the timestamp), and these reads may differ by a millisecond. The model uses one
  reading `now` for all three.
- AdminPanel.NewItem: the form's `required` attributes are browser-side form validation and are
  not modelled. So a VIDEO post may carry an empty video reference. The model proves the
  reference is present for videos and absent for news, but not that it is non-empty.
- Store.AddReaction: the source's counters are JavaScript numbers, and `counts[t]++` stops
  changing a counter once it reaches 2^53. The model's counters are unbounded integers, so
  the "exactly one more per click" promise holds only below 2^53, a count clicks cannot reach.
- Decimal.NatToString: JavaScript switches to exponent notation from 10^21 up. Clock readings
  in milliseconds are far below that, so only the plain-digit form is modelled.
- Property lookups on plain objects: an id such as `constructor` would find an inherited
  property in the source's tables. The model's maps have no inherited keys. Ids in this system
  are clock digits or the seed ids, so such keys never reach the store.
- Timestamps are JavaScript numbers compared by subtraction in the sort. They are modelled
  as integers, so non-integral or NaN timestamps are out of scope. The sort works on a copy,
  and the model's sequences are values, so the caller's list cannot change.
