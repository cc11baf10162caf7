# Acadlyst, modelled in Dafny

Acadlyst is a study-resource sharing site. Students upload notes, lecture links and
placement write-ups, vote on them and flag them. They earn levels and badges, join study
groups, and can publish a UPI payment link once they have contributed enough. The site has
an AI study assistant whose answers are cached. This project models the logic of the
site's two serverless handlers and of its React client, and proves properties of that
model.

One module per source file:

- Server handlers:
  - `AiChat` (`supabase/functions/ai-chat/index.ts`): the cache-or-compute chat relay. The
    cache is a map, the history table an append-only sequence, and the completion service
    a function parameter whose calls are recorded. The cache key travels unescaped in the
    cache service's REST URL path. The model therefore reads and writes the key the service
    receives: tabs and line breaks dropped, the path cut at the first `?` or `#`, and each
    `/`-separated segment percent-decoded. A command that the cut or an extra segment
    leaves with the wrong number of arguments is refused.
  - `ChatFeedback` (`supabase/functions/chat-feedback/index.ts`): the fixed-window
    feedback rate limiter and the feedback recorder.
- Client state machines, written as classes whose methods are proved against pure
  specification functions:
  - `Voting` (`VotingButtons.tsx`), `ChatPanel` (`FloatingAiChat.tsx`).
  - `UploadForm`, `EditUpload` (`EditUploadForm.tsx`), `GroupForm` (`CreateGroupForm.tsx`).
  - `Groups` (the join mutation), `AdminContent` (`AdminContentManagement.tsx`).
  - `FileViewer`, `Hero`, `Notifications` (`useNotifications.ts`).
  - `PasswordUpdate` (`UpdatePassword.tsx`).
- Pure derivations, written as functions and lemmas:
  - `UpiUnlock`, `UserStats`, `RelativeDate` (the `formatDate` shared by three files).
  - `ResourcePages` (the notes and lectures pages), `VideoThumbnail`, `Trending`.
  - `BadgeDisplay`, `App` (the auth gate and routes), `ClickableUsername`.
  - `ProfileData` (`useProfileData.ts`), `ProfileHeader`, `ProfileDonate`, `SupportUs`.
  - `NotificationsPopover`, `NotificationsList`.
- Shared modules:
  - `Basics`: options and JavaScript truthiness.
  - `Text`: trimming, ASCII case mapping, UTF-16 lengths, decimal numerals.
  - `Uri`: `encodeURIComponent` and `application/x-www-form-urlencoded` query strings.
  - `Ordering`: descending sorts with NULL first, as PostgREST orders, and `limit`.
  - `Listing`: upload rows, the listing queries' filters, `ilike` search and option
    de-duplication.

The notes page (`src/pages/Notes.tsx`) and the lectures page (`src/pages/Lectures.tsx`)
are the same code apart from the upload type they list. `ResourcePages` models both, with
the type as a parameter, so rows below cite whichever of the two states the line.

Time is an integer number of milliseconds passed in by the caller. Replies from the
database, the storage service, the cache and the completion service are parameters of the
methods that await them.

## Model

| member | source | states |
|---|---|---|
| ChatFeedback.FailsOpen | supabase/functions/chat-feedback/index.ts:17-49 | without the cache's URL and token, or when the GET throws, the request is allowed and the cache is untouched; a throwing INCR or EXPIRE still allows, with INCR's failure leaving the counter and EXPIRE's failure skipping only the expiry |
| ChatFeedback.CheckThenIncrement | supabase/functions/chat-feedback/index.ts:21-45 | a stored count of 10 or more rejects and changes nothing; otherwise the request is allowed, the counter under `rate_limit:<type>:<user>` goes up by exactly one (from absent to 1), and the 3600 s expiry is set only when the counter was absent |
| ChatFeedback.TenPerWindow | supabase/functions/chat-feedback/index.ts:27-43 | from an absent counter with no expiry in between, the outcomes of n ≤ 11 sequential submissions are exactly: allowed for the first ten, rejected for the eleventh |
| ChatFeedback.CountsInWindow | supabase/functions/chat-feedback/index.ts:27-43 | from an absent counter, after n ≤ 10 sequential allowed submissions the counter under the key holds n (absent when n is 0) |
| ChatFeedback.MissingFieldRejected | supabase/functions/chat-feedback/index.ts:58-65 | a missing or empty chat id, feedback or user id gives 400 with the fixed message, before any rate-limit step or insert: cache and rows unchanged |
| ChatFeedback.CompleteRequest | supabase/functions/chat-feedback/index.ts:67-97 | a complete request is rate-limited under the `chat_feedback` key: a rejection gives 429 with no row; an insert error gives 500 with no row; otherwise exactly one `{chat_id, user_id, feedback, created_at}` row is appended and success returned |
| ChatFeedback.FeedbackService.constructor | supabase/functions/chat-feedback/index.ts:14-15 | the service starts with an empty counter store, no expiries and no rows, under the given cache configuration |
| ChatFeedback.FeedbackService.CheckRateLimit | supabase/functions/chat-feedback/index.ts:17-50 | the counters, expiries and verdict after the in-place check-then-increment are those of the rate-limit specification; the feedback rows are untouched |
| ChatFeedback.FeedbackService.Handle | supabase/functions/chat-feedback/index.ts:52-99 | the handler's new cache, rows and response are exactly the request-handling specification's (preflight, 400, 429, insert, 500) |
| AiChat.QueryGroq | supabase/functions/ai-chat/index.ts:53-97 | the completion succeeds exactly when the API key is set, the reply is a 2xx and its content is non-empty, and then returns that content; without the key the error is the fixed "GROQ_API_KEY is not set." |
| AiChat.SharedCacheEntry | supabase/functions/ai-chat/index.ts:120 | queries differing only in ASCII letter case or in surrounding white space map to the same `faq:` cache key |
| AiChat.IncompleteRequestHasNoEffect | supabase/functions/ai-chat/index.ts:108-117 | a missing or empty query or user id gives 400 with no cache read, no completion call and no history row |
| AiChat.CacheHitSkipsCompletion | supabase/functions/ai-chat/index.ts:119-155 | a non-empty entry under the key the service reads is returned without any completion call or cache write; one history row with that answer is appended and its id returned, or no row and a null id when the insert fails |
| AiChat.MissCallsCompletionOnce | supabase/functions/ai-chat/index.ts:121-150 | on a miss (no cache, a failing GET, a refused GET, or no non-empty entry) the completion service is called exactly once with the query; on success the answer is returned, stored with a 24 h TTL under the key the service accepts when the cache is configured and the SETEX works, the cache left as it was when the SETEX is refused, and logged in one history row |
| AiChat.FailureIsLogged | supabase/functions/ai-chat/index.ts:156-176 | a failing completion gives 500, writes nothing to the cache, and appends exactly one history row for the query and user whose response starts with "Error: " (unless that insert fails) |
| AiChat.RepeatQuestionServedFromCache | supabase/functions/ai-chat/index.ts:119-131 | after a successful answer, asking again with the same key (any case or padding) makes no further completion call, returns the same answer and still logs a history row, whenever the service accepts the key for SETEX |
| AiChat.PathEnd | supabase/functions/ai-chat/index.ts:24 | the path the service receives is the longest prefix of the key holding no `?` or `#`, and it stops only at one of them |
| AiChat.StoredKeyReadsBack | supabase/functions/ai-chat/index.ts:20-51 | a key the service accepts for SETEX is read by GET as the same key, so what is stored is what a later read finds |
| AiChat.PlainKeyArrivesAsIs | supabase/functions/ai-chat/index.ts:24 | a key without `?`, `#`, `/`, backslash, `%`, tab or line break reaches the service unchanged, for GET and for SETEX |
| AiChat.KeyEndingInQuestionMark | supabase/functions/ai-chat/index.ts:39 | a plain key followed by `?` is refused by SETEX (the TTL lands in the query string) and read by GET without the `?` (also line 24) |
| AiChat.QuestionMarkKeyRefused | supabase/functions/ai-chat/index.ts:120 | a question whose key is plain apart from a final `?` is never stored, and its reads find the entry of the question without the `?` (also lines 24, 39) |
| AiChat.WhatIsDafnyIsRefused | supabase/functions/ai-chat/index.ts:120 | "What is Dafny?" has the key "faq:what is dafny?", one plain key followed by `?` |
| AiChat.AnswerStored | supabase/functions/ai-chat/index.ts:121-128 | a successful answer to a request whose key the service accepts is returned and stored under that key |
| AiChat.RefusedKeyNotStored | supabase/functions/ai-chat/index.ts:121-128 | on a miss for a key the service refuses for SETEX, the completion service is called and the cache stays as it was, whatever the completion answers |
| AiChat.RefusedKeyAskedEveryTime | supabase/functions/ai-chat/index.ts:119-131 | for a key refused by SETEX, a repeated question that found nothing calls the completion service again: one call per request |
| AiChat.EncodedKeyDelivered | supabase/functions/ai-chat/index.ts:24 | with the key written through `encodeURIComponent`, GET and SETEX both receive exactly the key, whatever it holds (also line 39) |
| AiChat.EncodedRepeatServedFromCache | supabase/functions/ai-chat/index.ts:119-131 | with the encoded key, every repeated question is served from the cache: no second completion call and the same answer |
| AiChat.UnconfiguredCacheAlwaysCompletes | supabase/functions/ai-chat/index.ts:121-128 | without the cache's URL and token every request calls the completion service and the cache stays empty of writes (also lines 20-22, 35-36) |
| AiChat.ChatRelay.constructor | supabase/functions/ai-chat/index.ts:11-13 | the relay starts with an empty cache, no TTLs, no history and no completion calls |
| AiChat.ChatRelay.RedisGet | supabase/functions/ai-chat/index.ts:20-33 | the value read is the entry under the key the service receives (the path cut at `?` or `#`), or null when the cache is unconfigured, the GET fails, the path splits into extra arguments, or nothing is stored there |
| AiChat.ChatRelay.RedisSet | supabase/functions/ai-chat/index.ts:35-51 | the SETEX stores the value with the 86400 s TTL under the key the service receives, and reports success exactly when the cache is configured, the call does not fail and the key holds no `?`, `#`, `/` or backslash; otherwise nothing changes |
| AiChat.ChatRelay.QueryCompletion | supabase/functions/ai-chat/index.ts:53-97 | the result is the completion specification's; a call is recorded exactly when the API key is set |
| AiChat.ChatRelay.InsertRow | supabase/functions/ai-chat/index.ts:134-150 | one history row with the next id is appended and its id returned, or nothing is appended and no id returned when the insert fails |
| AiChat.ChatRelay.Handle | supabase/functions/ai-chat/index.ts:99-178 | the handler's new cache, TTLs, history, completion calls and response are exactly the cache-or-compute specification's |
| Voting.FetchedVote | src/components/VotingButtons.tsx:30-46 | after a successful fetch the held vote is the fetched value when it is truthy and null otherwise (a stored 0 reads as no vote); a failed fetch or no user changes nothing; the total and the flag are never touched |
| Voting.FetchedFlag | src/components/VotingButtons.tsx:48-64 | the flag is set exactly when a flag row was found; a failed fetch or no user changes nothing; the total and the vote are never touched |
| Voting.VoteEffect | src/components/VotingButtons.tsx:79-108 | voting the value already held deletes the vote and takes the value off the total; with no vote held the value is added and recorded with an upsert; switching from a held vote moves the total by the difference |
| Voting.VoteTwice | src/components/VotingButtons.tsx:79-108 | voting the same value twice from no vote restores the state; from another held vote it ends with no vote and the old vote taken off the total |
| Voting.FailureOrLoggedOutChangesNothing | src/components/VotingButtons.tsx:109-118 | a failed vote or flag call leaves the state and reports no new total; without a user no call is made and nothing changes (also lines 67-74, 122-129, 156-162) |
| Voting.FlagAtMostOnce | src/components/VotingButtons.tsx:131-150 | an item already flagged sends no further flag; after a successful flag the item is flagged and a second flag sends nothing |
| Voting.FetchedZeroIsNoVote | src/components/VotingButtons.tsx:42 | after a stored 0 is fetched, any non-zero vote is added in full to the total (also line 103) |
| Voting.VoteWidget.constructor | src/components/VotingButtons.tsx:17-21 | the widget starts from the initial total with no vote, not flagged and idle |
| Voting.VoteWidget.FetchUserVote | src/components/VotingButtons.tsx:30-46 | the in-place update follows the fetched-vote specification; the busy flags are untouched |
| Voting.VoteWidget.FetchUserFlag | src/components/VotingButtons.tsx:48-64 | the in-place update follows the fetched-flag specification; the busy flags are untouched |
| Voting.VoteWidget.HandleVote | src/components/VotingButtons.tsx:66-119 | state, reported total and call follow the vote specification; `isVoting` is false after every attempt that reached the call |
| Voting.VoteWidget.HandleFlag | src/components/VotingButtons.tsx:121-164 | state and call follow the flag specification; `isFlagging` is false after every attempt that reached the call |
| ChatPanel.TempId | src/components/FloatingAiChat.tsx:42 | the temporary id is a non-empty string of decimal digits (the clock's value) |
| ChatPanel.Without | src/components/FloatingAiChat.tsx:72 | the filtered list holds exactly the messages whose id differs from the given one, and is never longer |
| ChatPanel.WithoutConcat | src/components/FloatingAiChat.tsx:72 | filtering a concatenation filters each part |
| ChatPanel.WithoutAbsent | src/components/FloatingAiChat.tsx:72 | filtering out an id no message has leaves the list as it was |
| ChatPanel.FailureRemovesOnlyPending | src/components/FloatingAiChat.tsx:50-72 | when the relay fails, removing the pending message restores exactly the list from before the submission |
| ChatPanel.SuccessChangesOnlyPending | src/components/FloatingAiChat.tsx:50-63 | on success every earlier message is unchanged and the pending one takes the returned chat id (or keeps the temporary id when none came back) and the response |
| ChatPanel.FeedbackOnlyMatching | src/components/FloatingAiChat.tsx:90-94 | feedback changes only the messages with that id, and only their feedback field; repeating it changes nothing; the set of ids is kept |
| ChatPanel.FeedbackButtonsOnceAnswered | src/components/FloatingAiChat.tsx:43-63 | the pending message, with its empty response, shows no feedback buttons; once resolved it shows them exactly when the answer is non-empty, and earlier messages keep theirs (also lines 172-184) |
| ChatPanel.Panel.constructor | src/components/FloatingAiChat.tsx:23-25 | the panel starts with no messages, an empty input and not loading |
| ChatPanel.Panel.Type | src/components/FloatingAiChat.tsx:24 | typing changes only the input |
| ChatPanel.Panel.BeginSubmit | src/components/FloatingAiChat.tsx:34-50 | a blank input, a submission in flight or a missing user sends nothing and changes nothing; otherwise the trimmed query is sent, the input cleared, loading set, and one pending message with the temporary id and an empty response appended, which shows no feedback buttons |
| ChatPanel.Panel.EndSubmit | src/components/FloatingAiChat.tsx:52-75 | a reply resolves the pending message in place; a failure removes it; loading is false afterwards in both cases |
| ChatPanel.Panel.GiveFeedback | src/components/FloatingAiChat.tsx:78-108 | a successful feedback call marks the messages with that id; a failed one changes nothing |
| ChatPanel.SubmitRoundTrip | src/components/FloatingAiChat.tsx:34-76 | a whole submission ends not loading with an empty input; a failure leaves the message list as before; a reply appends exactly one message holding the trimmed query, the response and the returned or temporary id, with feedback buttons exactly when the response is non-empty |
| UploadForm.FourthRefinementRedundant | src/components/UploadForm.tsx:31-72 | the fourth refinement is implied by the third: a form is valid exactly when its fields and the first three refinements pass; a non-note without a link fails the third refinement while passing the fourth |
| UploadForm.ValidBounds | src/components/UploadForm.tsx:16-72 | a valid form has a title of 1 to 200 characters, a course and a subject, a description of at most 1000, a non-empty free text whenever OTHER is chosen, a link for every non-note and a link or a file for a note |
| UploadForm.NoUserNoUpload | src/components/UploadForm.tsx:104-111 | without a signed-in user a submission stores nothing, inserts nothing and keeps the values |
| UploadForm.SuccessfulSubmission | src/components/UploadForm.tsx:113-158 | a successful submission appends exactly one row with the user, title and subject; a note with a file is stored under the generated path, which the row holds, with no link; otherwise the row keeps the link and no path; empty optional texts become null; the form is reset to its defaults |
| UploadForm.FailedInsertKeepsFile | src/components/UploadForm.tsx:120-165 | when the upload succeeds but the insert fails, no row is added and the uploaded file stays in storage |
| UploadForm.StoredChoices | src/components/UploadForm.tsx:144-146 | OTHER stores the free text upper-cased (never empty for a valid form); any other choice is stored as chosen, an empty university as null |
| UploadForm.FilePathShape | src/components/UploadForm.tsx:122-123 | the storage path's first segment is the user's id and its extension is the file name's text after the last dot |
| UploadForm.Form.constructor | src/components/UploadForm.tsx:84-98 | the form starts with the default values and nothing submitting |
| UploadForm.Form.OnSubmit | src/components/UploadForm.tsx:103-169 | the new storage, table and values follow the submission specification; `isSubmitting` is false after every attempt made with a user |
| EditUpload.ValueOf | src/components/EditUploadForm.tsx:76-87 | the null fallback gives the text exactly when it is truthy, and null otherwise |
| EditUpload.BuildPayload | src/components/EditUploadForm.tsx:73-88 | the payload built key by key equals the payload specification for the upload's type |
| EditUpload.PayloadKeysByType | src/components/EditUploadForm.tsx:74-88 | title and description are always sent; the company, role and difficulty keys exactly for a placement; creator and platform exactly for a lecture; only title and description for a note |
| EditUpload.DefaultsRoundTrip | src/components/EditUploadForm.tsx:61-88 | saving the untouched form writes back each stored value that was non-empty, writes null for a missing or empty one, and keeps the title |
| EditUpload.UpdateOnlyThatRow | src/components/EditUploadForm.tsx:90-93 | the update keeps the set of rows and every other row; the edited row takes the payload's keys and keeps its other columns |
| EditUpload.Dialog.constructor | src/components/EditUploadForm.tsx:55-70 | the dialog opens on the given upload and table |
| EditUpload.Dialog.Submit | src/components/EditUploadForm.tsx:72-110 | a successful save updates the upload's row with the payload and closes the dialog; an error changes nothing and leaves it open |
| GroupForm.Payload | src/components/CreateGroupForm.tsx:46-54 | the row keeps the name; each optional text is stored, as typed, exactly when it is non-empty, and null otherwise; the group is official exactly when the flag was set true |
| GroupForm.ValidGroup | src/components/CreateGroupForm.tsx:15-22 | a valid name has at least three UTF-16 units; each stored link was accepted by the URL parser |
| GroupForm.DefaultsRejected | src/components/CreateGroupForm.tsx:31-41 | the default values fail validation (empty name) and describe an unofficial group |
| GroupForm.Form.constructor | src/components/CreateGroupForm.tsx:29-41 | the form starts with the defaults and not loading |
| GroupForm.Form.OnSubmit | src/components/CreateGroupForm.tsx:43-76 | success appends the payload to `groups` and resets the form; an error changes neither; loading is false afterwards |
| Groups.PlatformNamesLinks | src/pages/Groups.tsx:78-86 | the platform is "Both", "Telegram", "WhatsApp" or "Community" exactly according to which of the two links are truthy |
| Groups.ColorOfPlatforms | src/pages/Groups.tsx:101-114 | the colour ignores case; no group's platform gets the purple reserved for Discord, and only a community group gets grey |
| Groups.JoinedGroupIds | src/pages/Groups.tsx:29-38 | without a user the joined set is empty; with one, a group is in it exactly when the table holds that user's membership of it |
| Groups.ActionsOfLinklessGroup | src/pages/Groups.tsx:159-222 | a linkless group not yet joined offers one join that opens nothing; a joined group offers no join, an unjoined one only joins |
| Groups.JoinNeedsUser | src/pages/Groups.tsx:42-75 | joining without a user fails with the sign-in message and changes nothing |
| Groups.ExistingMemberNotReinserted | src/pages/Groups.tsx:44-67 | a group already in the cached set is not inserted again and not announced, but its link is still opened |
| Groups.NewMemberJoin | src/pages/Groups.tsx:46-75 | for a new group, an insert adds one membership and announces the join; a unique-key violation counts as success with no new row; any other error changes nothing and shows its message, or "There was an issue joining the group." when the message is empty; after a join the refreshed set holds the group exactly when the table has the membership |
| Groups.Page.constructor | src/pages/Groups.tsx:29-38 | the page starts with the joined set computed from the table |
| Groups.Page.Join | src/pages/Groups.tsx:40-76 | the new table, joined set and outcome follow the join specification |
| UpiUnlock.EligibilityRule | src/components/UpiUnlock.tsx:31-34 | an administrator is always eligible; anyone else exactly with 10 uploads and 100 votes; the link input shows exactly when eligible; the bars are hidden exactly for an administrator short of the thresholds (also lines 106, 143) |
| UpiUnlock.ProgressBounds | src/components/UpiUnlock.tsx:74-75 | a bar never passes 100, is not negative for a non-negative count, and is full exactly when the requirement is met |
| UpiUnlock.ShortfallPositive | src/components/UpiUnlock.tsx:117-135 | below the requirement the caption names the positive shortfall and the noun |
| UpiUnlock.MetTextIffMet | src/components/UpiUnlock.tsx:117-135 | the caption is the met line, "âœ… Requirement met!" as the page's text reads, exactly when the count reaches the requirement |
| UpiUnlock.SaveUpi | src/components/UpiUnlock.tsx:62-72 | a blank link is refused with no update; otherwise the update carries the link as typed and the visibility flag |
| UpiUnlock.SaveStoredLink | src/components/UpiUnlock.tsx:27-72 | saving the untouched inputs sends the stored link and the stored flag (false when unset) back unchanged |
| UserStats.RealLevelIsLevel | src/components/UserStats.tsx:37 | the level computed over exact reals equals one plus the floor of (10 times uploads plus votes) over 100 |
| UserStats.LevelAtLeastOne | src/components/UserStats.tsx:37 | non-negative totals give a level of at least one, and a new user is level one |
| UserStats.LevelMonotone | src/components/UserStats.tsx:37 | more uploads or votes never lower the level |
| UserStats.LevelSteps | src/components/UserStats.tsx:37 | ten more uploads, or a hundred more votes, raise the level by exactly one |
| UserStats.CardValues | src/components/UserStats.tsx:13-40 | the four cards show the three totals as given and then a level of at least one |
| RelativeDate.DiffDaysIsCeiling | src/pages/Lectures.tsx:120-121 | the whole-day distance computed with integer division equals the ceiling of the exact quotient, as `Math.ceil` takes it |
| RelativeDate.DiffDaysProperties | src/pages/Notes.tsx:118-119 | the distance is symmetric, zero exactly for equal timestamps, and the least whole number of days covering the gap |
| RelativeDate.FormatDaysRanges | src/pages/Notes.tsx:121-124 | one day reads "1 day ago"; other counts below seven read as that count of days; seven to thirteen read "1 week ago"; from fourteen on the whole weeks (at least two) are shown, and each number reads back as the value shown |
| ResourcePages.InitialFilters | src/pages/Notes.tsx:39-43 | course and university come from the query string when truthy and are "all" otherwise; the search comes from `q` or is empty; subject is "all" and the order is by votes |
| ResourcePages.PageRowRule | src/pages/Notes.tsx:67-86 | a row is listed exactly when it has the page's type, is visible to the viewer (anyone for an administrator; shown rows or the user's own for a user; shown rows for a visitor), matches every filter not set to "all", and matches the search when there is one |
| ResourcePages.PageResultsAreSelection | src/pages/Notes.tsx:67-89 | the page lists exactly the rows the criteria admit, newest first for "latest" and by votes otherwise |
| ResourcePages.ClearAllRemovesFilters | src/pages/Lectures.tsx:218-226 | after "Clear All" only the type and the viewer's visibility constrain the query, ordered by votes |
| ResourcePages.CourseOptions | src/pages/Lectures.tsx:98-114 | the course options are exactly the courses of shown rows of the page's type, each listed once |
| Listing.Where | src/pages/Notes.tsx:71-86 | the filtered rows are exactly those satisfying every criterion, each kept as often as the table holds it |
| Listing.SortDesc | src/pages/Notes.tsx:88-89 | the ordered rows are a permutation of the input in descending key order, NULL first |
| Listing.Select | src/pages/Notes.tsx:71-89 | a filtered, ordered query returns exactly the matching rows in descending key order |
| Listing.LimitKeepsTop | src/components/TrendingSection.tsx:79-80 | a limited query returns at most the limit, only matching rows, and every matching row whose key is above a returned one |
| Listing.ILikeAnyTail | src/pages/Notes.tsx:85 | the `%` pattern matches any text |
| Listing.ILikeLiteralPrefix | src/pages/Notes.tsx:85 | a wildcard-free prefix followed by `%` matches exactly the texts that start with it, ignoring case |
| Listing.ILikeLeadingPercent | src/pages/Notes.tsx:85 | a leading `%` matches exactly when the rest of the pattern matches some suffix |
| Listing.SearchIsSubstring | src/pages/Notes.tsx:85 | for a term without wildcards, `%term%` matches exactly the texts containing the term, ignoring case |
| Listing.Dedupe | src/pages/Lectures.tsx:109-111 | the de-duplicated options hold exactly the input's values, each once, in order of first appearance |
| Ordering.InsertBy | src/pages/Notes.tsx:89 | inserting into a descending sequence keeps it descending and adds exactly the one element |
| Ordering.SortDescBy | src/pages/Notes.tsx:89 | the sort is descending by key, NULL first, and a permutation of its input |
| Ordering.Limit | src/components/TrendingSection.tsx:80 | `.limit(n)` returns the first n rows, or all of them when fewer |
| Ordering.LimitSorted | src/components/TrendingSection.tsx:79-80 | limiting a descending sequence keeps it descending |
| VideoThumbnail.RunEnd | src/pages/Lectures.tsx:130 | the greedy group ends at the first character outside the class (or at the end), and every character it takes is in the class |
| VideoThumbnail.FirstMatch | src/pages/Lectures.tsx:130 | the search returns the leftmost position where the pattern matches, and none when it matches nowhere |
| VideoThumbnail.VideoIdSpec | src/pages/Lectures.tsx:128-136 | there is no id exactly when the pattern matches nowhere; a found id is a non-empty run of id characters that follows one of the two prefixes and ends at a character outside the class or at the end |
| VideoThumbnail.PlaceholderWithoutY | src/pages/Lectures.tsx:131-135 | a link without the letter `y` cannot match and shows the placeholder image |
| VideoThumbnail.ShortLink | src/pages/Lectures.tsx:130-133 | a `https://youtu.be/<id>` link yields that id and the video's `maxresdefault.jpg` thumbnail |
| VideoThumbnail.WatchLink | src/pages/Lectures.tsx:130-133 | a `https://www.youtube.com/watch?v=<id>` link, with or without further parameters, yields that id |
| Trending.TrendingRowRule | src/components/TrendingSection.tsx:66-76 | a row matches exactly when it is shown and equals every filter not set to "all" |
| Trending.TrendingTopSix | src/components/TrendingSection.tsx:45-85 | the section lists six uploads, or all matching ones when fewer, by votes descending, each shown and matching; no matching upload with more votes than a listed one is left out |
| Trending.TypeLabels | src/components/TrendingSection.tsx:159-166 | the three types get three different labels; any other text is shown as it is |
| Trending.TypeOptions | src/components/TrendingSection.tsx:87-102 | the type options are exactly the types of shown uploads, each once |
| Trending.ViewActionOf | src/components/TrendingSection.tsx:305-328 | a note opens the file viewer on its stored path; any other upload opens its link, or "" when it has none |
| AdminContent.AdminListing | src/components/AdminContentManagement.tsx:44-66 | the flagged view lists exactly the rows with positive flags, most flagged first; the full view lists every row, newest first; both apply the type filter unless it is "all" |
| AdminContent.ViewsAreSeparate | src/components/AdminContentManagement.tsx:71-126 | the two views cache under different keys, and only the full view offers the type selector |
| AdminContent.DeleteRows | src/components/AdminContentManagement.tsx:81-85 | deleting removes every row with that id and keeps every other row as often as before |
| AdminContent.SetHiddenEffect | src/components/AdminContentManagement.tsx:97-101 | only the row with that id changes, and only its hidden flag, which makes it shown exactly when set false |
| AdminContent.ToggleTwice | src/components/AdminContentManagement.tsx:99 | a visible row is hidden and a hidden one shown; a NULL flag is hidden first; two toggles restore a set flag but turn NULL into false (also line 174) |
| AdminContent.ContentTable.constructor | src/components/AdminContentManagement.tsx:68-79 | a view starts on its rows with the type filter "all" |
| AdminContent.ContentTable.ChangeType | src/components/AdminContentManagement.tsx:112-138 | in the full view the filter takes the chosen value and the rows stay |
| AdminContent.ContentTable.Delete | src/components/AdminContentManagement.tsx:81-95 | a successful delete removes the rows with that id; a failed one changes nothing |
| AdminContent.ContentTable.ToggleVisibility | src/components/AdminContentManagement.tsx:97-110 | a successful toggle sets the row's flag to the negation of the displayed one; a failed one changes nothing (also line 174) |
| FileViewer.ExtensionOfName | src/components/FileViewer.tsx:98-105 | a name with a dot has as extension the lower-cased text after its last dot, and can be previewed exactly when that is pdf, txt or md |
| FileViewer.ExtensionWithoutDot | src/components/FileViewer.tsx:98-100 | a path without a dot is its own extension, lower-cased |
| FileViewer.StoredFilePreview | src/components/FileViewer.tsx:98-105 | a note stored by the upload form keeps the extension of the original file name, so its preview is decided by that file's extension |
| FileViewer.DownloadName | src/components/FileViewer.tsx:78 | the download is named after the file, or "download" when the name is empty; it is never empty |
| FileViewer.ExternalLinkNeverTouchesStorage | src/components/FileViewer.tsx:29-63 | with an external link, viewing and downloading only open the link in a new tab |
| FileViewer.NothingToShow | src/components/FileViewer.tsx:34-65 | without a link and without a path, viewing and downloading do nothing |
| FileViewer.SignedRequestsLastAnHour | src/components/FileViewer.tsx:34-57 | every signed URL is requested for 3600 seconds and for the non-empty stored path; the dialog opens only on a signed URL, which it shows; loading is over once the request is answered |
| FileViewer.PaneOf | src/components/FileViewer.tsx:149-180 | the frame shows exactly when loaded with a URL for a previewable file, and shows that URL; a URL for any other file gets the no-preview notice |
| FileViewer.Viewer.constructor | src/components/FileViewer.tsx:16-26 | the viewer starts closed, with no URL, not loading and with nothing requested |
| FileViewer.Viewer.HandleViewFile | src/components/FileViewer.tsx:28-57 | the new state follows the view specification |
| FileViewer.Viewer.HandleDownload | src/components/FileViewer.tsx:59-96 | the new state follows the download specification |
| BadgeDisplay.KindOf | src/components/BadgeDisplay.tsx:21-84 | a type found in the table is the enum value of that name |
| BadgeDisplay.TableCoversEnum | src/components/BadgeDisplay.tsx:21-84 | every enum value has its own table entry, and the card uses it |
| BadgeDisplay.UnknownTypes | src/components/BadgeDisplay.tsx:84-89 | a type outside the enum gets the generic colour, description and award icon under its prettified name |
| BadgeDisplay.FallbackNameIdempotent | src/components/BadgeDisplay.tsx:85 | the prettified name holds no underscore, and prettifying it again changes nothing |
| BadgeDisplay.FallbackOneWord | src/components/BadgeDisplay.tsx:85 | a lower-case word is shown with its first letter upper-cased |
| BadgeDisplay.FallbackTwoWords | src/components/BadgeDisplay.tsx:85 | two lower-case words joined by an underscore are shown as two capitalised words separated by a space |
| BadgeDisplay.FallbackAgreesWithTable | src/components/BadgeDisplay.tsx:21-85 | for every enum value the table's name is the one the fallback would produce |
| BadgeDisplay.StoredValuesWin | src/components/BadgeDisplay.tsx:120-125 | a stored icon or description takes precedence; without one the card shows the table's or the generic one |
| BadgeDisplay.BodyOf | src/components/BadgeDisplay.tsx:101-130 | no badges show the empty state; otherwise one card per badge, in order |
| App.Location | src/App.tsx:30-31 | a URL splits into a path without `?` and the rest, which starts at the first `?`, and the two parts make up the URL |
| App.OutsideRoutesUngated | src/App.tsx:64-66 | the landing, forgot-password and update-password pages show whatever the session |
| App.AuthGate | src/App.tsx:28-80 | inside the layout the loading screen comes first; without a user the sign-in screen shows exactly when the location is not a public profile view; otherwise the route's page shows |
| App.PublicProfileForVisitors | src/App.tsx:32-75 | a public profile view shows the profile page to a visitor |
| App.VisitorsSeeOnlyPublicPages | src/App.tsx:32-80 | without a session a page shows exactly on the outside routes or a public profile view, and inside the layout that page is the profile page |
| App.UnmatchedIsNotFound | src/App.tsx:79 | an unlisted path inside the layout shows NotFound to a user and sign-in to a visitor |
| App.UserIdLinkIsGated | src/App.tsx:32-42 | a `?userId=` link is not a public profile view, so a visitor meets the sign-in screen |
| App.UsernameLinkIsPublic | src/App.tsx:32 | a `?username=` link is a public profile view whatever the name |
| ClickableUsername.HoverLookupMatchesProfile | src/components/ClickableUsername.tsx:20-56 | the hover card looks a user up exactly as a public profile does, and looks nobody up exactly when the link is `#` |
| ClickableUsername.LinkShape | src/components/ClickableUsername.tsx:59-67 | a valid username links to `/profile?username=`, otherwise a truthy id links to `/profile?userId=`, otherwise the link is `#` |
| ClickableUsername.ProfileLocation | src/components/ClickableUsername.tsx:61-64 | a profile link splits into the path `/profile` and its query |
| ClickableUsername.UsernameLinkDestination | src/components/ClickableUsername.tsx:60-61 | a username link decodes back to the username and opens the profile page for anyone |
| ClickableUsername.UserIdLinkDestination | src/components/ClickableUsername.tsx:62-64 | an id link decodes back to the id; it opens the profile page for a user and sign-in for a visitor |
| ClickableUsername.ViewRules | src/components/ClickableUsername.tsx:76-132 | plain text (the display name or "Anonymous") shows exactly when there is no link; otherwise an anchor to the link, labelled by the display name, the username or "View Profile", with a level badge exactly when the fetched level is positive |
| ProfileData.PublicLookup | src/hooks/useProfileData.ts:11-46 | a public view looks up by username exactly when the username is valid, otherwise by id exactly when the id is truthy, never as the viewer's own profile |
| ProfileData.LookupSelection | src/hooks/useProfileData.ts:4-68 | a public view uses the public lookup; a private view looks up the signed-in user's own row exactly when there is one; a disabled query looks nothing up; the username "null" without an id enables the query yet looks nothing up |
| ProfileData.ProfileKeysDistinct | src/hooks/useProfileData.ts:8 | public and private views never share a cache key, and two public views share one exactly when their username and id agree |
| ProfileData.Matching | src/hooks/useProfileData.ts:18-56 | the equality filter keeps exactly the matching rows |
| ProfileData.FetchOutcome | src/hooks/useProfileData.ts:15-65 | a found row matches the lookup; "not found" means nothing matched or nothing was asked; the own-profile query never reports "not found" |
| ProfileData.UniqueMatchFound | src/hooks/useProfileData.ts:19-57 | when exactly one row matches, it is the one returned |
| ProfileData.NothingMatching | src/hooks/useProfileData.ts:19-34 | when no row matches, the filter returns nothing |
| ProfileData.BadgesOf | src/hooks/useProfileData.ts:82 | the badge filter keeps exactly the user's badges, each as often as stored |
| ProfileData.ProfileBadgesSpec | src/hooks/useProfileData.ts:73-95 | without a user id no badges are listed; otherwise exactly the user's badges, most recently awarded first |
| ProfileData.UploadsOf | src/hooks/useProfileData.ts:107 | the uploads filter keeps exactly the user's uploads, each as often as stored |
| ProfileData.ProfileUploadsSpec | src/hooks/useProfileData.ts:97-126 | the profile lists exactly the user's uploads, without unshown ones when someone else views it publicly, newest first |
| ProfileData.HiddenUploadsOnlyForOwner | src/hooks/useProfileData.ts:110-112 | an unshown upload is listed on a private view or the owner's own view, and never on someone else's public view |
| ProfileHeader.AvatarLetterSpec | src/components/profile/ProfileHeader.tsx:59 | the avatar is one character: "U" for an empty name, else the name's first character upper-cased, never a lower-case letter, and unchanged when it was not one |
| ProfileHeader.PrivacyRules | src/components/profile/ProfileHeader.tsx:72-99 | the email, the edit button and the edit dialog appear exactly on the viewer's own profile; the donate button exactly on someone else's public view of a profile whose UPI link is non-empty and public (also lines 45, 131-139) |
| ProfileHeader.OwnProfileModeHasNoDonate | src/components/profile/ProfileHeader.tsx:45-90 | outside a public view (no username and no id in the location) no donate button shows |
| ProfileHeader.DonateTarget | src/components/profile/ProfileHeader.tsx:85-90 | the donate link pays the payee id taken from the stored UPI link, under the profile's name |
| ProfileHeader.BadgesAndUsername | src/components/profile/ProfileHeader.tsx:68-121 | a badge shows for each non-empty course and university, course first, and the badge row exactly when one does; the `@username` line exactly when the username is truthy |
| ProfileDonate.UpiPayUrlReadsBack | src/components/profile/ProfileDonateButton.tsx:22-31 | the generated link starts with `upi://`, splits at its one `?`, and its query decodes back to exactly `pa`, `pn` and `tn` |
| ProfileDonate.PayeeOfPayUrl | src/components/profile/ProfileDonateButton.tsx:20-31 | reading the payee back from a generated link gives the payee it was made with |
| ProfileDonate.DonateUrlText | src/components/profile/ProfileDonateButton.tsx:27-31 | the link is `upi://pay?pa=` followed by the encoded payee id, the encoded name and the encoded note |
| ProfileDonate.DonateUrlParams | src/components/profile/ProfileDonateButton.tsx:20-31 | the link's query is exactly `pa` = the payee id, `pn` = the user's name and `tn` = "Support <name> on Acadlyst" |
| ProfileDonate.PlainIdVerbatim | src/components/profile/ProfileDonateButton.tsx:20-21 | a stored value not starting with `upi://` is used as the payee id as it is |
| ProfileDonate.MissingPaIsWholeLink | src/components/profile/ProfileDonateButton.tsx:20-23 | a `upi://` link whose `pa` is missing or empty is itself the payee id, which is then non-empty |
| ProfileDonate.PayeeRoundTrip | src/components/profile/ProfileDonateButton.tsx:20-31 | feeding a generated link back in keeps its payee and generates the same link again |
| ProfileDonate.EmptyPayeeFallsBack | src/components/profile/ProfileDonateButton.tsx:23 | the payee id is empty only for an empty stored link, and the link generated from it names itself as the next payee |
| SupportUs.SupportLink | src/pages/SupportUs.tsx:19-27 | the donation link is the UPI link for the platform's payee id, name and note, with no amount, and reads back to exactly those three parameters |
| SupportUs.TwitterShare | src/pages/SupportUs.tsx:46-61 | Twitter opens its intent page with the message as `text` |
| SupportUs.LinkedInShareParams | src/pages/SupportUs.tsx:48-61 | LinkedIn opens its share page with the site as `url` and the message as `summary` |
| SupportUs.InstagramCopies | src/pages/SupportUs.tsx:50-57 | Instagram alone copies the message instead of opening a window |
| Hero.SearchParamsRule | src/components/Hero.tsx:30-45 | `q` is set exactly when the search text is non-empty, and course and university exactly when their final value is non-blank and not "all", each to the value the panel shows |
| Hero.SearchLocation | src/components/Hero.tsx:47 | the target splits into the listing page's path and the serialized parameters |
| Hero.SearchSeedsListingFilters | src/components/Hero.tsx:30-47 | searching towards the notes or lectures page opens it with its search, course and university controls seeded from the panel ("all" for what was not sent) |
| Hero.OtherTextSentUnlessBlank | src/components/Hero.tsx:38 | a free text typed for OTHER is upper-cased, so it is sent exactly when it is not blank (also lines 43, 139, 149) |
| Hero.BuildSearchParams | src/components/Hero.tsx:31-45 | the `set` calls on an empty list build exactly the parameters of the rule above, in the order q, course, university |
| Hero.SetIfSendable | src/components/Hero.tsx:37-44 | one conditional `set` appends the pair exactly when the final value is sendable |
| Hero.SearchPanel.constructor | src/components/Hero.tsx:10-15 | the panel starts on notes, with "all" for course and university and every text empty |
| Hero.SearchPanel.SetSearchQuery | src/components/Hero.tsx:70 | typing changes only the search text |
| Hero.SearchPanel.SetResourceType | src/components/Hero.tsx:76-83 | choosing a listing page changes only the resource type |
| Hero.SearchPanel.SetCourse | src/components/Hero.tsx:18-22 | choosing a course clears the free text unless OTHER was chosen, and keeps the panel valid (also line 87) |
| Hero.SearchPanel.SetUniversity | src/components/Hero.tsx:24-28 | choosing a university clears the free text unless OTHER was chosen, and keeps the panel valid (also line 104) |
| Hero.SearchPanel.TypeOtherCourse | src/components/Hero.tsx:134-139 | the course free text is stored upper-cased |
| Hero.SearchPanel.TypeOtherUniversity | src/components/Hero.tsx:144-149 | the university free text is stored upper-cased |
| Hero.SearchPanel.HandleSearch | src/components/Hero.tsx:30-48 | the target built with successive `set` calls is the search URL of the panel's values |
| Notifications.Unread | src/hooks/useNotifications.ts:47 | the unread notifications are exactly the unread ones of the list, each as often as listed, and never more than the list |
| Notifications.UnreadCountZero | src/hooks/useNotifications.ts:47 | the count is zero exactly when nothing is cached or every cached notification is read, and never exceeds the number cached |
| Notifications.UnreadCountAfterPrepend | src/hooks/useNotifications.ts:47-80 | a prepended notification adds one to the count when it is unread |
| Notifications.OwnedBy | src/hooks/useNotifications.ts:15 | the filter keeps exactly the user's notifications, each as often as stored |
| Notifications.FetchOwnNewestFirst | src/hooks/useNotifications.ts:11-21 | the query returns at most twenty of the user's own notifications, newest first |
| Notifications.FetchKeepsNewest | src/hooks/useNotifications.ts:11-21 | any of the user's notifications left out is no newer than the twentieth returned, and fewer than twenty come back only when they are all of the user's |
| Notifications.MarkReadSpec | src/hooks/useNotifications.ts:23-31 | marking sets the read flag of exactly the listed notifications, keeps every other column and row, and marking again changes nothing |
| Notifications.UnreadAfterMark | src/hooks/useNotifications.ts:23-47 | after marking, no listed notification is unread, and the unread ones left were unread before |
| Notifications.RealtimeOutgrowsPage | src/hooks/useNotifications.ts:78-80 | after a full page one realtime insert leaves twenty-one notifications cached, more than the query returns for the same table (also line 17) |
| Notifications.Inbox.constructor | src/hooks/useNotifications.ts:33-45 | the inbox starts on its table with nothing cached and no update sent |
| Notifications.Inbox.Load | src/hooks/useNotifications.ts:41-45 | loading caches the query's result and changes nothing else |
| Notifications.Inbox.MarkAsRead | src/hooks/useNotifications.ts:23-62 | an empty list sends nothing yet refetches; otherwise one update is sent, and a success marks the rows and refetches while an error changes nothing |
| Notifications.Inbox.Inserted | src/hooks/useNotifications.ts:64-92 | an inserted row is added to the table; the user's own row is put in front of the cached list (or of an empty one); another user's row leaves the cache alone |
| NotificationsPopover.BadgeLabelSpec | src/components/NotificationsPopover.tsx:36-40 | the badge shows exactly when something is unread: the count as one digit up to nine, "9+" above |
| NotificationsPopover.BadgeLabelDistinct | src/components/NotificationsPopover.tsx:38 | two different counts below ten never show the same badge |
| NotificationsPopover.UnreadIdsSpec | src/components/NotificationsPopover.tsx:21 | one id per unread cached notification, and an id is gathered exactly when an unread cached notification has it |
| NotificationsPopover.MarkOnOpenSpec | src/components/NotificationsPopover.tsx:19-28 | marking is scheduled exactly when the popover is open with something unread, and marks the unread ids |
| NotificationsPopover.OpeningClearsCount | src/components/NotificationsPopover.tsx:19-28 | marking the scheduled ids leaves nothing unread in the list, so no further marking is scheduled |
| NotificationsPopover.VisitorBellLeadsToSignIn | src/components/NotificationsPopover.tsx:51-62 | a visitor's bell is a link to the profile route, where the gate shows the sign-in screen |
| NotificationsList.IconRules | src/components/NotificationsList.tsx:9-19 | the three known types get three different icons, none of them the bell, which is for any other type |
| NotificationsList.ItemRules | src/components/NotificationsList.tsx:21-52 | each type gets its own sentence exactly when its data object holds the key it reads, with the fallback for an empty value; votes and flags link to the notes page and the rest to the profile; unread items are highlighted |
| NotificationsList.ItemSentence | src/components/NotificationsList.tsx:22-38 | the generic sentence shows exactly for a generic item; otherwise the sentence carries the title or badge from the data, or "a post" or "New Badge" when that value is missing or empty |
| NotificationsList.ItemLinksAreLayoutPages | src/components/NotificationsList.tsx:26-37 | every item links to the notes or profile page, which a signed-in user sees |
| NotificationsList.Items | src/components/NotificationsList.tsx:73-75 | one item per notification |
| NotificationsList.HighlightedIsUnreadCount | src/components/NotificationsList.tsx:73-75 | the list highlights exactly as many items as the bell counts unread |
| NotificationsList.ListViewSpec | src/components/NotificationsList.tsx:54-78 | items show exactly when loaded without error and non-empty, one per cached notification in order, as many highlighted as counted unread |
| NotificationsList.ItemsAt | src/components/NotificationsList.tsx:73-75 | the item at each position is the one made from the notification at that position |
| PasswordUpdate.CheckPasswordSpec | src/pages/UpdatePassword.tsx:43-60 | a mismatch is reported whatever the length; a short password only once the entries agree; a password passes exactly when both agree and it has at least six UTF-16 units |
| PasswordUpdate.FormOnlyWithSession | src/pages/UpdatePassword.tsx:82-110 | the form shows exactly when verification has ended with a session, the invalid-link notice exactly when it ended without one |
| PasswordUpdate.SuccessLandsOnNotes | src/pages/UpdatePassword.tsx:70 | after a successful update the user lands on the notes page inside the layout; the page itself is an outside route |
| PasswordUpdate.RecoveryPage.constructor | src/pages/UpdatePassword.tsx:13-19 | the page starts verifying, with empty entries, no session and nothing sent |
| PasswordUpdate.RecoveryPage.SetPassword | src/pages/UpdatePassword.tsx:128-129 | typing changes only the password |
| PasswordUpdate.RecoveryPage.SetConfirmation | src/pages/UpdatePassword.tsx:140-141 | typing changes only the confirmation |
| PasswordUpdate.RecoveryPage.OnAuthStateChange | src/pages/UpdatePassword.tsx:22-27 | the session follows the event, and a recovery event ends verification |
| PasswordUpdate.RecoveryPage.OnGetSession | src/pages/UpdatePassword.tsx:29-36 | an existing session ends verification at once; without one the fallback timer starts |
| PasswordUpdate.RecoveryPage.OnTimer | src/pages/UpdatePassword.tsx:34 | the timer ends verification and changes nothing else |
| PasswordUpdate.RecoveryPage.HandlePasswordUpdate | src/pages/UpdatePassword.tsx:43-80 | a rejected submission sends nothing and changes nothing; otherwise the password is sent once, a success navigates to the notes page, and loading is false afterwards |

## Findings

| source | as written | input that shows it | evidently intended | confidence | as-written member | corrected member |
|---|---|---|---|---|---|---|
| supabase/functions/ai-chat/index.ts:24 | the cache key is put unescaped into the REST URL path, in `/get/${key}` and in `/setex/${key}/${ttl}` (line 39) | the query "What is Dafny?": its key "faq:what is dafny?" loses `?` and the TTL to the URL's query string, so SETEX is refused and every repeat calls the completion service again; GET reads the entry of "What is Dafny" | the key percent-encoded (`encodeURIComponent`), so that both commands receive it whole and a repeated question is served from the cache | high (not executed) | AiChat.QuestionMarkKeyRefused | AiChat.EncodedKeyDelivered |

The deployed relay (`AiChat.ChatRelay`) keeps the key as written. Every cache lemma takes
the way the key is written as a parameter (`KeyPath`), so each holds for the code as
written and for the corrected key. `AiChat.RefusedKeyAskedEveryTime` states the effect of
the defect on repeated questions. `AiChat.EncodedRepeatServedFromCache` states that the
correction removes it.

## Left out

- HTTP, CORS headers, JSON body parsing and the Supabase, Upstash Redis and Groq clients. Each reply is a parameter, and each thrown exception is a parameter naming the step that threw.
- Concurrency: requests are handled one at a time, so the rate limiter's get-then-incr race between concurrent requests is not modelled.
- Expiry of cache entries (the one-hour feedback window, the one-day answer cache) is performed by the cache service. The model records the TTL that was set and never evicts.
- Clocks: `Date.now()` and `new Date()` are integer inputs. Timestamps (`created_at`, `awarded_at`) are compared as integers.
- Locale date formatting (`toLocaleDateString`, `formatDistanceToNow`) is presentation only.
- Floating point: `Math.ceil`, `Math.floor` and the progress percentages are computed over exact integers and reals, not IEEE doubles.
- Percent-decoding in `URLSearchParams` parsing is simplified: malformed percent escapes and invalid UTF-8 are not modelled.
- PostgREST syntax: an `or` filter whose search term contains ',' or parentheses, and backslash escapes inside `ilike` patterns, are not modelled.
- Case mapping covers ASCII letters only. Full Unicode `toUpperCase` and `toLowerCase` mapping is not modelled, and neither is `charAt` on a surrogate pair for the avatar letter.
- Notification `data` values other than strings and null (numbers, nested objects) are not modelled.
- zod's `.url()` check is a predicate parameter of the group form, not a URL parser.
- React machinery: rendering, toasts, query-cache invalidation timing, and the timers and delays (the two-second mark-read delay, the clipboard toast, the two-second verification fallback) become explicit events. Realtime subscribe and unsubscribe are not modelled.
- BadgeDisplay.KindOf: a badge type that names an `Object.prototype` key (such as "constructor") is treated as unknown. The source's object lookup would find the inherited member.
- App: react-router's case-insensitive path matching and trailing-slash handling are not modelled. Paths match exactly.
- ProfileData.ProfileUploadsSpec: the uploads query key omits `isMyProfile`. The model computes the result from the current inputs and does not model a stale cache entry.
- ProfileData.FetchOutcome: `.single()` with more than one matching row is modelled as a failed fetch, without the service's error text.
- The auth session is reduced to whether there is one and, where used, the user id.
- Notifications: a `notification_type` outside the enum is kept as `OtherType` for the generic rendering path, although the database enum excludes it.
- Server-side database functions (vote and flag totals, badge awarding, `get_top_creators`, `get_course_stats`) are declared only as signatures in the generated types and cannot be checked.
- The placement page and the presentation-only files are not part of this model. These are the navigation bars, footer, logo, dashboards, banners, admin analytics, profile tabs and states, leaderboard, the auth wrapper and `useAdmin`.
- AiChat.ChatRelay.RedisGet: a GET whose path still holds a `/` or a backslash is modelled as refused, which reads as a miss. URL dot-segment normalisation (`a/../b`) could in fact make the service read another key.
- AiChat: the cache service is taken to split the request path at `/` and to percent-decode each segment as UTF-8, keeping malformed escapes as they are. The URL parser's stripping of leading and trailing control characters is not modelled.
- ChatFeedback.RateLimit: `checkRateLimit` also puts its key unescaped into the URL path. The model reads and writes the exact key `rate_limit:<type>:<userId>`. That matches the service only for a user id made of plain characters, as a UUID is; a user id holding `?`, `#`, `/` or `%` is not modelled.
