# RecordNexus client core in Dafny

This is a model of the comment and authorisation core of the RecordNexus client, a record-management web app. The model covers:

- **The comment service.** It adds comments to records, toggles up and down votes, and credits the vote points to the comment's author in a points ledger. It also follows and unfollows records.
- **The comment thread view.** It groups comments into roots and one level of replies, holds the composer's state, and shows the relative-time label.
- **Role handling.** It turns a profile row into a user with a normalised role.
- **The two route guards.** `useRequireAuth` and `ProtectedRoute` decide between a spinner, a redirect and the page.
- **The sign-up form's validation.**

The three backend tables (`comments`, `profiles` and `point_transactions`) are the fields of the class `CommentService.Backend`. Its methods follow the service's read-modify-write steps one by one. Each method is tied by its postcondition to a pure function:

- `CastVote` for the vote lists;
- `VotedRow` for the stored comment;
- `PointsUpdate` for the ledger;
- `FollowList` for the following list.

The properties are proved about those functions.

The session user, the outcome of every backend write and the clock are parameters:

- `session: Option<string>`;
- `writeOk`, `insertOk` and similar booleans for the inserts and updates;
- a millisecond difference for the clock.

The `.select().single()` reads (src/services/commentService.ts:66-72, 168-174, 214-220) have no outcome parameter. They fail only when the key is absent from the table, with `RowNotFound`.

A thrown error is a `Failure`/`Fail` value of the `Types.Error` type.

Modules:

- `Types`: entities, table rows and `||` defaults (src/types/index.ts and the database row types).
- `Text`: JavaScript `trim`, ASCII `toLowerCase` and UTF-16 `length`.
- `Seqs`: `filter` and removal of one value.
- `Votes`: the vote transition.
- `CommentService`: the service and the backend class.
- `CommentSection`: the thread view and the composer class.
- `AuthUtils`: role normalisation and profile mapping.
- `RequireAuth` and `ProtectedRoute`: the two guards.
- `Login`: the sign-up form class.

Three behaviours of the code shape the model:

- **Order of the ledger writes.** `updateUserPoints` writes the balance and then inserts the log row (src/services/commentService.ts:180-202). A failed insert is only logged on the console, so the balance can run ahead of the log. `PointsUpdate` models this with its `logOk` parameter, and `PointsUpdateDrift` measures the gap it leaves.
- **A vote on a missing comment.** It fails like any `.single()` lookup without a row, with `RowNotFound`.
- **`addComment` can fail after the insert.** It stores the row before crediting the author (src/services/commentService.ts:30-39). So a failed credit leaves a stored comment and an error.

## Model

| member | source | states |
|---|---|---|
| Votes.CastVote | src/services/commentService.ts:74-116 | Every other user's occurrences in both lists are unchanged. The voter ends in the list of the direction cast iff they were not in it before. The point change is one of -2, -1, 1, 2. |
| Votes.CastFollowsTable | src/services/commentService.ts:79-116 | For a voter in at most one list, the new standing and the point change follow the six-row toggle/swap table, and the voter stays in at most one list. |
| Votes.ScoreMovesByPointChange | src/services/commentService.ts:84-119 | The recomputed score `|upvotes| - |downvotes|` moves by exactly the point change credited to the author. |
| Votes.CastPreservesWellFormed | src/services/commentService.ts:86-116 | Lists without duplicates and with no id in both stay that way after any vote. |
| Votes.CastTwiceRestores | src/services/commentService.ts:86-116 | Casting the same direction twice from no vote restores both lists exactly, and the two point changes cancel. |
| Votes.CastTwiceStanding | src/services/commentService.ts:86-116 | Casting the same direction twice returns the voter to their standing, except that an opposite vote is swapped and then withdrawn. |
| Votes.UpThenDown | src/services/commentService.ts:86-116 | Up then down from no vote ends downvoted, with the up list restored and the down list extended by the voter. The point changes are +1, then -2. |
| Seqs.Filter | src/components/common/CommentSection.tsx:149-151 | `filter(keep)` keeps exactly the elements that pass `keep` and is no longer than its input. |
| Seqs.Without | src/services/commentService.ts:89 | `filter(id => id !== x)` removes every occurrence of `x` and keeps every other element with its multiplicity. |
| Seqs.FilterAppend | src/components/common/CommentSection.tsx:149-151 | Filtering distributes over concatenation, so input order is kept. |
| CommentService.NewCommentRow | src/services/commentService.ts:16-28 | The inserted row is consistent with empty vote lists. Its parent is null exactly when the parent id was absent or empty. The author is its creator and last modifier. |
| CommentService.ToComment | src/services/commentService.ts:41-54 | The returned comment carries the row's id, content, record, type, parent, creator and last modifier. Its vote lists are the row's, with null read as empty. Its score is `score || 0`, which for a consistent row is the list difference. |
| CommentService.ReasonFor | src/services/commentService.ts:142 | The reason is "Upvote Received" iff the direction is up, and "Downvote Received" iff it is down. |
| CommentService.NewCommentIsEmpty | src/services/commentService.ts:16-28 | A new comment has empty vote lists and score 0, and its row is consistent. Its parent is null exactly when the parent id was absent or empty. The author is its creator and last modifier. |
| CommentService.VotedRow | src/services/commentService.ts:118-130 | The written lists are those of `CastVote` on the stored lists, and the written score is derived from them. Content, record, parent and creator are unchanged, and the voter becomes the last modifier. |
| CommentService.VoteKeepsRowConsistent | src/services/commentService.ts:118-130 | A consistent row (score = list difference, well-formed lists) stays consistent after a vote. The stored score moves by the credited point change, which is never 0. |
| CommentService.PointsUpdate | src/services/commentService.ts:162-203 | There are three outcomes. A missing profile fails with RowNotFound and changes nothing. A failed write fails with WriteFailed and changes nothing. Otherwise only the user's points change, by exactly delta, and one transaction is appended iff the log insert succeeds. |
| CommentService.SumForAppend | src/services/commentService.ts:191-198 | Appending a transaction adds its points to its own user's logged sum and leaves every other user's sum as it was. |
| CommentService.PointsUpdateDrift | src/services/commentService.ts:162-203 | Every user's gap between balance and logged sum is preserved. The exception is the credited user when the log insert failed: their gap grows by delta. |
| CommentService.PointsUpdateKeepsLedger | src/services/commentService.ts:176-198 | While log inserts succeed, a ledger in which every balance equals its user's transaction sum stays so. |
| CommentService.FollowList | src/services/commentService.ts:223-233 | Following ensures the record is in the list by appending, and keeps the old list as a prefix. Re-following changes nothing. Unfollowing removes every occurrence. Other ids are untouched. |
| CommentService.FollowIdempotent | src/services/commentService.ts:225-233 | Following or unfollowing twice equals doing it once. |
| CommentService.FollowThenUnfollow | src/services/commentService.ts:225-233 | Unfollowing undoes following a record that was not followed. |
| CommentService.FollowKeepsNoDup | src/services/commentService.ts:225-233 | A following list without duplicates keeps none. |
| CommentService.Backend.UpdateUserPoints | src/services/commentService.ts:162-203 | The new profiles and transaction log and the outcome are exactly `PointsUpdate` of the old ones. Comments are unchanged. |
| CommentService.Backend.AddComment | src/services/commentService.ts:4-55 | With no session it is Unauthenticated; with blank content it is EmptyContent; a failed insert is WriteFailed. Each failure leaves the tables unchanged. Otherwise it stores the new row, credits the author +1 "Add Comment" as `PointsUpdate` does, and returns the comment or the credit's error. Every stored comment stays consistent. |
| CommentService.Backend.VoteOnComment | src/services/commentService.ts:57-160 | With no session it is Unauthenticated, a missing comment is RowNotFound, and a failed write is WriteFailed; none of these changes anything. Otherwise it stores `VotedRow`. When the voter is not the author, the cast's point change is credited with the direction's reason. A self-vote credits nobody. Every stored comment stays consistent. |
| CommentService.Backend.FollowRecord | src/services/commentService.ts:205-245 | With no session it is Unauthenticated, a missing profile is RowNotFound, and a failed write is WriteFailed; failures change nothing. Otherwise only the session user's following list changes, to `FollowList` of the old list (null read as empty). |
| CommentService.VoteSwapScenario | src/services/commentService.ts:86-144 | A comments, then B upvotes and swaps to a downvote. The lists are [B]/[] with score 1, then []/[B] with score -1. The log is +1 "Add Comment", +1 "Upvote Received", -2 "Downvote Received", and A ends at 0 points. |
| CommentSection.RootComments | src/components/common/CommentSection.tsx:149 | A comment is a root iff it is in the list and has no (non-empty) parent id. There are at most as many roots as comments. |
| CommentSection.CommentReplies | src/components/common/CommentSection.tsx:150-151 | A comment is a reply of `p` iff it is in the list and its parent id is `p`. There are at most as many replies as comments. |
| CommentSection.HeaderCount | src/components/common/CommentSection.tsx:181 | The header counts every comment, so it is at least the number of roots. |
| CommentSection.AtDepth | src/components/common/CommentSection.tsx:121-132 | The i-th reply renders as the i-th item, at the given depth. |
| CommentSection.RenderThreads | src/components/common/CommentSection.tsx:216-224 | Each root renders as an item at depth 0, so there are at least as many items as roots. |
| CommentSection.RenderedComments | src/components/common/CommentSection.tsx:149-151 | The roots of the list appear at depth 0, in input order. The list starts with a root, and each root is followed by exactly its replies, in input order, at depth 1, then by the next root or the end. Every rendered comment comes from the list. |
| CommentSection.ShowReplyButton | src/components/common/CommentSection.tsx:105 | The Reply button shows exactly below depth 4, so on every root and reply. |
| CommentSection.HasVotedUp | src/components/common/CommentSection.tsx:51 | Highlighted only with a user, and then iff the user is in the up list. |
| CommentSection.HasVotedDown | src/components/common/CommentSection.tsx:52 | Highlighted only with a user, and then iff the user is in the down list. |
| CommentSection.Composer.constructor | src/components/common/CommentSection.tsx:145-146 | The composer starts with empty text, no reply target and no banner. |
| CommentSection.Composer.Replying | src/components/common/CommentSection.tsx:186 | The banner and the "Reply" label show iff the reply target is set and non-empty. |
| CommentSection.FormatRelativeTime | src/components/common/CommentSection.tsx:26-40 | Seconds show `Math.round(ms / 1000)`. A minute, hour or day count n shows exactly for differences within a window around n units: [60 000n - 30 500, 60 000n + 29 500) ms for minutes, and likewise for hours and days. Each unit's number stays below the next unit's size and, from minutes on, is at least 1. |
| CommentSection.ChainWindows | src/components/common/CommentSection.tsx:29-32 | The chained counts pin the millisecond difference to a window: [60 000m - 30 500, 60 000m + 29 500) for m minutes, [3 600 000h - 1 830 500, 3 600 000h + 1 769 500) for h hours, [86 400 000d - 45 030 500, 86 400 000d + 41 369 500) for d days. |
| CommentSection.ChainedRoundingExample | src/components/common/CommentSection.tsx:29-35 | 89 500 ms shows "2 minutes ago" through the chained roundings, where rounding the milliseconds to minutes directly gives 1. |
| CommentSection.RootsInInputOrder | src/components/common/CommentSection.tsx:149 | The roots are exactly the comments without a (non-empty) parent id, in input order. |
| CommentSection.RepliesInInputOrder | src/components/common/CommentSection.tsx:150-151 | The replies of `p` are exactly the comments whose parent id is `p`, in input order. |
| CommentSection.RenderedOnce | src/components/common/CommentSection.tsx:121-132 | With unique non-empty ids, a comment is rendered exactly once when it is a root or a reply to a root of the list, and never otherwise. |
| CommentSection.ThreadDepths | src/components/common/CommentSection.tsx:105-131 | Depth-0 items are roots and depth-1 items reply to a root. No item is deeper, so every rendered comment shows its Reply button. |
| CommentSection.ThreadsInRootOrder | src/components/common/CommentSection.tsx:216-224 | The depth-0 items, in order, are exactly the roots. |
| CommentSection.ThreadsLayout | src/components/common/CommentSection.tsx:121-132 | The rendered threads start with a root, and below each root item come exactly the replies to that root, at depth 1, up to the next root or the end. |
| CommentSection.GroupingExample | src/components/common/CommentSection.tsx:149-181 | For comments 1, 2→1, 3→1, 4→2: the roots are [1] and the replies of 1 are [2, 3]. The list renders 1, 2, 3 at depths 0, 1, 1. The header counts 4, and 4 is not displayed. |
| CommentSection.VoteHighlight | src/components/common/CommentSection.tsx:51-52 | No arrow is highlighted without a user, and at most one is highlighted when no id is in both lists. |
| CommentSection.Composer.SetNewComment | src/components/common/CommentSection.tsx:204 | The text becomes the new value; the reply target is kept. |
| CommentSection.Composer.HandleReply | src/components/common/CommentSection.tsx:153-155 | The reply target becomes the comment id; the text is kept. |
| CommentSection.Composer.CancelReply | src/components/common/CommentSection.tsx:193 | The reply target is cleared and the banner disappears; the text is kept. |
| CommentSection.Composer.HandleSubmitComment | src/components/common/CommentSection.tsx:162-176 | Blank text or no user changes nothing and sends nothing. Otherwise the draft (text, record, type, reply target) goes out, and text and target are reset. |
| CommentSection.RoundDiv | src/components/common/CommentSection.tsx:29-32 | `Math.round(a / d)`: the integer q with q - 1/2 <= a/d < q + 1/2. |
| CommentSection.RoundDivBelow | src/components/common/CommentSection.tsx:29-32 | A rounded quotient is below k iff 2a + d < 2dk. |
| CommentSection.FormatRelativeTimeBuckets | src/components/common/CommentSection.tsx:26-40 | The chained roundings choose seconds below 59 500 ms, minutes below 3 569 500 ms, hours below 84 569 500 ms, days below 2 546 969 500 ms, and the date otherwise. |
| Text.Trim | src/services/commentService.ts:13 | The result is a slice of the input with only white space cut off before and after it, and it neither starts nor ends with JavaScript white space. |
| Text.ToLowerAscii | src/hooks/useRequireAuth.ts:38 | `toLowerCase()` keeps the length, leaves no upper-case ASCII letter, and keeps every other character. |
| Text.TrimEmptyIffBlank | src/services/commentService.ts:13 | `!s.trim()` holds exactly when every character of `s` is JavaScript white space. |
| Types.Option.GetOr | src/services/commentService.ts:75-76 | `x || []` on a nullable array is the array when present and the default when null. |
| Types.NumberOrZero | src/services/commentService.ts:176 | `n || 0` is 0 iff the number is null or 0, and otherwise the number itself. |
| Types.NonEmptyOrNull | src/services/commentService.ts:20 | `s || null` is null iff the string is absent or empty, and otherwise the string itself. |
| Text.Utf16Length | src/pages/Login.tsx:51 | `length` is between the number of code points and twice that, and equals it when no character lies outside the Basic Multilingual Plane. |
| Text.Utf16LengthChar | src/pages/Login.tsx:51 | One character has length 2 outside the Basic Multilingual Plane and 1 inside it, so with the sum rule `length` is fixed for every string. |
| Text.Utf16LengthAppend | src/pages/Login.tsx:51 | `length` of a concatenation is the sum of the lengths. |
| AuthUtils.NormalizeUserRole | src/utils/authUtils.ts:38-53 | Administrator iff the lower-cased role is "administrator", Distributor iff it is "distributor", and Corporate otherwise, including for undefined and "". |
| AuthUtils.NormalizeIgnoresCase | src/utils/authUtils.ts:39-48 | Roles that agree up to case normalise alike. |
| AuthUtils.NormalizeAnyCasing | src/utils/authUtils.ts:39-48 | Every enum value, in any casing, normalises to itself. |
| AuthUtils.NormalizeIdempotent | src/utils/authUtils.ts:38-53 | Normalising the value of a normalised role gives the same role. |
| AuthUtils.ProfileToUser | src/utils/authUtils.ts:71-84 | The user has the requested id and the profile's email. The name is the profile name when non-empty, else the email. Points and following default to 0 and []. The role is normalised and is a fixpoint of normalisation. |
| AuthUtils.FetchUserProfile | src/utils/authUtils.ts:55-93 | A user exactly when a row was found: query errors, exceptions and a missing row give null. |
| RequireAuth.RequireAuthNavigation | src/hooks/useRequireAuth.ts:13-46 | There is no navigation while loading. An unauthenticated visitor goes to `redirectTo` ("/login" by default). With no role requirement the user stays. With one, a missing role goes to "/login", and otherwise the user stays iff some allowed role matches ignoring case, else "/unauthorized". |
| RequireAuth.UseRequireAuth | src/hooks/useRequireAuth.ts:48 | The hook hands back the user and the loading flag unchanged. |
| RequireAuth.DecisionIgnoresRoleCase | src/hooks/useRequireAuth.ts:37-39 | Two role strings equal up to case get the same decision. |
| ProtectedRoute.ProtectedRouteView | src/components/layout/ProtectedRoute.tsx:14-43 | It shows the spinner iff loading. An unauthenticated visitor goes to "/login". With no role requirement there is an outlet. With one, a known user gets the outlet iff their role is exactly an allowed value, else "/unauthorized". |
| ProtectedRoute.OutletMeansAccess | src/components/layout/ProtectedRoute.tsx:14-43 | When authenticated means a user is present, the outlet is shown only to a signed-in user who holds a required role. |
| ProtectedRoute.GuardsAgreeOnNormalizedRoles | src/components/layout/ProtectedRoute.tsx:34 | For a role produced by `normalizeUserRole`, the exact check and the hook's case-insensitive check decide alike. |
| ProtectedRoute.GuardsAgreeWhenSignedOut | src/components/layout/ProtectedRoute.tsx:22-25 | Signed-out visitors go to "/login" under both guards when the hook uses its default target. |
| ProtectedRoute.CapitalisedRoleDisagrees | src/components/layout/ProtectedRoute.tsx:34 | A user object whose role is the string "Administrator" passes the hook but is refused by the component. `fetchUserProfile` never produces such a user, because it normalises the role to lower case (src/utils/authUtils.ts:71). |
| ProtectedRoute.MissingRoleDisagrees | src/components/layout/ProtectedRoute.tsx:28-40 | A user without a role goes to "/login" under the hook and to "/unauthorized" under the component. |
| Login.ValidateSignup | src/pages/Login.tsx:51-67 | Too short iff the password is under 6 UTF-16 units, checked first. It is a mismatch iff it is long enough and differs from the confirmation. Otherwise it is accepted. |
| Login.AstralPasswordLongEnough | src/pages/Login.tsx:51 | Three characters outside the Basic Multilingual Plane count as six and pass. |
| Login.SignupForm.constructor | src/pages/Login.tsx:20-23 | The sign-up form starts with empty email, password and confirmation, and not signing up. |
| Login.SignupForm.SetFields | src/pages/Login.tsx:169-193 | The three inputs' `onChange` handlers set email, password and confirmation to the typed values; the signing-up flag is kept. |
| Login.SignupForm.BeginSignup | src/pages/Login.tsx:47-69 | A refused attempt reports the validation reason and changes nothing. An accepted one raises `isSigningUp` and calls sign-up with the current email and password. |
| Login.SignupForm.FinishSignup | src/pages/Login.tsx:79-98 | The three fields are cleared on success and kept on failure. `isSigningUp` is false afterwards either way. |
| Login.SignupForm.HandleSignup | src/pages/Login.tsx:47-99 | Sign-up is called iff the pair is valid. A refused attempt changes nothing. After a call the flag is down, and the fields are cleared iff sign-up succeeded. |

## Left out

- Backend I/O is not modelled: the Supabase queries, the session lookup and `signUp`. The tables are class fields. The session is a parameter. Each insert's and update's success is a boolean parameter. A read fails only when its key is absent; a read error on an existing row is not modelled. A missing row and a rejected write are the only failure kinds.
- Timestamps (`created_at`, `updated_at`, `new Date()`) and `toLocaleDateString` are left out. The relative-time label takes the millisecond difference as an integer, and the date branch is the constructor `OnDate`.
- Concurrency is not modelled. Each read-modify-write runs alone, and interleavings of two voters are not captured.
- JavaScript numbers are modelled as unbounded integers. Points, scores and millisecond differences never overflow or round in the model.
- Error message texts, toasts and console logging are left out. An error is the `Types.Error` value it stands for.
- The rendering of a comment item is not modelled: avatar, labels and CSS classes. The composer's `console.log` of the draft is modelled as a returned `Draft`.
- `handleVote` in the thread view is left out: it only writes to the console.
- `handleLogin` on the login page is left out. It signs in through the auth context, which is not part of this model.
- `Text.ToLowerAscii` lower-cases ASCII letters only. Both guards and `normalizeUserRole` compare against the ASCII enum values. No non-ASCII character lower-cases to a single letter of those values, so the decisions are the same.
- CommentSection.RenderedOnce: it assumes unique, non-empty comment ids, as the table's uuid key provides. With duplicate ids it would count per id, not per comment.
- `useRequireAuth`'s `replace: true` navigation option is left out, because it only affects browser history.
