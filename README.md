# Reward dashboard front-end — a Dafny model

This project models the local logic of the administrative front-end of a
spin-wheel reward program: the route guard run before every page, the two
in-memory record stores (rewards and reviews), the form schemas and input
normalisers of the reward form, the two reset-password forms and the one-time
code page, the pagination arithmetic of the three tables, the star rating,
the stock colour, the sidebar highlighting, the spin-claim page and the
rewards dialog. Everything behind the remote API is outside it: a remote call
is a parameter saying whether it resolved or rejected (and with what data).

One module per source file, plus shared helpers:

| module | file | models |
|---|---|---|
| `Wrappers` | wrappers.dfy | `Option` (`T \| null`, `??`) and `Result` (returned or thrown) |
| `Text` | text.dfy | `startsWith`, the digit filter, ASCII `toUpperCase`, `toString()` / `Number(...)` on integers |
| `Lists` | lists.dfy | `filter` and conditional `map` over lists |
| `Records` | records.dfy | the `Reward`, `Review` and `Spin` records |
| `Validation` | validation.dfy | the schema checks used (`min`, `max`, number `min`, object `refine`) as issue lists |
| `Paging` | paging.dfy | the "Showing X to Y of Z" line and the client tables' page state |
| `Middleware` | middleware.dfy | src/middleware.ts |
| `RewardStore` | reward_store.dfy | src/lib/hooks/use-reward.ts |
| `ReviewStore` | review_store.dfy | src/lib/hooks/use-reviews.ts |
| `RewardForm` | reward_form.dfy | src/components/dashboard/forms/reward-form.tsx |
| `ResetPasswordForm` | reset_password_form.dfy | src/components/dashboard/Auth/ResetPassword.tsx |
| `ResetPasswordPage` | reset_password_page.dfy | src/app/auth/reset-password/page.tsx |
| `VerifyOtp` | verify_otp.dfy | src/app/auth/verify-otp/page.tsx |
| `RewardsTable` | rewards_table.dfy | src/components/dashboard/rewards/rewards-table.tsx |
| `ClientRewardsTable` | client_rewards_table.dfy | src/components/dashboard/rewards/reviews-table.tsx |
| `ReviewsTable` | reviews_table.dfy | src/components/dashboard/reviews/reviews-table.tsx |
| `Sidebar` | sidebar.dfy | src/components/dashboard/sidebar/Sidebar.tsx |
| `SpinResultPage` | spin_result.dfy | src/components/dashboard/pirze/reward-prize.tsx |
| `RewardsContent` | rewards_content.dfy | src/components/dashboard/rewards/rewards-content.tsx |

Pure code (the guard, schemas, range arithmetic, render rules) is written as
functions with lemmas; state that a component or hook updates in place (the
stores, the claim page, the dialog, the reset screen, the OTP inputs, the
client pagination state) is a class whose methods state the whole new state.
The lists the store methods produce are specified by functions
(`UpdatedList`, `WithoutReward`, `WithStatus`, `WithoutReview`) whose own
contracts state what the source promises of them.

Points where the model follows the code rather than a natural reading:

- The admin-only prefix list of the route guard is `["/"]`, so every URL path
  is admin-only and a logged-in non-admin is redirected to the sign-in page on
  every path the route matcher selects, that page included
  (`Middleware.NonAdminBouncedOnMatchedPaths`,
  `Middleware.NonAdminSignInRedirectsToItself`). The matcher keeps the guard off
  `/api`, `/_next/static`, `/_next/image` and `/favicon.ico` (`Middleware.Route`).
- String lengths in the schemas are JavaScript `length`s, counted in UTF-16 code
  units (`Text.Utf16Length`): a character outside the Basic Multilingual Plane
  counts twice, so three such characters meet a six-character minimum and none
  of them passes the one-character OTP entry check (`VerifyOtp.OneCodeUnit`).
- Editing a reward spreads the form data over the stored reward; the form's
  `stockLimit` has no field of that name in a reward, so an edit never changes
  `stock` or `maxStock` (`RewardsContent.EditKeepsStock`).
- With no rows the tables read "Showing 1 to 0 of 0 results"
  (`Paging.ShowingNoRows`), and with `totalPages` 0 the server table's Next
  button is enabled and asks for page 2 (`RewardsTable.NextEnabledOnEmptyTable`).

## Model

| member | source | states |
|---|---|---|
| Middleware.SomePrefix | src/middleware.ts:19 | `some(startsWith)` holds iff some listed prefix begins the path |
| Middleware.Guard | src/middleware.ts:22-40 | the decision table: anonymous passes iff public and is never sent home; an admin is sent home iff public and never to sign-in; a non-admin token on an admin-only path goes to sign-in |
| Middleware.Route | src/middleware.ts:43-48 | paths the matcher excludes pass untouched; matched paths get the guard's decision |
| Middleware.ExcludedPathsNeverRedirected | src/middleware.ts:43-48 | `/api…`, `/_next/static…`, `/_next/image…` and `/favicon.ico…` are never redirected, whatever the token |
| Middleware.NonAdminBouncedOnMatchedPaths | src/middleware.ts:28-48 | a non-admin token is sent to sign-in on every matched path |
| Middleware.PagesAreMatched | src/middleware.ts:43-48 | the sign-in page, "/" and dashboard pages are selected by the matcher |
| Middleware.PublicPathIff | src/middleware.ts:13-19 | a path is public iff it starts with one of the four public prefixes (a prefix test, not equality) |
| Middleware.PublicBelowPublic | src/middleware.ts:19 | anything below a public path is public too |
| Middleware.EveryPathIsAdminOnly | src/middleware.ts:28-29 | with the prefix list `["/"]` every path beginning with "/" is admin-only |
| Middleware.AnonymousOnProtectedPage | src/middleware.ts:22-24 | no token on a non-public path redirects to `/auth/signin` |
| Middleware.AnonymousOnPublicPage | src/middleware.ts:22-40 | no token on a public path passes, since every later rule needs a token |
| Middleware.AnonymousNeverSentHome | src/middleware.ts:22-40 | a request without a token is never redirected to "/" |
| Middleware.NonAdminAlwaysBounced | src/middleware.ts:28-33 | a token whose role is not "admin" is redirected by the guard to sign-in on every path beginning with "/", public ones included |
| Middleware.NonAdminSignInRedirectsToItself | src/middleware.ts:13-33 | for such a token the sign-in page redirects to itself and no path passes |
| Middleware.AdminOnPublicPage | src/middleware.ts:36-38 | an admin on a public path is redirected to "/" |
| Middleware.AdminOnProtectedPage | src/middleware.ts:40 | an admin on a non-public path passes |
| Middleware.PassThroughIff | src/middleware.ts:22-40 | a request passes iff it is anonymous on a public path or an admin's on a non-public one |
| RewardStore.NewReward | src/lib/hooks/use-reward.ts:36-41 | the created record has every supplied field, the given id and `createdAt` = `updatedAt` = now |
| RewardStore.Patched | src/lib/hooks/use-reward.ts:60 | `updatedAt` is always refreshed; an empty override changes nothing else |
| RewardStore.PatchedFields | src/lib/hooks/use-reward.ts:60 | for each of the ten spread fields, a supplied value wins and an absent one keeps the old value; `updatedAt` is refreshed |
| RewardStore.PatchedIdempotent | src/lib/hooks/use-reward.ts:60 | applying the same override twice at the same moment equals applying it once |
| RewardStore.UpdatedList | src/lib/hooks/use-reward.ts:59-61 | same length; records with the id are overridden, all others unchanged; an absent id leaves the list unchanged |
| RewardStore.WithoutReward | src/lib/hooks/use-reward.ts:76 | no record with the id remains, every other record keeps its multiplicity and the order is kept; an absent id changes nothing |
| RewardStore.CreateKeepsIdsUnique | src/lib/hooks/use-reward.ts:36-43 | appending a record with a fresh id keeps ids unique |
| RewardStore.UpdateKeepsIdsUnique | src/lib/hooks/use-reward.ts:59-61 | an override that carries no id keeps ids unique |
| RewardStore.DeleteKeepsIdsUnique | src/lib/hooks/use-reward.ts:76 | deleting keeps ids unique |
| RewardStore.Store.constructor | src/lib/hooks/use-reward.ts:8-10 | empty list, `loading` true, no error |
| RewardStore.Store.Load | src/lib/hooks/use-reward.ts:12-28 | the mount fetch stores the mock list or the fetch error; `loading` ends false |
| RewardStore.Store.CreateReward | src/lib/hooks/use-reward.ts:30-51 | success appends exactly the new record at the end and returns it; failure sets the create error, rethrows and keeps the list; `loading` ends false |
| RewardStore.Store.UpdateReward | src/lib/hooks/use-reward.ts:53-68 | success replaces the list by `UpdatedList`; failure sets the update error and rethrows; `loading` ends false |
| RewardStore.Store.DeleteReward | src/lib/hooks/use-reward.ts:70-83 | success replaces the list by `WithoutReward`; failure sets the delete error and rethrows; `loading` ends false |
| ReviewStore.WithStatus | src/lib/hooks/use-reviews.ts:36 | same length and order; reviews with the id get the status, the rest are unchanged; an absent id changes nothing |
| ReviewStore.WithStatusOnlyTouchesStatus | src/lib/hooks/use-reviews.ts:36 | a matching review gets the new status and no other field of any review changes |
| ReviewStore.WithStatusIdempotent | src/lib/hooks/use-reviews.ts:36 | setting the same status twice equals setting it once |
| ReviewStore.WithoutReview | src/lib/hooks/use-reviews.ts:51 | removes exactly the reviews with the id, keeping the others' multiplicity and order; an absent id changes nothing |
| ReviewStore.WithoutReviewLength | src/lib/hooks/use-reviews.ts:51 | the list shrinks by exactly the number of reviews with the id |
| ReviewStore.Store.constructor | src/lib/hooks/use-reviews.ts:8-10 | empty list, `loading` true, no error |
| ReviewStore.Store.Load | src/lib/hooks/use-reviews.ts:12-28 | the mount fetch stores the mock list or the fetch error; `loading` ends false |
| ReviewStore.Store.UpdateReviewStatus | src/lib/hooks/use-reviews.ts:30-43 | success replaces the list by `WithStatus`; failure sets the error and rethrows; `loading` ends false |
| ReviewStore.Store.DeleteReview | src/lib/hooks/use-reviews.ts:45-58 | success replaces the list by `WithoutReview`; failure sets the error and rethrows; `loading` ends false |
| RewardForm.Issues | src/components/dashboard/forms/reward-form.tsx:21-28 | no issue iff the three strings are non-empty and stock limit and expiry are at least 1; at most five issues |
| RewardForm.OneIssuePerField | src/components/dashboard/forms/reward-form.tsx:21-28 | no two issues name the same field |
| RewardForm.IssueFields | src/components/dashboard/forms/reward-form.tsx:21-28 | the schema reports a field exactly when that field's check fails |
| RewardForm.Parse | src/components/dashboard/forms/reward-form.tsx:21-28 | parses iff the three strings are non-empty and stock limit and expiry are at least 1; a missing `requireReview` parses as false; a failure names exactly the failing fields |
| RewardForm.Defaults | src/components/dashboard/forms/reward-form.tsx:48-55 | each of the six fields comes from the initial data or defaults to "", 0 or false; no initial data gives all defaults |
| RewardForm.UntouchedCreateFormInvalid | src/components/dashboard/forms/reward-form.tsx:48-55 | the untouched create form fails on all five checked fields |
| RewardForm.RequireReviewDefaultsToFalse | src/components/dashboard/forms/reward-form.tsx:27-54 | an absent `requireReview` becomes false in the defaults and in the parse |
| RewardForm.Title | src/components/dashboard/forms/reward-form.tsx:62 | "Edit Reward" iff initial data is given |
| RewardForm.NumberInput | src/components/dashboard/forms/reward-form.tsx:101-105 | an empty box stores 0, otherwise the number typed |
| RewardForm.NumberInputRoundTrip | src/components/dashboard/forms/reward-form.tsx:100-105 | re-reading the displayed `toString()` of a value stores that value |
| RewardForm.CheckboxValue | src/components/dashboard/forms/reward-form.tsx:195-197 | stores true iff `checked === true` |
| ResetPasswordForm.Issues | src/components/dashboard/Auth/ResetPassword.tsx:23-31 | no issue iff new password ≥ 6 UTF-16 code units, confirmation ≥ 1 and the two equal; a mismatch is the last issue, on `confirmPassword` |
| ResetPasswordForm.ValidIff | src/components/dashboard/Auth/ResetPassword.tsx:23-31 | valid iff new password has 6 or more UTF-16 code units, confirmation at least 1, and the two are equal |
| ResetPasswordForm.MismatchReportedOnConfirm | src/components/dashboard/Auth/ResetPassword.tsx:28-31 | a mismatch is reported on `confirmPassword`, not on `newPassword` |
| ResetPasswordForm.DefaultsInvalid | src/components/dashboard/Auth/ResetPassword.tsx:42-45 | the empty defaults are invalid |
| ResetPasswordForm.Payload | src/components/dashboard/Auth/ResetPassword.tsx:72-76 | the payload is email, new password and `repeatNewPassword` = confirmation |
| ResetPasswordForm.ValidPayloadRepeats | src/components/dashboard/Auth/ResetPassword.tsx:28-76 | for validated values `repeatNewPassword` equals `newPassword` and has 6 or more UTF-16 code units |
| ResetPasswordForm.FailureMessage | src/components/dashboard/Auth/ResetPassword.tsx:61 | the error toast shows the error's message, or the fallback when it is empty |
| ResetPasswordForm.Screen.constructor | src/components/dashboard/Auth/ResetPassword.tsx:35-63 | nothing sent, nothing shown, not pending |
| ResetPasswordForm.Screen.OnSubmit | src/components/dashboard/Auth/ResetPassword.tsx:65-86 | without an email: an "Email is required" toast and no request; otherwise the payload is sent and the button is disabled while pending |
| ResetPasswordForm.Screen.OnSettled | src/components/dashboard/Auth/ResetPassword.tsx:52-162 | success toasts and navigates to `/login`; failure toasts the message; either way no longer pending |
| ResetPasswordPage.PageIssues | src/app/auth/reset-password/page.tsx:19-25 | no issue iff both passwords ≥ 6 UTF-16 code units and equal; a mismatch is the last issue, on `confirmPassword` |
| ResetPasswordPage.PageValidIff | src/app/auth/reset-password/page.tsx:19-25 | valid iff both passwords have 6 or more UTF-16 code units and are equal |
| ResetPasswordPage.PageMismatchReportedOnConfirm | src/app/auth/reset-password/page.tsx:22-25 | a mismatch is reported on `confirmPassword` |
| ResetPasswordPage.PageDefaultsInvalid | src/app/auth/reset-password/page.tsx:30-36 | the empty defaults are invalid |
| ResetPasswordPage.SchemasAcceptTheSame | src/app/auth/reset-password/page.tsx:19-25 | this page and the dashboard form accept the same values, with different messages for an empty confirmation |
| VerifyOtp.Issues | src/app/auth/verify-otp/page.tsx:18-22 | with other than 6 entries the first issue is the length issue; none iff exactly 6 entries of exactly one UTF-16 code unit |
| VerifyOtp.EntryIssuesEmptyIff | src/app/auth/verify-otp/page.tsx:20 | no per-entry issue iff every entry has exactly one UTF-16 code unit (one character of the Basic Multilingual Plane) |
| VerifyOtp.ValidIff | src/app/auth/verify-otp/page.tsx:18-22 | valid iff exactly 6 entries, each one UTF-16 code unit long |
| VerifyOtp.SixDigitsValid | src/app/auth/verify-otp/page.tsx:18-22 | six one-digit entries, as the digit filter leaves them, are accepted |
| VerifyOtp.DefaultInvalid | src/app/auth/verify-otp/page.tsx:29-31 | six empty strings are invalid |
| VerifyOtp.Join | src/app/auth/verify-otp/page.tsx:35 | joining one-character entries gives one character per entry |
| VerifyOtp.JoinOfSingleChars | src/app/auth/verify-otp/page.tsx:35 | joining one-character entries yields one character per entry, in order |
| VerifyOtp.ValidCode | src/app/auth/verify-otp/page.tsx:35 | a valid form submits a 6-character code whose k-th character is the k-th entry |
| VerifyOtp.JoinOfDigits | src/app/auth/verify-otp/page.tsx:35-72 | filtered entries join into a string of digits only |
| VerifyOtp.FocusAfter | src/app/auth/verify-otp/page.tsx:76-81 | focus moves to index+1 iff the filtered value is non-empty and index < 5 |
| VerifyOtp.OtpInputs.CodeIsDigits | src/app/auth/verify-otp/page.tsx:35-72 | with every slot filtered, the submitted code is digits only, and six digits once the form is accepted |
| VerifyOtp.OtpInputs.constructor | src/app/auth/verify-otp/page.tsx:29-31 | six empty slots, nothing focused |
| VerifyOtp.OtpInputs.OnChange | src/app/auth/verify-otp/page.tsx:69-82 | given at most one UTF-16 code unit (the input's `maxLength={1}`), stores the digit-filtered text in that slot only, so every slot holds "" or one digit; focus moves on by the focus rule, otherwise stays on the input typed into |
| VerifyOtp.OneKeystroke | src/app/auth/verify-otp/page.tsx:72 | one typed character fills the slot iff it is a digit |
| Text.DigitsOnly | src/app/auth/verify-otp/page.tsx:72 | the filter's result holds digits only and is no longer than its input |
| Text.Utf16Length | src/components/dashboard/Auth/ResetPassword.tsx:25 | the `length` the schema's `min` compares: between the number of characters and twice it, and 0 only for the empty string |
| Text.Utf16LengthOne | src/app/auth/verify-otp/page.tsx:20 | a `length` of exactly 1 means one character of the Basic Multilingual Plane |
| Text.DigitsOnlyIsFilter | src/app/auth/verify-otp/page.tsx:72 | the filter equals the list filter with the digit test |
| Text.DigitsOnlyKeepsDigits | src/app/auth/verify-otp/page.tsx:72 | every digit of the input is kept, as often as it occurs and in order, and every other character is dropped |
| Text.DigitsOnlyFixedPoint | src/app/auth/verify-otp/page.tsx:72 | the filter leaves a string unchanged iff it is all digits |
| Text.DigitsOnlyIdempotent | src/app/auth/verify-otp/page.tsx:72 | filtering twice equals filtering once |
| Text.ParseIntOfIntToString | src/components/dashboard/forms/reward-form.tsx:100-105 | reading back the decimal rendering of an integer gives that integer |
| Paging.Showing | src/components/dashboard/rewards/reviews-table.tsx:174-175 | the line both client tables show over their whole row list (this rewards table and the reviews table): starts at pageIndex·pageSize+1, and the end is at most (pageIndex+1)·pageSize and at most the total and equal to one of them, i.e. their min |
| Paging.ShowingAPageWithRows | src/components/dashboard/reviews/reviews-table.tsx:137-138 | on a page that holds rows the line starts at 1 or later and counts exactly that page's rows |
| Paging.ShowingNoRows | src/components/dashboard/reviews/reviews-table.tsx:137-138 | the line names no row iff the page is past the last row; an empty list reads 1 to 0 of 0 |
| Paging.PaginationState.constructor | src/components/dashboard/rewards/reviews-table.tsx:37-40 | starts at page index 0 with page size 5, shown as page 1 |
| Paging.PaginationState.GoToPage | src/components/dashboard/rewards/reviews-table.tsx:178-180 | selecting page p sets index p−1, clamped to 0 .. `Number.MAX_SAFE_INTEGER`; an in-range p is shown again as page p |
| Paging.InitialLine | src/components/dashboard/reviews/reviews-table.tsx:39-42 | the initial state shows rows 1 to min(5, total), for every total including 0 |
| RewardsTable.RangeLine | src/components/dashboard/rewards/rewards-table.tsx:133-134 | start (page−1)·limit+1; end at most page·limit and at most the total, and equal to one of them, i.e. min(page·limit, total) |
| RewardsTable.Disabled | src/components/dashboard/rewards/rewards-table.tsx:160-183 | First/Previous disabled iff page = 1; Next/Last disabled iff page = totalPages |
| RewardsTable.Target | src/components/dashboard/rewards/rewards-table.tsx:160-183 | First targets 1, Last targets totalPages; from a page in range, an enabled button targets another page in range |
| RewardsTable.EnabledButtonsStayInRange | src/components/dashboard/rewards/rewards-table.tsx:160-183 | from a page in 1..totalPages every enabled button targets another page in range; Previous/Next move by one |
| RewardsTable.NextEnabledOnEmptyTable | src/components/dashboard/rewards/rewards-table.tsx:174-175 | with totalPages 0, Next is enabled on page 1 and targets page 2 |
| RewardsTable.PageSizesShowBoundedPages | src/components/dashboard/rewards/rewards-table.tsx:146 | with an offered page size, a non-empty page shows between 1 and limit rewards within the total |
| ClientRewardsTable.StockColour | src/components/dashboard/rewards/reviews-table.tsx:67-80 | with a zero maximum (division by zero) the bar is indigo iff stock is positive |
| ClientRewardsTable.StockColourThreshold | src/components/dashboard/rewards/reviews-table.tsx:67-80 | for maxStock > 0 the bar is `#6366f1` iff 2·stock > maxStock, else `#f97316` |
| ClientRewardsTable.FullAndEmptyBars | src/components/dashboard/rewards/reviews-table.tsx:67-80 | a full bar is indigo, an empty one orange |
| ClientRewardsTable.EditAction | src/components/dashboard/rewards/reviews-table.tsx:98 | Edit passes the whole row record |
| ClientRewardsTable.DeleteAction | src/components/dashboard/rewards/reviews-table.tsx:102 | Delete passes only the row's id |
| ReviewsTable.Stars | src/components/dashboard/reviews/reviews-table.tsx:25 | exactly five stars are rendered |
| ReviewsTable.FilledStars | src/components/dashboard/reviews/reviews-table.tsx:25-28 | a rating fills clamp(floor(rating), 0, 5) stars, filled ones first |
| ReviewsTable.IntegerRating | src/components/dashboard/reviews/reviews-table.tsx:28 | an integer rating r fills max(0, min(r, 5)) stars; star k is filled iff k ≤ r |
| ReviewsTable.InitialReviewsLine | src/components/dashboard/reviews/reviews-table.tsx:39-42 | the initial line covers the first five reviews (or all of them, or none) |
| Sidebar.IsActive | src/components/dashboard/sidebar/Sidebar.tsx:34-36 | an active item's href begins the path; the root href is active exactly on "/" |
| Sidebar.RenderNavigation | src/components/dashboard/sidebar/Sidebar.tsx:33-58 | six links in list order; highlight and right-edge bar each present iff the item is active |
| Sidebar.DashboardOnlyAtRoot | src/components/dashboard/sidebar/Sidebar.tsx:16-36 | the Dashboard item is active only on the exact path "/" |
| Sidebar.HrefsNotNested | src/components/dashboard/sidebar/Sidebar.tsx:15-22 | no non-root href is a prefix of another |
| Sidebar.AtMostOneActive | src/components/dashboard/sidebar/Sidebar.tsx:15-36 | no two items are active for the same path |
| Sidebar.SubpagesKeepLinkActive | src/components/dashboard/sidebar/Sidebar.tsx:34-36 | a path below a non-root href keeps that item active |
| SpinResultPage.Render | src/components/dashboard/pirze/reward-prize.tsx:77-117 | spinner while loading, then "Invalid Request" without id, then "No Spin Result Found" without spin, then the result card |
| SpinResultPage.ClaimDisabled | src/components/dashboard/pirze/reward-prize.tsx:235 | the button is enabled iff not claiming and the status is pending |
| SpinResultPage.ClaimLabel | src/components/dashboard/pirze/reward-prize.tsx:239-250 | one of the four labels; "Claim Prize" iff not claiming and pending |
| SpinResultPage.StatusColourOf | src/components/dashboard/pirze/reward-prize.tsx:193-199 | yellow iff pending, green iff claimed, red iff expired |
| SpinResultPage.ButtonLabelMatchesState | src/components/dashboard/pirze/reward-prize.tsx:235-250 | the button is enabled iff it reads "Claim Prize"; otherwise "Claiming...", "Already Claimed" or "Expired" in that order |
| SpinResultPage.StatusDisplay | src/components/dashboard/pirze/reward-prize.tsx:193-201 | yellow for pending, green for claimed, red otherwise; the status is shown upper-cased |
| SpinResultPage.Page.constructor | src/components/dashboard/pirze/reward-prize.tsx:21-23 | no spin, loading, not claiming; the spinner is shown |
| SpinResultPage.Page.LoadEffect | src/components/dashboard/pirze/reward-prize.tsx:32-52 | without an id loading ends, nothing is fetched and the invalid-request card is shown; otherwise one fetch stores the spin (shown in the result card) or toasts the error, and loading ends |
| SpinResultPage.Page.StartClaim | src/components/dashboard/pirze/reward-prize.tsx:55 | claiming becomes true, so the button is disabled and reads "Claiming..." |
| SpinResultPage.Page.FinishClaim | src/components/dashboard/pirze/reward-prize.tsx:56-74 | the spin is replaced only by the data of a successful answer; toasts follow the outcome; claiming ends false |
| SpinResultPage.Page.HandleClaim | src/components/dashboard/pirze/reward-prize.tsx:54-75 | after the whole claim, claiming is false, nothing is fetched, the spin changed only on success with data, and a success or error toast is added per outcome (none on an unsuccessful answer) |
| RewardsContent.EditPatch | src/components/dashboard/rewards/rewards-content.tsx:32-33 | an edit overrides the five form fields and leaves id, dates, stock and maxStock alone |
| RewardsContent.CreateInput | src/components/dashboard/rewards/rewards-content.tsx:35-40 | a create carries the form fields with stock = maxStock = the stock limit, and today's date |
| RewardsContent.SaveRequestFor | src/components/dashboard/rewards/rewards-content.tsx:30-41 | update of the edited reward's id iff a reward is being edited, otherwise create |
| RewardsContent.InitialDataFor | src/components/dashboard/rewards/rewards-content.tsx:85-95 | when editing, `stockLimit` comes from `maxStock` and the other fields are copied; nothing when creating |
| RewardsContent.StockLimitTextRoundTrip | src/components/dashboard/rewards/rewards-content.tsx:89 | `maxStock.toString()` coerced back by the schema is `maxStock` |
| RewardsContent.DialogTitle | src/components/dashboard/rewards/rewards-content.tsx:82 | "Edit Reward" iff a reward is being edited |
| RewardsContent.TitlesAgree | src/components/dashboard/rewards/rewards-content.tsx:82-96 | the dialog title equals the form's own title |
| RewardsContent.UntouchedEditOnlyRefreshesTimestamp | src/components/dashboard/rewards/rewards-content.tsx:85-95 | saving an untouched edit form of a valid reward parses and changes only `updatedAt` |
| RewardsContent.EditKeepsStock | src/components/dashboard/rewards/rewards-content.tsx:32-33 | saving an edit keeps the list length and every reward's stock and maxStock |
| RewardsContent.CreatedRewardHasFullStock | src/components/dashboard/rewards/rewards-content.tsx:35-40 | a create appends one reward with a full stock equal to the stock limit, keeping the earlier rewards |
| RewardsContent.Content.constructor | src/components/dashboard/rewards/rewards-content.tsx:16-18 | dialog closed, nothing edited, a fresh store |
| RewardsContent.Content.HandleCreateReward | src/components/dashboard/rewards/rewards-content.tsx:20-23 | opens the dialog with nothing edited |
| RewardsContent.Content.HandleEditReward | src/components/dashboard/rewards/rewards-content.tsx:25-28 | opens the dialog on the given reward |
| RewardsContent.Content.HandleFormSubmit | src/components/dashboard/rewards/rewards-content.tsx:30-47 | dispatches update or create; success closes the dialog and clears the edited reward; failure leaves both and the list as they were |
| RewardsContent.Content.HandleFormCancel | src/components/dashboard/rewards/rewards-content.tsx:49-52 | closes the dialog and clears the edited reward |
| RewardsContent.Content.OnOpenChange | src/components/dashboard/rewards/rewards-content.tsx:79 | closing through the dialog itself keeps the edited reward |
| RewardsContent.Content.HandleDeleteReward | src/components/dashboard/rewards/rewards-content.tsx:54-60 | deletes through the store; a failure is swallowed and the dialog state never changes |

## Left out

- Network calls, `getToken` JWT decoding, `next-auth` sessions and the HTTP
  clients: each call is a parameter (resolved, rejected, or answered with data);
  the token is an optional record with an optional role.
- Asynchrony and timers: the simulated delays and `await` ordering are not
  modelled; each store operation is atomic. The claim and the reset request are
  split into a start and a settle step because their pending flags are visible.
- Clock values: `Date.now()` ids, `new Date()` timestamps and
  `toLocaleDateString` dates are caller-supplied parameters.
- `console.log` / `console.error` output (including the whole effect of the
  stand-alone reset page's `onSubmit`, which only logs, and of the OTP page's
  `onSubmit` beyond computing the code) is not modelled.
- The floating-point progress value of the stock bars; only its colour threshold
  is modelled, in exact arithmetic.
- `Number(...)` and `Number.parseInt` are modelled on integer text only
  (`Text.ParseInt`); fractional, exponent or whitespace-padded input reads as no
  number, where JavaScript would give a value or NaN.
- RewardsContent.CreateInput: `Number.parseInt` of the stock limit is the
  limit itself, because the model's stock limit is an integer; a fractional limit
  would be truncated by the source.
- RewardsContent.EditPatch: `Reward.expiry` is declared a string, but the
  model keeps it an integer number of days, as the form produces it. The
  schema's `z.coerce.number()` of a stored expiry string is not modelled: in the
  source an untouched edit replaces the stored string by the number it coerces
  to, and a non-numeric one fails the schema's `min(1)`.
- RewardsContent.UntouchedEditOnlyRefreshesTimestamp: holds for the integer
  expiry above; in the source an untouched edit also turns a numeric expiry
  string into a number, and one with a non-numeric expiry does not validate.
- The form's extra `stockLimit` key that the spread copies into a stored
  reward has no field in the model's reward record.
- The route matcher is modelled as the prefix test its pattern performs on the
  path; how Next.js compiles and applies the pattern is not modelled.
- TanStack Table sorting, filtering, `getPageCount` and row models,
  react-hook-form internals and zod's email check are not modelled.
- Toast and router side effects other than those listed in the Model table;
  the expiry-date computation of the claim page, which only feeds commented-out
  markup.
