# Photo gallery front end: authorization gate and session state

A Dafny model of the stateful core of a small React photo-gallery front end
(r2-photo-frontend). The front end lists, previews and deletes photos kept
in named buckets. Two actions are behind a short-lived password grant held
in the browser: opening the `best` bucket (purpose `gallery`) and deleting a
photo (purpose `delete`).

The model covers:

- **Auth** (`Auth.dfy`, from `src/utils/auth.js`): the password table, the
  expiry table (15 minutes for `gallery`, 5 for `delete`) and the browser
  store as a `map<string, string>` field of class `Store`. `CheckAuth`,
  `SetAuth` and `ClearAuth` are methods on it. The clock is the explicit
  `now` parameter, in milliseconds. The grant time is stored as decimal text
  and read back with `parseInt` (`Decimal.dfy`).
- **Password prompt** (`PasswordPrompt.dfy`, from
  `src/components/PasswordModal.jsx`): class `PasswordModal` holds the
  `password` and `isLoading` state. The prompt does not own the `onSuccess`
  and `onClose` callbacks or the store, so its handlers return the calls
  they make, in order: `[OnSuccess, SetAuth(type), OnClose]` on a match and
  nothing on a mismatch. The component that renders the prompt makes those
  calls.
- **Photo list** (`PhotoListView.dfy`, from `src/components/PhotoList.jsx`):
  every `useState` hook is a field of class `PhotoList`, and every handler is
  a method. This covers the listing fetch with its `best` gate, the delete
  flow with the pending-photo slot, the lightbox (open, prev, next, keys,
  close), the page-number text box and the first/prev/next/last buttons.
  The network enters as parameters: a `ListResponse` (photos and page count,
  or failure) and whether a delete succeeded. The requests a handler sends
  are its result.
- **Navigation bar** (`NavigationBar.dfy`, from
  `src/components/Navigation.jsx`): the mount redirect, the bucket menu, the
  sort menu, and the prompt's `onSuccess` and `onClose` callbacks. The
  callbacks see the values of the render that created them (`Render`).
- **Shared pieces** (`Query.dfy`): the bucket read from the address bar
  (class `SearchParams`, defaulting to `photo`), the `split('_')` of the sort
  selector, the request datatype and the request and asset URLs.
- **Session** (`Session.dfy`): the sort broadcast from the bar to the list,
  plus three worked runs from a fresh browser. Two open `best` (as written
  and corrected) and one deletes on page 2.

Every handler is one atomic step. Responses are applied in the order they
arrive.

## Model

| member | source | states |
|---|---|---|
| Decimal.ParseInt | src/components/PhotoList.jsx:202 | `parseInt` gives NaN (`None`) exactly when no digit follows the optional sign |
| Decimal.IntToString | src/components/PhotoList.jsx:206 | `toString` of an integer is non-empty and starts with a digit exactly when the integer is non-negative |
| Decimal.ParseIntOfIntToString | src/utils/auth.js:23-39 | reading back with `parseInt` what `toString` wrote gives the same integer (grant time, page text) |
| Auth.Ttl | src/utils/auth.js:8-11 | a `gallery` grant lasts 15 minutes (900000 ms) and a `delete` grant 5 minutes (300000 ms) |
| Auth.SecretUnlocksOnlyItsPurpose | src/utils/auth.js:2-16 | a purpose's secret passes `verifyPassword` for that purpose and fails it for the other |
| Auth.Store.CheckAuth | src/utils/auth.js:19-34 | the answer is "flag is `'true'` and not expired". An expired grant has both entries removed. A missing flag or a successful check leaves the store unchanged |
| Auth.Store.SetAuth | src/utils/auth.js:37-40 | the flag becomes `'true'` and the time entry the decimal text of `now`. Nothing else changes |
| Auth.Store.ClearAuth | src/utils/auth.js:43-46 | exactly the purpose's two entries are removed |
| Auth.GrantThenCheck | src/utils/auth.js:23-40 | after `setAuth` at t, a check at t' succeeds if and only if t' - t <= TTL. A successful check leaves the store unchanged |
| Auth.GrantBoundary | src/utils/auth.js:27 | a check at t + TTL still succeeds. At t + TTL + 1 it fails and purges both entries |
| Auth.ExpiredCheckPurges | src/utils/auth.js:27-31 | an expired check fails and removes both entries. Every later check fails too and changes nothing |
| Auth.CheckIdempotent | src/utils/auth.js:20-33 | repeating a check at the same time gives the same answer and leaves the same store |
| Auth.RevokedNeverAuthorized | src/utils/auth.js:43-46 | after `clearAuth` no check succeeds at any time, and a check changes nothing |
| Auth.KeysDisjoint | src/utils/auth.js:20-46 | the two purposes use four distinct store keys: the key sets are disjoint and each purpose's flag and time keys differ |
| Auth.OtherPurposeUntouched | src/utils/auth.js:20-46 | `setAuth`, `clearAuth` and `checkAuth` on one purpose leave the other purpose's entries, and its answer, unchanged |
| Auth.MissingTimeReadsAsZero | src/utils/auth.js:23 | a flag with a missing or empty time entry counts as granted at time 0 |
| Auth.UnparsableTimeNeverExpires | src/utils/auth.js:23-27 | a flag whose time text is not a number (NaN) never expires and is never purged |
| Query.CurrentBucket | src/components/Navigation.jsx:12 | a missing or empty `bucket` parameter (`Some("")`) means `photo`. Any other value is used as given |
| Query.SplitOn | src/components/PhotoList.jsx:67 | `split` always gives at least one piece, and no piece contains the separator |
| Query.JoinSplit | src/components/PhotoList.jsx:67 | joining the pieces of `split` with the separator gives back the original text |
| Query.SortPartsOfSelector | src/components/PhotoList.jsx:67 | a selector `field_order` (no `_` inside either part) splits into `field` and `order` |
| Query.SortPartsRecompose | src/components/PhotoList.jsx:67 | the sort field never contains `_`. With no `_` the order is `undefined` and the field is the whole selector. Otherwise `field_order` is a prefix of the selector. No default is substituted |
| Query.TimeDescRequest | src/components/PhotoList.jsx:67-69 | the default selector `time_desc` requests field `time` in order `desc` |
| Query.MenuSelectors | src/components/Navigation.jsx:72-75 | the four menu selectors split into (time, desc), (time, asc), (name, asc) and (name, desc) |
| Query.ListUrlDeterminesPage | src/components/PhotoList.jsx:68-70 | two listing URLs that differ only in the page number are different strings |
| Query.AssetUrlInjective | src/components/PhotoList.jsx:142-144 | two different keys in the same bucket get different copied links |
| PasswordPrompt.PasswordModal.constructor | src/components/PasswordModal.jsx:22-23 | the prompt starts with an empty password and not loading |
| PasswordPrompt.PasswordModal.HandleChange | src/components/PasswordModal.jsx:64 | the field holds exactly what was typed |
| PasswordPrompt.PasswordModal.HandleSubmit | src/components/PasswordModal.jsx:26-47 | on a match the calls are `onSuccess`, then `setAuth(type)`, then `onClose`. On a mismatch nothing is called. In both cases the password ends `''` and `isLoading` ends false |
| PasswordPrompt.PasswordModal.HandleKeyPress | src/components/PasswordModal.jsx:49-53 | Enter submits exactly once. Any other key changes nothing and calls nothing |
| PasswordPrompt.PasswordModal.Cancel | src/components/PasswordModal.jsx:73 | the cancel button calls `onClose` and nothing else |
| PhotoListView.FindKey | src/components/PhotoList.jsx:153 | gives the first index whose photo has the key, or -1 when no photo does |
| PhotoListView.PhotoList.constructor | src/components/PhotoList.jsx:36-46 | every hook starts at its initial value: page 1 of 1, text `'1'`, `time_desc`, loading, nothing selected or pending |
| PhotoListView.PhotoList.FetchPhotos | src/components/PhotoList.jsx:52-86 | for `best` without a valid `gallery` grant, no request is sent and the photos and page count stay. Otherwise exactly one listing request is sent for the current bucket, page and split selector, and a success replaces the list. `loading` ends false |
| PhotoListView.PhotoList.HandleSortEvent | src/components/PhotoList.jsx:90-92 | the broadcast selector is adopted exactly |
| PhotoListView.PhotoList.HandleDelete | src/components/PhotoList.jsx:115-140 | one delete request for the bucket and key. Only if the delete succeeds, a listing request for the same page follows. Only if both succeed is the list replaced |
| PhotoListView.PhotoList.HandleDeleteClick | src/components/PhotoList.jsx:99-106 | without a valid `delete` grant, the photo is held as pending, the prompt opens and nothing is sent. With a grant the photo is deleted directly |
| PhotoListView.PhotoList.OnPromptSuccess | src/components/PhotoList.jsx:108-113 | the pending photo captured at render is deleted and the slot cleared. With none pending nothing is sent. The prompt is hidden |
| PhotoListView.PhotoList.OnPromptClose | src/components/PhotoList.jsx:427-430 | the prompt is hidden and the pending photo cleared |
| PhotoListView.PhotoList.RunPromptEffects | src/components/PhotoList.jsx:425-437 | the delete prompt's calls run in order: pending delete, `setAuth('delete')`, close. With no calls nothing changes |
| PhotoListView.PhotoList.SubmitPassword | src/components/PasswordModal.jsx:29-32 | right password: grant stored, pending photo deleted, prompt closed, slot empty. Wrong password: store, slot, prompt flag and list unchanged |
| PhotoListView.PhotoList.PromptKeyPress | src/components/PasswordModal.jsx:49-53 | Enter in the delete prompt behaves as a submit, with the same new store, slot, prompt flag, photos and totalPages. Other keys change nothing: store, slot, flag, photos, totalPages, password and isLoading are kept |
| PhotoListView.PhotoList.CancelPrompt | src/components/PhotoList.jsx:426-430 | cancelling the delete prompt clears the pending photo and hides the prompt |
| PhotoListView.PhotoList.HandleCopyUrl | src/components/PhotoList.jsx:142-150 | the clipboard gets the asset URL of the current bucket and the key |
| PhotoListView.PhotoList.OpenPreview | src/components/PhotoList.jsx:152-157 | the index is the first position whose key matches and the lightbox opens. If the photo is listed, the lightbox shows `photos[index]` |
| PhotoListView.PhotoList.PrevPhoto | src/components/PhotoList.jsx:159-166 | steps back one position and is a no-op at index 0 or below. Keeps `selectedPhoto == photos[index]` within range |
| PhotoListView.PhotoList.NextPhoto | src/components/PhotoList.jsx:168-175 | steps forward one position and is a no-op at the last index. Keeps `selectedPhoto == photos[index]` within range |
| PhotoListView.PhotoList.ClosePreview | src/components/PhotoList.jsx:287-298 | the lightbox closes and keeps its index and photo |
| PhotoListView.PhotoList.HandleKeyDown | src/components/PhotoList.jsx:177-187 | while open: ArrowLeft is prev, ArrowRight is next, and a step sets the photo to `At(photos, index)`. Escape closes. Other keys, and all keys while closed, change nothing. A matching selection stays matching |
| PhotoListView.PhotoList.HandlePageInputChange | src/components/PhotoList.jsx:196-198 | the page text holds exactly what was typed |
| PhotoListView.PhotoList.SetPage | src/components/PhotoList.jsx:216-218 | the page becomes n. The text is rewritten to n's decimal only when the page actually changed |
| PhotoListView.PhotoList.HandlePageSubmit | src/components/PhotoList.jsx:200-214 | a parsed number in [1, totalPages] becomes the page, and the text becomes its decimal when the page changed. Otherwise the page stays, and the text becomes its decimal (which parses back to it). [1, totalPages] is preserved |
| PhotoListView.PhotoList.FirstPage | src/components/PhotoList.jsx:378-383 | goes to page 1 and rewrites the text to `1`. It is a no-op on page 1. [1, totalPages] is preserved |
| PhotoListView.PhotoList.PrevPage | src/components/PhotoList.jsx:384-389 | goes to page - 1 except on page 1. [1, totalPages] is preserved |
| PhotoListView.PhotoList.NextPage | src/components/PhotoList.jsx:410-415 | goes to page + 1 except on page `totalPages`. [1, totalPages] is preserved |
| PhotoListView.PhotoList.LastPage | src/components/PhotoList.jsx:416-421 | goes to page `totalPages` and rewrites the text to its decimal. It is a no-op there. [1, totalPages] is preserved |
| NavigationBar.Navigation.constructor | src/components/Navigation.jsx:12-15 | starts with `time_desc`, prompt closed, nothing pending (so the pending slot holds nothing or `best`) |
| NavigationBar.Navigation.Mount | src/components/Navigation.jsx:17-21 | `best` without a valid `gallery` grant is replaced by `photo`. Any other bucket stays, and the store is only consulted for `best` |
| NavigationBar.Navigation.HandleBucketChange | src/components/Navigation.jsx:23-33 | a bucket other than `best`, or `best` with a grant, is selected at once with no prompt. `best` without a grant keeps the bucket, sets `pendingBucket = 'best'` and opens the prompt. The pending slot keeps holding nothing or `best` |
| NavigationBar.Navigation.HandleSortChange | src/components/Navigation.jsx:35-38 | the selector is stored and broadcast unchanged |
| NavigationBar.Navigation.OnPasswordSuccess | src/components/Navigation.jsx:40-45 | a pending bucket is selected and the slot cleared. With none pending nothing changes |
| NavigationBar.Navigation.OnPromptClose | src/components/Navigation.jsx:91-97 | the prompt closes and the slot clears. If `best` was pending at render, the bucket is set back to that render's bucket |
| NavigationBar.Navigation.RunPromptEffects | src/components/Navigation.jsx:89-101 | the gallery prompt's calls run in order with one render's values. A pending `best` ends back at the render's bucket, with the grant stored |
| NavigationBar.Navigation.SubmitPassword | src/components/PasswordModal.jsx:29-32 | wrong password: bucket, store, slot and prompt flag unchanged. Right password: `gallery` granted and prompt closed, but with `best` pending the bucket ends where it was. The pending slot keeps holding nothing or `best` |
| NavigationBar.Navigation.SubmitPasswordFixed | src/components/Navigation.jsx:40-45 | corrected: with `best` pending, the right password leaves `best` selected. The pending slot keeps holding nothing or `best` |
| NavigationBar.Navigation.PromptKeyPress | src/components/PasswordModal.jsx:49-53 | Enter in the gallery prompt behaves as `SubmitPassword`. Other keys change nothing, the prompt's password and isLoading included. The pending slot keeps holding nothing or `best` |
| NavigationBar.Navigation.CancelPrompt | src/components/PasswordModal.jsx:73 | cancel clears the slot and closes the prompt. The current bucket stays, and a pending `best` writes it back explicitly |
| Session.ChangeSort | src/components/Navigation.jsx:35-38 | both the bar and the list end up with exactly the chosen selector |
| Session.OpenBestAsWritten | src/components/Navigation.jsx:89-101 | from a fresh browser, a wrong password leaves `photo`. The right one stores the grant, but the bucket is still `photo` and the next fetch asks for `photo` |
| Session.OpenBestFixed | src/components/Navigation.jsx:40-45 | with the corrected callbacks the bucket becomes `best`, and the next fetch is exactly one request for page 1 of `best` |
| Session.DeleteOnSecondPage | src/components/PhotoList.jsx:115-124 | deleting `a.jpg` on page 2 of 3 sends one delete request and then a listing request for page 2, not 1. The page stays 2 |

## Left out

- `src/components/UploadPhoto.jsx` (the upload loop and its floating-point progress) and `src/App.jsx` (routes and layout) are not part of this model.
- HTTP calls, toasts, clipboard writes, `localStorage` as a browser API, `Date.now` and all rendering or styling. Network answers are parameters (`ListResponse`, `deleted`). The clipboard text and the requests are results. The store is a map and the clock is `now`.
- Asynchrony. Each handler is one atomic step, and a response is applied when it is passed in. The code does not discard stale responses and neither does the model.
- The automatic re-run of the fetch effect when the bucket, page or selector changes. `FetchPhotos` is a separate step that the caller runs after such a change. The same holds for re-registering the key listener.
- JavaScript `parseInt` beyond an optional sign and leading decimal digits: leading whitespace, the `0x` hexadecimal branch, and floating-point rounding of very long numbers. Integers are unbounded.
- Purposes other than `gallery` and `delete`. For those the source has no expiry time and never expires; the model restricts purposes to a two-value datatype.
- Password confidentiality. Only the equality check is modelled.
- `Photo` carries only its `key`, the one field the front end reads. Two photos with the same key are the same photo.
- The `photoToDelete` hook. It is declared but never set or read.
- The number input's stepper buttons and clamping (`NumberInput` with `min`, `max`, and `clampValueOnBlur={false}`). Only the text it reports through `onChange` is modelled.
- Whether the prompt or lightbox is visible when its handler runs. The handlers do not test this, so the methods do not require it.
- PhotoListView.PhotoList.NextPage: the range invariant is stated only when 1 <= page <= totalPages holds beforehand. The buttons compare with `===`. With `totalPages` 0, or with the page past the end after a bucket switch, Next stays enabled and moves further out.
- PhotoListView.PhotoList.PrevPhoto: `selectedPhoto == photos[index]` is stated only when the index was in range beforehand. An index left stale by a refetch is neither re-resolved nor closed by the code.

## Behaviour the code does not have

The model follows the code in each case below.

- An unrecognised sort selector gets no default (src/components/PhotoList.jsx:67). `SortParts` of `unknown` gives field `unknown` and an `undefined` order, which the URL writes as `order=undefined`.
- A late response is applied when it arrives, even if a newer query has been sent since (src/components/PhotoList.jsx:68-72).
- The lightbox keeps its index and photo when a refetch replaces the list (src/components/PhotoList.jsx:70-72, 152-157). Nothing re-resolves or closes it.
- Next can move the page past `totalPages` when the page is already outside `[1, totalPages]` (src/components/PhotoList.jsx:410-415). With `totalPages` at 0 the button stays enabled on page 1. See `NextPage` above.

## Findings

| source | as written | input that shows it | evidently intended | confidence | as-written member | corrected member |
|---|---|---|---|---|---|---|
| src/components/Navigation.jsx:91-96 | After a correct password, `onClose` runs right after `onSuccess`. It still sees the render's `pendingBucket === 'best'`, so it sets the bucket back to the render's `currentBucket`, undoing the switch `handlePasswordSuccess` made | current bucket `photo`, no grant. Select `best`, type `password`, confirm. The `gallery` grant is stored but the bucket stays `photo` | a correct password selects `best`. Only a cancel goes back | not executed; medium (assumes the last `setSearchParams` of one handler wins) | NavigationBar.Navigation.SubmitPassword | NavigationBar.Navigation.SubmitPasswordFixed |
