# Orders page and layout shell of a telecom infrastructure dashboard

This project models the logic of the EFIM front end: the service-orders page
and the layout shell. The remaining source files are presentation markup.

* **Order store and projection.** The page keeps the stored orders, the
  displayed orders, the search text, the status selector and a loading flag.
  A reactive effect rebuilds the displayed list from them in two steps.
  First it keeps the orders with the selected status, unless the selector is
  `'all'`. Then, when the trimmed search text is not empty, it keeps the
  orders where one of five lowercased fields contains the lowercased search
  text. The search text is lowercased but not trimmed.
  `Projection.Displayed` defines the displayed list as a single filter.
  `Page.OrdersPage.Refresh` performs the two steps one after the other and is
  proved to produce `Displayed`. The properties (subsequence, multiplicity,
  soundness and completeness, case-insensitivity, idempotence, unique ids) are
  proved about `Displayed`.
* **Status actions.** Approve and reject each raise the loading flag and
  schedule a callback. When the callback fires, it rewrites every order with
  the given id to the new status with `updated = now`, clears the flag and
  reruns the effect. `Transitions.Apply` is that rewrite. The model splits
  each action into `Page.OrdersPage.HandleApproveOrder`/`HandleRejectOrder`
  (the click) and `Page.OrdersPage.Complete` (the timer firing). This way
  both "loading while pending" and the shared flag being cleared early by
  overlapping actions can be stated. "Now" is a parameter.
* **Display tables.** These are the status badge table, the priority colours,
  the utilisation colour thresholds 90/75/50 (text colour and bar colour) and
  the six filter chips with their counts.
* **Layout.** These are the navigation highlight test, the unread-notification
  count, the notification icon and the profile e-mail. The desktop sidebar
  and the mobile sidebar both use the same highlight test,
  `Layout.IsActive`, so they highlight the same links on every location.

Strings are `seq<char>`. `trim` strips the ECMAScript whitespace and line
terminator set. `toLowerCase` is modelled for ASCII letters only. `includes`
and `startsWith` are written out.

Behaviour of the code worth noting:

* A row offers Approve on a pending order and Reject on a conflicting one.
  The detail modal offers both Reject and Approve on a pending order
  (`OrdersPage.tsx:706-725`). See `Transitions.OfferedTransitions`.
* The loading flag disables only the two row buttons. The modal's buttons
  stay enabled (see `Transitions.LoadingBlocksOnlyRows`).
* The modal judges and acts on `selectedOrder`, a copy of the order taken
  when its details were opened (`OrdersPage.tsx:489-491`). Completing an
  action rewrites the store but not that copy. So an open modal can still
  offer Reject on an order the store already holds as approved, and
  rejecting it there overwrites the approval. See
  `Page.StaleSelectionScenario`.
* A completed action writes the timestamp `now`. The model takes it as a
  parameter and promises nothing about its order relative to the old
  `updated`.

## Model

| member | source | states |
|---|---|---|
| `Text.Trim` | src/pages/OrdersPage.tsx:179 | `trim()` returns a contiguous part of the input, everything before and after it is whitespace, and it neither starts nor ends with whitespace |
| `Text.TrimEmptyIffBlank` | src/pages/OrdersPage.tsx:179 | the trimmed search text is empty exactly when every character is whitespace |
| `Text.Lower` | src/pages/OrdersPage.tsx:180-186 | lowercasing keeps the length and lowercases each character: `A`-`Z` move 32 code points to `a`-`z`, every other character is kept |
| `Text.LowerIdempotent` | src/pages/OrdersPage.tsx:180-186 | lowercasing twice equals lowercasing once |
| `Text.LowerKeepsBlank` | src/pages/OrdersPage.tsx:179-180 | a search text and its lowercase form are blank together |
| `Text.StartsWithIffConcat` | src/layouts/Layout.tsx:162 | `startsWith`, modelled by `Text.StartsWith`, holds exactly when the string is the prefix followed by some text |
| `Text.IncludesIffOccurs` | src/pages/OrdersPage.tsx:182-186 | `includes`, modelled by the scan `Text.Includes`, holds exactly when the needle occurs at some position of the field |
| `Text.CommonPrefix` | src/layouts/Layout.tsx:162 | if a location starts with two paths, one of those paths starts with the other |
| `Seqs.Filter` | src/pages/OrdersPage.tsx:175 | a filter's result is no longer than its input, and every kept element passes |
| `Seqs.FilterMultiset` | src/pages/OrdersPage.tsx:175 | a filter keeps every passing element exactly as often as it occurs and drops every other element |
| `Seqs.FilterIsSubsequence` | src/pages/OrdersPage.tsx:181 | a filter's result is a subsequence of its input |
| `Seqs.FilterFuse` | src/pages/OrdersPage.tsx:171-187 | filtering by one predicate and then by another equals filtering once by both |
| `Seqs.FilterIdempotent` | src/pages/OrdersPage.tsx:181 | filtering twice by the same predicate equals filtering once |
| `Orders.GetStatusConfig` | src/pages/OrdersPage.tsx:193-238 | each badge has a background, a text and a border colour class, and the check-circle icon appears exactly for approved and completed orders |
| `Orders.GetPriorityConfig` | src/pages/OrdersPage.tsx:241-249 | each priority has a text colour class and a background colour class |
| `Orders.StatusConfigDistinct` | src/pages/OrdersPage.tsx:193-238 | distinct statuses get distinct badge labels and distinct text colours |
| `Orders.ApprovedAndCompletedShareIcon` | src/pages/OrdersPage.tsx:202-229 | approved and completed badges use the same check-circle icon |
| `Orders.PriorityConfigDistinct` | src/pages/OrdersPage.tsx:241-249 | distinct priorities get distinct text and background colours |
| `Orders.UtilizationBand` | src/pages/OrdersPage.tsx:251-256 | red exactly from 90, orange exactly on [75,90), yellow exactly on [50,75), green exactly below 50 |
| `Orders.UtilizationBandMonotone` | src/pages/OrdersPage.tsx:251-256 | a higher utilisation never gets a lower band |
| `Orders.GetUtilizationColor` | src/pages/OrdersPage.tsx:251-256 | the text colour is the text class of the utilisation's band |
| `Orders.UtilizationBarColor` | src/pages/OrdersPage.tsx:465-467 | the bar colour is the bar class of the utilisation's band |
| `Orders.UtilizationColorsAgree` | src/pages/OrdersPage.tsx:465-467 | two utilisations share a text colour exactly when they share a bar colour, so both use the same thresholds |
| `Orders.MockOrdersIds` | src/pages/OrdersPage.tsx:64-150 | the fixture holds five orders with ids ORD-001 to ORD-005, all distinct |
| `Projection.Displayed` | src/pages/OrdersPage.tsx:171-190 | the displayed list is no longer than the store and every displayed order passes the selector and the search |
| `Projection.StatusStep` | src/pages/OrdersPage.tsx:174-176 | the status step, skipped for `'all'`, keeps exactly the orders the selector admits |
| `Projection.SearchStep` | src/pages/OrdersPage.tsx:179-188 | the search step, run only for a non-blank trimmed text, turns the admitted orders into the displayed list |
| `Projection.DisplayedIsSubsequence` | src/pages/OrdersPage.tsx:171-190 | the displayed list is a subsequence of the stored orders, in the same relative order |
| `Projection.DisplayedMultiplicity` | src/pages/OrdersPage.tsx:171-190 | a shown order is displayed as often as it is stored, any other order never, so no duplicates are introduced |
| `Projection.DisplayedSoundAndComplete` | src/pages/OrdersPage.tsx:174-187 | an order is displayed iff it is stored, has the selected status unless the selector is `'all'`, and, for a non-blank text, one of its five lowercased fields contains the lowercased untrimmed text |
| `Projection.DisplayedAllWhenUnfiltered` | src/pages/OrdersPage.tsx:174-179 | with `'all'` and a blank search text the displayed list equals the stored list |
| `Projection.DisplayedCaseInsensitive` | src/pages/OrdersPage.tsx:180-187 | two search texts with the same lowercase form display the same list |
| `Projection.DisplayedIdempotent` | src/pages/OrdersPage.tsx:171-190 | projecting the displayed list again with the same selector and text changes nothing |
| `Projection.DisplayedKeepsUniqueIds` | src/pages/OrdersPage.tsx:171-190 | unique stored ids stay unique in the displayed list |
| `Projection.StatusCount` | src/pages/OrdersPage.tsx:348-352 | a status chip's count is at most the number of orders, and zero exactly when no order has that status |
| `Projection.FilterChips` | src/pages/OrdersPage.tsx:346-352 | six chips: `'all'` counting every order, and one chip per status other than `rejected` counting that status; no two chips set the same selector |
| `Projection.StatusCountIsOccurrences` | src/pages/OrdersPage.tsx:348-352 | a status chip's count is the number of stored orders with that status |
| `Projection.ChipCountIsRowCount` | src/pages/OrdersPage.tsx:347-352 | each chip's count, including `'all'` (the number of orders), equals the number of rows shown when that chip is selected and the search text is blank (any whitespace-only text) |
| `Projection.StatusChipsSum` | src/pages/OrdersPage.tsx:347-352 | the five status chips add up to the `'all'` count minus the rejected orders, which have no chip |
| `Projection.FixtureStatusViews` | src/pages/OrdersPage.tsx:64-150 | on the fixture, selecting the status of one of the five orders displays that order alone |
| `Projection.FixtureRejectedView` | src/pages/OrdersPage.tsx:64-150 | on the fixture, selecting `rejected` displays nothing |
| `Projection.FixtureChipCount` | src/pages/OrdersPage.tsx:346-352 | on the fixture, the `'all'` chip counts 5 and each status chip 1 |
| `Transitions.Apply` | src/pages/OrdersPage.tsx:272-276 | the length and every id are kept; each order with the id gets the target status and `updated = now` and keeps its other fields; every other order is unchanged; the prior status is not consulted |
| `Transitions.ApplyUnknownId` | src/pages/OrdersPage.tsx:285-289 | an id that matches no order leaves the store identical |
| `Transitions.ApplyKeepsUniqueIds` | src/pages/OrdersPage.tsx:272-289 | approving or rejecting keeps the stored ids unique |
| `Transitions.ApplyLastWins` | src/pages/OrdersPage.tsx:271-292 | of two completed actions on one id, the later one decides the status and timestamp |
| `Transitions.ApplyCommutes` | src/pages/OrdersPage.tsx:271-292 | actions on different ids give the same store whichever timer fires first |
| `Transitions.Offered` | src/pages/OrdersPage.tsx:498-517 | a row offers Approve exactly on a pending order and Reject exactly on a conflicting one, and nothing while loading; the modal offers both on a pending order and nothing otherwise, whatever the flag |
| `Transitions.OfferedTransitions` | src/pages/OrdersPage.tsx:498-517 | judged by the status the row or the open modal shows, some button offers an action exactly in these cases: approve on a pending order (rows and modal); reject on a pending order (modal) or a conflicting one (rows) |
| `Transitions.LoadingBlocksOnlyRows` | src/pages/OrdersPage.tsx:706-725 | the loading flag disables the row buttons, while the modal buttons stay available |
| `Page.OrdersPage.constructor` | src/pages/OrdersPage.tsx:152-154 | after mounting, the fixture is stored and displayed, the search text is empty, the selector is `'all'` and nothing is loading |
| `Page.OrdersPage.Refresh` | src/pages/OrdersPage.tsx:170-191 | the two-step effect sets the displayed list to the projection of the current orders, selector and search text |
| `Page.OrdersPage.SetSearchQuery` | src/pages/OrdersPage.tsx:338 | typing stores the text, reruns the effect and leaves the orders, selector and flag alone |
| `Page.OrdersPage.SetSelectedFilter` | src/pages/OrdersPage.tsx:356 | clicking a chip stores the selector, reruns the effect and leaves the orders, text and flag alone |
| `Page.OrdersPage.HandleApproveOrder` | src/pages/OrdersPage.tsx:268-271 | the click raises the loading flag and schedules an approval for the id |
| `Page.OrdersPage.HandleRejectOrder` | src/pages/OrdersPage.tsx:282-284 | the click raises the loading flag and schedules a rejection for the id |
| `Page.OrdersPage.Complete` | src/pages/OrdersPage.tsx:271-279 | the callback rewrites the store by `Apply`, clears the loading flag and reruns the effect; the selected order and the modal are left as they were |
| `Page.OrdersPage.ViewDetails` | src/pages/OrdersPage.tsx:489-491 | the details button stores the row's order as the selection and opens the modal |
| `Page.OrdersPage.CloseDetails` | src/pages/OrdersPage.tsx:547 | the close button closes the modal and keeps the selection |
| `Page.OrdersPage.ModalActions` | src/pages/OrdersPage.tsx:706-725 | the open modal offers Reject and Approve exactly when the selection's status is pending, and nothing when it is closed |
| `Page.OrdersPage.ModalAction` | src/pages/OrdersPage.tsx:706-720 | a modal button schedules its action for the selection's id, raises the loading flag and closes the modal |
| `Layout.MenuItems` | src/layouts/Layout.tsx:44-50 | five menu items, each with a path of more than one character starting with `/` |
| `Layout.IsActive` | src/layouts/Layout.tsx:162-164 | a highlighted item's path is never `/`, and off `/` the location starts with it |
| `Layout.MenuPathsPrefixFree` | src/layouts/Layout.tsx:44-50 | no menu path starts with another menu path |
| `Layout.AtMostOneActive` | src/layouts/Layout.tsx:162-164 | for every location, at most one of the five menu items is highlighted |
| `Layout.ActiveItem` | src/layouts/Layout.tsx:251-253 | off `/`, an item is highlighted iff the location starts with its path; on `/`, only the dashboard is |
| `Layout.Notifications` | src/layouts/Layout.tsx:62-66 | three fixed notifications with ids 1, 2 and 3 |
| `Layout.UnreadNotifications` | src/layouts/Layout.tsx:68 | the unread count is at most the number of notifications |
| `Layout.UnreadCount` | src/layouts/Layout.tsx:68 | unread and read notifications add up to all of them; the count is positive iff some notification is unread |
| `Layout.FixedUnreadCount` | src/layouts/Layout.tsx:62-68 | two of the three fixed notifications are unread |
| `Layout.GetNotificationIcon` | src/layouts/Layout.tsx:70-77 | the info icon comes out exactly for kinds other than success, warning and error |
| `Layout.NotificationIconsDistinct` | src/layouts/Layout.tsx:70-77 | success, warning and error each get an icon that no other kind gets |
| `Layout.GetUserEmail` | src/layouts/Layout.tsx:58-60 | the e-mail is always the rendered user name followed by `@telkom.co.id`, so the fallback branch is dead |
| `Layout.FallbackOnlyForAdmin` | src/layouts/Layout.tsx:59 | the result equals `admin@telkom.co.id` only for a user actually named `admin` |
| `Layout.MissingUserEmail` | src/layouts/Layout.tsx:59 | without a user the e-mail is `undefined@telkom.co.id`, not the fallback |
| `Layout.IntendedUserEmail` | src/layouts/Layout.tsx:59 | with no user name or an empty one the fallback is used; otherwise the name followed by the domain |
| `Layout.LocalPart` | src/layouts/Layout.tsx:385 | `split('@')[0]` is the longest prefix of the e-mail that contains no `@` |
| `Layout.ProfileNameAsWritten` | src/layouts/Layout.tsx:402 | as written, the profile shows the rendered user name whenever it has no `@`, so `undefined` when there is no user |
| `Layout.ProfileName` | src/layouts/Layout.tsx:385 | with the corrected e-mail, the profile name has no `@` and is the start of the address |
| `Layout.ProfileNameShown` | src/layouts/Layout.tsx:402 | with the corrected e-mail, the profile shows a name without `@` as it is, and `admin` when there is no name |

## Findings

| source | as written | input that shows it | evidently intended | confidence | as-written member | corrected member |
|---|---|---|---|---|---|---|
| src/layouts/Layout.tsx:59 | the `||` fallback applies to the whole concatenation, which always ends in `@telkom.co.id` and so is never empty | no logged-in user (`authState.user` undefined): the address is `undefined@telkom.co.id`, and the profile shows the name `undefined` | fall back to `admin@telkom.co.id` when there is no user name | high, not executed | `Layout.MissingUserEmail` and `Layout.ProfileNameAsWritten` (about `Layout.GetUserEmail`) | `Layout.IntendedUserEmail`, used by `Layout.ProfileName`, with `Layout.ProfileNameShown` |

## Left out

- JSX rendering, CSS class strings other than the status, priority and utilisation classes, and the new-order modal's open/close state: these are presentation only. The markup inside the detail modal is not modelled beyond its buttons.
- The new-order form (`OrdersPage.tsx:750-754`): it shows an alert and never changes the store.
- The one-second `setTimeout` delay and any timer queue. A scheduled action is a `Pending` value, and firing it is a call to `Complete`. Callers may fire callbacks in any order, but nothing is modelled about when they fire.
- The `setInterval` clocks, `new Date()`, `toISOString`, `toLocaleTimeString` and `formatDate`: these depend on the host's clock and locale. The completion time is the parameter `now`.
- `alert`, `toast`, `console.log`, `localStorage`, logout and the redirect-to-login effect (`Layout.tsx:33-42`): these are side effects, or calls into `../stores/auth`, which is not part of this model.
- `src/App.tsx`, the route table: it has no logic. Its `/` route is declared twice (`App.tsx:32-33`).
- The header search box and the sidebar and dropdown toggles in the layout (`Layout.tsx:118-142`, `226`, `290`, `301`, `336`, `394`, `437`): this UI state is read only by the markup, and no modelled logic depends on it.
- Text.Lower: lowercases ASCII `A`-`Z` only. JavaScript's `toLowerCase` also lowercases other letters (for example `À`), so search texts or fields with such letters can match differently.
- Layout.GetUserEmail: covers a missing user name (rendered `undefined`) but not a `null` one (rendered `null`).
- Orders.UtilizationBand, Orders.GetUtilizationColor, Orders.UtilizationBarColor: take an integer percentage. The source's `number` may also be fractional.
- Search-text scenarios on the fixture, for example that searching for `mandiri` shows only ORD-002, are not proved. The fixture facts proved are the ids, the status-only views and chip counts in `Projection`, and, in `Page.MountedScenario`, that rejecting an id no fixture order has leaves the mounted page's store as it was. The approve, overlap and stale-selection scenarios in `Page` hold for any page that meets their demands: unique ids, or a pending first order.
