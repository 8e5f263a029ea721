# Travel-Ease in Dafny

A model of the logic inside the Travel-Ease travel-planning site (a Next.js
application): the email validator and the newsletter subscription endpoint,
the subscription form's state machine, the trip countdown, trip-day generation
and itinerary editing, the packing checklist, the moodboard canvas and its
sticker palette, the travel-tip filter, the quote pager, the navbar's
scroll rule and the first-visit welcome gate. The React handlers become pure
functions over immutable records; animations, timers, the clock, random
numbers and the network become parameters or abstract events.

One module per source file, plus two shared modules:

- `Wrappers`: `Option` and `Result`.
- `Lists`: `filter`, `findIndex`, `slice(0, n)` and `Array.from(new Set(...))`
  over sequences, with the lemmas the rest of the model reuses.

Each operation has a partner lemma. The partner is either an inverse
(toggle twice, rotate back, add then delete), an invariant (the form's
reachable states, the quote pager's shape, unique activity ids), or an
independent reference definition (the regex read as a split of the string,
the countdown's re-composition into whole seconds, Clear All as deleting
every sticker).

## Model

| member | source | states |
|---|---|---|
| EmailValidation.IndexOf | schema/ValidateEmail.ts:4 | `indexOf`: -1 exactly when the character is absent, otherwise the position of its first occurrence |
| EmailValidation.LastIndexOf | schema/ValidateEmail.ts:4-5 | `lastIndexOf`: -1 exactly when the character is absent, otherwise the position of its last occurrence |
| EmailValidation.BasicFormatMatchesPattern | schema/ValidateEmail.ts:2 | the executable regex check accepts exactly the strings that split as non-empty `[^\s@]+` local part, `@`, `[^\s@]+` domain head, `.`, `[^\s@]+` tail |
| EmailValidation.BasicFormatValid | schema/ValidateEmail.ts:2 | an accepted string has its first `@` after a non-empty local part and at least five characters; it accepts exactly the regex language (BasicFormatMatchesPattern) |
| EmailValidation.HasDoubleDot | schema/ValidateEmail.ts:6 | `includes('..')` holds exactly when some two-character window of the string is ".." |
| EmailValidation.ValidateEmail | schema/ValidateEmail.ts:1-8 | an accepted address has at least six characters, as "a@b.co"; BasicFormatMatchesPattern, ValidEmailShape, ValidEmailHasTld, ValidEmailHasNoDoubleDot and ValidEmailDomainRule pin down the rest |
| EmailValidation.BasicFormatSound | schema/ValidateEmail.ts:2 | whatever the executable check accepts has such a split |
| EmailValidation.BasicFormatComplete | schema/ValidateEmail.ts:2 | every such split, at any `.` after the `@`, is accepted by the executable check |
| EmailValidation.ClientAcceptanceImpliesServer | schema/ValidateEmail.ts:2-7 | an address `validateEmail` accepts matches the regex the route tests |
| EmailValidation.ValidEmailShape | schema/ValidateEmail.ts:2-3 | an accepted address has no whitespace, exactly one `@` after a non-empty local part, and a `.` in the domain that is neither its first nor its last character |
| EmailValidation.ValidEmailHasNoDoubleDot | schema/ValidateEmail.ts:6 | an accepted address contains no `..` |
| EmailValidation.ValidEmailHasTld | schema/ValidateEmail.ts:5 | in an accepted address at least two characters follow the last `.` |
| EmailValidation.ValidEmailDomainRule | schema/ValidateEmail.ts:4 | in an accepted address a `.` right after the `@` requires an earlier `.` in the local part |
| EmailValidation.NeedsAtAndDot | schema/ValidateEmail.ts:1-8 | an accepted address has an `@` and a `.` after it |
| EmailValidation.IndexOfIs | schema/ValidateEmail.ts:4 | the first occurrence of a character is where `indexOf` finds it |
| EmailValidation.LastIndexOfIs | schema/ValidateEmail.ts:4-5 | the last occurrence of a character is where `lastIndexOf` finds it |
| EmailValidation.AcceptsTwoLetterTld | schema/ValidateEmail.ts:5 | "a@b.co" is accepted |
| EmailValidation.DotAfterAtExampleFormat | schema/ValidateEmail.ts:2 | "x.y@.b.com" matches the regex |
| EmailValidation.AcceptsDotAfterAtWhenLocalHasDot | schema/ValidateEmail.ts:4 | "x.y@.b.com" is accepted: the domain rule compares the first `.` of the whole string, so a `.` in the local part lets a domain start with `.` |
| EmailValidation.RejectedExamples | schema/ValidateEmail.ts:2-6 | "a@b.c", "a@.b.com", "a@b..com" and "not-an-email" are rejected |
| SubscribeRoute.HandleSubscribe | app/api/subscribe/route.ts:8-48 | the status is 200, 400 or 500. It is 400 "Invalid email address" exactly when the body parsed but the email is missing or fails the regex, and then nothing is sent. A send happens exactly when the email passes, and goes to that email. It is 200 with success, "Subscription successful!" and the send id exactly when the send delivered. A reported send error gives 500 "Failed to send welcome email". A throw gives 500 "Internal server error". |
| SubscribeRoute.ClientValidatedPassesRoute | app/api/subscribe/route.ts:12-23 | an address the client accepts is never refused with 400 and is the recipient of the send |
| SubscriptionForm.HandleSubmit | components/newsletter/subscription-form.tsx:44-64 | an address the validator rejects gives `error` with "Please enter a valid email address" and no request; an accepted one gives `submitting` and one POST of `{email}`; the email is kept |
| SubscriptionForm.FailureMessage | components/newsletter/subscription-form.tsx:67-69 | the message shown after a non-OK reply is never empty |
| SubscriptionForm.ThrownMessage | components/newsletter/subscription-form.tsx:86 | a thrown `Error` shows its own message; anything else thrown shows "Failed to subscribe. Please try again." |
| SubscriptionForm.OnEmailChange | components/newsletter/subscription-form.tsx:150-156 | the field takes the new text; in `error` the status returns to `idle` and the message is cleared; otherwise nothing else changes |
| SubscriptionForm.Next | components/newsletter/subscription-form.tsx:133-174 | a request is issued only by a submit while the button is enabled, and it posts the current email |
| SubscriptionForm.SubmitInvalidStaysLocal | components/newsletter/subscription-form.tsx:47-51 | submitting a rejected address sets `error` with the local message, sends nothing and keeps the text |
| SubscriptionForm.SubmitValidPosts | components/newsletter/subscription-form.tsx:53-64 | submitting an accepted address moves to `submitting` and posts that address |
| SubscriptionForm.SubmitBlockedIsNoOp | components/newsletter/subscription-form.tsx:133-174 | a submit while submitting, in `success` (form not shown) or with a blank email changes nothing and sends nothing |
| SubscriptionForm.ValidEmailIsNotBlank | components/newsletter/subscription-form.tsx:47-174 | every address the validator accepts has a non-blank trimmed form, so the button is enabled for it |
| SubscriptionForm.ResponseOkSucceeds | components/newsletter/subscription-form.tsx:71-81 | an OK reply gives `success`, confetti on, an empty field, and both timers pending |
| SubscriptionForm.FailureShowsMessage | components/newsletter/subscription-form.tsx:67-69 | a non-OK reply gives `error` with the reply's `error` text, or "Subscription failed" when that is empty or missing; a thrown `Error` shows its message and anything else "Failed to subscribe. Please try again."; the email is kept |
| SubscriptionForm.EditResetsError | components/newsletter/subscription-form.tsx:150-160 | editing in `error` returns to `idle` with no message; in `idle` only the email changes; while submitting or in `success` nothing changes |
| SubscriptionForm.TimersAfterSuccess | components/newsletter/subscription-form.tsx:75-81 | after a success the 7 s timer turns confetti off and the 8 s timer returns the form to `idle` |
| SubscriptionForm.NextKeepsInv | components/newsletter/subscription-form.tsx:11-174 | every event keeps the invariant: `success` shows an empty field, and confetti is on only while a timer that turns it off is pending |
| SubscriptionForm.RunKeepsInv | components/newsletter/subscription-form.tsx:11-174 | any sequence of events keeps that invariant |
| SubscriptionForm.ReachableSatisfiesInv | components/newsletter/subscription-form.tsx:11-15 | every state reachable from the initial one satisfies the invariant |
| TripCountdown.CalculateTimeLeft | components/features/planner/TripCountdwon.tsx:35-54 | the fields are in range (hours below 24, minutes and seconds below 60, all non-negative); a non-positive difference gives all zeros; a positive one breaks down into exactly its whole seconds |
| TripCountdown.Recompose | components/features/planner/TripCountdwon.tsx:46-49 | days·86400 + hours·3600 + minutes·60 + seconds equals the difference in whole seconds |
| TripCountdown.BreakdownUnique | components/features/planner/TripCountdwon.tsx:10-15 | two in-range readings with the same total are equal, so each remaining second has one reading |
| TripCountdown.CountdownExamples | components/features/planner/TripCountdwon.tsx:44-50 | 90 061 000 ms reads one day, hour, minute and second; less than a second reads all zeros |
| TripPlanner.DaysFrom | components/features/planner/TravelPanner.tsx:28-44 | the loop's output after `n` rounds: `n` blank days on consecutive dates from the start |
| TripPlanner.GenerateTripDays | components/features/planner/TravelPanner.tsx:27-44 | seven days; day `i` falls on the start date plus `i`, with empty notes and no activities |
| TripPlanner.InitialPlanner | components/features/planner/TravelPanner.tsx:24-46 | the initial trip starts 15 days from today, goes to "Santorini", and its seven days are blank and fall on consecutive dates from the trip date |
| TripPlanner.UpdateTripInfo | components/features/planner/TravelPanner.tsx:48-58 | as written: the new date and destination are stored, and the days are regenerated blank but from the previous trip date |
| TripPlanner.OnDateInput | components/features/planner/TravelPanner.tsx:88-95 | a cleared date field (an Invalid Date) ends in the RangeError that `toISOString()` throws on the next render; a picked date is stored with the destination kept and the days regenerated from the previous date |
| TripPlanner.OnDestinationInput | components/features/planner/TravelPanner.tsx:104-112 | typing stores the text as destination with the current date, and seven days restart blank from that date |
| TripPlanner.DateThenTypingResyncs | components/features/planner/TravelPanner.tsx:88-112 | once the update for a picked date has landed, a keystroke in the destination field puts the days onto the picked date |
| TripPlanner.UpdateTripInfoKeepsStaleDates | components/features/planner/TravelPanner.tsx:30-58 | after a date change the days do not match the stored date; the first day is still on the old date |
| TripPlanner.SecondUpdateResyncs | components/features/planner/TravelPanner.tsx:94-109 | a second update with the same date brings the days back onto it |
| TripPlanner.UpdateTripInfoIntended | components/features/planner/TravelPanner.tsx:48-58 | corrected: the regenerated days start at the new date |
| TripPlanner.InitialDatesMatch | components/features/planner/TravelPanner.tsx:24-46 | the initial days match the trip date |
| DailyPlanner.WithActivities | components/features/planner/DailyPlanner.tsx:32-42 | replacing one day's activities leaves every other day unchanged |
| DailyPlanner.AddActivity | components/features/planner/DailyPlanner.tsx:31-43 | the active day gains exactly one activity at the end: "New Activity", "12:00", "Add description here", no location, medium priority, under the fresh id. Its earlier activities, date and notes and all other days are unchanged. |
| DailyPlanner.NewActivity | components/features/planner/DailyPlanner.tsx:33-40 | the default activity: the given id, "New Activity" at "12:00", "Add description here", no location, medium priority |
| DailyPlanner.UpdateNotes | components/features/planner/DailyPlanner.tsx:59-63 | only the active day's notes change |
| DailyPlanner.ApplyUpdate | components/features/planner/DailyPlanner.tsx:72-75 | the named field takes the new value (ApplyUpdateChangesOneField gives the frame) |
| DailyPlanner.ApplyUpdateChangesOneField | components/features/planner/DailyPlanner.tsx:72-75 | a field update changes only the named field and never the id |
| DailyPlanner.FindActivity | components/features/planner/DailyPlanner.tsx:67-69 | `findIndex` by id: none exactly when no activity has the id, otherwise the first one that has it |
| DailyPlanner.UpdateActivity | components/features/planner/DailyPlanner.tsx:65-79 | no update (the callback is not called) exactly when the id is absent from the active day; otherwise only the first matching activity changes, by that one field |
| DailyPlanner.WithoutId | components/features/planner/DailyPlanner.tsx:94-96 | the filter removes every activity with the id and keeps every other one |
| DailyPlanner.WithoutIdMultiset | components/features/planner/DailyPlanner.tsx:94-96 | every copy of an activity with the id goes; every other activity stays exactly as many times as before |
| DailyPlanner.DeleteActivity | components/features/planner/DailyPlanner.tsx:82-102 | the active day loses every activity with the id and keeps the others; its date, notes and the other days are unchanged |
| DailyPlanner.DeleteActivityMultiset | components/features/planner/DailyPlanner.tsx:82-102 | on the active day, only the copies of activities with the id disappear; the others keep their multiplicity |
| DailyPlanner.WithoutAbsentId | components/features/planner/DailyPlanner.tsx:94-96 | deleting an absent id changes nothing |
| DailyPlanner.WithoutIdAppend | components/features/planner/DailyPlanner.tsx:94-96 | deletion keeps the order of the rest: it distributes over concatenation |
| DailyPlanner.AddThenDeleteRestores | components/features/planner/DailyPlanner.tsx:42-96 | adding under a fresh id and deleting that id restores the days |
| DailyPlanner.EditsKeepIdsUnique | components/features/planner/DailyPlanner.tsx:31-96 | with distinct ids and a fresh id for additions, adding, updating and deleting keep the ids distinct |
| DailyPlanner.SelectDay | components/features/planner/DailyPlanner.tsx:28-161 | choosing a day changes which day is active and no trip data |
| DailyPlanner.EditsKeepDayCount | components/features/planner/DailyPlanner.tsx:31-96 | every edit keeps the seven days |
| PackingChecklist.FindItem | components/features/packing/PackingChecklist.tsx:17-19 | `findIndex` by id: none exactly when the id is absent, otherwise the first item that has it |
| PackingChecklist.Toggle | components/features/packing/PackingChecklist.tsx:16-57 | an absent id changes nothing; otherwise only the first matching item's `packed` flips; every other field and item is kept |
| PackingChecklist.ToggleTwice | components/features/packing/PackingChecklist.tsx:21-24 | toggling the same id twice restores the list |
| PackingChecklist.Essential | components/features/packing/PackingChecklist.tsx:60 | the essential group holds exactly the essential items |
| PackingChecklist.Optional | components/features/packing/PackingChecklist.tsx:61 | the optional group holds exactly the non-essential items |
| PackingChecklist.GroupsPartition | components/features/packing/PackingChecklist.tsx:60-61 | the two groups together hold every item exactly as often as the list does, and their sizes add up to the total |
| PackingChecklist.PackedCount | components/features/packing/PackingChecklist.tsx:214 | "Items packed" is the number of positions that hold a packed item, so never more than the total |
| PackingChecklist.ToggleMovesCount | components/features/packing/PackingChecklist.tsx:16-24 | a toggle changes the packed count by one in the direction of the flip, or not at all for an absent id |
| PackingChecklist.RoundHalfUp | components/features/packing/PackingChecklist.tsx:220 | `Math.round(num / den)` on non-negative values: the integer nearest the quotient, halves rounded up |
| PackingChecklist.RoundMonotone | components/features/packing/PackingChecklist.tsx:220 | rounding is monotone in the numerator |
| PackingChecklist.RoundExact | components/features/packing/PackingChecklist.tsx:220 | an exact quotient rounds to itself |
| PackingChecklist.Progress | components/features/packing/PackingChecklist.tsx:209-220 | no percentage exactly for the empty list (the source divides by zero). Otherwise a value from 0 to 100 within half a unit of `100·packed/total`, halves rounding up |
| PackingChecklist.ProgressHalfPacked | components/features/packing/PackingChecklist.tsx:214-220 | two packed items out of four show 50 % |
| PackingChecklist.ProgressEnds | components/features/packing/PackingChecklist.tsx:220 | nothing packed shows 0 %, everything packed 100 % |
| PackingChecklist.ProgressMonotone | components/features/packing/PackingChecklist.tsx:220 | packing one more item never lowers the percentage |
| PackingChecklist.RoundingExamples | components/features/packing/PackingChecklist.tsx:220 | 2 of 4 shows 50, 1 of 3 shows 33, 2 of 3 shows 67, 1 of 8 shows 13 |
| Stickers.FilteredStickers | components/features/moodboard/MoodboardBuilder.tsx:32-34 | the palette under a tab keeps exactly the stickers of that time or of "anytime" |
| Stickers.PaletteLength | data/mockStickers.ts:4-163 | the catalogue has 30 entries |
| Stickers.PaletteIdsDistinct | data/mockStickers.ts:4-163 | catalogue ids are pairwise distinct |
| Stickers.GroupsTagged | data/mockStickers.ts:5-162 | each block of the catalogue carries one tag |
| Stickers.RepeatedImages | data/mockStickers.ts:44-160 | image URLs are not a key: camera.png and sunglasses.png each appear twice |
| Stickers.FilterTagged | components/features/moodboard/MoodboardBuilder.tsx:32-34 | a single-tag group is shown whole or hidden whole |
| Stickers.FilterGroups | components/features/moodboard/MoodboardBuilder.tsx:32-34 | filtering five single-tag groups keeps the tab's own group followed by the anytime group |
| Stickers.FilterFive | components/features/moodboard/MoodboardBuilder.tsx:32-34 | the filter distributes over the five groups |
| Stickers.PaletteTabs | components/features/moodboard/MoodboardBuilder.tsx:32-34 | under a tab the palette shows that time's five stickers followed by the ten anytime ones, in catalogue order |
| Stickers.PaletteTabSizes | components/features/moodboard/MoodboardBuilder.tsx:32-34 | 10 stickers under "anytime", 15 under any other tab |
| Stickers.TaggedWith | data/mockStickers.ts:5-162 | the entries tagged exactly a given time |
| Stickers.TaggedGroup | data/mockStickers.ts:5-162 | a single-tag group is all tagged the time or has nothing tagged it |
| Stickers.TaggedGroups | data/mockStickers.ts:5-162 | over five single-tag groups only the group of the asked tag counts |
| Stickers.TagCounts | data/mockStickers.ts:5-162 | five entries per time of day and ten tagged "anytime" |
| Moodboard.ScaledDrawSpread | components/features/moodboard/MoodboardBuilder.tsx:69-70 | a `Math.random()` draw times a limit lies between 0 and the limit |
| Moodboard.NewPlaced | components/features/moodboard/MoodboardBuilder.tsx:67-75 | the new sticker has the palette entry's image and tag, the fresh id, scale 1, a tilt in [-15, 15) and a position within the canvas less 100 |
| Moodboard.Place | components/features/moodboard/MoodboardBuilder.tsx:61-94 | as written: no canvas, no change; otherwise the board gains one sticker at the end with z-index one more than the number of stickers, and the others are unchanged |
| Moodboard.TopZ | components/features/moodboard/MoodboardBuilder.tsx:73 | one more than the highest z-index on the board (1 when empty) |
| Moodboard.PlaceOnTop | components/features/moodboard/MoodboardBuilder.tsx:61-94 | corrected: the new sticker's z-index exceeds every z-index on the board |
| Moodboard.PlaceCanLandBelow | components/features/moodboard/MoodboardBuilder.tsx:73 | as written, a sticker placed beside a survivor with z-index 3 gets z-index 2 and lands below it; the corrected placement lands above it |
| Moodboard.SurvivorIsReachable | components/features/moodboard/MoodboardBuilder.tsx:73-145 | placing three stickers and deleting the first two leaves one with z-index 3 |
| Moodboard.DeleteFirst | components/features/moodboard/MoodboardBuilder.tsx:145 | deleting the id that only the first sticker has drops exactly that sticker |
| Moodboard.Rotate | components/features/moodboard/MoodboardBuilder.tsx:97-114 | every sticker with the id turns by -15 (left) or +15 (right) degrees; nothing else changes |
| Moodboard.Scale | components/features/moodboard/MoodboardBuilder.tsx:117-134 | every sticker with the id changes scale by +0.1 or -0.1; nothing else changes |
| Moodboard.DragEnd | components/features/moodboard/MoodboardBuilder.tsx:46-55 | the dragged sticker stores the x and y Draggable reports for the drag; only its x and y change |
| Moodboard.Delete | components/features/moodboard/MoodboardBuilder.tsx:137-148 | every sticker with the id goes and every other one stays |
| Moodboard.DeleteMultiset | components/features/moodboard/MoodboardBuilder.tsx:145 | every copy of a sticker with the id goes; every other sticker stays exactly as many times as before |
| Moodboard.RotateBack | components/features/moodboard/MoodboardBuilder.tsx:101 | turning left then right, or right then left, restores the board |
| Moodboard.ScaleBack | components/features/moodboard/MoodboardBuilder.tsx:121 | growing then shrinking, or the reverse, restores the board |
| Moodboard.ShrinkHasNoFloor | components/features/moodboard/MoodboardBuilder.tsx:121 | no lower bound: shrinking below one step gives a negative scale |
| Moodboard.RotateTwice | components/features/moodboard/MoodboardBuilder.tsx:101 | two turns the same way add up to 30 degrees |
| Moodboard.DragEndLastWins | components/features/moodboard/MoodboardBuilder.tsx:48-53 | dropping twice equals dropping at the second position |
| Moodboard.DeleteAbsent | components/features/moodboard/MoodboardBuilder.tsx:145 | deleting an absent id changes nothing |
| Moodboard.PlaceThenDelete | components/features/moodboard/MoodboardBuilder.tsx:61-145 | placing under a fresh id and deleting it restores the board |
| Moodboard.DeleteEachKeepsOthers | components/features/moodboard/MoodboardBuilder.tsx:145 | deleting ids one after another keeps exactly the stickers whose id is none of them, in order |
| Moodboard.ClearAll | components/features/moodboard/MoodboardBuilder.tsx:415 | no sticker of the board survives, and the next sticker will be stacked at z-index 1 |
| Moodboard.ClearAllDeletesEverything | components/features/moodboard/MoodboardBuilder.tsx:415 | Clear All leaves the board as deleting every sticker on it, one by one, would |
| Moodboard.ClearAllRestartsStacking | components/features/moodboard/MoodboardBuilder.tsx:73-415 | after Clear All the next sticker is alone with z-index 1, as the corrected placement would put it |
| TravelTips.CategoryName | components/features/tips/TravelTips.tsx:15 | each category is known by a non-empty lower-case name that is not "all" |
| TravelTips.CategoryNamesDistinct | components/features/tips/TravelTips.tsx:15 | the six category names are distinct and none is "all" |
| TravelTips.FilteredTips | components/features/tips/TravelTips.tsx:269-273 | "all" shows every tip in order; a category name shows exactly the tips of that category |
| TravelTips.ShownUnderOwnCategory | components/features/tips/TravelTips.tsx:272 | a tip appears under a category's button exactly when it has that category |
| TravelTips.UnknownSelectionShowsNothing | components/features/tips/TravelTips.tsx:272 | a selection that is neither "all" nor a category name shows no tip |
| TravelTips.Categories | components/features/tips/TravelTips.tsx:264 | the category of each tip, in tip order |
| TravelTips.UniqueCategories | components/features/tips/TravelTips.tsx:263-266 | each tip's category exactly once, in order of first appearance |
| TravelTips.KeyCategory | components/features/tips/TravelTips.tsx:145-156 | the category a key names, none exactly when it names no category |
| TravelTips.Icon | components/features/tips/TravelTips.tsx:56-65 | every category has a non-empty emoji in the table, never the pin fallback |
| TravelTips.CategoryIcon | components/features/tips/TravelTips.tsx:56-67 | the pin exactly for a key that is no category name, otherwise that category's emoji |
| TravelTips.IconsDistinct | components/features/tips/TravelTips.tsx:56-67 | no category shows the pin, and different categories show different icons |
| TravelTips.PageButtons | components/features/tips/TravelTips.tsx:205-266 | the page shows six category buttons: packing, safety, budgeting, photography, etiquette, general |
| TravelTips.DistinctCategoriesOneEach | components/features/tips/TravelTips.tsx:269-273 | when no two tips share a category, each category shows exactly its one tip |
| TravelTips.PageOneTipEach | components/features/tips/TravelTips.tsx:205-273 | on the page each category button shows exactly one tip |
| TripInspiration.FeaturedDestinations | components/features/inspiration/TripInspiration.tsx:137-140 | the first six destinations, or all of them when fewer |
| TripInspiration.VisibleQuotes | components/features/inspiration/TripInspiration.tsx:191-194 | the first `visible` quotes, or all when fewer |
| TripInspiration.LoadMore | components/features/inspiration/TripInspiration.tsx:197-205 | while quotes are hidden, up to three more show (all when fewer remain) and the list is expanded; otherwise it returns to three and collapses |
| TripInspiration.LoadMoreKeepsInv | components/features/inspiration/TripInspiration.tsx:118-205 | the initial state (three, collapsed) satisfies the invariant and every click keeps it: either three and collapsed, or more than three up to all and expanded |
| TripInspiration.NineQuoteCycle | components/features/inspiration/TripInspiration.tsx:151-205 | with the nine quotes the list shows 3, 6, 9, then 3 again |
| TripInspiration.Label | components/features/inspiration/TripInspiration.tsx:382 | as written, the caption is "Show Less" exactly when the list is expanded |
| TripInspiration.LabelMisleads | components/features/inspiration/TripInspiration.tsx:198-382 | after the first of nine clicks the caption says "Show Less", yet the next click shows more |
| TripInspiration.LabelIntended | components/features/inspiration/TripInspiration.tsx:197-205 | corrected: the caption says "Show Less" exactly when the next click collapses the list |
| TripInspiration.ClicksExtendShownQuotes | components/features/inspiration/TripInspiration.tsx:191-205 | a click either keeps the shown quotes as a prefix and adds after them, or shows the first three again |
| Navbar.Next | components/layout/Navbar.tsx:85-123 | a scroll records its position and leaves the menu. Going down past 100 while shown starts one more hide tween; any other scroll shows a hidden bar at once and cancels no tween. Each tween completion hides the bar and leaves one tween fewer outstanding; with none outstanding nothing happens. The toggle flips the menu. A new pathname closes the menu and changes nothing else. |
| Navbar.ToggleTwice | components/layout/Navbar.tsx:122-123 | toggling twice restores the state |
| Navbar.ScrollDownHides | components/layout/Navbar.tsx:86-93 | scrolling down past 100 while shown hides the bar once the tween completes |
| Navbar.ScrollUpShows | components/layout/Navbar.tsx:95-98 | any other scroll while hidden shows the bar |
| Navbar.LateHideAfterScrollUp | components/layout/Navbar.tsx:86-98 | scrolling down then up before the hide tween ends still leaves the bar hidden |
| Navbar.PendingTweenHides | components/layout/Navbar.tsx:87-92 | while a hide tween is outstanding, its completion hides the bar whatever happened since |
| Navbar.EveryTweenHides | components/layout/Navbar.tsx:85-105 | two scrolls down start two tweens; after a scroll up shows the bar between their completions, the second completion hides it again |
| Navbar.ActiveLinks | components/layout/Navbar.tsx:172-174 | the highlighted links are exactly those whose href equals the pathname |
| Navbar.AtMostOneActive | components/layout/Navbar.tsx:116-120 | at most one of the three links is highlighted |
| Navbar.DistinctHrefsAtMostOne | components/layout/Navbar.tsx:174 | with distinct hrefs at most one link matches any pathname |
| AnimationProvider.Mount | components/animation/animation-provider.tsx:27-42 | a returning visitor (non-empty stored flag) skips the welcome and the store is unchanged; otherwise the flag is stored as "true" and the welcome starts; the flag is present afterwards |
| AnimationProvider.SetWelcomeComplete | components/animation/animation-provider.tsx:24-49 | the setter changes only the completion flag |
| AnimationProvider.Render | components/animation/animation-provider.tsx:44-51 | nothing before mounting; afterwards the overlay shows exactly for a first visit whose welcome is not complete, and the content wrapper requests the visible class exactly when the overlay is not shown |
| AnimationProvider.UseAnimationContext | components/animation/animation-provider.tsx:14-20 | the context inside a provider, the error "useAnimationContext must be used within an AnimationProvider" outside |
| AnimationProvider.FirstVisitFlow | components/animation/animation-provider.tsx:36-51 | a first visit shows the overlay with the content wrapper requesting the hidden class, then requests the visible class once the welcome completes |
| AnimationProvider.SecondVisitSkipsWelcome | components/animation/animation-provider.tsx:30-37 | after any first mount the next mount takes the returning-visitor branch and shows the page at once |
| AnimationProvider.NeverBlankAfterMount | components/animation/animation-provider.tsx:44-51 | once mounted, either the overlay is rendered or the content wrapper requests the visible class |
| Lists.Filter | components/features/planner/DailyPlanner.tsx:94-96 | `filter` keeps exactly the elements that pass, and never grows the list |
| Lists.FilterMultiset | components/features/planner/DailyPlanner.tsx:94-96 | each passing element is kept as many times as the list holds it, each failing one dropped; the result is a sub-multiset of the list |
| Lists.FilterCountsMatches | components/features/packing/PackingChecklist.tsx:214 | the filtered length is the number of positions whose element passes |
| Lists.FilterAppend | components/features/planner/DailyPlanner.tsx:94-96 | filtering distributes over concatenation, so order is kept |
| Lists.FilterComplement | components/features/packing/PackingChecklist.tsx:60-61 | a filter and its negation split the list as a multiset |
| Lists.FilterKeepsDistinct | components/features/planner/DailyPlanner.tsx:94-96 | filtering never creates a duplicate key |
| Lists.FilterLengthUpdate | components/features/packing/PackingChecklist.tsx:214 | replacing one element changes a filtered count by what the two elements contribute |
| Lists.FilterFilter | components/features/moodboard/MoodboardBuilder.tsx:145 | filtering twice is filtering once by the conjunction |
| Lists.FindFirst | components/features/packing/PackingChecklist.tsx:17 | `findIndex`: none exactly when no element passes, otherwise the first that does |
| Lists.FirstIndex | components/features/tips/TravelTips.tsx:264-265 | the position of the first occurrence, or the length when absent |
| Lists.Dedup | components/features/tips/TravelTips.tsx:264-265 | `Array.from(new Set(...))`: no repeats, every element present, in order of first occurrence |
| Lists.DedupOfDistinct | components/features/tips/TravelTips.tsx:264-265 | a list without repeats is its own deduplication |
| Lists.Take | components/features/inspiration/TripInspiration.tsx:138-192 | `slice(0, n)`: the first `n` elements, or all when fewer |
| Lists.TakeGrows | components/features/inspiration/TripInspiration.tsx:192 | a larger slice starts with the smaller one |

## Left out

- GSAP, DOM lookups and animation gating: deletions (activities, stickers) are modelled as immediate, as if the element exists and its exit tween completes.
- TripPlanner.UpdateTripInfo: applied at once, whereas the source stores the date, destination and days in a timeline `onComplete` 0.3 s later. Overlapping updates are not modelled: a keystroke typed before the previous tween ends is lost, because the controlled field still shows the old destination. A keystroke typed before a date change lands reuses the old date and puts it back. `OnDestinationInput` and `TripPlanner.DateThenTypingResyncs` speak of updates that land one at a time.
- SubscriptionForm.Next: a `Submit` event is a submit that the browser's own check of the `type="email"` field let through; that check (the HTML email grammar, which for example refuses "x.y@.b.com" and "not-an-email" before `handleSubmit` runs) is not modelled. An `Edit` value is the already-sanitised field value (line breaks removed, surrounding white space trimmed).
- Timers (`setTimeout`, `setInterval`) are abstract events. The countdown's clock is an integer `now` parameter. `Date.now()` ids and `Math.random()` draws are parameters (`freshId`, draws in [0, 1)).
- Locale and timezone formatting of dates (`toLocaleDateString`); dates are day numbers and adding `i` days stands for `setDate(getDate() + i)`.
- TripPlanner.UpdateTripInfo: takes a valid day number only. The Invalid Date a cleared field produces is handled one level up, in `TripPlanner.OnDateInput`, as the render failure it causes; the partly updated state left behind that failure is not modelled.
- IEEE-754 arithmetic. Sticker geometry is exact reals: `Moodboard.ScaleBack` holds on reals, but in doubles `1 + 0.1 - 0.1` need not be exactly 1.
- TripCountdown.CalculateTimeLeft: the source divides in floating point and floors. The model uses integer division, which agrees for positive integer differences in exact arithmetic.
- PackingChecklist.Progress: returns no value for an empty list, where the source shows `NaN%`. It rounds the exact rational `100·packed/total`, while the source computes `(packed/total)*100` in doubles before `Math.round`.
- EmailValidation works on Unicode scalar values. JavaScript counts UTF-16 code units, so the TLD length rule can differ for characters outside the Basic Multilingual Plane. `\s` is given as the ECMAScript white-space and line-terminator set.
- SubscribeRoute.HandleSubscribe: an `email` that is a non-string truthy JSON value (a number, an object) is not modelled; the body is unparseable, or its email is absent or a string.
- The fetch/JSON transport of the form, the Resend client and the React Email template (email/subscription-confirmation.tsx) are not part of this model; the send is an abstract outcome.
- DailyPlanner.UpdateActivity: only the five editable fields (title, time, description, location, priority) are updatable. The source's `keyof Activity` also admits `id`, which the page never edits.
- The source mutates the shared activity arrays of the previous state (`push` on a shallow copy); the model's days are values, so that aliasing is not modelled.
- TravelTips: tip content and images are left out; `getCategoryIcon` keys are compared as plain strings, so inherited object keys such as "constructor" are not modelled.
- MoodboardBuilder's background picker, `handleTimeOfDayChange` (tab change with an animation) and `handleBackgroundChange` are not modelled beyond the initial tab.
- Logging: the `console.error` calls of app/api/subscribe/route.ts (lines 26 and 43) and components/newsletter/subscription-form.tsx (line 84), and the `console.log` calls of components/animation/animation-provider.tsx (lines 35 and 40), have no effect on state and are not modelled.
- The welcome animation's own sequencing and fallback timer (welcome-animation.tsx) are not part of this model.
- CurrencyConverter (floating-point conversion over a rate table; data/mockCurrencies is not part of this model), the static destination catalogues, and the purely presentational components (Hero, Footer, Dialog, destination cards, theme provider and button, page layouts) are left out.

## Findings

| source | as written | input that shows it | evidently intended | confidence | as-written member | corrected member |
|---|---|---|---|---|---|---|
| components/features/planner/TravelPanner.tsx:30-58 | `updateTripInfo` regenerates the days with a `generateTripDays` that reads the trip date captured by the render, i.e. the old one | change the departure date from day D to day D+3: the stored date is D+3 but the day buttons start at D | the days start at the new departure date | medium, not executed | TripPlanner.UpdateTripInfo (TripPlanner.UpdateTripInfoKeepsStaleDates) | TripPlanner.UpdateTripInfoIntended |
| components/features/moodboard/MoodboardBuilder.tsx:73 | a new sticker's z-index is the number of stickers plus one | place three stickers (z 1, 2, 3), delete the first two, place another: it gets z 2 and is drawn below the survivor | a new sticker is drawn above every sticker already on the board | medium, not executed | Moodboard.Place (Moodboard.PlaceCanLandBelow, Moodboard.SurvivorIsReachable) | Moodboard.PlaceOnTop |
| components/features/inspiration/TripInspiration.tsx:200-382 | the button says "Show Less" whenever the list is expanded | nine quotes, one click: six shown, caption "Show Less", and the next click shows nine | "Show Less" only when the next click collapses the list | low, not executed | TripInspiration.Label (TripInspiration.LabelMisleads) | TripInspiration.LabelIntended |
