# Crux Investor front-end rules, modelled in Dafny

The Crux Investor site runs three browser scripts. They contain three small
decision rules, and this project states and proves them:

- **Ad gating and slot filling** (`crux.js`, `crux-ads.js`).
  - An ads gate stays closed on a single-company post page.
  - A weighted lottery gives each advert the weight 2^-priority.
  - `populateAdverts` matches `.advert-slot` elements to the adverts whose campaign pages list the slot's id.
  - The two scripts share lines 1-45 word for word. The `Adverts` module holds what the two `populateAdverts` functions have in common: `shouldShowAds`, `weightedRandomSelect`, and the eligibility and priority filters. `fetchAndExtractSlotIds` is not modelled (see "Left out").
  - The scripts differ only in policy:
    - `crux.js` (module `Crux`) appends every eligible priority-0 advert, then at most one weighted pick.
    - `crux-ads.js` (module `CruxAds`) appends exactly one advert or none. The advert is a uniform pick among priority-0 adverts, otherwise the weighted pick. It is tagged with the slot's `data-type`.
- **Content release schedule** (`the-con.js`, `getMemberData`, module `TheCon`).
  - The membership week is computed from the member's sign-up date.
  - Each `.postcard` is then marked "Coming soon", unlocked, or locked with an "Available in N weeks/days" label.
  - A visitor who is not logged in sees "Coming soon" on every `.post`.
- **Watch milestones** (`the-con.js`, `trackVimeo`). The fraction of a video watched is rounded down to a multiple of 10 percent.

## How the model is built

- **Inputs.**
  - The random draw `Math.random()` and the clock `new Date()` are parameters.
    - `u` is the draw, one per slot.
    - `now` is the time in integer milliseconds since the epoch.
  - Each advert's scraped slot ids are given. They are `[]` when the fetch failed.
- **Slots.**
  - A slot is a class `Slot`.
  - Its `data-ad-slot` and `data-type` attributes are constants.
  - `children` is a sequence that `AppendChild` extends.
  - The populate methods loop over a sequence of distinct slots and change only those slots' children.
- **Weighted lottery.**
  - Weights are exact reals.
  - `WeightedRandomSelect` keeps the source's loop, which subtracts one weight at a time.
  - It is proved equal to `WeightedPick`, which returns the first index whose running total exceeds the scaled draw.
- **Cards.**
  - Cards are records in an `array`.
  - `ApplySchedule` updates them in place, card by card, with the source's branches.
  - It is proved against the per-card function `Schedule`.
- **Arithmetic.**
  - `Math.floor` of a division by a positive constant is Dafny's `/` on `int`. That operator floors when the divisor is positive.
  - `Math.ceil(a / m)` for integer milliseconds is `(a + m - 1) / m`.

## Model

| member | source | states |
|---|---|---|
| Adverts.MatchFrom | crux.js:4 | the scan is true exactly when `/\/posts\/[^\/]+/` matches at the given position or later |
| Adverts.IsPostPage | crux.js:4 | true exactly when the path contains "/posts/" followed by a character other than "/" |
| Adverts.ShouldShowAds | crux.js:2-14 | ads are hidden exactly when the path is a post page, the companies list exists, and it has exactly one child; every other combination shows ads |
| Adverts.Slot.AppendChild | crux.js:89 | the new child goes at the end, and the existing children are unchanged |
| Adverts.FilterMembers | crux.js:67-77 | `filter` keeps exactly the elements that satisfy the predicate |
| Adverts.FilterKeeps | crux.js:67-77 | the same, for all elements at once |
| Adverts.FilterAppend | crux.js:67-77 | filtering a concatenation concatenates the filtered parts, so the kept elements stay in input order |
| Adverts.FilterPartition | crux.js:72-77 | two complementary filters together hold every input element exactly once (multiset and length) |
| Adverts.Eligible | crux.js:66-69 | an advert is eligible exactly when its slot ids include the slot's data-ad-slot; so an advert whose fetch failed (crux.js:28-31, slot ids []) and a slot without data-ad-slot have none |
| Adverts.EligibleKeepsOrder | crux.js:66-69 | eligibility distributes over the advert list, so the eligible adverts keep their original order |
| Adverts.PriorityZero | crux.js:72-74 | the priority-0 list holds exactly the eligible adverts whose priority is 0 |
| Adverts.Others | crux.js:75-77 | the other list holds exactly the eligible adverts whose priority is not 0 |
| Adverts.PrioritySplit | crux.js:72-77 | the two lists are disjoint, and together they are the eligible list (as a multiset, and by length) |
| Adverts.PrioritySplitKeepsOrder | crux.js:72-77 | both halves of the split keep the eligible list's order |
| Adverts.Weight | crux.js:36 | every weight 2^-priority is positive |
| Adverts.WeightHalves | crux.js:36 | raising the priority number by one halves the weight |
| Adverts.WeightDecreasing | crux.js:36 | a smaller priority number gives a strictly larger weight |
| Adverts.SumSnoc | crux.js:37 | the running total up to item i is the total before i plus weight i |
| Adverts.SumPositive | crux.js:37 | the total of a non-empty list of positive weights is positive |
| Adverts.FirstExceedingFrom | crux.js:40-44 | the index found is the first one from the start position whose running total exceeds the draw; None means the draw reaches every total |
| Adverts.FirstExceedingFound | crux.js:44 | a draw below the total weight always finds an index, so the `null` fallback is unreachable |
| Adverts.WeightedPick | crux.js:35-45 | an empty list gives null, and any pick is a member of the list |
| Adverts.WeightedPickIsFirstExceeding | crux.js:35-45 | for a draw u in [0, 1) and a non-empty list, the pick is items[i] for the first i whose running total exceeds u times the total weight |
| Adverts.ScaledBelow | crux.js:38 | the scaled draw lies in [0, totalWeight) |
| Adverts.WeightedRandomSelect | crux.js:35-45 | the subtract-and-compare loop returns exactly the first-exceeding pick |
| Crux.SelectAdverts | crux.js:80-84 | the selection starts with the eligible priority-0 adverts, in order, and holds at most one advert more |
| Crux.SelectionShape | crux.js:80-84 | every selected advert is eligible, and the advert that may follow the priority-0 ones has non-zero priority |
| Crux.SelectionComplete | crux.js:80-84 | every eligible priority-0 advert is selected; for a draw in [0, 1), exactly one lottery advert is added whenever a non-zero-priority advert is eligible |
| Crux.PopulateSlot | crux.js:65-90 | the slot's children become its old children followed by clones of the selected adverts, in order |
| Crux.AppendClones | crux.js:87-90 | one clone per selected advert is appended, in the selected order, after the existing children |
| Crux.PopulateAdverts | crux.js:47-92 | with the gate closed no slot changes; otherwise every slot gains exactly its own selection |
| Crux.PopulateSlots | crux.js:65-91 | every slot gains its own selection, drawn with its own draw, and no slot's earlier children change |
| CruxAds.FloorIndexInRange | crux-ads.js:90-93 | for a draw in [0, 1), floor(u * length) is a valid index of the priority-0 list |
| CruxAds.ChooseAdvert | crux-ads.js:85-96 | the chosen advert, if any, is eligible, and nothing is chosen when no advert is eligible |
| CruxAds.ChoiceRules | crux-ads.js:85-96 | for a draw in [0, 1): an advert is chosen whenever one is eligible; a priority-0 advert is chosen whenever one is eligible; otherwise the choice has non-zero priority |
| CruxAds.TaggedClone | crux-ads.js:100-101 | the clone's data-type is the slot's data-type ("null" when the slot has none); its other attributes are the advert's own, and no attribute is added besides data-type |
| CruxAds.AtMostOneTaggedAdvert | crux-ads.js:85-103 | a slot gains at most one element, a tagged clone of an eligible advert; for a draw in [0, 1) it gains nothing exactly when no advert is eligible |
| CruxAds.PopulateSlot | crux-ads.js:68-103 | the slot's children become its old children followed by the tagged clone of the chosen advert, if there is one |
| CruxAds.PopulateAdverts | crux-ads.js:47-105 | with the gate closed no slot changes; otherwise every slot gains exactly its own choice |
| CruxAds.PopulateSlots | crux-ads.js:68-104 | given that gains[i] is slot i's tagged choice under its own draw, every slot gains exactly gains[i] after its earlier children |
| TheCon.MembershipWeeks | the-con.js:136-139 | the membership week w satisfies (w - 1) weeks <= now - signUp < w weeks, and w >= 1 once now >= signUp |
| TheCon.ThirteenDaysIsWeekTwo | the-con.js:137-139 | thirteen days after sign-up the member is in week 2 |
| TheCon.CeilDiv | the-con.js:165 | the quotient is the least q with a <= q * m |
| TheCon.ReleaseDate | the-con.js:142-145 | the release date is the first instant of membership week data-post-release: that week starts there, and the instant before is still the previous week |
| TheCon.LockedCountdown | the-con.js:162-171 | beyond 7 days the label is ceil(days / 7) weeks, at least 2; otherwise it is ceil(days) days, at most 7 |
| TheCon.Decide | the-con.js:142-172 | "Coming soon" exactly for a card that is not "available"; an available card with a numeric data-post-release unlocks exactly from one week before its release date; one whose data-post-release does not parse is locked with "Available in NaN days" |
| TheCon.Schedule | the-con.js:141-172 | the fields are preserved; a card that is not "available" shows "Coming soon" and gains neither attribute; an available card gains exactly one of unlocked (tag hidden) and locked (tag shown), unlocked exactly when the membership week is at least data-post-release - 1; a locked card's label is the countdown to its release date, or "NaN days" when data-post-release does not parse |
| TheCon.UnlocksAWeekEarly | the-con.js:142-155 | as written, a card unlocks exactly from one week before its release date |
| TheCon.LockedCountdownAlwaysWeeks | the-con.js:155-171 | as written, a card with a numeric data-post-release that gets locked always shows a countdown in weeks, never in days |
| TheCon.UnlockedBeforeRelease | the-con.js:142-157 | a week-2 card viewed at the moment of sign-up is unlocked although its release date is 7 days ahead |
| TheCon.DecideIntended | the-con.js:142-172 | with the corrected comparison, an available card with a numeric data-post-release unlocks exactly from its release date on; the other cases are as written |
| TheCon.IntendedCountdown | the-con.js:162-171 | with the corrected comparison, a locked card's countdown is 1 to 7 days in the last week before release, and at least 2 weeks before that |
| TheCon.ApplySchedule | the-con.js:137-173 | every `.postcard` becomes its scheduled version, using one membership week for all cards |
| TheCon.MarkComingSoon | the-con.js:176-181 | every `.post` card shows its tag with "Coming soon", and nothing else changes |
| TheCon.GetMemberData | the-con.js:118-182 | with no member, only the `.post` cards change, to "Coming soon"; with a missing or unparseable sign-up date nothing changes; otherwise only the `.postcard` cards change, each to its schedule |
| TheCon.Milestone | the-con.js:108 | the milestone is a multiple of 10, at most the percentage watched, and less than 10 below it |
| TheCon.MilestoneBounds | the-con.js:108 | a fraction in [0, 1] gives a milestone between 0 and 100 |

## Left out

- `fetchAndExtractSlotIds` (crux.js:17-32) fetches and parses campaign pages with `fetch` and `DOMParser`, and `Promise.all` fans these out concurrently. Both are network I/O. Each advert's slot ids are an input, `[]` for a failed fetch.
- `Math.random()` and `new Date()` are parameters. Each slot is given one draw and uses it at most once: crux.js draws only when a non-zero-priority advert is eligible, and crux-ads.js only when some advert is eligible. An unused draw changes nothing.
- A `data-priority` that does not parse (`NaN`) is not modelled. Priorities are integers. A `NaN` weight would poison the total in IEEE arithmetic.
- Adverts.Weight: weights and sums are exact reals, so IEEE rounding and underflow of 2^-priority for very large priorities are not modelled.
- `new Date(string)` parsing is not modelled. The sign-up date is given as absent, unparseable, or a millisecond timestamp.
- TheCon.ReleaseDate: `setDate` counts days in local time. The model adds exact 24-hour days, so daylight-saving shifts are not modelled.
- A `.postcard` without a `.release-tag_wrapper` or `.release-tag_text` element, or a `.post` without a `.release-tag` or `.release-tag_text` element, would make the script throw. The model assumes every card has its tag elements.
- An element is abstracted to its attribute map. `cloneNode(true)` is a value copy, and the clone's subtree and identity are not modelled.
- Splide carousel setup and Vimeo player construction, playback and show/hide toggling (the-con.js:7-104) are third-party SDK calls and style changes.
- `trackVimeo` only logs its milestone. Only the rounding is modelled.
- Memberstack's `getCurrentMember` and its promise and `catch` handling are SDK I/O. The member data is an input.
- `console.log` and `console.error` output is not modelled.
- The commented-out code in the-con.js:189-253 and the commented-out `populateAdverts()` calls in crux.js:94 and crux-ads.js:107 are not modelled. The populate methods model the function as written, whether or not a page calls it.
- The scripts have no account-creation-date fallback (a missing sign-up date returns early), no 20% milestones (milestones are in steps of 10%), no 80%-watched classification, no saved progress and no resume button. The model has none of these either.

## Findings

| source | as written | input that shows it | evidently intended | confidence | as-written member | corrected member |
|---|---|---|---|---|---|---|
| the-con.js:142-155 | the 1-based membership week is compared with `data-post-release - 1`, the 0-based week offset of the release date, so a card unlocks one week before its release date and, for a numeric data-post-release, the "Available in N days" branch can never be reached (only "Available in NaN days" reaches it) | data-post-release 2, signed up and viewed at the same instant: the card is unlocked although its release date is 7 days ahead | unlock once the membership week reaches `data-post-release` (the release date itself), which makes the days countdown show in the last week before release | medium, not executed | TheCon.UnlockedBeforeRelease | TheCon.DecideIntended |

The corrected rule is `TheCon.DecideIntended`, and `TheCon.IntendedCountdown`
gives its countdown labels. `TheCon.UnlocksAWeekEarly`, `TheCon.Decide` and
`TheCon.LockedCountdownAlwaysWeeks` state the as-written behaviour for all
inputs. The card pass itself (`TheCon.Schedule`, `TheCon.ApplySchedule`,
`TheCon.GetMemberData`) keeps the comparison as written, so it describes what
the page does.
