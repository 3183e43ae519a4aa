# BanquetHub venue booking: a verified model of its rule logic

BanquetHub is a client-side site for booking banquet venues. It lists venues,
filters them, books one in a step-by-step wizard, signs users in against demo
accounts, and shows events on a dashboard and a calendar. This project models
the parts of the site that make decisions, each in a Dafny module named after
its source file:

- **Booking**: the five-step booking wizard. It is a `Wizard` class whose
  fields are the page's state. It holds the per-step gates of `handleNextStep`,
  the service toggle list, the payment selection, single-field form updates,
  the confirm step, and `calculateTotal` as a loop proved against a pricing
  function. It also holds the rounded 25 % deposit.
- **Venues**: the listing filter, a conjunction of six conditions over the
  eight-venue catalogue. It also holds the filter state (`FilterState`) with
  its three membership toggles and the reset, and the list of distinct cities
  taken from the text after the last `", "` of each location.
- **BookingForm**: the venue page's request form. It has four add-on flags, an
  ordered check (required fields, then the email pattern, then the phone
  length), and the request record handed to `onSubmit`. The email test is
  proved equal to the regular expression `^[^\s@]+@[^\s@]+\.[^\s@]+$`.
- **AuthForm**: the login table of three demo accounts, the ordered
  registration checks, and the in-flight flags. Each delayed completion is a
  separate step that works on the values captured at submit time.
- **EventsList** and **DashboardEvents**: the status change by id, the date
  ordering, the role- and status-dependent menu entries and columns, and the
  index-driven mapping of simple calendar events to full event records.
- **VenueDetail**: the wrap-around image carousel, the sidebar's four-hour
  quote, and the slot badges.
- **Index**: the featured list, and the top three by rating. The top three
  come from an in-place insertion sort on an `array`, proved equal to a stable
  sort by key.
- **CalendarView**: the events of a day, the dot colours, and the two-event
  cell with its "+k more" note.
- **Navbar**: the header's solid-background rule, the active-link test, and
  the mobile menu state (`Header` class).

Shared modules:

- **Wrappers**: `Option` and `Result`.
- **Lists**: the includes/filter/append toggle, removal, de-duplication as
  `new Set`.
- **Text**: `includes`, ASCII `toLowerCase`, `split` and `join`, the last
  part of a split, decimal rendering, and JavaScript's `.length`, which counts
  UTF-16 code units, so a character beyond U+FFFF such as an emoji counts twice.
- **Sorting**: a stable insertion sort by an integer key, which models
  JavaScript's stable `Array.prototype.sort` with a numeric comparator.
- **VenueCard**: the shared `VenueProps` record.

Modelling conventions:

- Dates are integer day numbers.
- Star ratings are integer tenths, so 4.9 is 49.
- `Math.round(total * 0.25)` on a non-negative integer total is `(total + 2) / 4`.
- Toasts, scroll calls and the values passed to callbacks become method
  results.
- Storage (`localStorage`) is a field.

Where the source's comments or text and its code disagree, the model follows
the code:

- The comment on `sortedEvents` says "most recent first", but the comparator
  `a.date - b.date` puts the earliest date first. `EventsList.SortedEventsSpec`
  proves the ascending order.
- Step 2 embeds the request form, whose own checks run before its submit
  callback advances the wizard. But the step also has a plain "Next" button
  (`src/pages/Booking.tsx:392`) that calls `handleNextStep` directly, and
  `handleNextStep` has no rule for step 2. So the form's checks can be
  skipped. `Booking.NextStepGate` returns `None` for every step other than
  1, 3 and 4, and `Booking.VenueGateWalkthrough` passes step 2 with nothing
  filled in.
- Toggling a service or a filter tag twice restores the list only when the id
  was absent at first. When it was present, it comes back at the end, so the
  members are the same but the order changes (`Lists.ToggleTwiceReorders`).
- A dashboard grid card guards its cost with `event.cost && …`. For a cost of
  0 the expression is the number 0, which React renders as the text "0"
  (`EventsList.CardCostShown`).
- The venue listing starts as the whole catalogue (`useState(venues)`). The
  filtered list appears only after the effect runs (`Venues.MountWalkthrough`).

## Model

| member | source | states |
|---|---|---|
| Booking.FindVenue | src/pages/Booking.tsx:154 | a found venue is in the list and carries the requested id, and it is the first venue with that id; `None` means no venue has that id |
| Booking.FindService | src/pages/Booking.tsx:240 | a found service is in the list with the requested id, and it is the first service with that id; `None` means no service has that id |
| Booking.ServicesCostAppend | src/pages/Booking.tsx:239-249 | selecting one more service adds exactly that service's charge to the services cost |
| Booking.ServicesCostRemoveAll | src/pages/Booking.tsx:163 | removing every occurrence of a service subtracts its charge once per occurrence |
| Booking.CountOnce | src/pages/Booking.tsx:160-166 | in a duplicate-free selection a selected id occurs exactly once |
| Booking.TotalAfterToggle | src/pages/Booking.tsx:160-166 | toggling a service raises the total by its charge when it was absent and lowers it by its charge when it was present |
| Booking.Deposit | src/pages/Booking.tsx:628 | the deposit is the whole number nearest a quarter of the total, halves rounded up: `4d <= total + 2 < 4d + 4` |
| Booking.VenueOneCost | src/pages/Booking.tsx:44-55 | venue "1" rents for 1200 × 4 = 4800 |
| Booking.CateringCharge | src/pages/Booking.tsx:82-87 | per-person catering costs 45 × 100 assumed guests = 4500 |
| Booking.AvCharge | src/pages/Booking.tsx:96-101 | the flat A/V fee is charged once: 800 |
| Booking.UnknownVenueCost | src/pages/Booking.tsx:236 | an unknown venue id rents for 0 |
| Booking.UnknownServiceCost | src/pages/Booking.tsx:239-241 | an unknown service id adds 0 |
| Booking.ServicesCostOne | src/pages/Booking.tsx:239-249 | one selected service costs exactly its charge |
| Booking.ServicesCostTwo | src/pages/Booking.tsx:239-249 | two selected services cost the sum of their charges |
| Booking.RentalOnlyTotal | src/pages/Booking.tsx:235-252 | the total for venue "1" with no services is 4800 |
| Booking.RentalWithAvTotal | src/pages/Booking.tsx:235-252 | the total for venue "1" with A/V is 5600 |
| Booking.RentalWithCateringTotal | src/pages/Booking.tsx:235-252 | the total for venue "1" with catering is 9300, and its deposit is 2325 |
| Booking.ServicesOnlyTotal | src/pages/Booking.tsx:236-249 | with no venue the total is the services alone: 4500 + 800 = 5300 |
| Booking.UnknownIdsTotal | src/pages/Booking.tsx:236-249 | unknown venue and service ids total 0 |
| Booking.NextStepGate | src/pages/Booking.tsx:179-201 | step 1 passes iff a venue is selected; step 3 reports the required-fields error iff a required field is empty, the terms error iff all are filled and the terms are unchecked, and passes iff both hold; step 4 passes iff a payment method is chosen; every other step passes |
| Booking.Wizard.constructor | src/pages/Booking.tsx:140-152 | the wizard starts at step 1 with nothing selected and an empty form |
| Booking.Wizard.HandleVenueSelect | src/pages/Booking.tsx:156-158 | records the venue id and changes no other field |
| Booking.CheckboxClickAsWritten | src/pages/Booking.tsx:486-497 | a click on a service card's checkbox runs both handlers, so which services are selected never changes |
| Booking.CheckboxClickSelectsNothing | src/pages/Booking.tsx:486-497 | ticking the catering box on an empty selection leaves catering unselected |
| Booking.CardClick | src/pages/Booking.tsx:160-166 | one click flips whether the id is selected, keeps every other id's membership, and keeps the list duplicate-free |
| Booking.Wizard.HandleServiceToggle | src/pages/Booking.tsx:160-166 | the selection becomes its toggle by the id, which is one card click, stays duplicate-free, and nothing else changes |
| Booking.Wizard.HandlePaymentMethodSelect | src/pages/Booking.tsx:168-170 | replaces the payment selection with the given method and changes nothing else |
| Booking.Wizard.HandleFormChange | src/pages/Booking.tsx:172-177 | sets the named field and keeps every other field and all other state |
| Booking.Wizard.HandleNextStep | src/pages/Booking.tsx:179-207 | a failed gate reports its error and keeps the step; otherwise the step goes up by one below step 5 and stays at 5; the step stays in 1..5, changes by 0 or +1, and the page scrolls iff it moved |
| Booking.Wizard.HandlePreviousStep | src/pages/Booking.tsx:209-214 | the step goes down by one above step 1 and stays at 1; the page scrolls iff it moved |
| Booking.Wizard.HandleBookingSubmit | src/pages/Booking.tsx:216-232 | without a payment method it reports the error, keeps the step and does not scroll; with one it confirms, ends at step 5 and scrolls to the top |
| Booking.Wizard.CalculateTotal | src/pages/Booking.tsx:235-252 | the loop's result is the rental plus the charge of each selected service |
| Booking.DetailsGateExamples | src/pages/Booking.tsx:185-195 | an empty form reports missing fields even with the terms checked; a filled form with unchecked terms reports the terms; with both, the step may be left |
| Venues.FilterVenues | src/pages/Venues.tsx:159-183 | the listing is no longer than the catalogue |
| Venues.FilterVenuesSpec | src/pages/Venues.tsx:159-183 | a venue is listed iff it is in the catalogue and meets all six conditions |
| Venues.FilterVenuesAppend | src/pages/Venues.tsx:159 | the filter keeps catalogue order: filtering a concatenation concatenates the filtered parts |
| Venues.FilterVenuesSingle | src/pages/Venues.tsx:159-183 | a single venue is kept iff it matches |
| Venues.UnconstrainedKeepsAll | src/pages/Venues.tsx:160-180 | with an empty search and empty selections, and every venue within the ranges, nothing is filtered out |
| Venues.AllButOne | src/pages/Venues.tsx:159-183 | when exactly one venue fails the ranges of an otherwise empty filter, the listing is the catalogue without it, in order |
| Venues.KeepsSlice | src/pages/Venues.tsx:159-183 | a run of venues all within the ranges of an otherwise empty filter is kept whole |
| Venues.SearchIgnoresCase | src/pages/Venues.tsx:160-164 | search terms equal up to case find the same venues |
| Venues.SearchSpec | src/pages/Venues.tsx:160-164 | a venue is found iff the term is empty or the lowered term occurs at some position of the lowered name, description or location |
| Venues.DefaultFiltersSpec | src/pages/Venues.tsx:166-168 | under the defaults only the inclusive bounds 500..2000 on price and 50..350 on capacity decide |
| Venues.DefaultBoundsExamples | src/pages/Venues.tsx:137-138 | venue "8" (capacity 350) is kept under the defaults and venue "3" (capacity 400) is not |
| Venues.CatalogueInDefaultBounds | src/pages/Venues.tsx:33-122 | every catalogue venue other than "3" lies within the default bounds |
| Venues.DefaultListing | src/pages/Venues.tsx:159-183 | under the defaults the page lists every venue except "3", in catalogue order |
| Venues.Cities | src/pages/Venues.tsx:145-148 | one city per venue, in catalogue order, each the last `", "` part of its location |
| Venues.LocationsSpec | src/pages/Venues.tsx:145-148 | the location choices are duplicate-free, are exactly the venues' cities, and none holds a `", "` |
| Venues.CityAfterLastComma | src/pages/Venues.tsx:146-147 | the city of "area, city" is the city whenever the city has no comma |
| Venues.CityExample | src/pages/Venues.tsx:146-147 | "Downtown, New York" lies in "New York" |
| Venues.FilterState.constructor | src/pages/Venues.tsx:136-142 | the page mounts with the default filters and the whole catalogue listed |
| Venues.FilterState.ApplyFilters | src/pages/Venues.tsx:158-186 | the listing becomes the filter of the catalogue by the current filters, which stay unchanged |
| Venues.FilterState.ToggleVenueType | src/pages/Venues.tsx:188-194 | the venue-type selection becomes its toggle; the other filters and the listing stay |
| Venues.FilterState.ToggleEventType | src/pages/Venues.tsx:196-202 | the event-type selection becomes its toggle; the other filters and the listing stay |
| Venues.FilterState.ToggleLocation | src/pages/Venues.tsx:204-210 | the location selection becomes its toggle; the other filters and the listing stay |
| Venues.FilterState.ClearFilters | src/pages/Venues.tsx:212-219 | every filter returns to its default; the listing waits for the effect |
| BookingForm.Flip | src/components/ui/BookingForm.tsx:67-72 | the named add-on flag is inverted and the other three are kept |
| BookingForm.FlipTwice | src/components/ui/BookingForm.tsx:67-72 | flipping the same flag twice restores the flags |
| BookingForm.ValidEmailIff | src/components/ui/BookingForm.tsx:84-85 | the email test accepts exactly the strings matching `^[^\s@]+@[^\s@]+\.[^\s@]+$` |
| BookingForm.ValidEmailMatches | src/components/ui/BookingForm.tsx:84-85 | an address the test accepts has a match of the pattern |
| BookingForm.MatchesValidEmail | src/components/ui/BookingForm.tsx:84-85 | every match of the pattern is accepted by the test |
| BookingForm.ValidEmailShape | src/components/ui/BookingForm.tsx:84-85 | an accepted address has exactly one `@`, not first, and no whitespace |
| BookingForm.EmailExamples | src/components/ui/BookingForm.tsx:84-85 | "a@b.c" is accepted and "a@b" is not |
| BookingForm.Submit | src/components/ui/BookingForm.tsx:74-107 | the required-fields error iff a required value is missing; the email error iff all are present and the email fails; the phone error iff both pass and the phone is shorter than 10 UTF-16 code units; otherwise the request carries the current values and flags |
| BookingForm.PhoneExamples | src/components/ui/BookingForm.tsx:91-94 | nine digits are too short, ten digits pass, and so do five emoji, which are ten code units |
| BookingForm.Form.constructor | src/components/ui/BookingForm.tsx:33-50 | nothing chosen, empty texts, every add-on unticked |
| BookingForm.Form.HandleServiceChange | src/components/ui/BookingForm.tsx:67-72 | inverts one add-on flag and keeps every other field |
| BookingForm.Form.HandleSubmit | src/components/ui/BookingForm.tsx:74-114 | the first failed check, with the phone measured in UTF-16 code units, is the error toast and nothing is delivered; on success the toast confirms and the request goes to `onSubmit` iff one was given |
| AuthForm.Authenticate | src/components/auth/AuthForm.tsx:67-121 | a pair signs in iff it is a demo account's, and the user has that account's id, name and role with the entered email |
| AuthForm.AuthenticateExamples | src/components/auth/AuthForm.tsx:67-121 | the three demo pairs yield users "1" admin, "2" client and "3" organizer; a mixed pair is refused |
| AuthForm.RegisterCheck | src/components/auth/AuthForm.tsx:135-148 | the fill error iff a field is empty; the mismatch error iff all are filled and the passwords differ; the short error iff they match but have fewer than 6 UTF-16 code units; no error iff none applies |
| AuthForm.RegisterCheckExamples | src/components/auth/AuthForm.tsx:135-148 | a matching 6-character password passes, 5 characters are too short, an empty name is reported first, and three emoji pass as six code units |
| AuthForm.Form.constructor | src/components/auth/AuthForm.tsx:39-49 | empty fields, no attempt in flight, account type client |
| AuthForm.Form.SetLogin | src/components/auth/AuthForm.tsx:39-40 | sets the login fields and leaves attempts and storage alone |
| AuthForm.Form.SetUserType | src/components/auth/AuthForm.tsx:48 | sets the account type and leaves attempts and storage alone |
| AuthForm.Form.SetRegister | src/components/auth/AuthForm.tsx:44-47 | sets the register fields and leaves the type, attempts and storage alone |
| AuthForm.Form.HandleLogin | src/components/auth/AuthForm.tsx:51-65 | an empty field is reported and no attempt starts; otherwise the attempt is in flight with the entered pair |
| AuthForm.Form.CompleteLogin | src/components/auth/AuthForm.tsx:65-124 | the captured pair is authenticated; a demo user is stored and greeted by role, any other pair is refused and storage kept; the attempt is over either way |
| AuthForm.Form.HandleRegister | src/components/auth/AuthForm.tsx:131-150 | the first failed check is reported and nothing starts; otherwise the attempt is in flight with the name, email and type |
| AuthForm.Form.CompleteRegister | src/components/auth/AuthForm.tsx:154-172 | stores and yields the user with the captured name, email and type under the given id, and ends the attempt |
| EventsList.UpdateStatus | src/components/dashboard/EventsList.tsx:74-78 | same length; events with the id get the new status, all others are unchanged |
| EventsList.UpdateStatusIdempotent | src/components/dashboard/EventsList.tsx:74-78 | repeating a status change makes no difference |
| EventsList.UpdateStatusKeepsRecords | src/components/dashboard/EventsList.tsx:76 | only the status field of an event can change |
| EventsList.List.constructor | src/components/dashboard/EventsList.tsx:68 | the list starts with the events it was given |
| EventsList.List.HandleStatusChange | src/components/dashboard/EventsList.tsx:70-80 | with a handler the pair is forwarded and the list untouched; without one the list is updated by id |
| EventsList.StatusColorInjective | src/components/dashboard/EventsList.tsx:82-93 | different statuses get different badge colours |
| EventsList.SortedEventsSpec | src/components/dashboard/EventsList.tsx:95-96 | the displayed order is a permutation, dates never decrease, and same-date events keep their order |
| EventsList.Menu | src/components/dashboard/EventsList.tsx:156-173 | the menu always starts with the details entry and lists no entry twice |
| EventsList.MenuByRole | src/components/dashboard/EventsList.tsx:159-173 | a client can only cancel an upcoming event; delete is offered iff the user is an admin; a non-upcoming event offers no status change; staff can complete and cancel an upcoming one |
| EventsList.StatusActionsClose | src/components/dashboard/EventsList.tsx:159-168 | after completing or cancelling an event, its menu offers neither status action again |
| EventsList.EmptyColSpanCoversHeadings | src/components/dashboard/EventsList.tsx:181 | the "No events found" cell spans exactly the table's columns for every role |
| EventsList.CardCostShown | src/components/dashboard/EventsList.tsx:232-234 | a card shows the amount iff the role is not the client and the cost is present and non-zero, and a bare "0" iff the role is not the client and the cost is zero |
| EventsList.CardCostNeedsColumn | src/components/dashboard/EventsList.tsx:115-234 | a card shows a cost only for a role whose table has the Cost column, and a client sees neither |
| DashboardEvents.ToStatus | src/components/dashboard/DashboardEvents.tsx:26-27 | booked and pending become upcoming; available becomes completed |
| DashboardEvents.FormatFrom | src/components/dashboard/DashboardEvents.tsx:17-31 | same length, and element k is the record for input k at position base + k |
| DashboardEvents.FormattedEventsSpec | src/components/dashboard/DashboardEvents.tsx:17-31 | element k keeps title and date, has id `event-k`, 100 + 20k guests and cost 2500 + 500k, the mapped status and the fixed details |
| DashboardEvents.FormattedIdsDistinct | src/components/dashboard/DashboardEvents.tsx:18 | no two positions get the same id |
| VenueDetail.NextIndex | src/pages/VenueDetail.tsx:123-127 | the next index stays in range and is (i + 1) mod n |
| VenueDetail.PrevIndex | src/pages/VenueDetail.tsx:129-133 | the previous index stays in range and is the one `nextImage` moves to i |
| VenueDetail.PrevUndoesNext | src/pages/VenueDetail.tsx:123-133 | back after forward and forward after back are the identity |
| VenueDetail.Forward | src/pages/VenueDetail.tsx:123-127 | any number of steps forward stays in range |
| VenueDetail.ForwardNoWrap | src/pages/VenueDetail.tsx:123-127 | before the end, k steps forward are k places on |
| VenueDetail.ForwardCompose | src/pages/VenueDetail.tsx:123-127 | a steps then b steps are a + b steps |
| VenueDetail.FullTurn | src/pages/VenueDetail.tsx:123-127 | as many steps forward as there are images return to the start |
| VenueDetail.Carousel.constructor | src/pages/VenueDetail.tsx:110 | the gallery has four images and opens on the first |
| VenueDetail.Carousel.NextImage | src/pages/VenueDetail.tsx:123-127 | the index becomes its successor with wrap-around and stays in range |
| VenueDetail.Carousel.PrevImage | src/pages/VenueDetail.tsx:129-133 | the index becomes its predecessor with wrap-around and stays in range |
| VenueDetail.Carousel.ShowImage | src/pages/VenueDetail.tsx:172-176 | a dot shows its own image |
| VenueDetail.SidebarTotalSpec | src/pages/VenueDetail.tsx:333 | at 1200 an hour the quote is 5025, and each extra dollar an hour adds 4 |
| VenueDetail.SlotBadgeSpec | src/pages/VenueDetail.tsx:301-309 | the outline badge iff available, destructive iff booked, and a distinct label per status |
| Index.FeaturedOf | src/pages/Index.tsx:158 | the featured list holds exactly the catalogue's featured venues |
| Index.FeaturedOfAppend | src/pages/Index.tsx:158 | the filter keeps the original order: the featured venues of a concatenation are those of each part, in turn |
| Index.FeaturedFirstTwo | src/pages/Index.tsx:158 | when only the first two of six are featured, the list is those two in order |
| Index.FeaturedExample | src/pages/Index.tsx:76-158 | the page's featured venues are "1" and "2", in catalogue order |
| Index.Top | src/pages/Index.tsx:159 | `slice(0, 3)` is the prefix of length min(3, n) |
| Index.TopRatedSpec | src/pages/Index.tsx:159 | at most three venues, drawn from the list, ratings never rising, and no venue left out rated above one kept |
| Index.TopRatedExample | src/pages/Index.tsx:76-159 | with the page's data the top three are "4", "2" and "6" |
| Index.SortByRating | src/pages/Index.tsx:159 | the in-place sort leaves in the array the stable sort of its old contents by descending rating |
| Index.InsertNext | src/pages/Index.tsx:159 | one pass inserts the next element into the sorted prefix and leaves the rest alone |
| Index.ShiftRatedBelow | src/pages/Index.tsx:159 | the inner loop moves every element rated below the new one a place right and returns the gap |
| Index.LoadLists | src/pages/Index.tsx:157-159 | the featured list is taken before the sort and the top three after it |
| CalendarView.StatusColorSpec | src/components/ui/CalendarView.tsx:45-56 | the three statuses get three different non-grey colours; any other string is grey |
| CalendarView.EventsForDaySpec | src/components/ui/CalendarView.tsx:40-42 | the day's events are exactly the events dated that day |
| CalendarView.EventsForDayAppend | src/components/ui/CalendarView.tsx:40-42 | the filter keeps the original order |
| CalendarView.Shown | src/components/ui/CalendarView.tsx:110 | a cell lists the first min(2, n) events of its day |
| CalendarView.More | src/components/ui/CalendarView.tsx:119-121 | the "+k more" note is present iff the day has more than two events |
| CalendarView.CellAccountsForAll | src/components/ui/CalendarView.tsx:110-121 | listed events plus the note's count equal the day's events |
| Navbar.NeedsSolidBackground | src/components/layout/Navbar.tsx:68-70 | solid iff the path is "/login" or "/register" or "/dashboard" occurs in it |
| Navbar.DashboardRoutesSolid | src/components/layout/Navbar.tsx:70 | any path with "/dashboard" in it gets a solid header |
| Navbar.LoginSubrouteTranslucent | src/components/layout/Navbar.tsx:68-69 | the auth pages match exactly, so "/login/" is not solid |
| Navbar.HeaderSolidSpec | src/components/layout/Navbar.tsx:76-78 | the header is translucent iff scrollY <= 10, the menu is closed and the path needs no solid background |
| Navbar.ActiveLinks | src/components/layout/Navbar.tsx:97 | the highlighted entries are exactly those whose route equals the path |
| Navbar.AtMostOneActive | src/components/layout/Navbar.tsx:59-65 | with distinct routes at most one entry is highlighted, and one is iff the path is a route |
| Navbar.NavLinksDistinct | src/components/layout/Navbar.tsx:59-65 | the five routes are distinct |
| Navbar.Header.constructor | src/components/layout/Navbar.tsx:38-50 | the mount-time scroll check sets the flag; the menu starts closed |
| Navbar.Header.HandleScroll | src/components/layout/Navbar.tsx:44-46 | the flag becomes scrollY > 10 and nothing else changes |
| Navbar.Header.ToggleMenu | src/components/layout/Navbar.tsx:134 | the menu flips, and an open menu makes the header solid |
| Navbar.Header.Navigate | src/components/layout/Navbar.tsx:55-57 | the menu closes iff the path changes |
| Navbar.ToggleTwiceWalkthrough | src/components/layout/Navbar.tsx:134 | toggling the menu twice restores the header |
| Lists.RemoveAll | src/pages/Booking.tsx:163 | the id is gone, every other element is kept as often as it occurred, and nothing else is added |
| Lists.RemoveAllAppend | src/pages/Booking.tsx:163 | the filter keeps order: filtering a concatenation concatenates the filtered parts |
| Lists.RemoveAllNoDup | src/pages/Booking.tsx:163 | removal keeps a list duplicate-free |
| Lists.RemoveAllAppended | src/pages/Booking.tsx:163-164 | removing an id just appended to a list without it gives the list back |
| Lists.Toggle | src/pages/Booking.tsx:160-166 | membership of the id flips, other members are kept, an absent id is appended at the end, and a present id is filtered out in place |
| Lists.ToggleNoDup | src/pages/Booking.tsx:160-166 | toggling keeps a list duplicate-free |
| Lists.ToggleTwiceAbsent | src/pages/Venues.tsx:188-210 | toggling an absent id twice restores the list exactly |
| Lists.ToggleTwiceMembers | src/pages/Venues.tsx:188-210 | toggling twice always restores the members |
| Lists.ToggleTwiceReorders | src/pages/Booking.tsx:160-166 | toggling a present id twice can move it: [1, 2] becomes [2, 1] |
| Lists.DistinctSpec | src/pages/Venues.tsx:145 | `new Set` keeps each member once and loses none |
| Text.ContainsIff | src/pages/Venues.tsx:162-164 | `includes` finds exactly the strings that occur at some position |
| Text.Utf16Length | src/components/ui/BookingForm.tsx:91 | `.length` is at least the number of characters and at most twice it |
| Text.Utf16LengthAppend | src/components/ui/BookingForm.tsx:91 | the length of a concatenation is the sum of the lengths |
| Text.Utf16LengthBmp | src/components/ui/BookingForm.tsx:91 | a string without characters beyond U+FFFF has one code unit per character |
| Text.Utf16LengthAstral | src/components/ui/BookingForm.tsx:91 | the length is the character count plus the number of characters beyond U+FFFF |
| Text.EmojiLength | src/components/auth/AuthForm.tsx:145 | one emoji counts 2, three count 6 and five count 10 |
| Text.ToLower | src/pages/Venues.tsx:162-164 | lowering keeps the length and lowers each ASCII capital |
| Text.FindFromFound | src/pages/Venues.tsx:146 | a found separator index is an occurrence |
| Text.FindFromFirst | src/pages/Venues.tsx:146 | it is the first occurrence at or after the start |
| Text.FindFromAt | src/pages/Venues.tsx:146 | the first occurrence is what the search finds |
| Text.FindFromNone | src/pages/Venues.tsx:146 | no result means no occurrence |
| Text.SplitFromJoin | src/pages/Venues.tsx:146 | joining the split parts with the separator rebuilds the text |
| Text.SplitJoin | src/pages/Venues.tsx:146 | `s.split(sep).join(sep) == s` |
| Text.LastStartAfterSep | src/pages/Venues.tsx:146-147 | the last part starts at the beginning or right after a separator |
| Text.LastStartNoSep | src/pages/Venues.tsx:146-147 | no separator occurs from the start of the last part on |
| Text.SplitFromLast | src/pages/Venues.tsx:146-147 | the last part of the split is the text after the last separator |
| Text.LastPartSpec | src/pages/Venues.tsx:146-147 | `parts[parts.length - 1]` is the suffix after the last separator and holds none |
| Text.NatToString | src/components/dashboard/DashboardEvents.tsx:18 | at least one digit, a single digit iff n < 10, and the last digit is n mod 10 |
| Text.NatToStringInjective | src/components/dashboard/DashboardEvents.tsx:18 | different numbers render differently |
| Sorting.WithKeyAppend | src/components/dashboard/EventsList.tsx:96 | a key class of a concatenation is the concatenation of the parts' classes |
| Sorting.InsertByPermutes | src/pages/Index.tsx:159 | inserting adds exactly the new element |
| Sorting.InsertBySorted | src/pages/Index.tsx:159 | inserting into a sorted list keeps it sorted |
| Sorting.InsertByBound | src/pages/Index.tsx:159 | a lower bound on all keys survives insertion |
| Sorting.InsertByStable | src/pages/Index.tsx:159 | existing ties stay in front of the inserted element, and no other key class changes |
| Sorting.InsertByAt | src/pages/Index.tsx:159 | the element goes right after the last element whose key is at most its own |
| Sorting.SortByPermutes | src/components/dashboard/EventsList.tsx:96 | the sort is a permutation |
| Sorting.SortBySnoc | src/pages/Index.tsx:159 | sorting one more element inserts it into the sorted rest |
| Sorting.SortBySorted | src/components/dashboard/EventsList.tsx:96 | the sort orders by key |
| Sorting.SortByStable | src/components/dashboard/EventsList.tsx:96 | equal keys keep their relative order, as in JavaScript's stable sort |

## Left out

- Rendering, CSS classes, icons and animation are not modelled. This includes the pointer-tilt geometry of the animated cards, which works on floating-point DOM rectangles.
- Timers (`setTimeout`), `window.scrollTo`, toasts, `localStorage`, `navigate` and the `onSuccess` callbacks are I/O. Scrolls are the `scrolled` results of the three wizard step methods, toasts are `notice` results, storage is a field, and the user yielded by a completion stands for both `onSuccess` and the dashboard redirect. Each delayed login or register body is a separate completion step that runs after the submit.
- Booking.Wizard.HandleBookingSubmit: the two-second redirect, with its step change and its scroll to the top, is folded into the same step. A second action arriving during the delay is not modelled.
- The random ids of registered users and of bookings come from `Math.random`. `AuthForm.Form.CompleteRegister` takes the id as a parameter, and the booking id is not modelled.
- Dates are integer day numbers. The date-fns functions (`isSameDay`, month boundaries, formatting), month navigation in the calendar, and `toLocaleString` are foreign library calls and are not modelled.
- `toLowerCase` lowers ASCII letters only. Unicode and locale case mapping is not modelled.
- Ratings are integer tenths and the deposit uses integer rounding. These are exact for the page's values, but floating-point arithmetic itself is not modelled.
- Navbar: the scroll offset is a mathematical integer, whereas the browser's `scrollY` can be fractional.
- The price and capacity slider bounds and steps, and the options a `Select` offers, are enforced by library components that are not part of this model.
- AuthForm.Form.SetUserType: requires a type other than admin, because the page's select offers only client and organizer.
- The `useAuth` hook, the dashboard and login redirects, the statistics cards, the static pages (about, services, contact, footer) and image URLs are not part of this model.
- EventsList.StatusColor: the `default` branch of the badge colour switch cannot be reached with the three declared statuses, so it is not modelled. CalendarView's switch takes any string, and its grey default is modelled.
- The `priceRange` and `capacityRange` arrays are two-field `Range` records, because the sliders always supply two values.
- Venues.FilterVenues: its contract states only the length bound; membership and order are stated by `Venues.FilterVenuesSpec` and `Venues.FilterVenuesAppend`.

## Findings

| source | as written | input that shows it | evidently intended | confidence | as-written member | corrected member |
|---|---|---|---|---|---|---|
| src/pages/Booking.tsx:486-497 | the service card's `onClick` and its checkbox's `onCheckedChange` both call `handleServiceToggle`; a click on the checkbox bubbles to the card, and both functional updates apply | ticking the catering checkbox with nothing selected: the selection goes from `[]` to `["catering"]` and back to `[]` | one click on the card or on its checkbox toggles the service once | medium, not executed | Booking.CheckboxClickAsWritten | Booking.CardClick |
