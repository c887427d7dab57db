# QuickCourt booking core in Dafny

QuickCourt is a sports-court booking service. This project models its core
and proves properties of the model:

- **Booking admission and cancellation.** The create route validates a
  request, derives the end time, refuses slots that overlap an active
  booking of the same court and day, prices the slot and stores a
  confirmed, paid booking. The cancel route checks ownership, status and
  the 24-hour deadline, then marks the booking cancelled and refunded.
- **The booking record's own rules.** These are the duration hook, the
  `timeSlot` virtual, `isPast`, `canBeCancelled` and the three-tier refund.
- **Court pricing and availability.** Price is base × weekend multiplier ×
  peak multiplier × hours, and the single-primary-image hook normalises
  the image list.
- **Small stateful helpers.** These are the facility's running rating
  average, the review's helpful votes, flags and rating aggregation, the
  server's role, ownership and rate-limit gates, the user's initials and
  login counter, and the client's auth reducer and role-guarded route.

## Representation

- **Dates** are day numbers; day 0 is Thursday 1 January 1970, so the
  weekday is `(day + 4) % 7` with Sunday = 0.
- **Clock times** are `HH:MM` strings, read as minutes since midnight.
- **Instants** are milliseconds. The current instant `now` is always a
  parameter.
- **Money, multipliers and averages** are `real`s. `Math.round` is
  `floor(x + 0.5)`.
- **Storage.** The bookings collection is an in-memory sequence in which a
  booking's id is its position. Documents that the source updates in
  place are classes: `BookingStore`, `Facility`, `Review`, `User` and
  `RateLimiter`.

Modules, one per file:

- `Wrappers`, `Numbers`: shared datatypes and helpers.
- `Clock`: the time pattern, padding, and string order versus clock order.
- `Images`: the pre-save image hook shared by courts and facilities.
- `Bookings`: the booking schema and its methods.
- `Courts`: the court schema and its methods.
- `BookingRoutes`: the create and cancel routes.
- `Facilities`, `Reviews`, `Users`: the other schemas.
- `AuthMiddleware`: the server-side request gates.
- `AuthReducer`, `RoleRoute`: the client-side auth state and route guard.

**Midnight crossing.** For a request whose end would pass midnight, the
code as written wraps the end time to the next day's clock reading. A
booking is meant to lie within one day, so a slot that would cross
midnight should be refused. The model keeps both:

- `BookingRoutes.AdmitAsWritten` follows the code, with the wrap, the
  string overlap test, and the insert that the schema refuses when the end
  time is not a clock reading. How the engine parses a one-digit start hour
  is a parameter.
- `BookingRoutes.Admit` is the corrected admission. It compares clock
  minutes and refuses with `CrossesMidnight`; the store uses this one.

See "Findings".

## Model

`BookingRoutes.SampleCourt`, `SampleBooking`, `NewBookingFields`,
`AdmittedAsWritten`, `SampleRequestsValid`, `SampleEndTimes` and
`SampleStringTests` have no rows: they are fixtures for the counterexamples
`BookingRoutes.UnpaddedStartDoubleBooks` and
`BookingRoutes.MidnightWrapAdmitsOverlap`.

| member | source | states |
|---|---|---|
| Clock.FormatTime | backend/server/routes/bookings.js:81 | a minute of the day renders as a zero-padded `HH:MM` that matches the time pattern and reads back as the same minute |
| Clock.FormatOfPadded | backend/server/routes/bookings.js:81 | every padded reading is the rendering of its own minute, so rendering and reading are inverse on padded strings |
| Clock.PaddedOrderIsClockOrder | backend/server/routes/bookings.js:88 | for two padded readings, string `<` holds exactly when the first is the earlier clock time; the query's `$lt`/`$gt` go to MongoDB, which compares strings byte by byte, the same order as JavaScript `<` on these ASCII readings |
| Clock.UnpaddedOrderIsNotClockOrder | backend/server/routes/bookings.js:29 | the start pattern admits `9:30`, and `"10:00" < "9:30"` as strings although 10:00 is later |
| Clock.EndMinute | backend/server/routes/bookings.js:79-80 | the end minute is the start plus the duration in minutes, to the whole minute below, and never before the start |
| Clock.SpanHours | backend/server/models/Booking.js:162-166 | the span in hours times 60 is the minute difference of the two readings; it is positive exactly when the end is later |
| Numbers.Round | backend/server/routes/bookings.js:100 | `Math.round` lies within half a unit of its argument |
| Numbers.RoundToTenth | backend/server/models/Review.js:227 | `Math.round(x * 10) / 10` lies within 0.05 of `x` |
| Numbers.MeanBounds | backend/server/models/Review.js:225 | the mean of a non-empty list lies within any bounds on its elements |
| Numbers.RunningMean | backend/server/models/Facility.js:156-158 | folding one value into the mean of n values, as `(average * count + x) / (count + 1)`, gives the mean of the n + 1 values |
| Images.KeepFirstPrimary | backend/server/models/Court.js:231-246 | the hook keeps the list length and leaves exactly one primary image if there was any, none otherwise |
| Images.KeepFirstPrimaryAt | backend/server/models/Court.js:236-242 | position by position: the first primary keeps its flag, later primaries lose theirs, every other field and image is unchanged |
| Images.FirstPrimaryKept | backend/server/models/Court.js:237-238 | the first originally primary image is still primary afterwards |
| Images.KeepFirstPrimaryNoOp | backend/server/models/Court.js:233-234 | a list with at most one primary image is left as it is |
| Images.KeepFirstPrimaryIdempotent | backend/server/models/Court.js:231-246 | running the hook twice is running it once |
| Images.NormalizePrimary | backend/server/models/Court.js:232-245 | the in-place loop with the `foundPrimary` flag leaves the array equal to the specification list of its old contents |
| Bookings.ParseStatus | backend/server/models/Booking.js:60-64 | only the five status names are accepted, each naming its own status |
| Bookings.StatusNamesRoundTrip | backend/server/models/Booking.js:60-64 | every status's stored name parses back to it |
| Bookings.DurationHours | backend/server/models/Booking.js:162-166 | the `durationHours` virtual times 60 is the minutes from start to end |
| Bookings.PreSave | backend/server/models/Booking.js:234-241 | the hook sets `duration` to the virtual and changes nothing else; the duration is positive exactly when the end is after the start |
| Bookings.TimeSlotStartsWithStartTime | backend/server/models/Booking.js:179-181 | the `timeSlot` label up to its first space is the start time |
| Bookings.PastOnlyAfterStart | backend/server/models/Booking.js:184-190 | a booking with end after start counts as past only once its start instant is before now |
| Bookings.HoursUntilStart | backend/server/models/Booking.js:214-219 | the hours until the start, times one hour in milliseconds, is the start instant minus now |
| Bookings.RefundAmount | backend/server/models/Booking.js:209-212 | the refund is zero unless the cancellation flag is set |
| Bookings.RefundWithinPrice | backend/server/models/Booking.js:219-230 | the refund lies between zero and the total price |
| Bookings.RefundNonIncreasingInTime | backend/server/models/Booking.js:219-230 | a later `now` never yields a larger refund |
| Bookings.RefundTierExamples | backend/server/models/Booking.js:219-230 | 30, 10 and 1 hours ahead of a 1000 booking, the refund is 1000, 500 and 0 |
| Bookings.RefundInsideCancellationWindowIsFull | backend/server/models/Booking.js:193-231 | before the `canBeCancelled` deadline, the refund computed with the same `now` is the full price |
| Courts.DefaultPricing | backend/server/models/Court.js:59-80 | default multipliers are peak 1.5, weekend 1.2 and holiday 1.3, in INR |
| Courts.AdjustedRate | backend/server/models/Court.js:207-220 | the step-by-step rate is base × weekend factor × peak factor |
| Courts.CalculatePrice | backend/server/models/Court.js:206-228 | `calculatePrice` returns the specification price for the date, the start hour and the clock span |
| Courts.OffPeakWeekdayPrice | backend/server/models/Court.js:222-227 | on an off-peak weekday the price is base × hours |
| Courts.WeekendSurcharge | backend/server/models/Court.js:209-213 | a Saturday or Sunday costs the weekday price times the weekend multiplier |
| Courts.PeakDecidedByStartHour | backend/server/models/Court.js:215-220 | a start at 20:00 costs the 12:00 price times the peak multiplier; a start at 17:00 costs the 12:00 price |
| Courts.HolidayMultiplierIgnored | backend/server/models/Court.js:206-228 | the holiday multiplier never affects the price |
| Courts.PriceDominatesBase | backend/server/models/Court.js:206-228 | with multipliers of at least one, the price lies beyond base × hours from zero, so it has the sign of the span |
| Courts.SaturdayPeakExample | backend/server/models/Court.js:206-228 | 19:00 to 21:00 on a Saturday at base 800 with the defaults costs 2880 |
| Courts.AvailabilityIsStatusAndWeekday | backend/server/models/Court.js:188-203 | the court is available exactly when it is active, not under maintenance, and open on that weekday; no booking is consulted |
| Courts.AvailabilityAsWrittenThrows | backend/server/models/Court.js:193-195 | as written, every active court not under maintenance makes the method throw |
| Courts.AvailabilityAsWrittenAgreesWhenItAnswers | backend/server/models/Court.js:189-191 | where the written method returns, it returns false, as the intended one does |
| Courts.PreSave | backend/server/models/Court.js:231-246 | the court hook replaces the images by their single-primary normalisation (the first primary keeps its flag, order and every other entry unchanged), leaves at most one primary, changes no other field, and is a no-op when at most one was primary |
| Facilities.Facility.constructor | backend/server/models/Facility.js:102-113 | a new facility has rating average 0 and count 0 |
| Facilities.Facility.FullAddress | backend/server/models/Facility.js:150-152 | `fullAddress` is the street, `", "`, the city, `", "`, the state, a space and the ZIP code, position by position |
| Facilities.Facility.UpdateRating | backend/server/models/Facility.js:155-160 | the count grows by one; the average is `(old average × old count + rating) / new count`, the mean of all ratings folded in; saving succeeds exactly when the average is within [0, 5], always when every rating was; a successful save runs the image hook, so the images become their single-primary normalisation, and a failed one leaves them |
| Facilities.Facility.PreSave | backend/server/models/Facility.js:163-179 | the facility hook applies the single-primary rule in place: at most one primary afterwards, untouched when at most one was |
| Reviews.AverageCategoryRating | backend/server/models/Review.js:144-151 | with no category score present the result is the rating; otherwise it times the number of scores is their sum |
| Reviews.AverageCategoryRatingWithinBounds | backend/server/models/Review.js:23-71 | for a review within the schema bounds, the category average lies in [1, 5] |
| Reviews.IndexOf | backend/server/models/Review.js:174 | `indexOf` is -1 exactly when the user is absent, else the first position holding it |
| Reviews.MarkIdempotent | backend/server/models/Review.js:163-170 | marking the same user twice is marking once |
| Reviews.UnmarkUndoesMark | backend/server/models/Review.js:163-181 | unmarking a user just marked restores the list |
| Reviews.VotesStayDistinct | backend/server/models/Review.js:163-181 | both updates keep the voter list free of repeats; after unmarking, the user is absent |
| Reviews.UnmarkRemovesOneCopy | backend/server/models/Review.js:173-181 | unmarking removes exactly one occurrence of the user, if any |
| Reviews.Review.constructor | backend/server/models/Review.js:72-86 | a new review is pending with no votes, no voters and no flags |
| Reviews.Review.MarkHelpful | backend/server/models/Review.js:163-170 | appends an absent user and counts the vote, else changes nothing; the count stays the number of voters; rating, status, title, comment, categories and flags are unchanged |
| Reviews.Review.UnmarkHelpful | backend/server/models/Review.js:173-181 | splices out a present user and uncounts the vote, else changes nothing; the count stays the number of voters; rating, status, title, comment, categories and flags are unchanged |
| Reviews.Review.FlagReview | backend/server/models/Review.js:184-199 | appends a pending flag unless the user already has one pending; no user ever has two pending flags; votes, rating, status, title, comment and categories are unchanged, so a flagged review keeps its approval and rating |
| Reviews.AfterSave | backend/server/models/Review.js:218-230 | with approved reviews of the target, the count is their number and the average lies within 0.05 of their exact mean (their mean rounded to one decimal); with none, the summary is left as it was |
| Reviews.AfterRemove | backend/server/models/Review.js:258-276 | the removed review is left out; the count is the number of remaining approved reviews and the average lies within 0.05 of their exact mean; with none both reset to 0 |
| Reviews.RoundedMeanWithinRatings | backend/server/models/Review.js:224-227 | with every stored rating in [1, 5], the mean of the approved ratings, rounded to one decimal, lies in [1, 5] |
| Reviews.SummaryWithinRatings | backend/server/models/Review.js:224-229 | the average `AfterSave` and `AfterRemove` write lies in [1, 5] whenever an approved review is counted; a save with none keeps the current summary and a removal with none writes 0 |
| Reviews.RoundToTenthWithinRatings | backend/server/models/Review.js:227 | rounding to one decimal keeps a value in [1, 5] inside [1, 5] |
| Reviews.RemovingUnapprovedIsLikeSaving | backend/server/models/Review.js:259-270 | removing a review that was not approved for the target writes what a save would write |
| AuthMiddleware.Authorize | backend/server/middleware/auth.js:48-66 | 401 exactly without a user, 403 exactly for a role outside the list, pass exactly otherwise |
| AuthMiddleware.AuthorizeMonotone | backend/server/middleware/auth.js:57 | allowing more roles never refuses a request that passed |
| AuthMiddleware.CheckOwnership | backend/server/middleware/auth.js:98-130 | 404 for a missing resource; pass exactly for an admin or the owner (`_id` on the user model, `owner` otherwise); 403 exactly for another user |
| AuthMiddleware.UsersReachOnlyThemselves | backend/server/middleware/auth.js:114-122 | on the user model a non-admin passes exactly for its own document |
| AuthMiddleware.Recent | backend/server/middleware/auth.js:141 | the filter keeps exactly the timestamps after the window start, with every copy of each (two attempts in the same millisecond both count), and drops all others |
| AuthMiddleware.RecentKeepsOrder | backend/server/middleware/auth.js:141-145 | pruning keeps the recorded order: ascending timestamps stay ascending |
| AuthMiddleware.RecentKeepsFresh | backend/server/middleware/auth.js:141 | a list already inside the window survives pruning unchanged |
| AuthMiddleware.RecentTwice | backend/server/middleware/auth.js:138-141 | pruning at one window start and then a later one is pruning at the later one |
| AuthMiddleware.RateLimiter.constructor | backend/server/middleware/auth.js:133-134 | a new limiter has the given limit and window and no keys |
| AuthMiddleware.RateLimiter.Hit | backend/server/middleware/auth.js:135-154 | prunes the key's list; refuses exactly when `maxAttempts` or more remain and then records only the pruning, otherwise appends now; no list exceeds the limit; other keys are untouched |
| AuthMiddleware.FullWindowRefuses | backend/server/middleware/auth.js:145-151 | a key holding `maxAttempts` timestamps all inside the window is refused |
| Users.ParseRole | backend/server/models/User.js:33-37 | only the three role names are accepted, each naming its own role |
| Users.RoleNamesRoundTrip | backend/server/models/User.js:33-37 | every role's stored name parses back to it |
| Users.Split | backend/server/models/User.js:88 | `split(' ')` yields at least one segment; the first is empty exactly when the name is empty or starts with a space |
| Users.SplitThenFirstCharsIsWordStarts | backend/server/models/User.js:87-90 | splitting and joining first characters yields exactly the non-space characters at the start or right after a space |
| Users.Initials | backend/server/models/User.js:86-93 | `initials` has at most two characters, never a space: the upper-cased first two word starts |
| Users.InitialsOfTwoWords | backend/server/models/User.js:86-93 | `jo li` gives `JL` |
| Users.InitialsOfThreeWords | backend/server/models/User.js:92 | `jo el li` gives `JE`: only two initials are kept |
| Users.InitialsSkipEmptySegments | backend/server/models/User.js:88-89 | leading spaces contribute nothing, and an empty name gives an empty string |
| Users.User.constructor | backend/server/models/User.js:67-70 | a new user has role `user`, login count 0 and no last login |
| Users.User.UpdateLastLogin | backend/server/models/User.js:141-145 | sets the last login to now and increments the count by one, so the count is always the number of logins |
| Users.User.ExactlyOneRole | backend/server/models/User.js:148-160 | for a role the enum accepts, exactly one of `isAdmin`, `isFacilityOwner` and `isUser` holds, and it names that role |
| AuthReducer.StartOnlyLoads | frontend/client/src/contexts/AuthContext.js:18-19 | `AUTH_START` sets loading and changes nothing else |
| AuthReducer.SuccessSignsIn | frontend/client/src/contexts/AuthContext.js:20-27 | `AUTH_SUCCESS` installs the payload's user and token, signed in, not loading |
| AuthReducer.FailIsLogout | frontend/client/src/contexts/AuthContext.js:28-43 | `AUTH_FAIL` and `LOGOUT` both give the signed-out state from any state |
| AuthReducer.LogoutIdempotent | frontend/client/src/contexts/AuthContext.js:36-43 | logging out twice is logging out once |
| AuthReducer.UpdateOnlyUser | frontend/client/src/contexts/AuthContext.js:44-48 | `UPDATE_USER` replaces the user and nothing else |
| AuthReducer.UnknownActionIsNoOp | frontend/client/src/contexts/AuthContext.js:49-50 | an unknown action type leaves the state unchanged |
| AuthReducer.AuthenticatedFollowsLastDecision | frontend/client/src/contexts/AuthContext.js:16-52 | after any actions, the client is signed in exactly when the last sign-in, failure or logout was a sign-in; after a failure or logout no token remains |
| RoleRoute.Decide | frontend/client/src/components/auth/RoleRoute.js:5-27 | no user goes to `/login`; an allowed role is rendered, exactly then; a disallowed role goes to its own dashboard, or `/` for an unknown role |
| RoleRoute.GuardAgreesWithServer | frontend/client/src/components/auth/RoleRoute.js:12 | the client guard renders exactly when the server's `authorize` with the same roles passes |
| RoleRoute.LoginOnlyForSignedOut | frontend/client/src/components/auth/RoleRoute.js:8-10 | the redirect to `/login` happens exactly when nobody is signed in |
| BookingRoutes.RequestPaymentMethod | backend/server/routes/bookings.js:31 | exactly `credit_card`, `debit_card`, `cash` and `online` are accepted; `paypal` is not |
| BookingRoutes.FallbackIsOffPeakWeekdayPrice | backend/server/routes/bookings.js:101-106 | the fallback price agrees with the court's price on an off-peak weekday |
| BookingRoutes.FallbackMissesSurcharges | backend/server/routes/bookings.js:101-106 | on a Saturday evening the fallback charges 800 where the court charges 1440 |
| BookingRoutes.AdmittedRecord | backend/server/routes/bookings.js:108-130 | corrected admission (code as written: AdmitAsWritten): an admitted booking is confirmed and paid; amount = total = rounded court price; padded end time; positive duration; not cancelled; id = next position |
| BookingRoutes.ConflictRefusedIff | backend/server/routes/bookings.js:84-95 | corrected admission (code as written: AdmitAsWritten): a valid request is refused as a conflict exactly when an active booking of the court and day overlaps it |
| BookingRoutes.BackToBackDoesNotBlock | backend/server/routes/bookings.js:88 | a booking ending at the slot's start, or starting at its end, is no conflict |
| BookingRoutes.CancelledDoesNotBlock | backend/server/routes/bookings.js:90-91 | a cancelled booking is never a conflict |
| BookingRoutes.AdmitPreservesNoDoubleBooking | backend/server/routes/bookings.js:84-108 | corrected admission (code as written: AdmitAsWritten): admitting keeps active bookings of every court and day pairwise non-overlapping |
| BookingRoutes.AdmitPreservesStoreInvariant | backend/server/routes/bookings.js:108-130 | corrected admission (code as written: AdmitAsWritten): admitting keeps every stored booking well formed and the store free of double bookings |
| BookingRoutes.BookingStore.FindConflict | backend/server/routes/bookings.js:84-92 | corrected admission (code as written: AdmitAsWritten), comparing clock minutes: the scan returns an overlapping active booking if one exists, and nothing exactly when none does |
| BookingRoutes.BookingStore.Create | backend/server/routes/bookings.js:26-130 | corrected admission (code as written: AdmitAsWritten): the create route returns the admission decision and appends the booking exactly when admitted |
| BookingRoutes.RouteCancelRuleIsCanBeCancelled | backend/server/routes/bookings.js:175-184 | the route's inline deadline test is the schema's `canBeCancelled` |
| BookingRoutes.ReasonOrDefault | backend/server/routes/bookings.js:191 | the stored reason is never empty; a missing or empty reason becomes `Cancelled by user` |
| BookingRoutes.CancelledRecordKeepsPrice | backend/server/routes/bookings.js:186-196 | cancelled by the user with the given reason, payment refunded; price and amount kept; no refund amount; no longer active |
| BookingRoutes.CancelRefundWouldBeFull | backend/server/routes/bookings.js:175-196 | for a booking the route has just cancelled, the schema refund with the same `now` is the full price |
| BookingRoutes.CancelPreservesNoDoubleBooking | backend/server/routes/bookings.js:186-196 | cancelling keeps the no-double-booking invariant |
| BookingRoutes.CancelPreservesStoreInvariant | backend/server/routes/bookings.js:186-196 | cancelling keeps every stored booking well formed |
| BookingRoutes.BookingStore.Cancel | backend/server/routes/bookings.js:168-196 | 404 for an unknown id, 403 for another user, refusal after the deadline or status; otherwise the booking becomes the cancelled record; nothing else changes, and inactive bookings never do |
| BookingRoutes.EndTimeAsWritten | backend/server/routes/bookings.js:79-81 | the written end time is padded and reads as start plus duration modulo one day |
| BookingRoutes.StringFilterAgreesWhenPadded | backend/server/routes/bookings.js:88 | when all four readings are padded, the string overlap filter is the clock-minute filter |
| BookingRoutes.EndTimeRendered | backend/server/routes/bookings.js:79-81 | the end time the route renders: the wrapped padded reading when the start is padded or the engine reads a one-digit hour, and a string failing the time pattern (`NaN:NaN`) when a strict engine turns the start into an invalid date |
| BookingRoutes.UnpaddedStartRejectedWhenStrict | backend/server/routes/bookings.js:79-95 | on an engine that rejects `2000-01-01T9:30`, a valid one-digit-hour request is never stored: 409 when a stored booking's strings bracket `NaN:NaN`, otherwise the schema rejects the `NaN:NaN` end time on insert (the 500 of line 140) |
| BookingRoutes.PaddedStartIgnoresParsing | backend/server/routes/bookings.js:79 | a request with a two-digit start hour gets the same answer on a strict and a lenient engine |
| BookingRoutes.UnpaddedStartDoubleBooks | backend/server/routes/bookings.js:79-92 | as written, `9:30` for one hour beside a stored 10:00 to 11:00: on an engine that reads the one-digit hour, it gets end `10:30`, passes the string filter and is stored, breaking no-double-booking; on an engine that rejects it, the insert fails and nothing is stored; the corrected admission refuses it as a conflict |
| BookingRoutes.MidnightWrapAdmitsOverlap | backend/server/routes/bookings.js:79-81 | as written, on every engine (the start is padded), 23:00 for two hours ends at `01:00`, slips past 23:00 to 23:30, and gets duration -22 and a negative price; the corrected admission refuses it |
| BookingRoutes.NegativeSpanNegativePrice | backend/server/models/Court.js:222-227 | with the default pricing, a span whose end reads before its start is priced below zero |

## Left out

- MongoDB persistence (`findById`, `findOne`, `create`, `populate`, `save`) becomes in-memory state. The demo facility and court auto-creation in the create route is not modelled: the model takes the resolved facility id and court as inputs.
- The check-then-insert race in the create route: the model is sequential.
- JavaScript `Date` parsing, local time zones and daylight saving time: dates are day numbers and times minutes. The one exception is the engine-dependent reading of a one-digit start hour, which `BookingRoutes.DateParsing` makes a parameter.
- BookingRoutes.UnpaddedStartDoubleBooks: the double booking needs an engine that reads `2000-01-01T9:30`; ECMAScript leaves that string to the implementation, and the engine the server runs on is not part of this model. On an engine that rejects it, `BookingRoutes.UnpaddedStartRejectedWhenStrict` gives the outcome instead: every one-digit start hour is refused (409 or 500).
- IEEE floating point: prices, multipliers and averages are exact reals, and `Math.round` is `floor(x + 0.5)` on reals.
- BookingRoutes.FallbackTotal: the catch branch of the create route is modelled as a function, but `Admit` never takes it, because the court's pricing method cannot throw in this model.
- The request-body validators beyond the start time, the duration and the payment method: `facilityId`/`courtId` presence, the ISO date check and the `isMongoId` check on the cancel route. Ids are naturals here.
- The `SIM-` transaction id string: only the `Date.now()` it is built from is kept.
- Save-time schema validation of the stored booking, court, review and user documents, and the failure of a save in general. The exception is `Facilities.Facility.UpdateRating`, whose result is the rating bounds check.
- JWT, bcrypt and crypto tokens: `protect`, `optionalAuth`, `requireVerification`, password hooks and reset tokens.
- Email delivery, HTML templates, the `formattedDate` virtuals, `respondToReview`, and the React UI.
- The `AuthProvider` side effects: HTTP requests and local storage.
- Reviews.Review: ratings and category scores are reals; `trim` on the title and comment is not modelled.
- Users.Upper: `toUpperCase` is modelled for ASCII letters only.
- Reviews.AfterSave: the hooks' catch-all error handling, and the write to the facility or court document itself. The functions return the summary that would be written, and the hook runs them for the facility and, when present, the court.
- The booking store stores only confirmed bookings, because that is all the create route produces. `markCompleted` and no-show transitions do not exist in the source.

## Findings

| source | as written | input that shows it | evidently intended | confidence | as-written member | corrected member |
|---|---|---|---|---|---|---|
| backend/server/routes/bookings.js:88 | the overlap filter compares `HH:MM` strings, while the start pattern at line 29 admits a one-digit hour | stored booking 10:00 to 11:00; request `9:30` for 1 hour. On an engine that reads the one-digit hour: end `10:30`; `"9:30" < "11:00"` is false as strings, so no conflict is found and two overlapping bookings become active. On an engine that rejects `2000-01-01T9:30` (line 79): end `NaN:NaN`, the schema pattern refuses it on insert, and the route answers 500, so no valid one-digit start hour can ever be booked | compare clock minutes, which also admits or refuses `9:30` like `09:30` | medium, not executed: which of the two outcomes occurs depends on the engine's date parser | BookingRoutes.UnpaddedStartDoubleBooks | BookingRoutes.AdmitPreservesNoDoubleBooking |
| backend/server/routes/bookings.js:79-81 | the end time is the clock reading of start plus duration, wrapping past midnight | stored booking 23:00 to 23:30; request 23:00 for 2 hours; end `01:00`; no stored start sorts below `01:00`, so it is admitted over the stored booking with duration -22 hours and a negative price | refuse a slot that crosses midnight | high, not executed | BookingRoutes.MidnightWrapAdmitsOverlap | BookingRoutes.AdmitPreservesStoreInvariant |
| backend/server/models/Court.js:193 | `toLocaleDateString('en-US', { weekday: 'lowercase' })` passes a value the option does not accept, so it throws `RangeError` | any active court not under maintenance, on any date | look up the court's `isOpen` for the lower-case weekday name | high, not executed | Courts.AvailabilityAsWrittenThrows | Courts.AvailabilityIsStatusAndWeekday |
