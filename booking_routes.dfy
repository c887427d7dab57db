/**
 * The booking routes: admitting a new booking (validation, end-time
 * derivation, the overlap check against stored bookings of the same court
 * and day, pricing, and the stored record) and cancelling one (ownership,
 * status and the 24-hour deadline). Storage is an in-memory sequence in
 * which a booking's id is its position.
 */
module BookingRoutes {
  import opened Wrappers
  import opened Clock
  import opened Numbers
  import opened Bookings
  import Courts

  /** A create request, after the facility and court documents have been resolved. */
  datatype Request = Request(day: int, startTime: string, durationHours: real, paymentMethod: string)

  /**
   * Why a create request is refused. `RecordRejected` is the schema
   * refusing the record on insert, which the route answers with a 500.
   */
  datatype CreateError = InvalidRequest | CourtNotInFacility | CrossesMidnight | SlotConflict | RecordRejected
  datatype CancelError = BookingNotFound | NotAuthorized | CannotCancelNow

  const MinDurationHours: real := 0.5
  const MaxDurationHours: real := 6.0
  const DefaultCancelReason: string := "Cancelled by user"
  const BookingCurrency: string := "INR"

  /** The payment methods a request may name; the schema's `paypal` is not among them. */
  function RequestPaymentMethod(name: string): (r: Option<PaymentMethod>)
    ensures r.Some? ==> r.value != PayPal
    ensures r.Some? <==> name in ["credit_card", "debit_card", "cash", "online"]
  {
    if name == "credit_card" then Some(CreditCard)
    else if name == "debit_card" then Some(DebitCard)
    else if name == "cash" then Some(Cash)
    else if name == "online" then Some(Online)
    else None
  }

  /** The body checks that run before any lookup. */
  predicate ValidRequest(req: Request)
  {
    && MatchesTimePattern(req.startTime)
    && MinDurationHours <= req.durationHours <= MaxDurationHours
    && RequestPaymentMethod(req.paymentMethod).Some?
  }

  /** A booking the overlap query considers: pending or confirmed, and not flagged cancelled. */
  predicate IsActive(b: Booking)
  {
    (b.status == Pending || b.status == Confirmed) && !b.cancellation.isCancelled
  }

  /**
   * The stored booking `b` stands in the way of the slot [startMinute,
   * endMinute) on `court` and `day`: clock readings compared as numbers.
   */
  predicate Blocks(b: Booking, court: nat, day: int, startMinute: int, endMinute: int)
  {
    && b.court == court && b.day == day && IsActive(b) && WellTimed(b)
    && MinutesOf(b.startTime) < endMinute && MinutesOf(b.endTime) > startMinute
  }

  predicate HasConflict(bs: seq<Booking>, court: nat, day: int, startMinute: int, endMinute: int)
  {
    exists i :: 0 <= i < |bs| && Blocks(bs[i], court, day, startMinute, endMinute)
  }

  /** Two bookings' half-open clock intervals intersect. */
  predicate Overlap(a: Booking, b: Booking)
    requires WellTimed(a) && WellTimed(b)
  {
    MinutesOf(a.startTime) < MinutesOf(b.endTime) && MinutesOf(b.startTime) < MinutesOf(a.endTime)
  }

  /** The no-double-booking invariant: active bookings of one court and day never overlap. */
  predicate NoDoubleBooking(bs: seq<Booking>)
  {
    forall i, j ::
      0 <= i < |bs| && 0 <= j < |bs| && i != j
      && bs[i].court == bs[j].court && bs[i].day == bs[j].day
      && IsActive(bs[i]) && IsActive(bs[j]) && WellTimed(bs[i]) && WellTimed(bs[j])
      ==> !Overlap(bs[i], bs[j])
  }

  /** The price charged: `Math.round` of the court's price for the slot. */
  function TotalPrice(court: Courts.Court, day: int, startTime: string, endTime: string): int
    requires MatchesTimePattern(startTime) && MatchesTimePattern(endTime)
  {
    Round(Courts.Price(court.pricing, day, HourOf(startTime), SpanHours(startTime, endTime)))
  }

  /** The base price the pricing fallback uses when the court's is zero or missing. */
  const FallbackBasePrice: real := 800.0

  /**
   * The price the create route falls back to when the court's pricing
   * method throws: base price (or 800) times the clock span in hours (or the
   * requested duration when the span is zero), rounded.
   */
  function FallbackTotal(basePrice: real, spanHours: real, durationHours: real): int
  {
    Round((if basePrice != 0.0 then basePrice else FallbackBasePrice) * (if spanHours != 0.0 then spanHours else durationHours))
  }

  /**
   * The fallback ignores both multipliers: it agrees with the court's price
   * on an off-peak weekday, and only there when the multipliers exceed one.
   */
  lemma FallbackIsOffPeakWeekdayPrice(p: Courts.CourtPricing, day: int, startHour: nat, spanHours: real, durationHours: real)
    requires p.basePrice != 0.0 && spanHours != 0.0
    requires !Courts.IsWeekend(day) && !Courts.IsPeakHour(startHour)
    ensures FallbackTotal(p.basePrice, spanHours, durationHours) == Round(Courts.Price(p, day, startHour, spanHours))
  {
    Courts.OffPeakWeekdayPrice(p, day, startHour, spanHours);
  }

  /** On a Saturday evening the fallback charges 800 where the default pricing charges 1440 for the same hour. */
  lemma FallbackMissesSurcharges()
    ensures FallbackTotal(800.0, 1.0, 1.0) == 800
    ensures Round(Courts.Price(Courts.DefaultPricing(800.0), 2, 19, 1.0)) == 1440
  {
    RoundOfInteger(800);
    assert Courts.Price(Courts.DefaultPricing(800.0), 2, 19, 1.0) == 1440.0;
    RoundOfInteger(1440);
  }

  /** The record the create route inserts, after the pre-save hook has recomputed `duration`. */
  function NewBooking(id: nat, user: nat, facilityId: nat, court: Courts.Court, req: Request,
                      endTime: string, now: int): Booking
    requires ValidRequest(req) && MatchesTimePattern(endTime)
  {
    var total := TotalPrice(court, req.day, req.startTime, endTime);
    PreSave(Booking(id, user, facilityId, court.id, req.day, req.startTime, endTime, req.durationHours,
                    Pricing(court.pricing.basePrice, total, BookingCurrency), Confirmed,
                    Payment(RequestPaymentMethod(req.paymentMethod).value, PaymentCompleted, total, now, now),
                    NotCancelled))
  }

  /**
   * The admission decision. Invalid bodies are refused first, then a court
   * of another facility; the end time is the start plus the duration,
   * zero-padded; a slot that would run past midnight is refused; so is one
   * that some active booking of the same court and day overlaps.
   */
  function Admit(bs: seq<Booking>, user: nat, facilityId: nat, court: Courts.Court,
                 req: Request, now: int): Result<Booking, CreateError>
  {
    if !ValidRequest(req) then Failure(InvalidRequest)
    else if court.facility != facilityId then Failure(CourtNotInFacility)
    else
      var startMinute := MinutesOf(req.startTime);
      var endMinute := EndMinute(startMinute, req.durationHours);
      if endMinute >= MinutesPerDay then Failure(CrossesMidnight)
      else if HasConflict(bs, court.id, req.day, startMinute, endMinute) then Failure(SlotConflict)
      else Success(NewBooking(|bs|, user, facilityId, court, req, FormatTime(endMinute), now))
  }

  /** The shape of an admitted booking. */
  lemma AdmittedRecord(bs: seq<Booking>, user: nat, facilityId: nat, court: Courts.Court, req: Request, now: int)
    requires Admit(bs, user, facilityId, court, req, now).Success?
    ensures ValidRequest(req)
    ensures var b := Admit(bs, user, facilityId, court, req, now).value;
      var startMinute := MinutesOf(req.startTime);
      && b.id == |bs| && b.user == user && b.facility == facilityId && b.court == court.id
      && b.day == req.day && b.startTime == req.startTime
      && IsPadded(b.endTime) && MinutesOf(b.endTime) == EndMinute(startMinute, req.durationHours)
      && startMinute < MinutesOf(b.endTime) < MinutesPerDay
      && b.duration == DurationHours(b) && b.duration > 0.0
      && b.status == Confirmed && b.payment.status == PaymentCompleted
      && b.payment.amount == b.pricing.totalPrice == TotalPrice(court, req.day, req.startTime, b.endTime)
      && b.pricing.basePrice == court.pricing.basePrice
      && b.cancellation == NotCancelled
  {
  }

  /** A request is refused with a conflict exactly when an active booking of the court and day overlaps it. */
  lemma ConflictRefusedIff(bs: seq<Booking>, user: nat, facilityId: nat, court: Courts.Court, req: Request, now: int)
    requires ValidRequest(req) && court.facility == facilityId
    requires EndMinute(MinutesOf(req.startTime), req.durationHours) < MinutesPerDay
    ensures Admit(bs, user, facilityId, court, req, now) == Failure(SlotConflict) <==>
      exists i :: 0 <= i < |bs| && Blocks(bs[i], court.id, req.day, MinutesOf(req.startTime),
                                         EndMinute(MinutesOf(req.startTime), req.durationHours))
  {
  }

  /** Back-to-back slots never conflict: a booking ending when the slot starts, or starting when it ends, is no obstacle. */
  lemma BackToBackDoesNotBlock(b: Booking, court: nat, day: int, startMinute: int, endMinute: int)
    requires WellTimed(b)
    requires MinutesOf(b.endTime) == startMinute || MinutesOf(b.startTime) == endMinute
    ensures !Blocks(b, court, day, startMinute, endMinute)
  {
  }

  /** Cancelled bookings never stand in the way. */
  lemma CancelledDoesNotBlock(b: Booking, court: nat, day: int, startMinute: int, endMinute: int)
    requires b.status == Cancelled || b.cancellation.isCancelled
    ensures !Blocks(b, court, day, startMinute, endMinute)
  {
  }

  /** Admitting a booking keeps the active bookings of every court and day pairwise disjoint. */
  lemma AdmitPreservesNoDoubleBooking(bs: seq<Booking>, user: nat, facilityId: nat, court: Courts.Court,
                                      req: Request, now: int)
    requires NoDoubleBooking(bs)
    requires Admit(bs, user, facilityId, court, req, now).Success?
    ensures NoDoubleBooking(bs + [Admit(bs, user, facilityId, court, req, now).value])
  {
    var b := Admit(bs, user, facilityId, court, req, now).value;
    AdmittedRecord(bs, user, facilityId, court, req, now);
    var s, e := MinutesOf(req.startTime), EndMinute(MinutesOf(req.startTime), req.durationHours);
    var bs' := bs + [b];
    forall i, j |
      0 <= i < |bs'| && 0 <= j < |bs'| && i != j
      && bs'[i].court == bs'[j].court && bs'[i].day == bs'[j].day
      && IsActive(bs'[i]) && IsActive(bs'[j]) && WellTimed(bs'[i]) && WellTimed(bs'[j])
      ensures !Overlap(bs'[i], bs'[j])
    {
      if i == |bs| {
        assert !Blocks(bs[j], court.id, req.day, s, e);
      } else if j == |bs| {
        assert !Blocks(bs[i], court.id, req.day, s, e);
      } else {
        assert bs'[i] == bs[i] && bs'[j] == bs[j];
      }
    }
  }

  /** The cancel route's inline test: still pending or confirmed, and now before start minus 24 hours. */
  predicate RouteAllowsCancel(b: Booking, now: int)
    requires MatchesTimePattern(b.startTime)
  {
    var bookingDateTime := b.day * MsPerDay + HourOf(b.startTime) * MsPerHour + MinuteOf(b.startTime) * MsPerMinute;
    var deadline := bookingDateTime - 24 * MsPerHour;
    now < deadline && (b.status == Pending || b.status == Confirmed)
  }

  /** The route's inline test is the schema's `canBeCancelled`. */
  lemma RouteCancelRuleIsCanBeCancelled(b: Booking, now: int)
    requires MatchesTimePattern(b.startTime)
    ensures RouteAllowsCancel(b, now) <==> CanBeCancelled(b, now)
  {
  }

  predicate AllStartsWellFormed(bs: seq<Booking>)
  {
    forall i :: 0 <= i < |bs| ==> MatchesTimePattern(bs[i].startTime)
  }

  /** The cancel decision: not found, not the booking's user, too late or no longer active, or allowed. */
  function CancelDecision(bs: seq<Booking>, id: nat, caller: nat, now: int): Outcome<CancelError>
    requires AllStartsWellFormed(bs)
  {
    if id >= |bs| then Fail(BookingNotFound)
    else if bs[id].user != caller then Fail(NotAuthorized)
    else if !RouteAllowsCancel(bs[id], now) then Fail(CannotCancelNow)
    else Pass
  }

  /** `req.body?.reason || 'Cancelled by user'`. */
  function ReasonOrDefault(reason: Option<string>): (r: string)
    ensures r != ""
  {
    if reason.Some? && reason.value != "" then reason.value else DefaultCancelReason
  }

  /**
   * The record after a successful cancel and save: cancelled, the
   * cancellation sub-record replaced (by the user, at now, with a reason),
   * payment marked refunded. The price is kept and no refund amount is set.
   */
  function CancelledRecord(b: Booking, reason: Option<string>, now: int): Booking
    requires WellTimed(b)
  {
    PreSave(b.(status := Cancelled,
               cancellation := Cancellation(true, Some(ByUser), Some(now), Some(ReasonOrDefault(reason)),
                                            None, RefundPending),
               payment := b.payment.(status := PaymentRefunded)))
  }

  lemma CancelledRecordKeepsPrice(b: Booking, reason: Option<string>, now: int)
    requires WellTimed(b)
    ensures var c := CancelledRecord(b, reason, now);
      && c.status == Cancelled && c.cancellation.isCancelled && c.cancellation.cancelledBy == Some(ByUser)
      && c.cancellation.reason == Some(ReasonOrDefault(reason)) && c.payment.status == PaymentRefunded
      && c.pricing == b.pricing && c.payment.amount == b.payment.amount
      && c.cancellation.refundAmount.None?
      && StartInstant(c) == StartInstant(b) && !IsActive(c)
  {
  }

  /**
   * The refund the schema would compute for a booking the route has just
   * cancelled, with the same `now`, is always the full price: the route only
   * cancels before the 24-hour deadline. The route itself records no refund.
   */
  lemma CancelRefundWouldBeFull(bs: seq<Booking>, id: nat, caller: nat, reason: Option<string>, now: int)
    requires AllStartsWellFormed(bs)
    requires CancelDecision(bs, id, caller, now) == Pass
    requires WellTimed(bs[id])
    ensures RefundAmount(CancelledRecord(bs[id], reason, now), now) == bs[id].pricing.totalPrice as real
  {
    var c := CancelledRecord(bs[id], reason, now);
    CancelledRecordKeepsPrice(bs[id], reason, now);
    RefundInsideCancellationWindowIsFull(c, now);
  }

  /** Cancelling only removes a booking from the active ones, so the invariant survives. */
  lemma CancelPreservesNoDoubleBooking(bs: seq<Booking>, id: nat, reason: Option<string>, now: int)
    requires NoDoubleBooking(bs) && id < |bs| && WellTimed(bs[id])
    ensures NoDoubleBooking(bs[id := CancelledRecord(bs[id], reason, now)])
  {
    CancelledRecordKeepsPrice(bs[id], reason, now);
  }

  /** What every stored booking satisfies. */
  predicate StoredWellFormed(b: Booking, position: nat)
  {
    && b.id == position && WellTimed(b)
    && MinutesOf(b.startTime) < MinutesOf(b.endTime)
    && b.duration == DurationHours(b)
    && (b.status == Confirmed || b.status == Cancelled)
    && (b.cancellation.isCancelled <==> b.status == Cancelled)
    && b.payment.status == (if b.status == Cancelled then PaymentRefunded else PaymentCompleted)
    && b.payment.amount == b.pricing.totalPrice
    && b.cancellation.refundAmount.None?
  }

  predicate StoreInvariant(bs: seq<Booking>)
  {
    (forall i :: 0 <= i < |bs| ==> StoredWellFormed(bs[i], i)) && NoDoubleBooking(bs)
  }

  lemma AdmitPreservesStoreInvariant(bs: seq<Booking>, user: nat, facilityId: nat, court: Courts.Court,
                                     req: Request, now: int)
    requires StoreInvariant(bs)
    requires Admit(bs, user, facilityId, court, req, now).Success?
    ensures StoreInvariant(bs + [Admit(bs, user, facilityId, court, req, now).value])
  {
    var b := Admit(bs, user, facilityId, court, req, now).value;
    AdmittedRecord(bs, user, facilityId, court, req, now);
    AdmitPreservesNoDoubleBooking(bs, user, facilityId, court, req, now);
    var bs' := bs + [b];
    forall i | 0 <= i < |bs'| ensures StoredWellFormed(bs'[i], i) {
      if i < |bs| { assert bs'[i] == bs[i]; }
    }
  }

  lemma CancelPreservesStoreInvariant(bs: seq<Booking>, id: nat, caller: nat, reason: Option<string>, now: int)
    requires StoreInvariant(bs)
    requires CancelDecision(bs, id, caller, now) == Pass
    ensures StoreInvariant(bs[id := CancelledRecord(bs[id], reason, now)])
  {
    CancelledRecordKeepsPrice(bs[id], reason, now);
    CancelPreservesNoDoubleBooking(bs, id, reason, now);
  }

  /** The bookings collection, with the create and cancel routes as methods. */
  class BookingStore {
    var bookings: seq<Booking>

    ghost predicate Valid()
      reads this
    {
      StoreInvariant(bookings)
    }

    constructor ()
      ensures Valid() && bookings == []
    {
      bookings := [];
    }

    /** The overlap query: a scan for an active booking of the court and day that overlaps the slot. */
    method FindConflict(court: nat, day: int, startMinute: int, endMinute: int) returns (found: Option<nat>)
      ensures found.Some? ==> found.value < |bookings| && Blocks(bookings[found.value], court, day, startMinute, endMinute)
      ensures found.None? <==> !HasConflict(bookings, court, day, startMinute, endMinute)
    {
      for i := 0 to |bookings|
        invariant forall k :: 0 <= k < i ==> !Blocks(bookings[k], court, day, startMinute, endMinute)
      {
        var b := bookings[i];
        if b.court == court && b.day == day && IsActive(b) && WellTimed(b)
           && MinutesOf(b.startTime) < endMinute && MinutesOf(b.endTime) > startMinute
        {
          return Some(i);
        }
      }
      return None;
    }

    /** The create route. */
    method Create(user: nat, facilityId: nat, court: Courts.Court, req: Request, now: int)
      returns (res: Result<Booking, CreateError>)
      requires Valid()
      modifies this
      ensures Valid()
      ensures res == Admit(old(bookings), user, facilityId, court, req, now)
      ensures bookings == if res.Success? then old(bookings) + [res.value] else old(bookings)
    {
      if !ValidRequest(req) {
        return Failure(InvalidRequest);
      }
      if court.facility != facilityId {
        return Failure(CourtNotInFacility);
      }
      var startMinute := MinutesOf(req.startTime);
      var endMinute := EndMinute(startMinute, req.durationHours);
      if endMinute >= MinutesPerDay {
        return Failure(CrossesMidnight);
      }
      var endTime := FormatTime(endMinute);
      var conflict := FindConflict(court.id, req.day, startMinute, endMinute);
      if conflict.Some? {
        return Failure(SlotConflict);
      }
      var price := Courts.CalculatePrice(court, req.day, req.startTime, endTime);
      var totalPrice := Round(price);
      var booking := PreSave(Booking(
        |bookings|, user, facilityId, court.id, req.day, req.startTime, endTime, req.durationHours,
        Pricing(court.pricing.basePrice, totalPrice, BookingCurrency), Confirmed,
        Payment(RequestPaymentMethod(req.paymentMethod).value, PaymentCompleted, totalPrice, now, now),
        NotCancelled));
      res := Success(booking);
      AdmitPreservesStoreInvariant(bookings, user, facilityId, court, req, now);
      bookings := bookings + [booking];
    }

    /** The cancel route, for the caller `caller` at instant `now`. */
    method Cancel(id: nat, caller: nat, reason: Option<string>, now: int) returns (res: Outcome<CancelError>)
      requires Valid()
      modifies this
      ensures Valid()
      ensures AllStartsWellFormed(old(bookings))
      ensures res == CancelDecision(old(bookings), id, caller, now)
      ensures res.Pass? ==> bookings == old(bookings)[id := CancelledRecord(old(bookings)[id], reason, now)]
      ensures res.Fail? ==> bookings == old(bookings)
      ensures |bookings| == |old(bookings)|
      ensures forall i :: 0 <= i < |bookings| && !IsActive(old(bookings)[i]) ==> bookings[i] == old(bookings)[i]
    {
      if id >= |bookings| {
        return Fail(BookingNotFound);
      }
      var b := bookings[id];
      if b.user != caller {
        return Fail(NotAuthorized);
      }
      var bookingDateTime := b.day * MsPerDay + HourOf(b.startTime) * MsPerHour + MinuteOf(b.startTime) * MsPerMinute;
      var deadline := bookingDateTime - 24 * MsPerHour;
      var isFutureAllowed := now < deadline && (b.status == Pending || b.status == Confirmed);
      if !isFutureAllowed {
        return Fail(CannotCancelNow);
      }
      var cancelled := b.(status := Cancelled,
                          cancellation := Cancellation(true, Some(ByUser), Some(now), Some(ReasonOrDefault(reason)),
                                                       None, RefundPending));
      cancelled := cancelled.(payment := cancelled.payment.(status := PaymentRefunded));
      CancelPreservesStoreInvariant(bookings, id, caller, reason, now);
      bookings := bookings[id := PreSave(cancelled)];
      res := Pass;
    }
  }

  // The admission as written, kept beside the corrected one above: the end
  // time wraps past midnight, and the overlap query compares the `HH:MM`
  // strings, which orders clock times correctly only when both are padded.

  /** `end.getHours()` and `end.getMinutes()`, padded: the end clock reading, wrapped modulo one day. */
  function EndTimeAsWritten(startMinute: nat, durationHours: real): (t: string)
    requires durationHours >= 0.0
    ensures IsPadded(t)
    ensures MinutesOf(t) == EndMinute(startMinute, durationHours) % MinutesPerDay
  {
    FormatTime(EndMinute(startMinute, durationHours) % MinutesPerDay)
  }

  /** The overlap filter as the query states it: `startTime < endTime` and `endTime > startTime` on strings. */
  predicate StringBlocks(b: Booking, court: nat, day: int, startTime: string, endTime: string)
  {
    && b.court == court && b.day == day && IsActive(b)
    && StrLess(b.startTime, endTime) && StrLess(startTime, b.endTime)
  }

  predicate HasStringConflict(bs: seq<Booking>, court: nat, day: int, startTime: string, endTime: string)
  {
    exists i :: 0 <= i < |bs| && StringBlocks(bs[i], court, day, startTime, endTime)
  }

  /**
   * How the engine reads `2000-01-01T9:30`. A one-digit hour lies outside
   * ECMAScript's Date Time String Format, which needs two hour digits, and
   * `Date.parse` (section 21.4.3.2 of ECMAScript 2024) leaves such strings
   * to the implementation: a strict engine gives an invalid date, a lenient
   * one reads the clock time.
   */
  datatype DateParsing = StrictIso | Lenient

  /** `String(NaN)` twice around the colon: the end time rendered from an invalid date. */
  const InvalidEndTime: string := "NaN:NaN"

  /** The end time the route renders: from the parsed start, or from an invalid date when the engine rejects the start. */
  function EndTimeRendered(startTime: string, durationHours: real, parsing: DateParsing): (t: string)
    requires MatchesTimePattern(startTime) && durationHours >= 0.0
    ensures IsPadded(startTime) || parsing == Lenient ==> t == EndTimeAsWritten(MinutesOf(startTime), durationHours)
    ensures !IsPadded(startTime) && parsing == StrictIso ==> !MatchesTimePattern(t)
  {
    if parsing == StrictIso && !IsPadded(startTime) then InvalidEndTime
    else EndTimeAsWritten(MinutesOf(startTime), durationHours)
  }

  /**
   * The create route as written: no midnight check, string overlap test,
   * wrapped end time, and the insert the schema refuses when the end time
   * does not match its pattern.
   */
  function AdmitAsWritten(bs: seq<Booking>, user: nat, facilityId: nat, court: Courts.Court,
                          req: Request, now: int, parsing: DateParsing): Result<Booking, CreateError>
  {
    if !ValidRequest(req) then Failure(InvalidRequest)
    else if court.facility != facilityId then Failure(CourtNotInFacility)
    else
      var endTime := EndTimeRendered(req.startTime, req.durationHours, parsing);
      if HasStringConflict(bs, court.id, req.day, req.startTime, endTime) then Failure(SlotConflict)
      else if !MatchesTimePattern(endTime) then Failure(RecordRejected)
      else Success(NewBooking(|bs|, user, facilityId, court, req, endTime, now))
  }

  /**
   * On a strict engine, a one-digit start hour is never stored: the request
   * is refused as a conflict when some stored booking's strings bracket
   * "NaN:NaN", and otherwise the insert is rejected.
   */
  lemma UnpaddedStartRejectedWhenStrict(bs: seq<Booking>, user: nat, facilityId: nat, court: Courts.Court,
                                        req: Request, now: int)
    requires ValidRequest(req) && court.facility == facilityId && !IsPadded(req.startTime)
    ensures AdmitAsWritten(bs, user, facilityId, court, req, now, StrictIso) ==
      if HasStringConflict(bs, court.id, req.day, req.startTime, InvalidEndTime) then Failure(SlotConflict)
      else Failure(RecordRejected)
  {
    assert EndTimeRendered(req.startTime, req.durationHours, StrictIso) == InvalidEndTime;
  }

  /** A padded start is read the same way by every engine. */
  lemma PaddedStartIgnoresParsing(bs: seq<Booking>, user: nat, facilityId: nat, court: Courts.Court,
                                  req: Request, now: int)
    requires IsPadded(req.startTime)
    ensures AdmitAsWritten(bs, user, facilityId, court, req, now, StrictIso) ==
            AdmitAsWritten(bs, user, facilityId, court, req, now, Lenient)
  {
  }

  /** When every clock reading involved is padded, the string filter is the clock-minute filter. */
  lemma StringFilterAgreesWhenPadded(b: Booking, court: nat, day: int, startTime: string, endTime: string)
    requires IsPadded(startTime) && IsPadded(endTime) && IsPadded(b.startTime) && IsPadded(b.endTime)
    ensures StringBlocks(b, court, day, startTime, endTime) <==>
            Blocks(b, court, day, MinutesOf(startTime), MinutesOf(endTime))
  {
    PaddedOrderIsClockOrder(b.startTime, endTime);
    PaddedOrderIsClockOrder(startTime, b.endTime);
  }

  // Fixtures for the two counterexamples below: a sample court and stored
  // booking, and the small facts about them each counterexample needs.

  /** A court of facility 7 with the default pricing, open every day. */
  function SampleCourt(): Courts.Court
  {
    Courts.Court(1, 7, Courts.DefaultPricing(800.0), Courts.Active, false,
                 [true, true, true, true, true, true, true], [])
  }

  /** A confirmed booking of `SampleCourt` on day 0. */
  function SampleBooking(startTime: string, endTime: string): Booking
  {
    Booking(0, 2, 7, 1, 0, startTime, endTime, 1.0, Pricing(800.0, 800, BookingCurrency), Confirmed,
            Payment(Cash, PaymentCompleted, 800, 0, 0), NotCancelled)
  }

  /** The fields of a new record that the counterexamples below look at. */
  lemma NewBookingFields(id: nat, user: nat, facilityId: nat, court: Courts.Court, req: Request,
                         endTime: string, now: int)
    requires ValidRequest(req) && MatchesTimePattern(endTime)
    ensures var b := NewBooking(id, user, facilityId, court, req, endTime, now);
      && b.court == court.id && b.day == req.day && IsActive(b) && WellTimed(b)
      && b.startTime == req.startTime && b.endTime == endTime
      && b.duration == SpanHours(req.startTime, endTime)
      && b.pricing.totalPrice == TotalPrice(court, req.day, req.startTime, endTime)
  {
  }

  /** A valid request for the right facility that no stored start and end string test catches is admitted. */
  lemma AdmittedAsWritten(bs: seq<Booking>, user: nat, facilityId: nat, court: Courts.Court, req: Request, now: int,
                          parsing: DateParsing)
    requires ValidRequest(req) && court.facility == facilityId
    requires IsPadded(req.startTime) || parsing == Lenient
    requires !HasStringConflict(bs, court.id, req.day, req.startTime,
                                EndTimeAsWritten(MinutesOf(req.startTime), req.durationHours))
    ensures AdmitAsWritten(bs, user, facilityId, court, req, now, parsing) ==
      Success(NewBooking(|bs|, user, facilityId, court, req,
                         EndTimeAsWritten(MinutesOf(req.startTime), req.durationHours), now))
  {
  }

  /** Both sample requests pass the body checks, and their starts read as 9:30 and 23:00. */
  lemma SampleRequestsValid()
    ensures ValidRequest(Request(0, "9:30", 1.0, "cash")) && MinutesOf("9:30") == 570
    ensures ValidRequest(Request(0, "23:00", 2.0, "cash")) && MinutesOf("23:00") == 1380
  {
  }

  /** The end minutes of the sample requests, and the end times the route renders for them. */
  lemma SampleEndTimes()
    ensures EndMinute(570, 1.0) == 630 && EndTimeAsWritten(570, 1.0) == "10:30"
    ensures EndMinute(1380, 2.0) == 1500 && EndTimeAsWritten(1380, 2.0) == "01:00"
  {
    FormatOfPadded("10:30");
    FormatOfPadded("01:00");
  }

  /** Neither sample request is caught by the string filter against its stored booking. */
  lemma SampleStringTests()
    ensures !StringBlocks(SampleBooking("10:00", "11:00"), 1, 0, "9:30", "10:30")
    ensures !StringBlocks(SampleBooking("23:00", "23:30"), 1, 0, "23:00", "01:00")
  {
    assert !StrLess("9:30", "11:00");
    assert !StrLess("23:00", "01:00");
  }

  /**
   * With a booking from 10:00 to 11:00, a request for "9:30" lasting one
   * hour passes the pattern. On a lenient engine it gets end time "10:30"
   * and slips past the string filter because "9:30" sorts after "11:00";
   * the store then holds two overlapping active bookings. On a strict
   * engine the same request is answered with a server error and nothing is
   * stored. The corrected admission refuses it as a conflict.
   */
  lemma UnpaddedStartDoubleBooks()
    ensures var bs := [SampleBooking("10:00", "11:00")];
      var req := Request(0, "9:30", 1.0, "cash");
      && NoDoubleBooking(bs)
      && AdmitAsWritten(bs, 3, 7, SampleCourt(), req, 0, Lenient).Success?
      && AdmitAsWritten(bs, 3, 7, SampleCourt(), req, 0, Lenient).value.endTime == "10:30"
      && !NoDoubleBooking(bs + [AdmitAsWritten(bs, 3, 7, SampleCourt(), req, 0, Lenient).value])
      && AdmitAsWritten(bs, 3, 7, SampleCourt(), req, 0, StrictIso) == Failure(RecordRejected)
      && Admit(bs, 3, 7, SampleCourt(), req, 0) == Failure(SlotConflict)
  {
    var stored := SampleBooking("10:00", "11:00");
    var bs := [stored];
    var req := Request(0, "9:30", 1.0, "cash");
    SampleRequestsValid();
    SampleEndTimes();
    SampleStringTests();
    assert !HasStringConflict(bs, 1, 0, "9:30", "10:30");
    AdmittedAsWritten(bs, 3, 7, SampleCourt(), req, 0, Lenient);
    assert !IsPadded("9:30");
    assert !HasStringConflict(bs, 1, 0, "9:30", InvalidEndTime);
    UnpaddedStartRejectedWhenStrict(bs, 3, 7, SampleCourt(), req, 0);
    NewBookingFields(1, 3, 7, SampleCourt(), req, "10:30", 0);
    var b := NewBooking(1, 3, 7, SampleCourt(), req, "10:30", 0);
    assert MinutesOf("10:00") == 600 && MinutesOf("11:00") == 660 && MinutesOf("10:30") == 630;
    var bs' := bs + [b];
    assert bs'[0] == stored && bs'[1] == b;
    assert Overlap(bs'[0], bs'[1]);
    assert Blocks(stored, 1, 0, 570, 630);
  }

  /**
   * With a booking from 23:00 to 23:30, a request for 23:00 lasting two hours
   * gets end time "01:00", which no stored start sorts below, so it is
   * admitted although its real span covers the stored one; its pre-save
   * duration is -22 hours and its price negative. The corrected admission
   * refuses it as crossing midnight. The start is padded, so this holds on
   * every engine.
   */
  lemma MidnightWrapAdmitsOverlap(parsing: DateParsing)
    ensures var bs := [SampleBooking("23:00", "23:30")];
      var req := Request(0, "23:00", 2.0, "cash");
      && AdmitAsWritten(bs, 3, 7, SampleCourt(), req, 0, parsing).Success?
      && AdmitAsWritten(bs, 3, 7, SampleCourt(), req, 0, parsing).value.endTime == "01:00"
      && AdmitAsWritten(bs, 3, 7, SampleCourt(), req, 0, parsing).value.duration == -22.0
      && AdmitAsWritten(bs, 3, 7, SampleCourt(), req, 0, parsing).value.pricing.totalPrice < 0
      && Blocks(bs[0], 1, 0, 1380, EndMinute(1380, 2.0))
      && Admit(bs, 3, 7, SampleCourt(), req, 0) == Failure(CrossesMidnight)
  {
    var stored := SampleBooking("23:00", "23:30");
    var bs := [stored];
    var req := Request(0, "23:00", 2.0, "cash");
    SampleRequestsValid();
    SampleEndTimes();
    SampleStringTests();
    assert !HasStringConflict(bs, 1, 0, "23:00", "01:00");
    AdmittedAsWritten(bs, 3, 7, SampleCourt(), req, 0, parsing);
    NewBookingFields(1, 3, 7, SampleCourt(), req, "01:00", 0);
    assert MinutesOf("01:00") == 60 && MinutesOf("23:30") == 1410;
    assert SpanHours("23:00", "01:00") * 60.0 == -1320.0;
    NegativeSpanNegativePrice(SampleCourt(), 0, "23:00", "01:00");
  }

  /** A slot whose end reads earlier than its start is priced below zero by the default pricing. */
  lemma NegativeSpanNegativePrice(court: Courts.Court, day: int, startTime: string, endTime: string)
    requires court.pricing == Courts.DefaultPricing(800.0)
    requires MatchesTimePattern(startTime) && MatchesTimePattern(endTime)
    requires MinutesOf(endTime) < MinutesOf(startTime)
    ensures TotalPrice(court, day, startTime, endTime) < 0
  {
    var h := SpanHours(startTime, endTime);
    assert h * 60.0 <= -1.0;
    Courts.PriceDominatesBase(court.pricing, day, HourOf(startTime), h);
  }
}
