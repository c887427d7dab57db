/**
 * The booking record and the rules the Booking schema attaches to it:
 * the time-field pattern, the duration virtual and pre-save hook, the time
 * slot label, `isPast`, the 24-hour `canBeCancelled` rule and the three-tier
 * refund. Dates are day numbers (day 0 is Thursday 1 January 1970), clock
 * times are `HH:MM` strings and instants are milliseconds; `now` is passed in.
 */
module Bookings {
  import opened Wrappers
  import opened Clock

  const MsPerMinute: int := 60000
  const MsPerHour: int := 3600000
  const MsPerDay: int := 86400000

  datatype BookingStatus = Pending | Confirmed | Cancelled | Completed | NoShow
  datatype PaymentMethod = CreditCard | DebitCard | PayPal | Cash | Online
  datatype PaymentStatus = PaymentPending | PaymentCompleted | PaymentFailed | PaymentRefunded
  datatype Canceller = ByUser | ByFacilityOwner | ByAdmin | BySystem
  datatype RefundStatus = RefundPending | RefundCompleted | RefundFailed

  /** Schema defaults of the two status fields. */
  const DefaultStatus: BookingStatus := Pending
  const DefaultPaymentStatus: PaymentStatus := PaymentPending

  /** `transactionStamp` is the `Date.now()` that the simulated transaction id is built from. */
  datatype Payment = Payment(via: PaymentMethod, status: PaymentStatus, amount: int,
                             transactionStamp: int, paidAt: int)

  datatype Cancellation = Cancellation(isCancelled: bool, cancelledBy: Option<Canceller>,
                                       cancelledAt: Option<int>, reason: Option<string>,
                                       refundAmount: Option<real>, refundStatus: RefundStatus)

  /** The cancellation sub-record as the schema defaults it. */
  const NotCancelled: Cancellation := Cancellation(false, None, None, None, None, RefundPending)

  datatype Pricing = Pricing(basePrice: real, totalPrice: int, currency: string)

  datatype Booking = Booking(
    id: nat, user: nat, facility: nat, court: nat,
    day: int, startTime: string, endTime: string, duration: real,
    pricing: Pricing, status: BookingStatus, payment: Payment, cancellation: Cancellation)

  /** The string stored for each status value. */
  function StatusName(s: BookingStatus): string
  {
    match s
    case Pending => "pending"
    case Confirmed => "confirmed"
    case Cancelled => "cancelled"
    case Completed => "completed"
    case NoShow => "no-show"
  }

  /** The status enum: exactly the five names are accepted. */
  function ParseStatus(name: string): (r: Option<BookingStatus>)
    ensures r.Some? ==> StatusName(r.value) == name
  {
    if name == "pending" then Some(Pending)
    else if name == "confirmed" then Some(Confirmed)
    else if name == "cancelled" then Some(Cancelled)
    else if name == "completed" then Some(Completed)
    else if name == "no-show" then Some(NoShow)
    else None
  }

  lemma StatusNamesRoundTrip(s: BookingStatus)
    ensures ParseStatus(StatusName(s)) == Some(s)
  {
  }

  /** Both time fields match the schema pattern. */
  predicate WellTimed(b: Booking)
  {
    MatchesTimePattern(b.startTime) && MatchesTimePattern(b.endTime)
  }

  /** The `durationHours` virtual: end minus start on one reference day, in hours. */
  function DurationHours(b: Booking): (h: real)
    requires WellTimed(b)
    ensures h * 60.0 == (MinutesOf(b.endTime) - MinutesOf(b.startTime)) as real
  {
    SpanHours(b.startTime, b.endTime)
  }

  /**
   * The pre-save hook: `duration` becomes the `durationHours` virtual; no
   * other field changes. The duration is positive exactly when the end
   * clock reading is after the start one.
   */
  function PreSave(b: Booking): (r: Booking)
    requires WellTimed(b)
    ensures r.duration == DurationHours(b)
    ensures r.(duration := b.duration) == b
    ensures r.duration > 0.0 <==> MinutesOf(b.startTime) < MinutesOf(b.endTime)
  {
    b.(duration := DurationHours(b))
  }

  /** The `timeSlot` virtual. */
  function TimeSlot(b: Booking): string
  {
    b.startTime + " - " + b.endTime
  }

  /** Everything before the first space of a label. */
  function BeforeFirstSpace(s: string): (r: string)
    ensures |r| <= |s| && r == s[..|r|] && ' ' !in r
    ensures |r| < |s| ==> s[|r|] == ' '
  {
    if s == [] || s[0] == ' ' then [] else [s[0]] + BeforeFirstSpace(s[1..])
  }

  /** A time slot label gives its start time back. */
  lemma {:induction false} TimeSlotStartsWithStartTime(b: Booking)
    requires WellTimed(b)
    ensures BeforeFirstSpace(TimeSlot(b)) == b.startTime
  {
    var slot := TimeSlot(b);
    assert ' ' !in b.startTime;
    assert slot[|b.startTime|] == ' ';
    PrefixUpToSpace(slot, b.startTime);
  }

  lemma {:induction false} PrefixUpToSpace(s: string, p: string)
    requires |p| < |s| && s[..|p|] == p && ' ' !in p && s[|p|] == ' '
    ensures BeforeFirstSpace(s) == p
  {
    if p != [] {
      assert s[0] == p[0];
      PrefixUpToSpace(s[1..], p[1..]);
    }
  }

  /** The booking's start, as an instant: the booking date at its start hour and minute. */
  function StartInstant(b: Booking): int
    requires MatchesTimePattern(b.startTime)
  {
    b.day * MsPerDay + MinutesOf(b.startTime) * MsPerMinute
  }

  /** The booking date at its end hour and minute. */
  function EndInstant(b: Booking): int
    requires MatchesTimePattern(b.endTime)
  {
    b.day * MsPerDay + MinutesOf(b.endTime) * MsPerMinute
  }

  /** `isPast`: the booking date at `endTime` lies strictly before now. */
  predicate IsPast(b: Booking, now: int)
    requires MatchesTimePattern(b.endTime)
  {
    EndInstant(b) < now
  }

  /** A booking whose end clock reading is after its start is past only once it has started. */
  lemma PastOnlyAfterStart(b: Booking, now: int)
    requires WellTimed(b) && MinutesOf(b.startTime) < MinutesOf(b.endTime)
    ensures IsPast(b, now) ==> StartInstant(b) < now
  {
  }

  /** 24 hours before the start: the last instant at which cancelling is refused. */
  function CancellationDeadline(b: Booking): int
    requires MatchesTimePattern(b.startTime)
  {
    StartInstant(b) - 24 * MsPerHour
  }

  /** `canBeCancelled`: only pending or confirmed bookings, and only before the deadline. */
  predicate CanBeCancelled(b: Booking, now: int)
    requires MatchesTimePattern(b.startTime)
  {
    if b.status != Confirmed && b.status != Pending then false
    else now < CancellationDeadline(b)
  }

  /** `(bookingDateTime - now) / 3600000`, the hours left until the start. */
  function HoursUntilStart(b: Booking, now: int): (h: real)
    requires MatchesTimePattern(b.startTime)
    ensures h * (MsPerHour as real) == (StartInstant(b) - now) as real
  {
    (StartInstant(b) - now) as real / (MsPerHour as real)
  }

  /**
   * `calculateRefundAmount`: nothing unless the cancellation flag is set; then
   * the full price 24 hours or more ahead, half between 2 and 24 hours, and
   * nothing under 2 hours.
   */
  function RefundAmount(b: Booking, now: int): (r: real)
    requires MatchesTimePattern(b.startTime)
    ensures !b.cancellation.isCancelled ==> r == 0.0
  {
    if !b.cancellation.isCancelled then 0.0
    else
      var h := HoursUntilStart(b, now);
      if h >= 24.0 then b.pricing.totalPrice as real
      else if h >= 2.0 then b.pricing.totalPrice as real * 0.5
      else 0.0
  }

  /** The refund never exceeds what was paid and is never negative. */
  lemma RefundWithinPrice(b: Booking, now: int)
    requires MatchesTimePattern(b.startTime) && b.pricing.totalPrice >= 0
    ensures 0.0 <= RefundAmount(b, now) <= b.pricing.totalPrice as real
  {
  }

  /** Cancelling later never refunds more. */
  lemma RefundNonIncreasingInTime(b: Booking, earlier: int, later: int)
    requires MatchesTimePattern(b.startTime) && b.pricing.totalPrice >= 0
    requires earlier <= later
    ensures RefundAmount(b, later) <= RefundAmount(b, earlier)
  {
    var he, hl := HoursUntilStart(b, earlier), HoursUntilStart(b, later);
    assert hl <= he by {
      assert hl * (MsPerHour as real) <= he * (MsPerHour as real);
    }
  }

  /** The tiers at 30, 10 and 1 hour before the start of a 1000-rupee booking. */
  lemma RefundTierExamples(b: Booking)
    requires MatchesTimePattern(b.startTime) && b.cancellation.isCancelled
    requires b.pricing.totalPrice == 1000
    ensures RefundAmount(b, StartInstant(b) - 30 * MsPerHour) == 1000.0
    ensures RefundAmount(b, StartInstant(b) - 10 * MsPerHour) == 500.0
    ensures RefundAmount(b, StartInstant(b) - 1 * MsPerHour) == 0.0
  {
    assert HoursUntilStart(b, StartInstant(b) - 30 * MsPerHour) == 30.0;
    assert HoursUntilStart(b, StartInstant(b) - 10 * MsPerHour) == 10.0;
    assert HoursUntilStart(b, StartInstant(b) - 1 * MsPerHour) == 1.0;
  }

  /**
   * Within the cancellation window, a refund computed with the same `now`
   * can only be the full tier: the window and the first tier share the
   * 24-hour boundary.
   */
  lemma RefundInsideCancellationWindowIsFull(b: Booking, now: int)
    requires MatchesTimePattern(b.startTime) && b.cancellation.isCancelled
    requires now < CancellationDeadline(b)
    ensures RefundAmount(b, now) == b.pricing.totalPrice as real
  {
    var h := HoursUntilStart(b, now);
    assert h >= 24.0 by {
      assert h * (MsPerHour as real) > (24 * MsPerHour) as real;
    }
  }
}
