/**
 * The bookable court: its pricing fields and defaults, the price of a slot
 * (`calculatePrice`), the availability predicate (`isAvailableAt`) and the
 * court's copy of the single-primary-image rule.
 */
module Courts {
  import opened Wrappers
  import opened Clock
  import Images

  datatype CourtStatus = Active | Inactive | Maintenance

  datatype CourtPricing = CourtPricing(basePrice: real, currency: string,
                                       peakHourMultiplier: real, weekendMultiplier: real,
                                       holidayMultiplier: real)

  /** Open flags per weekday, indexed as `Date.getDay()`: 0 is Sunday, 6 is Saturday. */
  type WeekFlags = s: seq<bool> | |s| == 7 witness [true, true, true, true, true, true, true]

  datatype Court = Court(id: nat, facility: nat, pricing: CourtPricing, status: CourtStatus,
                         isUnderMaintenance: bool, isOpen: WeekFlags, images: seq<Images.Image>)

  const DefaultCurrency: string := "INR"
  const DefaultPeakHourMultiplier: real := 1.5
  const DefaultWeekendMultiplier: real := 1.2
  const DefaultHolidayMultiplier: real := 1.3

  /** The pricing sub-document with only the required base price given. */
  function DefaultPricing(basePrice: real): (p: CourtPricing)
    ensures p.basePrice == basePrice && p.currency == "INR"
    ensures p.peakHourMultiplier == 1.5 && p.weekendMultiplier == 1.2 && p.holidayMultiplier == 1.3
  {
    CourtPricing(basePrice, DefaultCurrency, DefaultPeakHourMultiplier,
                 DefaultWeekendMultiplier, DefaultHolidayMultiplier)
  }

  /** `Date.getDay()` of a day number; day 0 (1 January 1970) was a Thursday. */
  function Weekday(day: int): (w: nat)
    ensures w < 7
  {
    (day + 4) % 7
  }

  predicate IsWeekend(day: int)
  {
    Weekday(day) == 0 || Weekday(day) == 6
  }

  /** The peak window 6 PM to 9 PM, judged on a start hour: 18 <= h <= 21. */
  predicate IsPeakHour(hour: nat)
  {
    18 <= hour <= 21
  }

  /** The factor the weekend rule applies: the weekend multiplier on Saturday and Sunday. */
  function WeekendFactor(p: CourtPricing, day: int): real
  {
    if IsWeekend(day) then p.weekendMultiplier else 1.0
  }

  /** The factor the peak rule applies, judged on the start hour alone. */
  function PeakFactor(p: CourtPricing, startHour: nat): real
  {
    if IsPeakHour(startHour) then p.peakHourMultiplier else 1.0
  }

  /**
   * The price of a slot of `hours` hours starting in hour `startHour`: the
   * base price, times the weekend multiplier on a Saturday or Sunday, times
   * the peak multiplier when the START hour is a peak hour, times the hours.
   * The holiday multiplier plays no part.
   */
  function Price(p: CourtPricing, day: int, startHour: nat, hours: real): real
  {
    p.basePrice * WeekendFactor(p, day) * PeakFactor(p, startHour) * hours
  }

  /** The hourly rate after the weekend and peak adjustments, applied in that order. */
  method AdjustedRate(p: CourtPricing, day: int, startHour: nat) returns (rate: real)
    ensures rate == p.basePrice * WeekendFactor(p, day) * PeakFactor(p, startHour)
  {
    rate := p.basePrice;
    if IsWeekend(day) {
      rate := rate * p.weekendMultiplier;
    }
    if IsPeakHour(startHour) {
      rate := rate * p.peakHourMultiplier;
    }
  }

  /**
   * `calculatePrice`: the adjusted rate for the start hour, times the hours
   * between the two clock strings.
   */
  method CalculatePrice(c: Court, day: int, startTime: string, endTime: string) returns (price: real)
    requires MatchesTimePattern(startTime) && MatchesTimePattern(endTime)
    ensures price == Price(c.pricing, day, HourOf(startTime), SpanHours(startTime, endTime))
  {
    var hour := HourOf(startTime);
    var rate := AdjustedRate(c.pricing, day, hour);
    var durationHours := SpanHours(startTime, endTime);
    price := rate * durationHours;
    ChargeAtRate(c.pricing, day, hour, rate, durationHours);
  }

  lemma ChargeAtRate(p: CourtPricing, day: int, startHour: nat, rate: real, hours: real)
    requires rate == p.basePrice * WeekendFactor(p, day) * PeakFactor(p, startHour)
    ensures rate * hours == Price(p, day, startHour, hours)
  {
  }

  /** On an off-peak weekday the price is the base price times the hours. */
  lemma OffPeakWeekdayPrice(p: CourtPricing, day: int, startHour: nat, hours: real)
    requires !IsWeekend(day) && !IsPeakHour(startHour)
    ensures Price(p, day, startHour, hours) == p.basePrice * hours
  {
  }

  /**
   * With a non-negative base price and multipliers of at least one, the
   * adjustments only ever raise the rate: the price lies on the far side of
   * `basePrice * hours` from zero, so it has the sign of the hours.
   */
  lemma PriceDominatesBase(p: CourtPricing, day: int, startHour: nat, hours: real)
    requires p.basePrice >= 0.0 && p.weekendMultiplier >= 1.0 && p.peakHourMultiplier >= 1.0
    ensures hours >= 0.0 ==> Price(p, day, startHour, hours) >= p.basePrice * hours
    ensures hours <= 0.0 ==> Price(p, day, startHour, hours) <= p.basePrice * hours
  {
    var b, w, f := p.basePrice, WeekendFactor(p, day), PeakFactor(p, startHour);
    assert w >= 1.0 && f >= 1.0;
    var bw := b * w;
    assert bw - b == b * (w - 1.0) && b * (w - 1.0) >= 0.0;
    var rate := bw * f;
    assert rate - bw == bw * (f - 1.0) && bw * (f - 1.0) >= 0.0;
    var extra := rate - b;
    assert extra >= 0.0;
    assert Price(p, day, startHour, hours) == rate * hours;
    assert rate * hours == b * hours + extra * hours;
    if hours >= 0.0 {
      assert extra * hours >= 0.0;
    } else {
      assert extra * hours <= 0.0;
    }
  }

  /** A weekend day costs the weekday price times the weekend multiplier, other inputs equal. */
  lemma WeekendSurcharge(p: CourtPricing, weekend: int, weekday: int, startHour: nat, hours: real)
    requires IsWeekend(weekend) && !IsWeekend(weekday)
    ensures Price(p, weekend, startHour, hours) == Price(p, weekday, startHour, hours) * p.weekendMultiplier
  {
  }

  /**
   * Only the start hour decides the peak surcharge: a slot starting in a
   * peak hour pays it for every hour, even those after 22:00, and a slot
   * starting at 17:00 pays it for none.
   */
  lemma PeakDecidedByStartHour(p: CourtPricing, day: int, hours: real)
    ensures Price(p, day, 20, hours) == Price(p, day, 12, hours) * p.peakHourMultiplier
    ensures Price(p, day, 17, hours) == Price(p, day, 12, hours)
  {
  }

  /** The holiday multiplier is never applied. */
  lemma HolidayMultiplierIgnored(p: CourtPricing, holiday: real, day: int, startHour: nat, hours: real)
    ensures Price(p.(holidayMultiplier := holiday), day, startHour, hours) == Price(p, day, startHour, hours)
  {
  }

  /** 800 a hour, Saturday, 19:00 to 21:00, default multipliers: 800 x 1.2 x 1.5 x 2 = 2880. */
  lemma SaturdayPeakExample()
    ensures MatchesTimePattern("19:00") && MatchesTimePattern("21:00")
    ensures Price(DefaultPricing(800.0), 2, HourOf("19:00"), SpanHours("19:00", "21:00")) == 2880.0
  {
    assert Weekday(2) == 6;
    assert HourOf("19:00") == 19;
    assert SpanHours("19:00", "21:00") == 2.0;
  }

  /**
   * `isAvailableAt` as intended: an inactive court or one under maintenance
   * is never available; otherwise the weekday's open flag decides. No
   * booking is consulted.
   */
  predicate IsAvailableAt(c: Court, day: int)
  {
    if c.status != Active || c.isUnderMaintenance then false
    else c.isOpen[Weekday(day)]
  }

  lemma AvailabilityIsStatusAndWeekday(c: Court, day: int)
    ensures IsAvailableAt(c, day) <==>
      c.status == Active && !c.isUnderMaintenance && c.isOpen[Weekday(day)]
  {
  }

  /** What a call can end in when the engine raises an exception. */
  datatype Thrown = RangeError

  /**
   * `isAvailableAt` as written: the weekday name is asked of the date
   * formatter with the option value `weekday: 'lowercase'`, which is not one
   * the formatter accepts, so every call that gets past the status test throws.
   */
  function IsAvailableAtAsWritten(c: Court, day: int): Result<bool, Thrown>
  {
    if c.status != Active || c.isUnderMaintenance then Success(false)
    else Failure(RangeError)
  }

  /** Every active court not under maintenance makes the written method throw, open or not. */
  lemma AvailabilityAsWrittenThrows(c: Court, day: int)
    requires c.status == Active && !c.isUnderMaintenance
    ensures IsAvailableAtAsWritten(c, day).Failure?
    ensures IsAvailableAt(c, day) == c.isOpen[Weekday(day)]
  {
  }

  /** Where the written method does answer, it agrees with the intended one. */
  lemma AvailabilityAsWrittenAgreesWhenItAnswers(c: Court, day: int)
    requires IsAvailableAtAsWritten(c, day).Success?
    ensures IsAvailableAtAsWritten(c, day).value == IsAvailableAt(c, day)
  {
  }

  /** The court's pre-save hook: only the first primary image stays primary. */
  function PreSave(c: Court): (r: Court)
    ensures r.(images := c.images) == c
    ensures |r.images| == |c.images|
    ensures Images.CountPrimary(r.images) <= 1
    ensures Images.CountPrimary(c.images) <= 1 ==> r == c
    ensures r.images == Images.KeepFirstPrimary(c.images)
  {
    if Images.CountPrimary(c.images) > 1 then c.(images := Images.KeepFirstPrimary(c.images))
    else Images.KeepFirstPrimaryNoOp(c.images); c
  }
}
