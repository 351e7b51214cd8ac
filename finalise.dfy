/**
 * Checking and finalising a complete draft: `validateBooking`
 * (index.js:197-226), the time re-formatting and the totals of
 * `processBooking` (index.js:237-336), with `calculateServicesTotal` and
 * `calculateTravelCharge` from the catalogue.
 */
module Finalise {
  import opened Optional
  import opened Text
  import Catalogue
  import Extract
  import Dates
  import Classify
  import opened Draft

  // ---------------------------------------------------------------------
  // validateBooking (index.js:197-226)

  /** The messages `validateBooking` collects, in the order it checks them. */
  datatype Problem = NameRequired | ServiceRequired | DateRequired | TimeRequired | AddressRequired | InvalidPhone

  function ProblemText(p: Problem): string {
    match p
    case NameRequired => "Name is required"
    case ServiceRequired => "Please select at least one service"
    case DateRequired => "Booking date is required"
    case TimeRequired => "Booking time is required"
    case AddressRequired => "Address is required"
    case InvalidPhone => "Please provide a valid Irish phone number"
  }

  /** The error a missing field gives. */
  function ProblemFor(f: Field): Problem
    requires f != Phone
  {
    match f
    case Name => NameRequired
    case Services => ServiceRequired
    case Date => DateRequired
    case Time => TimeRequired
    case Address => AddressRequired
  }

  /** `[p]` when `c` holds, else nothing. */
  function If(c: bool, p: Problem): seq<Problem> {
    if c then [p] else []
  }

  /** The problems with a draft; a phone is checked only when there is one. */
  function Problems(b: Booking): seq<Problem> {
    If(b.name == "", NameRequired) + If(b.services == [], ServiceRequired) + If(b.date.None?, DateRequired)
    + If(b.time == "", TimeRequired) + If(b.address == "", AddressRequired)
    + If(b.phone != "" && !Extract.ValidPhone(b.phone), InvalidPhone)
  }

  /** `validateBooking`: one `push` per problem found. */
  method ValidateBooking(booking: Booking) returns (errors: seq<Problem>)
    ensures errors == Problems(booking)
  {
    errors := [];
    if booking.name == "" {
      errors := errors + [NameRequired];
    }
    assert errors == If(booking.name == "", NameRequired);
    if booking.services == [] {
      errors := errors + [ServiceRequired];
    }
    assert errors == If(booking.name == "", NameRequired) + If(booking.services == [], ServiceRequired);
    if booking.date.None? {
      errors := errors + [DateRequired];
    }
    ghost var e3 := errors;
    assert e3 == If(booking.name == "", NameRequired) + If(booking.services == [], ServiceRequired)
               + If(booking.date.None?, DateRequired);
    if booking.time == "" {
      errors := errors + [TimeRequired];
    }
    ghost var e4 := errors;
    assert e4 == e3 + If(booking.time == "", TimeRequired);
    if booking.address == "" {
      errors := errors + [AddressRequired];
    }
    ghost var e5 := errors;
    assert e5 == e4 + If(booking.address == "", AddressRequired);
    var badPhone := booking.phone != "" && !Extract.ValidPhone(booking.phone);
    assert Problems(booking) == e5 + If(badPhone, InvalidPhone);
    if badPhone {
      errors := errors + [InvalidPhone];
    }
    assert errors == e5 + If(badPhone, InvalidPhone);
  }

  function ProblemsFor(fs: seq<Field>): (r: seq<Problem>)
    requires Phone !in fs
    ensures |r| == |fs|
  {
    if fs == [] then [] else [ProblemFor(fs[0])] + ProblemsFor(fs[1..])
  }

  /**
   * The validation errors are the missing fields of `getMissingFields`, in
   * its order, followed by the phone error when a phone is present and does
   * not have the Irish mobile form.
   */
  lemma ProblemsAreMissingFields(b: Booking)
    ensures Phone !in MissingFields(b)
    ensures Problems(b) == ProblemsFor(MissingFields(b)) + If(b.phone != "" && !Extract.ValidPhone(b.phone), InvalidPhone)
  {
    var n := if b.name == "" then [Name] else [];
    var s := if b.services == [] then [Services] else [];
    var d := if b.date.None? then [Date] else [];
    var t := if b.time == "" then [Time] else [];
    var a := if b.address == "" then [Address] else [];
    UnfilledRequired(b);
    assert MissingFields(b) == n + s + d + t + a;
    ProblemsForFive(n, s, d, t, a);
    ProblemsForOne(b.name == "", Name);
    ProblemsForOne(b.services == [], Services);
    ProblemsForOne(b.date.None?, Date);
    ProblemsForOne(b.time == "", Time);
    ProblemsForOne(b.address == "", Address);
  }

  lemma ProblemsForOne(c: bool, f: Field)
    requires f != Phone
    ensures ProblemsFor(if c then [f] else []) == If(c, ProblemFor(f))
  {
  }

  lemma ProblemsForFive(n: seq<Field>, s: seq<Field>, d: seq<Field>, t: seq<Field>, a: seq<Field>)
    requires Phone !in n && Phone !in s && Phone !in d && Phone !in t && Phone !in a
    ensures Phone !in n + s + d + t + a
    ensures ProblemsFor(n + s + d + t + a)
         == ProblemsFor(n) + ProblemsFor(s) + ProblemsFor(d) + ProblemsFor(t) + ProblemsFor(a)
  {
    ProblemsForAppend(n, s);
    ProblemsForAppend(n + s, d);
    ProblemsForAppend(n + s + d, t);
    ProblemsForAppend(n + s + d + t, a);
  }

  lemma {:induction false} ProblemsForAppend(xs: seq<Field>, ys: seq<Field>)
    requires Phone !in xs && Phone !in ys
    ensures ProblemsFor(xs + ys) == ProblemsFor(xs) + ProblemsFor(ys)
  {
    if xs != [] {
      assert (xs + ys)[1..] == xs[1..] + ys;
      ProblemsForAppend(xs[1..], ys);
    } else {
      assert xs + ys == ys;
    }
  }

  /** A draft without a phone passes validation exactly when nothing is missing. */
  lemma NoPhoneValidIffNothingMissing(b: Booking)
    requires b.phone == ""
    ensures Problems(b) == [] <==> MissingFields(b) == []
  {
    ProblemsAreMissingFields(b);
  }

  /**
   * A number typed as `00353 8X …` is stored in the draft as `+3530353…`,
   * which validation then rejects; and because the merge never overwrites
   * a filled field, no later message replaces it.
   */
  lemma DoubleZeroPhoneBlocksBooking(m: string, b: Booking, today: Dates.Clock, later: string, today2: Dates.Clock)
    requires b.phone == "" && b.address != ""
    requires StartsWith(Extract.KeepPhoneChars(m), "00353") && Extract.MobileRest(Extract.KeepPhoneChars(m)[5..])
    ensures var c := Merged(m, b, today);
      InvalidPhone in Problems(c) && InvalidPhone in Problems(Merged(later, c, today2))
  {
    Extract.DoubleZeroPrefix(m);
    var c := Merged(m, b, today);
    MergeNeverOverwrites(m, b, today);
    MergeSources(m, b, today);
    StepsKeepAndOrder(b, ServiceParts(m), Extract.ExtractName(m), Dates.DateTimeIn(m, today),
                      Extract.BareTime(m), Extract.ExtractAddress(m), Extract.ExtractPhoneNumber(m));
    assert c.address != "";
    assert c.phone == Extract.ExtractPhoneNumber(m).value;
    MergeNeverOverwrites(later, c, today2);
  }

  // ---------------------------------------------------------------------
  // The time re-formatting of processBooking (index.js:263-266)

  /** The groups of `/(\d{1,2})(?::(\d{2}))?\s*(am|pm)/i`: hour digits, minute digits, suffix as typed. */
  datatype ClockText = ClockText(hour: string, minute: Option<string>, suffix: string)

  /** `am` or `pm` in any letter case. */
  predicate IsSuffix(x: string) {
    |x| == 2 && (LowerChar(x[0]) == 'a' || LowerChar(x[0]) == 'p') && LowerChar(x[1]) == 'm'
  }

  /**
   * The pattern at `i`. Each part can be taken only one way: with two hour
   * digits a one-digit hour leaves a digit where `:`, a space or `a`/`p` is
   * needed, and without the minute group a `:` is left; so the parts are
   * read greedily.
   */
  function ClockAt(s: string, i: nat): (r: Option<ClockText>)
    ensures r.Some? ==> 1 <= |r.value.hour| <= 2 && AllDigits(r.value.hour) && IsSuffix(r.value.suffix)
    ensures r.Some? && r.value.minute.Some? ==> |r.value.minute.value| == 2 && AllDigits(r.value.minute.value)
  {
    var d := DigitRun(s, i, 2);
    if d == 0 then None
    else
      var e := i + d;
      var hasMinutes := e < |s| && s[e] == ':' && DigitRun(s, e + 1, 2) == 2;
      var f := if hasMinutes then e + 3 else e;
      var k := f + SpaceRun(s, f);
      if k + 2 <= |s| && IsSuffix(s[k..k + 2]) then
        Some(ClockText(s[i..e], if hasMinutes then Some(s[e + 1..e + 3]) else None, s[k..k + 2]))
      else None
  }

  /** The leftmost match at or after `i`. */
  function FirstClock(s: string, i: nat): (r: Option<ClockText>)
    ensures r.Some? ==> 1 <= |r.value.hour| <= 2 && AllDigits(r.value.hour) && IsSuffix(r.value.suffix)
    ensures r.Some? && r.value.minute.Some? ==> |r.value.minute.value| == 2 && AllDigits(r.value.minute.value)
    decreases |s| - i
  {
    if i >= |s| then None
    else
      match ClockAt(s, i)
      case Some(c) => Some(c)
      case None => FirstClock(s, i + 1)
  }

  /** The match found is at the leftmost position that matches, and there is none only when no position does. */
  lemma {:induction false} FirstClockIsFirst(s: string, i: nat)
    ensures var r := FirstClock(s, i);
      (r.Some? ==> exists k :: i <= k < |s| && ClockAt(s, k) == r && forall j :: i <= j < k ==> ClockAt(s, j).None?)
      && (r.None? ==> forall j :: i <= j < |s| ==> ClockAt(s, j).None?)
    decreases |s| - i
  {
    if i < |s| {
      if ClockAt(s, i).Some? {
        assert ClockAt(s, i) == FirstClock(s, i);
      } else {
        FirstClockIsFirst(s, i + 1);
        if FirstClock(s, i + 1).Some? {
          var k :| i + 1 <= k < |s| && ClockAt(s, k) == FirstClock(s, i + 1)
                   && forall j :: i + 1 <= j < k ==> ClockAt(s, j).None?;
          assert forall j :: i <= j < k ==> ClockAt(s, j).None?;
        }
      }
    }
  }

  /** `` `${h.padStart(2, '0')}:${(m || '00').padStart(2, '0')}${suffix.toLowerCase()}` `` when the pattern matches, else the time unchanged. */
  function BookingTime(time: string): string {
    match FirstClock(time, 0)
    case Some(c) => Pad2(c.hour) + ":" + Pad2(c.minute.GetOr("00")) + Lower(c.suffix)
    case None => time
  }

  lemma Pad2Digits(s: string)
    requires |s| <= 2 && AllDigits(s)
    ensures |Pad2(s)| == 2 && AllDigits(Pad2(s))
  {
  }

  /** A printed `hh:mm` time with a lower-case suffix matches at its start. */
  lemma ClockOfPrinted(h: string, mm: string, suffix: string)
    requires |h| == 2 && AllDigits(h) && |mm| == 2 && AllDigits(mm) && IsSuffix(suffix) && Lower(suffix) == suffix
    ensures FirstClock(h + ":" + mm + suffix, 0) == Some(ClockText(h, Some(mm), suffix))
  {
    var t := h + ":" + mm + suffix;
    assert IsDigit(h[0]) && IsDigit(h[1]) && IsDigit(mm[0]) && IsDigit(mm[1]);
    assert t[0] == h[0] && t[1] == h[1] && t[2] == ':' && t[3] == mm[0] && t[4] == mm[1];
    assert t[5] == suffix[0] && |t| == 7;
    assert !IsSpace(suffix[0]) by {
      assert LowerChar(suffix[0]) == suffix[0];
    }
    assert t[0..2] == h && t[3..5] == mm && t[5..7] == suffix;
    ClockAtPrinted(t);
  }

  lemma ClockAtPrinted(t: string)
    requires |t| == 7 && IsDigit(t[0]) && IsDigit(t[1]) && t[2] == ':' && IsDigit(t[3]) && IsDigit(t[4])
    requires IsSuffix(t[5..7]) && !IsSpace(t[5])
    ensures ClockAt(t, 0) == Some(ClockText(t[0..2], Some(t[3..5]), t[5..7]))
  {
    assert DigitRun(t, 0, 2) == 2;
    assert DigitRun(t, 3, 2) == 2;
    assert SpaceRun(t, 5) == 0;
  }

  /** Re-formatting twice is re-formatting once. */
  lemma BookingTimeIdempotent(time: string)
    ensures BookingTime(BookingTime(time)) == BookingTime(time)
  {
    match FirstClock(time, 0)
    case Some(c) =>
      Pad2Digits(c.hour);
      Pad2Digits(c.minute.GetOr("00"));
      var x := Lower(c.suffix);
      assert LowerChar(x[0]) == x[0] && LowerChar(x[1]) == x[1];
      assert Lower(x) == x;
      ClockOfPrinted(Pad2(c.hour), Pad2(c.minute.GetOr("00")), x);
    case None =>
  }

  // ---------------------------------------------------------------------
  // processBooking (index.js:237-336)

  /** The figures the summary shows. */
  datatype Summary = Summary(booking: Booking, time: string, servicesTotal: int, travelCharge: int, totalCost: int)

  /**
   * How `processBooking` ends: errors found, an error caught ("Failed to
   * process booking"), or a summary that is final or awaits confirmation.
   */
  datatype Outcome =
    | Rejected(problems: seq<Problem>)
    | Failed
    | Confirmed(summary: Summary)
    | AwaitingConfirmation(summary: Summary)

  /**
   * `processBooking`, with `saved` standing for whether writing the pending
   * booking succeeded (a failure there is caught and reported). A failed
   * notification or calendar entry does not change the outcome.
   */
  function ProcessBooking(b: Booking, message: string, saved: bool): (r: Outcome)
    ensures r.Rejected? <==> Problems(b) != []
    ensures r.Rejected? ==> r.problems == Problems(b)
  {
    var errors := Problems(b);
    if errors != [] then Rejected(errors)
    else if !saved then Failed
    else
      var servicesTotal := Catalogue.ServicesTotal(b.services);
      var travelCharge := Catalogue.TravelCharge(b.address);
      var summary := Summary(b, BookingTime(b.time), servicesTotal, travelCharge, servicesTotal + travelCharge);
      if Classify.IsConfirmation(message) then Confirmed(summary) else AwaitingConfirmation(summary)
  }

  /**
   * A valid, saved draft is summarised with the unchanged draft, the total
   * as the services total plus the flat travel charge of 5, and the
   * re-formatted time; the summary is final exactly when the message confirms.
   */
  lemma ProcessedSummary(b: Booking, message: string)
    requires Problems(b) == []
    ensures var r := ProcessBooking(b, message, true);
      (r.Confirmed? <==> Classify.IsConfirmation(message)) && !r.Failed?
      && var s := r.summary;
         s.booking == b && s.servicesTotal == Catalogue.ServicesTotal(b.services) && s.travelCharge == 5
         && s.totalCost == s.servicesTotal + 5 && s.time == BookingTime(b.time)
         && 5 <= s.totalCost <= 70 * |b.services| + 5
  {
    Catalogue.ServicesTotalBounds(b.services);
  }

  /** A valid draft whose save fails is reported as a failure, whatever the message. */
  lemma SaveFailureReported(b: Booking, message: string)
    requires Problems(b) == []
    ensures ProcessBooking(b, message, false) == Failed
  {
  }

  /** Eyebrow Threading with Full Face Threading costs 35 plus 5 for travel. */
  lemma EyebrowAndFullFaceCost(b: Booking, message: string)
    requires Problems(b) == [] && b.services == ["Eyebrow Threading", "Full Face Threading"]
    ensures ProcessBooking(b, message, true).summary.totalCost == 40
  {
    Catalogue.EyebrowAndFullFace(b.services);
  }
}
