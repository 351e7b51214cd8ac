/**
 * The draft booking and how a message fills it in: `getMissingFields`
 * (index.js:974-982), `isBookingComplete` (index.js:985-987) and
 * `extractAndUpdateDetails` (index.js:698-764), which fills the fields in the
 * order services, name, date, time, address, phone, each one only while it
 * is empty and only once the one before it is filled.
 */
module Draft {
  import opened Optional
  import opened Text
  import Catalogue
  import Extract
  import Dates

  /**
   * The draft. The empty string, the empty list and `None` stand for the
   * values JavaScript treats as missing (`''`, `null`, `undefined`).
   */
  datatype Booking = Booking(
    name: string, services: seq<string>, date: Option<Dates.DateRec>,
    time: string, address: string, phone: string)

  /** The draft a conversation starts from. */
  const Fresh: Booking := Booking("", [], None, "", "", "")

  datatype Field = Name | Services | Date | Time | Address | Phone

  /** The field holds a value JavaScript treats as present. */
  predicate Filled(b: Booking, f: Field) {
    match f
    case Name => b.name != ""
    case Services => b.services != []
    case Date => b.date.Some?
    case Time => b.time != ""
    case Address => b.address != ""
    case Phone => b.phone != ""
  }

  // ---------------------------------------------------------------------
  // getMissingFields and isBookingComplete (index.js:974-987)

  /** The fields `getMissingFields` checks, in its order; the phone is not one of them. */
  const Required: seq<Field> := [Name, Services, Date, Time, Address]

  /** Where a field stands in `Required` (the phone after all of them). */
  function Position(f: Field): nat {
    match f
    case Name => 0
    case Services => 1
    case Date => 2
    case Time => 3
    case Address => 4
    case Phone => 5
  }

  /** The fields of `fs` that are empty, in the order of `fs`. */
  function Unfilled(b: Booking, fs: seq<Field>): seq<Field> {
    if fs == [] then [] else (if Filled(b, fs[0]) then [] else [fs[0]]) + Unfilled(b, fs[1..])
  }

  function MissingFields(b: Booking): seq<Field> {
    Unfilled(b, Required)
  }

  /** `getMissingFields`: one `push` per empty field, in a fixed order. */
  method GetMissingFields(b: Booking) returns (missing: seq<Field>)
    ensures missing == MissingFields(b)
  {
    UnfilledRequired(b);
    missing := [];
    if b.name == "" {
      missing := missing + [Name];
    }
    if b.services == [] {
      missing := missing + [Services];
    }
    if b.date.None? {
      missing := missing + [Date];
    }
    if b.time == "" {
      missing := missing + [Time];
    }
    if b.address == "" {
      missing := missing + [Address];
    }
  }

  /** `MissingFields` written out field by field. */
  lemma UnfilledRequired(b: Booking)
    ensures MissingFields(b) ==
      (if b.name == "" then [Name] else []) + (if b.services == [] then [Services] else [])
      + (if b.date.None? then [Date] else []) + (if b.time == "" then [Time] else [])
      + (if b.address == "" then [Address] else [])
  {
    var r := Required;
    var n := if b.name == "" then [Name] else [];
    var sv := if b.services == [] then [Services] else [];
    var d := if b.date.None? then [Date] else [];
    var t := if b.time == "" then [Time] else [];
    var a := if b.address == "" then [Address] else [];
    assert [Address][1..] == [];
    assert [Time, Address][1..] == [Address];
    assert [Date, Time, Address][1..] == [Time, Address];
    assert [Services, Date, Time, Address][1..] == [Date, Time, Address];
    assert r[1..] == [Services, Date, Time, Address];
    assert Unfilled(b, [Address]) == a;
    assert Unfilled(b, [Time, Address]) == t + a;
    assert Unfilled(b, [Date, Time, Address]) == d + (t + a);
    assert Unfilled(b, [Services, Date, Time, Address]) == sv + (d + (t + a));
    assert Unfilled(b, r) == n + (sv + (d + (t + a)));
    Associate(n, sv, d, t, a);
  }

  lemma Associate(n: seq<Field>, s: seq<Field>, d: seq<Field>, t: seq<Field>, a: seq<Field>)
    ensures n + (s + (d + (t + a))) == n + s + d + t + a
  {
  }

  predicate Increasing(fs: seq<Field>) {
    forall i, j :: 0 <= i < j < |fs| ==> Position(fs[i]) < Position(fs[j])
  }

  lemma {:induction false} UnfilledSpec(b: Booking, fs: seq<Field>)
    ensures forall f :: f in Unfilled(b, fs) <==> f in fs && !Filled(b, f)
    ensures Increasing(fs) ==> Increasing(Unfilled(b, fs))
  {
    if fs != [] {
      UnfilledSpec(b, fs[1..]);
      var rest := Unfilled(b, fs[1..]);
      var r := Unfilled(b, fs);
      assert r == (if Filled(b, fs[0]) then [] else [fs[0]]) + rest;
      if Increasing(fs) {
        assert Increasing(fs[1..]);
        forall j | 0 <= j < |rest|
          ensures Position(fs[0]) < Position(rest[j])
        {
          assert rest[j] in fs[1..];
        }
      }
    }
  }

  /**
   * The missing fields are exactly the empty ones among name, services,
   * date, time and address, listed in that order; the phone is never listed.
   */
  lemma MissingFieldsExact(b: Booking)
    ensures forall f :: f in MissingFields(b) <==> f != Phone && !Filled(b, f)
    ensures Increasing(MissingFields(b))
  {
    UnfilledSpec(b, Required);
  }

  /** `isBookingComplete`: the services list is an array, never missing, so it is not checked. */
  predicate IsBookingComplete(b: Booking) {
    b.name != "" && b.date.Some? && b.time != "" && b.address != ""
  }

  /** A draft counts as complete while only its services are missing. */
  lemma CompleteMeansAtMostServicesMissing(b: Booking)
    ensures IsBookingComplete(b) <==> MissingFields(b) == [] || MissingFields(b) == [Services]
  {
    UnfilledRequired(b);
    MissingFieldsExact(b);
    if IsBookingComplete(b) {
      assert MissingFields(b) == [] + (if b.services == [] then [Services] else []) + [] + [] + [];
    } else {
      var f := if b.name == "" then Name else if b.date.None? then Date else if b.time == "" then Time else Address;
      assert f in MissingFields(b) && f != Services;
    }
  }

  // ---------------------------------------------------------------------
  // Splitting a message into clauses: `split(/(?:,|\sand\s)/)`

  /** The length of the separator at `i`: a comma, or `and` between two whitespace characters; 0 for none. */
  function SeparatorAt(s: string, i: nat): nat {
    if i < |s| && s[i] == ',' then 1
    else if i + 5 <= |s| && IsSpace(s[i]) && s[i + 1..i + 4] == "and" && IsSpace(s[i + 4]) then 5
    else 0
  }

  /** The pieces from `start`, scanning for separators from `i`. */
  function Pieces(s: string, start: nat, i: nat): seq<string>
    requires start <= i <= |s|
    decreases |s| - i
  {
    if i == |s| then [s[start..]]
    else
      var n := SeparatorAt(s, i);
      if n > 0 then [s[start..i]] + Pieces(s, i + n, i + n)
      else Pieces(s, start, i + 1)
  }

  function SplitClauses(s: string): seq<string> {
    Pieces(s, 0, 0)
  }

  lemma {:induction false} PiecesHaveNoComma(s: string, start: nat, i: nat)
    requires start <= i <= |s|
    requires forall k :: start <= k < i ==> s[k] != ','
    ensures forall p :: p in Pieces(s, start, i) ==> ',' !in p
    decreases |s| - i
  {
    if i < |s| {
      var n := SeparatorAt(s, i);
      if n > 0 {
        PiecesHaveNoComma(s, i + n, i + n);
        assert ',' !in s[start..i];
      } else {
        PiecesHaveNoComma(s, start, i + 1);
      }
    } else {
      assert ',' !in s[start..];
    }
  }

  /** Commas never survive into a clause. */
  lemma ClausesHaveNoComma(s: string)
    ensures forall p :: p in SplitClauses(s) ==> ',' !in p
  {
    PiecesHaveNoComma(s, 0, 0);
  }

  lemma {:induction false} PiecesWithoutSeparator(s: string, start: nat, i: nat)
    requires start <= i <= |s|
    requires forall k :: i <= k < |s| ==> SeparatorAt(s, k) == 0
    ensures Pieces(s, start, i) == [s[start..]]
    decreases |s| - i
  {
    if i < |s| {
      PiecesWithoutSeparator(s, start, i + 1);
    }
  }

  /** A text without a separator is one clause. */
  lemma OneClauseWithoutSeparator(s: string)
    requires forall k :: 0 <= k < |s| ==> SeparatorAt(s, k) == 0
    ensures SplitClauses(s) == [s]
  {
    PiecesWithoutSeparator(s, 0, 0);
  }

  // ---------------------------------------------------------------------
  // The services step

  /** What the services are looked for in: the clauses of the normalised text when it has "and" or a comma, else the message itself. */
  function ServiceParts(message: string): seq<string> {
    var n := Normalize(message);
    if Contains(n, "and") || Contains(n, ",") then SplitClauses(n) else [message]
  }

  /** `if (service && !against.includes(service)) list.push(service)`. */
  function PushNew(list: seq<string>, against: seq<string>, service: Option<string>): seq<string> {
    match service
    case Some(x) => if x != "" && x !in against then list + [x] else list
    case None => list
  }

  /** The services of `parts` pushed onto `acc`, each checked against the list as it grows. */
  function Gather(acc: seq<string>, parts: seq<string>): seq<string>
    decreases |parts|
  {
    if parts == [] then acc
    else
      var prev := Gather(acc, parts[..|parts| - 1]);
      PushNew(prev, prev, Extract.ServiceMentioned(parts[|parts| - 1]))
  }

  predicate Distinct(xs: seq<string>) {
    forall i, j :: 0 <= i < j < |xs| ==> xs[i] != xs[j]
  }

  /** What `extractService` can name: the ambiguous facial or a catalogue display name. */
  predicate Nameable(x: string) {
    x == Extract.Ambiguous || Catalogue.IsServiceName(x)
  }

  /**
   * Gathering keeps the list free of duplicates and adds only names `extractService`
   * can return, each from some part; every service a part names ends up in the list.
   */
  lemma {:induction false} GatherSpec(acc: seq<string>, parts: seq<string>)
    requires Distinct(acc)
    ensures var r := Gather(acc, parts);
      Distinct(r) && |acc| <= |r| <= |acc| + |parts| && r[..|acc|] == acc
      && forall i :: |acc| <= i < |r| ==>
           Nameable(r[i]) && exists p :: p in parts && Extract.ServiceMentioned(p) == Some(r[i])
    ensures forall p :: p in parts && Extract.ServiceMentioned(p).Some? ==>
      Extract.ServiceMentioned(p).value in Gather(acc, parts)
    decreases |parts|
  {
    if parts != [] {
      var init := parts[..|parts| - 1];
      var last := parts[|parts| - 1];
      GatherSpec(acc, init);
      var prev := Gather(acc, init);
      var r := Gather(acc, parts);
      forall i | |acc| <= i < |prev|
        ensures exists p :: p in parts && Extract.ServiceMentioned(p) == Some(prev[i])
      {
        var p :| p in init && Extract.ServiceMentioned(p) == Some(prev[i]);
        assert p in parts;
      }
      if r != prev {
        Extract.ServiceMentionedRange(last);
        assert r == prev + [r[|prev|]];
        assert Extract.ServiceMentioned(last) == Some(r[|prev|]);
      }
    }
    GatherComplete(acc, parts);
  }

  /** Every service a part names is in the gathered list. */
  lemma {:induction false} GatherComplete(acc: seq<string>, parts: seq<string>)
    ensures forall p :: p in parts && Extract.ServiceMentioned(p).Some? ==>
      Extract.ServiceMentioned(p).value in Gather(acc, parts)
    decreases |parts|
  {
    if parts != [] {
      var init := parts[..|parts| - 1];
      var last := parts[|parts| - 1];
      GatherComplete(acc, init);
      var prev := Gather(acc, init);
      MentionedNonEmpty(last);
      PushNewKeeps(prev, Extract.ServiceMentioned(last));
      forall p | p in parts && Extract.ServiceMentioned(p).Some?
        ensures Extract.ServiceMentioned(p).value in Gather(acc, parts)
      {
        if p != last {
          assert p in init;
        }
      }
    }
  }

  /** `extractService` never names the empty string. */
  lemma MentionedNonEmpty(p: string)
    ensures Extract.ServiceMentioned(p).Some? ==> Extract.ServiceMentioned(p).value != ""
  {
    Extract.ServiceMentionedRange(p);
  }

  /** Pushing keeps what the list held and leaves a non-empty service in it. */
  lemma PushNewKeeps(list: seq<string>, service: Option<string>)
    ensures forall y :: y in list ==> y in PushNew(list, list, service)
    ensures service.Some? && service.value != "" ==> service.value in PushNew(list, list, service)
  {
  }

  // ---------------------------------------------------------------------
  // The six steps, each on what its extractor returned for the message

  function WithServices(b: Booking, parts: seq<string>): Booking {
    if b.services == [] then b.(services := Gather(b.services, parts)) else b
  }

  function WithName(b: Booking, name: Option<string>): Booking {
    if b.name == "" && b.services != [] && name.Some? && name.value != "" then b.(name := name.value) else b
  }

  function WithDate(b: Booking, found: Dates.DateTime): Booking {
    if b.date.None? && b.name != "" && found.date.Some? then b.(date := found.date) else b
  }

  function WithTime(b: Booking, found: Dates.DateTime): Booking {
    if b.time == "" && b.date.Some? && found.time.Some? && found.time.value != "" then b.(time := found.time.value) else b
  }

  /** `bare` says the message is a bare time, which is never read as an address. */
  function WithAddress(b: Booking, bare: bool, address: Option<string>): Booking {
    if b.address == "" && b.time != "" && !bare && address.Some? && address.value != "" then b.(address := address.value) else b
  }

  function WithPhone(b: Booking, phone: Option<string>): Booking {
    if b.phone == "" && b.address != "" && phone.Some? && phone.value != "" then b.(phone := phone.value) else b
  }

  /** The six steps in order. */
  function Steps(b: Booking, parts: seq<string>, name: Option<string>, found: Dates.DateTime,
                 bare: bool, address: Option<string>, phone: Option<string>): Booking
  {
    WithPhone(WithAddress(WithTime(WithDate(WithName(WithServices(b, parts), name), found), found), bare, address), phone)
  }

  /** The draft after one pass of `extractAndUpdateDetails`. */
  function Merged(m: string, b: Booking, today: Dates.Clock): Booking {
    Steps(b, ServiceParts(m), Extract.ExtractName(m), Dates.DateTimeIn(m, today),
          Extract.BareTime(m), Extract.ExtractAddress(m), Extract.ExtractPhoneNumber(m))
  }

  /** The clause loop of the services step. */
  method GatherServices(current: seq<string>, parts: seq<string>) returns (list: seq<string>)
    ensures list == Gather(current, parts)
  {
    list := current;
    var i := 0;
    while i < |parts|
      invariant i <= |parts|
      invariant list == Gather(current, parts[..i])
    {
      var service := Extract.ExtractService(parts[i]);
      if service.Some? && service.value != "" && service.value !in list {
        list := list + [service.value];
      }
      assert parts[..i + 1][..i] == parts[..i];
      i := i + 1;
    }
    assert parts[..|parts|] == parts;
  }

  /**
   * `extractAndUpdateDetails`: the services loop over the clauses, then one
   * guarded assignment per field.
   */
  method ExtractAndUpdateDetails(message: string, current: Booking, today: Dates.Clock) returns (booking: Booking)
    ensures booking == Merged(message, current, today)
  {
    booking := UpdateServices(message, current);
    booking := UpdateName(message, booking);
    booking := UpdateDate(message, booking, today);
    booking := UpdateTime(message, booking, today);
    booking := UpdateAddress(message, booking);
    booking := UpdatePhone(message, booking);
  }

  /** The services step: the clauses of the message, only while the draft has no service. */
  method UpdateServices(message: string, current: Booking) returns (booking: Booking)
    ensures booking == WithServices(current, ServiceParts(message))
  {
    booking := current;
    var normalizedMessage := Normalize(message);
    if booking.services == [] {
      var parts: seq<string>;
      if Contains(normalizedMessage, "and") || Contains(normalizedMessage, ",") {
        parts := SplitClauses(normalizedMessage);
      } else {
        parts := [message];
      }
      var list := GatherServices(booking.services, parts);
      booking := booking.(services := list);
    }
  }

  method UpdateName(message: string, current: Booking) returns (booking: Booking)
    ensures booking == WithName(current, Extract.ExtractName(message))
  {
    booking := current;
    if booking.name == "" && booking.services != [] {
      var possibleName := Extract.ExtractName(message);
      if possibleName.Some? && possibleName.value != "" {
        booking := booking.(name := possibleName.value);
      }
    }
  }

  method UpdateDate(message: string, current: Booking, today: Dates.Clock) returns (booking: Booking)
    ensures booking == WithDate(current, Dates.DateTimeIn(message, today))
  {
    booking := current;
    if booking.date.None? && booking.name != "" {
      var dateTimeInfo := Dates.ExtractDateTime(message, today);
      if dateTimeInfo.date.Some? {
        booking := booking.(date := dateTimeInfo.date);
      }
    }
  }

  method UpdateTime(message: string, current: Booking, today: Dates.Clock) returns (booking: Booking)
    ensures booking == WithTime(current, Dates.DateTimeIn(message, today))
  {
    booking := current;
    if booking.time == "" && booking.date.Some? {
      var dateTimeInfo := Dates.ExtractDateTime(message, today);
      if dateTimeInfo.time.Some? && dateTimeInfo.time.value != "" {
        booking := booking.(time := dateTimeInfo.time.value);
      }
    }
  }

  method UpdateAddress(message: string, current: Booking) returns (booking: Booking)
    ensures booking == WithAddress(current, Extract.BareTime(message), Extract.ExtractAddress(message))
  {
    booking := current;
    if booking.address == "" && booking.time != "" {
      if !Extract.BareTime(message) {
        var possibleAddress := Extract.ExtractAddress(message);
        if possibleAddress.Some? && possibleAddress.value != "" {
          booking := booking.(address := possibleAddress.value);
        }
      }
    }
  }

  method UpdatePhone(message: string, current: Booking) returns (booking: Booking)
    ensures booking == WithPhone(current, Extract.ExtractPhoneNumber(message))
  {
    booking := current;
    if booking.phone == "" && booking.address != "" {
      var possiblePhone := Extract.ExtractPhoneNumber(message);
      if possiblePhone.Some? && possiblePhone.value != "" {
        booking := booking.(phone := possiblePhone.value);
      }
    }
  }

  // ---------------------------------------------------------------------
  // Properties of the merge

  /** Every field filled in `b` holds the same value in `c`. */
  predicate Keeps(b: Booking, c: Booking) {
    && (b.name != "" ==> c.name == b.name)
    && (b.services != [] ==> c.services == b.services)
    && (b.date.Some? ==> c.date == b.date)
    && (b.time != "" ==> c.time == b.time)
    && (b.address != "" ==> c.address == b.address)
    && (b.phone != "" ==> c.phone == b.phone)
  }

  /** The field that must be filled before `f` is (services come first and have none). */
  function Predecessor(f: Field): Field
    requires f != Services
  {
    match f
    case Name => Services
    case Date => Name
    case Time => Date
    case Address => Time
    case Phone => Address
  }

  /** A field empty in `b` and filled in `c` has its predecessor filled in `c`. */
  predicate InOrder(b: Booking, c: Booking) {
    && (b.name == "" && c.name != "" ==> c.services != [])
    && (b.date.None? && c.date.Some? ==> c.name != "")
    && (b.time == "" && c.time != "" ==> c.date.Some?)
    && (b.address == "" && c.address != "" ==> c.time != "")
    && (b.phone == "" && c.phone != "" ==> c.address != "")
  }

  /** `InOrder` stated through `Predecessor`. */
  lemma InOrderByPredecessor(b: Booking, c: Booking)
    requires InOrder(b, c)
    ensures forall f :: f != Services && !Filled(b, f) && Filled(c, f) ==> Filled(c, Predecessor(f))
  {
  }

  /**
   * Whatever the extractors return, the six steps never overwrite a filled
   * field, and fill a field only once its predecessor is filled; services
   * change only when there were none.
   */
  lemma StepsKeepAndOrder(b: Booking, parts: seq<string>, name: Option<string>, found: Dates.DateTime,
                          bare: bool, address: Option<string>, phone: Option<string>)
    ensures var c := Steps(b, parts, name, found, bare, address, phone);
      Keeps(b, c) && InOrder(b, c) && (c.services == b.services || b.services == [])
  {
    var b1 := WithServices(b, parts);
    var b2 := WithName(b1, name);
    var b3 := WithDate(b2, found);
    var b4 := WithTime(b3, found);
    var b5 := WithAddress(b4, bare, address);
    var c := WithPhone(b5, phone);
    assert c.name == b2.name && c.services == b1.services && c.date == b3.date;
    assert c.time == b4.time && c.address == b5.address;
    assert b2.name != b1.name ==> b1.services != [];
    assert b3.date != b2.date ==> b2.name != "";
    assert b4.time != b3.time ==> b3.date.Some?;
    assert b5.address != b4.address ==> b4.time != "";
    assert c.phone != b5.phone ==> b5.address != "";
  }

  /** The merge never overwrites a filled field. */
  lemma MergeNeverOverwrites(m: string, b: Booking, today: Dates.Clock)
    ensures Keeps(b, Merged(m, b, today))
  {
    StepsKeepAndOrder(b, ServiceParts(m), Extract.ExtractName(m), Dates.DateTimeIn(m, today),
                      Extract.BareTime(m), Extract.ExtractAddress(m), Extract.ExtractPhoneNumber(m));
  }

  /**
   * A field is filled by the merge only if its predecessor in services,
   * name, date, time, address, phone is filled by then; within one pass a
   * field filled early lets the next one be filled from the same message.
   */
  lemma MergeFillsInOrder(m: string, b: Booking, today: Dates.Clock)
    ensures InOrder(b, Merged(m, b, today))
  {
    StepsKeepAndOrder(b, ServiceParts(m), Extract.ExtractName(m), Dates.DateTimeIn(m, today),
                      Extract.BareTime(m), Extract.ExtractAddress(m), Extract.ExtractPhoneNumber(m));
  }

  /** Each value the steps write is the one the corresponding extractor returned. */
  lemma StepsSources(b: Booking, parts: seq<string>, name: Option<string>, found: Dates.DateTime,
                     bare: bool, address: Option<string>, phone: Option<string>)
    ensures var c := Steps(b, parts, name, found, bare, address, phone);
      && (c.services != b.services ==> c.services == Gather([], parts))
      && (c.name != b.name ==> name == Some(c.name))
      && (c.date != b.date ==> c.date == found.date)
      && (c.time != b.time ==> found.time == Some(c.time))
      && (c.address != b.address ==> address == Some(c.address) && !bare)
      && (c.phone != b.phone ==> phone == Some(c.phone))
  {
    var b1 := WithServices(b, parts);
    var b2 := WithName(b1, name);
    var b3 := WithDate(b2, found);
    var b4 := WithTime(b3, found);
    var b5 := WithAddress(b4, bare, address);
    var c := WithPhone(b5, phone);
    assert c.name == b2.name && c.services == b1.services && c.date == b3.date;
    assert c.time == b4.time && c.address == b5.address;
  }

  /** Each value the merge writes is what the corresponding extractor returns for the message. */
  lemma MergeSources(m: string, b: Booking, today: Dates.Clock)
    ensures var c := Merged(m, b, today);
      && (c.name != b.name ==> Extract.ExtractName(m) == Some(c.name))
      && (c.date != b.date ==> c.date == Dates.DateTimeIn(m, today).date)
      && (c.time != b.time ==> Dates.DateTimeIn(m, today).time == Some(c.time))
      && (c.address != b.address ==> Extract.ExtractAddress(m) == Some(c.address) && !Extract.BareTime(m))
      && (c.phone != b.phone ==> Extract.ExtractPhoneNumber(m) == Some(c.phone))
  {
    StepsSources(b, ServiceParts(m), Extract.ExtractName(m), Dates.DateTimeIn(m, today),
                 Extract.BareTime(m), Extract.ExtractAddress(m), Extract.ExtractPhoneNumber(m));
  }

  /**
   * Services are taken only when the draft has none, and then without duplicates,
   * only names `extractService` returns, and every service a clause names.
   */
  lemma MergeServices(m: string, b: Booking, today: Dates.Clock)
    ensures b.services != [] ==> Merged(m, b, today).services == b.services
    ensures b.services == [] ==>
      var s := Merged(m, b, today).services;
      Distinct(s) && (forall i :: 0 <= i < |s| ==> Nameable(s[i]))
      && forall p :: p in ServiceParts(m) && Extract.ServiceMentioned(p).Some? ==>
           Extract.ServiceMentioned(p).value in s
  {
    var parts := ServiceParts(m);
    StepsKeepAndOrder(b, parts, Extract.ExtractName(m), Dates.DateTimeIn(m, today),
                      Extract.BareTime(m), Extract.ExtractAddress(m), Extract.ExtractPhoneNumber(m));
    StepsSources(b, parts, Extract.ExtractName(m), Dates.DateTimeIn(m, today),
                 Extract.BareTime(m), Extract.ExtractAddress(m), Extract.ExtractPhoneNumber(m));
    GatherSpec([], parts);
  }

  /** A bare time such as "10am" never fills the address. */
  lemma BareTimeKeepsAddress(m: string, b: Booking, today: Dates.Clock)
    requires Extract.BareTime(m)
    ensures Merged(m, b, today).address == b.address
  {
    StepsSources(b, ServiceParts(m), Extract.ExtractName(m), Dates.DateTimeIn(m, today),
                 Extract.BareTime(m), Extract.ExtractAddress(m), Extract.ExtractPhoneNumber(m));
  }

  /**
   * Within one pass the fields cascade: a draft holding only services gets
   * its name, date and time from a single message when each extractor finds one.
   */
  lemma OneMessageCascades(m: string, b: Booking, today: Dates.Clock)
    requires b.services != [] && b.name == "" && b.date.None? && b.time == ""
    requires Extract.ExtractName(m).Some? && Extract.ExtractName(m).value != ""
    requires Dates.DateTimeIn(m, today).date.Some?
    requires Dates.DateTimeIn(m, today).time.Some? && Dates.DateTimeIn(m, today).time.value != ""
    ensures var c := Merged(m, b, today);
      c.name == Extract.ExtractName(m).value && c.date == Dates.DateTimeIn(m, today).date
      && Some(c.time) == Dates.DateTimeIn(m, today).time
  {
  }
}
