/**
 * The fixed catalogue of six home beauty services (index.js:23-30) and the
 * price arithmetic over it: the services total, the flat travel charge and
 * the appointment length used for the calendar entry.
 */
module Catalogue {
  import opened Optional
  import opened Text

  datatype Service = Service(code: string, name: string, price: string, duration: nat)

  const Euro: char := '\U{20AC}'
  const EnDash: char := '\U{2013}'

  /** The catalogue in its declaration order. */
  const Services: seq<Service> := [
    Service("EYEBROW", "Eyebrow Threading", [Euro] + "10", 15),
    Service("FACE", "Full Face Threading", [Euro] + "25", 30),
    Service("BASIC_FACIAL", "Facial (Basic)", [Euro] + "40", 45),
    Service("LUXURY_FACIAL", "Facial (Luxury)", [Euro] + "60", 60),
    Service("WAXING", "Full Body Waxing", [Euro] + "70", 90),
    Service("HENNA", "Henna Design", [Euro] + "20" + [EnDash, Euro] + "50", 45)
  ]

  /** The display names, in catalogue order. */
  function Names(): (r: seq<string>)
    ensures |r| == |Services|
    ensures forall k :: 0 <= k < |Services| ==> r[k] == Services[k].name
  {
    seq(|Services|, k requires 0 <= k < |Services| => Services[k].name)
  }

  predicate IsServiceName(name: string) {
    name in Names()
  }

  /** The position of the first catalogue entry with the given name. */
  function FindIndex(name: string, from: nat): (r: Option<nat>)
    requires from <= |Services|
    ensures r.Some? ==> from <= r.value < |Services| && Services[r.value].name == name
    ensures r.None? ==> forall j :: from <= j < |Services| ==> Services[j].name != name
    decreases |Services| - from
  {
    if from == |Services| then None
    else if Services[from].name == name then Some(from)
    else FindIndex(name, from + 1)
  }

  /** `Object.values(SERVICES).find(s => s.name === name)`. */
  function FindByName(name: string): (r: Option<Service>)
    ensures r.Some? <==> IsServiceName(name)
    ensures r.Some? ==> r.value in Services && r.value.name == name
  {
    match FindIndex(name, 0)
    case Some(k) => Some(Services[k])
    case None => None
  }

  /** `parseInt(price.replace('€', ''))`, with `NaN` counted as 0 (index.js:2024-2025). */
  function PriceValue(s: Service): int {
    ParseInt(ReplaceFirst(s.price, [Euro], "")).GetOr(0)
  }

  /** What one selected service name adds to the total: 0 when it is not in the catalogue. */
  function Contribution(name: string): int {
    match FindByName(name)
    case Some(s) => PriceValue(s)
    case None => 0
  }

  /** `calculateServicesTotal` (index.js:2020-2029). */
  function ServicesTotal(services: seq<string>): int {
    if services == [] then 0 else Contribution(services[0]) + ServicesTotal(services[1..])
  }

  /** `calculateTravelCharge` (index.js:813-816): a flat charge whatever the address. */
  function TravelCharge(address: string): int {
    5
  }

  /** The appointment length summed for the calendar entry; unknown names count 60 minutes (index.js:1560-1563). */
  function ServicesDuration(services: seq<string>): nat {
    if services == [] then 0
    else
      (match FindByName(services[0]) case Some(s) => s.duration case None => 60)
      + ServicesDuration(services[1..])
  }

  // ---------------------------------------------------------------------
  // What the price strings parse to

  lemma ReplaceLeadingEuro(p: string)
    requires |p| > 0 && p[0] == Euro
    ensures ReplaceFirst(p, [Euro], "") == p[1..]
  {
    assert p[0..1] == [Euro];
  }

  /** A price written as the euro sign and two digits, possibly followed by more text. */
  lemma TwoDigitEuroPrice(p: string)
    requires |p| >= 3 && p[0] == Euro && IsDigit(p[1]) && IsDigit(p[2])
    requires |p| == 3 || !IsDigit(p[3])
    ensures ParseInt(ReplaceFirst(p, [Euro], "")) == Some(10 * DigitValue(p[1]) + DigitValue(p[2]))
  {
    ReplaceLeadingEuro(p);
    ParseIntTwoDigits(p[1..]);
  }

  /** The price strings parse to 10, 25, 40, 60, 70 and, for the range `€20–€50`, 20. */
  lemma CataloguePrices(k: nat)
    requires k < |Services|
    ensures PriceValue(Services[k]) == [10, 25, 40, 60, 70, 20][k]
  {
    var p := Services[k].price;
    assert p[0] == Euro && IsDigit(p[1]) && IsDigit(p[2]) && (|p| == 3 || !IsDigit(p[3]));
    TwoDigitEuroPrice(p);
  }

  /** Catalogue names are distinct, so a name finds its own entry. */
  lemma FindsOwnEntry(k: nat)
    requires k < |Services|
    ensures FindByName(Services[k].name) == Some(Services[k])
  {
  }

  /** Total by counting: each catalogue service adds its price once per occurrence. */
  function TotalByCount(m: multiset<string>): int {
    10 * m[Services[0].name] + 25 * m[Services[1].name] + 40 * m[Services[2].name]
    + 60 * m[Services[3].name] + 70 * m[Services[4].name] + 20 * m[Services[5].name]
  }

  lemma EntryByCount(k: nat)
    requires k < |Services|
    ensures TotalByCount(multiset{Services[k].name}) == [10, 25, 40, 60, 70, 20][k]
  {
    if k == 0 {} else if k == 1 {} else if k == 2 {} else if k == 3 {} else if k == 4 {} else {}
  }

  /** One name's contribution, counted the same way. */
  lemma ContributionByCount(x: string)
    ensures Contribution(x) == TotalByCount(multiset{x})
  {
    match FindIndex(x, 0)
    case Some(k) =>
      assert Contribution(x) == PriceValue(Services[k]);
      CataloguePrices(k);
      EntryByCount(k);
    case None =>
  }

  /**
   * The services total is the sum of the catalogue prices of the selected
   * names, each counted as often as it is selected; other names add nothing.
   */
  lemma {:induction false} ServicesTotalByCount(services: seq<string>)
    ensures ServicesTotal(services) == TotalByCount(multiset(services))
  {
    if services != [] {
      var x := services[0];
      ServicesTotalByCount(services[1..]);
      assert services == [x] + services[1..];
      assert multiset(services) == multiset{x} + multiset(services[1..]);
      ContributionByCount(x);
    }
  }

  /** Reordering the selection does not change the total. */
  lemma TotalIgnoresOrder(a: seq<string>, b: seq<string>)
    requires multiset(a) == multiset(b)
    ensures ServicesTotal(a) == ServicesTotal(b)
  {
    ServicesTotalByCount(a);
    ServicesTotalByCount(b);
  }

  /** The total of two selections put together is the sum of their totals. */
  lemma {:induction false} ServicesTotalAppend(a: seq<string>, b: seq<string>)
    ensures ServicesTotal(a + b) == ServicesTotal(a) + ServicesTotal(b)
  {
    if a != [] {
      assert (a + b)[0] == a[0];
      assert (a + b)[1..] == a[1..] + b;
      ServicesTotalAppend(a[1..], b);
    } else {
      assert a + b == b;
    }
  }

  /** A name outside the catalogue (such as `AMBIGUOUS_FACIAL`) adds nothing. */
  lemma UnknownNameAddsNothing(services: seq<string>, name: string)
    requires !IsServiceName(name)
    ensures ServicesTotal(services + [name]) == ServicesTotal(services)
  {
    ServicesTotalAppend(services, [name]);
    assert [name][1..] == [];
  }

  /** Eyebrow Threading with Full Face Threading totals 35. */
  lemma EyebrowAndFullFace(services: seq<string>)
    requires services == ["Eyebrow Threading", "Full Face Threading"]
    ensures ServicesTotal(services) == 35
  {
    ServicesTotalByCount(services);
    assert multiset(services) == multiset{services[0]} + multiset{services[1]};
    EntryByCount(0);
    EntryByCount(1);
    assert services[1..][1..] == [];
  }

  /** Henna Design, priced as the range `€20–€50`, contributes 20. */
  lemma HennaContributesTwenty()
    ensures Contribution(Services[5].name) == 20
  {
    FindsOwnEntry(5);
    CataloguePrices(5);
  }

  /** One name adds between 0 and 70, the dearest catalogue price. */
  lemma ContributionBounds(x: string)
    ensures 0 <= Contribution(x) <= 70
  {
    match FindIndex(x, 0)
    case Some(k) =>
      assert Contribution(x) == PriceValue(Services[k]);
      PriceBounds(k);
    case None =>
  }

  lemma PriceBounds(k: nat)
    requires k < |Services|
    ensures 0 <= PriceValue(Services[k]) <= 70
  {
    CataloguePrices(k);
    PriceTableBounds(k);
  }

  lemma PriceTableBounds(k: nat)
    requires k < 6
    ensures 0 <= [10, 25, 40, 60, 70, 20][k] <= 70
  {
  }

  /** The total of a selection is at most 70 per selected name. */
  lemma {:induction false} ServicesTotalBounds(services: seq<string>)
    ensures 0 <= ServicesTotal(services) <= 70 * |services|
  {
    if services != [] {
      ServicesTotalBounds(services[1..]);
      ContributionBounds(services[0]);
    }
  }
}
