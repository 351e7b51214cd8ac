/**
 * `getNextPrompt` (index.js:597-641): the question asked for the first
 * missing field, chosen at random from that field's pool of phrasings.
 */
module Prompts {
  import opened Optional
  import opened Text
  import Catalogue
  import opened Draft

  const Bullet: char := '\U{2022}'

  /** One line of the services prompt: `` `• ${s.name} (${s.price})` ``. */
  function MenuLine(s: Catalogue.Service): string {
    [Bullet] + " " + s.name + " (" + s.price + ")"
  }

  function MenuLines(ss: seq<Catalogue.Service>): (r: seq<string>)
    ensures |r| == |ss|
    ensures forall k :: 0 <= k < |ss| ==> r[k] == MenuLine(ss[k])
  {
    if ss == [] then [] else [MenuLine(ss[0])] + MenuLines(ss[1..])
  }

  const NamePrompts: seq<string> := [
    "Could I get your name?",
    "What name should I put this booking under?",
    "Who am I booking this for?"]

  /** The services prompt lists the catalogue, one line per service. */
  function ServicesPrompt(): string {
    "What treatment would you like?\n" + Join(MenuLines(Catalogue.Services), "\n")
    + "\n\nYou can book multiple treatments together!"
  }

  const DatePrompts: seq<string> := [
    "What date would you like me to come? You can say 'tomorrow', 'next Monday', or any specific date."]

  const TimePrompts: seq<string> := [
    "What time works best for you? I'm available from 9am to 8pm.",
    "What time would you prefer? I'm available 9am to 8pm."]

  const AddressPrompts: seq<string> := [
    "What's your address?",
    "Could you share your address with me?",
    "What's your home address?"]

  const PhonePrompts: seq<string> := [
    "What's your phone number? I'll use this to send you booking confirmations via WhatsApp.",
    "Could you share your phone number? This is for WhatsApp notifications.",
    "Please provide your phone number for booking confirmations."]

  /** The phrasings for each field. */
  function Pool(f: Field): seq<string> {
    match f
    case Name => NamePrompts
    case Services => [ServicesPrompt()]
    case Date => DatePrompts
    case Time => TimePrompts
    case Address => AddressPrompts
    case Phone => PhonePrompts
  }

  lemma PoolNonEmpty(f: Field)
    ensures |Pool(f)| > 0
  {
    match f
    case Name => assert |NamePrompts| == 3;
    case Services =>
    case Date => assert |DatePrompts| == 1;
    case Time => assert |TimePrompts| == 2;
    case Address => assert |AddressPrompts| == 3;
    case Phone => assert |PhonePrompts| == 3;
  }

  /** `missingFields.filter(field => field !== 'name')`. */
  function WithoutName(fs: seq<Field>): (r: seq<Field>)
    ensures Name !in r
    ensures forall f :: f in r <==> f in fs && f != Name
  {
    if fs == [] then [] else (if fs[0] == Name then [] else [fs[0]]) + WithoutName(fs[1..])
  }

  /** The filter works field by field: every field but `Name` is kept, in its order. */
  lemma {:induction false} WithoutNameSplits(a: seq<Field>, b: seq<Field>)
    ensures WithoutName(a + b) == WithoutName(a) + WithoutName(b)
    decreases |a|
  {
    if a == [] {
      assert a + b == b;
    } else {
      assert (a + b)[1..] == a[1..] + b;
      WithoutNameSplits(a[1..], b);
    }
  }

  lemma WithoutNameOne(f: Field)
    ensures WithoutName([f]) == if f == Name then [] else [f]
  {
    assert [f][1..] == [];
  }



  /** The fields still to ask about: the name is dropped once the draft has one. */
  function ToAsk(b: Booking, missing: seq<Field>): seq<Field> {
    if b.name != "" && Name in missing then WithoutName(missing) else missing
  }

  /**
   * `getNextPrompt`, with `roll` standing for the random draw: the prompt
   * for the first field still to ask about, or `None` when there is none.
   */
  function NextPrompt(b: Booking, missing: seq<Field>, roll: nat): (r: Option<string>)
    ensures r.Some? <==> ToAsk(b, missing) != []
    ensures r.Some? ==> r.value in Pool(ToAsk(b, missing)[0])
  {
    if missing == [] then None
    else
      var fields := ToAsk(b, missing);
      if fields == [] then None
      else
        var pool := Pool(fields[0]);
        PoolNonEmpty(fields[0]);
        Some(pool[roll % |pool|])
  }

  /** Every phrasing of the pool can be chosen. */
  lemma EveryPhrasingReachable(b: Booking, missing: seq<Field>, k: nat)
    requires ToAsk(b, missing) != [] && k < |Pool(ToAsk(b, missing)[0])|
    ensures NextPrompt(b, missing, k) == Some(Pool(ToAsk(b, missing)[0])[k])
  {
    var pool := Pool(ToAsk(b, missing)[0]);
    assert k % |pool| == k;
  }

  /**
   * For the fields `getMissingFields` reports, the prompt asks about the
   * first of them, and there is none only when nothing is missing.
   */
  lemma PromptForFirstMissing(b: Booking, roll: nat)
    ensures NextPrompt(b, MissingFields(b), roll).Some? <==> MissingFields(b) != []
    ensures MissingFields(b) != [] ==> NextPrompt(b, MissingFields(b), roll).value in Pool(MissingFields(b)[0])
  {
    MissingFieldsExact(b);
    if b.name != "" {
      assert Name !in MissingFields(b);
    }
  }

  /** A draft that has a name is never asked for it, even when the list passed in names it. */
  lemma NamedDraftNotAskedName(b: Booking, missing: seq<Field>, roll: nat)
    requires b.name != ""
    requires NextPrompt(b, missing, roll).Some?
    ensures ToAsk(b, missing)[0] != Name
  {
    if Name in missing {
      assert ToAsk(b, missing)[0] in WithoutName(missing);
    }
  }
}
