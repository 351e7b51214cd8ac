/**
 * The intent classifiers the booking engine consults before and after it
 * updates the draft: greetings (index.js:580-584), confirmations
 * (index.js:956-971), the five commands (index.js:1166-1201), the general
 * questions (index.js:990-1123) and small talk (index.js:1126-1163).
 *
 * Canned replies are represented by what they answer, not by their prose.
 */
module Classify {
  import opened Optional
  import opened Text
  import Catalogue
  import Extract

  // ---------------------------------------------------------------------
  // isGreeting (index.js:580-584)

  const Greetings: seq<string> := ["hi", "hello", "hey", "good morning", "good afternoon", "good evening"]

  /** The normalised message is the phrase `g`, or starts with `g` and a space. */
  predicate Greets(msg: string, g: string) {
    msg == g || StartsWith(msg, g + " ")
  }

  predicate IsGreeting(message: string) {
    exists k :: 0 <= k < |Greetings| && Greets(Normalize(message), Greetings[k])
  }

  lemma GreetingEnds(k: nat)
    requires k < |Greetings|
    ensures |Greetings[k]| > 0 && !IsSpace(Greetings[k][0]) && !IsSpace(Greetings[k][|Greetings[k]| - 1])
  {
  }

  /**
   * A message whose lower-cased text starts with a greeting phrase and a
   * space is a greeting, whatever follows: "Hello I'd like a facial" is one,
   * while "Hello, I'd like a facial" is not, because a comma follows.
   */
  lemma GreetingThenAnything(m: string, k: nat)
    requires k < |Greetings| && StartsWith(Lower(m), Greetings[k] + " ")
    ensures IsGreeting(m)
  {
    var l := Lower(m);
    var g := Greetings[k];
    GreetingEnds(k);
    assert l[0] == (g + " ")[0] == g[0];
    assert TrimStart(l) == l;
    TrimEndShape(l);
    var r := TrimEnd(l);
    assert l[|g| - 1] == (g + " ")[|g| - 1] == g[|g| - 1];
    assert |r| >= |g|;
    if |r| == |g| {
      assert r == l[..|g|];
      assert l[..|g|] == (g + " ")[..|g|] == g;
    } else {
      assert r[..|g| + 1] == l[..|g| + 1] == g + " ";
    }
    assert Greets(Normalize(m), Greetings[k]);
  }

  // ---------------------------------------------------------------------
  // isConfirmation (index.js:956-971)

  const Confirmations: seq<string> := [
    "yes", "yeah", "yep", "yup", "sure", "okay", "ok", "alright",
    "confirm", "confirmed", "that's correct", "that is correct", "correct",
    "sounds good", "looks good", "perfect", "great", "wonderful",
    "that works", "works for me", "good with me", "fine by me",
    "please proceed", "go ahead", "book it", "let's do it",
    "that's fine", "all set", "absolutely", "yes please"
  ]

  /** The three tests tried for each phrase: equality, substring, and the phrase between `\b` boundaries. */
  predicate ConfirmsWith(msg: string, conf: string) {
    msg == conf || Contains(msg, conf) || exists i :: 0 <= i <= |msg| && WordAt(msg, conf, i)
  }

  /** The message is trimmed before it is lower-cased here. */
  predicate IsConfirmation(message: string) {
    var msg := Lower(Trim(message));
    exists k :: 0 <= k < |Confirmations| && ConfirmsWith(msg, Confirmations[k])
  }

  /**
   * The equality and boundary tests add nothing: a message is a
   * confirmation exactly when it contains one of the phrases.
   */
  lemma ConfirmationIsContainment(m: string)
    ensures IsConfirmation(m) <==>
      exists k :: 0 <= k < |Confirmations| && Contains(Lower(Trim(m)), Confirmations[k])
  {
    var msg := Lower(Trim(m));
    if IsConfirmation(m) {
      var k :| 0 <= k < |Confirmations| && ConfirmsWith(msg, Confirmations[k]);
      var conf := Confirmations[k];
      if msg == conf {
        ContainsSelf(msg);
      } else if !Contains(msg, conf) {
        var i :| 0 <= i <= |msg| && WordAt(msg, conf, i);
        ContainsAt(msg, conf, i);
      }
    }
  }

  /** Every message that mentions "book" confirms, because "book" contains "ok". */
  lemma BookConfirms(m: string)
    requires Contains(Lower(Trim(m)), "book")
    ensures IsConfirmation(m)
  {
    assert OccursAt("book", "ok", 2);
    ContainsAt("book", "ok", 2);
    ContainsTransitive(Lower(Trim(m)), "book", "ok");
    assert ConfirmsWith(Lower(Trim(m)), Confirmations[6]);
  }

  lemma ConfirmationLengths(k: nat)
    requires k < |Confirmations|
    ensures |Confirmations[k]| >= 2
  {
  }

  /** No phrase is shorter than "ok", so a message of fewer than two characters once trimmed never confirms. */
  lemma ShortNeverConfirms(m: string)
    requires |Trim(m)| < 2
    ensures !IsConfirmation(m)
  {
    if IsConfirmation(m) {
      ConfirmationIsContainment(m);
      var k :| 0 <= k < |Confirmations| && Contains(Lower(Trim(m)), Confirmations[k]);
      ContainsLength(Lower(Trim(m)), Confirmations[k]);
      ConfirmationLengths(k);
      assert false;
    }
  }

  // ---------------------------------------------------------------------
  // isCommand and handleCommand (index.js:1166-1201)

  const Commands: seq<string> := ["reset", "cancel", "help", "menu", "services"]

  predicate IsCommand(message: string) {
    Normalize(message) in Commands
  }

  /** What the command replies: the cancellation notice, the help text, or the service menu. */
  datatype CommandReply = Cancelled | Help | Menu

  /** The `switch` of `handleCommand`; `None` is its `null` default. */
  function HandleCommand(message: string): (r: Option<CommandReply>)
    ensures r.Some? <==> IsCommand(message)
    ensures r == Some(Cancelled) <==> Normalize(message) in ["reset", "cancel"]
    ensures r == Some(Menu) <==> Normalize(message) in ["menu", "services"]
  {
    var msg := Normalize(message);
    if msg == "reset" || msg == "cancel" then Some(Cancelled)
    else if msg == "help" then Some(Help)
    else if msg == "menu" || msg == "services" then Some(Menu)
    else None
  }

  /** Surrounding whitespace and letter case do not matter: "  RESET\n" is the reset command. */
  lemma CommandIgnoresCaseAndSpace(m: string, k: nat, p: string, q: string)
    requires k < |Commands| && Lower(m) == p + Commands[k] + q
    requires forall i :: 0 <= i < |p| ==> IsSpace(p[i])
    requires forall i :: 0 <= i < |q| ==> IsSpace(q[i])
    ensures IsCommand(m)
  {
    var c := Commands[k];
    assert !IsSpace(c[0]) && !IsSpace(c[|c| - 1]);
    TrimPadded(p, c, q);
  }

  // ---------------------------------------------------------------------
  // handleGeneralQuestion (index.js:990-1123)

  /** The twelve questions `handleGeneralQuestion` answers, in the order it tries them. */
  datatype Topic =
    | NoStore | AtHome | Offerings | Hours | Prices | Durations
    | Travel | Availability | Payment | FacialDifference | HowToBook | Rescheduling

  function Rank(t: Topic): nat {
    match t
    case NoStore => 0
    case AtHome => 1
    case Offerings => 2
    case Hours => 3
    case Prices => 4
    case Durations => 5
    case Travel => 6
    case Availability => 7
    case Payment => 8
    case FacialDifference => 9
    case HowToBook => 10
    case Rescheduling => 11
  }

  /** The condition of each branch on the lower-cased (untrimmed) message. */
  predicate Asks(t: Topic, msg: string) {
    match t
    case NoStore =>
      (Contains(msg, "store") || Contains(msg, "shop") || Contains(msg, "salon"))
      && (Contains(msg, "physical") || Contains(msg, "location") || Contains(msg, "where") || Contains(msg, "address"))
    case AtHome =>
      (Contains(msg, "home") && (Contains(msg, "service") || Contains(msg, "visit")))
      || Contains(msg, "do you come") || Contains(msg, "provide service")
      || (Contains(msg, "where") && Contains(msg, "service"))
    case Offerings =>
      Contains(msg, "what") && (Contains(msg, "service") || Contains(msg, "offer") || Contains(msg, "treatment"))
    case Hours =>
      Contains(msg, "opening") || Contains(msg, "closing") || Contains(msg, "hours") || Contains(msg, "timing")
      || (Contains(msg, "what") && Contains(msg, "time")) || (Contains(msg, "when") && Contains(msg, "open"))
    case Prices =>
      Contains(msg, "how much") || Contains(msg, "price") || Contains(msg, "cost") || Contains(msg, "charge")
    case Durations =>
      Contains(msg, "how long") || Contains(msg, "duration") || Contains(msg, "take")
    case Travel =>
      Contains(msg, "where") || Contains(msg, "location") || Contains(msg, "area") || Contains(msg, "travel")
    case Availability =>
      Contains(msg, "when") || (Contains(msg, "what") && Contains(msg, "time")) || Contains(msg, "available")
    case Payment =>
      Contains(msg, "pay") || Contains(msg, "payment") || Contains(msg, "cash") || Contains(msg, "card")
    case FacialDifference =>
      (Contains(msg, "difference") || Contains(msg, "between")) && Contains(msg, "facial")
    case HowToBook =>
      Contains(msg, "how") && Contains(msg, "book")
    case Rescheduling =>
      Contains(msg, "cancel") || Contains(msg, "change") || Contains(msg, "reschedule")
  }

  /** The answer: its topic and, for prices and durations, the one service asked about. */
  datatype Answer = Answer(topic: Topic, service: Option<Catalogue.Service>)

  /** The catalogue entry named by `extractService(message)`, if it names one. */
  function ServiceInfo(message: string): (r: Option<Catalogue.Service>)
    ensures r.Some? <==> Extract.ServiceMentioned(message).Some?
                         && Catalogue.IsServiceName(Extract.ServiceMentioned(message).value)
    ensures r.Some? ==> r.value in Catalogue.Services && Extract.ServiceMentioned(message) == Some(r.value.name)
  {
    match Extract.ServiceMentioned(message)
    case Some(name) => Catalogue.FindByName(name)
    case None => None
  }

  /**
   * `handleGeneralQuestion`: the first branch whose condition holds; the
   * price and duration answers speak of the service the message names.
   */
  function GeneralQuestion(message: string): (r: Option<Answer>)
    ensures r.Some? ==> Asks(r.value.topic, Lower(message))
    ensures r.Some? && r.value.topic in {Prices, Durations} ==> r.value.service == ServiceInfo(message)
    ensures r.Some? && r.value.topic !in {Prices, Durations} ==> r.value.service.None?
  {
    var msg := Lower(message);
    if Asks(NoStore, msg) then Some(Answer(NoStore, None))
    else if Asks(AtHome, msg) then Some(Answer(AtHome, None))
    else if Asks(Offerings, msg) then Some(Answer(Offerings, None))
    else if Asks(Hours, msg) then Some(Answer(Hours, None))
    else if Asks(Prices, msg) then Some(Answer(Prices, ServiceInfo(message)))
    else if Asks(Durations, msg) then Some(Answer(Durations, ServiceInfo(message)))
    else if Asks(Travel, msg) then Some(Answer(Travel, None))
    else if Asks(Availability, msg) then Some(Answer(Availability, None))
    else if Asks(Payment, msg) then Some(Answer(Payment, None))
    else if Asks(FacialDifference, msg) then Some(Answer(FacialDifference, None))
    else if Asks(HowToBook, msg) then Some(Answer(HowToBook, None))
    else if Asks(Rescheduling, msg) then Some(Answer(Rescheduling, None))
    else None
  }

  /**
   * The topic answered is the first, in branch order, whose condition
   * holds, and there is no answer only when no condition holds.
   */
  lemma FirstTopicAnswers(m: string)
    ensures var r := GeneralQuestion(m);
      (r.Some? ==> Asks(r.value.topic, Lower(m))
                   && forall t :: Rank(t) < Rank(r.value.topic) ==> !Asks(t, Lower(m)))
      && (r.None? ==> forall t :: !Asks(t, Lower(m)))
  {
  }

  /**
   * The availability branch's "what ... time" test never decides: such a
   * message is answered as an opening-hours question before it is reached.
   */
  lemma AvailabilityNeedsWhenOrAvailable(m: string)
    requires GeneralQuestion(m) == Some(Answer(Availability, None))
    ensures Contains(Lower(m), "when") || Contains(Lower(m), "available")
  {
  }

  /** "payment" contains "pay", so the payment branch is the test for "pay", "cash" or "card". */
  lemma PaymentTest(msg: string)
    ensures Asks(Payment, msg) <==> Contains(msg, "pay") || Contains(msg, "cash") || Contains(msg, "card")
  {
    if Contains(msg, "payment") {
      assert StartsWith("payment", "pay");
      ContainsTransitive(msg, "payment", "pay");
    }
  }

  lemma AmbiguousIsNoService()
    ensures !Catalogue.IsServiceName(Extract.Ambiguous)
  {
    var n := Catalogue.Names();
    assert n == [n[0], n[1], n[2], n[3], n[4], n[5]];
  }

  /** A price or duration question about "a facial", which `extractService` finds ambiguous, gets the whole list. */
  lemma AmbiguousFacialGetsList(m: string)
    requires Extract.ServiceMentioned(m) == Some(Extract.Ambiguous)
    ensures GeneralQuestion(m).Some? ==> GeneralQuestion(m).value.service.None?
  {
    AmbiguousIsNoService();
    assert ServiceInfo(m).None?;
  }

  // ---------------------------------------------------------------------
  // handleSmallTalk (index.js:1126-1163)

  datatype Talk = Thanks | Farewell | Wellbeing

  /** A small-talk reply: its kind and which of the four replies of that kind. */
  datatype Chat = Chat(kind: Talk, choice: nat)

  /** Each kind of small talk has four replies to choose from. */
  const PoolSize: nat := 4

  /** `roll` stands for the random draw; the reply chosen is `roll % 4`. */
  function SmallTalk(message: string, roll: nat): (r: Option<Chat>)
    ensures r.Some? ==> r.value.choice < PoolSize
  {
    var msg := Lower(message);
    if Contains(msg, "thank") || Contains(msg, "thanks") || Contains(msg, "thx") then
      Some(Chat(Thanks, roll % PoolSize))
    else if Contains(msg, "bye") || Contains(msg, "goodbye") || Contains(msg, "see you") || Contains(msg, "cya") then
      Some(Chat(Farewell, roll % PoolSize))
    else if Contains(msg, "how are you") || Contains(msg, "how's it going") || Contains(msg, "how are things") then
      Some(Chat(Wellbeing, roll % PoolSize))
    else None
  }

  /** A message is thanked exactly when it mentions "thank" or "thx"; "thanks" adds nothing. */
  lemma ThanksWhen(m: string, roll: nat)
    ensures (SmallTalk(m, roll).Some? && SmallTalk(m, roll).value.kind == Thanks)
            <==> Contains(Lower(m), "thank") || Contains(Lower(m), "thx")
  {
    if Contains(Lower(m), "thanks") {
      assert StartsWith("thanks", "thank");
      ContainsTransitive(Lower(m), "thanks", "thank");
    }
  }

  /** Farewells are recognised by "bye", "see you" or "cya" when no thanks comes first; "goodbye" adds nothing. */
  lemma FarewellWhen(m: string, roll: nat)
    ensures (SmallTalk(m, roll).Some? && SmallTalk(m, roll).value.kind == Farewell)
            <==> !(Contains(Lower(m), "thank") || Contains(Lower(m), "thx"))
                 && (Contains(Lower(m), "bye") || Contains(Lower(m), "see you") || Contains(Lower(m), "cya"))
  {
    ThanksWhen(m, roll);
    if Contains(Lower(m), "goodbye") {
      assert OccursAt("goodbye", "bye", 4);
      ContainsAt("goodbye", "bye", 4);
      ContainsTransitive(Lower(m), "goodbye", "bye");
    }
  }
}
