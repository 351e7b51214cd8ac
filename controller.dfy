/**
 * The two conversation controllers: `processMessage` (index.js:481-577),
 * a step from a message and a draft to a reply and the new draft, and the
 * `/chat` handler (index.js:1301-1509), which decides in a different order
 * and keeps the draft in a file store.
 */
module Controller {
  import opened Optional
  import opened Text
  import Catalogue
  import Extract
  import Dates
  import Classify
  import opened Draft
  import Prompts
  import Finalise

  // ---------------------------------------------------------------------
  // processMessage (index.js:481-577)

  /** `getRandomGreeting` draws from three phrasings. */
  const GreetingPoolSize: nat := 3

  /** What `processMessage` answers, by kind. */
  datatype Reply =
    | Added(services: seq<string>)
    | ServiceMenu
    | Greeting(choice: nat)
    | CommandAnswer(command: Classify.CommandReply)
    | Processed(outcome: Finalise.Outcome)
    | Prompt(text: string)

  /** The reply and the draft `processMessage` hands back. */
  datatype Turn = Turn(reply: Reply, booking: Booking)

  /** What `extractService` finds in each part. */
  function Mentions(parts: seq<string>): (r: seq<Option<string>>)
    ensures |r| == |parts|
    decreases |parts|
  {
    if parts == [] then [] else Mentions(parts[..|parts| - 1]) + [Extract.ServiceMentioned(parts[|parts| - 1])]
  }

  lemma MentionsSnoc(parts: seq<string>, i: nat)
    requires i < |parts|
    ensures Mentions(parts[..i + 1]) == Mentions(parts[..i]) + [Extract.ServiceMentioned(parts[i])]
  {
    assert parts[..i + 1][..i] == parts[..i];
  }

  lemma CollectSnoc(known: seq<string>, found: seq<Option<string>>, last: Option<string>)
    ensures Collect(known, found + [last]) == PushNew(Collect(known, found), known, last)
  {
    assert (found + [last])[..|found|] == found;
  }

  lemma {:induction false} MentionsAt(parts: seq<string>, i: nat)
    requires i < |parts|
    ensures Mentions(parts)[i] == Extract.ServiceMentioned(parts[i])
    decreases |parts|
  {
    if i < |parts| - 1 {
      MentionsAt(parts[..|parts| - 1], i);
    }
  }

  /**
   * The services-first step: each service found that is not already in
   * `known`. The finds are checked against `known` only, never against
   * each other.
   */
  function Collect(known: seq<string>, found: seq<Option<string>>): seq<string>
    decreases |found|
  {
    if found == [] then []
    else PushNew(Collect(known, found[..|found| - 1]), known, found[|found| - 1])
  }

  /** The services loop of `processMessage`. */
  method CollectServices(known: seq<string>, parts: seq<string>) returns (found: seq<string>)
    ensures found == Collect(known, Mentions(parts))
  {
    found := [];
    var i := 0;
    while i < |parts|
      invariant i <= |parts|
      invariant found == Collect(known, Mentions(parts[..i]))
    {
      var service := Extract.ExtractService(parts[i]);
      if service.Some? && service.value != "" && service.value !in known {
        found := found + [service.value];
      }
      MentionsSnoc(parts, i);
      CollectSnoc(known, Mentions(parts[..i]), service);
      i := i + 1;
    }
    assert parts[..|parts|] == parts;
  }

  /** A greeting that asks for nothing: it mentions neither "book" nor "want". */
  predicate PlainGreeting(message: string) {
    Classify.IsGreeting(message) && !Contains(Normalize(message), "book") && !Contains(Normalize(message), "want")
  }

  /**
   * `processMessage`, with `roll` for the random draws and `saved` for
   * whether `processBooking` could write the pending booking.
   */
  function Respond(message: string, b: Booking, today: Dates.Clock, roll: nat, saved: bool): Turn {
    Decide(message, b, Collect(b.services, Mentions(ServiceParts(message))), PlainGreeting(message), Merged(message, b, today), roll, saved)
  }

  /**
   * The branches of `processMessage`, given the services collected
   * (`found`), whether the message is a plain greeting and the merged draft `u`.
   */
  function Decide(message: string, b: Booking, found: seq<string>, plain: bool, u: Booking, roll: nat, saved: bool): Turn {
    if found != [] then Turn(Added(found), b.(services := b.services + found))
    else if plain then
      if b.services == [] then Turn(ServiceMenu, b) else Turn(Greeting(roll % GreetingPoolSize), b)
    else if u == b && Classify.IsCommand(message) then Turn(CommandAnswer(Classify.HandleCommand(message).value), b)
    else if MissingFields(u) == [] then Turn(Processed(Finalise.ProcessBooking(u, message, saved)), u)
    else
      Prompts.PromptForFirstMissing(u, roll);
      Turn(Prompt(Prompts.NextPrompt(u, MissingFields(u), roll).value), u)
  }

  /** `processMessage` as the source writes it, one step after another. */
  method ProcessMessage(message: string, booking: Booking, today: Dates.Clock, roll: nat, saved: bool)
    returns (reply: Reply, updated: Booking)
    ensures Turn(reply, updated) == Respond(message, booking, today, roll, saved)
  {
    var normalized := Normalize(message);
    var servicesFound := CollectServices(booking.services, ServiceParts(message));
    if |servicesFound| > 0 {
      return Added(servicesFound), booking.(services := booking.services + servicesFound);
    }
    if Classify.IsGreeting(message) && !Contains(normalized, "book") && !Contains(normalized, "want") {
      assert PlainGreeting(message);
      if |booking.services| == 0 {
        return ServiceMenu, booking;
      }
      return Greeting(roll % GreetingPoolSize), booking;
    }
    assert !PlainGreeting(message);
    var merged := ExtractAndUpdateDetails(message, booking, today);
    if merged == booking && Classify.IsCommand(message) {
      return CommandAnswer(Classify.HandleCommand(message).value), booking;
    }
    var missing := GetMissingFields(merged);
    if |missing| == 0 {
      return Processed(Finalise.ProcessBooking(merged, message, saved)), merged;
    }
    Prompts.PromptForFirstMissing(merged, roll);
    var prompt := Prompts.NextPrompt(merged, missing, roll);
    return Prompt(prompt.value), merged;
  }

  lemma {:induction false} CollectAppend(known: seq<string>, xs: seq<Option<string>>, ys: seq<Option<string>>)
    ensures Collect(known, xs + ys) == Collect(known, xs) + Collect(known, ys)
    decreases |ys|
  {
    if ys == [] {
      assert xs + ys == xs;
    } else {
      var init := ys[..|ys| - 1];
      assert (xs + ys)[..|xs + ys| - 1] == xs + init;
      assert (xs + ys)[|xs + ys| - 1] == ys[|ys| - 1];
      CollectAppend(known, xs, init);
    }
  }

  /** Every service collected is a non-empty find that is not yet booked. */
  lemma {:induction false} CollectSpec(known: seq<string>, found: seq<Option<string>>)
    ensures var r := Collect(known, found);
      |r| <= |found| && forall i :: 0 <= i < |r| ==> r[i] != "" && r[i] !in known && Some(r[i]) in found
    decreases |found|
  {
    if found != [] {
      var init := found[..|found| - 1];
      CollectSpec(known, init);
      var prev := Collect(known, init);
      var r := Collect(known, found);
      assert forall x :: x in init ==> x in found;
      if r != prev {
        assert r == prev + [r[|prev|]];
        assert found[|found| - 1] == Some(r[|prev|]);
      }
    }
  }

  /**
   * A new service is collected once for every part it is found in: finds
   * are not merged with each other, so a message can add a service twice.
   */
  lemma {:induction false} CollectCountsEveryFind(known: seq<string>, found: seq<Option<string>>, s: string)
    requires s != "" && s !in known
    ensures multiset(Collect(known, found))[s] == multiset(found)[Some(s)]
    decreases |found|
  {
    if found != [] {
      var init := found[..|found| - 1];
      var last := found[|found| - 1];
      var prev := Collect(known, init);
      assert found == init + [last];
      assert multiset(found) == multiset(init) + multiset{last};
      CollectCountsEveryFind(known, init, s);
      if last.Some? && last.value != "" && last.value !in known {
        assert Collect(known, found) == prev + [last.value];
        assert multiset(Collect(known, found)) == multiset(prev) + multiset{last.value};
      } else {
        assert Collect(known, found) == prev;
        assert last != Some(s);
      }
    }
  }

  /** With an empty draft, nothing collected means the gathering of the merge adds nothing either. */
  lemma {:induction false} NothingCollectedNothingGathered(parts: seq<string>)
    requires Collect([], Mentions(parts)) == []
    ensures Gather([], parts) == []
    decreases |parts|
  {
    if parts != [] {
      var init := parts[..|parts| - 1];
      var f := Mentions(parts);
      assert f[..|f| - 1] == Mentions(init);
      assert PushNew(Collect([], Mentions(init)), [], f[|f| - 1]) == [];
      assert Collect([], Mentions(init)) == [];
      NothingCollectedNothingGathered(init);
    }
  }

  /** A service collected from the parts is one `extractService` names for some part. */
  lemma CollectedFromParts(known: seq<string>, parts: seq<string>, x: string)
    requires x in Collect(known, Mentions(parts))
    ensures Nameable(x) && x !in known && exists p :: p in parts && Extract.ServiceMentioned(p) == Some(x)
  {
    var r := Collect(known, Mentions(parts));
    CollectSpec(known, Mentions(parts));
    var i :| 0 <= i < |r| && r[i] == x;
    var j :| 0 <= j < |parts| && Mentions(parts)[j] == Some(x);
    MentionsAt(parts, j);
    Extract.ServiceMentionedRange(parts[j]);
  }

  /** The draft each branch of `processMessage` hands back. */
  lemma DecideBooking(message: string, b: Booking, found: seq<string>, plain: bool, u: Booking, roll: nat, saved: bool)
    ensures var c := Decide(message, b, found, plain, u, roll, saved).booking;
      if found != [] then c == b.(services := b.services + found)
      else if plain || (u == b && Classify.IsCommand(message)) then c == b
      else c == u
  {
  }

  /** The reply of each branch of `processMessage`. */
  lemma DecideReply(message: string, b: Booking, found: seq<string>, plain: bool, u: Booking, roll: nat, saved: bool)
    ensures var r := Decide(message, b, found, plain, u, roll, saved).reply;
      (found != [] ==> r == Added(found))
      && (found == [] && plain ==>
            (r == ServiceMenu <==> b.services == []) && (r != ServiceMenu ==> r.Greeting? && r.choice < GreetingPoolSize))
      && (found == [] && !plain && u == b && Classify.IsCommand(message) ==>
            r == CommandAnswer(Classify.HandleCommand(message).value))
      && (found == [] && !plain && !(u == b && Classify.IsCommand(message)) ==>
            (MissingFields(u) == [] ==> r == Processed(Finalise.ProcessBooking(u, message, saved)))
            && (MissingFields(u) != [] ==> r.Prompt? && r.text in Prompts.Pool(MissingFields(u)[0])))
  {
    if found == [] && !plain && !(u == b && Classify.IsCommand(message)) && MissingFields(u) != [] {
      Prompts.PromptForFirstMissing(u, roll);
    }
  }

  /**
   * New services are appended to the draft, leaving every other field as
   * it was; each is nameable, was not booked before and comes from the message.
   */
  lemma ServicesAppended(message: string, b: Booking, today: Dates.Clock, roll: nat, saved: bool)
    requires Collect(b.services, Mentions(ServiceParts(message))) != []
    ensures var t := Respond(message, b, today, roll, saved);
      var found := t.reply.services;
      t.reply.Added? && t.booking == b.(services := b.services + found)
      && forall i :: 0 <= i < |found| ==>
        Nameable(found[i]) && found[i] !in b.services
        && exists p :: p in ServiceParts(message) && Extract.ServiceMentioned(p) == Some(found[i])
  {
    var found := Collect(b.services, Mentions(ServiceParts(message)));
    forall i | 0 <= i < |found|
      ensures Nameable(found[i]) && found[i] !in b.services
      ensures exists p :: p in ServiceParts(message) && Extract.ServiceMentioned(p) == Some(found[i])
    {
      CollectedFromParts(b.services, ServiceParts(message), found[i]);
    }
    DecideBooking(message, b, found, PlainGreeting(message), Merged(message, b, today), roll, saved);
    DecideReply(message, b, found, PlainGreeting(message), Merged(message, b, today), roll, saved);
  }

  /**
   * Once the merge is reached, it adds no services: so the services list
   * the copy shares with the caller's draft is never pushed onto there.
   */
  lemma MergeReachedAddsNoServices(message: string, b: Booking, today: Dates.Clock)
    requires Collect(b.services, Mentions(ServiceParts(message))) == []
    ensures Merged(message, b, today).services == b.services
  {
    var parts := ServiceParts(message);
    StepsKeepAndOrder(b, parts, Extract.ExtractName(message), Dates.DateTimeIn(message, today),
                      Extract.BareTime(message), Extract.ExtractAddress(message), Extract.ExtractPhoneNumber(message));
    StepsSources(b, parts, Extract.ExtractName(message), Dates.DateTimeIn(message, today),
                 Extract.BareTime(message), Extract.ExtractAddress(message), Extract.ExtractPhoneNumber(message));
    if b.services == [] {
      NothingCollectedNothingGathered(parts);
    }
  }

  /**
   * A greeting without "book" or "want" and without a new service leaves
   * the draft alone; the menu is shown exactly when no service is booked,
   * and otherwise one of the greetings.
   */
  lemma GreetingLeavesDraft(message: string, b: Booking, today: Dates.Clock, roll: nat, saved: bool)
    requires Collect(b.services, Mentions(ServiceParts(message))) == [] && PlainGreeting(message)
    ensures var t := Respond(message, b, today, roll, saved);
      t.booking == b && (t.reply == ServiceMenu <==> b.services == [])
      && (t.reply != ServiceMenu ==> t.reply.Greeting? && t.reply.choice < GreetingPoolSize)
  {
    var found := Collect(b.services, Mentions(ServiceParts(message)));
    DecideBooking(message, b, found, PlainGreeting(message), Merged(message, b, today), roll, saved);
    DecideReply(message, b, found, PlainGreeting(message), Merged(message, b, today), roll, saved);
  }

  /**
   * A command is answered only when the message changed nothing in the
   * draft, and answering it leaves the draft as it was: "reset" and
   * "cancel" do not clear it.
   */
  lemma CommandKeepsDraft(message: string, b: Booking, today: Dates.Clock, roll: nat, saved: bool)
    ensures var t := Respond(message, b, today, roll, saved);
      t.reply.CommandAnswer? ==>
        t.booking == b && Merged(message, b, today) == b && Classify.IsCommand(message)
        && (t.reply.command == Classify.Cancelled <==> Normalize(message) in ["reset", "cancel"])
  {
    var found := Collect(b.services, Mentions(ServiceParts(message)));
    DecideBooking(message, b, found, PlainGreeting(message), Merged(message, b, today), roll, saved);
    DecideReply(message, b, found, PlainGreeting(message), Merged(message, b, today), roll, saved);
  }

  /**
   * When no service is collected and the message is neither a plain
   * greeting nor an unchanging command, the draft becomes the merge, with
   * the services as they were; it is processed when nothing is missing and
   * otherwise the first missing field is asked about, with one of its phrasings.
   */
  lemma MergedThenProcessedOrPrompted(message: string, b: Booking, today: Dates.Clock, roll: nat, saved: bool)
    requires Collect(b.services, Mentions(ServiceParts(message))) == [] && !PlainGreeting(message)
    requires Merged(message, b, today) != b || !Classify.IsCommand(message)
    ensures var t := Respond(message, b, today, roll, saved);
      var u := Merged(message, b, today);
      t.booking == u && u.services == b.services
      && (MissingFields(u) == [] ==> t.reply == Processed(Finalise.ProcessBooking(u, message, saved)))
      && (MissingFields(u) != [] ==> t.reply.Prompt? && t.reply.text in Prompts.Pool(MissingFields(u)[0]))
  {
    var found := Collect(b.services, Mentions(ServiceParts(message)));
    MergeReachedAddsNoServices(message, b, today);
    DecideBooking(message, b, found, PlainGreeting(message), Merged(message, b, today), roll, saved);
    DecideReply(message, b, found, PlainGreeting(message), Merged(message, b, today), roll, saved);
  }

  /**
   * Whatever the branch, a filled field other than the services keeps its
   * value, and the services already booked stay at the front of the list.
   */
  lemma RespondKeepsFilledFields(message: string, b: Booking, today: Dates.Clock, roll: nat, saved: bool)
    ensures var c := Respond(message, b, today, roll, saved).booking;
      Keeps(b.(services := []), c.(services := [])) && |b.services| <= |c.services|
      && c.services[..|b.services|] == b.services
  {
    var found := Collect(b.services, Mentions(ServiceParts(message)));
    var u := Merged(message, b, today);
    if found == [] && !PlainGreeting(message) {
      MergeReachedAddsNoServices(message, b, today);
      MergeNeverOverwrites(message, b, today);
    }
    DecideKeeps(message, b, found, PlainGreeting(message), u, roll, saved);
  }

  lemma DecideKeeps(message: string, b: Booking, found: seq<string>, plain: bool, u: Booking, roll: nat, saved: bool)
    requires found == [] && !plain ==> Keeps(b, u) && u.services == b.services
    ensures var c := Decide(message, b, found, plain, u, roll, saved).booking;
      Keeps(b.(services := []), c.(services := [])) && |b.services| <= |c.services|
      && c.services[..|b.services|] == b.services
  {
    DecideBooking(message, b, found, plain, u, roll, saved);
  }

  // ---------------------------------------------------------------------
  // The /chat handler (index.js:1301-1509)

  /** The greeting of the handler draws from four phrasings. */
  const ChatGreetingPoolSize: nat := 4

  /** What the `/chat` handler answers, by kind. */
  datatype ChatReply =
    | Answered(answer: Classify.Answer)
    | Chatted(chat: Classify.Chat)
    | ResetDone
    | Finalised(outcome: Finalise.Outcome)
    | Greeted(choice: nat)
    | Menu
    | Summarised(summary: Finalise.Summary)
    | AskFinalConfirmation
    | ServicesMenu
    | Asked(field: Field, text: string)

  /** What the handler does to the stored draft. */
  datatype StoreAction = Untouched | Cleared | Written(draft: Booking)

  datatype ChatTurn = ChatTurn(reply: ChatReply, action: StoreAction)

  /**
   * The question for the first missing field: the first phrasing of its
   * pool, and `getNextPrompt` for any other field.
   */
  function AskFor(u: Booking, missing: seq<Field>, roll: nat): (r: ChatReply)
    requires missing != []
    ensures r.Asked? && r.field == missing[0] && r.text in Prompts.Pool(missing[0])
    ensures r.text == Prompts.Pool(missing[0])[0]
  {
    match missing[0]
    case Name => Asked(Name, Prompts.NamePrompts[0])
    case Date => Asked(Date, Prompts.DatePrompts[0])
    case Time => Asked(Time, Prompts.TimePrompts[0])
    case Address => Asked(Address, Prompts.AddressPrompts[0])
    case Phone => Asked(Phone, Prompts.PhonePrompts[0])
    case Services =>
      assert Prompts.ToAsk(u, missing)[0] == Services;
      Asked(Services, Prompts.NextPrompt(u, missing, roll).GetOr(""))
  }

  /**
   * One request to the handler, given the draft it loaded: the reply and
   * what it asks the store to do. `roll` stands for the random draws and
   * `saved` for whether `processBooking` could write the pending booking.
   */
  function Chat(message: string, loaded: Booking, today: Dates.Clock, roll: nat, saved: bool): ChatTurn {
    ChatDecide(message, Classify.GeneralQuestion(message), Classify.SmallTalk(message, roll), loaded,
               Merged(message, loaded, today), roll, saved)
  }

  /**
   * The branches of the handler, given the answer to a general question,
   * the small-talk reply, the loaded draft and its merge `u` with the message.
   */
  function ChatDecide(message: string, question: Option<Classify.Answer>, talk: Option<Classify.Chat>,
                      loaded: Booking, u: Booking, roll: nat, saved: bool): ChatTurn
  {
    var n := Normalize(message);
    if question.Some? then ChatTurn(Answered(question.value), Untouched)
    else if talk.Some? then ChatTurn(Chatted(talk.value), Untouched)
    else if n == "reset" then ChatTurn(ResetDone, Cleared)
    else if IsBookingComplete(loaded) && Classify.IsConfirmation(message) then
      var outcome := Finalise.ProcessBooking(loaded, message, saved);
      ChatTurn(Finalised(outcome), if outcome.Confirmed? || outcome.AwaitingConfirmation? then Cleared else Untouched)
    else if Classify.IsGreeting(message) then ChatTurn(Greeted(roll % ChatGreetingPoolSize), Written(Fresh))
    else if Contains(n, "book") || Contains(n, "appointment") || Contains(n, "service")
         || Contains(n, "treatment") || Contains(n, "what") || Contains(n, "offer") then ChatTurn(Menu, Untouched)
    else
      var missing := MissingFields(u);
      if missing == [] && !Classify.IsConfirmation(message) then
        var total := Catalogue.ServicesTotal(u.services);
        var travel := Catalogue.TravelCharge(u.address);
        ChatTurn(Summarised(Finalise.Summary(u, u.time, total, travel, total + travel)), Written(u))
      else if missing == [] then ChatTurn(AskFinalConfirmation, Written(u))
      else if u.services == [] then ChatTurn(ServicesMenu, Written(u))
      else ChatTurn(AskFor(u, missing, roll), Written(u))
  }

  /** A booking is finalised only from a complete loaded draft, and then the draft is not rewritten. */
  lemma ChatDecideFinalises(message: string, question: Option<Classify.Answer>, talk: Option<Classify.Chat>,
                            loaded: Booking, u: Booking, roll: nat, saved: bool)
    ensures var t := ChatDecide(message, question, talk, loaded, u, roll, saved);
      t.reply.Finalised? ==> IsBookingComplete(loaded) && Classify.IsConfirmation(message) && !t.action.Written?
  {
  }

  /** The state files, by the name they are stored under. */
  type Store = map<string, Booking>

  /** The draft under `key`, or the empty draft when there is no such file. */
  function Load(store: Store, key: string): Booking {
    if key in store then store[key] else Fresh
  }

  /** `saveBookingState(key, state)`: a draft is written, a missing state deletes the file. */
  function Save(store: Store, key: string, state: Option<Booking>): (r: Store)
    ensures forall k :: k != key ==> (k in r <==> k in store) && (k in r ==> r[k] == store[k])
    ensures state.Some? ==> key in r && r[key] == state.value
    ensures state.None? ==> key !in r
  {
    match state
    case Some(d) => store[key := d]
    case None => store - {key}
  }

  /**
   * The handler as written: it calls `getBookingState()` and
   * `saveBookingState(null)` or `saveBookingState(booking)` with the phone
   * argument missing, so it reads the file named "undefined", and every
   * save passes no state, so it only deletes the file named "null" or
   * "[object Object]".
   */
  function ChatAsWritten(store: Store, message: string, today: Dates.Clock, roll: nat, saved: bool): (r: (ChatReply, Store))
    ensures forall k :: k in r.1 ==> k in store && r.1[k] == store[k]
    ensures Load(r.1, "undefined") == Load(store, "undefined")
  {
    var t := Chat(message, Load(store, "undefined"), today, roll, saved);
    var store' := match t.action
      case Untouched => store
      case Cleared => Save(store, "null", None)
      case Written(_) => Save(store, "[object Object]", None);
    (t.reply, store')
  }

  /** The handler with the store keyed by the user, as its helpers expect. */
  function ChatStep(store: Store, user: string, message: string, today: Dates.Clock, roll: nat, saved: bool): (r: (ChatReply, Store))
    ensures forall k :: k != user ==> Load(r.1, k) == Load(store, k)
    ensures r.1.Keys <= store.Keys + {user}
  {
    var t := Chat(message, Load(store, user), today, roll, saved);
    var store' := match t.action
      case Untouched => store
      case Cleared => Save(store, user, None)
      case Written(d) => Save(store, user, Some(d));
    (t.reply, store')
  }

  /** The empty draft is not complete, so with it the confirmation branch is never taken. */
  lemma FreshNotFinalised(message: string, today: Dates.Clock, roll: nat, saved: bool)
    ensures !Chat(message, Fresh, today, roll, saved).reply.Finalised?
  {
    ChatDecideFinalises(message, Classify.GeneralQuestion(message), Classify.SmallTalk(message, roll), Fresh,
                        Merged(message, Fresh, today), roll, saved);
  }

  /**
   * Over a whole conversation as written, where each request sees the store
   * the previous one left and the first store has no file named
   * "undefined", no message is ever answered by finalising a booking.
   */
  lemma AsWrittenNeverFinalises(stores: seq<Store>, messages: seq<string>, today: Dates.Clock, roll: nat, saved: bool)
    requires |stores| == |messages| + 1 && "undefined" !in stores[0]
    requires forall i :: 0 <= i < |messages| ==> stores[i + 1] == ChatAsWritten(stores[i], messages[i], today, roll, saved).1
    ensures forall i :: 0 <= i < |messages| ==> !ChatAsWritten(stores[i], messages[i], today, roll, saved).0.Finalised?
  {
    forall i | 0 <= i < |messages|
      ensures !ChatAsWritten(stores[i], messages[i], today, roll, saved).0.Finalised?
    {
      NoUndefinedFile(stores, messages, today, roll, saved, i);
      AsWrittenStep(stores[i], messages[i], today, roll, saved);
    }
  }

  lemma {:induction false} NoUndefinedFile(stores: seq<Store>, messages: seq<string>, today: Dates.Clock, roll: nat, saved: bool, i: nat)
    requires |stores| == |messages| + 1 && "undefined" !in stores[0]
    requires forall i :: 0 <= i < |messages| ==> stores[i + 1] == ChatAsWritten(stores[i], messages[i], today, roll, saved).1
    requires i <= |messages|
    ensures "undefined" !in stores[i]
    decreases i
  {
    if i > 0 {
      NoUndefinedFile(stores, messages, today, roll, saved, i - 1);
      AsWrittenStep(stores[i - 1], messages[i - 1], today, roll, saved);
    }
  }

  /** One request as written, from a store without a file named "undefined". */
  lemma AsWrittenStep(store: Store, message: string, today: Dates.Clock, roll: nat, saved: bool)
    requires "undefined" !in store
    ensures var step := ChatAsWritten(store, message, today, roll, saved);
      !step.0.Finalised? && "undefined" !in step.1
  {
    FreshNotFinalised(message, today, roll, saved);
  }

  /**
   * With the store keyed by the user, what the merge produced is kept under
   * that user, and no other user's draft changes.
   */
  lemma ChatStepKeepsDraft(store: Store, user: string, message: string, today: Dates.Clock, roll: nat, saved: bool)
    requires Chat(message, Load(store, user), today, roll, saved).action.Written?
    ensures var store' := ChatStep(store, user, message, today, roll, saved).1;
      Load(store', user) == Chat(message, Load(store, user), today, roll, saved).action.draft
      && forall k :: k != user ==> Load(store', k) == Load(store, k)
  {
  }

  /**
   * With the store keyed by the user, a complete, valid, stored draft is
   * confirmed by a confirming message that is not a question, small talk
   * or "reset", and the stored draft is then cleared.
   */
  lemma ChatStepFinalises(store: Store, user: string, message: string, today: Dates.Clock, roll: nat)
    requires user in store && Finalise.Problems(store[user]) == []
    requires Classify.GeneralQuestion(message).None? && Classify.SmallTalk(message, roll).None?
    requires Normalize(message) != "reset" && Classify.IsConfirmation(message)
    ensures var (reply, store') := ChatStep(store, user, message, today, roll, true);
      reply.Finalised? && reply.outcome.Confirmed? && reply.outcome.summary.booking == store[user]
      && user !in store'
  {
    var b := store[user];
    Finalise.ProblemsAreMissingFields(b);
    CompleteMeansAtMostServicesMissing(b);
    Finalise.ProcessedSummary(b, message);
  }
}
