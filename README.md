# Booking engine of a mobile beauty-service chatbot

The system is a chatbot that takes bookings for a mobile beautician. It
offers six treatments (threading, facials, waxing, henna), each with a
price and a duration. A customer's messages fill in a draft booking one
field at a time: services, name, date, time, address and, optionally, a
phone number. While fields are missing it asks for the next one. Once
everything is there it validates the draft, prices it (the services'
prices plus a flat travel charge) and summarises or confirms it.

This project models the deterministic core of that engine, all of it in
`index.js`:

- **Catalogue.** The service catalogue, the services total, the travel
  charge and the duration sum.
- **Classifiers.** Greeting, command, confirmation, general question and
  small talk. These are modelled as *which branch fires*, not by their
  canned prose.
- **Extractors.** The field extractors for service, name, date and time,
  address and phone number.
- **Merge.** How one message's findings are merged into the draft, in the
  fixed order services → name → date → time → address → phone.
- **Missing fields and prompts.** The missing-fields list, the next-prompt
  choice, validation and phone-number checking.
- **Finalising.** The time re-formatting and the outcome of finalising a
  booking. The stand-alone time parser and business-hours check are also
  modelled; nothing calls them.
- **Controllers.** `processMessage`, the step function from a message and a
  draft to a reply kind and a new draft. The `/chat` handler, a second
  step function with its own decision order, over a store of drafts.

## Modules

- **`Optional`, `Text`.** `Option`, plus the string operations JavaScript
  provides: lower-casing, `trim`, `includes`, `split`, `parseInt`,
  `padStart`.
- **`Catalogue`.** `SERVICES`, `calculateServicesTotal`,
  `calculateTravelCharge` and the duration sum.
- **`Extract`.** The extractors `extractService`, `cleanName`/`extractName`,
  `extractAddress` and `extractPhoneNumber`, and `validatePhoneNumber`.
- **`Dates`.** `extractDateTime`, and `parseTimeString`/`validateTime`.
- **`Classify`.** The intent classifiers.
- **`Draft`.** The booking record, and `getMissingFields`,
  `isBookingComplete` and `extractAndUpdateDetails`.
- **`Prompts`.** `getNextPrompt`.
- **`Finalise`.** `validateBooking` and `processBooking`.
- **`Controller`.** `processMessage` and the `/chat` handler.

## Modelling conventions

- **The draft.** The draft is a value, `Draft.Booking`. JavaScript's
  falsy values are modelled as `""`, `[]` and `None`.
- **Lengths.** Strings are sequences of Unicode characters. Where the
  source tests `.length` (`extractName`, `extractAddress`), the model
  counts UTF-16 code units, as JavaScript does: two for a character
  outside the Basic Multilingual Plane (`Text.JsLength`).
- **Methods for the source's loops.** Where the source loops, pushes or
  assigns step by step, the model has a method. Each method is proved equal
  to a specification function, and the lemmas are stated about that
  function:
  - `extractService` reassigning the message;
  - the date loop and the time loop of `extractDateTime`;
  - `getMissingFields` and `validateBooking` pushing onto arrays;
  - `extractAndUpdateDetails` assigning fields one after another;
  - the services loop of `processMessage`.
- **The clock.** The current date is a parameter, `Dates.Clock`: the year,
  the month index, the day of the month and the weekday. A requested date
  is the record of the year, month index and day that the extractor
  *sets*; printing it is not modelled.
- **Random choices.** A random choice is a parameter `roll`. Its
  properties are stated as "the reply is in the pool" or as a choice below
  the pool size.
- **Regular expressions.** Each regular expression is written out as a
  matcher at a position. The matcher tries the alternatives in the order
  the backtracking engine would. `String.prototype.match` is the leftmost
  position that matches.
- **Reply texts.** Replies are kinds, such as `Added(services)`,
  `Prompt(text)` or `Summarised(summary)`. The prompt pools of
  `getNextPrompt` are kept as their actual strings.

Where the code and the written description of the system disagree, the
model follows the code:

- **Address.** `extractAddress` has no street-pattern logic. Any message
  of 5 or more UTF-16 code units that passes the two refusal patterns and
  is not blank once trimmed is taken, capitalised word by word.
- **Date patterns.** The date patterns are tried without a `break`, so the
  last one that matches sets the date.
- **"reset" in `processMessage`.** "reset" only yields the command reply
  there; it does not clear the draft.
- **The `/chat` menu.** `/chat` shows the service menu for any message
  containing `book`, `appointment`, `service`, `treatment`, `what` or
  `offer`. This is checked before the draft is merged.
- **The phone number.** The phone number is never required. It is
  validated only when present.
- **The `/chat` summary time.** The summary that `/chat` shows prints the
  stored time unformatted.

## Model

| member | source | states |
|---|---|---|
| `Catalogue.FindByName` | index.js:2022 | the entry found by name exists exactly when the name is a catalogue display name, and carries that name |
| `Catalogue.FindIndex` | index.js:2022 | the index returned holds the name; none is returned only when no entry has it |
| `Catalogue.Names` | index.js:23-30 | the display names, one per catalogue entry, in order |
| `Catalogue.ReplaceLeadingEuro` | index.js:2024 | removing the first `€` of a price `€d…` leaves the text after it |
| `Catalogue.TwoDigitEuroPrice` | index.js:2024 | `parseInt` of a price `€dd…` after the `€` is removed is the two-digit value |
| `Catalogue.CataloguePrices` | index.js:23-30 | the parsed prices of the six entries are 10, 25, 40, 60, 70 and 20 |
| `Catalogue.FindsOwnEntry` | index.js:2022 | looking up an entry's own name finds that entry |
| `Catalogue.EntryByCount` | index.js:2020-2029 | an entry's contribution to the total is its price, by count of its name |
| `Catalogue.ContributionByCount` | index.js:2020-2029 | a name's contribution equals the by-count total of the one-element multiset |
| `Catalogue.ServicesTotalByCount` | index.js:2020-2029 | the services total depends only on how many times each catalogue name occurs |
| `Catalogue.TotalIgnoresOrder` | index.js:2020-2029 | two service lists with the same multiset of names have the same total |
| `Catalogue.ServicesTotalAppend` | index.js:2020-2029 | the total of a concatenation is the sum of the totals |
| `Catalogue.UnknownNameAddsNothing` | index.js:2022-2027 | a name outside the catalogue (the ambiguous-facial marker included) adds 0 |
| `Catalogue.EyebrowAndFullFace` | index.js:2020-2029 | Eyebrow Threading plus Full Face Threading totals 35 |
| `Catalogue.HennaContributesTwenty` | index.js:29 | the price `€20–€50` parses to 20 |
| `Catalogue.ContributionBounds` | index.js:2020-2029 | every name contributes between 0 and 70 |
| `Catalogue.PriceBounds` | index.js:23-30 | every catalogue price parses to a value between 0 and 70 |
| `Catalogue.ServicesTotalBounds` | index.js:2020-2029 | the total of n services is between 0 and 70·n |
| `Catalogue.ServicesTotal` | index.js:2020-2029 | defines the reduce; its properties are `ServicesTotalByCount`, `ServicesTotalAppend`, `UnknownNameAddsNothing` and `ServicesTotalBounds` |
| `Catalogue.TravelCharge` | index.js:813-816 | the flat charge of 5, whatever the address; `Finalise.ProcessedSummary` states the total with it |
| `Extract.FirstAlias` | index.js:677-685 | the alias result is the first key (in table order) the cleaned text contains; none when no key is contained |
| `Extract.FirstName` | index.js:688-692 | the fallback returns a catalogue name the text contains, lower-cased, and none when the text contains none |
| `Extract.ExtractService` | index.js:644-695 | the loop that strips the booking phrases and then scans the alias table computes `ServiceMentioned` |
| `Extract.NameContainsKey` | index.js:648-664 | every lower-cased catalogue name contains an alias key |
| `Extract.KeyInName` | index.js:648-692 | each lower-cased catalogue name holds a given alias key at a given position |
| `Extract.KeyInNameLow` | index.js:648-692 | the first three catalogue names each hold a key of the alias table |
| `Extract.KeyInNameHigh` | index.js:648-692 | the last three catalogue names each hold a key of the alias table |
| `Extract.CatalogueFallbackUnreachable` | index.js:687-692 | the catalogue-name fallback never decides: when it would match, an alias already has |
| `Extract.ServiceMentionedRange` | index.js:644-695 | the result is none, the ambiguous-facial marker, or a catalogue display name |
| `Extract.AliasTargetsInCatalogue` | index.js:648-664 | every non-null alias target is a catalogue display name |
| `Extract.FirstAliasDecides` | index.js:677-685 | the first alias key contained decides the result |
| `Extract.NoKeyNoService` | index.js:677-694 | text containing no alias key yields no service |
| `Extract.ServiceMentioned` | index.js:644-695 | defines what `extractService` decides; `ServiceMentionedRange`, `FirstAliasDecides` and `NoKeyNoService` state it |
| `Extract.FirstIntro` | index.js:1514 | the first introduction phrase found at a word boundary, and none before it |
| `Extract.StripIntro` | index.js:1514 | removing the introduction phrases never lengthens the text |
| `Extract.KeepWordAndSpace` | index.js:1515 | only word characters and whitespace remain |
| `Extract.KeepWordAndSpaceSplits` | index.js:1515 | the removal distributes over concatenation, so it works character by character and keeps what it keeps in order |
| `Extract.KeepWordAndSpaceOne` | index.js:1515 | a single character is kept exactly when it is a word character or whitespace |
| `Extract.DropServiceWords` | index.js:1516-1524 | every surviving word was a word of the input and is neither inside nor around a catalogue name |
| `Extract.ExtractName` | index.js:1531-1534 | no name exactly when the message is longer than 40 UTF-16 code units (JavaScript `.length`); otherwise the name is `CleanName` of the message |
| `Extract.EmptyIsServiceWord` | index.js:1520-1523 | the empty word is dropped, since every name contains it |
| `Extract.JoinNameChars` | index.js:1525-1527 | joining capitalised words keeps only word characters and spaces |
| `Extract.TrimKeepsChars` | index.js:1527 | trimming text of word characters and spaces keeps it so |
| `Extract.CleanNameShape` | index.js:1512-1528 | a cleaned name has only word characters and spaces, and each of its words is non-empty and neither inside nor around a service name |
| `Extract.CleanName` | index.js:1512-1528 | defines the chain of `cleanName`; `CleanNameShape` states what it produces |
| `Extract.CapitalizeKeepsService` | index.js:1525 | capitalising a surviving word keeps it out of every service name |
| `Extract.CapitalizeKeepsChars` | index.js:1525 | capitalising a word of word characters and spaces keeps it so |
| `Extract.PieceChars` | index.js:1516 | every piece of a split at spaces has only word characters and spaces when the text has |
| `Extract.StripIntroNoMatch` | index.js:1514 | text with no introduction phrase is left unchanged |
| `Extract.ShortNameInsideServiceDropped` | index.js:1520-1523 | "Al" is dropped from a name, because "facial (basic)" contains "al" |
| `Extract.ExtractAddress` | index.js:794-810 | an address exactly when the message has at least 5 UTF-16 code units, starts with no stop word, is not a bare time and is not blank once trimmed; it then has the length of the trimmed message, with each character upper-cased at the start of a space-separated word and lower-cased elsewhere |
| `Extract.EmojiCountsTwice` | index.js:796 | "abc" followed by an emoji is four characters but five UTF-16 code units, so it passes the length gate and is an address |
| `Extract.BareTimeNotAddress` | index.js:798 | a bare time such as `10:30 am` is never an address |
| `Extract.BareTime` | index.js:798 | defines the bare-time test; `BareTimeNotAddress` and `Draft.BareTimeKeepsAddress` state its use |
| `Extract.HowthRefused` | index.js:797 | "Howth Road" is refused because it starts with "how" |
| `Extract.AddressKeepsText` | index.js:803-807 | the address is as long as the trimmed message (only the case of letters changes) |
| `Extract.KeepPhoneChars` | index.js:2034 | only digits and `+` remain, and nothing is added |
| `Extract.KeepPhoneCharsSplits` | index.js:2034 | the removal distributes over concatenation, so it works character by character and keeps what it keeps in order |
| `Extract.KeepPhoneCharsOne` | index.js:2034 | a single character is kept exactly when it is a digit or `+` |
| `Extract.DropSpacesAndHyphens` | index.js:232 | no whitespace or hyphen remains |
| `Extract.DropSpacesAndHyphensSplits` | index.js:232 | the removal distributes over concatenation, so it works character by character and keeps what it keeps in order |
| `Extract.DropSpacesAndHyphensOne` | index.js:232 | a single character is dropped exactly when it is whitespace or a hyphen |
| `Extract.ExtractPhoneNumber` | index.js:2032-2054 | a number exactly when the digits-and-plus text is in the international form (`+353`/`00353`, then 8, one of 3 5 6 7 9, seven digits) or the national form (`08…`) |
| `Extract.NationalToInternational` | index.js:2039-2047 | a national `0…` number becomes `+353` followed by the digits after the 0 |
| `Extract.InternationalKept` | index.js:2038-2049 | a `+353…` match is returned unchanged |
| `Extract.KeepPhoneCharsIdentity` | index.js:2034 | text of digits and `+` only is left unchanged |
| `Extract.DropSpacesIdentity` | index.js:232 | text with no whitespace and no hyphen is left unchanged |
| `Extract.ExtractedPhoneValid` | index.js:2038-2049 | a `+353…` or national number that is extracted is in `+353` form, passes the Irish phone check (index.js:229-234), and is extracted unchanged from itself |
| `Extract.ValidPhone` | index.js:229-234 | defines `validatePhoneNumber`; `ExtractedPhoneValid`, `InternationalFormValid` and `DoubleZeroPrefix` state it |
| `Extract.InternationalFormValid` | index.js:2038 | a `+353` international form passes the Irish phone check at index.js:231 and is extracted unchanged |
| `Extract.DoubleZeroPrefix` | index.js:2046-2047 | `00353…` becomes `+3530353…`, which fails the phone check |
| `Extract.NationalExample` | index.js:2032-2054 | "0871234567" gives "+353871234567" |
| `Dates.WordIndexAt` | index.js:857-861 | the alternative chosen occurs at the position; none is chosen only when no alternative occurs there |
| `Dates.FirstMatch` | index.js:865 | the position returned holds a match |
| `Dates.FirstMatchIsFirst` | index.js:865 | no earlier position holds a match, and none does when none is returned |
| `Dates.Leftmost` | index.js:865 | `match` returns a match that starts at the position reported |
| `Dates.LeftmostIsFirst` | index.js:924 | no pattern match starts before the one `match` returns |
| `Dates.ExtractDateTime` | index.js:819-953 | the method computes the relative date, then the date patterns, then the time patterns, as `DateTimeIn` |
| `Dates.DateTimeIn` | index.js:819-953 | defines what `extractDateTime` returns; `LastDatePatternWins`, `NoPatternKeepsRelative` and `MeridianTimeFirst` state it |
| `Dates.ExtractDate` | index.js:864-913 | the loop over all four date patterns computes `DateAfter` |
| `Dates.ExtractTime` | index.js:923-950 | the loop that stops at the first matching time pattern computes `TimeFrom` |
| `Dates.LaterPatternsMiss` | index.js:864-913 | patterns after the last one that matches leave the date unchanged |
| `Dates.LastDatePatternWins` | index.js:864-913 | the date comes from the last date pattern that matches (there is no `break`) |
| `Dates.NoPatternKeepsRelative` | index.js:824-913 | when no date pattern matches, the date is the relative one (tomorrow, next weekday, or none) |
| `Dates.DayMonthYearImpliesDayMonth` | index.js:859-861 | wherever the day-month-year pattern matches, the day-month pattern matches too, without the year |
| `Dates.DayMonthFound` | index.js:859-861 | when either day-first pattern matches, the last one matches too, without a year |
| `Dates.DayBeforeMonthLosesYear` | index.js:859-893 | whenever a day-first date matches, the year set is the current one even if a year was typed ("5 march 2027"): the last pattern, which has no year group, overwrites |
| `Dates.DaysUntilBounds` | index.js:838-840 | the days added to reach a weekday are between 1 and 7 and land on that weekday |
| `Dates.NextWeekday` | index.js:833-849 | "next <weekday>" is between 1 and 7 days after today, in the same month record |
| `Dates.RelativeDate` | index.js:824-849 | defines the "tomorrow" and "next <weekday>" dates; `NextWeekday` states the second |
| `Dates.MeridianTimeFirst` | index.js:916-948 | when the am/pm pattern matches, it decides the time |
| `Dates.TimeMatchBounds` | index.js:918-920 | a time match has hours and minutes below 100, and a meridian exactly for the am/pm pattern |
| `Dates.TimeTryBounds` | index.js:918-920 | every attempt at a time match yields such bounded groups |
| `Dates.NumberBound` | index.js:926-927 | one or two digits read below 100 |
| `Dates.FormatTimeShape` | index.js:943-947 | the time printed is hours, `:`, two-digit minutes, then `am` or `pm` |
| `Dates.FormatTime` | index.js:943-947 | defines the printed time; `FormatTimeShape`, `MeridianHourIs24Hour`, `TwoPm` and `TwelveAm` state it |
| `Dates.MeridianHourIs24Hour` | index.js:931-946 | with am/pm the hour printed is the 24-hour hour, and the typed suffix is kept |
| `Dates.TwoPmMatch` | index.js:918 | "2pm" matches the am/pm pattern with hour 2, no minutes and `pm` |
| `Dates.TwoPm` | index.js:932-947 | "2pm" is printed as "14:00pm" |
| `Dates.TwelveAmMatch` | index.js:918 | "12am" matches the am/pm pattern with hour 12 and `am` |
| `Dates.TwelveAm` | index.js:933-947 | "12am" is printed as "0:00am" |
| `Dates.RemoveSpaces` | index.js:1604 | no whitespace remains |
| `Dates.RemoveSpacesSplits` | index.js:1604 | the removal distributes over concatenation, so it works character by character and keeps what it keeps in order |
| `Dates.RemoveSpacesOne` | index.js:1604 | a single character is dropped exactly when it is whitespace |
| `Dates.NoonPasses` | index.js:1618-1645 | "noon" parses to no hour (`NaN`) and so passes the business-hours check |
| `Dates.ParseTimeString` | index.js:1602-1630 | defines `parseTimeString`; `ParsePrinted` and `ExtractedTimeReadsBack` state it |
| `Dates.ValidateTime` | index.js:1633-1651 | defines `validateTime`, where a `NaN` fails neither comparison; `NoonPasses` states that case |
| `Dates.SplitAtOnlyColon` | index.js:1613 | splitting at the only colon gives the two sides |
| `Dates.IndexOfCharAfter` | index.js:1613 | the first colon is the one after a colon-free prefix |
| `Dates.RemoveSpacesIdentity` | index.js:1604 | text without whitespace is left unchanged |
| `Dates.PaddedValue` | index.js:945 | a padded minute reads back as its value |
| `Dates.PrintedIsNormal` | index.js:1604 | a printed time is already lower-case and has no spaces |
| `Dates.ContainsEnd` | index.js:1623-1625 | a text contains its own suffix |
| `Dates.ParsePrinted` | index.js:1602-1630 | parsing `hh:mm` plus a suffix gives the 24-hour value of the hour and the minute value |
| `Dates.ReadClockOf` | index.js:1611-1627 | a text with a colon reads as the adjusted hour and the minute |
| `Dates.AdjustedBySuffix` | index.js:1622-1627 | the suffix found in the text drives the am/pm adjustment |
| `Dates.ExtractedTimeReadsBack` | index.js:943-947 | parsing a printed time with `parseTimeString` (index.js:1602-1630) gives back the hour and minutes printed |
| `Dates.PeriodOnlyAtEnd` | index.js:1623-1625 | a printed time contains only its own suffix |
| `Classify.GreetingThenAnything` | index.js:580-584 | a greeting phrase followed by a space and anything is a greeting |
| `Classify.IsGreeting` | index.js:580-584 | defines `isGreeting`; `GreetingThenAnything` states it |
| `Classify.ConfirmationIsContainment` | index.js:956-971 | a message confirms exactly when its trimmed lower-cased text contains some listed phrase |
| `Classify.IsConfirmation` | index.js:956-971 | defines `isConfirmation`; `ConfirmationIsContainment`, `BookConfirms` and `ShortNeverConfirms` state it |
| `Classify.BookConfirms` | index.js:958-968 | any message containing "book" confirms, since "book" contains "ok" |
| `Classify.ShortNeverConfirms` | index.js:956-971 | a message shorter than two characters after trimming never confirms |
| `Classify.HandleCommand` | index.js:1173-1201 | there is a command reply exactly for a command; it is the cancel reply exactly for reset/cancel and the menu exactly for menu/services |
| `Classify.IsCommand` | index.js:1166-1170 | defines `isCommand`; `HandleCommand` and `CommandIgnoresCaseAndSpace` state it |
| `Classify.CommandIgnoresCaseAndSpace` | index.js:1166-1170 | a command in any letter case, with any whitespace before and after it, is a command |
| `Classify.ServiceInfo` | index.js:1032-1037 | service information exists exactly when the named service is a catalogue entry, and it is that entry |
| `Classify.GeneralQuestion` | index.js:990-1123 | the answer's topic is one whose keywords the lower-cased message contains; a price or duration answer carries the catalogue entry of the service the message names (or none), and every other answer names no service |
| `Classify.FirstTopicAnswers` | index.js:990-1123 | the topic answered is the first, in the source's order, whose keywords the message has; no answer when no topic applies |
| `Classify.AvailabilityNeedsWhenOrAvailable` | index.js:1023-1083 | an availability answer needs "when" or "available" in the message (the "what time" case is taken by the hours topic) |
| `Classify.PaymentTest` | index.js:1086 | "payment" adds nothing beyond "pay" |
| `Classify.AmbiguousIsNoService` | index.js:681 | the ambiguous-facial marker is not a catalogue name |
| `Classify.AmbiguousFacialGetsList` | index.js:1031-1072 | an ambiguous facial request gets the general list, not one service |
| `Classify.SmallTalk` | index.js:1126-1163 | any reply chosen is within its pool |
| `Classify.ThanksWhen` | index.js:1130-1138 | the thanks reply fires exactly when the message has "thank" or "thx" |
| `Classify.FarewellWhen` | index.js:1130-1149 | the farewell reply fires exactly when there is no thanks and the message has "bye", "see you" or "cya" |
| `Draft.GetMissingFields` | index.js:974-982 | the pushes compute `MissingFields` |
| `Draft.MissingFields` | index.js:974-982 | defines the missing list; `MissingFieldsExact` states it |
| `Draft.UnfilledRequired` | index.js:974-982 | the missing fields are, in order, each of name, services, date, time, address that is empty |
| `Draft.UnfilledSpec` | index.js:974-982 | a field is listed exactly when it is among those checked and empty, and the order is kept |
| `Draft.MissingFieldsExact` | index.js:974-982 | a field is missing exactly when it is empty and not the phone, in the fixed order |
| `Draft.CompleteMeansAtMostServicesMissing` | index.js:985-987 | "complete" holds exactly when nothing or only the services are missing, since `[]` is truthy |
| `Draft.IsBookingComplete` | index.js:985-987 | defines `isBookingComplete`; `CompleteMeansAtMostServicesMissing` states it |
| `Draft.PiecesHaveNoComma` | index.js:491 | the pieces of a split at a comma or " and " contain no comma |
| `Draft.ClausesHaveNoComma` | index.js:491 | no clause contains a comma |
| `Draft.PiecesWithoutSeparator` | index.js:491 | with no separator left, the rest is one piece |
| `Draft.OneClauseWithoutSeparator` | index.js:491 | text without a separator is one clause |
| `Draft.GatherSpec` | index.js:706-711 | the gathered services keep the earlier ones, have no repeats, each new one is a service some part names, and every service a part names is gathered |
| `Draft.GatherComplete` | index.js:706-711 | every service a part names ends up in the gathered list |
| `Draft.GatherServices` | index.js:703-718 | the loop over the parts computes `Gather` |
| `Draft.ExtractAndUpdateDetails` | index.js:698-764 | the six guarded assignments on the copy compute `Merged` |
| `Draft.Merged` | index.js:698-764 | defines the draft after one pass; `MergeNeverOverwrites`, `MergeFillsInOrder`, `MergeSources` and `MergeServices` state it |
| `Draft.UpdateServices` | index.js:703-718 | services are gathered only when there were none |
| `Draft.UpdateName` | index.js:721-726 | the name step |
| `Draft.UpdateDate` | index.js:729-734 | the date step |
| `Draft.UpdateTime` | index.js:737-742 | the time step |
| `Draft.UpdateAddress` | index.js:745-753 | the address step, skipped for a bare time |
| `Draft.UpdatePhone` | index.js:756-761 | the phone step |
| `Draft.InOrderByPredecessor` | index.js:721-761 | a field newly filled has its predecessor in services→name→date→time→address→phone filled |
| `Draft.StepsKeepAndOrder` | index.js:698-764 | the steps never overwrite a filled field, fill in order, and change the services only when there were none |
| `Draft.MergeNeverOverwrites` | index.js:698-764 | a merge never overwrites a non-empty field |
| `Draft.MergeFillsInOrder` | index.js:698-764 | a field is written only when its predecessor is filled at that point of the pass |
| `Draft.StepsSources` | index.js:703-761 | every changed field holds what its extractor returned |
| `Draft.MergeSources` | index.js:720-761 | a changed name, date, time, address or phone is what the extractor found in the message |
| `Draft.MergeServices` | index.js:703-718 | existing services are kept; a draft without services gets services without repeats, each one `extractService` can name, and every service a clause of the message names |
| `Draft.BareTimeKeepsAddress` | index.js:747 | a message that is a bare time never sets the address |
| `Draft.OneMessageCascades` | index.js:721-742 | one message can fill name, date and time in the same pass |
| `Prompts.MenuLines` | index.js:617 | one bullet line per catalogue entry, in order |
| `Prompts.PoolNonEmpty` | index.js:610-636 | every field has at least one phrasing |
| `Prompts.WithoutName` | index.js:604 | the name is dropped and every other field kept |
| `Prompts.WithoutNameSplits` | index.js:604 | the filter distributes over concatenation, so the fields it keeps stay in their order |
| `Prompts.WithoutNameOne` | index.js:604 | a single field is dropped exactly when it is the name |
| `Prompts.NextPrompt` | index.js:597-641 | a prompt exactly when some field is still to ask; it is a phrasing of the first such field |
| `Prompts.EveryPhrasingReachable` | index.js:638-640 | every phrasing of the pool can be chosen |
| `Prompts.PromptForFirstMissing` | index.js:597-641 | for the fields reported missing, a prompt exists exactly when one is missing, chosen from the first one's pool |
| `Prompts.NamedDraftNotAskedName` | index.js:603-608 | a draft with a name is never asked for one |
| `Finalise.ValidateBooking` | index.js:197-226 | the checks push exactly `Problems`, in order |
| `Finalise.Problems` | index.js:197-226 | defines the list of errors; `ProblemsAreMissingFields` states it |
| `Finalise.ProblemsFor` | index.js:200-218 | one problem per missing field |
| `Finalise.ProblemsAreMissingFields` | index.js:197-226 | the errors are the missing fields' messages in the same order, plus the phone error only for a present, invalid phone |
| `Finalise.ProblemsForOne` | index.js:200-218 | the problem of one field |
| `Finalise.ProblemsForFive` | index.js:200-218 | the problems of the five checks concatenate |
| `Finalise.ProblemsForAppend` | index.js:200-218 | the problems of a concatenation concatenate |
| `Finalise.NoPhoneValidIffNothingMissing` | index.js:197-226 | without a phone, a draft is valid exactly when nothing is missing |
| `Finalise.DoubleZeroPhoneBlocksBooking` | index.js:221-223 | a `00353…` phone is stored as `+3530353…`, fails validation, and no later message replaces it |
| `Finalise.ClockAt` | index.js:263 | a time match has a 1–2 digit hour, an am/pm suffix and an optional 2-digit minute |
| `Finalise.FirstClock` | index.js:263 | a match found has one or two hour digits, two minute digits if any and an am/pm suffix |
| `Finalise.FirstClockIsFirst` | index.js:263 | the match returned is the one at the leftmost position where the pattern matches; none only when no position matches |
| `Finalise.Pad2Digits` | index.js:265 | padding keeps two digits |
| `Finalise.ClockOfPrinted` | index.js:263-265 | a re-formatted time matches as its own parts |
| `Finalise.ClockAtPrinted` | index.js:263 | a 7-character `hh:mmxm` time matches at its start |
| `Finalise.BookingTimeIdempotent` | index.js:263-266 | re-formatting a time a second time changes nothing |
| `Finalise.BookingTime` | index.js:263-266 | defines the re-formatting; `BookingTimeIdempotent` and `ClockOfPrinted` state it |
| `Finalise.ProcessBooking` | index.js:237-336 | rejected exactly when validation finds errors, and then with those errors |
| `Finalise.ProcessedSummary` | index.js:248-328 | a valid saved draft is summarised unchanged, with total = services total + 5, the re-formatted time, and a final summary exactly when the message confirms |
| `Finalise.SaveFailureReported` | index.js:278-334 | a failed save is reported as a failure |
| `Finalise.EyebrowAndFullFaceCost` | index.js:248-251 | Eyebrow plus Full Face Threading costs 40 with travel |
| `Controller.Mentions` | index.js:492-493 | one service lookup per part |
| `Controller.MentionsSnoc` | index.js:492-493 | the lookups of a longer prefix extend by one |
| `Controller.CollectSnoc` | index.js:494-495 | collecting one more lookup pushes it when new |
| `Controller.MentionsAt` | index.js:493 | the lookup at i is the service mentioned in part i |
| `Controller.CollectServices` | index.js:486-503 | the loop over the parts computes `Collect` |
| `Controller.ProcessMessage` | index.js:481-577 | the step computes `Respond`: services first, then greeting, command, finalising, prompt |
| `Controller.Respond` | index.js:481-577 | defines one `processMessage` step; `RespondKeepsFilledFields` and `MergeReachedAddsNoServices` state it |
| `Controller.Decide` | index.js:489-577 | defines the branch order of `processMessage` over the services found, the greeting test and the merged draft; `DecideReply` and `DecideKeeps` state it |
| `Controller.CollectAppend` | index.js:492-497 | collecting distributes over concatenation, since only the draft is checked |
| `Controller.CollectSpec` | index.js:494-495 | each service collected is non-empty, not already in the draft, and was found |
| `Controller.CollectCountsEveryFind` | index.js:492-497 | a new service mentioned k times in one message is added k times (de-duplication is only against the draft) |
| `Controller.NothingCollectedNothingGathered` | index.js:489-503 | when `processMessage` adds no service, the merge finds none either |
| `Controller.CollectedFromParts` | index.js:492-495 | each service added is a nameable one not in the draft, and some part names it |
| `Controller.DecideReply` | index.js:505-569 | the reply kind of each branch in order |
| `Controller.ServicesAppended` | index.js:505-515 | found services are appended to the draft and acknowledged; each was named and not already booked |
| `Controller.MergeReachedAddsNoServices` | index.js:489-543 | when the merge is reached the services are unchanged, so the in-place push is unobservable |
| `Controller.GreetingLeavesDraft` | index.js:517-540 | a plain greeting keeps the draft: the menu when it has no services, otherwise a greeting from the pool |
| `Controller.CommandKeepsDraft` | index.js:545-551 | a command reply keeps the draft, and "reset"/"cancel" get the cancel reply without clearing it |
| `Controller.MergedThenProcessedOrPrompted` | index.js:542-569 | otherwise the merged draft is finalised when complete and prompted for its first missing field when not |
| `Controller.RespondKeepsFilledFields` | index.js:481-577 | no step empties or overwrites a filled field, and the services only grow |
| `Controller.DecideKeeps` | index.js:505-569 | every branch keeps the filled fields |
| `Controller.ChatDecideFinalises` | index.js:1346-1358 | `/chat` finalises only a complete draft with a confirming message, and never writes the draft then |
| `Controller.Chat` | index.js:1301-1509 | defines one `/chat` request on a loaded draft; `FreshNotFinalised` states it |
| `Controller.ChatDecide` | index.js:1306-1500 | defines the `/chat` branch order: question, small talk, reset, confirmation, greeting, menu words, then the merged draft; `ChatDecideFinalises` states it |
| `Controller.AskFor` | index.js:1473-1496 | the question asks about the first missing field with that field's fixed first phrasing (the services question comes from `getNextPrompt`, whose pool has one entry) |
| `Controller.Save` | index.js:171-182 | saving writes or deletes only the key given |
| `Controller.ChatAsWritten` | index.js:1329-1415 | as written, a `/chat` step never adds or changes a stored draft, and the draft it reads (under "undefined") never changes |
| `Controller.FreshNotFinalised` | index.js:1338-1358 | a fresh draft is never finalised |
| `Controller.AsWrittenNeverFinalises` | index.js:1301-1509 | as written, no conversation in `/chat` ever finalises a booking |
| `Controller.NoUndefinedFile` | index.js:1338-1415 | as written, the state file read never comes to exist |
| `Controller.AsWrittenStep` | index.js:1301-1509 | as written, a step does not finalise and does not create the state file read |
| `Controller.ChatStepKeepsDraft` | index.js:1377-1415 | keyed by the user, a written draft is loaded back on the next step, and other users' drafts are untouched |
| `Controller.ChatStep` | index.js:1301-1509 | keyed by the user, a step changes no other user's draft and adds no other key |
| `Controller.ChatStepFinalises` | index.js:1346-1352 | keyed by the user, a valid stored draft with a confirmation is confirmed and its state cleared |

## Left out

- **HTTP and other I/O.** The Express routes and middleware, the health,
  status, ready, confirm and WhatsApp endpoints, Twilio signature checks,
  WhatsApp sending, Google Calendar, file storage (beyond the abstract
  store of `/chat`), logging and server start-up are I/O. Their outcomes
  are parameters: `saved` for `savePendingBooking`, `roll` for
  `Math.random`, `today` for `new Date()`.
- **Dates.** Date printing (`toLocaleDateString`) and JavaScript's
  roll-over of out-of-range days in `setDate`/`setMonth` are locale- and
  calendar-dependent. The model keeps the year, month index and day that
  are set.
- **Text.** Case mapping is ASCII-only, because Dafny has no Unicode case
  tables. Reply texts other than the prompt pools are modelled as reply
  kinds; only their choice is stated.
- **try/catch.** The catch branches of `processMessage`, `/chat` and
  `validateTime` are left out, except a failed save in `processBooking`
  (the `saved` parameter). They fire only on I/O errors the model has
  none of.
- **The default prompt.** `getNextPrompt`'s default prompt
  (index.js:639) is unreachable, because every missing field has a
  pool.
- **Dead or unused code.** The first `extractName` (index.js:767-791) is
  dead code: the later declaration overrides it. `createSystemInstructionText`,
  `normalizeHistory` and `getRandomGreeting`'s texts are unused templating
  (the greeting is a `roll` within the pool size).
- **Aliasing of the services array.** `processMessage`'s in-place push into
  `booking.services` is shared with the copy made by
  `extractAndUpdateDetails`. The model is on values, and
  `Controller.MergeReachedAddsNoServices` shows that the merge is reached
  only when nothing was pushed. The JSON comparison at index.js:546 is
  therefore value equality.
- **Catalogue.ServicesDuration.** It has no lemma beyond its definition.
  The calendar code that uses it is not part of this model.
- **Classify.GeneralQuestion.** Its canned answers are not modelled. Only
  the topic chosen and the service named are stated.
- KeepWordAndSpace: its own contract names only the characters that
  remain. That the others are kept, in order, is
  `Extract.KeepWordAndSpaceSplits` with `Extract.KeepWordAndSpaceOne`.
- KeepPhoneChars: its own contract names only the characters that remain.
  That digits and `+` are kept, in order, is `Extract.KeepPhoneCharsSplits` with `Extract.KeepPhoneCharsOne`.
- DropSpacesAndHyphens: its own contract names only the characters that
  are gone. That the others are kept, in order, is
  `Extract.DropSpacesAndHyphensSplits` with `Extract.DropSpacesAndHyphensOne`.
- RemoveSpaces: its own contract names only the characters that are gone.
  That the others are kept, in order, is `Dates.RemoveSpacesSplits` with `Dates.RemoveSpacesOne`.
- WithoutName: its own contract states membership only. That the order
  is kept is `Prompts.WithoutNameSplits` with `Prompts.WithoutNameOne`.
- Extract.StripIntro: its contract states only that the text does not
  grow. What remains is fixed by its definition and used through
  `Extract.CleanNameShape`.
- Extract.DropServiceWords: its contract states what survives, not that
  every non-service word survives.
- Extract.FirstName: its contract does not say the name found is the first.
  `Extract.CatalogueFallbackUnreachable` shows that the fallback never decides.
- FirstClock: its own contract states the shape of the match. That the
  match is the leftmost one is `Finalise.FirstClockIsFirst`.

## Findings

| source | as written | input that shows it | evidently intended | confidence | as-written member | corrected member |
|---|---|---|---|---|---|---|
| index.js:1329-1415 | `getBookingState()` and `saveBookingState(x)` are called without the user key, although both take `(userPhone, …)` (index.js:157, 171). Reads go to `undefined.json`, clearing deletes `null.json`, and a write of the draft deletes `[object Object].json`, since the draft lands in the key position | any conversation, e.g. "hi", then "Eyebrow threading", then the details, then "yes": every turn starts from a fresh draft | the draft is stored and loaded under the user's key | high, not executed | `Controller.AsWrittenNeverFinalises` | `Controller.ChatStepFinalises` |
