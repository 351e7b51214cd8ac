/**
 * The field extractors that read one draft field out of a free-text message:
 * the requested service, the customer's name, the address and the Irish
 * mobile number. (The date and time extractor is in module Dates.)
 */
module Extract {
  import opened Optional
  import opened Text
  import Catalogue

  // ---------------------------------------------------------------------
  // extractService (index.js:644-695)

  /** The marker returned when only the word "facial" is recognised. */
  const Ambiguous: string := "AMBIGUOUS_FACIAL"

  /** Booking-intent phrases, each removed once before matching. */
  const BookingPhrases: seq<string> := ["book", "want", "like", "need", "looking for", "interested in"]

  /** One row of the alias table: a key to look for and the service it selects (`None` for the ambiguous "facial"). */
  datatype Alias = Alias(key: string, target: Option<string>)

  /** The alias table, in the order its entries are tried. */
  const ServiceMap: seq<Alias> := [
    Alias("eyebrow", Some("Eyebrow Threading")),
    Alias("eyebrows", Some("Eyebrow Threading")),
    Alias("threading eyebrow", Some("Eyebrow Threading")),
    Alias("face", Some("Full Face Threading")),
    Alias("full face", Some("Full Face Threading")),
    Alias("facial basic", Some("Facial (Basic)")),
    Alias("basic facial", Some("Facial (Basic)")),
    Alias("facial luxury", Some("Facial (Luxury)")),
    Alias("luxury facial", Some("Facial (Luxury)")),
    Alias("facial", None),
    Alias("waxing", Some("Full Body Waxing")),
    Alias("full body", Some("Full Body Waxing")),
    Alias("full body waxing", Some("Full Body Waxing")),
    Alias("henna", Some("Henna Design")),
    Alias("henna design", Some("Henna Design"))
  ]

  /** What an alias row makes `extractService` return. */
  function AliasResult(a: Alias): string {
    a.target.GetOr(Ambiguous)
  }

  /** The text after the first `k` booking phrases have each had their first occurrence removed. */
  function RemovePhrases(s: string, k: nat): string
    requires k <= |BookingPhrases|
  {
    if k == 0 then s else ReplaceFirst(RemovePhrases(s, k - 1), BookingPhrases[k - 1], "")
  }

  /** The text that is matched against the tables. */
  function MatchText(m: string): string {
    Trim(RemovePhrases(Normalize(m), |BookingPhrases|))
  }

  /** The first alias row at or after `j` whose key `t` contains. */
  function FirstAlias(t: string, j: nat): (r: Option<nat>)
    requires j <= |ServiceMap|
    ensures r.Some? ==> j <= r.value < |ServiceMap| && Contains(t, ServiceMap[r.value].key)
    ensures r.Some? ==> forall i :: j <= i < r.value ==> !Contains(t, ServiceMap[i].key)
    ensures r.None? ==> forall i :: j <= i < |ServiceMap| ==> !Contains(t, ServiceMap[i].key)
    decreases |ServiceMap| - j
  {
    if j == |ServiceMap| then None
    else if Contains(t, ServiceMap[j].key) then Some(j)
    else FirstAlias(t, j + 1)
  }

  /** A catalogue name in lower case. */
  function LowerName(k: nat): string
    requires k < |Catalogue.Services|
  {
    Lower(Catalogue.Services[k].name)
  }

  /** The first catalogue entry at or after `k` whose lower-cased name `t` contains. */
  function FirstName(t: string, k: nat): (r: Option<nat>)
    requires k <= |Catalogue.Services|
    ensures r.Some? ==> k <= r.value < |Catalogue.Services| && Contains(t, LowerName(r.value))
    ensures r.None? ==> forall i :: k <= i < |Catalogue.Services| ==> !Contains(t, LowerName(i))
    decreases |Catalogue.Services| - k
  {
    if k == |Catalogue.Services| then None
    else if Contains(t, LowerName(k)) then Some(k)
    else FirstName(t, k + 1)
  }

  /** The service a message asks for, as `extractService` decides it. */
  function ServiceMentioned(m: string): Option<string> {
    var t := MatchText(m);
    match FirstAlias(t, 0)
    case Some(j) => Some(AliasResult(ServiceMap[j]))
    case None =>
      match FirstName(t, 0)
      case Some(k) => Some(Catalogue.Services[k].name)
      case None => None
  }

  /**
   * `extractService`: removes the booking phrases one after another, then
   * tries the alias table and then the catalogue names.
   */
  method ExtractService(message: string) returns (r: Option<string>)
    ensures r == ServiceMentioned(message)
  {
    var messageToCheck := Normalize(message);
    var k := 0;
    while k < |BookingPhrases|
      invariant k <= |BookingPhrases|
      invariant messageToCheck == RemovePhrases(Normalize(message), k)
    {
      messageToCheck := ReplaceFirst(messageToCheck, BookingPhrases[k], "");
      k := k + 1;
    }
    messageToCheck := Trim(messageToCheck);
    var j := 0;
    while j < |ServiceMap|
      invariant j <= |ServiceMap|
      invariant FirstAlias(messageToCheck, 0) == FirstAlias(messageToCheck, j)
    {
      if Contains(messageToCheck, ServiceMap[j].key) {
        return Some(AliasResult(ServiceMap[j]));
      }
      j := j + 1;
    }
    var n := 0;
    while n < |Catalogue.Services|
      invariant n <= |Catalogue.Services|
      invariant FirstName(messageToCheck, 0) == FirstName(messageToCheck, n)
    {
      if Contains(messageToCheck, Lower(Catalogue.Services[n].name)) {
        return Some(Catalogue.Services[n].name);
      }
      n := n + 1;
    }
    return None;
  }

  /** Every lower-cased catalogue name contains some alias key. */
  lemma NameContainsKey(k: nat)
    requires k < |Catalogue.Services|
    ensures exists j :: 0 <= j < |ServiceMap| && Contains(LowerName(k), ServiceMap[j].key)
  {
    var j := [0, 3, 9, 9, 10, 13][k];
    var at := [0, 5, 0, 0, 10, 0][k];
    KeyInName(k, j, at);
    LowerOccursAt(Catalogue.Services[k].name, ServiceMap[j].key, at);
    ContainsAt(LowerName(k), ServiceMap[j].key, at);
  }

  /** Where the alias key of each catalogue name sits in it, up to letter case. */
  predicate KeyInNameAt(k: nat, j: nat, at: nat)
    requires k < |Catalogue.Services| && j < |ServiceMap|
  {
    var name := Catalogue.Services[k].name;
    var key := ServiceMap[j].key;
    at + |key| <= |name| && forall c :: 0 <= c < |key| ==> LowerChar(name[at + c]) == key[c]
  }

  lemma KeyInName(k: nat, j: nat, at: nat)
    requires k < |Catalogue.Services| && j == [0, 3, 9, 9, 10, 13][k] && at == [0, 5, 0, 0, 10, 0][k]
    ensures KeyInNameAt(k, j, at)
  {
    if k < 3 {
      KeyInNameLow(k, j, at);
    } else {
      KeyInNameHigh(k, j, at);
    }
  }

  lemma KeyInNameLow(k: nat, j: nat, at: nat)
    requires k < 3 && j == [0, 3, 9][k] && at == [0, 5, 0][k]
    ensures KeyInNameAt(k, j, at)
  {
    if k == 0 {} else if k == 1 {} else {}
  }

  lemma KeyInNameHigh(k: nat, j: nat, at: nat)
    requires 3 <= k < 6 && j == [9, 10, 13][k - 3] && at == [0, 10, 0][k - 3]
    ensures KeyInNameAt(k, j, at)
  {
    if k == 3 {} else if k == 4 {} else {}
  }

  /** The fall-back to catalogue names never decides: any name found there contains an alias key found first. */
  lemma CatalogueFallbackUnreachable(t: string)
    requires FirstAlias(t, 0).None?
    ensures FirstName(t, 0).None?
  {
    if FirstName(t, 0).Some? {
      var k := FirstName(t, 0).value;
      NameContainsKey(k);
      var j :| 0 <= j < |ServiceMap| && Contains(LowerName(k), ServiceMap[j].key);
      ContainsTransitive(t, LowerName(k), ServiceMap[j].key);
      assert false;
    }
  }

  /** `extractService` yields nothing, the ambiguous-facial marker, or a catalogue display name. */
  lemma ServiceMentionedRange(m: string)
    ensures ServiceMentioned(m).Some? ==>
      ServiceMentioned(m).value == Ambiguous || Catalogue.IsServiceName(ServiceMentioned(m).value)
  {
    var t := MatchText(m);
    match FirstAlias(t, 0)
    case Some(j) =>
      AliasTargetsInCatalogue(j);
    case None =>
      CatalogueFallbackUnreachable(t);
  }

  /** Every alias row selects a catalogue display name or the ambiguous facial. */
  lemma AliasTargetsInCatalogue(j: nat)
    requires j < |ServiceMap|
    ensures AliasResult(ServiceMap[j]) == Ambiguous || Catalogue.IsServiceName(AliasResult(ServiceMap[j]))
  {
    if ServiceMap[j].target.Some? {
      var k := [0, 0, 0, 1, 1, 2, 2, 3, 3, 0, 4, 4, 4, 5, 5][j];
      assert AliasResult(ServiceMap[j]) == Catalogue.Services[k].name;
      assert Catalogue.Names()[k] == Catalogue.Services[k].name;
    }
  }

  /** The first alias key contained in the cleaned text decides, whatever later keys it contains. */
  lemma FirstAliasDecides(m: string, j: nat)
    requires j < |ServiceMap| && Contains(MatchText(m), ServiceMap[j].key)
    requires forall i :: 0 <= i < j ==> !Contains(MatchText(m), ServiceMap[i].key)
    ensures ServiceMentioned(m) == Some(AliasResult(ServiceMap[j]))
  {
    var t := MatchText(m);
    var f := FirstAlias(t, 0);
    assert f.Some?;
    assert f.value == j;
  }

  /** A message that contains no alias key once cleaned names no service. */
  lemma NoKeyNoService(m: string)
    requires forall i :: 0 <= i < |ServiceMap| ==> !Contains(MatchText(m), ServiceMap[i].key)
    ensures ServiceMentioned(m).None?
  {
    CatalogueFallbackUnreachable(MatchText(m));
  }

  // ---------------------------------------------------------------------
  // cleanName and extractName (index.js:1512-1534)

  /** The introductory words `cleanName` deletes, in the order its pattern tries them. */
  const IntroWords: seq<string> := ["my name is", "i am", "i'm", "this is", "name", "hi", "hello", "hey"]

  /** `w` matches case-insensitively at `i` as a whole word (`\b...\b`). */
  predicate IntroAt(s: string, w: string, i: nat) {
    i + |w| <= |s| && Lower(s[i..i + |w|]) == w && Boundary(s, i) && Boundary(s, i + |w|)
  }

  /** The first alternative at or after `k` that matches at `i`. */
  function FirstIntro(s: string, i: nat, k: nat): (r: Option<nat>)
    requires k <= |IntroWords|
    ensures r.Some? ==> k <= r.value < |IntroWords| && IntroAt(s, IntroWords[r.value], i)
    ensures r.None? ==> forall j :: k <= j < |IntroWords| ==> !IntroAt(s, IntroWords[j], i)
    decreases |IntroWords| - k
  {
    if k == |IntroWords| then None
    else if IntroAt(s, IntroWords[k], i) then Some(k)
    else FirstIntro(s, i, k + 1)
  }

  /**
   * The global replacement of the introductory words by nothing, scanning
   * from index `i`: at each position the alternatives are tried in order,
   * and after a match the scan resumes at its end.
   */
  function StripIntro(s: string, i: nat): (r: string)
    ensures |r| <= |s| - i || i > |s|
    decreases |s| - i
  {
    if i >= |s| then ""
    else
      match FirstIntro(s, i, 0)
      case Some(k) => StripIntro(s, i + |IntroWords[k]|)
      case None => [s[i]] + StripIntro(s, i + 1)
  }

  /** `.replace(/[^\w\s]/g, '')`. */
  function KeepWordAndSpace(s: string): (r: string)
    ensures forall i :: 0 <= i < |r| ==> IsWordChar(r[i]) || IsSpace(r[i])
  {
    if s == [] then ""
    else (if IsWordChar(s[0]) || IsSpace(s[0]) then [s[0]] else "") + KeepWordAndSpace(s[1..])
  }

  /**
   * The removal works character by character: every word character and
   * whitespace character is kept, every other one dropped, in order.
   */
  lemma {:induction false} KeepWordAndSpaceSplits(a: string, b: string)
    ensures KeepWordAndSpace(a + b) == KeepWordAndSpace(a) + KeepWordAndSpace(b)
    decreases |a|
  {
    if a == [] {
      assert a + b == b;
    } else {
      assert (a + b)[1..] == a[1..] + b;
      KeepWordAndSpaceSplits(a[1..], b);
    }
  }

  lemma KeepWordAndSpaceOne(c: char)
    ensures KeepWordAndSpace([c]) == if IsWordChar(c) || IsSpace(c) then [c] else []
  {
    assert [c][1..] == [];
  }

  /** A word is dropped from a name when it and some lower-cased catalogue name contain one another. */
  predicate ServiceWord(w: string) {
    exists k :: 0 <= k < |Catalogue.Services| &&
      (Contains(LowerName(k), Lower(w)) || Contains(Lower(w), LowerName(k)))
  }

  /** `.filter(...)`: the words that are not service words. */
  function DropServiceWords(ws: seq<string>): (r: seq<string>)
    ensures forall j :: 0 <= j < |r| ==> !ServiceWord(r[j]) && r[j] in ws
  {
    if ws == [] then []
    else (if ServiceWord(ws[0]) then [] else [ws[0]]) + DropServiceWords(ws[1..])
  }

  /** The capitalised words `cleanName` keeps, before they are joined. */
  function NameWords(s: string): seq<string> {
    CapitalizeAll(DropServiceWords(SplitOn(KeepWordAndSpace(StripIntro(s, 0)), ' ')))
  }

  /** `cleanName`. */
  function CleanName(s: string): string {
    Trim(Join(NameWords(s), " "))
  }

  /** `extractName` (the declaration at index.js:1531, which overrides the one at 767). */
  function ExtractName(message: string): (r: Option<string>)
    ensures r.None? <==> JsLength(message) > 40
    ensures r.Some? ==> r.value == CleanName(message) && |message| <= 40
  {
    if JsLength(message) > 40 then None else Some(CleanName(message))
  }

  /** The empty word is a service word (every name contains it), so no kept word is empty. */
  lemma EmptyIsServiceWord()
    ensures ServiceWord("")
  {
    assert StartsWith(LowerName(0), Lower(""));
  }

  /** A cleaned name holds only word characters and white space. */
  predicate NameChars(s: string) {
    forall i :: 0 <= i < |s| ==> IsWordChar(s[i]) || IsSpace(s[i])
  }

  lemma {:induction false} JoinNameChars(ws: seq<string>)
    requires forall j :: 0 <= j < |ws| ==> NameChars(ws[j])
    ensures NameChars(Join(ws, " "))
    decreases |ws|
  {
    if |ws| > 1 {
      JoinNameChars(ws[1..]);
      var rest := Join(ws[1..], " ");
      assert Join(ws, " ") == ws[0] + " " + rest;
      assert NameChars(ws[0]);
    }
  }

  lemma {:induction false} TrimKeepsChars(s: string)
    requires NameChars(s)
    ensures NameChars(Trim(s))
  {
    var a := TrimStart(s);
    TrimStartShape(s);
    assert NameChars(a);
    TrimEndShape(a);
  }

  /**
   * What `cleanName` keeps: only word characters and white space, as the
   * join of capitalised words none of which is empty or a service word.
   */
  lemma CleanNameShape(s: string)
    ensures NameChars(CleanName(s))
    ensures forall j :: 0 <= j < |NameWords(s)| ==> NameWords(s)[j] != "" && !ServiceWord(NameWords(s)[j])
  {
    var pieces := SplitOn(KeepWordAndSpace(StripIntro(s, 0)), ' ');
    var kept := DropServiceWords(pieces);
    var ws := NameWords(s);
    EmptyIsServiceWord();
    forall j | 0 <= j < |ws|
      ensures ws[j] != "" && !ServiceWord(ws[j]) && NameChars(ws[j])
    {
      CapitalizeKeepsService(kept[j]);
      PieceChars(KeepWordAndSpace(StripIntro(s, 0)), kept[j]);
      CapitalizeKeepsChars(kept[j]);
    }
    JoinNameChars(ws);
    TrimKeepsChars(Join(ws, " "));
  }

  lemma CapitalizeKeepsService(w: string)
    ensures ServiceWord(Capitalize(w)) <==> ServiceWord(w)
  {
  }

  lemma CapitalizeKeepsChars(w: string)
    requires NameChars(w)
    ensures NameChars(Capitalize(w))
  {
    if w != [] {
      var r := Capitalize(w);
      assert r == [UpperChar(w[0])] + Lower(w[1..]);
      forall i | 0 <= i < |r|
        ensures IsWordChar(r[i]) || IsSpace(r[i])
      {
        if i > 0 {
          assert r[i] == LowerChar(w[i]);
        }
      }
    }
  }

  /** Every piece of a split of a text made of name characters is made of name characters. */
  lemma PieceChars(s: string, w: string)
    requires NameChars(s) && w in SplitOn(s, ' ')
    ensures NameChars(w)
    decreases |s|
  {
    if ' ' in s {
      var i := IndexOfChar(s, ' ');
      if w != s[..i] {
        PieceChars(s[i + 1..], w);
      }
    }
  }

  /** A text with no introductory word anywhere passes the first step of `cleanName` unchanged. */
  lemma {:induction false} StripIntroNoMatch(s: string, i: nat)
    requires i <= |s|
    requires forall p, k :: i <= p < |s| && 0 <= k < |IntroWords| ==> !IntroAt(s, IntroWords[k], p)
    ensures StripIntro(s, i) == s[i..]
    decreases |s| - i
  {
    if i < |s| {
      assert FirstIntro(s, i, 0).None?;
      StripIntroNoMatch(s, i + 1);
      assert s[i..] == [s[i]] + s[i + 1..];
    }
  }

  /** The name "Al" is dropped entirely, because "facial (basic)" contains "al". */
  lemma ShortNameInsideServiceDropped(s: string)
    requires s == "Al"
    ensures ServiceWord(s)
  {
    assert Lower(s) == "al";
    assert LowerName(2) == "facial (basic)";
    assert OccursAt(LowerName(2), Lower(s), 4);
    ContainsAt(LowerName(2), Lower(s), 4);
  }

  // ---------------------------------------------------------------------
  // extractAddress (index.js:794-810)

  /** Words that, at the very start of a message, rule out an address (no word boundary is required). */
  const AddressStopWords: seq<string> := ["yes", "no", "ok", "sure", "cancel", "book", "what", "how", "when"]

  predicate StartsWithStopWord(m: string) {
    exists k :: 0 <= k < |AddressStopWords| && StartsWith(Lower(m), AddressStopWords[k])
  }

  /** `m` consists of `am` or `pm` in any letter case. */
  predicate IsMeridian(m: string) {
    Lower(m) == "am" || Lower(m) == "pm"
  }

  /**
   * The whole message is a bare time: `^\d{1,2}(?::\d{2})?\s*(?:am|pm)?$`
   * ignoring case. Each part can be taken in only one way, so the parts are
   * read greedily from the left.
   */
  predicate BareTime(m: string) {
    var h := DigitRun(m, 0, 2);
    var j := if h < |m| && m[h] == ':' && DigitRun(m, h + 1, 2) == 2 then h + 3 else h;
    var k := j + SpaceRun(m, j);
    h >= 1 && j <= |m| && k <= |m| && (k == |m| || IsMeridian(m[k..]))
  }

  /**
   * `extractAddress`: every space-separated piece of the trimmed text
   * capitalised. The length gate counts UTF-16 code units, as `.length` does.
   */
  function ExtractAddress(message: string): (r: Option<string>)
    ensures r.Some? ==> JsLength(message) >= 5 && !StartsWithStopWord(message) && !BareTime(message)
    ensures r.Some? ==> r.value != "" && Lower(r.value) == Lower(Trim(message))
    ensures r.Some? ==> var t := Trim(message);
      |r.value| == |t| && forall i :: 0 <= i < |t| ==> r.value[i] == TitleAt(t, i)
    ensures r.None? <==> JsLength(message) < 5 || StartsWithStopWord(message) || BareTime(message) || Trim(message) == ""
  {
    if JsLength(message) < 5 || StartsWithStopWord(message) || BareTime(message) then None
    else
      var t := Trim(message);
      var a := Join(CapitalizeAll(SplitOn(t, ' ')), " ");
      JoinSplit(t, ' ');
      LowerJoinCapitalized(SplitOn(t, ' '), " ");
      CapitalizedSplit(t);
      if a == "" then None else Some(a)
  }

  /** The length gate counts UTF-16 code units: four characters, one of them an emoji, are five units and pass. */
  lemma EmojiCountsTwice(m: string)
    requires m == "abc\U{1F60A}"
    ensures JsLength(m) == 5 && |m| == 4
    ensures ExtractAddress(m).Some?
  {
    EmojiLength(m);
    EmojiNoStopWord(m);
    EmojiNotBare(m);
  }

  lemma EmojiNotBare(m: string)
    requires m == "abc\U{1F60A}"
    ensures !BareTime(m) && Trim(m) == m
  {
    assert DigitRun(m, 0, 2) == 0;
    TrimPadded("", m, "");
    assert "" + m + "" == m;
  }

  lemma EmojiLength(m: string)
    requires m == "abc\U{1F60A}"
    ensures JsLength(m) == 5
  {
    var e := m[3..];
    assert e == ['\U{1F60A}'] && e[1..] == [];
    assert Utf16Units(e[0]) == 2;
    assert JsLength(e) == 2;
    assert m[2..][1..] == e && JsLength(m[2..]) == 3;
    assert m[1..][1..] == m[2..] && JsLength(m[1..]) == 4;
  }

  lemma EmojiNoStopWord(m: string)
    requires m == "abc\U{1F60A}"
    ensures !StartsWithStopWord(m)
  {
    assert Lower(m)[0] == 'a';
    forall k | 0 <= k < |AddressStopWords|
      ensures !StartsWith(Lower(m), AddressStopWords[k])
    {
      assert AddressStopWords[k][0] != 'a';
    }
  }

  /** A bare time such as "10am" or "14:30" is never an address. */
  lemma BareTimeNotAddress(m: string)
    requires BareTime(m)
    ensures ExtractAddress(m).None?
  {
  }

  /** Stop words need no word boundary: "Howth Road" starts with "how" and is refused. */
  lemma HowthRefused(m: string)
    requires m == "Howth Road"
    ensures ExtractAddress(m).None?
  {
    assert Lower(m)[..3] == "how";
    assert StartsWith(Lower(m), AddressStopWords[7]);
  }

  /** An accepted address differs from the trimmed message only in letter case. */
  lemma AddressKeepsText(m: string)
    requires ExtractAddress(m).Some?
    ensures |ExtractAddress(m).value| == |Trim(m)|
  {
    var t := Trim(m);
    JoinSplit(t, ' ');
    LowerJoinCapitalized(SplitOn(t, ' '), " ");
  }

  // ---------------------------------------------------------------------
  // extractPhoneNumber (index.js:2032-2054) and validatePhoneNumber (index.js:229-234)

  /** `.replace(/[^\d+]/g, '')`. */
  function KeepPhoneChars(s: string): (r: string)
    ensures forall i :: 0 <= i < |r| ==> IsDigit(r[i]) || r[i] == '+'
    ensures |r| <= |s|
  {
    if s == [] then ""
    else (if IsDigit(s[0]) || s[0] == '+' then [s[0]] else "") + KeepPhoneChars(s[1..])
  }

  /** Digits and `+` are kept, everything else dropped, character by character and in order. */
  lemma {:induction false} KeepPhoneCharsSplits(a: string, b: string)
    ensures KeepPhoneChars(a + b) == KeepPhoneChars(a) + KeepPhoneChars(b)
    decreases |a|
  {
    if a == [] {
      assert a + b == b;
    } else {
      assert (a + b)[1..] == a[1..] + b;
      KeepPhoneCharsSplits(a[1..], b);
    }
  }

  lemma KeepPhoneCharsOne(c: char)
    ensures KeepPhoneChars([c]) == if IsDigit(c) || c == '+' then [c] else []
  {
    assert [c][1..] == [];
  }



  /** `.replace(/[\s-]/g, '')`. */
  function DropSpacesAndHyphens(s: string): (r: string)
    ensures forall i :: 0 <= i < |r| ==> !IsSpace(r[i]) && r[i] != '-'
  {
    if s == [] then ""
    else (if IsSpace(s[0]) || s[0] == '-' then "" else [s[0]]) + DropSpacesAndHyphens(s[1..])
  }

  /** Whitespace and hyphens are dropped, every other character kept, character by character and in order. */
  lemma {:induction false} DropSpacesAndHyphensSplits(a: string, b: string)
    ensures DropSpacesAndHyphens(a + b) == DropSpacesAndHyphens(a) + DropSpacesAndHyphens(b)
    decreases |a|
  {
    if a == [] {
      assert a + b == b;
    } else {
      assert (a + b)[1..] == a[1..] + b;
      DropSpacesAndHyphensSplits(a[1..], b);
    }
  }

  lemma DropSpacesAndHyphensOne(c: char)
    ensures DropSpacesAndHyphens([c]) == if IsSpace(c) || c == '-' then [] else [c]
  {
    assert [c][1..] == [];
  }



  /** `8[35679]\d{7}`, the rest of an Irish mobile number after its prefix, to the end of the text. */
  predicate MobileRest(t: string) {
    |t| == 9 && t[0] == '8' && t[1] in "35679" && AllDigits(t[2..])
  }

  /** `^(\+353|00353)8[35679]\d{7}$`. */
  predicate InternationalForm(c: string) {
    (StartsWith(c, "+353") && MobileRest(c[4..])) || (StartsWith(c, "00353") && MobileRest(c[5..]))
  }

  /** `^08[35679]\d{7}$`. */
  predicate NationalForm(c: string) {
    StartsWith(c, "0") && MobileRest(c[1..])
  }

  /**
   * `extractPhoneNumber`: the digits and `+` signs of the message, if they
   * form an Irish mobile number; a match starting with `0` has that `0`
   * replaced by `+353`.
   */
  function ExtractPhoneNumber(message: string): (r: Option<string>)
    ensures r.Some? <==> InternationalForm(KeepPhoneChars(message)) || NationalForm(KeepPhoneChars(message))
  {
    var c := KeepPhoneChars(message);
    if InternationalForm(c) || NationalForm(c) then
      if c[0] == '0' then Some("+353" + c[1..]) else Some(c)
    else None
  }

  /** `validatePhoneNumber`: `^(?:\+353|0)8[35679]\d{7}$` once spaces and hyphens are removed. */
  predicate ValidPhone(phone: string) {
    var c := DropSpacesAndHyphens(phone);
    (StartsWith(c, "+353") && MobileRest(c[4..])) || NationalForm(c)
  }

  /** A national number becomes `+353` followed by the digits after its leading 0. */
  lemma NationalToInternational(m: string)
    requires NationalForm(KeepPhoneChars(m))
    ensures ExtractPhoneNumber(m) == Some("+353" + KeepPhoneChars(m)[1..])
  {
  }

  /** A `+353` number is returned exactly as its digits and `+` were written. */
  lemma InternationalKept(m: string)
    requires StartsWith(KeepPhoneChars(m), "+353") && MobileRest(KeepPhoneChars(m)[4..])
    ensures ExtractPhoneNumber(m) == Some(KeepPhoneChars(m))
  {
  }

  lemma {:induction false} KeepPhoneCharsIdentity(s: string)
    requires forall i :: 0 <= i < |s| ==> IsDigit(s[i]) || s[i] == '+'
    ensures KeepPhoneChars(s) == s
  {
    if s != [] {
      KeepPhoneCharsIdentity(s[1..]);
      assert s == [s[0]] + s[1..];
    }
  }

  /** Text with no whitespace and no hyphen is left unchanged. */
  lemma {:induction false} DropSpacesIdentity(s: string)
    requires forall i :: 0 <= i < |s| ==> !IsSpace(s[i]) && s[i] != '-'
    ensures DropSpacesAndHyphens(s) == s
  {
    if s != [] {
      DropSpacesIdentity(s[1..]);
      assert s == [s[0]] + s[1..];
    }
  }

  /**
   * A number written as `+353…` or `08…` is extracted in the `+353` form,
   * which `validatePhoneNumber` accepts and which extracts to itself.
   */
  lemma ExtractedPhoneValid(m: string)
    requires NationalForm(KeepPhoneChars(m)) || StartsWith(KeepPhoneChars(m), "+353")
    requires ExtractPhoneNumber(m).Some?
    ensures var p := ExtractPhoneNumber(m).value;
      StartsWith(p, "+353") && MobileRest(p[4..]) && ValidPhone(p) && ExtractPhoneNumber(p) == Some(p)
  {
    var c := KeepPhoneChars(m);
    var p := ExtractPhoneNumber(m).value;
    if NationalForm(c) {
      assert p == "+353" + c[1..];
      assert p[4..] == c[1..];
    } else {
      assert !StartsWith(c, "00353");
      assert p == c;
    }
    InternationalFormValid(p);
  }

  /** A `+353` mobile number passes `validatePhoneNumber` and extracts to itself. */
  lemma InternationalFormValid(p: string)
    requires StartsWith(p, "+353") && MobileRest(p[4..])
    ensures ValidPhone(p) && ExtractPhoneNumber(p) == Some(p)
  {
    assert p[..4] == "+353";
    assert forall i :: 0 <= i < |p| ==> IsDigit(p[i]) || p[i] == '+' by {
      forall i | 0 <= i < |p| ensures IsDigit(p[i]) || p[i] == '+' {
        if i >= 4 {
          assert p[i] == p[4..][i - 4];
        } else {
          assert p[i] == p[..4][i];
        }
      }
    }
    KeepPhoneCharsIdentity(p);
    DropSpacesIdentity(p);
  }

  /**
   * A number written with the `00353` prefix has only its first `0`
   * replaced: the result is `+353` followed by `0353` and the mobile
   * digits, and `validatePhoneNumber` rejects it.
   */
  lemma DoubleZeroPrefix(m: string)
    requires StartsWith(KeepPhoneChars(m), "00353") && MobileRest(KeepPhoneChars(m)[5..])
    ensures ExtractPhoneNumber(m) == Some("+3530353" + KeepPhoneChars(m)[5..])
    ensures !ValidPhone(ExtractPhoneNumber(m).value)
  {
    var c := KeepPhoneChars(m);
    var p := "+353" + c[1..];
    assert c[1..] == "0353" + c[5..];
    assert p == "+3530353" + c[5..];
    assert |p| == 17;
    assert forall i :: 0 <= i < |p| ==> IsDigit(p[i]) || p[i] == '+';
    DropSpacesIdentity(p);
  }

  /** The national example `0871234567` extracts to `+353871234567`. */
  lemma NationalExample(m: string)
    requires m == "0871234567"
    ensures ExtractPhoneNumber(m) == Some("+353871234567")
  {
    KeepPhoneCharsIdentity(m);
    assert NationalForm(m);
    assert "+353" + m[1..] == "+353871234567";
  }
}
