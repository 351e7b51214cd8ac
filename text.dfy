/**
 * The JavaScript string operations the booking engine is built from:
 * `toLowerCase`, `trim`, `includes`, `startsWith`, `replace` with a string
 * pattern, `split(' ')`, `join`, `parseInt`, `padStart`, and the character
 * classes `\d`, `\w`, `\s` and `\b` of its regular expressions.
 *
 * Case mapping is ASCII only; every other character is left as it is.
 */
module Text {
  import opened Optional

  // ---------------------------------------------------------------------
  // Character classes

  /** JavaScript's `\s`, which is also the set `trim` and `parseInt` skip. */
  predicate IsSpace(c: char) {
    || c == ' ' || c == '\t' || c == '\n' || c == '\r' || c == '\U{000B}' || c == '\U{000C}'
    || c == '\U{00A0}' || c == '\U{1680}' || ('\U{2000}' <= c <= '\U{200A}')
    || c == '\U{2028}' || c == '\U{2029}' || c == '\U{202F}' || c == '\U{205F}'
    || c == '\U{3000}' || c == '\U{FEFF}'
  }

  /** JavaScript's `\d`: the ASCII digits only. */
  predicate IsDigit(c: char) { '0' <= c <= '9' }

  predicate IsUpper(c: char) { 'A' <= c <= 'Z' }

  predicate IsLower(c: char) { 'a' <= c <= 'z' }

  /** JavaScript's `\w`. */
  predicate IsWordChar(c: char) { IsDigit(c) || IsUpper(c) || IsLower(c) || c == '_' }

  function LowerChar(c: char): (r: char)
    ensures IsWordChar(c) <==> IsWordChar(r)
    ensures IsSpace(c) <==> IsSpace(r)
    ensures !IsUpper(r)
  {
    if IsUpper(c) then (c as int + 32) as char else c
  }

  function UpperChar(c: char): (r: char)
    ensures LowerChar(r) == LowerChar(c)
    ensures IsWordChar(c) <==> IsWordChar(r)
  {
    if IsLower(c) then (c as int - 32) as char else c
  }

  function DigitValue(c: char): nat
    requires IsDigit(c)
  {
    c as int - '0' as int
  }

  function DigitChar(d: nat): (c: char)
    requires d < 10
    ensures IsDigit(c) && DigitValue(c) == d
  {
    (d + '0' as int) as char
  }

  predicate AllDigits(s: string) {
    forall i :: 0 <= i < |s| ==> IsDigit(s[i])
  }

  // ---------------------------------------------------------------------
  // Case and whitespace

  /** `s.toLowerCase()`. */
  function Lower(s: string): (r: string)
    ensures |r| == |s|
    ensures forall i :: 0 <= i < |s| ==> r[i] == LowerChar(s[i])
  {
    seq(|s|, i requires 0 <= i < |s| => LowerChar(s[i]))
  }

  function TrimStart(s: string): string {
    if |s| > 0 && IsSpace(s[0]) then TrimStart(s[1..]) else s
  }

  function TrimEnd(s: string): string {
    if |s| > 0 && IsSpace(s[|s| - 1]) then TrimEnd(s[..|s| - 1]) else s
  }

  /** `s.trim()`. */
  function Trim(s: string): string {
    TrimEnd(TrimStart(s))
  }

  /** `TrimStart` drops the leading whitespace and nothing else. */
  lemma {:induction false} TrimStartShape(s: string)
    ensures var r := TrimStart(s);
      |r| <= |s| && r == s[|s| - |r|..] && (r == [] || !IsSpace(r[0]))
      && forall i :: 0 <= i < |s| - |r| ==> IsSpace(s[i])
    decreases |s|
  {
    if |s| > 0 && IsSpace(s[0]) {
      TrimStartShape(s[1..]);
    }
  }

  /** `TrimEnd` drops the trailing whitespace and nothing else. */
  lemma {:induction false} TrimEndShape(s: string)
    ensures var r := TrimEnd(s);
      |r| <= |s| && r == s[..|r|] && (r == [] || !IsSpace(r[|r| - 1]))
      && forall i :: |r| <= i < |s| ==> IsSpace(s[i])
    decreases |s|
  {
    if |s| > 0 && IsSpace(s[|s| - 1]) {
      TrimEndShape(s[..|s| - 1]);
      assert s[..|s| - 1][..|TrimEnd(s)|] == s[..|TrimEnd(s)|];
    }
  }

  /** The trimmed text is a piece of the text with no whitespace at either end. */
  lemma TrimShape(s: string)
    ensures var r := Trim(s);
      |r| <= |s| && (r == [] || (!IsSpace(r[0]) && !IsSpace(r[|r| - 1])))
  {
    var a := TrimStart(s);
    TrimStartShape(s);
    TrimEndShape(a);
    var r := TrimEnd(a);
    if r != [] {
      assert r[0] == a[0];
    }
  }

  /** Whitespace before and after a text with no whitespace at its ends is all `trim` removes. */
  lemma {:induction false} TrimStartSpaces(p: string, s: string)
    requires forall i :: 0 <= i < |p| ==> IsSpace(p[i])
    requires s == [] || !IsSpace(s[0])
    ensures TrimStart(p + s) == s
    decreases |p|
  {
    if p != [] {
      assert (p + s)[0] == p[0];
      assert (p + s)[1..] == p[1..] + s;
      TrimStartSpaces(p[1..], s);
    } else {
      assert p + s == s;
    }
  }

  lemma {:induction false} TrimEndSpaces(s: string, q: string)
    requires forall i :: 0 <= i < |q| ==> IsSpace(q[i])
    requires s == [] || !IsSpace(s[|s| - 1])
    ensures TrimEnd(s + q) == s
    decreases |q|
  {
    if q != [] {
      assert (s + q)[|s + q| - 1] == q[|q| - 1];
      assert (s + q)[..|s + q| - 1] == s + q[..|q| - 1];
      TrimEndSpaces(s, q[..|q| - 1]);
    } else {
      assert s + q == s;
    }
  }

  lemma TrimPadded(p: string, s: string, q: string)
    requires forall i :: 0 <= i < |p| ==> IsSpace(p[i])
    requires forall i :: 0 <= i < |q| ==> IsSpace(q[i])
    requires s != [] && !IsSpace(s[0]) && !IsSpace(s[|s| - 1])
    ensures Trim(p + s + q) == s
  {
    assert p + s + q == p + (s + q);
    TrimStartSpaces(p, s + q);
    TrimEndSpaces(s, q);
  }

  /** `s.toLowerCase().trim()`. */
  function Normalize(s: string): string {
    Trim(Lower(s))
  }

  // ---------------------------------------------------------------------
  // Searching

  /** `s.startsWith(p)`. */
  predicate StartsWith(s: string, p: string) {
    |p| <= |s| && s[..|p|] == p
  }

  /** `t` occurs in `s` at index `i`. */
  predicate OccursAt(s: string, t: string, i: int) {
    0 <= i && i + |t| <= |s| && s[i..i + |t|] == t
  }

  /** `s.includes(t)`. */
  predicate Contains(s: string, t: string)
    decreases |s|
  {
    StartsWith(s, t) || (|s| > 0 && Contains(s[1..], t))
  }

  lemma {:induction false} ContainsIff(s: string, t: string)
    ensures Contains(s, t) <==> exists i :: OccursAt(s, t, i)
    decreases |s|
  {
    if StartsWith(s, t) {
      assert OccursAt(s, t, 0);
    } else if |s| > 0 {
      ContainsIff(s[1..], t);
      if Contains(s[1..], t) {
        var i :| OccursAt(s[1..], t, i);
        assert s[1..][i..i + |t|] == s[i + 1..i + 1 + |t|];
        assert OccursAt(s, t, i + 1);
      }
      if exists i :: OccursAt(s, t, i) {
        var i :| OccursAt(s, t, i);
        assert i != 0;
        assert s[1..][i - 1..i - 1 + |t|] == s[i..i + |t|];
        assert OccursAt(s[1..], t, i - 1);
      }
    }
  }

  lemma ContainsAt(s: string, t: string, i: int)
    requires OccursAt(s, t, i)
    ensures Contains(s, t)
  {
    ContainsIff(s, t);
  }

  /** Only a text at least as long as `t` can contain it. */
  lemma ContainsLength(s: string, t: string)
    requires Contains(s, t)
    ensures |t| <= |s|
  {
    ContainsIff(s, t);
  }

  lemma ContainsSelf(s: string)
    ensures Contains(s, s)
  {
    assert s[..|s|] == s;
  }

  /** A text that contains `u` contains everything `u` contains. */
  lemma ContainsTransitive(s: string, u: string, t: string)
    requires Contains(s, u) && Contains(u, t)
    ensures Contains(s, t)
  {
    ContainsIff(s, u);
    ContainsIff(u, t);
    var i :| OccursAt(s, u, i);
    var j :| OccursAt(u, t, j);
    forall k | 0 <= k < |t|
      ensures s[i + j..i + j + |t|][k] == t[k]
    {
      assert t[k] == u[j..j + |t|][k] == u[j + k];
      assert u[j + k] == s[i..i + |u|][j + k];
    }
    assert s[i + j..i + j + |t|] == t;
    ContainsAt(s, t, i + j);
  }

  /** The first index at or after `from` where `t` occurs. */
  function FindFrom(s: string, t: string, from: nat): (r: Option<nat>)
    ensures r.Some? ==> from <= r.value && r.value + |t| <= |s|
    decreases |s| - from
  {
    if from + |t| > |s| then None
    else if s[from..from + |t|] == t then Some(from)
    else FindFrom(s, t, from + 1)
  }

  /** `FindFrom` finds the first occurrence from `from`, and none when there is none. */
  lemma {:induction false} FindFromSpec(s: string, t: string, from: nat)
    ensures var r := FindFrom(s, t, from);
      (r.Some? ==> from <= r.value && OccursAt(s, t, r.value)
                   && forall j :: from <= j < r.value ==> !OccursAt(s, t, j))
      && (r.None? ==> forall j :: from <= j ==> !OccursAt(s, t, j))
    decreases |s| - from
  {
    if from + |t| <= |s| && s[from..from + |t|] != t {
      FindFromSpec(s, t, from + 1);
    }
  }

  /** `s.indexOf(t)`, with `None` for -1. */
  function IndexOf(s: string, t: string): Option<nat> {
    FindFrom(s, t, 0)
  }

  /** `s.replace(t, u)` with a string pattern: only the first occurrence is replaced. */
  function ReplaceFirst(s: string, t: string, u: string): string {
    match IndexOf(s, t)
    case None => s
    case Some(i) => s[..i] + u + s[i + |t|..]
  }

  /** JavaScript's `\b` at index `i`: exactly one side is a word character. */
  predicate Boundary(s: string, i: int) {
    (0 < i <= |s| && IsWordChar(s[i - 1])) != (0 <= i < |s| && IsWordChar(s[i]))
  }

  /** `new RegExp('\\b' + t + '\\b')` finds a match in `s` at index `i`. */
  predicate WordAt(s: string, t: string, i: int) {
    OccursAt(s, t, i) && Boundary(s, i) && Boundary(s, i + |t|)
  }

  /** The number of consecutive characters satisfying `IsDigit` from `i`, at most `max`. */
  function DigitRun(s: string, i: nat, max: nat): (n: nat)
    ensures n <= max && (n == 0 || i + n <= |s|)
    ensures forall k :: i <= k < i + n ==> IsDigit(s[k])
    ensures n < max && i + n < |s| ==> !IsDigit(s[i + n])
    decreases max
  {
    if max == 0 || i >= |s| || !IsDigit(s[i]) then 0 else 1 + DigitRun(s, i + 1, max - 1)
  }

  /** The number of consecutive whitespace characters from `i` (what a greedy `\s*` takes). */
  function SpaceRun(s: string, i: nat): (n: nat)
    ensures i + n <= |s| || n == 0
    ensures forall k :: i <= k < i + n ==> IsSpace(s[k])
    ensures i + n < |s| ==> !IsSpace(s[i + n])
    decreases |s| - i
  {
    if i >= |s| || !IsSpace(s[i]) then 0 else 1 + SpaceRun(s, i + 1)
  }

  // ---------------------------------------------------------------------
  // Splitting and joining on a separator character

  /** `s.split(c)` for a one-character string `c`. */
  function SplitOn(s: string, c: char): (r: seq<string>)
    ensures |r| >= 1
    ensures forall k :: 0 <= k < |r| ==> c !in r[k]
    decreases |s|
  {
    if c !in s then [s]
    else
      var i := IndexOfChar(s, c);
      [s[..i]] + SplitOn(s[i + 1..], c)
  }

  function IndexOfChar(s: string, c: char): (i: nat)
    requires c in s
    ensures i < |s| && s[i] == c && c !in s[..i]
  {
    if s[0] == c then 0 else 1 + IndexOfChar(s[1..], c)
  }

  /** `ws.join(sep)`. */
  function Join(ws: seq<string>, sep: string): string {
    if |ws| == 0 then ""
    else if |ws| == 1 then ws[0]
    else ws[0] + sep + Join(ws[1..], sep)
  }

  /** Joining the pieces of a split with the same character gives back the text. */
  lemma {:induction false} JoinSplit(s: string, c: char)
    ensures Join(SplitOn(s, c), [c]) == s
    decreases |s|
  {
    if c in s {
      var i := IndexOfChar(s, c);
      var rest := s[i + 1..];
      JoinSplit(rest, c);
      var ws := SplitOn(s, c);
      assert ws == [s[..i]] + SplitOn(rest, c);
      assert ws[1..] == SplitOn(rest, c);
      assert Join(ws, [c]) == s[..i] + [c] + Join(ws[1..], [c]);
      assert s == s[..i] + [c] + rest;
    }
  }

  // ---------------------------------------------------------------------
  // Words

  /** `w.charAt(0).toUpperCase() + w.slice(1).toLowerCase()`. */
  function Capitalize(w: string): (r: string)
    ensures |r| == |w|
    ensures Lower(r) == Lower(w)
  {
    if w == [] then [] else
      CapitalizeLower(w);
      [UpperChar(w[0])] + Lower(w[1..])
  }

  lemma CapitalizeLower(w: string)
    requires w != []
    ensures Lower([UpperChar(w[0])] + Lower(w[1..])) == Lower(w)
  {
    var r := [UpperChar(w[0])] + Lower(w[1..]);
    forall i | 0 <= i < |w|
      ensures Lower(r)[i] == Lower(w)[i]
    {
      if i > 0 {
        var c := w[i];
        assert r[i] == LowerChar(c);
        assert LowerChar(LowerChar(c)) == LowerChar(c);
      }
    }
  }

  /** `ws.map(Capitalize)`. */
  function CapitalizeAll(ws: seq<string>): (r: seq<string>)
    ensures |r| == |ws|
    ensures forall k :: 0 <= k < |ws| ==> r[k] == Capitalize(ws[k])
  {
    if ws == [] then [] else [Capitalize(ws[0])] + CapitalizeAll(ws[1..])
  }

  /**
   * The character at `i` of a text capitalised word by word, words being
   * separated by single spaces: upper case at the start of a word, lower
   * case elsewhere.
   */
  function TitleAt(t: string, i: nat): char
    requires i < |t|
  {
    if i == 0 || t[i - 1] == ' ' then UpperChar(t[i]) else LowerChar(t[i])
  }

  /** Splitting at spaces, capitalising every piece and joining with spaces capitalises every word in place. */
  lemma {:induction false} CapitalizedSplit(t: string)
    ensures var a := Join(CapitalizeAll(SplitOn(t, ' ')), " ");
      |a| == |t| && forall i :: 0 <= i < |t| ==> a[i] == TitleAt(t, i)
    decreases |t|
  {
    var ws := SplitOn(t, ' ');
    var a := Join(CapitalizeAll(ws), " ");
    if ' ' !in t {
      assert ws == [t];
      assert a == Capitalize(t);
      forall i | 0 <= i < |t|
        ensures a[i] == TitleAt(t, i)
      {
        if i > 0 {
          assert t[i - 1] in t;
        }
      }
    } else {
      var k := IndexOfChar(t, ' ');
      var w := t[..k];
      var rest := t[k + 1..];
      CapitalizedSplit(rest);
      var ws' := SplitOn(rest, ' ');
      assert ws == [w] + ws';
      var cs := CapitalizeAll(ws);
      assert cs[1..] == CapitalizeAll(ws');
      var b := Join(CapitalizeAll(ws'), " ");
      assert a == Capitalize(w) + " " + b;
      forall i | 0 <= i < |t|
        ensures a[i] == TitleAt(t, i)
      {
        if i < k {
          assert a[i] == Capitalize(w)[i];
          if i > 0 {
            assert t[i - 1] == w[i - 1] && w[i - 1] in w;
          }
        } else if i > k {
          var j := i - k - 1;
          assert a[i] == b[j];
          assert rest[j] == t[i];
          if j > 0 {
            assert rest[j - 1] == t[i - 1];
          }
        }
      }
    }
  }

  // ---------------------------------------------------------------------
  // Lengths

  /** The UTF-16 code units of `c`: two for a character outside the Basic Multilingual Plane. */
  function Utf16Units(c: char): nat {
    if c as int >= 0x1_0000 then 2 else 1
  }

  /** JavaScript's `s.length`: the number of UTF-16 code units, not of characters. */
  function JsLength(s: string): (n: nat)
    ensures |s| <= n <= 2 * |s|
  {
    if s == [] then 0 else Utf16Units(s[0]) + JsLength(s[1..])
  }

  /** Text in the Basic Multilingual Plane, ASCII included, has as many code units as characters. */
  lemma {:induction false} JsLengthBmp(s: string)
    requires forall i :: 0 <= i < |s| ==> s[i] as int < 0x1_0000
    ensures JsLength(s) == |s|
  {
    if s != [] {
      JsLengthBmp(s[1..]);
    }
  }

  /** `t` occurs in the lower-cased `s` where each of its characters is the lower case of the one in `s`. */
  lemma LowerOccursAt(s: string, t: string, i: nat)
    requires i + |t| <= |s| && forall c :: 0 <= c < |t| ==> LowerChar(s[i + c]) == t[c]
    ensures OccursAt(Lower(s), t, i)
  {
    assert Lower(s)[i..i + |t|] == t;
  }

  lemma {:induction false} LowerAppend(a: string, b: string)
    ensures Lower(a + b) == Lower(a) + Lower(b)
  {
    assert forall i :: 0 <= i < |a| + |b| ==> Lower(a + b)[i] == (Lower(a) + Lower(b))[i];
  }

  /** Capitalising every piece of a join leaves the text unchanged up to letter case. */
  lemma {:induction false} LowerJoinCapitalized(ws: seq<string>, sep: string)
    ensures Lower(Join(CapitalizeAll(ws), sep)) == Lower(Join(ws, sep))
    ensures |Join(CapitalizeAll(ws), sep)| == |Join(ws, sep)|
    decreases |ws|
  {
    if |ws| > 1 {
      LowerJoinCapitalized(ws[1..], sep);
      assert CapitalizeAll(ws)[1..] == CapitalizeAll(ws[1..]);
      var c := CapitalizeAll(ws);
      LowerAppend(c[0] + sep, Join(c[1..], sep));
      LowerAppend(c[0], sep);
      LowerAppend(ws[0] + sep, Join(ws[1..], sep));
      LowerAppend(ws[0], sep);
    }
  }

  // ---------------------------------------------------------------------
  // Numbers

  /** The value of a string of decimal digits. */
  function DigitsValue(s: string): nat
    requires AllDigits(s)
  {
    if s == [] then 0 else 10 * DigitsValue(s[..|s| - 1]) + DigitValue(s[|s| - 1])
  }

  /** The value of a one-digit string. */
  lemma OneDigitValue(d: string)
    requires |d| == 1 && IsDigit(d[0])
    ensures DigitsValue(d) == DigitValue(d[0])
  {
    assert d[..0] == [];
  }

  /** The value of a two-digit string. */
  lemma TwoDigitsValue(d: string)
    requires |d| == 2 && AllDigits(d)
    ensures DigitsValue(d) == 10 * DigitValue(d[0]) + DigitValue(d[1])
  {
    assert d[..1] == [d[0]];
    assert d[..1][..0] == [];
    assert DigitsValue(d[..1]) == DigitValue(d[0]);
  }

  /** `String(n)` for a natural number. */
  function NatToString(n: nat): (r: string)
    ensures AllDigits(r) && |r| >= 1
    ensures DigitsValue(r) == n
    ensures n < 10 ==> |r| == 1
    ensures 10 <= n < 100 ==> |r| == 2
  {
    if n < 10 then [DigitChar(n)]
    else
      var r := NatToString(n / 10) + [DigitChar(n % 10)];
      assert r[..|r| - 1] == NatToString(n / 10);
      r
  }

  /** `s.padStart(2, '0')`. */
  function Pad2(s: string): (r: string)
    ensures |s| >= 2 ==> r == s
    ensures |s| < 2 ==> |r| == 2 && r[2 - |s|..] == s
  {
    if |s| >= 2 then s else if |s| == 1 then "0" + s else "00"
  }

  predicate IsHexDigit(c: char) { IsDigit(c) || 'a' <= c <= 'f' || 'A' <= c <= 'F' }

  function HexValue(c: char): nat
    requires IsHexDigit(c)
  {
    if IsDigit(c) then DigitValue(c)
    else if 'a' <= c <= 'f' then c as int - 'a' as int + 10
    else c as int - 'A' as int + 10
  }

  /** The longest prefix of `s` made of digits of the given radix (10 or 16). */
  function RadixPrefix(s: string, hex: bool): (n: nat)
    ensures n <= |s|
  {
    if s == [] || !(if hex then IsHexDigit(s[0]) else IsDigit(s[0])) then 0
    else 1 + RadixPrefix(s[1..], hex)
  }

  function RadixValue(s: string, hex: bool): nat
    requires forall i :: 0 <= i < |s| ==> (if hex then IsHexDigit(s[i]) else IsDigit(s[i]))
  {
    if s == [] then 0
    else (if hex then 16 else 10) * RadixValue(s[..|s| - 1], hex)
         + (if hex then HexValue(s[|s| - 1]) else DigitValue(s[|s| - 1]))
  }

  lemma {:induction false} RadixPrefixDigits(s: string, hex: bool)
    ensures forall i :: 0 <= i < RadixPrefix(s, hex) ==> (if hex then IsHexDigit(s[i]) else IsDigit(s[i]))
  {
    if s != [] && (if hex then IsHexDigit(s[0]) else IsDigit(s[0])) {
      RadixPrefixDigits(s[1..], hex);
    }
  }

  /**
   * `parseInt(s)` with no radix: leading whitespace is skipped, one sign is
   * read, a `0x`/`0X` prefix selects base 16, and then the longest run of
   * digits is read. `None` stands for `NaN`.
   */
  function ParseInt(s: string): Option<int> {
    var t := TrimStart(s);
    var neg := |t| > 0 && t[0] == '-';
    var u := if |t| > 0 && (t[0] == '-' || t[0] == '+') then t[1..] else t;
    var hex := |u| >= 2 && u[0] == '0' && (u[1] == 'x' || u[1] == 'X');
    var body := if hex then u[2..] else u;
    var n := RadixPrefix(body, hex);
    RadixPrefixDigits(body, hex);
    if n == 0 then None
    else
      var v: int := RadixValue(body[..n], hex);
      Some(if neg then -v else v)
  }

  /** On a string of digits `parseInt` is the plain decimal value. */
  lemma ParseIntDigits(s: string)
    requires AllDigits(s) && s != []
    ensures ParseInt(s) == Some(DigitsValue(s))
  {
    assert TrimStart(s) == s;
    AllDigitsPrefix(s);
    AllDigitsValue(s);
    assert s[..|s|] == s;
  }

  /** `parseInt` reads the leading run of decimal digits and ignores what follows it. */
  lemma ParseIntLeading(s: string, n: nat)
    requires 2 <= n <= |s| && AllDigits(s[..n]) && (n == |s| || !IsDigit(s[n]))
    ensures ParseInt(s) == Some(DigitsValue(s[..n]))
  {
    assert IsDigit(s[..n][0]) && IsDigit(s[..n][1]);
    assert TrimStart(s) == s;
    RunPrefix(s, n);
    AllDigitsValue(s[..n]);
  }

  /** `parseInt` of a text that starts with exactly two digits. */
  lemma ParseIntTwoDigits(s: string)
    requires |s| >= 2 && IsDigit(s[0]) && IsDigit(s[1]) && (|s| == 2 || !IsDigit(s[2]))
    ensures ParseInt(s) == Some(10 * DigitValue(s[0]) + DigitValue(s[1]))
  {
    var d := s[..2];
    assert d[0] == s[0] && d[1] == s[1];
    ParseIntLeading(s, 2);
    TwoDigitsValue(d);
  }

  lemma {:induction false} RunPrefix(s: string, n: nat)
    requires n <= |s| && AllDigits(s[..n]) && (n == |s| || !IsDigit(s[n]))
    ensures RadixPrefix(s, false) == n
  {
    if n > 0 {
      assert IsDigit(s[..n][0]);
      assert s[1..][..n - 1] == s[1..n];
      RunPrefix(s[1..], n - 1);
    }
  }

  lemma {:induction false} AllDigitsPrefix(s: string)
    requires AllDigits(s)
    ensures RadixPrefix(s, false) == |s|
  {
    if s != [] {
      AllDigitsPrefix(s[1..]);
    }
  }

  lemma {:induction false} AllDigitsValue(s: string)
    requires AllDigits(s)
    ensures RadixValue(s, false) == DigitsValue(s)
  {
    if s != [] {
      AllDigitsValue(s[..|s| - 1]);
    }
  }
}
