/**
  The PHP string built-ins the core relies on: trim, strtoupper/strtolower,
  implode/explode, str_replace and the conversion of integers to decimal text.
  PHP strings are byte strings; here they are sequences of characters, and the
  case functions touch only the ASCII letters (as PHP 8.2 and later do).
 */
module PhpStrings {

  /** The characters PHP's trim() strips when no character list is given:
      space, tab, line feed, carriage return, NUL and vertical tab. */
  const Whitespace: set<char> := {' ', '\t', '\n', '\r', '\0', '\U{B}'}

  // ---------------------------------------------------------------- trim

  /** ltrim(s, cut): the longest suffix of s that does not start with a character of cut. */
  function TrimStart(s: string, cut: set<char>): (r: string)
    ensures |r| <= |s| && r == s[|s| - |r|..]
    ensures forall i :: 0 <= i < |s| - |r| ==> s[i] in cut
    ensures r == [] || r[0] !in cut
    decreases |s|
  {
    if s != [] && s[0] in cut then TrimStart(s[1..], cut) else s
  }

  /** rtrim(s, cut): the longest prefix of s that does not end with a character of cut. */
  function TrimEnd(s: string, cut: set<char>): (r: string)
    ensures |r| <= |s| && r == s[..|r|]
    ensures forall i :: |r| <= i < |s| ==> s[i] in cut
    ensures r == [] || r[|r| - 1] !in cut
    decreases |s|
  {
    if s != [] && s[|s| - 1] in cut then TrimEnd(s[..|s| - 1], cut) else s
  }

  /** trim(s, cut): both ends stripped of characters in cut. */
  function TrimChars(s: string, cut: set<char>): (r: string)
    ensures |r| <= |s|
    ensures r == [] || (r[0] !in cut && r[|r| - 1] !in cut)
  {
    var t := TrimStart(s, cut);
    var r := TrimEnd(t, cut);
    assert r != [] ==> r[0] == t[0];
    r
  }

  /** trim(s) with PHP's default character list. */
  function Trim(s: string): (r: string)
    ensures |r| <= |s|
  {
    TrimChars(s, Whitespace)
  }

  /** Trimming a string that already has no strippable character at either end changes nothing. */
  lemma TrimCharsNoop(s: string, cut: set<char>)
    requires s == [] || (s[0] !in cut && s[|s| - 1] !in cut)
    ensures TrimChars(s, cut) == s
  {
  }

  // ---------------------------------------------------------------- case

  function UpperChar(c: char): char
  {
    if 'a' <= c <= 'z' then (c as int - 32) as char else c
  }

  function LowerChar(c: char): char
  {
    if 'A' <= c <= 'Z' then (c as int + 32) as char else c
  }

  /** strtoupper: every ASCII lower-case letter becomes upper case, all else is kept. */
  function Upper(s: string): (r: string)
    ensures |r| == |s|
    ensures forall i :: 0 <= i < |s| ==> r[i] == UpperChar(s[i])
    ensures forall i :: 0 <= i < |r| ==> !('a' <= r[i] <= 'z')
  {
    if s == [] then [] else [UpperChar(s[0])] + Upper(s[1..])
  }

  /** strtolower: every ASCII upper-case letter becomes lower case, all else is kept. */
  function Lower(s: string): (r: string)
    ensures |r| == |s|
    ensures forall i :: 0 <= i < |s| ==> r[i] == LowerChar(s[i])
    ensures forall i :: 0 <= i < |r| ==> !('A' <= r[i] <= 'Z')
  {
    if s == [] then [] else [LowerChar(s[0])] + Lower(s[1..])
  }

  lemma CaseOfChar(c: char)
    ensures UpperChar(LowerChar(c)) == UpperChar(c) && UpperChar(UpperChar(c)) == UpperChar(c)
    ensures LowerChar(UpperChar(c)) == LowerChar(c) && LowerChar(LowerChar(c)) == LowerChar(c)
  {
  }

  /** Upper-casing forgets the case of the input: the basis of every case-insensitive comparison. */
  lemma UpperOfLower(s: string)
    ensures Upper(Lower(s)) == Upper(s)
    ensures Upper(Upper(s)) == Upper(s)
  {
    var l, u := Lower(s), Upper(s);
    forall i | 0 <= i < |s|
      ensures Upper(l)[i] == u[i] && Upper(u)[i] == u[i]
    {
      CaseOfChar(s[i]);
    }
  }

  lemma LowerOfUpper(s: string)
    ensures Lower(Upper(s)) == Lower(s)
    ensures Lower(Lower(s)) == Lower(s)
  {
    var l, u := Lower(s), Upper(s);
    forall i | 0 <= i < |s|
      ensures Lower(u)[i] == l[i] && Lower(l)[i] == l[i]
    {
      CaseOfChar(s[i]);
    }
  }

  // ---------------------------------------------------------------- implode / explode

  /** implode(sep, parts). */
  function Implode(sep: string, parts: seq<string>): (r: string)
    ensures parts == [] ==> r == ""
    ensures |parts| == 1 ==> r == parts[0]
  {
    if parts == [] then ""
    else if |parts| == 1 then parts[0]
    else parts[0] + sep + Implode(sep, parts[1..])
  }

  /** implode starts with the first part and ends with the last one. */
  lemma {:induction false} ImplodeEnds(sep: string, parts: seq<string>)
    requires parts != [] && forall k :: 0 <= k < |parts| ==> parts[k] != ""
    ensures var r := Implode(sep, parts);
      r != "" && r[0] == parts[0][0] && r[|r| - 1] == parts[|parts| - 1][|parts[|parts| - 1]| - 1]
  {
    if |parts| > 1 {
      ImplodeEnds(sep, parts[1..]);
    }
  }

  /** sep occurs in s at position i. */
  predicate OccursAt(s: string, sep: string, i: int)
  {
    0 <= i && i + |sep| <= |s| && s[i..i + |sep|] == sep
  }

  /** sep occurs nowhere in s. */
  ghost predicate Free(s: string, sep: string)
  {
    forall i :: !OccursAt(s, sep, i)
  }

  /** The first position at or after `from` where sep occurs in s, or -1 when there is none. */
  function FirstOccurrence(s: string, sep: string, from: nat): (r: int)
    requires from <= |s|
    ensures r == -1 || (from <= r && OccursAt(s, sep, r))
    ensures forall j :: from <= j && (r == -1 || j < r) ==> !OccursAt(s, sep, j)
    decreases |s| - from
  {
    if from + |sep| > |s| then -1
    else if s[from..from + |sep|] == sep then from
    else FirstOccurrence(s, sep, from + 1)
  }

  /** explode(sep, s) for a non-empty separator: the pieces between the
      occurrences of sep, found from left to right without overlapping. */
  function Explode(sep: string, s: string): (parts: seq<string>)
    requires sep != ""
    ensures |parts| >= 1
    ensures forall k :: 0 <= k < |parts| ==> Free(parts[k], sep)
    decreases |s|
  {
    var i := FirstOccurrence(s, sep, 0);
    if i < 0 then
      assert forall j :: OccursAt(s, sep, j) ==> 0 <= j;
      [s]
    else
      var head := s[..i];
      assert forall j :: OccursAt(head, sep, j) ==> OccursAt(s, sep, j);
      [head] + Explode(sep, s[i + |sep|..])
  }

  /** Joining the pieces of explode with the same separator gives back the input. */
  lemma {:induction false} ImplodeExplode(sep: string, s: string)
    requires sep != ""
    ensures Implode(sep, Explode(sep, s)) == s
    decreases |s|
  {
    var i := FirstOccurrence(s, sep, 0);
    if i >= 0 {
      var head, rest := s[..i], s[i + |sep|..];
      var tail := Explode(sep, rest);
      ImplodeExplode(sep, rest);
      var parts := [head] + tail;
      assert Explode(sep, s) == parts;
      assert parts[1..] == tail;
      assert Implode(sep, parts) == head + sep + Implode(sep, tail);
      assert s == head + s[i..i + |sep|] + rest;
    }
  }

  /** A text without the separator's first character is a single piece. */
  lemma ExplodeWithoutSeparator(sep: string, s: string)
    requires sep != "" && sep[0] !in s
    ensures Explode(sep, s) == [s]
  {
    forall j | 0 <= j < |s| ensures !OccursAt(s, sep, j) {
      assert j + |sep| <= |s| ==> s[j..j + |sep|][0] == s[j];
    }
    assert FirstOccurrence(s, sep, 0) == -1;
  }

  /** The first occurrence in `p + sep + rest` is the one right after p when
      p lacks the separator's first character. */
  lemma FirstOccurrenceAfter(sep: string, p: string, rest: string)
    requires sep != "" && sep[0] !in p
    ensures FirstOccurrence(p + sep + rest, sep, 0) == |p|
  {
    var s := p + sep + rest;
    assert s[|p|..|p| + |sep|] == sep;
    assert OccursAt(s, sep, |p|);
    forall j | 0 <= j < |p| ensures !OccursAt(s, sep, j) {
      assert s[j] == p[j];
      assert j + |sep| <= |s| ==> s[j..j + |sep|][0] == s[j];
    }
  }

  /** Exploding `p + sep + rest` splits off p. */
  lemma ExplodeStep(sep: string, p: string, rest: string)
    requires sep != "" && sep[0] !in p
    ensures Explode(sep, p + sep + rest) == [p] + Explode(sep, rest)
  {
    var s := p + sep + rest;
    FirstOccurrenceAfter(sep, p, rest);
    assert Explode(sep, s) == [s[..|p|]] + Explode(sep, s[|p| + |sep|..]);
    assert s[..|p|] == p;
    assert s[|p| + |sep|..] == rest;
  }

  /** When no part contains the first character of the separator, explode undoes implode. */
  lemma {:induction false} ExplodeImplode(sep: string, parts: seq<string>)
    requires sep != "" && parts != []
    requires forall k :: 0 <= k < |parts| ==> sep[0] !in parts[k]
    ensures Explode(sep, Implode(sep, parts)) == parts
    decreases |parts|
  {
    if |parts| == 1 {
      ExplodeWithoutSeparator(sep, parts[0]);
    } else {
      var rest := Implode(sep, parts[1..]);
      assert Implode(sep, parts) == parts[0] + sep + rest;
      ExplodeStep(sep, parts[0], rest);
      ExplodeImplode(sep, parts[1..]);
      assert parts == [parts[0]] + parts[1..];
    }
  }

  /** str_replace(search, replace, subject) for one search string: every
      occurrence, scanning left to right, is replaced; an empty search string
      leaves the subject as it is. */
  function StrReplace(search: string, replace: string, subject: string): (r: string)
    ensures search == "" ==> r == subject
    ensures search != "" && replace == search ==> r == subject
  {
    assert search != "" && replace == search ==> Implode(replace, Explode(search, subject)) == subject by {
      if search != "" { ImplodeExplode(search, subject); }
    }
    if search == "" then subject else Implode(replace, Explode(search, subject))
  }

  /** A search string that does not occur leaves the subject unchanged. */
  lemma StrReplaceAbsent(search: string, replace: string, subject: string)
    requires Free(subject, search)
    ensures StrReplace(search, replace, subject) == subject
  {
    if search != "" {
      assert FirstOccurrence(subject, search, 0) == -1;
    }
  }

  /** Every c in r is preceded by b. */
  predicate Escaped(r: string, b: char, c: char)
  {
    forall i :: 0 <= i < |r| && r[i] == c ==> 0 < i && r[i - 1] == b
  }

  /** After replacing every character c by b followed by c (b != c), each c in
      the result is preceded by b: this is how a route's '/' are escaped. */
  lemma EscapedCharPreceded(b: char, c: char, subject: string)
    requires b != c
    ensures Escaped(StrReplace([c], [b, c], subject), b, c)
  {
    var parts := Explode([c], subject);
    forall k | 0 <= k < |parts| ensures c !in parts[k] {
      forall j | 0 <= j < |parts[k]| ensures parts[k][j] != c {
        assert !OccursAt(parts[k], [c], j);
        assert parts[k][j..j + 1] == [parts[k][j]];
      }
    }
    ImplodeEscaped(b, c, parts);
  }

  lemma {:induction false} ImplodeEscaped(b: char, c: char, parts: seq<string>)
    requires b != c
    requires forall k :: 0 <= k < |parts| ==> c !in parts[k]
    ensures Escaped(Implode([b, c], parts), b, c)
    decreases |parts|
  {
    if |parts| > 1 {
      ImplodeEscaped(b, c, parts[1..]);
      var p := parts[0];
      var rest := Implode([b, c], parts[1..]);
      var r := Implode([b, c], parts);
      assert r == p + [b, c] + rest;
      assert c !in p;
      forall i | 0 <= i < |r| ensures r[i] == c ==> 0 < i && r[i - 1] == b {
        if i < |p| {
          assert r[i] == p[i];
        } else if i == |p| {
          assert r[i] == b;
        } else if i == |p| + 1 {
          assert r[i - 1] == b;
        } else {
          assert r[i] == rest[i - |p| - 2];
          if i > |p| + 2 {
            assert r[i - 1] == rest[i - |p| - 3];
          }
        }
      }
    }
  }

  // ---------------------------------------------------------------- integers as text

  function DigitChar(d: nat): (c: char)
    requires d < 10
    ensures '0' <= c <= '9'
  {
    ('0' as int + d) as char
  }

  function DigitValue(c: char): (d: nat)
    requires '0' <= c <= '9'
    ensures d < 10 && DigitChar(d) == c
  {
    c as int - '0' as int
  }

  predicate AllDigits(s: string)
  {
    forall i :: 0 <= i < |s| ==> '0' <= s[i] <= '9'
  }

  /** Decimal digits of a natural number, most significant first, without leading zeros. */
  function NatToDecimal(n: nat): (r: string)
    ensures |r| >= 1 && AllDigits(r)
    ensures r[0] == '0' <==> n == 0
    ensures n == 0 ==> r == "0"
    decreases n
  {
    if n < 10 then [DigitChar(n)] else NatToDecimal(n / 10) + [DigitChar(n % 10)]
  }

  /** The number a string of decimal digits denotes. */
  function DigitsValue(s: string): nat
    requires AllDigits(s)
  {
    if s == [] then 0 else 10 * DigitsValue(s[..|s| - 1]) + DigitValue(s[|s| - 1])
  }

  lemma {:induction false} DigitsOfNat(n: nat)
    ensures DigitsValue(NatToDecimal(n)) == n
    decreases n
  {
    if n >= 10 {
      DigitsOfNat(n / 10);
      var r := NatToDecimal(n);
      assert r[..|r| - 1] == NatToDecimal(n / 10);
    }
  }

  /** PHP's string conversion of an integer ("{$n}", `'...' . $n`). */
  function IntToDecimal(n: int): (r: string)
    ensures r != ""
  {
    if n < 0 then "-" + NatToDecimal(-n) else NatToDecimal(n)
  }

  /** The strings PHP treats as integer array keys: an optional '-', then
      decimal digits without a leading zero ("0" itself allowed, "-0" not).
      PHP also requires the value to fit a 64-bit integer; integers are
      unbounded here, so that limit is not modelled. */
  predicate IsIntegerKey(s: string)
  {
    if s != [] && s[0] == '-' then
      |s| >= 2 && '1' <= s[1] <= '9' && AllDigits(s[1..])
    else
      s != [] && AllDigits(s) && (s[0] != '0' || |s| == 1)
  }

  /** The integer an integer-key string stands for. */
  function IntegerKeyValue(s: string): int
    requires IsIntegerKey(s)
  {
    if s[0] == '-' then -(DigitsValue(s[1..]) as int) else DigitsValue(s)
  }

  /** Every integer's decimal text is an integer key that denotes it. */
  lemma IntegerKeyOfDecimal(n: int)
    ensures IsIntegerKey(IntToDecimal(n)) && IntegerKeyValue(IntToDecimal(n)) == n
  {
    var r := IntToDecimal(n);
    if n < 0 {
      DigitsOfNat(-n);
      assert r[1..] == NatToDecimal(-n);
    } else {
      DigitsOfNat(n);
    }
  }

  lemma {:induction false} NatOfDigits(s: string)
    requires AllDigits(s) && s != [] && (s[0] != '0' || |s| == 1)
    ensures NatToDecimal(DigitsValue(s)) == s
    decreases |s|
  {
    var n := DigitsValue(s);
    var init := s[..|s| - 1];
    if |s| == 1 {
    } else {
      NatOfDigits(init);
      var m := DigitsValue(init);
      assert init[0] == s[0];
      assert n / 10 == m && n % 10 == DigitValue(s[|s| - 1]);
      assert s == init + [s[|s| - 1]];
    }
  }

  /** Conversely, the decimal text of an integer key's value is the key string itself. */
  lemma DecimalOfIntegerKey(s: string)
    requires IsIntegerKey(s)
    ensures IntToDecimal(IntegerKeyValue(s)) == s
  {
    if s[0] == '-' {
      NatOfDigits(s[1..]);
      assert s == "-" + s[1..];
    } else {
      NatOfDigits(s);
    }
  }
}
