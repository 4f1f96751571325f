/**
  String operations the drivers borrow from Python: ASCII upper/lower casing,
  substring search, str.split on one character, decimal printing and int()
  parsing, str.replace on one character, zero padding and posixpath.join.
 */
module Text {
  import opened Outcomes

  // ---------------------------------------------------------------------------
  // Case

  function UpperChar(c: char): char
  {
    if 'a' <= c <= 'z' then (c as int - 32) as char else c
  }

  function LowerChar(c: char): char
  {
    if 'A' <= c <= 'Z' then (c as int + 32) as char else c
  }

  predicate IsLowerLetter(c: char)
  {
    'a' <= c <= 'z'
  }

  predicate IsUpperLetter(c: char)
  {
    'A' <= c <= 'Z'
  }

  /** str.upper() on ASCII text: letters change case, every other character stays. */
  function Upper(s: string): (r: string)
    ensures |r| == |s|
    ensures forall k :: 0 <= k < |s| ==> r[k] == UpperChar(s[k])
    ensures forall k :: 0 <= k < |r| ==> !IsLowerLetter(r[k])
    ensures forall k :: 0 <= k < |s| && !IsLowerLetter(s[k]) ==> r[k] == s[k]
  {
    seq(|s|, k requires 0 <= k < |s| => UpperChar(s[k]))
  }

  /** str.lower() on ASCII text. */
  function Lower(s: string): (r: string)
    ensures |r| == |s|
    ensures forall k :: 0 <= k < |s| ==> r[k] == LowerChar(s[k])
    ensures forall k :: 0 <= k < |r| ==> !IsUpperLetter(r[k])
    ensures forall k :: 0 <= k < |s| && !IsUpperLetter(s[k]) ==> r[k] == s[k]
  {
    seq(|s|, k requires 0 <= k < |s| => LowerChar(s[k]))
  }

  /** Upper-casing twice is upper-casing once. */
  lemma UpperIdempotent(s: string)
    ensures Upper(Upper(s)) == Upper(s)
  {
    var u := Upper(s);
    forall k | 0 <= k < |u|
      ensures Upper(u)[k] == u[k]
    {
      assert !IsLowerLetter(u[k]);
    }
  }

  /** Lower-casing twice is lower-casing once. */
  lemma LowerIdempotent(s: string)
    ensures Lower(Lower(s)) == Lower(s)
  {
    var l := Lower(s);
    forall k | 0 <= k < |l|
      ensures Lower(l)[k] == l[k]
    {
      assert !IsUpperLetter(l[k]);
    }
  }

  /** Texts equal up to case fold to the same text: lowering forgets an earlier upper-casing, and conversely. */
  lemma CaseFold(s: string)
    ensures Lower(Upper(s)) == Lower(s)
    ensures Upper(Lower(s)) == Upper(s)
  {
    forall k | 0 <= k < |s|
      ensures Lower(Upper(s))[k] == Lower(s)[k] && Upper(Lower(s))[k] == Upper(s)[k]
    {
      var c := s[k];
      if IsLowerLetter(c) {
        assert Upper(s)[k] == (c as int - 32) as char;
      } else if IsUpperLetter(c) {
        assert Lower(s)[k] == (c as int + 32) as char;
      }
    }
  }

  /** `name.lower() == key`: the drivers' case-insensitive parameter lookup. */
  predicate NameIs(name: string, key: string)
  {
    Lower(name) == key
  }

  /** Parameter lookup ignores case: an upper-cased name selects what the name selects. */
  lemma NameIsIgnoresCase(name: string, key: string)
    ensures NameIs(Upper(name), key) <==> NameIs(name, key)
  {
    CaseFold(name);
  }

  /** A lower-case key is matched by itself, so a key set by its own name is found again. */
  lemma LowerKeyMatchesItself(key: string)
    requires Lower(key) == key
    ensures NameIs(key, key)
  {
  }

  /** Upper-casing never creates or removes a line break. */
  lemma UpperKeepsNewlines(s: string, k: int)
    requires 0 <= k < |s|
    ensures Upper(s)[k] == '\n' <==> s[k] == '\n'
  {
  }

  // ---------------------------------------------------------------------------
  // Substrings

  predicate StartsWith(s: string, p: string)
  {
    |p| <= |s| && s[..|p|] == p
  }

  predicate EndsWith(s: string, p: string)
  {
    |p| <= |s| && s[|s| - |p|..] == p
  }

  /** Python's `p in s` for strings. */
  predicate Contains(s: string, p: string)
    decreases |s|
  {
    StartsWith(s, p) || (|s| > 0 && Contains(s[1..], p))
  }

  /** Every character of a pattern found in s occurs in s. */
  lemma {:induction false} ContainsChar(s: string, p: string, k: int)
    requires Contains(s, p)
    requires 0 <= k < |p|
    ensures p[k] in s
    decreases |s|
  {
    if StartsWith(s, p) {
      assert s[k] == p[k];
    } else {
      ContainsChar(s[1..], p, k);
      assert p[k] in s[1..];
      var j :| 0 <= j < |s[1..]| && s[1..][j] == p[k];
      assert s[j + 1] == p[k];
    }
  }

  // ---------------------------------------------------------------------------
  // Splitting on one character

  /** Number of occurrences of c in s. */
  function Count(s: string, c: char): nat
    decreases |s|
  {
    if |s| == 0 then 0 else (if s[0] == c then 1 else 0) + Count(s[1..], c)
  }

  lemma {:induction false} CountPositive(s: string, c: char)
    requires c in s
    ensures Count(s, c) >= 1
    decreases |s|
  {
    if s[0] != c {
      assert c in s[1..];
      CountPositive(s[1..], c);
    }
  }

  /** Python's s.split(sep) for a one-character separator: never an empty list. */
  function Split(s: string, sep: char): (r: seq<string>)
    ensures |r| >= 1
    decreases |s|
  {
    if |s| == 0 then [""]
    else
      var rest := Split(s[1..], sep);
      if s[0] == sep then [""] + rest
      else [[s[0]] + rest[0]] + rest[1..]
  }

  /** sep.join(parts). */
  function Join(parts: seq<string>, sep: char): string
    requires |parts| >= 1
    decreases |parts|
  {
    if |parts| == 1 then parts[0] else parts[0] + [sep] + Join(parts[1..], sep)
  }

  /** Splitting yields one more field than there are separators. */
  lemma {:induction false} SplitFieldCount(s: string, sep: char)
    ensures |Split(s, sep)| == Count(s, sep) + 1
    decreases |s|
  {
    if |s| > 0 {
      SplitFieldCount(s[1..], sep);
    }
  }

  /** No field of a split contains the separator. */
  lemma {:induction false} SplitFieldsFree(s: string, sep: char)
    ensures forall k :: 0 <= k < |Split(s, sep)| ==> sep !in Split(s, sep)[k]
    decreases |s|
  {
    if |s| > 0 {
      SplitFieldsFree(s[1..], sep);
      var rest := Split(s[1..], sep);
      if s[0] != sep {
        assert sep !in rest[0];
        assert sep !in [s[0]] + rest[0];
      }
    }
  }

  /** Joining the fields back with the separator gives the original text. */
  lemma {:induction false} JoinSplit(s: string, sep: char)
    ensures Join(Split(s, sep), sep) == s
    decreases |s|
  {
    if |s| > 0 {
      JoinSplit(s[1..], sep);
      var rest := Split(s[1..], sep);
      if s[0] == sep {
        assert Split(s, sep) == [""] + rest;
        assert ([""] + rest)[1..] == rest;
      } else {
        var parts := [[s[0]] + rest[0]] + rest[1..];
        assert Split(s, sep) == parts;
        if |rest| == 1 {
          assert Join(parts, sep) == [s[0]] + rest[0];
        } else {
          assert parts[1..] == rest[1..];
          assert Join(rest, sep) == rest[0] + [sep] + Join(rest[1..], sep);
        }
      }
    }
  }

  /**
    Whenever "OK\n" occurs in the upper-cased response, the response contains a
    line break, so `response.split('\n')[1]` is defined.
   */
  lemma OkMarkerGivesSecondField(ans: string)
    requires Contains(Upper(ans), "OK\n")
    ensures |Split(ans, '\n')| >= 2
  {
    ContainsChar(Upper(ans), "OK\n", 2);
    var k :| 0 <= k < |Upper(ans)| && Upper(ans)[k] == '\n';
    UpperKeepsNewlines(ans, k);
    CountPositive(ans, '\n');
    SplitFieldCount(ans, '\n');
  }

  // ---------------------------------------------------------------------------
  // Decimal numbers

  predicate IsDigit(c: char)
  {
    '0' <= c <= '9'
  }

  predicate AllDigits(s: string)
  {
    forall k :: 0 <= k < |s| ==> IsDigit(s[k])
  }

  function DigitChar(d: nat): (c: char)
    requires d < 10
    ensures IsDigit(c)
  {
    ('0' as int + d) as char
  }

  /** The value of a string of decimal digits; leading zeros are allowed. */
  function DigitsValue(s: string): nat
    requires AllDigits(s)
    decreases |s|
  {
    if |s| == 0 then 0 else DigitsValue(s[..|s| - 1]) * 10 + (s[|s| - 1] as int - '0' as int)
  }

  /** Decimal rendering of a natural number, as Python's str(). */
  function NatToString(n: nat): (r: string)
    ensures |r| >= 1
    ensures AllDigits(r)
    decreases n
  {
    if n < 10 then [DigitChar(n)] else NatToString(n / 10) + [DigitChar(n % 10)]
  }

  /** Decimal rendering of an integer, with a leading '-' for negatives. */
  function IntToString(i: int): string
  {
    if i < 0 then "-" + NatToString(-i) else NatToString(i)
  }

  /** Reading back a rendered natural number gives the number. */
  lemma {:induction false} NatToStringValue(n: nat)
    ensures DigitsValue(NatToString(n)) == n
    decreases n
  {
    if n >= 10 {
      NatToStringValue(n / 10);
      var s := NatToString(n);
      assert s[..|s| - 1] == NatToString(n / 10);
    }
  }

  /** A leading zero does not change a digit string's value. */
  lemma {:induction false} LeadingZeroValue(s: string)
    requires AllDigits(s)
    ensures AllDigits("0" + s)
    ensures DigitsValue("0" + s) == DigitsValue(s)
    decreases |s|
  {
    var z := "0" + s;
    if |s| > 0 {
      LeadingZeroValue(s[..|s| - 1]);
      assert z[..|z| - 1] == "0" + s[..|s| - 1];
    }
  }

  /** Left-pad a digit string with '0' to at least w characters. */
  function ZeroPad(s: string, w: nat): string
    decreases w - |s|
  {
    if |s| >= w then s else ZeroPad("0" + s, w)
  }

  /** Zero padding reaches the width, keeps the digits and keeps the value. */
  lemma {:induction false} ZeroPadValue(s: string, w: nat)
    requires AllDigits(s)
    ensures |ZeroPad(s, w)| == if |s| >= w then |s| else w
    ensures AllDigits(ZeroPad(s, w))
    ensures DigitsValue(ZeroPad(s, w)) == DigitsValue(s)
    decreases w - |s|
  {
    if |s| < w {
      LeadingZeroValue(s);
      ZeroPadValue("0" + s, w);
    }
  }

  /** The whitespace Python 2's int() strips from both ends. */
  predicate IsSpace(c: char)
  {
    c == ' ' || c == '\t' || c == '\n' || c == '\r' || c as int == 11 || c as int == 12
  }

  function TrimLeft(s: string): string
    decreases |s|
  {
    if |s| > 0 && IsSpace(s[0]) then TrimLeft(s[1..]) else s
  }

  function TrimRight(s: string): string
    decreases |s|
  {
    if |s| > 0 && IsSpace(s[|s| - 1]) then TrimRight(s[..|s| - 1]) else s
  }

  /**
    Python 2's int(s) on a byte string: optional surrounding whitespace, an
    optional sign that may itself be followed by whitespace (the C parser skips
    blanks again after the sign), and at least one decimal digit; anything else
    raises ValueError (None).
   */
  function ParseInt(s: string): (r: Option<int>)
    ensures |s| == 0 ==> r == None
    ensures |s| >= 1 && AllDigits(s) ==> r == Some(DigitsValue(s))
  {
    var t := TrimRight(TrimLeft(s));
    var negative := |t| >= 1 && t[0] == '-';
    var digits := if |t| >= 1 && (t[0] == '-' || t[0] == '+') then TrimLeft(t[1..]) else t;
    if |digits| >= 1 && AllDigits(digits) then
      var v: int := DigitsValue(digits);
      Some(if negative then -v else v)
    else None
  }

  predicate AllSpace(w: string)
  {
    forall k :: 0 <= k < |w| ==> IsSpace(w[k])
  }

  /** Leading whitespace in front of a text that does not start with whitespace is all TrimLeft removes. */
  lemma {:induction false} TrimLeftSpaces(w: string, d: string)
    requires AllSpace(w) && |d| >= 1 && !IsSpace(d[0])
    ensures TrimLeft(w + d) == d
    decreases |w|
  {
    if |w| == 0 {
      assert w + d == d;
    } else {
      assert (w + d)[0] == w[0];
      assert (w + d)[1..] == w[1..] + d;
      TrimLeftSpaces(w[1..], d);
    }
  }

  /** A sign, any whitespace, then digits: int() reads the signed number. */
  lemma ParseIntSignBlank(sign: char, w: string, d: string)
    requires sign == '-' || sign == '+'
    requires AllSpace(w) && |d| >= 1 && AllDigits(d)
    ensures ParseInt([sign] + w + d) == Some(if sign == '-' then -(DigitsValue(d) as int) else DigitsValue(d))
  {
    var s := [sign] + w + d;
    SignedPieces(sign, w, d);
    assert IsDigit(d[0]) && IsDigit(d[|d| - 1]);
    TrimLeftSpaces(w, d);
    ParseIntSigned(s, d);
  }

  /** Where the sign, the blanks and the digits sit in [sign] + w + d. */
  lemma SignedPieces(sign: char, w: string, d: string)
    requires |d| >= 1
    ensures |[sign] + w + d| >= 2
    ensures ([sign] + w + d)[0] == sign
    ensures ([sign] + w + d)[|[sign] + w + d| - 1] == d[|d| - 1]
    ensures ([sign] + w + d)[1..] == w + d
  {
  }

  lemma ParseIntSigned(s: string, d: string)
    requires |s| >= 2 && (s[0] == '-' || s[0] == '+') && !IsSpace(s[|s| - 1])
    requires TrimLeft(s[1..]) == d && |d| >= 1 && AllDigits(d)
    ensures ParseInt(s) == Some(if s[0] == '-' then -(DigitsValue(d) as int) else DigitsValue(d))
  {
    assert TrimLeft(s) == s;
    assert TrimRight(s) == s;
  }

  /** int(str(i)) == i. */
  lemma ParseIntRoundTrip(i: int)
    ensures ParseInt(IntToString(i)) == Some(i)
  {
    var s := IntToString(i);
    var n: nat := if i < 0 then -i else i;
    NatToStringValue(n);
    var d := NatToString(n);
    assert IsDigit(d[|d| - 1]);
    assert s[|s| - 1] == d[|d| - 1];
    assert TrimLeft(s) == s;
    assert TrimRight(s) == s;
    if i < 0 {
      assert s[1..] == d;
    }
  }

  // ---------------------------------------------------------------------------
  // Other string helpers

  /** str.replace(a, b) for single characters. */
  function ReplaceChar(s: string, a: char, b: char): (r: string)
    ensures |r| == |s|
    ensures forall k :: 0 <= k < |s| ==> r[k] == if s[k] == a then b else s[k]
    ensures a != b ==> a !in r
    ensures forall x :: x in r && x != b ==> x in s
  {
    seq(|s|, k requires 0 <= k < |s| => if s[k] == a then b else s[k])
  }

  /** Replacing back undoes a replacement whose new character did not occur. */
  lemma ReplaceCharInverse(s: string, a: char, b: char)
    requires b !in s
    ensures ReplaceChar(ReplaceChar(s, a, b), b, a) == s
  {
    var r := ReplaceChar(s, a, b);
    forall k | 0 <= k < |s|
      ensures ReplaceChar(r, b, a)[k] == s[k]
    {
      assert s[k] != b;
    }
  }

  /** A second identical replacement changes nothing. */
  lemma ReplaceCharIdempotent(s: string, a: char, b: char)
    ensures ReplaceChar(ReplaceChar(s, a, b), a, b) == ReplaceChar(s, a, b)
  {
    var r := ReplaceChar(s, a, b);
    if a != b {
      ReplaceCharAbsent(r, a, b);
    } else {
      assert r == s;
      ReplaceCharSame(s, a);
    }
  }

  /** Replacing a character by itself is the identity. */
  lemma ReplaceCharSame(s: string, a: char)
    ensures ReplaceChar(s, a, a) == s
  {
  }

  /** ReplaceChar distributes over concatenation. */
  lemma ReplaceCharConcat(x: string, y: string, a: char, b: char)
    ensures ReplaceChar(x + y, a, b) == ReplaceChar(x, a, b) + ReplaceChar(y, a, b)
  {
  }

  /** ReplaceChar leaves text without the character untouched. */
  lemma ReplaceCharAbsent(s: string, a: char, b: char)
    requires a !in s
    ensures ReplaceChar(s, a, b) == s
  {
  }

  predicate NoBraces(s: string)
  {
    '{' !in s && '}' !in s
  }

  /** posixpath.join(a, b): an absolute b replaces a; otherwise one '/' separates them. */
  function PathJoin(a: string, b: string): (r: string)
    ensures EndsWith(r, b)
    ensures (|b| == 0 || b[0] != '/') ==> StartsWith(r, a)
    ensures (|b| == 0 || b[0] != '/') && |a| > 0 && a[|a| - 1] != '/' ==> r == a + "/" + b
    ensures (|b| == 0 || b[0] != '/') && (|a| == 0 || a[|a| - 1] == '/') ==> r == a + b
    ensures |b| > 0 && b[0] == '/' ==> r == b
  {
    if |b| > 0 && b[0] == '/' then b
    else if |a| == 0 || a[|a| - 1] == '/' then a + b
    else a + "/" + b
  }
}
