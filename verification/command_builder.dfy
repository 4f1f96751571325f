/**
  The measurement command the proxy-driven controllers render in PreStartOne
  (the same code appears in three driver files), with the temperature suffix
  they append to the file name.

  PreStartOne assembles a format string from the file name and path, then calls
  str.format(exp, xpp) on it once. Because the name and path are pasted into the
  format string before that call, braces in them are interpreted by it; the
  model therefore includes Python's formatting of the replacement fields the
  template uses.
 */
module CommandBuilder {
  import opened Outcomes
  import opened Text
  import opened PyValues

  // ---------------------------------------------------------------------------
  // str.format with two positional arguments

  function Prepend(p: string, o: Option<string>): Option<string>
  {
    match o
    case None => None
    case Some(s) => Some(p + s)
  }

  /**
    template.format(a0, a1): "{{" and "}}" stand for one brace, "{0}" and "{1}"
    for the arguments; any other use of a brace raises (None).
   */
  function Format(t: string, a0: string, a1: string): (r: Option<string>)
    ensures NoBraces(t) ==> r == Some(t)
    decreases |t|
  {
    if |t| == 0 then Some("")
    else if t[0] == '{' then
      if |t| >= 2 && t[1] == '{' then Prepend("{", Format(t[2..], a0, a1))
      else if |t| >= 3 && t[1] == '0' && t[2] == '}' then Prepend(a0, Format(t[3..], a0, a1))
      else if |t| >= 3 && t[1] == '1' && t[2] == '}' then Prepend(a1, Format(t[3..], a0, a1))
      else None
    else if t[0] == '}' then
      if |t| >= 2 && t[1] == '}' then Prepend("}", Format(t[2..], a0, a1)) else None
    else
      assert [t[0]] + t[1..] == t;
      Prepend([t[0]], Format(t[1..], a0, a1))
  }

  /** Doubles every brace of s. */
  function Escape(s: string): string
    decreases |s|
  {
    if |s| == 0 then ""
    else (if s[0] == '{' then "{{" else if s[0] == '}' then "}}" else [s[0]]) + Escape(s[1..])
  }

  /** Formatting an escaped text gives the text back, whatever the arguments. */
  lemma {:induction false} FormatEscape(s: string, a0: string, a1: string)
    ensures Format(Escape(s), a0, a1) == Some(s)
    decreases |s|
  {
    if |s| > 0 {
      FormatEscape(s[1..], a0, a1);
      var rest := Escape(s[1..]);
      assert [s[0]] + s[1..] == s;
      if s[0] == '{' {
        assert Escape(s) == "{{" + rest;
        FormatOpenBrace(rest, a0, a1);
        assert "{" + s[1..] == s;
      } else if s[0] == '}' {
        assert Escape(s) == "}}" + rest;
        FormatCloseBrace(rest, a0, a1);
        assert "}" + s[1..] == s;
      } else {
        assert Escape(s) == [s[0]] + rest;
        FormatPlainChar(s[0], rest, a0, a1);
      }
    }
  }

  /** Brace-free text passes through str.format unchanged. */
  lemma {:induction false} FormatLiteral(s: string, rest: string, a0: string, a1: string)
    requires NoBraces(s)
    ensures Format(s + rest, a0, a1) == Prepend(s, Format(rest, a0, a1))
    decreases |s|
  {
    if |s| == 0 {
      assert s + rest == rest;
      match Format(rest, a0, a1)
      case None =>
      case Some(x) =>
        assert s + x == x;
    } else {
      var u := s + rest;
      assert u[0] == s[0] && s[0] in s;
      assert u[1..] == s[1..] + rest;
      FormatPlainHead(u, a0, a1);
      assert NoBraces(s[1..]) by {
        assert forall x :: x in s[1..] ==> x in s;
      }
      FormatLiteral(s[1..], rest, a0, a1);
      PrependConcat([s[0]], s[1..], Format(rest, a0, a1));
      assert [s[0]] + s[1..] == s;
    }
  }

  /** Prepending twice is prepending the concatenation. */
  lemma PrependConcat(a: string, b: string, o: Option<string>)
    ensures Prepend(a, Prepend(b, o)) == Prepend(a + b, o)
  {
    if o.Some? {
      assert a + (b + o.value) == (a + b) + o.value;
    }
  }

  /** A text that starts with a character other than a brace formats that character as itself. */
  lemma FormatPlainHead(u: string, a0: string, a1: string)
    requires |u| > 0 && u[0] != '{' && u[0] != '}'
    ensures Format(u, a0, a1) == Prepend([u[0]], Format(u[1..], a0, a1))
  {
  }

  lemma FormatPlainChar(ch: char, rest: string, a0: string, a1: string)
    requires ch != '{' && ch != '}'
    ensures Format([ch] + rest, a0, a1) == Prepend([ch], Format(rest, a0, a1))
  {
    assert ([ch] + rest)[1..] == rest;
    FormatPlainHead([ch] + rest, a0, a1);
  }

  lemma FormatOpenBrace(rest: string, a0: string, a1: string)
    ensures Format("{{" + rest, a0, a1) == Prepend("{", Format(rest, a0, a1))
  {
    assert ("{{" + rest)[2..] == rest;
  }

  lemma FormatCloseBrace(rest: string, a0: string, a1: string)
    ensures Format("}}" + rest, a0, a1) == Prepend("}", Format(rest, a0, a1))
  {
    assert ("}}" + rest)[2..] == rest;
  }

  lemma FormatFirstArg(rest: string, a0: string, a1: string)
    ensures Format("{0}" + rest, a0, a1) == Prepend(a0, Format(rest, a0, a1))
  {
    assert ("{0}" + rest)[3..] == rest;
  }

  lemma FormatSecondArg(rest: string, a0: string, a1: string)
    ensures Format("{1}" + rest, a0, a1) == Prepend(a1, Format(rest, a0, a1))
  {
    assert ("{1}" + rest)[3..] == rest;
  }

  // ---------------------------------------------------------------------------
  // The MeasureSample command

  function NamClause(nam: Option<string>): string
  {
    match nam
    case None => ""
    case Some(n) => ", NAM='" + n + "'"
  }

  function PthClause(pth: Option<string>): string
  {
    match pth
    case None => ""
    case Some(p) => ", PTH='" + p + "'"
  }

  /**
    The format string PreStartOne assembles: the fixed head
    `COMMAND_LINE MeasureSample (0, {{EXP='{0}', XPP='{1}'`, the optional NAM and
    PTH clauses, and the tail `}});`.
   */
  function Template(nam: Option<string>, pth: Option<string>): string
  {
    "COMMAND_LINE MeasureSample (0, " + ("{{" + ("EXP='" + ("{0}" + ("', XPP='" + ("{1}" +
      ("'" + (NamClause(nam) + (PthClause(pth) + ("}}" + ");")))))))))
  }

  /**
    The command the instrument is meant to receive:
    `COMMAND_LINE MeasureSample (0, {EXP='exp', XPP='xpp'[, NAM='nam'][, PTH='pth']});`.
   */
  function MeasureCommand(exp: string, xpp: string, nam: Option<string>, pth: Option<string>): string
  {
    "COMMAND_LINE MeasureSample (0, {EXP='" + exp + "', XPP='" + xpp + "'"
      + NamClause(nam) + PthClause(pth) + "});"
  }

  predicate ArgFree(a: Option<string>)
  {
    a.None? || NoBraces(a.value)
  }

  lemma ClausesBraceFree(nam: Option<string>, pth: Option<string>)
    requires ArgFree(nam) && ArgFree(pth)
    ensures NoBraces(NamClause(nam)) && NoBraces(PthClause(pth))
  {
  }

  lemma HeadBraceFree()
    ensures NoBraces("COMMAND_LINE MeasureSample (0, ")
    ensures NoBraces("EXP='") && NoBraces("', XPP='") && NoBraces("'") && NoBraces(");")
  {
  }

  /** The closing part of the template: the clauses, then `}});`. */
  lemma FormatTemplateTail(nc: string, pc: string, a0: string, a1: string)
    requires NoBraces(nc) && NoBraces(pc)
    ensures Format(nc + (pc + ("}}" + ");")), a0, a1) == Some(nc + (pc + ("}" + ");")))
  {
    HeadBraceFree();
    FormatLiteral(");", "", a0, a1);
    assert ");" + "" == ");";
    FormatCloseBrace(");", a0, a1);
    FormatLiteral(pc, "}}" + ");", a0, a1);
    FormatLiteral(nc, pc + ("}}" + ");"), a0, a1);
  }

  /** The opening part of the template, in front of an already formatted tail. */
  lemma FormatTemplateHead(tail: string, done: string, a0: string, a1: string)
    requires Format(tail, a0, a1) == Some(done)
    ensures Format("COMMAND_LINE MeasureSample (0, " + ("{{" + ("EXP='" + ("{0}" + ("', XPP='"
              + ("{1}" + ("'" + tail)))))), a0, a1)
         == Some("COMMAND_LINE MeasureSample (0, " + ("{" + ("EXP='" + (a0 + ("', XPP='"
              + (a1 + ("'" + done)))))))
  {
    HeadBraceFree();
    var t6 := "'" + tail;
    var t5 := "{1}" + t6;
    var t4 := "', XPP='" + t5;
    var t3 := "{0}" + t4;
    var t2 := "EXP='" + t3;
    var t1 := "{{" + t2;
    FormatLiteral("'", tail, a0, a1);
    FormatSecondArg(t6, a0, a1);
    FormatLiteral("', XPP='", t5, a0, a1);
    FormatFirstArg(t4, a0, a1);
    FormatLiteral("EXP='", t3, a0, a1);
    FormatOpenBrace(t2, a0, a1);
    FormatLiteral("COMMAND_LINE MeasureSample (0, ", t1, a0, a1);
  }

  /**
    With a brace-free name and path, formatting the template yields exactly the
    MeasureSample command, whatever the experiment and experiment path are.
   */
  lemma FormatTemplate(exp: string, xpp: string, nam: Option<string>, pth: Option<string>)
    requires ArgFree(nam) && ArgFree(pth)
    ensures Format(Template(nam, pth), exp, xpp) == Some(MeasureCommand(exp, xpp, nam, pth))
  {
    var nc := NamClause(nam);
    var pc := PthClause(pth);
    ClausesBraceFree(nam, pth);
    FormatTemplateTail(nc, pc, exp, xpp);
    var tail := nc + (pc + ("}}" + ");"));
    var done := nc + (pc + ("}" + ");"));
    FormatTemplateHead(tail, done, exp, xpp);
    MeasureCommandNested(exp, xpp, nc, pc);
  }

  lemma MeasureCommandNested(exp: string, xpp: string, nc: string, pc: string)
    ensures "COMMAND_LINE MeasureSample (0, " + ("{" + ("EXP='" + (exp + ("', XPP='"
              + (xpp + ("'" + (nc + (pc + ("}" + ");")))))))))
         == "COMMAND_LINE MeasureSample (0, {EXP='" + exp + "', XPP='" + xpp + "'" + nc + pc + "});"
  {
  }

  // ---------------------------------------------------------------------------
  // Temperature suffix

  /** The sign `{:+…}` prints. */
  function SignChar(h: int): char
  {
    if h < 0 then '-' else '+'
  }

  function Magnitude(h: int): nat
  {
    if h < 0 then -h else h
  }

  /** The integer part of `{:+07.2f}`: zero padded to three digits, so the field is seven wide. */
  function WholeDigits(h: int): string
  {
    ZeroPad(NatToString(Magnitude(h) / 100), 3)
  }

  /** The two decimals of `{:+07.2f}`. */
  function CentDigits(h: int): string
  {
    [DigitChar(Magnitude(h) % 100 / 10), DigitChar(Magnitude(h) % 10)]
  }

  /** `"{:+07.2f}".format(t)` for a temperature t given in hundredths of a degree. */
  function SignedFixed(h: int): string
  {
    [SignChar(h)] + WholeDigits(h) + "." + CentDigits(h)
  }

  /** `"_Temp{:+07.2f}".format(t).replace('.', '_')`, t in hundredths of a degree. */
  function TempSuffix(h: int): (r: string)
    ensures '.' !in r
    ensures |r| == |"_Temp" + SignedFixed(h)|
  {
    ReplaceChar("_Temp" + SignedFixed(h), '.', '_')
  }

  /** The part of the suffix in front of the decimal point holds no '.' and no brace. */
  lemma SuffixLeadPlain(h: int)
    ensures AllDigits(WholeDigits(h)) && |WholeDigits(h)| >= 3
    ensures '.' !in "_Temp" + [SignChar(h)] + WholeDigits(h)
    ensures NoBraces("_Temp" + [SignChar(h)] + WholeDigits(h))
  {
    ZeroPadValue(NatToString(Magnitude(h) / 100), 3);
    var w := WholeDigits(h);
    var lead := "_Temp" + [SignChar(h)] + w;
    forall k | 0 <= k < |lead|
      ensures lead[k] != '.' && lead[k] != '{' && lead[k] != '}'
    {
      if k >= 6 {
        assert lead[k] == w[k - 6];
      }
    }
  }

  /**
    The suffix is "_Temp", a sign, at least three whole digits, '_' and two
    decimals: at least twelve characters, no '.' and no braces.
   */
  lemma TempSuffixShape(h: int)
    ensures TempSuffix(h) == "_Temp" + [SignChar(h)] + WholeDigits(h) + "_" + CentDigits(h)
    ensures |SignedFixed(h)| >= 7
    ensures |TempSuffix(h)| >= 12
    ensures '.' !in TempSuffix(h)
    ensures NoBraces(TempSuffix(h))
  {
    SuffixLeadPlain(h);
    var lead := "_Temp" + [SignChar(h)] + WholeDigits(h);
    var c := CentDigits(h);
    assert "_Temp" + SignedFixed(h) == lead + ("." + c);
    ReplaceCharConcat(lead, "." + c, '.', '_');
    ReplaceCharAbsent(lead, '.', '_');
    assert ReplaceChar("." + c, '.', '_') == "_" + c;
    var r := TempSuffix(h);
    assert r == lead + ("_" + c);
    assert forall k :: 0 <= k < |lead| ==> r[k] == lead[k];
    assert forall k :: |lead| <= k < |r| ==> r[k] == ("_" + c)[k - |lead|];
  }

  /** Reads a temperature (in hundredths) back out of a suffix. */
  function ParseTempSuffix(s: string): Option<int>
  {
    if |s| >= 5 && s[..5] == "_Temp" then ParseSignedFixed(s[5..]) else None
  }

  /** Reads `±digits_dd` back as hundredths. */
  function ParseSignedFixed(t: string): Option<int>
  {
    if |t| >= 1 && (t[0] == '+' || t[0] == '-') then
      match ParseFixed(t[1..])
      case None => None
      case Some(m) => Some(if t[0] == '-' then -m else m)
    else None
  }

  /** Reads `digits_dd` back as hundredths. */
  function ParseFixed(u: string): Option<int>
  {
    if |u| >= 4 && u[|u| - 3] == '_' && AllDigits(u[..|u| - 3]) && AllDigits(u[|u| - 2..])
    then Some(DigitsValue(u[..|u| - 3]) * 100 + DigitsValue(u[|u| - 2..]))
    else None
  }

  /** Parsing text whose whole part, separator and decimals are known. */
  lemma ParseFixedOf(u: string, w: string, c: string)
    requires |u| >= 4 && u[|u| - 3] == '_' && u[..|u| - 3] == w && u[|u| - 2..] == c
    requires AllDigits(w) && AllDigits(c)
    ensures ParseFixed(u) == Some(DigitsValue(w) * 100 + DigitsValue(c))
  {
  }

  lemma ParseFixedParts(w: string, c: string)
    requires |w| >= 1 && AllDigits(w) && |c| == 2 && AllDigits(c)
    ensures ParseFixed(w + "_" + c) == Some(DigitsValue(w) * 100 + DigitsValue(c))
  {
    var u := w + "_" + c;
    assert |u| >= 4 && u[|u| - 3] == '_' && u[..|u| - 3] == w && u[|u| - 2..] == c by {
      assert u[..|u| - 3] == w;
      assert u[|u| - 2..] == c;
    }
    ParseFixedOf(u, w, c);
  }

  /** s is "_Temp", then the sign character, then u. */
  predicate SuffixLayout(s: string, sign: char, u: string)
  {
    |s| >= 6 && s[..5] == "_Temp" && s[5] == sign && s[6..] == u
  }

  /** Parsing a string whose pieces are known: "_Temp", a sign, and text that ParseFixed reads as m. */
  lemma ParseTempSuffixOf(s: string, sign: char, u: string, m: int)
    requires SuffixLayout(s, sign, u)
    requires sign == '+' || sign == '-'
    requires ParseFixed(u) == Some(m)
    ensures ParseTempSuffix(s) == Some(if sign == '-' then -m else m)
  {
    var t := s[5..];
    assert t[0] == sign;
    assert t[1..] == u;
  }

  /** The pieces of an assembled suffix. */
  lemma SuffixPieces(sign: char, w: string, c: string)
    ensures SuffixLayout("_Temp" + [sign] + w + "_" + c, sign, w + "_" + c)
  {
    var s := "_Temp" + [sign] + w + "_" + c;
    assert s[..5] == "_Temp";
    assert s[6..] == w + "_" + c;
  }

  /** The digits of the suffix carry the magnitude in hundredths. */
  lemma SuffixDigitsValue(h: int)
    ensures AllDigits(WholeDigits(h)) && AllDigits(CentDigits(h))
    ensures |WholeDigits(h)| >= 3
    ensures DigitsValue(WholeDigits(h)) * 100 + DigitsValue(CentDigits(h)) == Magnitude(h)
  {
    ZeroPadValue(NatToString(Magnitude(h) / 100), 3);
    NatToStringValue(Magnitude(h) / 100);
    var c := CentDigits(h);
    assert c[..1] == [c[0]];
    assert DigitsValue([c[0]]) == Magnitude(h) % 100 / 10;
    assert DigitsValue(c) == Magnitude(h) % 100;
  }

  /** The sign character and the magnitude together give back the number. */
  lemma SignMagnitude(h: int)
    ensures SignChar(h) == '+' || SignChar(h) == '-'
    ensures (if SignChar(h) == '-' then -(Magnitude(h) as int) else Magnitude(h) as int) == h
  {
  }

  /** A suffix holding h's sign and digits that carry its magnitude parses back to h. */
  lemma SuffixParsesTo(s: string, h: int, w: string, c: string)
    requires SuffixLayout(s, SignChar(h), w + "_" + c)
    requires |w| >= 1 && AllDigits(w) && |c| == 2 && AllDigits(c)
    requires DigitsValue(w) * 100 + DigitsValue(c) == Magnitude(h)
    ensures ParseTempSuffix(s) == Some(h)
  {
    assert ParseFixed(w + "_" + c) == Some(Magnitude(h)) by {
      ParseFixedParts(w, c);
    }
    SignMagnitude(h);
    ParseTempSuffixOf(s, SignChar(h), w + "_" + c, Magnitude(h));
  }

  /** The suffix encodes the temperature exactly: parsing it back gives the reading. */
  lemma TempSuffixRoundTrip(h: int)
    ensures ParseTempSuffix(TempSuffix(h)) == Some(h)
  {
    TempSuffixShape(h);
    SuffixDigitsValue(h);
    var w, c := WholeDigits(h), CentDigits(h);
    SuffixPieces(SignChar(h), w, c);
    SuffixParsesTo(TempSuffix(h), h, w, c);
  }

  /** Different readings give different file names. */
  lemma TempSuffixInjective(h1: int, h2: int)
    requires TempSuffix(h1) == TempSuffix(h2)
    ensures h1 == h2
  {
    TempSuffixRoundTrip(h1);
    TempSuffixRoundTrip(h2);
  }

  // ---------------------------------------------------------------------------
  // Rendering from the stored parameters

  /** The NAM argument: present iff the stored name is not '', as str(name) plus the suffix. */
  function NamArg(nam: Value, suffix: string): Option<string>
  {
    if nam != Str("") then Some(PyStr(nam) + suffix) else None
  }

  /** The PTH argument: present iff the stored path is not ''. */
  function PthArg(pth: Value): Option<string>
  {
    if pth != Str("") then Some(PyStr(pth)) else None
  }

  /** The format string built from the stored name, path and suffix. */
  function BuildTemplate(nam: Value, pth: Value, suffix: string): string
  {
    Template(NamArg(nam, suffix), PthArg(pth))
  }

  /**
    The command PreStartOne stores: the template formatted with str(exp) and
    str(xpp), or None where str.format raises. With brace-free name, path and
    suffix the rendered command is exactly
    `COMMAND_LINE MeasureSample (0, {EXP='…', XPP='…'[, NAM='…'][, PTH='…']});`
    with EXP and XPP always present, NAM iff the name is not '' and PTH iff the
    path is not ''.
   */
  function Render(exp: Value, xpp: Value, nam: Value, pth: Value, suffix: string): (r: Option<string>)
    ensures NoBraces(PyStr(nam)) && NoBraces(PyStr(pth)) && NoBraces(suffix) ==>
      r == Some(MeasureCommand(PyStr(exp), PyStr(xpp), NamArg(nam, suffix), PthArg(pth)))
  {
    if NoBraces(PyStr(nam)) && NoBraces(PyStr(pth)) && NoBraces(suffix) then
      FormatBuiltTemplate(exp, xpp, nam, pth, suffix);
      Format(BuildTemplate(nam, pth, suffix), PyStr(exp), PyStr(xpp))
    else Format(BuildTemplate(nam, pth, suffix), PyStr(exp), PyStr(xpp))
  }

  /** The template built from brace-free parameters formats to the MeasureSample command. */
  lemma FormatBuiltTemplate(exp: Value, xpp: Value, nam: Value, pth: Value, suffix: string)
    requires NoBraces(PyStr(nam)) && NoBraces(PyStr(pth)) && NoBraces(suffix)
    ensures Format(BuildTemplate(nam, pth, suffix), PyStr(exp), PyStr(xpp))
         == Some(MeasureCommand(PyStr(exp), PyStr(xpp), NamArg(nam, suffix), PthArg(pth)))
  {
    ArgsFree(nam, pth, suffix);
    FormatTemplate(PyStr(exp), PyStr(xpp), NamArg(nam, suffix), PthArg(pth));
  }

  lemma ArgsFree(nam: Value, pth: Value, suffix: string)
    requires NoBraces(PyStr(nam)) && NoBraces(PyStr(pth)) && NoBraces(suffix)
    ensures ArgFree(NamArg(nam, suffix)) && ArgFree(PthArg(pth))
  {
    if nam != Str("") {
      assert NamArg(nam, suffix).value == PyStr(nam) + suffix;
    }
  }

  /** Unset experiment parameters render as Python's None. */
  lemma RenderDefaults()
    ensures Render(NoneV, NoneV, Str(""), Str(""), "")
         == Some("COMMAND_LINE MeasureSample (0, {EXP='None', XPP='None'});")
  {
    assert NoBraces(PyStr(Str(""))) && NoBraces("");
    DefaultCommandText();
  }

  lemma DefaultCommandText()
    ensures MeasureCommand(PyStr(NoneV), PyStr(NoneV), NamArg(Str(""), ""), PthArg(Str("")))
         == "COMMAND_LINE MeasureSample (0, {EXP='None', XPP='None'});"
  {
    assert NamArg(Str(""), "") == None && PthArg(Str("")) == None;
  }

  /** A file name holding "{0}" gets the experiment pasted into it by the final str.format. */
  lemma RenderSubstitutesIntoName(exp: string, xpp: string)
    ensures Render(Str(exp), Str(xpp), Str("{0}"), Str(""), "")
         == Some(MeasureCommand(exp, xpp, Some(exp), None))
  {
    NameTemplateFormats(exp, xpp);
    assert !NoBraces(PyStr(Str("{0}"))) by {
      assert "{0}"[0] == '{';
    }
    assert PyStr(Str(exp)) == exp && PyStr(Str(xpp)) == xpp;
  }

  /** The template built for the name "{0}" formats with "{0}" replaced by the experiment. */
  lemma NameTemplateFormats(exp: string, xpp: string)
    ensures Format(BuildTemplate(Str("{0}"), Str(""), ""), exp, xpp)
         == Some(MeasureCommand(exp, xpp, Some(exp), None))
  {
    var close := "}}" + ");";
    var tail := ", NAM='" + ("{0}" + ("'" + close));
    var done := ", NAM='" + (exp + ("'" + ("}" + ");")));
    var tmpl := "COMMAND_LINE MeasureSample (0, " + ("{{" + ("EXP='" + ("{0}" + ("', XPP='"
                  + ("{1}" + ("'" + tail))))));
    var out := "COMMAND_LINE MeasureSample (0, " + ("{" + ("EXP='" + (exp + ("', XPP='"
                 + (xpp + ("'" + done))))));
    assert BuildTemplate(Str("{0}"), Str(""), "") == tmpl by {
      assert BuildTemplate(Str("{0}"), Str(""), "") == Template(Some("{0}"), None);
      assert NamClause(Some("{0}")) + (PthClause(None) + close) == tail;
    }
    assert Format(tmpl, exp, xpp) == Some(out) by {
      FormatNameTail(exp, xpp);
      FormatTemplateHead(tail, done, exp, xpp);
    }
    assert out == MeasureCommand(exp, xpp, Some(exp), None) by {
      MeasureCommandNested(exp, xpp, NamClause(Some(exp)), "");
      assert NamClause(Some(exp)) + ("" + ("}" + ");")) == done;
    }
  }

  /** The tail of that template: the NAM clause with "{0}" in it, and the closing "}});". */
  lemma FormatNameTail(exp: string, xpp: string)
    ensures Format(", NAM='" + ("{0}" + ("'" + ("}}" + ");"))), exp, xpp)
         == Some(", NAM='" + (exp + ("'" + ("}" + ");"))))
  {
    var close := "}}" + ");";
    FormatLiteral(");", "", exp, xpp);
    assert ");" + "" == ");";
    FormatCloseBrace(");", exp, xpp);
    FormatLiteral("'", close, exp, xpp);
    FormatFirstArg("'" + close, exp, xpp);
    assert NoBraces(", NAM='");
    FormatLiteral(", NAM='", "{0}" + ("'" + close), exp, xpp);
  }

  // ---------------------------------------------------------------------------
  // The suffix decision shared by the three drivers

  /** The temperature suffix is taken for a non-empty name with the flag on and a linkam proxy. */
  predicate SuffixWanted(nam: Value, addTemp: Value, hasLinkam: bool)
  {
    nam != Str("") && Truthy(addTemp) && hasLinkam
  }

  /** The text PreStartOne appends to the name, for a temperature in hundredths of a degree. */
  function NameSuffix(nam: Value, addTemp: Value, hasLinkam: bool, temp: int): string
  {
    if SuffixWanted(nam, addTemp, hasLinkam) then TempSuffix(temp) else ""
  }

  /**
    The suffix is non-empty exactly when it is wanted, never holds a brace, and
    then reads back as the temperature it was made from.
   */
  lemma NameSuffixShape(nam: Value, addTemp: Value, hasLinkam: bool, temp: int)
    ensures NameSuffix(nam, addTemp, hasLinkam, temp) != "" <==> SuffixWanted(nam, addTemp, hasLinkam)
    ensures NoBraces(NameSuffix(nam, addTemp, hasLinkam, temp))
    ensures SuffixWanted(nam, addTemp, hasLinkam) ==>
      ParseTempSuffix(NameSuffix(nam, addTemp, hasLinkam, temp)) == Some(temp)
  {
    if SuffixWanted(nam, addTemp, hasLinkam) {
      TempSuffixShape(temp);
      TempSuffixRoundTrip(temp);
    }
  }

  /** Render's contract in the form the drivers use: the rendering is exact whenever name and path are brace-free. */
  lemma RenderBraceFree(exp: Value, xpp: Value, nam: Value, pth: Value, suffix: string)
    requires NoBraces(suffix)
    ensures NoBraces(PyStr(nam)) && NoBraces(PyStr(pth)) ==>
      Render(exp, xpp, nam, pth, suffix)
      == Some(MeasureCommand(PyStr(exp), PyStr(xpp), NamArg(nam, suffix), PthArg(pth)))
  {
    if NoBraces(PyStr(nam)) && NoBraces(PyStr(pth)) {
      assert Render(exp, xpp, nam, pth, suffix)
          == Some(MeasureCommand(PyStr(exp), PyStr(xpp), NamArg(nam, suffix), PthArg(pth)));
    }
  }
}
