/** The request the main handler builds from its configuration before fetching the status
    document: scheme, optional `Host` header and URL. Configuration values arrive loosely
    typed (a boolean, a number or a string read from a file), so each is a `Setting`. */
module Request {
  import opened Document

  datatype Setting = Flag(b: bool) | Text(s: string) | Number(n: int)

  datatype Config = Config(
    reqHost: string,
    reqPort: Setting,
    reqPath: string,
    reqSsl: Setting,
    reqHostHeader: Option<Setting>)

  datatype HttpRequest = HttpRequest(url: string, headers: map<string, string>)

  predicate IsDigit(c: char) {
    '0' <= c <= '9'
  }

  predicate AllDigits(s: string) {
    forall i | 0 <= i < |s| :: IsDigit(s[i])
  }

  function DigitChar(d: nat): (c: char)
    requires d < 10
    ensures IsDigit(c) && c as int - '0' as int == d
  {
    ('0' as int + d) as char
  }

  /** The decimal digits of a natural number, most significant first, without leading zeros. */
  function DecimalNat(n: nat): (r: string)
    ensures |r| > 0 && AllDigits(r)
    ensures n >= 10 ==> r[0] != '0'
    ensures r[0] == '0' ==> r == "0"
  {
    if n < 10 then [DigitChar(n)] else DecimalNat(n / 10) + [DigitChar(n % 10)]
  }

  /** `%i` and `str()` of an integer: a `-` exactly for a negative number, then the digits
      of its magnitude, with no leading zero unless the number is 0. */
  function Decimal(n: int): (r: string)
    ensures r != [] && (r[0] == '-' <==> n < 0)
    ensures var digits := if n < 0 then r[1..] else r;
            && digits != [] && AllDigits(digits)
            && (digits[0] == '0' ==> digits == "0")
            && DigitsValue(digits) == if n < 0 then -n else n
  {
    var m: nat := if n < 0 then -n else n;
    DigitsOfDecimal(m);
    if n < 0 then
      var r := "-" + DecimalNat(m);
      assert r[1..] == DecimalNat(m);
      r
    else DecimalNat(m)
  }

  /** The value of a string of decimal digits. */
  function DigitsValue(s: string): nat
    requires AllDigits(s)
  {
    if s == [] then 0
    else DigitsValue(s[..|s| - 1]) * 10 + (s[|s| - 1] as int - '0' as int)
  }

  lemma {:induction false} DigitsOfDecimal(n: nat)
    ensures DigitsValue(DecimalNat(n)) == n
  {
    if n >= 10 {
      var r := DecimalNat(n);
      assert r[..|r| - 1] == DecimalNat(n / 10);
      DigitsOfDecimal(n / 10);
    }
  }

  /** Space, tab, line feed, vertical tab, form feed or carriage return. */
  predicate IsSpace(c: char) {
    c == ' ' || '\t' <= c <= '\r'
  }

  predicate Spaces(w: string) {
    forall i | 0 <= i < |w| :: IsSpace(w[i])
  }

  function StripLeft(s: string): (r: string)
    ensures |r| <= |s|
  {
    if s != [] && IsSpace(s[0]) then StripLeft(s[1..]) else s
  }

  /** Stripping on the left keeps a suffix. */
  lemma {:induction false} StripLeftSuffix(s: string)
    ensures StripLeft(s) == s[|s| - |StripLeft(s)|..]
  {
    if s != [] && IsSpace(s[0]) {
      StripLeftSuffix(s[1..]);
    }
  }

  function StripRight(s: string): (r: string)
    ensures |r| <= |s| && r == s[..|r|]
  {
    if s != [] && IsSpace(s[|s| - 1]) then StripRight(s[..|s| - 1]) else s
  }

  /** `int(s)` on a string in Python 2: surrounding whitespace, an optional sign, more
      whitespace after the sign, then decimal digits; anything else raises `ValueError`
      (None). Only text holding a digit can be read. */
  function ParseInt(s: string): (r: Option<int>)
    ensures r.Some? ==> exists i | 0 <= i < |s| :: IsDigit(s[i])
  {
    var l := StripLeft(s);
    var t := StripRight(l);
    var r := ParseTrimmed(t);
    StripLeftSuffix(s);
    assert r.Some? ==> IsDigit(s[|s| - |l| + |t| - 1]) by {
      assert forall i | 0 <= i < |t| :: t[i] == s[|s| - |l| + i];
    }
    r
  }

  /** `int()` once the surrounding whitespace is gone. The last character of anything it
      reads is a digit. */
  function ParseTrimmed(t: string): (r: Option<int>)
    ensures r.Some? ==> t != [] && IsDigit(t[|t| - 1])
  {
    if t != [] && (t[0] == '-' || t[0] == '+') then
      var digits := StripLeft(t[1..]);
      if digits != [] && AllDigits(digits) then
        StripLeftSuffix(t[1..]);
        var v: int := DigitsValue(digits);
        Some(if t[0] == '-' then -v else v)
      else None
    else if t != [] && AllDigits(t) then Some(DigitsValue(t))
    else None
  }

  /** What `int()` accepts in a string: whitespace, an optional sign, whitespace, one or more
      decimal digits, whitespace; `n` is the value of the digits, negated after a `-`. */
  ghost predicate Numeral(s: string, n: int) {
    exists lead: string, sign: string, gap: string, d: string, trail: string ::
      && s == lead + sign + gap + d + trail
      && Spaces(lead) && Spaces(gap) && Spaces(trail)
      && (sign == "" || sign == "-" || sign == "+")
      && d != [] && AllDigits(d)
      && n == (if sign == "-" then -(DigitsValue(d) as int) else DigitsValue(d))
  }

  /** Stripping on the left removes a run of whitespace `w` and stops at a non-space. */
  lemma {:induction false} StripLeftSplit(s: string) returns (w: string)
    ensures s == w + StripLeft(s) && Spaces(w)
    ensures StripLeft(s) != [] ==> !IsSpace(StripLeft(s)[0])
  {
    if s != [] && IsSpace(s[0]) {
      var q := s[1..];
      var v := StripLeftSplit(q);
      w := [s[0]] + v;
      assert s == [s[0]] + q;
      assert Spaces(w) by {
        forall i | 0 <= i < |w|
          ensures IsSpace(w[i])
        {
          if i > 0 {
            assert w[i] == v[i - 1];
          }
        }
      }
    } else {
      w := [];
    }
  }

  /** Stripping on the right removes a run of whitespace and stops at a non-space. */
  lemma {:induction false} StripRightSplit(s: string)
    ensures var t := StripRight(s);
            s == t + s[|t|..] && Spaces(s[|t|..]) && (t != [] ==> !IsSpace(t[|t| - 1]))
  {
    if s != [] && IsSpace(s[|s| - 1]) {
      var p := s[..|s| - 1];
      StripRightSplit(p);
      var t := StripRight(p);
      assert StripRight(s) == t;
      assert p == t + p[|t|..];
      assert s[|t|..] == p[|t|..] + [s[|s| - 1]];
      assert s == t + s[|t|..] by {
        assert s == p + [s[|s| - 1]];
      }
      forall i | 0 <= i < |s[|t|..]|
        ensures IsSpace(s[|t|..][i])
      {
        if i < |p| - |t| {
          assert s[|t|..][i] == p[|t|..][i];
        }
      }
    } else {
      assert s[|s|..] == [];
    }
  }

  /** Whitespace after text that does not end with whitespace is stripped. */
  lemma {:induction false} StripRightSpaces(x: string, spaces: string)
    requires Spaces(spaces)
    requires x != [] && !IsSpace(x[|x| - 1])
    ensures StripRight(x + spaces) == x
  {
    if spaces == [] {
      assert x + spaces == x;
    } else {
      var s := x + spaces;
      assert s[..|s| - 1] == x + spaces[..|spaces| - 1];
      StripRightSpaces(x, spaces[..|spaces| - 1]);
    }
  }

  /** Whitespace around text that neither starts nor ends with whitespace is stripped
      before the text is read. */
  lemma TrimmedNumeral(lead: string, x: string, trail: string)
    requires Spaces(lead) && Spaces(trail)
    requires x != [] && !IsSpace(x[0]) && !IsSpace(x[|x| - 1])
    ensures ParseInt(lead + x + trail) == ParseTrimmed(x)
  {
    assert lead + x + trail == lead + (x + trail);
    StripLeftSpaces(lead, x + trail);
    StripRightSpaces(x, trail);
  }

  /** A sign, whitespace, then digits. */
  lemma SignedTrimmed(sign: string, gap: string, d: string)
    requires sign == "-" || sign == "+"
    requires Spaces(gap) && d != [] && AllDigits(d)
    ensures ParseTrimmed(sign + gap + d) ==
              Some(if sign == "-" then -(DigitsValue(d) as int) else DigitsValue(d))
  {
    var x := sign + gap + d;
    assert x[0] == sign[0];
    assert x[1..] == gap + d;
    StripLeftSpaces(gap, d);
  }

  /** Every numeral is read as its value. */
  lemma NumeralParses(lead: string, sign: string, gap: string, d: string, trail: string)
    requires Spaces(lead) && Spaces(gap) && Spaces(trail)
    requires sign == "" || sign == "-" || sign == "+"
    requires d != [] && AllDigits(d)
    ensures ParseInt(lead + sign + gap + d + trail) ==
              Some(if sign == "-" then -(DigitsValue(d) as int) else DigitsValue(d))
  {
    if sign == "" {
      assert lead + sign + gap + d + trail == (lead + gap) + d + trail;
      assert Spaces(lead + gap) by {
        assert forall i | |lead| <= i < |lead + gap| :: (lead + gap)[i] == gap[i - |lead|];
      }
      TrimmedNumeral(lead + gap, d, trail);
    } else {
      var x := sign + gap + d;
      assert lead + sign + gap + d + trail == lead + x + trail;
      assert x[0] == sign[0] && x[|x| - 1] == d[|d| - 1];
      TrimmedNumeral(lead, x, trail);
      SignedTrimmed(sign, gap, d);
    }
  }

  /** A string is its leading whitespace, its trimmed text, then its trailing whitespace. */
  lemma TrimSplit(s: string) returns (lead: string, trail: string)
    ensures s == lead + StripRight(StripLeft(s)) + trail
    ensures Spaces(lead) && Spaces(trail)
  {
    var l := StripLeft(s);
    lead := StripLeftSplit(s);
    var t := StripRight(l);
    StripRightSplit(l);
    trail := l[|t|..];
  }

  /** Signed trimmed text that `int()` reads is its sign, whitespace, then digits. */
  lemma SignedSplit(t: string) returns (gap: string, d: string)
    requires t != [] && (t[0] == '-' || t[0] == '+') && ParseTrimmed(t).Some?
    ensures t == t[..1] + gap + d
    ensures Spaces(gap) && d != [] && AllDigits(d)
    ensures ParseTrimmed(t) == Some(if t[0] == '-' then -(DigitsValue(d) as int) else DigitsValue(d))
  {
    var rest := t[1..];
    d := StripLeft(rest);
    gap := StripLeftSplit(rest);
    assert t == t[..1] + rest;
  }

  /** Trimmed text that `int()` reads is an optional sign, whitespace, then digits. */
  lemma TrimmedSplit(t: string) returns (sign: string, gap: string, d: string)
    requires ParseTrimmed(t).Some?
    ensures t == sign + gap + d
    ensures (sign == "" || sign == "-" || sign == "+") && Spaces(gap) && d != [] && AllDigits(d)
    ensures ParseTrimmed(t) == Some(if sign == "-" then -(DigitsValue(d) as int) else DigitsValue(d))
  {
    if t[0] == '-' || t[0] == '+' {
      sign := t[..1];
      gap, d := SignedSplit(t);
      assert sign == "-" <==> t[0] == '-';
    } else {
      assert t != [] && AllDigits(t);
      sign, gap, d := "", "", t;
      assert sign + gap + d == t;
    }
  }

  lemma NumeralIntro(lead: string, sign: string, gap: string, d: string, trail: string)
    requires Spaces(lead) && Spaces(gap) && Spaces(trail)
    requires sign == "" || sign == "-" || sign == "+"
    requires d != [] && AllDigits(d)
    ensures Numeral(lead + sign + gap + d + trail,
                    if sign == "-" then -(DigitsValue(d) as int) else DigitsValue(d))
  {
  }

  /** `int()` reads the text between the surrounding whitespace. */
  lemma ParseIntTrims(s: string)
    ensures ParseInt(s) == ParseTrimmed(StripRight(StripLeft(s)))
  {
  }

  /** Whatever `int()` reads splits into the pieces of a numeral for the value it reads. */
  lemma ParsedPieces(s: string) returns (lead: string, sign: string, gap: string, d: string, trail: string)
    requires ParseInt(s).Some?
    ensures s == lead + sign + gap + d + trail
    ensures Spaces(lead) && Spaces(gap) && Spaces(trail)
    ensures (sign == "" || sign == "-" || sign == "+") && d != [] && AllDigits(d)
    ensures ParseInt(s) == Some(if sign == "-" then -(DigitsValue(d) as int) else DigitsValue(d))
  {
    var t := StripRight(StripLeft(s));
    lead, trail := TrimSplit(s);
    ParseIntTrims(s);
    sign, gap, d := TrimmedSplit(t);
    Regroup(lead, sign, gap, d, trail);
  }

  /** The pieces regrouped; kept apart because the same equation asserted inside
      `ParsedPieces` makes that proof several times dearer. */
  lemma Regroup(lead: string, sign: string, gap: string, d: string, trail: string)
    ensures lead + (sign + gap + d) + trail == lead + sign + gap + d + trail
  {
    assert lead + (sign + gap + d) == lead + sign + gap + d;
  }

  /** Whatever `int()` reads is a numeral. */
  lemma ParsedIsNumeral(s: string)
    requires ParseInt(s).Some?
    ensures Numeral(s, ParseInt(s).value)
  {
    var lead, sign, gap, d, trail := ParsedPieces(s);
    NumeralIntro(lead, sign, gap, d, trail);
  }

  /** Every numeral is read as its value. */
  lemma NumeralIsParsed(s: string, n: int)
    requires Numeral(s, n)
    ensures ParseInt(s) == Some(n)
  {
    var lead: string, sign: string, gap: string, d: string, trail: string :|
      && s == lead + sign + gap + d + trail
      && Spaces(lead) && Spaces(gap) && Spaces(trail)
      && (sign == "" || sign == "-" || sign == "+")
      && d != [] && AllDigits(d)
      && n == (if sign == "-" then -(DigitsValue(d) as int) else DigitsValue(d));
    NumeralParses(lead, sign, gap, d, trail);
  }

  /** `int()` of a string succeeds with n exactly when the string is a numeral for n: in
      particular, text such as `80abc` or `8 0` raises. */
  lemma ParseIntNumeral(s: string, n: int)
    ensures ParseInt(s) == Some(n) <==> Numeral(s, n)
  {
    if ParseInt(s).Some? {
      ParsedIsNumeral(s);
    }
    if Numeral(s, n) {
      NumeralIsParsed(s, n);
    }
  }

  /** The values `int()` reads from a string are exactly those it is a numeral for. */
  lemma NumeralsParse(s: string)
    ensures forall n :: ParseInt(s) == Some(n) <==> Numeral(s, n)
  {
    forall n
      ensures ParseInt(s) == Some(n) <==> Numeral(s, n)
    {
      ParseIntNumeral(s, n);
    }
  }

  /** Text that neither starts nor ends with whitespace is not trimmed. */
  lemma Untrimmed(s: string)
    requires s != [] && !IsSpace(s[0]) && !IsSpace(s[|s| - 1])
    ensures StripRight(StripLeft(s)) == s
  {
  }

  /** Whitespace in front of text that does not start with whitespace is skipped. */
  lemma {:induction false} StripLeftSpaces(spaces: string, x: string)
    requires Spaces(spaces)
    requires x != [] && !IsSpace(x[0])
    ensures StripLeft(spaces + x) == x
  {
    if spaces == [] {
      assert spaces + x == x;
    } else {
      assert (spaces + x)[1..] == spaces[1..] + x;
      StripLeftSpaces(spaces[1..], x);
    }
  }

  /** A sign, whitespace, then digits. */
  lemma SignedDigits(sign: char, spaces: string, d: string)
    requires sign == '-' || sign == '+'
    requires Spaces(spaces)
    requires d != [] && AllDigits(d)
    ensures ParseInt([sign] + spaces + d) ==
              Some(if sign == '-' then -(DigitsValue(d) as int) else DigitsValue(d))
  {
    var t := [sign] + spaces + d;
    assert t[1..] == spaces + d;
    assert t[|t| - 1] == d[|d| - 1];
    Untrimmed(t);
    StripLeftSpaces(spaces, d);
    assert StripLeft(t[1..]) == d;
    assert ParseTrimmed(t) == Some(if sign == '-' then -(DigitsValue(d) as int) else DigitsValue(d));
  }

  /** Whitespace between the sign and the digits is allowed: `int('-  80')` is -80. */
  lemma SignThenSpaces(sign: char, spaces: string, n: nat)
    requires sign == '-' || sign == '+'
    requires Spaces(spaces)
    ensures ParseInt([sign] + spaces + DecimalNat(n)) == Some(if sign == '-' then -(n as int) else n)
  {
    DigitsOfDecimal(n);
    SignedDigits(sign, spaces, DecimalNat(n));
  }

  /** Plain digits read back as their value. */
  lemma ParseDecimalNat(n: nat)
    ensures ParseInt(DecimalNat(n)) == Some(n)
  {
    var d := DecimalNat(n);
    DigitsOfDecimal(n);
    Untrimmed(d);
    assert ParseTrimmed(d) == Some(DigitsValue(d));
  }

  /** What `%i` prints, `int()` reads back. */
  lemma ParseDecimal(n: int)
    ensures ParseInt(Decimal(n)) == Some(n)
  {
    if n < 0 {
      SignThenSpaces('-', [], -n);
      assert Decimal(n) == ['-'] + [] + DecimalNat(-n);
    } else {
      ParseDecimalNat(n);
    }
  }

  /** `int(v)`: booleans are 0 and 1, numbers pass, strings are parsed; only a string that
      is not a numeral raises. */
  function PyInt(v: Setting): (r: Option<int>)
    ensures r.None? ==> v.Text?
    ensures v.Flag? ==> r == Some(if v.b then 1 else 0)
    ensures v.Number? ==> r == Some(v.n)
    ensures v.Text? ==> forall n :: r == Some(n) <==> Numeral(v.s, n)
  {
    match v
    case Flag(b) => Some(if b then 1 else 0)
    case Number(n) => Some(n)
    case Text(s) => NumeralsParse(s); ParseInt(s)
  }

  /** `str(v)`: a string is itself, a boolean is `True` or `False`, and a number is its
      decimal text, which `int()` reads back as that number. */
  function PyStr(v: Setting): (r: string)
    ensures v.Text? ==> r == v.s
    ensures v.Flag? ==> r == (if v.b then "True" else "False")
    ensures v.Number? ==> r == Decimal(v.n) && ParseInt(r) == Some(v.n)
  {
    match v
    case Flag(b) => if b then "True" else "False"
    case Number(n) => ParseDecimal(n); Decimal(n)
    case Text(s) => s
  }

  function LowerChar(c: char): char {
    if 'A' <= c <= 'Z' then (c as int - 'A' as int + 'a' as int) as char else c
  }

  /** `str.lower()` on ASCII text. */
  function Lower(s: string): (r: string)
    ensures |r| == |s| && forall i | 0 <= i < |s| :: r[i] == LowerChar(s[i])
  {
    if s == [] then [] else [LowerChar(s[0])] + Lower(s[1..])
  }

  /** `https` exactly when `str(req_ssl).lower() == 'true'`. */
  function Scheme(ssl: Setting): (r: string)
    ensures r == "https" || r == "http"
  {
    if Lower(PyStr(ssl)) == "true" then "https" else "http"
  }

  /** A boolean setting selects https exactly when it is true; a number never does. */
  lemma SchemeOfFlagOrNumber(b: bool, n: int)
    ensures Scheme(Flag(b)) == (if b then "https" else "http")
    ensures Scheme(Number(n)) == "http"
  {
    var t := Lower(PyStr(Flag(true)));
    assert t == "true" by {
      assert forall i | 0 <= i < 4 :: t[i] == "true"[i];
    }
    var f := Lower(PyStr(Flag(false)));
    assert f != "true" by { assert |f| == 5; }
    var d := Lower(Decimal(n));
    assert |d| > 0 && d[0] != 't';
  }

  /** A string setting selects https exactly when it spells `true` in any mix of cases. */
  lemma SchemeOfText(s: string)
    ensures Scheme(Text(s)) == "https" <==>
              |s| == 4 && s[0] in "tT" && s[1] in "rR" && s[2] in "uU" && s[3] in "eE"
  {
    var l := Lower(s);
    if |s| == 4 && s[0] in "tT" && s[1] in "rR" && s[2] in "uU" && s[3] in "eE" {
      assert l == "true" by {
        assert forall i | 0 <= i < 4 :: l[i] == "true"[i];
      }
    }
    if l == "true" {
      assert LowerChar(s[0]) == 't' && LowerChar(s[1]) == 'r';
      assert LowerChar(s[2]) == 'u' && LowerChar(s[3]) == 'e';
    }
  }

  /** A `Host` header only when one is configured. */
  function Headers(c: Config): (r: map<string, string>)
    ensures r.Keys <= {"Host"}
    ensures "Host" in r <==> c.reqHostHeader.Some?
    ensures "Host" in r ==> r["Host"] == PyStr(c.reqHostHeader.value)
  {
    match c.reqHostHeader
    case Some(h) => map["Host" := PyStr(h)]
    case None => map[]
  }

  /** `'%s://%s:%i%s' % (scheme, req_host, int(req_port), req_path)`, or None when `int()`
      raises on the port. */
  function BuildRequest(c: Config): (r: Option<HttpRequest>)
    ensures r.Some? <==> PyInt(c.reqPort).Some?
    ensures r.Some? ==> r.value.headers == Headers(c)
    ensures r.Some? ==>
              var u, head := r.value.url, Scheme(c.reqSsl) + "://" + c.reqHost + ":";
              && |head| + |c.reqPath| <= |u|
              && u[..|head|] == head
              && u[|u| - |c.reqPath|..] == c.reqPath
              && u[|head|..|u| - |c.reqPath|] == Decimal(PyInt(c.reqPort).value)
              && ParseInt(u[|head|..|u| - |c.reqPath|]) == PyInt(c.reqPort)
  {
    match PyInt(c.reqPort)
    case None => None
    case Some(port) =>
      var head := Scheme(c.reqSsl) + "://" + c.reqHost + ":";
      var u := head + Decimal(port) + c.reqPath;
      assert u[|head|..|u| - |c.reqPath|] == Decimal(port);
      ParseDecimal(port);
      Some(HttpRequest(u, Headers(c)))
  }

  /** A port written as the text of a number gives the same request as the number itself. */
  lemma PortTextSameAsNumber(c: Config, n: int)
    ensures BuildRequest(c.(reqPort := Text(Decimal(n)))) == BuildRequest(c.(reqPort := Number(n)))
    ensures BuildRequest(c.(reqPort := Number(n))).Some?
  {
    ParseDecimal(n);
  }

  /** A port setting with no decimal digit in it stops the request from being built. */
  lemma PortWithoutDigitsRaises(c: Config, s: string)
    requires forall i | 0 <= i < |s| :: !IsDigit(s[i])
    ensures BuildRequest(c.(reqPort := Text(s))).None?
  {
  }
}
