/**
 * Reading the OpenGL version string of `src/gl_version.rs`: the string
 * `glGetString(GL_VERSION)` returns (section 22.2 of the OpenGL 4.6 core
 * profile specification: "<major>.<minor>[.<release>] [vendor text]",
 * prefixed with "OpenGL ES-CM " or "OpenGL ES-CL " on OpenGL ES 1.x, and
 * with "OpenGL ES " on later ES versions) becomes the API and the major
 * and minor version numbers, or `Unavailable` with the string itself.
 */
module GlVersion {
  import opened Wrappers

  /** A `u8`. */
  type U8 = x: int | 0 <= x < 256

  datatype Api = Desktop | ES

  datatype Version =
    | Available(api: Api, major: U8, minor: U8)
    | Unavailable(versionString: string)

  const EsPrefix: string := "OpenGL ES-"

  predicate StartsWith(s: string, p: string)
  {
    |p| <= |s| && s[..|p|] == p
  }

  /** `char::is_digit(10)`: the ASCII digits only. */
  predicate IsDigit(c: char)
  {
    '0' <= c <= '9'
  }

  function DigitValue(c: char): nat
    requires IsDigit(c)
  {
    c as int - '0' as int
  }

  predicate AllDigits(s: string)
  {
    forall i :: 0 <= i < |s| ==> IsDigit(s[i])
  }

  /** The number a run of decimal digits spells, most significant first. */
  function DecimalValue(s: string): nat
    requires AllDigits(s)
  {
    if |s| == 0 then 0 else DecimalValue(s[..|s| - 1]) * 10 + DigitValue(s[|s| - 1])
  }

  /** `u8::from_str_radix(s, 10)`: an optional '+' and then at least one
      digit, spelling a number below 256. */
  function ParseU8(s: string): (r: Option<U8>)
    ensures r.Some? ==> |s| > 0
    ensures r.Some? && s[0] != '+' ==> AllDigits(s) && r.value == DecimalValue(s)
  {
    var digits := if |s| > 1 && s[0] == '+' then s[1..] else s;
    if |digits| == 0 || !AllDigits(digits) then None
    else
      var v := DecimalValue(digits);
      if v < 256 then Some(v) else None
  }

  /** The index of the first `c` in `s`, or `|s|` when there is none. */
  function IndexOf(s: string, c: char): (i: nat)
    ensures i <= |s| && (i < |s| ==> s[i] == c)
    ensures forall k :: 0 <= k < i ==> s[k] != c
  {
    if |s| == 0 || s[0] == c then 0 else 1 + IndexOf(s[1..], c)
  }

  /** The length of the leading run of digits of `s`: where
      `find(|c| !c.is_digit(10))` stops, or the whole string. */
  function DigitRun(s: string): (n: nat)
    ensures n <= |s| && AllDigits(s[..n])
    ensures n < |s| ==> !IsDigit(s[n])
  {
    if |s| == 0 || !IsDigit(s[0]) then 0
    else
      var n := 1 + DigitRun(s[1..]);
      assert forall i :: 1 <= i < n ==> s[..n][i] == s[1..][..n - 1][i - 1];
      n
  }

  /** The numbers of `parse_version`, read from the text after any ES
      prefix: the major version is everything before the first '.', and the
      minor version is the run of digits after it, up to the next '.' or the
      first other character. */
  function ReadNumbers(body: string): (r: Option<(U8, U8)>)
    ensures r.Some? ==> IndexOf(body, '.') < |body|
    ensures r.Some? ==> ParseU8(body[..IndexOf(body, '.')]) == Some(r.value.0)
  {
    var dot := IndexOf(body, '.');
    var major := ParseU8(body[..dot]);
    if major.None? || dot == |body| then None
    else
      var minor := ReadMinor(body[dot + 1..]);
      if minor.None? then None else Some((major.value, minor.value))
  }

  /** The minor version, from the text after the first '.'. */
  function ReadMinor(afterDot: string): Option<U8>
  {
    var segment := afterDot[..IndexOf(afterDot, '.')];
    ParseU8(segment[..DigitRun(segment)])
  }

  /** `parse_version`: `(es, major, minor)`, or `None` when the string
      cannot be read. An ES string must be at least 16 characters long and
      its numbers are read from its 14th character on. */
  function ParseVersion(s: string): (r: Option<(bool, U8, U8)>)
    ensures StartsWith(s, EsPrefix) && |s| < 16 ==> r.None?
    ensures r.Some? ==> r.value.0 == StartsWith(s, EsPrefix)
    ensures r.Some? ==> exists i :: 0 <= i < |s| && s[i] == '.'
  {
    var es := StartsWith(s, EsPrefix);
    if es && |s| < 16 then None
    else
      var body := if es then s[13..] else s;
      match ReadNumbers(body)
      case None => None
      case Some((major, minor)) =>
        assert body[IndexOf(body, '.')] == '.';
        assert es ==> s[13 + IndexOf(body, '.')] == '.';
        Some((es, major, minor))
  }

  /** `get_version`, with the string the driver reports as input. */
  function GetVersion(versionString: string): (v: Version)
    ensures v.Unavailable? <==> ParseVersion(versionString).None?
    ensures v.Unavailable? ==> v.versionString == versionString
    ensures v.Available? ==> (v.api == ES <==> StartsWith(versionString, EsPrefix))
    ensures v.Available? ==> (v.major, v.minor) == (ParseVersion(versionString).value.1, ParseVersion(versionString).value.2)
  {
    match ParseVersion(versionString)
    case None => Unavailable(versionString)
    case Some((es, major, minor)) => Available(if es then ES else Desktop, major, minor)
  }

  // ---------------------------------------------------------------------
  // Writing numbers, to read them back

  function DigitChar(d: nat): (c: char)
    requires d < 10
    ensures IsDigit(c) && DigitValue(c) == d
  {
    ('0' as int + d) as char
  }

  /** The decimal spelling of `n`, without leading zeros. */
  function Decimal(n: nat): (s: string)
    ensures |s| > 0 && AllDigits(s) && IsDigit(s[0])
    decreases n
  {
    if n < 10 then [DigitChar(n)]
    else
      var s := Decimal(n / 10) + [DigitChar(n % 10)];
      assert forall i :: 0 <= i < |s| - 1 ==> s[i] == Decimal(n / 10)[i];
      s
  }

  /** Reading a spelled number gives the number back. */
  lemma {:induction false} DecimalRoundTrip(n: nat)
    ensures DecimalValue(Decimal(n)) == n
    decreases n
  {
    if n >= 10 {
      var s := Decimal(n);
      assert s[..|s| - 1] == Decimal(n / 10);
      DecimalRoundTrip(n / 10);
    }
  }

  /** `u8::from_str_radix` reads back every `u8` it is given in decimal. */
  lemma ParseU8RoundTrip(n: U8)
    ensures ParseU8(Decimal(n)) == Some(n)
  {
    DecimalRoundTrip(n);
  }

  /** A desktop version string "<major>.<minor>" followed by anything that
      does not start with a digit reads back as that version. */
  lemma DesktopRoundTrip(major: U8, minor: U8, tail: string)
    requires |tail| == 0 || !IsDigit(tail[0])
    ensures ParseVersion(Decimal(major) + "." + Decimal(minor) + tail) == Some((false, major, minor))
  {
    var s := Decimal(major) + "." + Decimal(minor) + tail;
    assert s[0] == Decimal(major)[0];
    assert !StartsWith(s, EsPrefix) by {
      assert |s| < |EsPrefix| || s[..|EsPrefix|][0] == s[0];
    }
    ReadsBack(major, minor, tail);
  }

  /** An ES version string: "OpenGL ES-", a three-character profile such as
      "CM ", then "<major>.<minor>" and anything that does not start with a
      digit, reads back as that ES version. */
  lemma EsRoundTrip(profile: string, major: U8, minor: U8, tail: string)
    requires |profile| == 3
    requires |tail| == 0 || !IsDigit(tail[0])
    ensures ParseVersion(EsPrefix + profile + Decimal(major) + "." + Decimal(minor) + tail) == Some((true, major, minor))
  {
    var body := Decimal(major) + "." + Decimal(minor) + tail;
    var s := EsPrefix + profile + Decimal(major) + "." + Decimal(minor) + tail;
    Regroup(Decimal(major), ".", Decimal(minor));
    Regroup(Decimal(major), "." + Decimal(minor), tail);
    Regroup(EsPrefix + profile, Decimal(major), "." + Decimal(minor) + tail);
    Regroup(EsPrefix, profile, body);
    assert s == EsPrefix + (profile + body);
    assert s[..|EsPrefix|] == EsPrefix;
    assert s[13..] == body;
    ReadsBack(major, minor, tail);
  }

  /** The common part of the two round trips: the numbers after the prefix. */
  lemma ReadsBack(major: U8, minor: U8, tail: string)
    requires |tail| == 0 || !IsDigit(tail[0])
    ensures ReadNumbers(Decimal(major) + "." + Decimal(minor) + tail) == Some((major, minor))
  {
    var a, b := Decimal(major), Decimal(minor);
    Regroup(a, "." + b, tail);
    Regroup(a, ".", b);
    var rest := "." + b + tail;
    AfterDot(b, tail);
    MajorReadsBack(major, rest);
    MinorReadsBack(minor, tail);
    ReadNumbersAt(a + rest, |a|, major, minor);
  }

  /** `ReadNumbers` once the '.' and the two numbers are found. */
  lemma ReadNumbersAt(body: string, dot: nat, major: U8, minor: U8)
    requires dot < |body| && IndexOf(body, '.') == dot
    requires ParseU8(body[..dot]) == Some(major) && ReadMinor(body[dot + 1..]) == Some(minor)
    ensures ReadNumbers(body) == Some((major, minor))
  {
  }

  lemma AfterDot(b: string, tail: string)
    ensures ("." + b + tail)[1..] == b + tail
  {
  }

  lemma Regroup(x: string, y: string, z: string)
    ensures x + y + z == x + (y + z)
  {
  }

  /** The major version: the spelled number before the first '.'. */
  lemma MajorReadsBack(major: U8, rest: string)
    requires |rest| > 0 && rest[0] == '.'
    ensures var body := Decimal(major) + rest;
      IndexOf(body, '.') == |Decimal(major)| && ParseU8(body[..|Decimal(major)|]) == Some(major)
      && body[|Decimal(major)| + 1..] == rest[1..]
  {
    var a := Decimal(major);
    IndexPastDigits(a, rest, '.');
    assert (a + rest)[..|a|] == a;
    ParseU8RoundTrip(major);
  }

  /** The minor version: the spelled number, up to a non-digit. */
  lemma MinorReadsBack(minor: U8, tail: string)
    requires |tail| == 0 || !IsDigit(tail[0])
    ensures ReadMinor(Decimal(minor) + tail) == Some(minor)
  {
    var b := Decimal(minor);
    var afterDot := b + tail;
    IndexPastDigits(b, tail, '.');
    var j := IndexOf(afterDot, '.');
    var segment := afterDot[..j];
    assert segment == b + tail[..j - |b|];
    RunOfDigits(b, tail[..j - |b|]);
    assert segment[..|b|] == b;
    ParseU8RoundTrip(minor);
  }

  /** A run of digits holds no '.', so the search goes past it. */
  lemma {:induction false} IndexPastDigits(d: string, rest: string, c: char)
    requires AllDigits(d) && !IsDigit(c)
    ensures IndexOf(d + rest, c) == |d| + IndexOf(rest, c)
    decreases |d|
  {
    if |d| > 0 {
      assert IsDigit(d[0]);
      assert (d + rest)[0] == d[0] != c;
      assert (d + rest)[1..] == d[1..] + rest;
      IndexPastDigits(d[1..], rest, c);
    } else {
      assert d + rest == rest;
    }
  }

  /** The digit run of digits followed by a non-digit ends at the non-digit. */
  lemma {:induction false} RunOfDigits(d: string, rest: string)
    requires AllDigits(d) && (|rest| == 0 || !IsDigit(rest[0]))
    ensures DigitRun(d + rest) == |d|
    decreases |d|
  {
    if |d| > 0 {
      assert IsDigit(d[0]);
      assert (d + rest)[0] == d[0];
      assert (d + rest)[1..] == d[1..] + rest;
      RunOfDigits(d[1..], rest);
    } else {
      assert d + rest == rest;
    }
  }

  // ---------------------------------------------------------------------
  // Strings drivers report

  /** The trailing release and vendor text is ignored. */
  lemma ReadsNvidiaString()
    ensures ParseVersion("4.6.0 NVIDIA") == Some((false, 4, 6))
  {
    DesktopRoundTrip(4, 6, ".0 NVIDIA");
    assert Decimal(4) == "4" && Decimal(6) == "6";
    NvidiaSpelling();
  }

  lemma NvidiaSpelling()
    ensures "4" + "." + "6" + ".0 NVIDIA" == "4.6.0 NVIDIA"
  {
  }

  /** The OpenGL ES 1.1 common profile string. */
  lemma ReadsEsCommonProfile()
    ensures GetVersion("OpenGL ES-CM 1.1") == Available(ES, 1, 1)
  {
    EsRoundTrip("CM ", 1, 1, "");
    assert Decimal(1) == "1";
    assert EsPrefix + "CM " + "1" + "." + "1" + "" == "OpenGL ES-CM 1.1";
  }

  /** One character short of the shortest ES string is unreadable. */
  lemma ShortEsStringIsUnavailable()
    ensures GetVersion("OpenGL ES-CM 1.") == Unavailable("OpenGL ES-CM 1.")
  {
    assert StartsWith("OpenGL ES-CM 1.", EsPrefix);
  }

  /** Without a '.', there is no version. */
  lemma NoDotIsUnavailable(s: string)
    requires !StartsWith(s, EsPrefix) && forall i :: 0 <= i < |s| ==> s[i] != '.'
    ensures GetVersion(s) == Unavailable(s)
  {
  }

  // ---------------------------------------------------------------------
  // OpenGL ES 2.0 and later

  /** The prefix of the version string of OpenGL ES 2.0 and later
      ("OpenGL ES <major>.<minor> <vendor text>"). */
  const LaterEsPrefix: string := "OpenGL ES "

  /** Text whose first character is neither a digit nor '+' has no major
      version. */
  lemma NoLeadingNumber(body: string)
    requires |body| > 0 && !IsDigit(body[0]) && body[0] != '+'
    ensures ReadNumbers(body).None?
  {
    var dot := IndexOf(body, '.');
    if dot > 0 {
      assert body[..dot][0] == body[0];
    }
  }

  /** As written, every OpenGL ES 2.0 or later version string is
      `Unavailable`: only the ES 1.x prefix "OpenGL ES-" is recognised, and
      read as a desktop string, "OpenGL ES 3.2" has "OpenGL ES 3" for its
      major version. */
  lemma LaterEsIsUnavailable(s: string)
    requires StartsWith(s, LaterEsPrefix)
    ensures GetVersion(s) == Unavailable(s)
  {
    assert s[..|LaterEsPrefix|][9] == ' ';
    assert !StartsWith(s, EsPrefix) by {
      if |EsPrefix| <= |s| { assert s[..|EsPrefix|][9] == s[9]; }
    }
    assert s[..|LaterEsPrefix|][0] == s[0];
    NoLeadingNumber(s);
  }

  /** `parse_version` reading the ES 2.0 and later prefix as well: such a
      string is ES, and its numbers start after the prefix. */
  function ParseVersionIntended(s: string): (r: Option<(bool, U8, U8)>)
    ensures !StartsWith(s, LaterEsPrefix) ==> r == ParseVersion(s)
    ensures StartsWith(s, LaterEsPrefix) ==> r.Some? ==> r.value.0
  {
    if StartsWith(s, LaterEsPrefix) then
      match ReadNumbers(s[|LaterEsPrefix|..])
      case None => None
      case Some((major, minor)) => Some((true, major, minor))
    else ParseVersion(s)
  }

  /** Corrected, an OpenGL ES 2.0 or later string reads back as its
      version. */
  lemma LaterEsRoundTrip(major: U8, minor: U8, tail: string)
    requires |tail| == 0 || !IsDigit(tail[0])
    ensures ParseVersionIntended(LaterEsPrefix + Decimal(major) + "." + Decimal(minor) + tail) == Some((true, major, minor))
  {
    var body := Decimal(major) + "." + Decimal(minor) + tail;
    var s := LaterEsPrefix + Decimal(major) + "." + Decimal(minor) + tail;
    Regroup(Decimal(major), ".", Decimal(minor));
    Regroup(Decimal(major), "." + Decimal(minor), tail);
    Regroup(LaterEsPrefix, Decimal(major), "." + Decimal(minor) + tail);
    assert s == LaterEsPrefix + body;
    assert s[..|LaterEsPrefix|] == LaterEsPrefix;
    assert s[|LaterEsPrefix|..] == body;
    ReadsBack(major, minor, tail);
  }
}
