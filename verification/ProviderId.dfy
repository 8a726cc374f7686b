/** Printing and parsing of Kubernetes provider IDs (internal/providerid/providerid.go). */
module ProviderId {
  import opened Wrappers

  const PREFIX_CLOUD := "hcloud://"
  const PREFIX_ROBOT := "hrobot://"
  const PREFIX_ROBOT_LEGACY := "hcloud://bm-"

  newtype Int64 = x: int | -0x8000_0000_0000_0000 <= x < 0x8000_0000_0000_0000

  datatype Error = UnknownPrefix | MissingId | NotANumber

  datatype ServerId = ServerId(id: Int64, isCloud: bool)

  // ---------------------------------------------------------------- decimal numerals

  predicate IsDigit(c: char) { '0' <= c <= '9' }

  predicate AllDigits(s: string) { forall i :: 0 <= i < |s| ==> IsDigit(s[i]) }

  function DigitValue(c: char): (d: nat)
    requires IsDigit(c)
  {
    (c as int) - ('0' as int)
  }

  function DigitChar(d: nat): (c: char)
    requires d < 10
    ensures IsDigit(c) && DigitValue(c) == d
  {
    ('0' as int + d) as char
  }

  /** The number a digit string denotes, most significant digit first. */
  function Magnitude(s: string): nat
    requires AllDigits(s)
  {
    if |s| == 0 then 0
    else 10 * Magnitude(s[..|s| - 1]) + DigitValue(s[|s| - 1])
  }

  function PrintNat(n: nat): (s: string)
    ensures |s| > 0 && AllDigits(s)
  {
    if n < 10 then [DigitChar(n)] else PrintNat(n / 10) + [DigitChar(n % 10)]
  }

  /** Go's %d. */
  function PrintInt(n: int): (s: string)
    ensures |s| > 0
  {
    if n < 0 then "-" + PrintNat(-n) else PrintNat(n)
  }

  /** strconv.ParseInt(s, 10, 64): an optional sign, at least one digit, nothing else, in range. */
  function ParseInt64(s: string): Option<Int64> {
    var signed := |s| > 0 && (s[0] == '-' || s[0] == '+');
    var digits := if signed then s[1..] else s;
    if |digits| == 0 || !AllDigits(digits) then None
    else
      var magnitude: int := Magnitude(digits);
      var n := if signed && s[0] == '-' then -magnitude else magnitude;
      if -0x8000_0000_0000_0000 <= n < 0x8000_0000_0000_0000 then Some(n as Int64) else None
  }

  lemma {:induction false} MagnitudeOfPrinted(n: nat)
    ensures Magnitude(PrintNat(n)) == n
  {
    if n >= 10 {
      MagnitudeOfPrinted(n / 10);
      var s := PrintNat(n);
      assert s[..|s| - 1] == PrintNat(n / 10);
    }
  }

  /** Digits alone are the number they denote, if it fits. */
  lemma Unsigned(d: string)
    requires |d| > 0 && AllDigits(d)
    ensures ParseInt64(d) == if Magnitude(d) <= 9_223_372_036_854_775_807 then Some(Magnitude(d) as Int64) else None
  {
    assert IsDigit(d[0]);
  }

  lemma Negative(s: string)
    requires |s| > 1 && s[0] == '-' && AllDigits(s[1..])
    ensures ParseInt64(s) ==
            if Magnitude(s[1..]) <= 9_223_372_036_854_775_808 then Some((0 - Magnitude(s[1..])) as Int64) else None
  {
  }

  /** A minus in front of digits changes the sign. */
  lemma Minus(d: string)
    requires |d| > 0 && AllDigits(d)
    ensures ParseInt64("-" + d) ==
            if Magnitude(d) <= 9_223_372_036_854_775_808 then Some((0 - Magnitude(d)) as Int64) else None
  {
    var s := "-" + d;
    assert s[1..] == d;
    Negative(s);
  }

  /** Every 64-bit number, both limits included, survives printing and parsing. */
  lemma ParsePrinted(n: Int64)
    ensures ParseInt64(PrintInt(n as int)) == Some(n)
  {
    var i := n as int;
    if i < 0 {
      MagnitudeOfPrinted(-i);
      Minus(PrintNat(-i));
    } else {
      MagnitudeOfPrinted(i);
      Unsigned(PrintNat(i));
    }
  }

  // ---------------------------------------------------------------- prefixes

  predicate HasPrefix(s: string, prefix: string) { prefix <= s }

  /** strings.ReplaceAll(s, p, ""): erases every occurrence found scanning left to right. */
  function EraseAll(s: string, p: string): string
    requires |p| > 0
  {
    if |s| < |p| then s
    else if s[..|p|] == p then EraseAll(s[|p|..], p)
    else [s[0]] + EraseAll(s[1..], p)
  }

  function ToServerID(providerID: string): Result<ServerId, Error> {
    if HasPrefix(providerID, PREFIX_ROBOT) then ParseServerId(EraseAll(providerID, PREFIX_ROBOT), false)
    else if HasPrefix(providerID, PREFIX_ROBOT_LEGACY) then
      ParseServerId(EraseAll(providerID, PREFIX_ROBOT_LEGACY), false)
    else if HasPrefix(providerID, PREFIX_CLOUD) then ParseServerId(EraseAll(providerID, PREFIX_CLOUD), true)
    else Err(UnknownPrefix)
  }

  function ParseServerId(idString: string, isCloud: bool): Result<ServerId, Error> {
    if idString == "" then Err(MissingId)
    else match ParseInt64(idString)
      case None => Err(NotANumber)
      case Some(id) => Ok(ServerId(id, isCloud))
  }

  function FromCloudServerID(id: Int64): string { PREFIX_CLOUD + PrintInt(id as int) }

  function FromRobotServerNumber(number: Int64): string { PREFIX_ROBOT + PrintInt(number as int) }

  /** The form the Syself fork printed; still accepted, never printed by this program. */
  function LegacyRobotID(number: Int64): string { PREFIX_ROBOT_LEGACY + PrintInt(number as int) }

  function Print(s: ServerId): string {
    if s.isCloud then FromCloudServerID(s.id) else FromRobotServerNumber(s.id)
  }

  // ---------------------------------------------------------------- what erasing does

  /** Characters a numeral may hold; none of them starts a prefix. */
  predicate IsNumeric(s: string) {
    forall i :: 0 <= i < |s| ==> IsDigit(s[i]) || s[i] == '-' || s[i] == '+'
  }

  lemma {:induction false} EraseNothing(s: string, p: string)
    requires |p| > 0 && p[0] == 'h' && IsNumeric(s)
    ensures EraseAll(s, p) == s
  {
    if |s| >= |p| {
      assert s[..|p|][0] != p[0];
      EraseNothing(s[1..], p);
    }
  }

  lemma PrintedIsNumeric(n: int)
    ensures IsNumeric(PrintInt(n))
  {
    if n < 0 {
      assert PrintInt(n) == "-" + PrintNat(-n);
    }
  }

  lemma {:induction false} EraseInside(a: string, b: string, p: string)
    requires |p| > 0 && p[0] == 'h' && IsNumeric(a) && IsNumeric(b)
    ensures EraseAll(a + p + b, p) == a + b
  {
    var s := a + p + b;
    if |a| == 0 {
      assert s[..|p|] == p && s[|p|..] == b;
      EraseNothing(b, p);
      assert a + b == b;
    } else {
      EraseInside(a[1..], b, p);
      assert s[1..] == a[1..] + p + b;
      assert s[..|p|][0] == a[0] != p[0];
      assert [a[0]] + (a[1..] + b) == a + b;
    }
  }

  lemma ErasePrefix(rest: string, p: string)
    requires |p| > 0
    ensures EraseAll(p + rest, p) == EraseAll(rest, p)
  {
    assert (p + rest)[..|p|] == p && (p + rest)[|p|..] == rest;
  }

  lemma DispatchRobot(rest: string)
    ensures ToServerID(PREFIX_ROBOT + rest) == ParseServerId(EraseAll(rest, PREFIX_ROBOT), false)
  {
    ErasePrefix(rest, PREFIX_ROBOT);
  }

  lemma DispatchLegacy(rest: string)
    ensures ToServerID(PREFIX_ROBOT_LEGACY + rest) == ParseServerId(EraseAll(rest, PREFIX_ROBOT_LEGACY), false)
  {
    var s := PREFIX_ROBOT_LEGACY + rest;
    assert s[1] == 'c' && PREFIX_ROBOT[1] == 'r';
    assert HasPrefix(s, PREFIX_ROBOT_LEGACY);
    ErasePrefix(rest, PREFIX_ROBOT_LEGACY);
  }

  lemma NotPrefix(s: string, p: string, i: nat)
    requires i < |p| && (i < |s| ==> s[i] != p[i])
    ensures !HasPrefix(s, p)
  {
  }

  lemma AfterPrefix(p: string, rest: string)
    ensures |rest| > 0 ==> (p + rest)[|p|] == rest[0]
    ensures forall i :: 0 <= i < |p| ==> (p + rest)[i] == p[i]
  {
  }

  lemma CloudIsNeitherRobot(rest: string)
    requires |rest| > 0 ==> rest[0] != 'b'
    ensures !HasPrefix(PREFIX_CLOUD + rest, PREFIX_ROBOT)
    ensures !HasPrefix(PREFIX_CLOUD + rest, PREFIX_ROBOT_LEGACY)
  {
    AfterPrefix(PREFIX_CLOUD, rest);
    NotPrefix(PREFIX_CLOUD + rest, PREFIX_ROBOT, 1);
    NotPrefix(PREFIX_CLOUD + rest, PREFIX_ROBOT_LEGACY, 9);
  }

  lemma DispatchCloud(rest: string)
    requires |rest| > 0 ==> rest[0] != 'b'
    ensures ToServerID(PREFIX_CLOUD + rest) == ParseServerId(EraseAll(rest, PREFIX_CLOUD), true)
  {
    CloudIsNeitherRobot(rest);
    ErasePrefix(rest, PREFIX_CLOUD);
  }

  // ---------------------------------------------------------------- main results

  /** Parsing a printed ID gives back the number and the kind, in all three families. */
  lemma RoundTrip(id: Int64)
    ensures ToServerID(FromCloudServerID(id)) == Ok(ServerId(id, true))
    ensures ToServerID(FromRobotServerNumber(id)) == Ok(ServerId(id, false))
    ensures ToServerID(LegacyRobotID(id)) == Ok(ServerId(id, false))
  {
    var n := PrintInt(id as int);
    PrintedIsNumeric(id as int);
    ParsePrinted(id);
    DispatchCloud(n);
    DispatchRobot(n);
    DispatchLegacy(n);
    EraseNothing(n, PREFIX_CLOUD);
    EraseNothing(n, PREFIX_ROBOT);
    EraseNothing(n, PREFIX_ROBOT_LEGACY);
  }

  lemma RobotIsNotLegacy(x: string, y: string)
    ensures PREFIX_ROBOT + x != PREFIX_ROBOT_LEGACY + y
  {
    AfterPrefix(PREFIX_ROBOT, x);
    AfterPrefix(PREFIX_ROBOT_LEGACY, y);
    assert PREFIX_ROBOT[1] != PREFIX_ROBOT_LEGACY[1];
  }

  /** No ID printed for one family is printed for another, whatever the two numbers are,
      and within a family different numbers print differently. */
  lemma FamiliesNeverCollide(a: Int64, b: Int64)
    ensures FromCloudServerID(a) != FromRobotServerNumber(b)
    ensures FromCloudServerID(a) != LegacyRobotID(b)
    ensures FromRobotServerNumber(a) != LegacyRobotID(b)
    ensures a != b ==> FromCloudServerID(a) != FromCloudServerID(b)
                       && FromRobotServerNumber(a) != FromRobotServerNumber(b)
                       && LegacyRobotID(a) != LegacyRobotID(b)
  {
    RoundTrip(a);
    RoundTrip(b);
    RobotIsNotLegacy(PrintInt(a as int), PrintInt(b as int));
  }

  /** Printing what was parsed is a normal form: it parses to the same server, and printing again
      changes nothing. Two accepted strings have one normal form exactly when they name one server. */
  lemma NormalForm(s: string, t: string)
    requires ToServerID(s).Ok? && ToServerID(t).Ok?
    ensures ToServerID(Print(ToServerID(s).value)) == ToServerID(s)
    ensures Print(ToServerID(Print(ToServerID(s).value)).value) == Print(ToServerID(s).value)
    ensures Print(ToServerID(s).value) == Print(ToServerID(t).value) <==> ToServerID(s) == ToServerID(t)
  {
    RoundTrip(ToServerID(s).value.id);
    RoundTrip(ToServerID(t).value.id);
  }

  /** A copy of the prefix inside the numeral is invisible to the parser: the accepted strings are
      not only the printed ones. */
  lemma RepeatedPrefixIsIgnored(a: string, b: string)
    requires IsNumeric(a) && IsNumeric(b)
    ensures ToServerID(PREFIX_ROBOT + (a + PREFIX_ROBOT + b)) == ToServerID(PREFIX_ROBOT + (a + b))
    ensures ToServerID(PREFIX_CLOUD + (a + PREFIX_CLOUD + b)) == ToServerID(PREFIX_CLOUD + (a + b))
    ensures ToServerID(PREFIX_ROBOT_LEGACY + (a + PREFIX_ROBOT_LEGACY + b)) == ToServerID(PREFIX_ROBOT_LEGACY + (a + b))
  {
    DispatchRobot(a + PREFIX_ROBOT + b);
    DispatchRobot(a + b);
    EraseInside(a, b, PREFIX_ROBOT);
    EraseNothing(a + b, PREFIX_ROBOT);
    DispatchLegacy(a + PREFIX_ROBOT_LEGACY + b);
    DispatchLegacy(a + b);
    EraseInside(a, b, PREFIX_ROBOT_LEGACY);
    EraseNothing(a + b, PREFIX_ROBOT_LEGACY);
    assert |a + b| > 0 ==> (a + b)[0] != 'b';
    assert (a + PREFIX_CLOUD + b)[0] != 'b' by {
      if |a| == 0 { assert (a + PREFIX_CLOUD + b)[0] == PREFIX_CLOUD[0]; }
    }
    DispatchCloud(a + PREFIX_CLOUD + b);
    DispatchCloud(a + b);
    EraseInside(a, b, PREFIX_CLOUD);
    EraseNothing(a + b, PREFIX_CLOUD);
  }

  // ---------------------------------------------------------------- which accepted strings are printed ones

  /** Digits without a leading zero, unless zero is all. */
  predicate Plain(d: string) { |d| > 0 && AllDigits(d) && (d[0] == '0' ==> |d| == 1) }

  /** A numeral as Go prints it. */
  predicate Canonical(n: string) {
    if |n| > 0 && n[0] == '-' then Plain(n[1..]) && n != "-0" else Plain(n)
  }

  lemma DigitPrinted(c: char)
    requires IsDigit(c)
    ensures DigitValue(c) < 10 && DigitChar(DigitValue(c)) == c
  {
  }

  lemma {:induction false} PrintedMagnitude(d: string)
    requires Plain(d)
    ensures PrintNat(Magnitude(d)) == d
  {
    var n := |d| - 1;
    DigitPrinted(d[n]);
    if n == 0 {
      assert d[..0] == "" && d == [d[0]];
    } else {
      assert d[..n][0] == d[0];
      PrintedMagnitude(d[..n]);
      assert Magnitude(d[..n]) != 0;
      assert Magnitude(d) / 10 == Magnitude(d[..n]) && Magnitude(d) % 10 == DigitValue(d[n]);
      assert d == d[..n] + [d[n]];
    }
  }

  lemma {:induction false} PrintedIsPlain(n: nat)
    ensures Plain(PrintNat(n)) && (PrintNat(n)[0] == '0' <==> n == 0)
  {
    if n < 10 {
      DigitPrinted(PrintNat(n)[0]);
    } else {
      PrintedIsPlain(n / 10);
      assert PrintNat(n)[0] == PrintNat(n / 10)[0];
    }
  }

  lemma PrintedIsCanonical(n: int)
    ensures Canonical(PrintInt(n))
  {
    if n < 0 {
      PrintedIsPlain(-n);
      assert PrintInt(n)[1..] == PrintNat(-n);
    } else {
      PrintedIsPlain(n);
    }
  }

  lemma PrintParsedNegative(d: string)
    requires Plain(d) && d != "0" && ParseInt64("-" + d).Some?
    ensures PrintInt(ParseInt64("-" + d).value as int) == "-" + d
  {
    PrintedMagnitude(d);
    assert ("-" + d)[1..] == d;
    assert PrintNat(0) == "0";
    assert Magnitude(d) != 0;
  }

  lemma PrintParsed(n: string)
    requires Canonical(n) && ParseInt64(n).Some?
    ensures PrintInt(ParseInt64(n).value as int) == n
  {
    if n[0] == '-' {
      assert n == "-" + n[1..];
      PrintParsedNegative(n[1..]);
    } else {
      PrintedMagnitude(n);
    }
  }

  lemma CanonicalIsNumeric(n: string)
    requires Canonical(n)
    ensures IsNumeric(n) && |n| > 0
  {
    if n[0] == '-' {
      forall i | 0 < i < |n| ensures IsDigit(n[i]) {
        assert n[i] == n[1..][i - 1];
      }
    }
  }

  /** An accepted string is the printed form of what it is parsed to if and only if it is the cloud or the Robot
      prefix followed by a numeral as Go prints it. So the legacy form, a plus sign, leading zeros, a negative
      zero and repeated prefixes are accepted, but are never printed. */
  lemma PrintedExactly(s: string)
    requires ToServerID(s).Ok?
    ensures s == Print(ToServerID(s).value) <==>
            (PREFIX_CLOUD <= s && Canonical(s[|PREFIX_CLOUD|..]))
              || (PREFIX_ROBOT <= s && Canonical(s[|PREFIX_ROBOT|..]))
  {
    var server := ToServerID(s).value;
    if s == Print(server) {
      PrintedIsCanonical(server.id as int);
      AfterPrefix(PREFIX_CLOUD, PrintInt(server.id as int));
      AfterPrefix(PREFIX_ROBOT, PrintInt(server.id as int));
    }
    if PREFIX_CLOUD <= s && Canonical(s[|PREFIX_CLOUD|..]) {
      var n := s[|PREFIX_CLOUD|..];
      assert s == PREFIX_CLOUD + n;
      CanonicalIsNumeric(n);
      EraseNothing(n, PREFIX_CLOUD);
      DispatchCloud(n);
      PrintParsed(n);
    }
    if PREFIX_ROBOT <= s && Canonical(s[|PREFIX_ROBOT|..]) {
      var n := s[|PREFIX_ROBOT|..];
      assert s == PREFIX_ROBOT + n;
      CanonicalIsNumeric(n);
      EraseNothing(n, PREFIX_ROBOT);
      DispatchRobot(n);
      PrintParsed(n);
    }
  }

  // ---------------------------------------------------------------- prefixes and numerals, literally

  /** A provider ID is a foreign one, and its node is skipped, exactly if it has none of the three prefixes. */
  lemma ForeignExactly(s: string)
    ensures ToServerID(s) == Err(UnknownPrefix) <==>
            !("hcloud://" <= s) && !("hrobot://" <= s) && !("hcloud://bm-" <= s)
  {
  }

  lemma PrintedLiterally(id: Int64)
    ensures FromCloudServerID(id) == "hcloud://" + PrintInt(id as int)
    ensures FromRobotServerNumber(id) == "hrobot://" + PrintInt(id as int)
    ensures LegacyRobotID(id) == "hcloud://bm-" + PrintInt(id as int)
  {
  }

  /** What follows the prefix is an error if it is empty, another if it is no number of 64 bits with a sign. */
  lemma ErrorsExactly(rest: string)
    requires IsNumeric(rest)
    ensures ToServerID("hcloud://" + rest) ==
            if rest == "" then Err(MissingId)
            else if ParseInt64(rest).None? then Err(NotANumber)
            else Ok(ServerId(ParseInt64(rest).value, true))
    ensures ToServerID("hrobot://" + rest) == ToServerID("hcloud://bm-" + rest) ==
            if rest == "" then Err(MissingId)
            else if ParseInt64(rest).None? then Err(NotANumber)
            else Ok(ServerId(ParseInt64(rest).value, false))
  {
    DispatchCloud(rest);
    DispatchRobot(rest);
    DispatchLegacy(rest);
    EraseNothing(rest, PREFIX_CLOUD);
    EraseNothing(rest, PREFIX_ROBOT);
    EraseNothing(rest, PREFIX_ROBOT_LEGACY);
  }

  /** A plus changes nothing, and a zero in front changes nothing. */
  lemma PlusAndZero(d: string)
    requires |d| > 0 && AllDigits(d)
    ensures ParseInt64("+" + d) == ParseInt64(d)
    ensures ParseInt64("0" + d) == ParseInt64(d)
  {
    assert ("+" + d)[1..] == d;
    LeadingZero(d);
    Unsigned(d);
    Unsigned("0" + d);
  }

  lemma {:induction false} LeadingZero(d: string)
    requires AllDigits(d)
    ensures AllDigits("0" + d) && Magnitude("0" + d) == Magnitude(d)
  {
    if |d| == 0 {
      assert "0" + d == "0" && "0"[..0] == "";
    } else {
      LeadingZero(d[..|d| - 1]);
      assert ("0" + d)[..|d|] == "0" + d[..|d| - 1];
    }
  }

  /** No digits, or anything but digits after the sign, is no number. */
  lemma NoNumber(s: string)
    requires s == "" || s == "-" || s == "+" || exists i :: 0 < i < |s| && !IsDigit(s[i])
    ensures ParseInt64(s).None?
  {
    if i :| 0 < i < |s| && !IsDigit(s[i]) {
      assert s[1..][i - 1] == s[i];
    }
  }
}
