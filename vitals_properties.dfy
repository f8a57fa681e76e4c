/**
 * Properties of the streaming decoder: the two documented line formats agree,
 * which lines leave the readings alone, how a failure part-way through a line
 * keeps what was already set, and that decoding only ever appends to the
 * ECG history.
 */
module VitalsProperties {
  import opened Wrappers
  import opened JavaText
  import opened VitalsAnalyzer

  /** A printed number in the 32-bit range parses back to itself. */
  lemma ParsesTo(s: string, n: nat)
    requires n <= INT_MAX && s == ToDecimal(n)
    ensures ParseInt(s) == Some(n)
  {
    ParseIntRoundTrip(n);
  }

  // ---------------------------------------------------------------------------
  // The three line formats the device sends.
  // ---------------------------------------------------------------------------

  /** "HR:<a> SpO2:<b> ECG:<c>", the tagged format, with the values as text. */
  function TaggedText(a: string, b: string, c: string): string
  {
    "HR:" + a + " SpO2:" + b + " ECG:" + c
  }

  /** The tagged format with printed numbers. */
  function TaggedLine(h: nat, s: nat, e: nat): string
  {
    TaggedText(ToDecimal(h), ToDecimal(s), ToDecimal(e))
  }

  /** "<hr>,<spo2>,<ecg>", the comma format. */
  function CommaLine(h: nat, s: nat, e: nat): string
  {
    ToDecimal(h) + "," + ToDecimal(s) + "," + ToDecimal(e)
  }

  /** "<hr> <spo2> <ecg>", bare numbers separated by spaces. */
  function SpacedLine(h: nat, s: nat, e: nat): string
  {
    ToDecimal(h) + " " + ToDecimal(s) + " " + ToDecimal(e)
  }

  /** Three space-separated parts starting with the three tags are routed to the tagged decoder. */
  lemma TaggedRoute(p1: string, p2: string, p3: string)
    requires StartsWith(p1, "HR:") && StartsWith(p2, "SpO2:") && StartsWith(p3, "ECG:")
    ensures Route(p1 + [' '] + p2 + [' '] + p3) == Tagged
  {
    var line := p1 + [' '] + p2 + [' '] + p3;
    TagInside([], p1, [' '] + p2 + [' '] + p3, "HR:");
    assert [] + p1 + ([' '] + p2 + [' '] + p3) == line;
    TagInside(p1 + [' '], p2, [' '] + p3, "SpO2:");
    assert p1 + [' '] + p2 + ([' '] + p3) == line;
    TagInside(p1 + [' '] + p2 + [' '], p3, [], "ECG:");
    assert p1 + [' '] + p2 + [' '] + p3 + [] == line;
  }

  /** A part that starts with a tag puts the tag in any line the part is a piece of. */
  lemma TagInside(before: string, part: string, after: string, tag: string)
    requires StartsWith(part, tag)
    ensures Contains(before + part + after, tag)
  {
    var line := before + part + after;
    assert line[|before|..|before| + |tag|] == part[..|tag|];
    ContainsAt(line, tag, |before|);
  }

  lemma HeartRateStep(v: Vitals, part: string, rest: seq<string>, n: int)
    requires StartsWith(part, "HR:") && ParseInt(part[3..]) == Some(n)
    ensures TaggedDecode(v, [part] + rest) == TaggedDecode(v.(heartRate := n), rest)
  {
    assert ([part] + rest)[1..] == rest;
  }

  lemma Spo2Step(v: Vitals, part: string, rest: seq<string>)
    requires !StartsWith(part, "HR:") && StartsWith(part, "SpO2:") && IndexOf(part, ':') == 4
    ensures ParseInt(part[5..]).None? ==> TaggedDecode(v, [part] + rest) == v
    ensures ParseInt(part[5..]).Some? ==>
      TaggedDecode(v, [part] + rest) == TaggedDecode(v.(spo2 := ParseInt(part[5..]).value), rest)
  {
    assert ([part] + rest)[1..] == rest;
  }

  lemma EcgStep(v: Vitals, part: string, rest: seq<string>, n: int)
    requires !StartsWith(part, "HR:") && !StartsWith(part, "SpO2:")
    requires !StartsWith(part, "SPO2:") && !StartsWith(part, "O2:")
    requires StartsWith(part, "ECG:") && ParseInt(Replace(part, "ECG:", "")) == Some(n)
    ensures TaggedDecode(v, [part] + rest) == TaggedDecode(AppendValue(v, n), rest)
  {
    assert ([part] + rest)[1..] == rest;
  }

  /** The "HR:" part of a tagged line carries `a` after its tag. */
  lemma HeartRatePart(a: string)
    ensures StartsWith("HR:" + a, "HR:") && ("HR:" + a)[3..] == a
  {
    assert ("HR:" + a)[..3] == "HR:";
  }

  /** The "SpO2:" part of a tagged line carries `x` after its colon. */
  lemma Spo2Part(x: string)
    ensures !StartsWith("SpO2:" + x, "HR:") && StartsWith("SpO2:" + x, "SpO2:")
    ensures IndexOf("SpO2:" + x, ':') == 4 && ("SpO2:" + x)[5..] == x
  {
    var p := "SpO2:" + x;
    assert p[..3][0] != "HR:"[0];
    assert p[..5] == "SpO2:";
    assert p[0] == 'S' && p[1] == 'p' && p[2] == 'O' && p[3] == '2' && p[4] == ':';
  }

  /** The "ECG:" part of a tagged line carries the digits `c` after its tag. */
  lemma EcgPart(c: string)
    requires AllDigits(c)
    ensures !StartsWith("ECG:" + c, "HR:") && !StartsWith("ECG:" + c, "SpO2:")
    ensures !StartsWith("ECG:" + c, "SPO2:") && !StartsWith("ECG:" + c, "O2:")
    ensures StartsWith("ECG:" + c, "ECG:")
    ensures Replace("ECG:" + c, "ECG:", "") == c
  {
    var p := "ECG:" + c;
    assert p[0] == 'E';
    assert |p| >= 3 ==> p[..3][0] != "HR:"[0];
    assert |p| >= 5 ==> p[..5][0] != "SpO2:"[0];
    assert |p| >= 5 ==> p[..5][0] != "SPO2:"[0];
    assert |p| >= 3 ==> p[..3][0] != "O2:"[0];
    assert p[..4] == "ECG:" && p[4..] == c;
    assert forall j :: 0 <= j < |c| ==> c[j] != 'E';
    ReplaceAbsent(c, "ECG:", "");
  }

  /** A tagged line with in-range values sets both readings and appends the ECG value. */
  lemma TaggedLineDecodes(v: Vitals, h: nat, s: nat, e: nat)
    requires h <= INT_MAX && s <= INT_MAX && e <= INT_MAX
    ensures Decode(v, TaggedLine(h, s, e)) == Vitals(h, s, v.history + [e])
  {
    DecimalHasNoSpace(h);
    DecimalHasNoSpace(s);
    DecimalHasNoSpace(e);
    TaggedLineParts(v, ToDecimal(h), ToDecimal(s), ToDecimal(e));
    ParseIntRoundTrip(h);
    ParseIntRoundTrip(s);
    ParseIntRoundTrip(e);
    TaggedPartsDecode(v, ToDecimal(h), ToDecimal(s), ToDecimal(e), h, s, e);
  }

  /** Three tagged parts whose numbers parse set both readings and append the ECG value. */
  lemma TaggedPartsDecode(v: Vitals, a: string, b: string, c: string, h: int, s: int, e: int)
    requires ParseInt(a) == Some(h) && ParseInt(b) == Some(s) && ParseInt(c) == Some(e) && AllDigits(c)
    ensures TaggedDecode(v, ["HR:" + a] + ["SpO2:" + b, "ECG:" + c]) == Vitals(h, s, v.history + [e])
  {
    var p1, p2, p3 := "HR:" + a, "SpO2:" + b, "ECG:" + c;
    var tail := [p3] + [];
    assert [p1] + [p2, p3] == [p1] + ([p2] + tail);
    HeartRatePart(a);
    HeartRateStep(v, p1, [p2] + tail, h);
    Spo2Part(b);
    Spo2Step(v.(heartRate := h), p2, tail);
    EcgPart(c);
    EcgStep(v.(heartRate := h, spo2 := s), p3, [], e);
  }

  /**
   * A tagged part whose number does not parse ends the loop: the heart rate
   * set before it stays, and neither SpO2 nor the ECG value is taken.
   */
  lemma TaggedFailureStops(v: Vitals, h: nat, x: string, e: nat)
    requires h <= INT_MAX && e <= INT_MAX
    requires ParseInt(x) == None && forall j :: 0 <= j < |x| ==> x[j] != ' '
    ensures Decode(v, TaggedText(ToDecimal(h), x, ToDecimal(e))) == v.(heartRate := h)
  {
    DecimalHasNoSpace(h);
    DecimalHasNoSpace(e);
    TaggedLineParts(v, ToDecimal(h), x, ToDecimal(e));
    ParseIntRoundTrip(h);
    TaggedPartsFailure(v, ToDecimal(h), x, ToDecimal(e), h);
  }

  /** A tagged SpO2 part that does not parse stops the decoding after the heart rate. */
  lemma TaggedPartsFailure(v: Vitals, a: string, x: string, c: string, h: int)
    requires ParseInt(a) == Some(h) && ParseInt(x) == None
    ensures TaggedDecode(v, ["HR:" + a] + ["SpO2:" + x, "ECG:" + c]) == v.(heartRate := h)
  {
    var p1, p2, p3 := "HR:" + a, "SpO2:" + x, "ECG:" + c;
    calc {
      TaggedDecode(v, [p1] + [p2, p3]);
      { HeartRatePart(a); HeartRateStep(v, p1, [p2, p3], h); }
      TaggedDecode(v.(heartRate := h), [p2] + [p3]);
      { Spo2Part(x); Spo2Step(v.(heartRate := h), p2, [p3]); }
      v.(heartRate := h);
    }
  }

  /** A tagged line with space-free values is decoded part by part. */
  lemma TaggedLineParts(v: Vitals, a: string, b: string, c: string)
    requires forall j :: 0 <= j < |a| ==> a[j] != ' '
    requires forall j :: 0 <= j < |b| ==> b[j] != ' '
    requires forall j :: 0 <= j < |c| ==> c[j] != ' '
    ensures Decode(v, TaggedText(a, b, c)) == TaggedDecode(v, ["HR:" + a] + ["SpO2:" + b, "ECG:" + c])
  {
    var p1, p2, p3 := "HR:" + a, "SpO2:" + b, "ECG:" + c;
    assert TaggedText(a, b, c) == p1 + [' '] + p2 + [' '] + p3;
    assert p1[..3] == "HR:" && p2[..5] == "SpO2:" && p3[..4] == "ECG:";
    TaggedRoute(p1, p2, p3);
    TaggedSplit(a, b, c);
  }

  /** A tagged line with space-free values splits into its three tagged parts. */
  lemma TaggedSplit(a: string, b: string, c: string)
    requires forall j :: 0 <= j < |a| ==> a[j] != ' '
    requires forall j :: 0 <= j < |b| ==> b[j] != ' '
    requires forall j :: 0 <= j < |c| ==> c[j] != ' '
    ensures Split(TaggedText(a, b, c), Space) == ["HR:" + a] + ["SpO2:" + b, "ECG:" + c]
  {
    var p1, p2, p3 := "HR:" + a, "SpO2:" + b, "ECG:" + c;
    assert TaggedText(a, b, c) == p1 + [' '] + p2 + [' '] + p3;
    assert forall j :: 0 <= j < |p1| ==> p1[j] != ' ' by {
      forall j | 0 <= j < |p1| ensures p1[j] != ' ' {
        if j >= 3 { assert p1[j] == a[j - 3]; }
      }
    }
    assert forall j :: 0 <= j < |p2| ==> p2[j] != ' ' by {
      forall j | 0 <= j < |p2| ensures p2[j] != ' ' {
        if j >= 5 { assert p2[j] == b[j - 5]; }
      }
    }
    assert forall j :: 0 <= j < |p3| ==> p3[j] != ' ' by {
      forall j | 0 <= j < |p3| ensures p3[j] != ' ' {
        if j >= 4 { assert p3[j] == c[j - 4]; }
      }
    }
    SplitThree(p1, p2, p3, ' ', ' ', Space);
    assert [p1, p2, p3] == [p1] + [p2, p3];
  }

  /** Printed numbers hold no space. */
  lemma DecimalHasNoSpace(n: nat)
    ensures forall j :: 0 <= j < |ToDecimal(n)| ==> ToDecimal(n)[j] != ' '
  {
    assert AllDigits(ToDecimal(n));
  }

  /** A comma line with in-range values has the same effect as the tagged line. */
  lemma CommaLineDecodes(v: Vitals, h: nat, s: nat, e: nat)
    requires h <= INT_MAX && s <= INT_MAX && e <= INT_MAX
    ensures Decode(v, CommaLine(h, s, e)) == Vitals(h, s, v.history + [e])
  {
    var a, b, c := ToDecimal(h), ToDecimal(s), ToDecimal(e);
    var line := CommaLine(h, s, e);
    assert line == a + [','] + b + [','] + c;
    assert forall i :: 0 <= i < |line| ==> IsDigit(line[i]) || line[i] == ',';
    Lacks(line, "HR:");
    ContainsAt(line, ",", |a|);
    assert Route(line) == CommaFields;
    SplitThree(a, b, c, ',', ',', Comma);
    KeepDigitsAllDigits(a);
    KeepDigitsAllDigits(b);
    KeepDigitsAllDigits(c);
    ParseIntRoundTrip(h);
    ParseIntRoundTrip(s);
    ParseIntRoundTrip(e);
  }

  /**
   * A line of three bare numbers goes to the `\D+` decoder: the values are
   * taken in order until one overflows, keeping those set before it.
   */
  lemma SpacedLineDecodes(v: Vitals, h: nat, s: nat, e: nat)
    ensures h > INT_MAX ==> Decode(v, SpacedLine(h, s, e)) == v
    ensures h <= INT_MAX && s > INT_MAX ==> Decode(v, SpacedLine(h, s, e)) == v.(heartRate := h)
    ensures h <= INT_MAX && s <= INT_MAX && e > INT_MAX ==>
      Decode(v, SpacedLine(h, s, e)) == v.(heartRate := h, spo2 := s)
    ensures h <= INT_MAX && s <= INT_MAX && e <= INT_MAX ==>
      Decode(v, SpacedLine(h, s, e)) == Vitals(h, s, v.history + [e])
  {
    SpacedGroups(v, h, s, e);
    ParseIntRoundTrip(h);
    if h <= INT_MAX {
      ParseIntRoundTrip(s);
      if s <= INT_MAX {
        ParseIntRoundTrip(e);
      }
    }
  }

  /** A line of three bare numbers is routed to the `\D+` decoder and splits into the three numerals. */
  lemma SpacedGroups(v: Vitals, h: nat, s: nat, e: nat)
    ensures Decode(v, SpacedLine(h, s, e)) == DigitGroupDecode(v, SpacedLine(h, s, e))
    ensures SplitNonDigits(SpacedLine(h, s, e)) == [ToDecimal(h), ToDecimal(s), ToDecimal(e)]
  {
    var a, b, c := ToDecimal(h), ToDecimal(s), ToDecimal(e);
    var line := SpacedLine(h, s, e);
    assert line == a + [' '] + b + [' '] + c;
    assert forall i :: 0 <= i < |line| ==> IsDigit(line[i]) || line[i] == ' ';
    Lacks(line, "HR:");
    Lacks(line, ",");
    assert IsDigit(line[0]);
    assert Route(line) == DigitGroups;
    SplitNonDigitsThree(a, b, c, ' ', ' ');
  }

  /** The three documented formats agree on every in-range reading. */
  lemma FormatsAgree(v: Vitals, h: nat, s: nat, e: nat)
    requires h <= INT_MAX && s <= INT_MAX && e <= INT_MAX
    ensures Decode(v, TaggedLine(h, s, e)) == Decode(v, CommaLine(h, s, e)) == Decode(v, SpacedLine(h, s, e))
  {
    TaggedLineDecodes(v, h, s, e);
    CommaLineDecodes(v, h, s, e);
    SpacedLineDecodes(v, h, s, e);
  }

  /** A line with no digit and no comma changes neither reading nor the buffer. */
  lemma DigitFreeLineUnchanged(v: Vitals, line: string)
    requires !HasDigit(line) && !Contains(line, ",")
    ensures Decode(v, line) == v
  {
    assert HasDigit("SpO2:") by { assert IsDigit("SpO2:"[3]); }
    if Contains(line, "SpO2:") {
      ContainsDigitCarrier(line, "SpO2:");
    }
    assert Route(line) == PatternSearch;
    NoDigitNoWord(line, HeartRateWord, 0);
    NoDigitNoWord(line, Spo2Word, 0);
    NoDigitNoWord(line, EcgWord, 0);
  }

  /** Every fallback pattern needs a digit, so a digit-free line matches none of them. */
  lemma {:induction false} NoDigitNoWord(s: string, p: WordPattern, i: nat)
    requires i <= |s| && !HasDigit(s)
    ensures FindWord(s, p, i) == None
    decreases |s| - i
  {
    if i < |s| {
      if IsWordChar(s[i]) && (i == 0 || !IsWordChar(s[i - 1])) {
        var e := WordEnd(s, i);
        assert !Accepts(p, s[i..e]);
        NoDigitNoWord(s, p, e);
      } else {
        NoDigitNoWord(s, p, i + 1);
      }
    }
  }

  /**
   * A digit-free line with at least three comma fields is NOT ignored: every
   * field parses to 0, so both readings become 0 and a 0 sample is appended.
   */
  lemma DigitFreeCommaLineZeroes(v: Vitals, line: string)
    requires !HasDigit(line) && |Split(line, Comma)| >= 3
    ensures Decode(v, line) == Vitals(0, 0, v.history + [0])
  {
    assert HasDigit("SpO2:") by { assert IsDigit("SpO2:"[3]); }
    if Contains(line, "SpO2:") {
      ContainsDigitCarrier(line, "SpO2:");
    }
    if !Contains(line, ",") {
      CharAbsent(line, ',');
      SplitWithoutDelimiter(line, Comma);
    }
    var fields := Split(line, Comma);
    SplitHasNoDelimiter(line, Comma);
    forall k | 0 <= k < 3 ensures !HasDigit(fields[k]) {
      if HasDigit(fields[k]) {
        SplitTokenDigit(line, Comma, k);
      }
    }
  }

  /** A comma line with fewer than three fields leaves the state alone. */
  lemma ShortCommaLineUnchanged(v: Vitals, line: string)
    requires Route(line) == CommaFields && |Split(line, Comma)| < 3
    ensures Decode(v, line) == v
  {
  }

  /** A digit-group line with fewer than three groups leaves the state alone. */
  lemma FewDigitGroupsUnchanged(v: Vitals, line: string)
    requires Route(line) == DigitGroups && |SplitNonDigits(line)| < 3
    ensures Decode(v, line) == v
  {
  }

  /** A digit-group line that starts with a non-digit has an empty first group, so nothing is set. */
  lemma LeadingNonDigitUnchanged(v: Vitals, line: string)
    requires Route(line) == DigitGroups && |line| > 0 && !IsDigit(line[0])
    ensures Decode(v, line) == v
  {
    SplitNonDigitsShape(line);
  }

  /** `parseNumber` deletes every non-digit: the 2 of "SpO2" joins the value. */
  lemma ParseNumberKeepsTagDigit()
    ensures ParseNumber("SpO2=98") == 298
  {
    TagDigitsKept();
    var digits := KeepDigits("SpO2=98");
    DecimalValue3(digits);
    assert DecimalValue(digits) == 298;
    assert HasDigit("SpO2=98") by { assert IsDigit("SpO2=98"[3]); }
  }

  /** The digits of "SpO2=98" are "298". */
  lemma TagDigitsKept()
    ensures KeepDigits("SpO2=98") == "298"
  {
    assert KeepDigits("98") == "98" by { KeepDigitsAllDigits("98"); }
    assert KeepDigits("=98") == "98" by { assert "=98"[1..] == "98"; }
    assert KeepDigits("2=98") == "298" by { assert "2=98"[1..] == "=98"; }
    KeepDigitsConcat("SpO", "2=98");
    assert KeepDigits("SpO") == "" by { assert !HasDigit("SpO") by { forall i | 0 <= i < 3 ensures !IsDigit("SpO"[i]) { } } }
    assert "SpO" + "2=98" == "SpO2=98";
  }

  /** `parseNumber` deletes every non-digit: the sign is lost. */
  lemma ParseNumberDropsSign()
    ensures ParseNumber("-75") == 75
  {
    assert KeepDigits("-75") == "75";
    assert "75" == ToDecimal(75);
    ParsesTo("75", 75);
  }

  /** `parseNumber` of a digit-free word is 0. */
  lemma ParseNumberOfWord()
    ensures ParseNumber("abc") == 0
  {
    assert !HasDigit("abc") by {
      forall i | 0 <= i < 3 ensures !IsDigit("abc"[i]) { }
    }
  }

  /** The fallback decoder, once the three patterns have found their words. */
  lemma FallbackDecode(v: Vitals, line: string, a: string, b: string, c: string)
    requires Route(line) == PatternSearch
    requires FindWord(line, HeartRateWord, 0) == Some(a)
    requires FindWord(line, Spo2Word, 0) == Some(b)
    requires FindWord(line, EcgWord, 0) == Some(c)
    ensures Decode(v, line) == Vitals(DecimalValue(a), DecimalValue(b), v.history + [DecimalValue(c)])
  {
  }

  /** A trailing carriage return defeats `matches(".*\\d+.*")`. */
  lemma CarriageReturnRoute()
    ensures Route("75 98 512\r") == PatternSearch
  {
    var line := "75 98 512\r";
    assert forall i :: 0 <= i < |line| ==> line[i] != 'H' && line[i] != ',';
    Lacks(line, "HR:");
    Lacks(line, ",");
    assert IsLineTerminator(line[9]);
  }

  lemma CarriageReturnWords()
    ensures FindWord("75 98 512\r", HeartRateWord, 0) == Some("75")
    ensures FindWord("75 98 512\r", Spo2Word, 0) == Some("98")
    ensures FindWord("75 98 512\r", EcgWord, 0) == Some("512")
  {
    var line := "75 98 512\r";
    CarriageReturnWordEnds();
    assert line[0..2] == "75" && line[3..5] == "98" && line[6..9] == "512";
    assert FindWord(line, Spo2Word, 2) == FindWord(line, Spo2Word, 3);
    assert FindWord(line, EcgWord, 2) == FindWord(line, EcgWord, 3);
    assert FindWord(line, EcgWord, 5) == FindWord(line, EcgWord, 6);
  }

  /** Where the three words of "75 98 512\r" end. */
  lemma CarriageReturnWordEnds()
    ensures WordEnd("75 98 512\r", 0) == 2
    ensures WordEnd("75 98 512\r", 3) == 5
    ensures WordEnd("75 98 512\r", 6) == 9
  {
    var line := "75 98 512\r";
    assert WordEnd(line, 0) == 2;
    assert WordEnd(line, 3) == 5;
  }

  lemma CarriageReturnValues()
    ensures DecimalValue("75") == 75 && DecimalValue("98") == 98 && DecimalValue("512") == 512
  {
    assert "75" == ToDecimal(75) && "98" == ToDecimal(98) && "512" == ToDecimal(512);
    DecimalValueOfToDecimal(75);
    DecimalValueOfToDecimal(98);
    DecimalValueOfToDecimal(512);
  }

  /**
   * A carriage return (which the Bluetooth reader leaves at the end of each
   * line) sends "75 98 512\r" to the regex fallback, which still finds all
   * three values.
   */
  lemma CarriageReturnLine(v: Vitals)
    ensures Route("75 98 512\r") == PatternSearch
    ensures Decode(v, "75 98 512\r") == Vitals(75, 98, v.history + [512])
  {
    CarriageReturnRoute();
    CarriageReturnWords();
    CarriageReturnValues();
    FallbackDecode(v, "75 98 512\r", "75", "98", "512");
  }
}
