/**
 * The batch analysis helpers of `AnalyseFragment`: reading samples out of a
 * CSV-like text, rescaling them to [0, 1], tallying the classifier's
 * verdicts, the file-acceptance check, and the failure conditions of the
 * processing pipeline, which here runs sequentially and returns its outcome.
 * `Double.parseDouble` is the parameter `parseNum`.
 */
module Analysis {
  import opened Wrappers
  import opened JavaText
  import opened Classifier

  /** The decimal literal of `Double.MAX_VALUE`, where the minimum search starts. */
  const DOUBLE_MAX_VALUE: real := 179769313486231570000000000000000000000000000000000000000000000000000000000000000000000000000000000000000000000000000000000000000000000000000000000000000000000000000000000000000000000000000000000000000000000000000000000000000000000000000000000000000000000000000000000000000000000000000000000000000000000000000.0
  /**
   * The decimal literal 4.9e-324 of `Double.MIN_VALUE`, the smallest positive
   * double (exactly 2^-1074), where the maximum search starts.
   */
  const DOUBLE_MIN_VALUE: real := 0.0000000000000000000000000000000000000000000000000000000000000000000000000000000000000000000000000000000000000000000000000000000000000000000000000000000000000000000000000000000000000000000000000000000000000000000000000000000000000000000000000000000000000000000000000000000000000000000000000000000000000000000000000000000000049

  const EMPTY_FILE_MESSAGE: string := "File is empty or cannot be read"
  const NO_DATA_MESSAGE: string := "No valid ECG data found. Please check the file format."
  const NO_CLASSIFIER_MESSAGE: string := "ECG classifier not available"

  // ---------------------------------------------------------------------------
  // Reading samples.
  // ---------------------------------------------------------------------------

  /** `isHeaderLine`: a marker word (case-insensitive), or no digit the line regex can see. */
  predicate IsHeaderLine(line: string)
  {
    var lower := ToLower(line);
    Contains(lower, "ecg") || Contains(lower, "value") || Contains(lower, "time") || !MatchesDigitPattern(line)
  }

  /** Characters that occur in a plain numeric CSV row. */
  predicate IsNumericChar(c: char)
  {
    IsDigit(c) || c == '.' || c == ',' || c == ';' || c == '-' || c == '+' || c == ' ' || c == '\t'
  }

  /** A row made of digits and separators, with at least one digit, is never taken for a header; a digit-free row always is. */
  lemma HeaderDetection(line: string)
    ensures !HasDigit(line) ==> IsHeaderLine(line)
    ensures HasDigit(line) && (forall i :: 0 <= i < |line| ==> IsNumericChar(line[i])) ==> !IsHeaderLine(line)
  {
    if HasDigit(line) && forall i :: 0 <= i < |line| ==> IsNumericChar(line[i]) {
      var lower := ToLower(line);
      assert lower == line by {
        forall i | 0 <= i < |line| ensures lower[i] == line[i] {
          assert IsNumericChar(line[i]);
        }
      }
      Lacks(line, "ecg");
      Lacks(line, "value");
      Lacks(line, "time");
    }
  }

  /** A token with quotes removed and commas turned into points, after trimming. */
  function CleanToken(part: string): string
  {
    Replace(Replace(Trim(part), "\"", ""), ",", ".")
  }

  /** Token k is non-empty once cleaned and parses. */
  predicate Parses(parts: seq<string>, k: int, parseNum: string -> Option<real>)
    requires 0 <= k < |parts|
  {
    CleanToken(parts[k]) != [] && parseNum(CleanToken(parts[k])).Some?
  }

  /** The value of the first token that parses, if any. */
  function FirstParsable(parts: seq<string>, parseNum: string -> Option<real>): Option<real>
  {
    if parts == [] then None
    else
      var clean := CleanToken(parts[0]);
      if clean != [] && parseNum(clean).Some? then parseNum(clean) else FirstParsable(parts[1..], parseNum)
  }

  /** No token before index k parses. */
  predicate NoneParsesBefore(parts: seq<string>, k: int, parseNum: string -> Option<real>)
    requires k <= |parts|
  {
    forall j :: 0 <= j < k ==> !Parses(parts, j, parseNum)
  }

  /**
   * The first token that parses wins: the result is the value of token k
   * exactly when k parses and no earlier token does, and there is no result
   * exactly when no token parses.
   */
  lemma {:induction false} FirstParsableIsFirst(parts: seq<string>, parseNum: string -> Option<real>)
    ensures FirstParsable(parts, parseNum).None? <==> NoneParsesBefore(parts, |parts|, parseNum)
    ensures FirstParsable(parts, parseNum).Some? ==>
      exists k :: 0 <= k < |parts| && Parses(parts, k, parseNum) &&
        FirstParsable(parts, parseNum) == parseNum(CleanToken(parts[k])) && NoneParsesBefore(parts, k, parseNum)
    decreases |parts|, 1
  {
    if parts != [] {
      if Parses(parts, 0, parseNum) {
        assert FirstParsable(parts, parseNum) == parseNum(CleanToken(parts[0]));
        assert NoneParsesBefore(parts, 0, parseNum);
      } else {
        FirstParsableSkip(parts, parseNum);
      }
    }
  }

  /** When the first token does not parse, the search goes on with the rest. */
  lemma {:induction false} FirstParsableSkip(parts: seq<string>, parseNum: string -> Option<real>)
    requires parts != [] && !Parses(parts, 0, parseNum)
    ensures FirstParsable(parts, parseNum).None? <==> NoneParsesBefore(parts, |parts|, parseNum)
    ensures FirstParsable(parts, parseNum).Some? ==>
      exists k :: 0 <= k < |parts| && Parses(parts, k, parseNum) &&
        FirstParsable(parts, parseNum) == parseNum(CleanToken(parts[k])) && NoneParsesBefore(parts, k, parseNum)
    decreases |parts|, 0
  {
    var rest := parts[1..];
    FirstParsableIsFirst(rest, parseNum);
    assert FirstParsable(parts, parseNum) == FirstParsable(rest, parseNum);
    NoneParsesShift(parts, |parts|, parseNum);
    if FirstParsable(parts, parseNum).Some? {
      var k :| 0 <= k < |rest| && Parses(rest, k, parseNum) &&
        FirstParsable(rest, parseNum) == parseNum(CleanToken(rest[k])) && NoneParsesBefore(rest, k, parseNum);
      assert parts[k + 1] == rest[k];
      NoneParsesShift(parts, k + 1, parseNum);
    }
  }

  /** Behind a first token that does not parse, "none parses before k" moves one place. */
  lemma NoneParsesShift(parts: seq<string>, k: int, parseNum: string -> Option<real>)
    requires 1 <= k <= |parts| && !Parses(parts, 0, parseNum)
    ensures NoneParsesBefore(parts, k, parseNum) <==> NoneParsesBefore(parts[1..], k - 1, parseNum)
  {
    var rest := parts[1..];
    if NoneParsesBefore(parts, k, parseNum) {
      forall j | 0 <= j < k - 1
        ensures !Parses(rest, j, parseNum)
      {
        assert rest[j] == parts[j + 1] && !Parses(parts, j + 1, parseNum);
      }
    }
    if NoneParsesBefore(rest, k - 1, parseNum) {
      forall j | 1 <= j < k
        ensures !Parses(parts, j, parseNum)
      {
        assert rest[j - 1] == parts[j] && !Parses(rest, j - 1, parseNum);
      }
    }
  }

  /** `parseLineToDouble` on values: the first parseable token of the line split at each `,`, `;` or whitespace. */
  function LineValue(line: string, parseNum: string -> Option<real>): Option<real>
  {
    FirstParsable(Split(line, FieldSeparator), parseNum)
  }

  method ParseLineToDouble(line: string, parseNum: string -> Option<real>) returns (value: Option<real>)
    ensures value == LineValue(line, parseNum)
  {
    var parts := Split(line, FieldSeparator);
    var i := 0;
    while i < |parts|
      invariant 0 <= i <= |parts|
      invariant FirstParsable(parts[i..], parseNum) == FirstParsable(parts, parseNum)
    {
      assert parts[i..][1..] == parts[i + 1..];
      var cleanPart := Replace(Replace(Trim(parts[i]), "\"", ""), ",", ".");
      if cleanPart != [] {
        var parsed := parseNum(cleanPart);
        if parsed.Some? {
          return parsed;
        }
      }
      i := i + 1;
    }
    return None;
  }

  /** Comma is a split character, so the comma-to-point step never fires: cleaning only trims and drops quotes. */
  lemma CommaNeverReplaced(line: string, k: nat)
    requires k < |Split(line, FieldSeparator)|
    ensures CleanToken(Split(line, FieldSeparator)[k]) == Replace(Trim(Split(line, FieldSeparator)[k]), "\"", "")
  {
    var part := Split(line, FieldSeparator)[k];
    SplitHasNoDelimiter(line, FieldSeparator);
    assert forall j :: 0 <= j < |part| ==> part[j] != ',';
    TrimKeepsAbsent(part, ',');
    DeleteKeepsAbsent(Trim(part), "\"", ',');
    ReplaceAbsent(Replace(Trim(part), "\"", ""), ",", ".");
  }

  /** So a decimal comma is read as a field break: "1,5" gives the value of "1", not 1.5. */
  lemma DecimalCommaSplits(a: string, b: string, parseNum: string -> Option<real>)
    requires |a| > 0 && AllDigits(a) && parseNum(a).Some?
    ensures LineValue(a + [','] + b, parseNum) == parseNum(a)
  {
    var line := a + [','] + b;
    PiecesAfterToken(a, ',', b, FieldSeparator);
    var pieces := Pieces(line, FieldSeparator);
    assert pieces[0] == a;
    DropTrailingEmptyKeepsNonEmpty(pieces, 0);
    var parts := Split(line, FieldSeparator);
    assert parts[0] == a;
    TrimUnchanged(a);
    ReplaceAbsent(a, "\"", "");
    ReplaceAbsent(a, ",", ".");
  }

  /** The number of lines that are not blank after trimming. */
  function NonBlankCount(lines: seq<string>): nat
  {
    if lines == [] then 0 else (if Trim(lines[0]) != [] then 1 else 0) + NonBlankCount(lines[1..])
  }

  /**
   * What one line of `parseECGValuesFromContent` contributes, and whether the
   * header counts as skipped after it: a blank line nothing, the first
   * header-like line nothing (and it marks the header skipped), any other line
   * the value of its first parseable token, if any.
   */
  function LineStep(rawLine: string, headerSkipped: bool, parseNum: string -> Option<real>): (r: (seq<real>, bool))
    ensures |r.0| <= 1 && (r.0 != [] ==> Trim(rawLine) != [])
    ensures r.1 == (headerSkipped || (Trim(rawLine) != [] && IsHeaderLine(Trim(rawLine))))
  {
    var line := Trim(rawLine);
    if line == [] then ([], headerSkipped)
    else if !headerSkipped && IsHeaderLine(line) then ([], true)
    else ((match LineValue(line, parseNum) case Some(v) => [v] case None => []), headerSkipped)
  }

  /** `parseECGValuesFromContent` over the lines: each line's contribution, in line order. */
  function ValuesFrom(lines: seq<string>, headerSkipped: bool, parseNum: string -> Option<real>): (r: seq<real>)
    ensures |r| <= NonBlankCount(lines)
  {
    if lines == [] then []
    else
      var step := LineStep(lines[0], headerSkipped, parseNum);
      step.0 + ValuesFrom(lines[1..], step.1, parseNum)
  }

  /** The values of a whole file's content. */
  function ContentValues(content: string, parseNum: string -> Option<real>): seq<real>
  {
    ValuesFrom(Split(content, Newline), false, parseNum)
  }

  method ParseECGValuesFromContent(content: string, parseNum: string -> Option<real>) returns (values: seq<real>)
    ensures values == ContentValues(content, parseNum)
  {
    values := [];
    var lines := Split(content, Newline);
    var headerSkipped := false;
    var i := 0;
    assert lines[i..] == lines;
    while i < |lines|
      invariant 0 <= i <= |lines|
      invariant values + ValuesFrom(lines[i..], headerSkipped, parseNum) == ValuesFrom(lines, false, parseNum)
    {
      assert lines[i..][0] == lines[i] && lines[i..][1..] == lines[i + 1..];
      var emitted, skipped := ReadLine(lines[i], headerSkipped, parseNum);
      ghost var rest := ValuesFrom(lines[i + 1..], skipped, parseNum);
      ConcatAssociates(values, emitted, rest);
      values := values + emitted;
      headerSkipped := skipped;
      i := i + 1;
    }
  }

  lemma ConcatAssociates(a: seq<real>, b: seq<real>, c: seq<real>)
    ensures a + (b + c) == (a + b) + c
  {
  }

  /** The loop body of `parseECGValuesFromContent` for one line. */
  method ReadLine(rawLine: string, headerSkipped: bool, parseNum: string -> Option<real>)
    returns (emitted: seq<real>, skipped: bool)
    ensures (emitted, skipped) == LineStep(rawLine, headerSkipped, parseNum)
  {
    emitted, skipped := [], headerSkipped;
    var line := Trim(rawLine);
    if line == [] {
      return;
    }
    if !headerSkipped && IsHeaderLine(line) {
      skipped := true;
      return;
    }
    var value := ParseLineToDouble(line, parseNum);
    if value.Some? {
      emitted := [value.value];
    }
  }

  /** The lines without the first non-blank header-like one. */
  function DropFirstHeader(lines: seq<string>): seq<string>
  {
    if lines == [] then []
    else if Trim(lines[0]) != [] && IsHeaderLine(Trim(lines[0])) then lines[1..]
    else [lines[0]] + DropFirstHeader(lines[1..])
  }

  /**
   * At most one header is dropped: reading the lines equals reading them
   * without their first header-like line and with no further skipping, so a
   * later header-like line is parsed like data.
   */
  lemma {:induction false} OneHeaderSkipped(lines: seq<string>, parseNum: string -> Option<real>)
    ensures ValuesFrom(lines, false, parseNum) == ValuesFrom(DropFirstHeader(lines), true, parseNum)
  {
    if lines != [] && !(Trim(lines[0]) != [] && IsHeaderLine(Trim(lines[0]))) {
      OneHeaderSkipped(lines[1..], parseNum);
      assert ([lines[0]] + DropFirstHeader(lines[1..]))[1..] == DropFirstHeader(lines[1..]);
    }
  }

  /** A file holding one header line and nothing else yields no values. */
  lemma HeaderOnlyContent(line: string, parseNum: string -> Option<real>)
    requires Trim(line) != [] && IsHeaderLine(Trim(line))
    requires forall j :: 0 <= j < |line| ==> line[j] != '\n'
    ensures ContentValues(line + "\n", parseNum) == []
  {
    assert line != [];
    PiecesAfterToken(line, '\n', "", Newline);
    assert line + "\n" == line + ['\n'] + "";
    assert Pieces(line + "\n", Newline) == [line, ""];
    assert DropTrailingEmpty([line, ""]) == [line];
    assert Split(line + "\n", Newline) == [line];
  }

  // ---------------------------------------------------------------------------
  // Rescaling.
  // ---------------------------------------------------------------------------

  /** The running minimum, started at `Double.MAX_VALUE`. */
  function MinFrom(s: seq<real>): (m: real)
    ensures m <= DOUBLE_MAX_VALUE
    ensures forall i :: 0 <= i < |s| ==> m <= s[i]
    ensures m == DOUBLE_MAX_VALUE || exists i :: 0 <= i < |s| && s[i] == m
  {
    if s == [] then DOUBLE_MAX_VALUE
    else
      var m := MinFrom(s[..|s| - 1]);
      assert forall i :: 0 <= i < |s| - 1 ==> s[..|s| - 1][i] == s[i];
      if s[|s| - 1] < m then s[|s| - 1] else m
  }

  /** The running maximum, started at `Double.MIN_VALUE`, a positive number. */
  function MaxFrom(s: seq<real>): (m: real)
    ensures m >= DOUBLE_MIN_VALUE
    ensures forall i :: 0 <= i < |s| ==> s[i] <= m
    ensures m == DOUBLE_MIN_VALUE || exists i :: 0 <= i < |s| && s[i] == m
  {
    if s == [] then DOUBLE_MIN_VALUE
    else
      var m := MaxFrom(s[..|s| - 1]);
      assert forall i :: 0 <= i < |s| - 1 ==> s[..|s| - 1][i] == s[i];
      if s[|s| - 1] > m then s[|s| - 1] else m
  }

  /** max - min, or 1 when that is zero. */
  function Range(s: seq<real>): (r: real)
    ensures r != 0.0
    ensures s != [] ==> r > 0.0
  {
    var r := MaxFrom(s) - MinFrom(s);
    if r == 0.0 then 1.0 else r
  }

  /** `preprocessECGData` on values: each sample minus the minimum, over the range. */
  function Rescaled(s: seq<real>): (r: seq<real>)
    ensures |r| == |s|
  {
    seq(|s|, i requires 0 <= i < |s| => (s[i] - MinFrom(s)) / Range(s))
  }

  method PreprocessECGData(rawValues: seq<real>) returns (processed: array<real>)
    ensures fresh(processed)
    ensures processed[..] == Rescaled(rawValues)
  {
    processed := new real[|rawValues|];
    var min, max := Extremes(rawValues);
    var range := max - min;
    if range == 0.0 {
      range := 1.0;
    }
    assert range == Range(rawValues);
    ghost var want := Rescaled(rawValues);
    var i := 0;
    while i < |rawValues|
      invariant 0 <= i <= |rawValues|
      invariant forall j :: 0 <= j < i ==> processed[j] == want[j]
    {
      processed[i] := (rawValues[i] - min) / range;
      i := i + 1;
    }
    assert processed[..] == want;
  }

  /** The first loop of `preprocessECGData`: the running minimum and maximum. */
  method Extremes(rawValues: seq<real>) returns (min: real, max: real)
    ensures min == MinFrom(rawValues) && max == MaxFrom(rawValues)
  {
    min := DOUBLE_MAX_VALUE;
    max := DOUBLE_MIN_VALUE;
    var k := 0;
    while k < |rawValues|
      invariant 0 <= k <= |rawValues|
      invariant min == MinFrom(rawValues[..k]) && max == MaxFrom(rawValues[..k])
    {
      assert rawValues[..k + 1][..k] == rawValues[..k];
      if rawValues[k] < min {
        min := rawValues[k];
      }
      if rawValues[k] > max {
        max := rawValues[k];
      }
      k := k + 1;
    }
    assert rawValues[..k] == rawValues;
  }


  /** Every rescaled sample lies in [0, 1]. */
  lemma RescaledInUnitInterval(s: seq<real>)
    ensures forall i :: 0 <= i < |s| ==> 0.0 <= Rescaled(s)[i] <= 1.0
  {
    var lo, hi, range := MinFrom(s), MaxFrom(s), Range(s);
    forall i | 0 <= i < |s| ensures 0.0 <= Rescaled(s)[i] <= 1.0 {
      assert Rescaled(s)[i] == (s[i] - lo) / range;
      assert 0.0 <= s[i] - lo <= range;
      DivideWithin(s[i] - lo, range);
    }
  }

  lemma DivideWithin(a: real, b: real)
    requires 0.0 <= a <= b && b > 0.0
    ensures 0.0 <= a / b <= 1.0
  {
  }

  /** A series of equal finite samples rescales to all zeros. */
  lemma RescaledConstant(s: seq<real>, c: real)
    requires c <= DOUBLE_MAX_VALUE
    requires forall i :: 0 <= i < |s| ==> s[i] == c
    ensures forall i :: 0 <= i < |s| ==> Rescaled(s)[i] == 0.0
  {
    if s != [] {
      assert MinFrom(s) == c;
      forall i | 0 <= i < |s| ensures Rescaled(s)[i] == 0.0 {
        assert Rescaled(s)[i] == (s[i] - MinFrom(s)) / Range(s);
      }
    }
  }

  /** When the largest sample is at least `Double.MIN_VALUE` and not every sample equals it, it maps to 1. */
  lemma RescaledMaxIsOne(s: seq<real>, k: nat, j: nat)
    requires k < |s| && j < |s| && s[j] != s[k]
    requires s[k] >= DOUBLE_MIN_VALUE && forall i :: 0 <= i < |s| ==> s[i] <= s[k]
    ensures Rescaled(s)[k] == 1.0
  {
    var lo := MinFrom(s);
    assert MaxFrom(s) == s[k];
    assert lo <= s[j] < s[k];
    assert Range(s) == s[k] - lo;
    assert Rescaled(s)[k] == (s[k] - lo) / (s[k] - lo);
    DivideSelf(s[k] - lo);
  }

  lemma DivideSelf(a: real)
    requires a > 0.0
    ensures a / a == 1.0
  {
  }

  /**
   * With every sample negative the maximum stays at `Double.MIN_VALUE`, so in
   * exact arithmetic even the largest sample maps below 1 (the program's
   * double rounding and float cast can still round it up to 1).
   */
  lemma AllNegativeMaxBelowOne(s: seq<real>, k: nat)
    requires k < |s| && forall i :: 0 <= i < |s| ==> s[i] < 0.0
    ensures Rescaled(s)[k] < 1.0
  {
    assert MaxFrom(s) == DOUBLE_MIN_VALUE;
    var lo := MinFrom(s);
    assert lo <= s[k] < DOUBLE_MIN_VALUE;
    assert Range(s) == DOUBLE_MIN_VALUE - lo;
    assert Rescaled(s)[k] == (s[k] - lo) / (DOUBLE_MIN_VALUE - lo);
    DivideBelow(s[k] - lo, DOUBLE_MIN_VALUE - lo);
  }

  lemma DivideBelow(a: real, b: real)
    requires 0.0 <= a < b
    ensures a / b < 1.0
  {
  }

  // ---------------------------------------------------------------------------
  // Results.
  // ---------------------------------------------------------------------------

  datatype Tally = Tally(normal: nat, abnormal: nat)
  {
    function Total(): nat { normal + abnormal }
    predicate AbnormalitiesDetected() { abnormal > 0 }
  }

  /** What `displayResults` shows: the no-beats message, or the counts over the total samples. */
  datatype Display = NoBeatsDetected | Report(totalSamples: nat, tally: Tally)

  /** Type 0 counts as normal, every other type as abnormal. */
  function Counted(results: seq<BeatClassification>, totalSamples: nat): (d: Display)
    ensures results == [] <==> d == NoBeatsDetected
    ensures d.Report? ==> d.totalSamples == totalSamples && d.tally.Total() == |results|
    ensures d.Report? ==> d.tally.normal == CountType(results, BEAT_TYPE_NORMAL)
  {
    if results == [] then NoBeatsDetected
    else
      CountTypeBound(results, BEAT_TYPE_NORMAL);
      var normal := CountType(results, BEAT_TYPE_NORMAL);
      Report(totalSamples, Tally(normal, |results| - normal))
  }

  lemma {:induction false} CountTypeBound(r: seq<BeatClassification>, t: int)
    ensures CountType(r, t) <= |r|
  {
    if r != [] {
      CountTypeBound(r[..|r| - 1], t);
    }
  }

  /** The counting loop of `displayResults`. */
  method DisplayResults(results: seq<BeatClassification>, totalSamples: nat) returns (display: Display)
    ensures display == Counted(results, totalSamples)
  {
    if results == [] {
      return NoBeatsDetected;
    }
    var normalBeats := 0;
    var abnormalBeats := 0;
    var i := 0;
    while i < |results|
      invariant 0 <= i <= |results|
      invariant normalBeats == CountType(results[..i], BEAT_TYPE_NORMAL)
      invariant normalBeats + abnormalBeats == i
    {
      assert results[..i + 1][..i] == results[..i];
      if results[i].beatType == BEAT_TYPE_NORMAL {
        normalBeats := normalBeats + 1;
      } else {
        abnormalBeats := abnormalBeats + 1;
      }
      i := i + 1;
    }
    assert results[..i] == results;
    display := Report(totalSamples, Tally(normalBeats, abnormalBeats));
  }

  /** The placeholder classification always reports 2 normal and 8 abnormal beats. */
  lemma PlaceholderTally(totalSamples: nat)
    ensures Counted(Classification(true), totalSamples) == Report(totalSamples, Tally(2, 8))
    ensures Counted(Classification(true), totalSamples).tally.AbnormalitiesDetected()
  {
    ClassificationMix(BEAT_TYPE_NORMAL);
  }

  /** `getBeatTypeDescription`. */
  function BeatTypeDescription(beatType: int): (d: string)
    ensures !IsBeatType(beatType) <==> d == "Unknown/Unclassified Beat (Q)"
  {
    match beatType
    case 0 => "Normal Beat (N)"
    case 1 => "Supraventricular Ectopic Beat (L)"
    case 2 => "Ventricular Ectopic Beat (R)"
    case 3 => "Fusion Beat (A)"
    case 4 => "Fusion Beat (V)"
    case -1 => "Fusion Beat (U)"
    case _ => "Unknown/Unclassified Beat (Q)"
  }

  /** Each named type's description ends with its code in parentheses (the catch-all uses Q, not "?"). */
  lemma DescriptionCarriesCode(beatType: int)
    requires IsBeatType(beatType)
    ensures EndsWith(BeatTypeDescription(beatType), "(" + BeatTypeCode(beatType) + ")")
  {
    var c := BeatTypeCode(beatType);
    var name := match beatType
      case 0 => "Normal Beat "
      case 1 => "Supraventricular Ectopic Beat "
      case 2 => "Ventricular Ectopic Beat "
      case 3 => "Fusion Beat "
      case 4 => "Fusion Beat "
      case _ => "Fusion Beat ";
    assert BeatTypeDescription(beatType) == name + ("(" + c + ")");
    EndsWithAppended(name, "(" + c + ")");
  }

  lemma EndsWithAppended(a: string, b: string)
    ensures EndsWith(a + b, b)
  {
    assert (a + b)[|a|..] == b;
  }

  // ---------------------------------------------------------------------------
  // File acceptance and the pipeline.
  // ---------------------------------------------------------------------------

  predicate HasCsvExtension(fileName: string)
  {
    EndsWith(ToLower(fileName), ".csv") || EndsWith(ToLower(fileName), ".txt")
  }

  /**
   * `isValidCSVFile`, with the resolved file name and the first line (None
   * when the stream cannot be opened or is empty) as inputs.
   */
  function IsValidCSVFile(hasActivity: bool, fileName: string, firstLine: Option<string>): (accepted: bool)
    ensures accepted <==>
      hasActivity && ((firstLine.Some? && MatchesDigitPattern(firstLine.value)) || HasCsvExtension(fileName))
    ensures accepted && !HasCsvExtension(fileName) ==> firstLine.Some? && HasDigit(firstLine.value)
  {
    if !hasActivity then false
    else if firstLine.Some? && MatchesDigitPattern(firstLine.value) then true
    else HasCsvExtension(fileName)
  }

  /** The extension test ignores case: "DATA.CSV" is accepted. */
  lemma UpperCaseExtension(fileName: string)
    requires EndsWith(fileName, ".CSV")
    ensures HasCsvExtension(fileName)
  {
    var n := |fileName|;
    var lower := ToLower(fileName);
    assert lower[n - 4..] == ".csv" by {
      assert fileName[n - 4..] == ".CSV";
      assert fileName[n - 4] == '.' && fileName[n - 3] == 'C' && fileName[n - 2] == 'S' && fileName[n - 1] == 'V';
    }
  }

  /** How a run of the pipeline ends: an error message, or what `displayResults` shows. */
  datatype Outcome = Failed(message: string) | Shown(display: Display)

  /**
   * The pipeline on values. `read` is what `readFileContent` gives (an error
   * carries the exception's message); `classifier` is None for a null
   * classifier, otherwise whether its model is loaded.
   */
  function PipelineOutcome(read: Result<string, string>, classifier: Option<bool>, parseNum: string -> Option<real>): Outcome
  {
    match read
    case Err(message) => Failed(message)
    case Ok(content) =>
      if content == [] then Failed(EMPTY_FILE_MESSAGE)
      else
        var values := ContentValues(content, parseNum);
        if values == [] then Failed(NO_DATA_MESSAGE)
        else
          match classifier
          case None => Failed(NO_CLASSIFIER_MESSAGE)
          case Some(loaded) => Shown(Counted(Classification(loaded), |values|))
  }

  /**
   * `processSelectedCSVFile` with `analyzeECGData` and `displayResults`, run
   * sequentially; `toCsv` stands for `convertToCSVFormat`.
   */
  method ProcessSelectedCSVFile(read: Result<string, string>, classifier: ECGClassifier?,
                                parseNum: string -> Option<real>, toCsv: seq<real> -> seq<string>)
    returns (outcome: Outcome)
    ensures outcome == PipelineOutcome(read, if classifier == null then None else Some(classifier.IsModelLoaded()), parseNum)
  {
    if read.Err? {
      return Failed(read.error);
    }
    var fileContent := read.value;
    if fileContent == [] {
      return Failed(EMPTY_FILE_MESSAGE);
    }
    var ecgValues := ParseECGValuesFromContent(fileContent, parseNum);
    if ecgValues == [] {
      return Failed(NO_DATA_MESSAGE);
    }
    var processedData := PreprocessECGData(ecgValues);
    if classifier == null {
      return Failed(NO_CLASSIFIER_MESSAGE);
    }
    var results := classifier.ClassifyCSVData(toCsv(processedData[..]));
    var display := DisplayResults(results, |ecgValues|);
    return Shown(display);
  }

  /**
   * The pipeline fails exactly when the file cannot be read, is empty, yields
   * no value, or there is no classifier; an unloaded classifier is not a
   * failure but shows "No beats detected".
   */
  lemma PipelineFailures(read: Result<string, string>, classifier: Option<bool>, parseNum: string -> Option<real>)
    ensures PipelineOutcome(read, classifier, parseNum).Failed? <==>
      read.Err? || read.value == [] || ContentValues(read.value, parseNum) == [] || classifier.None?
    ensures read.Ok? && read.value != [] && ContentValues(read.value, parseNum) != [] && classifier == Some(false) ==>
      PipelineOutcome(read, classifier, parseNum) == Shown(NoBeatsDetected)
    ensures read.Ok? && read.value != [] && ContentValues(read.value, parseNum) != [] && classifier == Some(true) ==>
      PipelineOutcome(read, classifier, parseNum) == Shown(Report(|ContentValues(read.value, parseNum)|, Tally(2, 8)))
  {
    if read.Ok? && read.value != [] && ContentValues(read.value, parseNum) != [] && classifier == Some(true) {
      PlaceholderTally(|ContentValues(read.value, parseNum)|);
    }
  }

  /** A file holding only a header line fails with "No valid ECG data found". */
  lemma HeaderOnlyFileFails(line: string, classifier: Option<bool>, parseNum: string -> Option<real>)
    requires Trim(line) != [] && IsHeaderLine(Trim(line))
    requires forall j :: 0 <= j < |line| ==> line[j] != '\n'
    ensures PipelineOutcome(Ok(line + "\n"), classifier, parseNum) == Failed(NO_DATA_MESSAGE)
  {
    HeaderOnlyContent(line, parseNum);
  }
}
