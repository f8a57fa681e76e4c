/**
 * The streaming vitals decoder (MedicalDataAnalyzer): each line from the
 * device is routed to one of four decoders in a fixed priority, which update
 * the current heart rate and SpO2 and append ECG samples to a rolling buffer
 * of at most 1000 values; every line then yields a snapshot of the state.
 *
 * The decoders are specified by pure functions over `Vitals`, whose `history`
 * is every ECG value appended since the last reset; the class keeps the
 * bounded buffer and proves it is always the latest 1000 of that history.
 */
module VitalsAnalyzer {
  import opened Wrappers
  import opened JavaText

  const MIN_HEART_RATE: int := 30
  const MAX_HEART_RATE: int := 220
  const MIN_SPO2: int := 70
  const MAX_SPO2: int := 100
  const ECG_CAPACITY: nat := 1000

  /** The decoded state: heart rate, SpO2 and every ECG value appended so far. */
  datatype Vitals = Vitals(heartRate: int, spo2: int, history: seq<int>)

  /** The update posted after every processed line (the Handler message's bundle). */
  datatype Snapshot = Snapshot(heartRate: int, spo2: int, ecgSamples: nat, rawData: string)

  // ---------------------------------------------------------------------------
  // The rolling ECG buffer.
  // ---------------------------------------------------------------------------

  /** The most recent `ECG_CAPACITY` values of a history, in arrival order. */
  function Latest(h: seq<int>): (b: seq<int>)
    ensures |b| <= ECG_CAPACITY
    ensures |b| == if |h| < ECG_CAPACITY then |h| else ECG_CAPACITY
    ensures b == h[|h| - |b|..]
  {
    if |h| <= ECG_CAPACITY then h else h[|h| - ECG_CAPACITY..]
  }

  /** `ecgData.add(v); if (ecgData.size() > 1000) ecgData.remove(0);` */
  function Push(buffer: seq<int>, value: int): (b: seq<int>)
    ensures |b| > 0 && b[|b| - 1] == value
    ensures |buffer| <= ECG_CAPACITY ==> |b| <= ECG_CAPACITY
    ensures |buffer| < ECG_CAPACITY ==> b == buffer + [value]
    ensures |buffer| == ECG_CAPACITY ==> b == buffer[1..] + [value]
  {
    var grown := buffer + [value];
    if |grown| > ECG_CAPACITY then grown[1..] else grown
  }

  /** Pushing a sequence of values one after another. */
  function PushAll(buffer: seq<int>, values: seq<int>): seq<int>
    decreases |values|
  {
    if values == [] then buffer else PushAll(Push(buffer, values[0]), values[1..])
  }

  /** One push onto the latest window of a history is the latest window of the longer history. */
  lemma PushKeepsLatest(h: seq<int>, value: int)
    ensures Push(Latest(h), value) == Latest(h + [value])
  {
    var hv := h + [value];
    if |h| >= ECG_CAPACITY {
      assert (Latest(h) + [value])[1..] == hv[|hv| - ECG_CAPACITY..];
    }
  }

  /** Any number of pushes keep the buffer equal to the latest window of everything appended. */
  lemma {:induction false} PushAllKeepsLatest(h: seq<int>, values: seq<int>)
    ensures PushAll(Latest(h), values) == Latest(h + values)
    decreases |values|
  {
    if values != [] {
      var v, rest := values[0], values[1..];
      assert h + values == (h + [v]) + rest;
      calc {
        PushAll(Latest(h), values);
        PushAll(Push(Latest(h), v), rest);
        { PushKeepsLatest(h, v); }
        PushAll(Latest(h + [v]), rest);
        { PushAllKeepsLatest(h + [v], rest); }
        Latest(h + values);
      }
    }
  }

  /** The last k values of the buffer are the last k values of the history. */
  lemma LatestSuffix(h: seq<int>, k: nat)
    requires k <= |Latest(h)|
    ensures |Latest(h)| <= |h| && Latest(h)[|Latest(h)| - k..] == h[|h| - k..]
  {
    var b := Latest(h);
    assert b == h[|h| - |b|..];
    assert b[|b| - k..] == h[|h| - k..];
  }

  /** The last k values of the buffer, as a window of the history. */
  lemma RecentWindow(b: seq<int>, h: seq<int>, k: nat)
    requires b == Latest(h) && k <= |b|
    ensures k <= |h| && b[|b| - k..] == h[|h| - k..]
  {
    LatestSuffix(h, k);
  }

  /** Feeding 1050 values into an empty buffer leaves exactly the last 1000, in order. */
  lemma Feed1050(values: seq<int>)
    requires |values| == 1050
    ensures PushAll([], values) == values[50..]
    ensures |PushAll([], values)| == ECG_CAPACITY
  {
    PushAllKeepsLatest([], values);
    assert [] + values == values;
  }

  // ---------------------------------------------------------------------------
  // Health status.
  // ---------------------------------------------------------------------------

  datatype HealthStatus = InvalidData | Bradycardia | Tachycardia | LowOxygen | Normal | UnknownStatus

  /** `isDataValid()`: both readings inside their physiological range. */
  predicate IsDataValid(heartRate: int, spo2: int)
  {
    MIN_HEART_RATE <= heartRate <= MAX_HEART_RATE && MIN_SPO2 <= spo2 <= MAX_SPO2
  }

  /**
   * `getHealthStatus()`: the decision ladder, stated as the region of
   * (heart rate, SpO2) that yields each answer. "Unknown status" is unreachable.
   */
  function Status(heartRate: int, spo2: int): (s: HealthStatus)
    ensures s != UnknownStatus
    ensures s == InvalidData <==> !IsDataValid(heartRate, spo2)
    ensures s == Bradycardia <==> 30 <= heartRate < 60 && 70 <= spo2 <= 100
    ensures s == Tachycardia <==> 100 < heartRate <= 220 && 70 <= spo2 <= 100
    ensures s == LowOxygen <==> 60 <= heartRate <= 100 && 70 <= spo2 < 95
    ensures s == Normal <==> 60 <= heartRate <= 100 && 95 <= spo2 <= 100
  {
    if !IsDataValid(heartRate, spo2) then InvalidData
    else if heartRate < 60 then Bradycardia
    else if heartRate > 100 then Tachycardia
    else if spo2 < 95 then LowOxygen
    else if spo2 >= 95 && spo2 <= 100 then Normal
    else UnknownStatus
  }

  /** The text `getHealthStatus()` returns for each status. */
  function StatusText(s: HealthStatus): string
  {
    match s
    case InvalidData => "Invalid data"
    case Bradycardia => "Bradycardia (Low HR)"
    case Tachycardia => "Tachycardia (High HR)"
    case LowOxygen => "Low Oxygen"
    case Normal => "Normal"
    case UnknownStatus => "Unknown status"
  }

  /** The status strings tell the statuses apart. */
  lemma StatusTextDistinct(a: HealthStatus, b: HealthStatus)
    requires a != b
    ensures StatusText(a) != StatusText(b)
  {
    assert StatusText(a)[0] != StatusText(b)[0] || |StatusText(a)| != |StatusText(b)|;
  }

  // ---------------------------------------------------------------------------
  // The four decoders, as functions of the state before the line.
  // ---------------------------------------------------------------------------

  /** Which decoder `processData` hands a line to. */
  datatype Decoder = Tagged | CommaFields | DigitGroups | PatternSearch

  /** Whether a line carries all three tags of the formatted output. */
  predicate HasAllTags(line: string)
  {
    Contains(line, "HR:") && Contains(line, "SpO2:") && Contains(line, "ECG:")
  }

  /**
   * The first matching rule wins: each decoder receives exactly the lines
   * that fail every earlier rule and pass its own.
   */
  function Route(line: string): (r: Decoder)
    ensures r == Tagged <==> HasAllTags(line)
    ensures r == CommaFields <==> !HasAllTags(line) && Contains(line, ",")
    ensures r == DigitGroups <==> !HasAllTags(line) && !Contains(line, ",") && MatchesDigitPattern(line)
    ensures r == PatternSearch <==> !HasAllTags(line) && !Contains(line, ",") && !MatchesDigitPattern(line)
    ensures r == DigitGroups ==> HasDigit(line)
  {
    if HasAllTags(line) then Tagged
    else if Contains(line, ",") then CommaFields
    else if MatchesDigitPattern(line) then DigitGroups
    else PatternSearch
  }

  function AppendValue(v: Vitals, value: int): Vitals
  {
    v.(history := v.history + [value])
  }

  /**
   * One part of a `parseFormattedData` line: `HR:`, `SpO2:`/`SPO2:`/`O2:` and
   * `ECG:` (or an all-digit part) set or append their value, any other part is
   * skipped; `None` when the part's number does not parse, which ends the loop.
   */
  function TaggedStep(v: Vitals, part: string): (r: Option<Vitals>)
    ensures r.Some? ==> v.history <= r.value.history && |r.value.history| <= |v.history| + 1
  {
    if StartsWith(part, "HR:") then
      match ParseInt(part[3..])
      case None => None
      case Some(n) => Some(v.(heartRate := n))
    else if StartsWith(part, "SpO2:") || StartsWith(part, "SPO2:") || StartsWith(part, "O2:") then
      match ParseInt(part[IndexOf(part, ':') + 1..])
      case None => None
      case Some(n) => Some(v.(spo2 := n))
    else if StartsWith(part, "ECG:") || (|part| > 0 && AllDigits(part)) then
      match ParseInt(Replace(part, "ECG:", ""))
      case None => None
      case Some(n) => Some(AppendValue(v, n))
    else Some(v)
  }

  /**
   * `parseFormattedData` over the space-separated parts: each part in turn,
   * until the first whose number does not parse, keeping what was already set.
   */
  function TaggedDecode(v: Vitals, parts: seq<string>): (r: Vitals)
    ensures v.history <= r.history && |r.history| <= |v.history| + |parts|
    decreases |parts|
  {
    if parts == [] then v
    else
      match TaggedStep(v, parts[0])
      case None => v
      case Some(w) => TaggedDecode(w, parts[1..])
  }

  /** `parseNumber`: drop every non-digit, then parse; 0 when nothing parseable is left. */
  function ParseNumber(value: string): (n: int)
    ensures 0 <= n <= INT_MAX
    ensures !HasDigit(value) ==> n == 0
    ensures HasDigit(value) && DecimalValue(KeepDigits(value)) <= INT_MAX ==> n == DecimalValue(KeepDigits(value))
    ensures DecimalValue(KeepDigits(value)) > INT_MAX ==> n == 0
  {
    KeepDigitsAllDigits(value);
    ParseIntOfDigits(KeepDigits(value));
    match ParseInt(KeepDigits(value))
    case Some(k) => k
    case None => 0
  }

  /** `parseCsvData`: with at least three comma fields, all three readings are set. */
  function CommaDecode(v: Vitals, line: string): (r: Vitals)
    ensures r == v <==> |Split(line, Comma)| < 3
    ensures |Split(line, Comma)| >= 3 ==>
      v.history <= r.history && |r.history| == |v.history| + 1 &&
      0 <= r.heartRate && 0 <= r.spo2 && 0 <= r.history[|v.history|]
  {
    var fields := Split(line, Comma);
    if |fields| >= 3 then
      AppendValue(Vitals(ParseNumber(fields[0]), ParseNumber(fields[1]), v.history), ParseNumber(fields[2]))
    else v
  }

  /** `parseNumericData`: the groups between runs of non-digits, parsed in order until one fails. */
  function DigitGroupDecode(v: Vitals, line: string): (r: Vitals)
    ensures |SplitNonDigits(line)| < 3 ==> r == v
    ensures v.history <= r.history && |r.history| <= |v.history| + 1
    ensures r.heartRate == v.heartRate || 0 <= r.heartRate
    ensures r.spo2 == v.spo2 || 0 <= r.spo2
    ensures r.history == v.history || 0 <= r.history[|v.history|]
  {
    var groups := SplitNonDigits(line);
    SplitNonDigitsShape(line);
    if |groups| >= 3 then
      ParseIntOfDigits(groups[0]);
      ParseIntOfDigits(groups[1]);
      ParseIntOfDigits(groups[2]);
      match ParseInt(groups[0])
      case None => v
      case Some(hr) =>
        match ParseInt(groups[1])
        case None => v.(heartRate := hr)
        case Some(o2) =>
          match ParseInt(groups[2])
          case None => v.(heartRate := hr, spo2 := o2)
          case Some(ecg) => AppendValue(v.(heartRate := hr, spo2 := o2), ecg)
    else v
  }

  /** The three fallback regexes, each anchored by word boundaries. */
  datatype WordPattern =
    | HeartRateWord // \b([6-9][0-9]|1[0-9]{2})\b
    | Spo2Word      // \b(9[5-9]|100)\b
    | EcgWord       // \b\d{3,4}\b

  /** A whole word (a maximal run of word characters) that the pattern matches. */
  predicate Accepts(p: WordPattern, w: string)
  {
    AllDigits(w) &&
    match p
    case HeartRateWord => (|w| == 2 && '6' <= w[0]) || (|w| == 3 && w[0] == '1')
    case Spo2Word => (|w| == 2 && w[0] == '9' && '5' <= w[1]) || w == "100"
    case EcgWord => 3 <= |w| <= 4
  }

  /** A word begins at `j`: a word character not preceded by one. */
  predicate WordStart(s: string, j: int)
  {
    0 <= j < |s| && IsWordChar(s[j]) && (j == 0 || !IsWordChar(s[j - 1]))
  }

  /** The end of the run of word characters starting at `i`. */
  function WordEnd(s: string, i: nat): (e: nat)
    requires i <= |s|
    ensures i <= e <= |s|
    ensures e == |s| || !IsWordChar(s[e])
    ensures forall j :: i <= j < e ==> IsWordChar(s[j])
    decreases |s| - i
  {
    if i < |s| && IsWordChar(s[i]) then WordEnd(s, i + 1) else i
  }

  /**
   * `Matcher.find()` from position `i`: a match of `\b...\b` around digits is a
   * whole word, so the first match is the first word the pattern accepts.
   */
  function FindWord(s: string, p: WordPattern, i: nat): (r: Option<string>)
    requires i <= |s|
    ensures r.Some? ==> Accepts(p, r.value)
    decreases |s| - i
  {
    if i == |s| then None
    else if WordStart(s, i) then
      var e := WordEnd(s, i);
      if Accepts(p, s[i..e]) then Some(s[i..e]) else FindWord(s, p, e)
    else FindWord(s, p, i + 1)
  }

  /** No word starting in `[i, j)` is accepted by the pattern. */
  predicate NoneAccepted(s: string, p: WordPattern, i: nat, j: nat)
    requires j <= |s|
  {
    forall k :: i <= k < j && WordStart(s, k) ==> !Accepts(p, s[k..WordEnd(s, k)])
  }

  /**
   * What `find()` finds: the leftmost whole word from `i` on that the pattern
   * accepts, and nothing exactly when no such word exists.
   */
  lemma {:induction false} FindWordLeftmost(s: string, p: WordPattern, i: nat)
    requires i <= |s|
    ensures FindWord(s, p, i).Some? ==>
      exists j :: i <= j < |s| && WordStart(s, j) && FindWord(s, p, i).value == s[j..WordEnd(s, j)] &&
        NoneAccepted(s, p, i, j)
    ensures FindWord(s, p, i).None? <==> NoneAccepted(s, p, i, |s|)
    decreases |s| - i, 1
  {
    if i == |s| {
    } else if WordStart(s, i) {
      var e := WordEnd(s, i);
      if Accepts(p, s[i..e]) {
        assert NoneAccepted(s, p, i, i);
        assert !NoneAccepted(s, p, i, |s|);
      } else {
        assert forall k :: i < k < e ==> !WordStart(s, k);
        FindWordSkip(s, p, i, e);
      }
    } else {
      FindWordSkip(s, p, i, i + 1);
    }
  }

  /** Searching from `i` goes on from `m` when no word in `[i, m)` is accepted. */
  lemma {:induction false} FindWordSkip(s: string, p: WordPattern, i: nat, m: nat)
    requires i < m <= |s| && FindWord(s, p, i) == FindWord(s, p, m) && NoneAccepted(s, p, i, m)
    ensures FindWord(s, p, i).Some? ==>
      exists j :: i <= j < |s| && WordStart(s, j) && FindWord(s, p, i).value == s[j..WordEnd(s, j)] &&
        NoneAccepted(s, p, i, j)
    ensures FindWord(s, p, i).None? <==> NoneAccepted(s, p, i, |s|)
    decreases |s| - i, 0
  {
    var r := FindWord(s, p, m);
    FindWordLeftmost(s, p, m);
    if r.Some? {
      var j :| m <= j < |s| && WordStart(s, j) && r.value == s[j..WordEnd(s, j)] && NoneAccepted(s, p, m, j);
      NoneAcceptedJoin(s, p, i, m, j);
    }
    NoneAcceptedSplit(s, p, i, m, |s|);
  }

  lemma NoneAcceptedJoin(s: string, p: WordPattern, i: nat, m: nat, j: nat)
    requires i <= m <= j <= |s|
    requires NoneAccepted(s, p, i, m) && NoneAccepted(s, p, m, j)
    ensures NoneAccepted(s, p, i, j)
  {
  }

  lemma NoneAcceptedSplit(s: string, p: WordPattern, i: nat, m: nat, j: nat)
    requires i <= m <= j <= |s| && NoneAccepted(s, p, i, m)
    ensures NoneAccepted(s, p, i, j) <==> NoneAccepted(s, p, m, j)
  {
  }

  /** The value of a two-digit string. */
  lemma DecimalValue2(w: string)
    requires |w| == 2 && AllDigits(w)
    ensures DecimalValue(w) == DigitValue(w[0]) * 10 + DigitValue(w[1])
  {
    var first := w[..1];
    assert first[..0] == [] && first[0] == w[0];
    assert DecimalValue(first) == DigitValue(w[0]);
  }

  /** The value of a three-digit string. */
  lemma DecimalValue3(w: string)
    requires |w| == 3 && AllDigits(w)
    ensures DecimalValue(w) == DigitValue(w[0]) * 100 + DigitValue(w[1]) * 10 + DigitValue(w[2])
  {
    DecimalValue2(w[..2]);
    assert w[..2][0] == w[0] && w[..2][1] == w[1];
  }

  /** What each fallback regex can read: heart rates 60 to 199, SpO2 95 to 100, ECG values below 10000. */
  lemma AcceptedValue(p: WordPattern, w: string)
    requires Accepts(p, w)
    ensures p == HeartRateWord ==> 60 <= DecimalValue(w) <= 199
    ensures p == Spo2Word ==> 95 <= DecimalValue(w) <= 100
    ensures p == EcgWord ==> DecimalValue(w) <= 9999
  {
    if |w| == 2 {
      DecimalValue2(w);
    } else if |w| == 3 {
      DecimalValue3(w);
      if p == Spo2Word {
        assert w == "100";
      }
    } else {
      DecimalValue3(w[..3]);
      assert w[..3][0] == w[0] && w[..3][1] == w[1] && w[..3][2] == w[2];
    }
  }

  /** `extractMedicalData`: each pattern independently sets its reading when it finds a word. */
  function PatternDecode(v: Vitals, line: string): Vitals
  {
    var v1 := match FindWord(line, HeartRateWord, 0)
      case Some(w) => v.(heartRate := DecimalValue(w))
      case None => v;
    var v2 := match FindWord(line, Spo2Word, 0)
      case Some(w) => v1.(spo2 := DecimalValue(w))
      case None => v1;
    match FindWord(line, EcgWord, 0)
    case Some(w) => AppendValue(v2, DecimalValue(w))
    case None => v2
  }

  /**
   * The fallback decoder only ever sets a heart rate in 60..199, an SpO2 in
   * 95..100 and appends at most one ECG value, below 10000; and it appends
   * one exactly when the ECG pattern finds a word.
   */
  lemma PatternDecodeReadings(v: Vitals, line: string)
    ensures PatternDecode(v, line).heartRate == v.heartRate || 60 <= PatternDecode(v, line).heartRate <= 199
    ensures PatternDecode(v, line).spo2 == v.spo2 || 95 <= PatternDecode(v, line).spo2 <= 100
    ensures v.history <= PatternDecode(v, line).history
    ensures |PatternDecode(v, line).history| == |v.history| + (if FindWord(line, EcgWord, 0).Some? then 1 else 0)
    ensures FindWord(line, EcgWord, 0).Some? ==> PatternDecode(v, line).history[|v.history|] <= 9999
  {
    var hr := FindWord(line, HeartRateWord, 0);
    var o2 := FindWord(line, Spo2Word, 0);
    var ecg := FindWord(line, EcgWord, 0);
    if hr.Some? {
      AcceptedValue(HeartRateWord, hr.value);
    }
    if o2.Some? {
      AcceptedValue(Spo2Word, o2.value);
    }
    if ecg.Some? {
      AcceptedValue(EcgWord, ecg.value);
    }
  }

  /** `processData` on the decoded state: whichever decoder runs, the ECG history only grows. */
  function Decode(v: Vitals, line: string): (r: Vitals)
    ensures v.history <= r.history
  {
    match Route(line)
    case Tagged => TaggedDecode(v, Split(line, Space))
    case CommaFields => CommaDecode(v, line)
    case DigitGroups => DigitGroupDecode(v, line)
    case PatternSearch => PatternDecodeReadings(v, line); PatternDecode(v, line)
  }

  // ---------------------------------------------------------------------------
  // The analyzer object.
  // ---------------------------------------------------------------------------

  class Analyzer {
    var heartRate: int
    var spo2: int
    var ecgData: seq<int>
    var rawData: string
    /** Every ECG value appended since construction or the last reset. */
    ghost var history: seq<int>

    /** The buffer is always the latest window of the history (so at most 1000 long). */
    ghost predicate Valid()
      reads this
    {
      ecgData == Latest(history)
    }

    ghost function State(): Vitals
      reads this
    {
      Vitals(heartRate, spo2, history)
    }

    constructor ()
      ensures Valid()
      ensures State() == Vitals(0, 0, []) && ecgData == [] && rawData == ""
    {
      heartRate := 0;
      spo2 := 0;
      ecgData := [];
      rawData := "";
      history := [];
    }

    /** `processData(line)` for a non-null line: decode, then post the snapshot. */
    method ProcessData(line: string) returns (snapshot: Snapshot)
      requires Valid()
      modifies this
      ensures Valid() && |ecgData| <= ECG_CAPACITY
      ensures State() == Decode(old(State()), line)
      ensures rawData == line
      ensures snapshot == Snapshot(heartRate, spo2, |ecgData|, line)
    {
      rawData := line;
      if Contains(line, "HR:") && Contains(line, "SpO2:") && Contains(line, "ECG:") {
        ParseFormattedData(line);
      } else if Contains(line, ",") {
        ParseCsvData(line);
      } else if MatchesDigitPattern(line) {
        ParseNumericData(line);
      } else {
        ExtractMedicalData(line);
      }
      snapshot := Snapshot(heartRate, spo2, |ecgData|, rawData);
    }

    /** The add-then-trim step every decoder uses to append an ECG value. */
    method AppendEcg(value: int)
      requires Valid()
      modifies this
      ensures Valid()
      ensures ecgData == Push(old(ecgData), value)
      ensures State() == AppendValue(old(State()), value) && rawData == old(rawData)
    {
      PushKeepsLatest(history, value);
      ecgData := ecgData + [value];
      if |ecgData| > ECG_CAPACITY {
        ecgData := ecgData[1..];
      }
      history := history + [value];
    }

    method ParseFormattedData(data: string)
      requires Valid()
      modifies this
      ensures Valid() && rawData == old(rawData)
      ensures State() == TaggedDecode(old(State()), Split(data, Space))
    {
      var parts := Split(data, Space);
      ghost var goal := TaggedDecode(State(), parts);
      var i := 0;
      while i < |parts|
        invariant 0 <= i <= |parts|
        invariant Valid() && rawData == old(rawData)
        invariant TaggedDecode(State(), parts[i..]) == goal
      {
        assert parts[i..][0] == parts[i] && parts[i..][1..] == parts[i + 1..];
        var parsed := ApplyTaggedPart(parts[i]);
        if !parsed {
          break;
        }
        i := i + 1;
      }
    }

    /** The body of `parseFormattedData`'s loop for one part; false means the loop stops there. */
    method ApplyTaggedPart(part: string) returns (parsed: bool)
      requires Valid()
      modifies this
      ensures Valid() && rawData == old(rawData)
      ensures parsed ==> TaggedStep(old(State()), part) == Some(State())
      ensures !parsed ==> TaggedStep(old(State()), part) == None && State() == old(State())
    {
      parsed := true;
      if StartsWith(part, "HR:") {
        var n := ParseInt(part[3..]);
        if n.None? {
          return false;
        }
        heartRate := n.value;
      } else if StartsWith(part, "SpO2:") || StartsWith(part, "SPO2:") || StartsWith(part, "O2:") {
        var n := ParseInt(part[IndexOf(part, ':') + 1..]);
        if n.None? {
          return false;
        }
        spo2 := n.value;
      } else if StartsWith(part, "ECG:") || (|part| > 0 && AllDigits(part)) {
        var n := ParseInt(Replace(part, "ECG:", ""));
        if n.None? {
          return false;
        }
        AppendEcg(n.value);
      }
    }

    method ParseCsvData(data: string)
      requires Valid()
      modifies this
      ensures Valid() && rawData == old(rawData)
      ensures State() == CommaDecode(old(State()), data)
    {
      var values := Split(data, Comma);
      if |values| >= 3 {
        heartRate := ParseNumber(values[0]);
        spo2 := ParseNumber(values[1]);
        var ecgValue := ParseNumber(values[2]);
        AppendEcg(ecgValue);
      }
    }

    method ParseNumericData(data: string)
      requires Valid()
      modifies this
      ensures Valid() && rawData == old(rawData)
      ensures State() == DigitGroupDecode(old(State()), data)
    {
      var numbers := SplitNonDigits(data);
      if |numbers| >= 3 {
        var hr := ParseInt(numbers[0]);
        if hr.None? {
          return;
        }
        heartRate := hr.value;
        var o2 := ParseInt(numbers[1]);
        if o2.None? {
          return;
        }
        spo2 := o2.value;
        var ecg := ParseInt(numbers[2]);
        if ecg.None? {
          return;
        }
        AppendEcg(ecg.value);
      }
    }

    method ExtractMedicalData(data: string)
      requires Valid()
      modifies this
      ensures Valid() && rawData == old(rawData)
      ensures State() == PatternDecode(old(State()), data)
    {
      var hr := FindWord(data, HeartRateWord, 0);
      if hr.Some? {
        heartRate := DecimalValue(hr.value);
      }
      var o2 := FindWord(data, Spo2Word, 0);
      if o2.Some? {
        spo2 := DecimalValue(o2.value);
      }
      var ecg := FindWord(data, EcgWord, 0);
      if ecg.Some? {
        AppendEcg(DecimalValue(ecg.value));
      }
    }

    /** `getRecentEcgData(count)`: the last min(count, size) values in order; Java throws for a negative count. */
    function RecentEcgData(count: int): (r: Option<seq<int>>)
      requires Valid()
      reads this
      ensures r.None? <==> count < 0
      ensures r.Some? ==>
        var k := if count < |ecgData| then count else |ecgData|;
        k <= |history| && r.value == history[|history| - k..]
    {
      if count < 0 then None
      else
        var k := if count < |ecgData| then count else |ecgData|;
        RecentWindow(ecgData, history, k);
        Some(ecgData[|ecgData| - k..])
    }

    /** `reset()`: back to the initial state, whose status is "Invalid data". */
    method Reset()
      modifies this
      ensures Valid()
      ensures State() == Vitals(0, 0, []) && ecgData == [] && rawData == ""
      ensures Status(heartRate, spo2) == InvalidData
    {
      heartRate := 0;
      spo2 := 0;
      ecgData := [];
      rawData := "";
      history := [];
    }
  }
}
