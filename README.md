# Aorta_Sync ECG core in Dafny

Aorta_Sync is an Android application that reads vital signs from an
Arduino-based sensor over Bluetooth and analyses ECG recordings stored as CSV
files. This project models the computational core of the application and
proves properties of it:

- **The vitals decoder** (`MedicalDataAnalyzer`; `vitals_analyzer.dfy`, with
  the properties in `vitals_properties.dfy`). Each line from the device goes
  to one of four decoders, in a fixed priority: tagged `HR:/SpO2:/ECG:`
  fields, comma-separated fields, groups of digits, or a word-pattern
  search. The decoders update the heart rate and SpO2 and append ECG samples
  to a rolling buffer of at most 1000 values. The object is a class whose
  methods update its fields. Each method is proved against a pure function of
  the state before the line (`Decode`), and the class invariant says that the
  buffer is always the latest 1000 values of everything appended since the
  last reset. The health-status ladder, the validity ranges and
  `getRecentEcgData` are modelled as well.
- **The signal preprocessor** (`ECGPreprocessor`; `preprocessor.dfy`). It reads
  one float per line, detects R peaks, cuts 300-sample windows around them
  and normalises each window to zero mean and unit deviation. Every loop
  keeps its loop and its array, and is proved against a function. The lemmas
  prove several facts about the result:
  - every detected peak is a local maximum above 60 % of the largest
    magnitude;
  - peaks are at least 101 samples apart;
  - every above-threshold local maximum lies within 101 samples after some
    reported peak;
  - a window is kept exactly when it fits;
  - a normalised window sums to zero.
- **The classifier** (`ECGClassifier`; `classifier.dfy`). Once loaded, it
  returns ten placeholder beats that cycle through the five beat types. The
  properties proved are:
  - the confidence bounds;
  - two beats of each type;
  - the name and code tables are injective on the six named types.
- **The batch analysis helpers of `AnalyseFragment`** (`analysis.dfy`):
  - header detection and line parsing;
  - min-max rescaling into [0, 1];
  - the normal/abnormal tally of `displayResults`;
  - the file-acceptance test;
  - the failure conditions of the processing pipeline.
- **`java_text.dfy`** writes out the `java.lang.String`, `Integer.parseInt`
  and `java.util.regex` behaviour these files rely on:
  - `split` keeps a leading empty token and drops trailing ones;
  - `trim` strips every character up to U+0020;
  - `matches` must cover the whole string;
  - `parseInt` accepts a sign and fails outside the 32-bit range.

  `wrappers.dfy` holds `Option` and `Result`.

Calls the model cannot see are parameters: `Double.parseDouble` and
`Float.parseFloat` (`parseNum`, `parseFloat`), `Math.sqrt` (`sqrt`),
`convertToCSVFormat` (`toCsv`), and the file reader's outcome (`read`,
`firstLine`).

Behaviours of the code worth noting:

- A file that holds only a header line reaches the "No valid ECG data found"
  failure, not an empty report.
- Only the first header-looking line is skipped; later ones go through
  `parseLineToDouble` like any other line.
- `isValidCSVFile` accepts a file whose first line has a digit whatever its
  extension. It also accepts a `.csv` or `.txt` file whatever its content.
- `parseLineToDouble` splits on commas before it replaces commas by points,
  so a decimal comma is never turned into a point (`CommaNeverReplaced`).
- `getHealthStatus` can never answer "Unknown status".
- The classifier ignores its input.

## Model

| member | source | states |
|---|---|---|
| JavaText.IndexOf | app/src/main/java/com/example/myapplication/MedicalDataAnalyzer.java:65 | `indexOf(':')` is the first position of the character, or -1 when it is absent |
| JavaText.MatchesDigitPattern | app/src/main/java/com/example/myapplication/MedicalDataAnalyzer.java:42 | `matches(".*\\d+.*")` holds exactly when the line has a digit and no line terminator (the regex `.` stops at them) |
| JavaText.Replace | app/src/main/java/com/example/myapplication/AnalyseFragment.java:478-479 | `replace` keeps the length when the replacement is as long as the target, and never lengthens the string when it is shorter |
| JavaText.KeepDigits | app/src/main/java/com/example/myapplication/MedicalDataAnalyzer.java:143 | `replaceAll("\\D", "")` yields only digits and is no longer than the input |
| JavaText.KeepDigitsConcat | app/src/main/java/com/example/myapplication/MedicalDataAnalyzer.java:143 | deleting the non-digits of a concatenation deletes them from each part |
| JavaText.KeepDigitsChar | app/src/main/java/com/example/myapplication/MedicalDataAnalyzer.java:143 | a single character is kept exactly when it is a digit |
| JavaText.TrimStart | app/src/main/java/com/example/myapplication/AnalyseFragment.java:441 | the result is a suffix starting above U+0020, and every character dropped is at or below U+0020 |
| JavaText.TrimEnd | app/src/main/java/com/example/myapplication/AnalyseFragment.java:441 | the result is a prefix ending above U+0020, and every character dropped is at or below U+0020 |
| JavaText.Trim | app/src/main/java/com/example/myapplication/AnalyseFragment.java:441 | the result starts and ends above U+0020 and is empty exactly when every character is at or below U+0020 |
| JavaText.Split | app/src/main/java/com/example/myapplication/MedicalDataAnalyzer.java:60 | `"".split(x)` is `[""]`, and otherwise no trailing token is empty |
| JavaText.Pieces | app/src/main/java/com/example/myapplication/MedicalDataAnalyzer.java:60 | splitting always yields at least one piece before trailing empties are dropped |
| JavaText.DropTrailingEmpty | app/src/main/java/com/example/myapplication/AnalyseFragment.java:437 | `split` removes only trailing empty strings: the result is a prefix ending in a non-empty token |
| JavaText.ToLower | app/src/main/java/com/example/myapplication/AnalyseFragment.java:466 | lower-casing keeps the length |
| JavaText.DropNonDigits | app/src/main/java/com/example/myapplication/MedicalDataAnalyzer.java:97 | the leading non-digit run is removed, so what is left starts with a digit |
| JavaText.DigitRunPieces | app/src/main/java/com/example/myapplication/MedicalDataAnalyzer.java:97 | splitting on `\D+` yields at least one piece |
| JavaText.ParseInt | app/src/main/java/com/example/myapplication/MedicalDataAnalyzer.java:63 | `Integer.parseInt` succeeds only with a value in the 32-bit range |
| JavaText.ToDecimal | app/src/main/java/com/example/myapplication/MedicalDataAnalyzer.java:99-101 | the decimal text of a natural number is non-empty and all digits |
| JavaText.DecimalValueOfToDecimal | app/src/main/java/com/example/myapplication/MedicalDataAnalyzer.java:99-101 | reading the digits of a number's decimal text gives the number back |
| JavaText.ParseIntRoundTrip | app/src/main/java/com/example/myapplication/MedicalDataAnalyzer.java:99-101 | `parseInt` of a decimal text gives the number up to 2^31 - 1 and fails above it |
| JavaText.ParseIntNegativeRoundTrip | app/src/main/java/com/example/myapplication/MedicalDataAnalyzer.java:63 | `parseInt` of "-n" gives -n down to -2^31 and fails below |
| JavaText.ParseIntEmptyFails | app/src/main/java/com/example/myapplication/MedicalDataAnalyzer.java:144 | `parseInt("")` throws, which `parseNumber` turns into 0 |
| JavaText.PiecesHaveNoDelimiter | app/src/main/java/com/example/myapplication/MedicalDataAnalyzer.java:60 | no piece holds a delimiter |
| JavaText.SplitHasNoDelimiter | app/src/main/java/com/example/myapplication/AnalyseFragment.java:475 | no token of `split` holds a delimiter character |
| JavaText.PiecesWithoutDelimiter | app/src/main/java/com/example/myapplication/MedicalDataAnalyzer.java:60 | a string with no delimiter is one piece |
| JavaText.SplitWithoutDelimiter | app/src/main/java/com/example/myapplication/AnalyseFragment.java:437 | `split` of a string with no delimiter is that string alone |
| JavaText.SplitLeadingEmpty | app/src/main/java/com/example/myapplication/MedicalDataAnalyzer.java:97 | a leading delimiter gives a leading empty token |
| JavaText.ReplaceAbsent | app/src/main/java/com/example/myapplication/AnalyseFragment.java:478-479 | `replace` changes nothing when the target's first character does not occur |
| JavaText.KeepDigitsAllDigits | app/src/main/java/com/example/myapplication/MedicalDataAnalyzer.java:143 | `replaceAll("\\D", "")` is empty exactly when the string has no digit, and is the identity on an all-digit string |
| JavaText.DigitRunPiecesAreDigits | app/src/main/java/com/example/myapplication/MedicalDataAnalyzer.java:97 | every piece of the `\D+` split is all digits |
| JavaText.SplitNonDigitsShape | app/src/main/java/com/example/myapplication/MedicalDataAnalyzer.java:97-99 | the `\D+` tokens are digit strings; the first is empty exactly when the line starts with a non-digit |
| JavaText.DropTrailingEmptyKeepsNonEmpty | app/src/main/java/com/example/myapplication/MedicalDataAnalyzer.java:80-81 | a non-empty token survives the trailing-empty removal |
| JavaText.ContainsDigitCarrier | app/src/main/java/com/example/myapplication/MedicalDataAnalyzer.java:38-42 | a line that contains a text with a digit has a digit |
| JavaText.CharAbsent | app/src/main/java/com/example/myapplication/MedicalDataAnalyzer.java:40 | a line for which `contains(",")` fails has no comma anywhere |
| JavaText.ContainsAt | app/src/main/java/com/example/myapplication/MedicalDataAnalyzer.java:38 | an occurrence at a known position makes `contains` hold |
| JavaText.PiecesAfterToken | app/src/main/java/com/example/myapplication/MedicalDataAnalyzer.java:60 | splitting `a + delimiter + b` gives `a` followed by the pieces of `b` |
| JavaText.ContainsFirstChar | app/src/main/java/com/example/myapplication/MedicalDataAnalyzer.java:40 | `contains(p)` implies the line holds p's first character |
| JavaText.PiecesCharsFromSource | app/src/main/java/com/example/myapplication/MedicalDataAnalyzer.java:80 | every character of a piece comes from the split string |
| JavaText.SplitTokenDigit | app/src/main/java/com/example/myapplication/MedicalDataAnalyzer.java:80-82 | a token with a digit comes from a line with a digit |
| JavaText.DigitRunPiecesOfDigits | app/src/main/java/com/example/myapplication/MedicalDataAnalyzer.java:97 | an all-digit string is a single `\D+` token |
| JavaText.DigitRunPiecesAfterGap | app/src/main/java/com/example/myapplication/MedicalDataAnalyzer.java:97 | a digit run followed by one non-digit is the first `\D+` token |
| JavaText.SplitThree | app/src/main/java/com/example/myapplication/MedicalDataAnalyzer.java:80-81 | `a,b,c` with delimiter-free parts and non-empty `c` splits into exactly `[a, b, c]` |
| JavaText.SplitNonDigitsThree | app/src/main/java/com/example/myapplication/MedicalDataAnalyzer.java:97-98 | three digit groups separated by single non-digits split into exactly those three |
| JavaText.ContainsInSuffix | app/src/main/java/com/example/myapplication/MedicalDataAnalyzer.java:38 | an occurrence in a suffix is an occurrence in the whole line |
| JavaText.Lacks | app/src/main/java/com/example/myapplication/AnalyseFragment.java:467-469 | a line without p's first character does not contain p |
| JavaText.TrimKeepsAbsent | app/src/main/java/com/example/myapplication/AnalyseFragment.java:441 | `trim` introduces no character |
| JavaText.TrimStartKeepsAbsent | app/src/main/java/com/example/myapplication/AnalyseFragment.java:441 | stripping leading blanks introduces no character |
| JavaText.TrimEndKeepsAbsent | app/src/main/java/com/example/myapplication/AnalyseFragment.java:441 | stripping trailing blanks introduces no character |
| JavaText.DeleteKeepsAbsent | app/src/main/java/com/example/myapplication/AnalyseFragment.java:478 | deleting quotes introduces no character |
| JavaText.TrimUnchanged | app/src/main/java/com/example/myapplication/AnalyseFragment.java:441 | `trim` leaves a string with no blank at either end unchanged |
| VitalsAnalyzer.Latest | app/src/main/java/com/example/myapplication/MedicalDataAnalyzer.java:68-69 | the buffer holds the last min(n, 1000) values of the history, in order |
| VitalsAnalyzer.PushKeepsLatest | app/src/main/java/com/example/myapplication/MedicalDataAnalyzer.java:68-69 | add-then-remove-first on the latest window is the latest window of the extended history |
| VitalsAnalyzer.Push | app/src/main/java/com/example/myapplication/MedicalDataAnalyzer.java:68-69 | the new value is last; below 1000 values it is appended, at 1000 the oldest is dropped, so the buffer never exceeds 1000 |
| VitalsAnalyzer.PushAllKeepsLatest | app/src/main/java/com/example/myapplication/MedicalDataAnalyzer.java:85-86 | the same for any number of appended values |
| VitalsAnalyzer.LatestSuffix | app/src/main/java/com/example/myapplication/MedicalDataAnalyzer.java:186-188 | the last k values of the buffer are the last k values of the history |
| VitalsAnalyzer.Feed1050 | app/src/main/java/com/example/myapplication/MedicalDataAnalyzer.java:102-103 | after 1050 samples the buffer holds exactly the last 1000 |
| VitalsAnalyzer.Status | app/src/main/java/com/example/myapplication/MedicalDataAnalyzer.java:162-176 | each status is characterised by its (heart rate, SpO2) region, and "Unknown status" never occurs |
| VitalsAnalyzer.IsDataValid | app/src/main/java/com/example/myapplication/MedicalDataAnalyzer.java:162-165 | heart rate in 30..220 and SpO2 in 70..100; `Status` is `InvalidData` exactly outside this region |
| VitalsAnalyzer.StatusText | app/src/main/java/com/example/myapplication/MedicalDataAnalyzer.java:167-176 | the six status strings; `StatusTextDistinct` shows they tell the statuses apart |
| VitalsAnalyzer.StatusTextDistinct | app/src/main/java/com/example/myapplication/MedicalDataAnalyzer.java:167-176 | different statuses give different strings |
| VitalsAnalyzer.Route | app/src/main/java/com/example/myapplication/MedicalDataAnalyzer.java:38-47 | the first matching rule wins, as four exact regions: tagged iff the line contains `HR:`, `SpO2:` and `ECG:`; comma fields iff not tagged and it contains a comma; digit groups iff neither and it matches `.*\\d+.*`; pattern search iff none of these |
| VitalsAnalyzer.Decode | app/src/main/java/com/example/myapplication/MedicalDataAnalyzer.java:32-47 | whichever decoder runs, the old ECG history is a prefix of the new one |
| VitalsAnalyzer.TaggedStep | app/src/main/java/com/example/myapplication/MedicalDataAnalyzer.java:62-70 | one tagged part appends at most one ECG value and never drops history |
| VitalsAnalyzer.TaggedDecode | app/src/main/java/com/example/myapplication/MedicalDataAnalyzer.java:60-71 | the loop over the parts keeps the old history as a prefix and appends at most one value per part |
| VitalsAnalyzer.ParseNumber | app/src/main/java/com/example/myapplication/MedicalDataAnalyzer.java:140-148 | the result is in [0, 2^31 - 1]; it is the decimal value of the field's digits when that fits in an `int`, and 0 when the field has no digit or its digits overflow |
| VitalsAnalyzer.CommaDecode | app/src/main/java/com/example/myapplication/MedicalDataAnalyzer.java:80-87 | the state changes exactly when the line has three comma fields; then exactly one ECG value is appended, and all three readings are non-negative |
| VitalsAnalyzer.DigitGroupDecode | app/src/main/java/com/example/myapplication/MedicalDataAnalyzer.java:97-104 | fewer than three `\D+` groups change nothing; otherwise at most one ECG value is appended, and every reading it sets is non-negative |
| VitalsAnalyzer.WordEnd | app/src/main/java/com/example/myapplication/MedicalDataAnalyzer.java:114 | the end of the maximal run of word characters at i |
| VitalsAnalyzer.FindWord | app/src/main/java/com/example/myapplication/MedicalDataAnalyzer.java:114-130 | whatever `find()` returns is a whole word the pattern accepts |
| VitalsAnalyzer.FindWordLeftmost | app/src/main/java/com/example/myapplication/MedicalDataAnalyzer.java:114-130 | the result is the leftmost accepted maximal word starting at or after the search position, and there is none exactly when no word from there on is accepted |
| VitalsAnalyzer.AcceptedValue | app/src/main/java/com/example/myapplication/MedicalDataAnalyzer.java:114-131 | the heart-rate regex reads only 60..199, the SpO2 regex only 95..100, the ECG regex only values below 10000 |
| VitalsAnalyzer.PatternDecode | app/src/main/java/com/example/myapplication/MedicalDataAnalyzer.java:110-138 | each pattern sets its reading from the first word it finds; its ranges are stated by `PatternDecodeReadings` |
| VitalsAnalyzer.PatternDecodeReadings | app/src/main/java/com/example/myapplication/MedicalDataAnalyzer.java:110-138 | the fallback sets heart rate only within 60..199 and SpO2 only within 95..100, and appends one ECG value below 10000 exactly when the ECG regex finds a word |
| VitalsAnalyzer.Analyzer.constructor | app/src/main/java/com/example/myapplication/MedicalDataAnalyzer.java:16-30 | starts at heart rate 0, SpO2 0, empty buffer and history |
| VitalsAnalyzer.Analyzer.ProcessData | app/src/main/java/com/example/myapplication/MedicalDataAnalyzer.java:32-55 | the new state is `Decode` of the old state and the line; the buffer stays the latest 1000 values; the snapshot carries the new readings, the buffer size and the raw line |
| VitalsAnalyzer.Analyzer.AppendEcg | app/src/main/java/com/example/myapplication/MedicalDataAnalyzer.java:68-69 | append then drop the oldest beyond 1000 keeps the buffer the latest window of the history |
| VitalsAnalyzer.Analyzer.ParseFormattedData | app/src/main/java/com/example/myapplication/MedicalDataAnalyzer.java:57-75 | the state after the loop is `TaggedDecode` of the space-separated parts, stopping at the first failed parse |
| VitalsAnalyzer.Analyzer.ApplyTaggedPart | app/src/main/java/com/example/myapplication/MedicalDataAnalyzer.java:62-70 | one iteration applies `TaggedStep`, or leaves the state alone and reports the failure |
| VitalsAnalyzer.Analyzer.ParseCsvData | app/src/main/java/com/example/myapplication/MedicalDataAnalyzer.java:77-91 | the new state is `CommaDecode` of the old |
| VitalsAnalyzer.Analyzer.ParseNumericData | app/src/main/java/com/example/myapplication/MedicalDataAnalyzer.java:93-108 | the new state is `DigitGroupDecode` of the old, with earlier fields kept when a later one overflows |
| VitalsAnalyzer.Analyzer.ExtractMedicalData | app/src/main/java/com/example/myapplication/MedicalDataAnalyzer.java:110-138 | the new state is `PatternDecode` of the old |
| VitalsAnalyzer.Analyzer.RecentEcgData | app/src/main/java/com/example/myapplication/MedicalDataAnalyzer.java:186-189 | a negative count fails; otherwise the result is the last min(count, size) values of the history |
| VitalsAnalyzer.Analyzer.Reset | app/src/main/java/com/example/myapplication/MedicalDataAnalyzer.java:191-196 | everything is cleared, and the status becomes "Invalid data" |
| VitalsProperties.ParsesTo | app/src/main/java/com/example/myapplication/MedicalDataAnalyzer.java:63 | a decimal text in range parses to its number |
| VitalsProperties.TaggedRoute | app/src/main/java/com/example/myapplication/MedicalDataAnalyzer.java:38-39 | a line with parts tagged `HR:`, `SpO2:` and `ECG:` goes to the tagged decoder |
| VitalsProperties.TagInside | app/src/main/java/com/example/myapplication/MedicalDataAnalyzer.java:38 | a part starting with a tag puts the tag in the line |
| VitalsProperties.HeartRateStep | app/src/main/java/com/example/myapplication/MedicalDataAnalyzer.java:62-63 | an `HR:` part sets the heart rate and continues |
| VitalsProperties.Spo2Step | app/src/main/java/com/example/myapplication/MedicalDataAnalyzer.java:64-65 | a `SpO2:` part sets SpO2 and continues, or stops the loop when its number does not parse |
| VitalsProperties.EcgStep | app/src/main/java/com/example/myapplication/MedicalDataAnalyzer.java:66-69 | an `ECG:` part appends its value and continues |
| VitalsProperties.HeartRatePart | app/src/main/java/com/example/myapplication/MedicalDataAnalyzer.java:62-63 | `"HR:" + a` starts with the tag and its substring(3) is `a` |
| VitalsProperties.Spo2Part | app/src/main/java/com/example/myapplication/MedicalDataAnalyzer.java:64-65 | `"SpO2:" + x` takes the SpO2 branch and the text after its colon is `x` |
| VitalsProperties.EcgPart | app/src/main/java/com/example/myapplication/MedicalDataAnalyzer.java:66-67 | `"ECG:" + digits` takes only the ECG branch and loses its tag to `replace` |
| VitalsProperties.TaggedLineDecodes | app/src/main/java/com/example/myapplication/MedicalDataAnalyzer.java:57-75 | "HR:h SpO2:s ECG:e" sets h and s and appends e |
| VitalsProperties.TaggedPartsDecode | app/src/main/java/com/example/myapplication/MedicalDataAnalyzer.java:61-71 | the three tagged parts, each parsing, give exactly those readings |
| VitalsProperties.TaggedFailureStops | app/src/main/java/com/example/myapplication/MedicalDataAnalyzer.java:72-74 | an unparsable SpO2 stops the line: the heart rate is set, the rest is skipped |
| VitalsProperties.TaggedPartsFailure | app/src/main/java/com/example/myapplication/MedicalDataAnalyzer.java:61-74 | the same on the parts |
| VitalsProperties.TaggedLineParts | app/src/main/java/com/example/myapplication/MedicalDataAnalyzer.java:38-60 | a tagged line with blank-free fields is decoded from exactly its three parts |
| VitalsProperties.TaggedSplit | app/src/main/java/com/example/myapplication/MedicalDataAnalyzer.java:60 | `split(" ")` of "HR:a SpO2:b ECG:c" gives the three parts |
| VitalsProperties.DecimalHasNoSpace | app/src/main/java/com/example/myapplication/MedicalDataAnalyzer.java:60 | a number's decimal text has no space |
| VitalsProperties.CommaLineDecodes | app/src/main/java/com/example/myapplication/MedicalDataAnalyzer.java:77-91 | "h,s,e" sets h and s and appends e |
| VitalsProperties.SpacedLineDecodes | app/src/main/java/com/example/myapplication/MedicalDataAnalyzer.java:93-108 | "h s e" sets h, s and appends e; a group past 2^31 - 1 stops at that group, keeping the earlier ones |
| VitalsProperties.SpacedGroups | app/src/main/java/com/example/myapplication/MedicalDataAnalyzer.java:42-43 | "h s e" goes to the digit-group decoder and splits into its three numbers |
| VitalsProperties.FormatsAgree | app/src/main/java/com/example/myapplication/MedicalDataAnalyzer.java:38-47 | the tagged, comma and spaced renderings of the same readings decode to the same state |
| VitalsProperties.DigitFreeLineUnchanged | app/src/main/java/com/example/myapplication/MedicalDataAnalyzer.java:44-47 | a line with no digit and no comma changes nothing |
| VitalsProperties.NoDigitNoWord | app/src/main/java/com/example/myapplication/MedicalDataAnalyzer.java:114-130 | no pattern finds anything in a digit-free line |
| VitalsProperties.DigitFreeCommaLineZeroes | app/src/main/java/com/example/myapplication/MedicalDataAnalyzer.java:80-86 | a digit-free line with three comma fields zeroes both readings and appends 0 |
| VitalsProperties.ShortCommaLineUnchanged | app/src/main/java/com/example/myapplication/MedicalDataAnalyzer.java:81 | fewer than three comma fields change nothing |
| VitalsProperties.FewDigitGroupsUnchanged | app/src/main/java/com/example/myapplication/MedicalDataAnalyzer.java:98 | fewer than three digit groups change nothing |
| VitalsProperties.LeadingNonDigitUnchanged | app/src/main/java/com/example/myapplication/MedicalDataAnalyzer.java:97-99 | a digit-group line that starts with a non-digit changes nothing: its first token is empty and `parseInt("")` throws |
| VitalsProperties.ParseNumberKeepsTagDigit | app/src/main/java/com/example/myapplication/MedicalDataAnalyzer.java:140-144 | "SpO2=98" reads as 298, because the tag's digit is kept |
| VitalsProperties.ParseNumberDropsSign | app/src/main/java/com/example/myapplication/MedicalDataAnalyzer.java:140-144 | "-75" reads as 75 |
| VitalsProperties.ParseNumberOfWord | app/src/main/java/com/example/myapplication/MedicalDataAnalyzer.java:140-147 | "abc" reads as 0 |
| VitalsProperties.FallbackDecode | app/src/main/java/com/example/myapplication/MedicalDataAnalyzer.java:110-138 | the pattern decoder sets the readings to the words each pattern finds |
| VitalsProperties.CarriageReturnRoute | app/src/main/java/com/example/myapplication/MedicalDataAnalyzer.java:42 | "75 98 512\r" fails the whole-line digit regex, because `.` does not match the carriage return |
| VitalsProperties.CarriageReturnWords | app/src/main/java/com/example/myapplication/MedicalDataAnalyzer.java:114-130 | the three patterns find "75", "98" and "512" in it |
| VitalsProperties.CarriageReturnWordEnds | app/src/main/java/com/example/myapplication/MedicalDataAnalyzer.java:114 | the word boundaries of "75 98 512\r" |
| VitalsProperties.CarriageReturnValues | app/src/main/java/com/example/myapplication/MedicalDataAnalyzer.java:117-131 | the words read as 75, 98 and 512 |
| VitalsProperties.CarriageReturnLine | app/src/main/java/com/example/myapplication/MedicalDataAnalyzer.java:32-47 | a CR-terminated spaced line still decodes to 75, 98 and 512, through the fallback |
| Preprocessor.MaxAbs | app/src/main/java/com/example/myapplication/ECGPreprocessor.java:72-77 | the running maximum bounds every magnitude and is at least `Float.MIN_VALUE` |
| Preprocessor.MaxAbsAttained | app/src/main/java/com/example/myapplication/ECGPreprocessor.java:72-77 | the maximum is a sample's magnitude, unless it stayed at `Float.MIN_VALUE` |
| Preprocessor.Threshold | app/src/main/java/com/example/myapplication/ECGPreprocessor.java:78 | 60 % of the largest magnitude; `PeaksSound` and `PeaksComplete` state what it selects |
| Preprocessor.IsPeak | app/src/main/java/com/example/myapplication/ECGPreprocessor.java:81-86 | an interior sample whose magnitude is above the threshold and above both neighbours |
| Preprocessor.PeaksFrom | app/src/main/java/com/example/myapplication/ECGPreprocessor.java:81-90 | the scan from index i with its 100-sample skip; `PeaksFromSound` and `PeaksFromComplete` state its result |
| Preprocessor.Peaks | app/src/main/java/com/example/myapplication/ECGPreprocessor.java:67-93 | no peaks for an empty series, else the scan from index 1 at the threshold; `PeaksSound` and `PeaksComplete` state its result |
| Preprocessor.DetectRPeaks | app/src/main/java/com/example/myapplication/ECGPreprocessor.java:67-93 | the loop with its skip of 100 returns `Peaks` |
| Preprocessor.PeaksFromSound | app/src/main/java/com/example/myapplication/ECGPreprocessor.java:81-90 | every reported index is a peak at or after the start, and consecutive ones are 101 apart or more |
| Preprocessor.PeaksSound | app/src/main/java/com/example/myapplication/ECGPreprocessor.java:78-90 | every peak is an interior local maximum above 60 % of every magnitude; peaks are increasing and 101 apart |
| Preprocessor.PeaksIncreasing | app/src/main/java/com/example/myapplication/ECGPreprocessor.java:88 | gaps of 101 make the indices strictly increasing |
| Preprocessor.NoPeaksInEmptySeries | app/src/main/java/com/example/myapplication/ECGPreprocessor.java:69 | an empty series has no peak |
| Preprocessor.PeaksFromComplete | app/src/main/java/com/example/myapplication/ECGPreprocessor.java:81-90 | a peak at or after the start is reported or lies within 101 samples after a reported one |
| Preprocessor.PeaksComplete | app/src/main/java/com/example/myapplication/ECGPreprocessor.java:81-90 | the same for the whole scan: the skip is the only way a peak is missed |
| Preprocessor.PeaksFromSkip | app/src/main/java/com/example/myapplication/ECGPreprocessor.java:81-90 | a stretch with no peak adds nothing to the result |
| Preprocessor.Window | app/src/main/java/com/example/myapplication/ECGPreprocessor.java:104-107 | the segment is 300 samples starting 150 before the peak |
| Preprocessor.ExtractBeatSegment | app/src/main/java/com/example/myapplication/ECGPreprocessor.java:95-110 | null exactly when the window does not fit; otherwise a fresh array holding the window |
| Preprocessor.InWindow | app/src/main/java/com/example/myapplication/ECGPreprocessor.java:96-100 | the window p - 150 .. p + 150 fits: start >= 0 and end < n |
| Preprocessor.Framed | app/src/main/java/com/example/myapplication/ECGPreprocessor.java:50-57 | the kept peaks are at most the detected ones, and every one has a window that fits |
| Preprocessor.FramedStep | app/src/main/java/com/example/myapplication/ECGPreprocessor.java:50-57 | one turn of the assembly loop keeps the peak exactly when its window fits |
| Preprocessor.FramedMembers | app/src/main/java/com/example/myapplication/ECGPreprocessor.java:50-57 | a peak is kept if and only if it was detected and its window fits |
| Preprocessor.FramedSorted | app/src/main/java/com/example/myapplication/ECGPreprocessor.java:50-57 | keeping a subset preserves increasing order |
| Preprocessor.Deviation | app/src/main/java/com/example/myapplication/ECGPreprocessor.java:127-130 | the divisor is never below 0.0001 |
| Preprocessor.Standardized | app/src/main/java/com/example/myapplication/ECGPreprocessor.java:112-139 | normalising keeps the length |
| Preprocessor.NormalizeBeat | app/src/main/java/com/example/myapplication/ECGPreprocessor.java:112-139 | an empty beat is returned as is; otherwise a fresh array holding `Standardized` of the beat |
| Preprocessor.Moments | app/src/main/java/com/example/myapplication/ECGPreprocessor.java:115-130 | the first two loops give the mean and the clamped deviation |
| Preprocessor.Rescale | app/src/main/java/com/example/myapplication/ECGPreprocessor.java:133-136 | the last loop fills a fresh array with (x - mean) / std, sample by sample |
| Preprocessor.BeatSum | app/src/main/java/com/example/myapplication/ECGPreprocessor.java:116-119 | the running sum is `Sum` of the beat |
| Preprocessor.BeatSquaredDeviations | app/src/main/java/com/example/myapplication/ECGPreprocessor.java:123-126 | the running sum of squared deviations is `SumSquares` |
| Preprocessor.SumShiftScale | app/src/main/java/com/example/myapplication/ECGPreprocessor.java:133-136 | shifting every sample by m and dividing by d turns the sum S into (S - n m) / d |
| Preprocessor.SumShiftScaleLast | app/src/main/java/com/example/myapplication/ECGPreprocessor.java:133-136 | the inductive step of that relation |
| Preprocessor.CenteredSumsToZero | app/src/main/java/com/example/myapplication/ECGPreprocessor.java:116-136 | samples centred on their mean sum to zero whatever the divisor |
| Preprocessor.StandardizedSumsToZero | app/src/main/java/com/example/myapplication/ECGPreprocessor.java:112-139 | every normalised window sums to zero |
| Preprocessor.SumConstant | app/src/main/java/com/example/myapplication/ECGPreprocessor.java:116-120 | a constant window's sum is n c, so its mean is c |
| Preprocessor.StandardizedConstant | app/src/main/java/com/example/myapplication/ECGPreprocessor.java:112-139 | a flat window normalises to all zeros (the 0.0001 guard keeps the division defined) |
| Preprocessor.ParsedSamples | app/src/main/java/com/example/myapplication/ECGPreprocessor.java:36-43 | at most one sample per line |
| Preprocessor.ParsedSamplesAppend | app/src/main/java/com/example/myapplication/ECGPreprocessor.java:36-43 | reading two runs of lines is reading each in turn |
| Preprocessor.ParsedSamplesOneLine | app/src/main/java/com/example/myapplication/ECGPreprocessor.java:38-41 | a line adds its trimmed float, or nothing when it does not parse |
| Preprocessor.ProcessedECGData.constructor | app/src/main/java/com/example/myapplication/ECGPreprocessor.java:16-19 | both lists start empty |
| Preprocessor.ProcessedECGData.SetRPeakIndices | app/src/main/java/com/example/myapplication/ECGPreprocessor.java:22-24 | replaces the indices and nothing else |
| Preprocessor.ReadSamples | app/src/main/java/com/example/myapplication/ECGPreprocessor.java:36-43 | the reading loop yields `ParsedSamples` of the lines |
| Preprocessor.ProcessCSVData | app/src/main/java/com/example/myapplication/ECGPreprocessor.java:27-65 | the indices are the detected peaks whose window fits, in order; beat k is the normalised window around index k |
| Preprocessor.AddBeat | app/src/main/java/com/example/myapplication/ECGPreprocessor.java:51-56 | a fitting peak adds its index and its normalised window together, keeping the two lists in step |
| Preprocessor.SingleSpike | app/src/main/java/com/example/myapplication/ECGPreprocessor.java:47-57 | a single positive spike with room on both sides is the one peak and the one window |
| Preprocessor.SpikeIsOnlyPeak | app/src/main/java/com/example/myapplication/ECGPreprocessor.java:72-86 | the spike is the maximum and the only index passing the peak test |
| Classifier.Confidence | app/src/main/java/com/example/myapplication/ECGClassifier.java:232-237 | 0.85 + 0.02 i, within [0.85, 1], reaching 1 exactly from i = 8 |
| Classifier.PlaceholderBeat | app/src/main/java/com/example/myapplication/ECGClassifier.java:227-231 | beat i has index i and type i mod 5, one of the five cycled types |
| Classifier.Classification | app/src/main/java/com/example/myapplication/ECGClassifier.java:202-252 | nothing when not loaded, otherwise the ten placeholder beats |
| Classifier.ClassificationMix | app/src/main/java/com/example/myapplication/ECGClassifier.java:217-243 | the ten beats hold two of each of the five types and none of any other |
| Classifier.CountStep | app/src/main/java/com/example/myapplication/ECGClassifier.java:226-239 | beat k adds one to the count of its own type only |
| Classifier.CycleStep | app/src/main/java/com/example/myapplication/ECGClassifier.java:231 | index k adds one to the count of remainder t exactly when k mod 5 is t |
| Classifier.ECGClassifier.constructor | app/src/main/java/com/example/myapplication/ECGClassifier.java:37-84 | the loaded flag is set only when initialisation finishes, which needs the interpreter |
| Classifier.ECGClassifier.ClassifyCSVData | app/src/main/java/com/example/myapplication/ECGClassifier.java:202-252 | the loop builds `Classification` of the loaded state, whatever the stream |
| Classifier.ECGClassifier.IsModelLoaded | app/src/main/java/com/example/myapplication/ECGClassifier.java:178-180 | loaded flag set and an interpreter present; `Close` makes it false |
| Classifier.ECGClassifier.Close | app/src/main/java/com/example/myapplication/ECGClassifier.java:298-305 | afterwards the model is not loaded |
| Classifier.ClassifyTwice | app/src/main/java/com/example/myapplication/ECGClassifier.java:202-252 | two calls in the same state agree whatever their inputs; an unloaded model gives nothing |
| Classifier.BeatTypeName | app/src/main/java/com/example/myapplication/ECGClassifier.java:257-274 | "Invalid beat type" exactly for the values outside -1..4 |
| Classifier.BeatTypeCode | app/src/main/java/com/example/myapplication/ECGClassifier.java:279-296 | a one-letter code, "?" exactly outside -1..4; a named type's code is the one of N, L, R, A, V, U that stands for it |
| Classifier.BeatTypeTablesInjective | app/src/main/java/com/example/myapplication/ECGClassifier.java:257-296 | different named types have different codes and different names |
| Classifier.InitialsIdentifyType | app/src/main/java/com/example/myapplication/ECGClassifier.java:257-296 | the first letter of a type's name, and its code, determine the type |
| Analysis.HeaderDetection | app/src/main/java/com/example/myapplication/AnalyseFragment.java:465-471 | a digit-free line is a header; a row of digits and separators with a digit is not |
| Analysis.IsHeaderLine | app/src/main/java/com/example/myapplication/AnalyseFragment.java:465-471 | a marker word in any ASCII case, or no match of `.*\\d+.*`; `HeaderDetection` states which lines it catches |
| Analysis.FirstParsable | app/src/main/java/com/example/myapplication/AnalyseFragment.java:476-488 | the first token that is non-empty once cleaned and parses; `FirstParsableIsFirst` states it |
| Analysis.LineValue | app/src/main/java/com/example/myapplication/AnalyseFragment.java:473-493 | the first parseable token of the line split at `,`, `;` and whitespace |
| Analysis.FirstParsableIsFirst | app/src/main/java/com/example/myapplication/AnalyseFragment.java:476-488 | the value is that of the first token that parses, and none exactly when no token parses |
| Analysis.ParseLineToDouble | app/src/main/java/com/example/myapplication/AnalyseFragment.java:473-493 | the token loop returns `LineValue` |
| Analysis.CommaNeverReplaced | app/src/main/java/com/example/myapplication/AnalyseFragment.java:475-479 | tokens never contain a comma, so the comma-to-point replacement never fires |
| Analysis.DecimalCommaSplits | app/src/main/java/com/example/myapplication/AnalyseFragment.java:475-482 | "12,5" reads as 12: a decimal comma splits the number |
| Analysis.LineStep | app/src/main/java/com/example/myapplication/AnalyseFragment.java:441-460 | one line adds at most one value, only when non-blank, and sets the header flag at the first non-blank header line |
| Analysis.ValuesFrom | app/src/main/java/com/example/myapplication/AnalyseFragment.java:440-461 | no more values than non-blank lines |
| Analysis.ParseECGValuesFromContent | app/src/main/java/com/example/myapplication/AnalyseFragment.java:435-463 | the loop returns `ContentValues` of the text |
| Analysis.ContentValues | app/src/main/java/com/example/myapplication/AnalyseFragment.java:435-463 | the values of the newline-split lines in order; `ValuesFrom`, `OneHeaderSkipped` and `HeaderOnlyContent` state their properties |
| Analysis.ReadLine | app/src/main/java/com/example/myapplication/AnalyseFragment.java:441-460 | one iteration computes `LineStep` |
| Analysis.OneHeaderSkipped | app/src/main/java/com/example/myapplication/AnalyseFragment.java:447-450 | only the first header-looking line is dropped; the rest are parsed as data |
| Analysis.HeaderOnlyContent | app/src/main/java/com/example/myapplication/AnalyseFragment.java:435-463 | a file made of one header line yields no value |
| Analysis.MinFrom | app/src/main/java/com/example/myapplication/AnalyseFragment.java:498-503 | the minimum bounds every value and is one of them, unless it stayed at `Double.MAX_VALUE` |
| Analysis.MaxFrom | app/src/main/java/com/example/myapplication/AnalyseFragment.java:499-503 | the maximum bounds every value and is one of them, unless it stayed at `Double.MIN_VALUE` |
| Analysis.Range | app/src/main/java/com/example/myapplication/AnalyseFragment.java:505-506 | the range is never zero, and positive for a non-empty list |
| Analysis.Rescaled | app/src/main/java/com/example/myapplication/AnalyseFragment.java:508-510 | one output per input |
| Analysis.PreprocessECGData | app/src/main/java/com/example/myapplication/AnalyseFragment.java:495-514 | a fresh array holding `Rescaled` of the values |
| Analysis.Extremes | app/src/main/java/com/example/myapplication/AnalyseFragment.java:498-503 | the min/max loop yields `MinFrom` and `MaxFrom` |
| Analysis.RescaledInUnitInterval | app/src/main/java/com/example/myapplication/AnalyseFragment.java:495-514 | in exact arithmetic, every rescaled value lies in [0, 1] |
| Analysis.RescaledConstant | app/src/main/java/com/example/myapplication/AnalyseFragment.java:505-510 | a flat signal rescales to all zeros |
| Analysis.RescaledMaxIsOne | app/src/main/java/com/example/myapplication/AnalyseFragment.java:498-510 | in exact arithmetic, with a positive maximum and two distinct values, the maximum rescales to 1 |
| Analysis.AllNegativeMaxBelowOne | app/src/main/java/com/example/myapplication/AnalyseFragment.java:499-510 | in exact arithmetic an all-negative signal never reaches 1, because the maximum search starts at `Double.MIN_VALUE` > 0 |
| Analysis.Counted | app/src/main/java/com/example/myapplication/AnalyseFragment.java:540-603 | no result shows "No beats detected"; otherwise normal + abnormal is the number of results and normal counts type 0 |
| Analysis.CountTypeBound | app/src/main/java/com/example/myapplication/AnalyseFragment.java:566-575 | a type count never exceeds the number of results |
| Analysis.DisplayResults | app/src/main/java/com/example/myapplication/AnalyseFragment.java:540-603 | the tally loop computes `Counted` |
| Analysis.PlaceholderTally | app/src/main/java/com/example/myapplication/AnalyseFragment.java:566-591 | the placeholder classification shows 2 normal and 8 abnormal beats, with "Abnormalities Detected" |
| Analysis.BeatTypeDescription | app/src/main/java/com/example/myapplication/AnalyseFragment.java:605-622 | the "(Q)" description exactly outside -1..4 |
| Analysis.DescriptionCarriesCode | app/src/main/java/com/example/myapplication/AnalyseFragment.java:605-622 | each named type's description ends with its `getBeatTypeCode` in parentheses |
| Analysis.IsValidCSVFile | app/src/main/java/com/example/myapplication/AnalyseFragment.java:257-288 | accepted exactly when there is an activity and either the first line matches `.*\\d+.*` (a digit and no line terminator) or the name ends in .csv/.txt in any case |
| Analysis.UpperCaseExtension | app/src/main/java/com/example/myapplication/AnalyseFragment.java:261-262 | ".CSV" counts as a CSV extension |
| Analysis.HasCsvExtension | app/src/main/java/com/example/myapplication/AnalyseFragment.java:261-262 | the lower-cased name ends in .csv or .txt |
| Analysis.PipelineOutcome | app/src/main/java/com/example/myapplication/AnalyseFragment.java:337-361 | read, parse, check, classify in order, each failure with its own message; `PipelineFailures` states when it fails |
| Analysis.ProcessSelectedCSVFile | app/src/main/java/com/example/myapplication/AnalyseFragment.java:333-364 | the sequential pipeline ends in `PipelineOutcome` |
| Analysis.PipelineFailures | app/src/main/java/com/example/myapplication/AnalyseFragment.java:337-349 | the pipeline fails exactly on an unreadable or empty file, no parsed value, or no classifier; an unloaded model shows no beats; a loaded one shows 2 normal and 8 abnormal |
| Analysis.HeaderOnlyFileFails | app/src/main/java/com/example/myapplication/AnalyseFragment.java:344-349 | a header-only file fails with "No valid ECG data found" |

## Left out

- User interface, fragment lifecycle, the `isFragmentActive` check, toasts, loading state and the text of the detailed report: presentation only. `displayResults` is modelled as the tally it shows.
- Threads and the UI handler: `processSelectedCSVFile` runs its worker thread sequentially, and `sendDataUpdate` is the returned `Snapshot`.
- File, stream and Bluetooth I/O, `getFileNameFromUri`, `readFileContent` and logging: their results are parameters.
- The TensorFlow Lite model, asset listing, label loading and verification, `loadModelFile`, `getInputShape`, `getLabels` and `getModelFileName`: the classifier never runs the model; the constructor's outcome is two flags.
- `Double.parseDouble`, `Float.parseFloat` and `Math.sqrt` are parameters; their grammars and rounding are not modelled.
- `convertToCSVFormat` is the parameter `toCsv`, whose output the classifier never reads.
- `getAverageHeartRate` and `getAverageSpO2` return the fields as they are; they are not separate members.
- The exception path of `processCSVData` (a failing reader returns null) is not modelled: the lines are given.
- A null line in `processData`, a null file name in `isValidCSVFile` and a null beat in `normalizeBeat`: the model's values are never null (the empty-beat case is modelled).
- Aliasing between `ProcessedECGData`'s lists and the caller's lists after `setRPeakIndices` is not modelled: the fields are values.
- `toLowerCase`, the regex classes and `Integer.parseInt`'s digits are ASCII-only; Unicode case mapping and the non-ASCII digits `Character.digit` accepts are not modelled.
- Analysis.PreprocessECGData: computes in exact reals, without the `(float)` cast or double rounding, and `Double.MAX_VALUE` and `Double.MIN_VALUE` are their decimal literals 1.7976931348623157e308 and 4.9e-324 taken exactly (the double `Double.MIN_VALUE` is 2^-1074). NaN and infinite samples (which `Double.parseDouble` returns for "NaN", "Infinity" or "1e999") cannot occur, and the overflow of max - min to infinity is not modelled. So the program can leave [0, 1] (NaN for [-1e308, 1e308]) where `RescaledInUnitInterval` and `RescaledMaxIsOne` hold.
- Analysis.AllNegativeMaxBelowOne: holds in exact arithmetic only; in the program the double quotient and the `(float)` cast can round the largest sample up to 1.0f, as for [-5, -1e-7].
- Preprocessor.NormalizeBeat: computes in exact reals rather than `float`, so the mean, deviation and results carry no rounding, and NaN or infinity never occur.
- Classifier.Confidence: 0.85 + 0.02 i in exact reals; the float sum is not modelled (both cross 1.0 from i = 8).
- Preprocessor.MaxAbs: the magnitudes are exact reals, `Float.MIN_VALUE` is taken as exactly 1.4e-45, and the threshold is 0.6 times the maximum in exact arithmetic.
