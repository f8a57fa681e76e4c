/**
 * The java.lang.String, java.util.regex and Integer operations the ECG core
 * relies on, written out with Java's own edge cases: `split` keeps a leading
 * empty token and drops trailing ones, `trim` strips every character up to
 * U+0020, `matches` must cover the whole string, `Integer.parseInt` accepts an
 * optional sign and fails outside the 32-bit range.
 */
module JavaText {
  import opened Wrappers

  const INT_MIN: int := -0x8000_0000
  const INT_MAX: int := 0x7fff_ffff

  /** The regex class `\d` (ASCII digits). */
  predicate IsDigit(c: char) { '0' <= c <= '9' }

  /** The characters a regex word boundary `\b` treats as word characters. */
  predicate IsWordChar(c: char) {
    IsDigit(c) || ('a' <= c <= 'z') || ('A' <= c <= 'Z') || c == '_'
  }

  /** The regex class `\s`: space, tab, newline, vertical tab, form feed, carriage return. */
  predicate IsRegexSpace(c: char) {
    c == ' ' || c == '\t' || c == '\n' || c == '\U{0B}' || c == '\U{0C}' || c == '\r'
  }

  /** The characters the regex `.` does not match (no DOTALL flag). */
  predicate IsLineTerminator(c: char) {
    c == '\n' || c == '\r' || c == '\U{85}' || c == '\U{2028}' || c == '\U{2029}'
  }

  predicate HasDigit(s: string) {
    exists i :: 0 <= i < |s| && IsDigit(s[i])
  }

  predicate AllDigits(s: string) {
    forall i :: 0 <= i < |s| ==> IsDigit(s[i])
  }

  /**
   * `s.matches(".*\\d+.*")`: the match must cover all of `s`, and `.` stops at
   * line terminators, so it holds exactly when `s` has a digit and no line
   * terminator.
   */
  predicate MatchesDigitPattern(s: string) {
    HasDigit(s) && forall i :: 0 <= i < |s| ==> !IsLineTerminator(s[i])
  }

  predicate StartsWith(s: string, prefix: string) {
    |prefix| <= |s| && s[..|prefix|] == prefix
  }

  predicate EndsWith(s: string, suffix: string) {
    |suffix| <= |s| && s[|s| - |suffix|..] == suffix
  }

  /** `s.contains(p)`. */
  predicate Contains(s: string, p: string)
    decreases |s|
  {
    StartsWith(s, p) || (|s| > 0 && Contains(s[1..], p))
  }

  /** `s.indexOf(c)`: the first position of `c`, or -1. */
  function IndexOf(s: string, c: char): (r: int)
    ensures -1 <= r < |s|
    ensures r >= 0 ==> s[r] == c && forall j :: 0 <= j < r ==> s[j] != c
    ensures r == -1 ==> forall j :: 0 <= j < |s| ==> s[j] != c
  {
    if s == [] then -1
    else if s[0] == c then 0
    else
      var k := IndexOf(s[1..], c);
      if k < 0 then -1 else k + 1
  }

  /** `s.replace(target, replacement)`: every non-overlapping occurrence, left to right. */
  function Replace(s: string, target: string, replacement: string): (r: string)
    requires |target| > 0
    ensures |replacement| == |target| ==> |r| == |s|
    ensures |replacement| <= |target| ==> |r| <= |s|
    decreases |s|
  {
    if |s| == 0 then s
    else if StartsWith(s, target) then replacement + Replace(s[|target|..], target, replacement)
    else [s[0]] + Replace(s[1..], target, replacement)
  }

  /** `s.replaceAll("\\D", "")`: keep only the digits, in order. */
  function KeepDigits(s: string): (r: string)
    ensures AllDigits(r) && |r| <= |s|
  {
    if s == [] then [] else (if IsDigit(s[0]) then [s[0]] else []) + KeepDigits(s[1..])
  }

  function TrimStart(s: string): (r: string)
    ensures |r| <= |s| && r == s[|s| - |r|..]
    ensures r == [] || r[0] > ' '
  {
    if |s| > 0 && s[0] <= ' ' then TrimStart(s[1..]) else s
  }

  function TrimEnd(s: string): (r: string)
    ensures |r| <= |s| && r == s[..|r|]
    ensures r == [] || r[|r| - 1] > ' '
    ensures |s| > 0 && s[0] > ' ' ==> r != []
  {
    if |s| > 0 && s[|s| - 1] <= ' ' then TrimEnd(s[..|s| - 1]) else s
  }

  /** `s.trim()`: strip every leading and trailing character at or below U+0020. */
  function Trim(s: string): (r: string)
    ensures |r| <= |s|
    ensures r == [] || (r[0] > ' ' && r[|r| - 1] > ' ')
  {
    TrimEnd(TrimStart(s))
  }

  /** Every character `TrimStart` drops is at or below U+0020. */
  lemma {:induction false} TrimStartDropsBlanks(s: string)
    ensures forall i :: 0 <= i < |s| - |TrimStart(s)| ==> s[i] <= ' '
    decreases |s|
  {
    if |s| > 0 && s[0] <= ' ' {
      TrimStartDropsBlanks(s[1..]);
    }
  }

  /** A line trims to nothing exactly when it is blank: every character is at or below U+0020. */
  lemma TrimEmptyIffBlank(s: string)
    ensures Trim(s) == [] <==> forall i :: 0 <= i < |s| ==> s[i] <= ' '
  {
    TrimStartDropsBlanks(s);
    var t := TrimStart(s);
    if t != [] {
      assert t[0] > ' ' && t == s[|s| - |t|..];
    }
  }

  function LowerChar(c: char): char
  {
    if 'A' <= c <= 'Z' then (c as int + 32) as char else c
  }

  /** `s.toLowerCase()` on the ASCII letters; other characters are left as they are. */
  function ToLower(s: string): (r: string)
    ensures |r| == |s|
  {
    seq(|s|, i requires 0 <= i < |s| => LowerChar(s[i]))
  }

  /** The single-character regexes the core passes to `String.split`. */
  datatype Delimiter =
    | Space          // split(" ")
    | Comma          // split(",")
    | Newline        // split("\n")
    | FieldSeparator // split("[,\\s;]")

  predicate IsDelimiter(d: Delimiter, c: char)
  {
    match d
    case Space => c == ' '
    case Comma => c == ','
    case Newline => c == '\n'
    case FieldSeparator => c == ',' || c == ';' || IsRegexSpace(c)
  }

  /** The pieces between single delimiter characters, before Java drops trailing empty ones. */
  function Pieces(s: string, d: Delimiter): (r: seq<string>)
    ensures |r| >= 1
    decreases |s|
  {
    if s == [] then [""]
    else
      var rest := Pieces(s[1..], d);
      if IsDelimiter(d, s[0]) then [""] + rest else [[s[0]] + rest[0]] + rest[1..]
  }

  /** Java's `split` with limit 0 removes every trailing empty token. */
  function DropTrailingEmpty(r: seq<string>): (t: seq<string>)
    ensures |t| <= |r| && t == r[..|t|]
    ensures |t| > 0 ==> t[|t| - 1] != ""
  {
    if |r| > 0 && r[|r| - 1] == "" then DropTrailingEmpty(r[..|r| - 1]) else r
  }

  /**
   * `s.split(regex)` for a single-character delimiter class: a leading empty
   * token is kept, trailing empty tokens are removed, and a string with no
   * match is returned whole (so "" splits into [""]).
   */
  function Split(s: string, d: Delimiter): (r: seq<string>)
    ensures s == [] ==> r == [""]
    ensures s != [] && |r| > 0 ==> r[|r| - 1] != ""
  {
    if s == [] then [""] else DropTrailingEmpty(Pieces(s, d))
  }

  /** `s` without its leading run of non-digits. */
  function DropNonDigits(s: string): (r: string)
    ensures |r| <= |s|
    ensures r == [] || IsDigit(r[0])
    decreases |s|
  {
    if |s| > 0 && !IsDigit(s[0]) then DropNonDigits(s[1..]) else s
  }

  /** The pieces between maximal runs of non-digits (the regex `\D+`). */
  function DigitRunPieces(s: string): (r: seq<string>)
    ensures |r| >= 1
    decreases |s|
  {
    if s == [] then [""]
    else if IsDigit(s[0]) then
      var rest := DigitRunPieces(s[1..]);
      [[s[0]] + rest[0]] + rest[1..]
    else
      [""] + DigitRunPieces(DropNonDigits(s))
  }

  /** `s.split("\\D+")`. */
  function SplitNonDigits(s: string): seq<string>
  {
    if s == [] then [""] else DropTrailingEmpty(DigitRunPieces(s))
  }

  function DigitValue(c: char): nat
    requires IsDigit(c)
  {
    c as int - '0' as int
  }

  /** The value of a string of decimal digits, read left to right (leading zeros allowed). */
  function DecimalValue(s: string): nat
    requires AllDigits(s)
  {
    if s == [] then 0 else DecimalValue(s[..|s| - 1]) * 10 + DigitValue(s[|s| - 1])
  }

  /** `Integer.parseInt(s)`: None where Java throws NumberFormatException. */
  function ParseInt(s: string): (r: Option<int>)
    ensures r.Some? ==> INT_MIN <= r.value <= INT_MAX
  {
    if |s| > 0 && (s[0] == '-' || s[0] == '+') then
      var digits := s[1..];
      if |digits| > 0 && AllDigits(digits) then
        var v: int := if s[0] == '-' then 0 - DecimalValue(digits) as int else DecimalValue(digits);
        if INT_MIN <= v <= INT_MAX then Some(v) else None
      else None
    else if |s| > 0 && AllDigits(s) && DecimalValue(s) <= INT_MAX then Some(DecimalValue(s))
    else None
  }

  /** An unsigned digit string parses to its value when that fits in an `int`, and fails otherwise. */
  lemma ParseIntOfDigits(s: string)
    requires AllDigits(s)
    ensures ParseInt(s) == if |s| > 0 && DecimalValue(s) <= INT_MAX then Some(DecimalValue(s)) else None
  {
  }

  /** `Integer.toString(n)` for n >= 0: the reference the parser is checked against. */
  function ToDecimal(n: nat): (s: string)
    ensures |s| > 0 && AllDigits(s)
  {
    if n < 10 then ['0' + n as char] else ToDecimal(n / 10) + ['0' + (n % 10) as char]
  }

  // ---------------------------------------------------------------------------
  // Properties of the Java primitives.
  // ---------------------------------------------------------------------------

  /** Reading back a printed number gives the number. */
  lemma {:induction false} DecimalValueOfToDecimal(n: nat)
    ensures DecimalValue(ToDecimal(n)) == n
  {
    if n >= 10 {
      var s := ToDecimal(n);
      DecimalValueOfToDecimal(n / 10);
      assert s[..|s| - 1] == ToDecimal(n / 10);
    }
  }

  /** `Integer.parseInt(Integer.toString(n)) == n` over the non-negative 32-bit range, and fails above it. */
  lemma ParseIntRoundTrip(n: nat)
    ensures n <= INT_MAX ==> ParseInt(ToDecimal(n)) == Some(n)
    ensures n > INT_MAX ==> ParseInt(ToDecimal(n)) == None
  {
    DecimalValueOfToDecimal(n);
  }

  /** The negative half of the round trip, down to -2^31. */
  lemma ParseIntNegativeRoundTrip(n: nat)
    requires 0 < n
    ensures n <= -INT_MIN ==> ParseInt("-" + ToDecimal(n)) == Some(-(n as int))
    ensures n > -INT_MIN ==> ParseInt("-" + ToDecimal(n)) == None
  {
    var s := "-" + ToDecimal(n);
    assert s[1..] == ToDecimal(n);
    DecimalValueOfToDecimal(n);
  }

  /** Parsing the empty string fails (Java throws on ""). */
  lemma ParseIntEmptyFails()
    ensures ParseInt("") == None
  {
  }

  /** Every token `Pieces` produces is free of delimiter characters. */
  lemma {:induction false} PiecesHaveNoDelimiter(s: string, d: Delimiter)
    ensures forall k, j :: 0 <= k < |Pieces(s, d)| && 0 <= j < |Pieces(s, d)[k]| ==> !IsDelimiter(d, Pieces(s, d)[k][j])
  {
    if s != [] {
      PiecesHaveNoDelimiter(s[1..], d);
    }
  }

  /** Every token of `Split` is free of delimiter characters. */
  lemma SplitHasNoDelimiter(s: string, d: Delimiter)
    ensures forall k, j :: 0 <= k < |Split(s, d)| && 0 <= j < |Split(s, d)[k]| ==> !IsDelimiter(d, Split(s, d)[k][j])
  {
    if s != [] {
      PiecesHaveNoDelimiter(s, d);
      var p := Pieces(s, d);
      assert Split(s, d) == p[..|Split(s, d)|];
    }
  }

  /** With no delimiter in `s`, `Pieces` returns `s` whole. */
  lemma {:induction false} PiecesWithoutDelimiter(s: string, d: Delimiter)
    requires forall j :: 0 <= j < |s| ==> !IsDelimiter(d, s[j])
    ensures Pieces(s, d) == [s]
  {
    if s != [] {
      PiecesWithoutDelimiter(s[1..], d);
      assert [s[0]] + s[1..] == s;
    }
  }

  /** Splitting a string that has no delimiter yields that string alone, as Java does. */
  lemma SplitWithoutDelimiter(s: string, d: Delimiter)
    requires forall j :: 0 <= j < |s| ==> !IsDelimiter(d, s[j])
    ensures Split(s, d) == [s]
  {
    if s != [] {
      PiecesWithoutDelimiter(s, d);
    }
  }

  /** A string starting with a delimiter splits into a leading empty token (when any token survives). */
  lemma SplitLeadingEmpty(s: string, d: Delimiter)
    requires |s| > 0 && IsDelimiter(d, s[0])
    ensures |Split(s, d)| > 0 ==> Split(s, d)[0] == ""
  {
  }

  /** Replacing a target whose first character never occurs changes nothing. */
  lemma {:induction false} ReplaceAbsent(s: string, target: string, replacement: string)
    requires |target| > 0
    requires forall j :: 0 <= j < |s| ==> s[j] != target[0]
    ensures Replace(s, target, replacement) == s
  {
    if |s| > 0 {
      assert !StartsWith(s, target) by { if |target| <= |s| { assert s[..|target|][0] == s[0]; } }
      ReplaceAbsent(s[1..], target, replacement);
      assert [s[0]] + s[1..] == s;
    }
  }

  /** `replaceAll("\\D", "")` keeps exactly the digits, in order. */
  lemma {:induction false} KeepDigitsAllDigits(s: string)
    ensures KeepDigits(s) == "" <==> !HasDigit(s)
    ensures AllDigits(s) ==> KeepDigits(s) == s
  {
    if s != [] {
      KeepDigitsAllDigits(s[1..]);
      assert HasDigit(s) <==> IsDigit(s[0]) || HasDigit(s[1..]) by {
        if HasDigit(s[1..]) {
          var i :| 0 <= i < |s[1..]| && IsDigit(s[1..][i]);
          assert IsDigit(s[i + 1]);
        }
        if HasDigit(s) && !IsDigit(s[0]) {
          var i :| 0 <= i < |s| && IsDigit(s[i]);
          assert s[1..][i - 1] == s[i];
        }
      }
      assert [s[0]] + s[1..] == s;
    }
  }

  /** Deleting the non-digits of a concatenation deletes them from each part. */
  lemma {:induction false} KeepDigitsConcat(a: string, b: string)
    ensures KeepDigits(a + b) == KeepDigits(a) + KeepDigits(b)
  {
    if a != [] {
      assert (a + b)[0] == a[0] && (a + b)[1..] == a[1..] + b;
      KeepDigitsConcat(a[1..], b);
    } else {
      assert a + b == b;
    }
  }

  /** A single character is kept exactly when it is a digit. */
  lemma KeepDigitsChar(c: char)
    ensures KeepDigits([c]) == if IsDigit(c) then [c] else []
  {
    assert [c][1..] == [];
  }

  /** Every token of the `\D+` split is made of digits. */
  lemma {:induction false} DigitRunPiecesAreDigits(s: string)
    ensures forall k :: 0 <= k < |DigitRunPieces(s)| ==> AllDigits(DigitRunPieces(s)[k])
    decreases |s|
  {
    if s != [] {
      if IsDigit(s[0]) {
        DigitRunPiecesAreDigits(s[1..]);
      } else {
        DigitRunPiecesAreDigits(DropNonDigits(s));
      }
    }
  }

  /**
   * The `\D+` split: every token is a run of digits, and the first token is
   * empty exactly when the string starts with a non-digit.
   */
  lemma SplitNonDigitsShape(s: string)
    ensures forall k :: 0 <= k < |SplitNonDigits(s)| ==> AllDigits(SplitNonDigits(s)[k])
    ensures |s| > 0 && !IsDigit(s[0]) && |SplitNonDigits(s)| > 0 ==> SplitNonDigits(s)[0] == ""
    ensures |s| > 0 && IsDigit(s[0]) ==> |SplitNonDigits(s)| > 0 && SplitNonDigits(s)[0] != ""
  {
    if s != [] {
      DigitRunPiecesAreDigits(s);
      var p := DigitRunPieces(s);
      var t := SplitNonDigits(s);
      assert t == p[..|t|];
      if IsDigit(s[0]) {
        assert p[0] != "";
        assert |t| > 0 by {
          if |t| == 0 {
            DropTrailingEmptyKeepsNonEmpty(p, 0);
          }
        }
      }
    }
  }

  /** `DropTrailingEmpty` keeps every token up to the last non-empty one. */
  lemma {:induction false} DropTrailingEmptyKeepsNonEmpty(r: seq<string>, k: nat)
    requires k < |r| && r[k] != ""
    ensures k < |DropTrailingEmpty(r)|
  {
    if |r| > 0 && r[|r| - 1] == "" {
      DropTrailingEmptyKeepsNonEmpty(r[..|r| - 1], k);
    }
  }

  /** A string without digits holds no occurrence of a string that has one. */
  lemma {:induction false} ContainsDigitCarrier(s: string, p: string)
    requires Contains(s, p) && HasDigit(p)
    ensures HasDigit(s)
    decreases |s|
  {
    if StartsWith(s, p) {
      var i :| 0 <= i < |p| && IsDigit(p[i]);
      assert s[i] == p[i];
    } else {
      ContainsDigitCarrier(s[1..], p);
      var i :| 0 <= i < |s[1..]| && IsDigit(s[1..][i]);
      assert IsDigit(s[i + 1]);
    }
  }

  /** A string that does not contain the one-character string [c] has no `c` anywhere. */
  lemma {:induction false} CharAbsent(s: string, c: char)
    requires !Contains(s, [c])
    ensures forall j :: 0 <= j < |s| ==> s[j] != c
    decreases |s|
  {
    if |s| > 0 {
      assert !StartsWith(s, [c]);
      CharAbsent(s[1..], c);
      forall j | 0 <= j < |s| ensures s[j] != c {
        if j > 0 { assert s[j] == s[1..][j - 1]; }
      }
    }
  }

  /** An occurrence at a known position makes `contains` hold. */
  lemma {:induction false} ContainsAt(s: string, p: string, i: nat)
    requires i + |p| <= |s| && s[i..i + |p|] == p
    ensures Contains(s, p)
    decreases i
  {
    if i > 0 {
      assert s[1..][i - 1..i - 1 + |p|] == s[i..i + |p|];
      ContainsAt(s[1..], p, i - 1);
    }
  }

  /** Splitting `a + [c] + b` at the delimiter `c` puts `a` first when `a` has no delimiter. */
  lemma {:induction false} PiecesAfterToken(a: string, c: char, b: string, d: Delimiter)
    requires forall j :: 0 <= j < |a| ==> !IsDelimiter(d, a[j])
    requires IsDelimiter(d, c)
    ensures Pieces(a + [c] + b, d) == [a] + Pieces(b, d)
    decreases |a|
  {
    var s := a + [c] + b;
    if a == [] {
      assert s[1..] == b;
    } else {
      assert s[1..] == a[1..] + [c] + b;
      PiecesAfterToken(a[1..], c, b, d);
      assert [a[0]] + a[1..] == a;
    }
  }

  /** An occurrence of `p` needs its first character somewhere in `s`. */
  lemma {:induction false} ContainsFirstChar(s: string, p: string)
    requires |p| > 0 && Contains(s, p)
    ensures exists i :: 0 <= i < |s| && s[i] == p[0]
    decreases |s|
  {
    if StartsWith(s, p) {
      assert s[..|p|][0] == s[0];
    } else {
      ContainsFirstChar(s[1..], p);
      var i :| 0 <= i < |s[1..]| && s[1..][i] == p[0];
      assert s[i + 1] == p[0];
    }
  }

  /** Every character of every piece is a character of the source string. */
  lemma {:induction false} PiecesCharsFromSource(s: string, d: Delimiter, k: nat, j: nat)
    requires k < |Pieces(s, d)| && j < |Pieces(s, d)[k]|
    ensures exists i :: 0 <= i < |s| && s[i] == Pieces(s, d)[k][j]
    decreases |s|
  {
    var rest := Pieces(s[1..], d);
    if IsDelimiter(d, s[0]) {
      PiecesCharsFromSource(s[1..], d, k - 1, j);
      var i :| 0 <= i < |s[1..]| && s[1..][i] == rest[k - 1][j];
      assert s[i + 1] == Pieces(s, d)[k][j];
    } else if k == 0 && j == 0 {
      assert s[0] == Pieces(s, d)[k][j];
    } else {
      var k', j' := k, if k == 0 then j - 1 else j;
      PiecesCharsFromSource(s[1..], d, k', j');
      var i :| 0 <= i < |s[1..]| && s[1..][i] == rest[k'][j'];
      assert s[i + 1] == Pieces(s, d)[k][j];
    }
  }

  /** A token of `split` that has a digit comes from a string that has one. */
  lemma SplitTokenDigit(s: string, d: Delimiter, k: nat)
    requires k < |Split(s, d)| && HasDigit(Split(s, d)[k])
    ensures HasDigit(s)
  {
    var t := Split(s, d);
    var j :| 0 <= j < |t[k]| && IsDigit(t[k][j]);
    if s != [] {
      assert t[k] == Pieces(s, d)[k];
      PiecesCharsFromSource(s, d, k, j);
    }
  }

  /** A string of digits is a single `\D+` piece. */
  lemma {:induction false} DigitRunPiecesOfDigits(s: string)
    requires AllDigits(s)
    ensures DigitRunPieces(s) == [s]
    decreases |s|
  {
    if s != [] {
      DigitRunPiecesOfDigits(s[1..]);
      assert [s[0]] + s[1..] == s;
    }
  }

  /** Digits `a`, one non-digit `c`, then `b` starting with a digit: `a` is the first `\D+` piece. */
  lemma {:induction false} DigitRunPiecesAfterGap(a: string, c: char, b: string)
    requires AllDigits(a) && !IsDigit(c) && (b == [] || IsDigit(b[0]))
    ensures DigitRunPieces(a + [c] + b) == [a] + DigitRunPieces(b)
    decreases |a|
  {
    var s := a + [c] + b;
    if a == [] {
      assert s == [c] + b;
      assert DropNonDigits(s) == DropNonDigits(b);
    } else {
      assert s[1..] == a[1..] + [c] + b;
      DigitRunPiecesAfterGap(a[1..], c, b);
      assert [a[0]] + a[1..] == a;
    }
  }
  /** Three delimiter-free tokens joined by two delimiters split back into those tokens. */
  lemma SplitThree(a: string, b: string, c: string, x: char, y: char, d: Delimiter)
    requires forall j :: 0 <= j < |a| ==> !IsDelimiter(d, a[j])
    requires forall j :: 0 <= j < |b| ==> !IsDelimiter(d, b[j])
    requires forall j :: 0 <= j < |c| ==> !IsDelimiter(d, c[j])
    requires IsDelimiter(d, x) && IsDelimiter(d, y) && c != []
    ensures Split(a + [x] + b + [y] + c, d) == [a, b, c]
  {
    PiecesWithoutDelimiter(c, d);
    PiecesAfterToken(b, y, c, d);
    assert a + [x] + b + [y] + c == a + [x] + (b + [y] + c);
    PiecesAfterToken(a, x, b + [y] + c, d);
  }

  /** Three digit strings joined by single non-digits are the three groups of the `\D+` split. */
  lemma SplitNonDigitsThree(a: string, b: string, c: string, x: char, y: char)
    requires AllDigits(a) && AllDigits(b) && AllDigits(c)
    requires b != [] && c != [] && !IsDigit(x) && !IsDigit(y)
    ensures SplitNonDigits(a + [x] + b + [y] + c) == [a, b, c]
  {
    DigitRunPiecesOfDigits(c);
    DigitRunPiecesAfterGap(b, y, c);
    assert a + [x] + b + [y] + c == a + [x] + (b + [y] + c);
    DigitRunPiecesAfterGap(a, x, b + [y] + c);
  }

  /** An occurrence in a suffix is an occurrence in the whole string. */
  lemma {:induction false} ContainsInSuffix(a: string, b: string, p: string)
    requires Contains(b, p)
    ensures Contains(a + b, p)
    decreases |a|
  {
    if a == [] {
      assert a + b == b;
    } else {
      assert (a + b)[1..] == a[1..] + b;
      ContainsInSuffix(a[1..], b, p);
    }
  }

  /** A string lacking the first character of `p` does not contain `p`. */
  lemma Lacks(s: string, p: string)
    requires |p| > 0 && forall i :: 0 <= i < |s| ==> s[i] != p[0]
    ensures !Contains(s, p)
  {
    if Contains(s, p) {
      ContainsFirstChar(s, p);
    }
  }

  /** Trimming adds no character. */
  lemma {:induction false} TrimKeepsAbsent(s: string, c: char)
    requires forall j :: 0 <= j < |s| ==> s[j] != c
    ensures forall j :: 0 <= j < |Trim(s)| ==> Trim(s)[j] != c
  {
    TrimStartKeepsAbsent(s, c);
    TrimEndKeepsAbsent(TrimStart(s), c);
  }

  lemma {:induction false} TrimStartKeepsAbsent(s: string, c: char)
    requires forall j :: 0 <= j < |s| ==> s[j] != c
    ensures forall j :: 0 <= j < |TrimStart(s)| ==> TrimStart(s)[j] != c
    decreases |s|
  {
    if |s| > 0 && s[0] <= ' ' {
      TrimStartKeepsAbsent(s[1..], c);
    }
  }

  lemma {:induction false} TrimEndKeepsAbsent(s: string, c: char)
    requires forall j :: 0 <= j < |s| ==> s[j] != c
    ensures forall j :: 0 <= j < |TrimEnd(s)| ==> TrimEnd(s)[j] != c
    decreases |s|
  {
    if |s| > 0 && s[|s| - 1] <= ' ' {
      TrimEndKeepsAbsent(s[..|s| - 1], c);
    }
  }

  /** Deleting every occurrence of a target adds no character. */
  lemma {:induction false} DeleteKeepsAbsent(s: string, target: string, c: char)
    requires |target| > 0
    requires forall j :: 0 <= j < |s| ==> s[j] != c
    ensures forall j :: 0 <= j < |Replace(s, target, "")| ==> Replace(s, target, "")[j] != c
    decreases |s|
  {
    if |s| > 0 {
      if StartsWith(s, target) {
        DeleteKeepsAbsent(s[|target|..], target, c);
        assert Replace(s, target, "") == Replace(s[|target|..], target, "");
      } else {
        DeleteKeepsAbsent(s[1..], target, c);
      }
    }
  }

  /** A string with no character at or below U+0020 at either end is its own trim. */
  lemma TrimUnchanged(s: string)
    requires |s| > 0 && s[0] > ' ' && s[|s| - 1] > ' '
    ensures Trim(s) == s
  {
  }
}
