/**
 * The beat classifier (`ECGClassifier`). The TensorFlow Lite model is never
 * consulted: once loaded, classification returns ten placeholder beats that
 * cycle through the five beat types with rising, clamped confidences. Whether
 * the interpreter was created and whether initialisation finished are the
 * two flags of the object; the beat-type tables are total functions.
 */
module Classifier {

  const BEAT_TYPE_NORMAL: int := 0
  const BEAT_TYPE_LEFT_BUNDLE_BRANCH_BLOCK: int := 1
  const BEAT_TYPE_RIGHT_BUNDLE_BRANCH_BLOCK: int := 2
  const BEAT_TYPE_ATRIAL_PREMATURE: int := 3
  const BEAT_TYPE_PREMATURE_VENTRICULAR: int := 4
  const BEAT_TYPE_UNKNOWN: int := -1

  /** The types the placeholder cycles through: N, L, R, A, V. */
  const CLASS_TYPES: seq<int> := [
    BEAT_TYPE_NORMAL,
    BEAT_TYPE_LEFT_BUNDLE_BRANCH_BLOCK,
    BEAT_TYPE_RIGHT_BUNDLE_BRANCH_BLOCK,
    BEAT_TYPE_ATRIAL_PREMATURE,
    BEAT_TYPE_PREMATURE_VENTRICULAR
  ]

  /** How many beats the placeholder classification reports. */
  const PLACEHOLDER_BEATS: nat := 10

  datatype BeatClassification = BeatClassification(beatIndex: int, beatType: int, confidence: real)

  /** The six named beat types. */
  predicate IsBeatType(t: int)
  {
    BEAT_TYPE_UNKNOWN <= t <= BEAT_TYPE_PREMATURE_VENTRICULAR
  }

  /** 0.85 + 0.02 i, capped at 1.0: never below 0.85, and the cap bites from i = 8 on. */
  function Confidence(i: nat): (c: real)
    ensures 0.85 <= c <= 1.0
    ensures c == 1.0 <==> i >= 8
    ensures i < 8 ==> c == 0.85 + 0.02 * i as real
  {
    var raw := 0.85 + 0.02 * i as real;
    if raw > 1.0 then 1.0 else raw
  }

  /** The placeholder result for beat i. */
  function PlaceholderBeat(i: nat): (b: BeatClassification)
    ensures b.beatIndex == i && b.beatType in CLASS_TYPES && b.beatType != BEAT_TYPE_UNKNOWN
    ensures b.beatType == i % 5
  {
    BeatClassification(i, CLASS_TYPES[i % |CLASS_TYPES|], Confidence(i))
  }

  /** What `classifyCSVData` returns: nothing when the model is not loaded, else ten placeholder beats. */
  function Classification(loaded: bool): (r: seq<BeatClassification>)
    ensures !loaded ==> r == []
    ensures loaded ==> |r| == PLACEHOLDER_BEATS && forall i :: 0 <= i < |r| ==> r[i] == PlaceholderBeat(i)
  {
    if loaded then seq(PLACEHOLDER_BEATS, i requires 0 <= i < PLACEHOLDER_BEATS => PlaceholderBeat(i)) else []
  }

  /** The number of results of type `t`. */
  function CountType(r: seq<BeatClassification>, t: int): nat
  {
    if r == [] then 0 else CountType(r[..|r| - 1], t) + (if r[|r| - 1].beatType == t then 1 else 0)
  }

  /**
   * The loaded placeholder reports two beats of each of the five types (so 2
   * normal and 8 abnormal), and none of any other type, UNKNOWN included.
   */
  lemma ClassificationMix(t: int)
    ensures CountType(Classification(true), t) == if t in CLASS_TYPES then 2 else 0
  {
    var r := Classification(true);
    var k := 0;
    while k < PLACEHOLDER_BEATS
      invariant 0 <= k <= PLACEHOLDER_BEATS
      invariant CountType(r[..k], t) == IndicesWithRemainder(k, t)
    {
      CountStep(k, t);
      CycleStep(k, t);
      k := k + 1;
    }
    assert r[..k] == r;
    assert IndicesWithRemainder(10, t) == if 0 <= t < 5 then 2 else 0;
  }

  /** The k-th placeholder beat adds one to the count of its own type only. */
  lemma CountStep(k: nat, t: int)
    requires k < PLACEHOLDER_BEATS
    ensures CountType(Classification(true)[..k + 1], t) ==
      CountType(Classification(true)[..k], t) + (if k % 5 == t then 1 else 0)
  {
    var r := Classification(true);
    assert r[..k + 1][..k] == r[..k];
    assert r[k].beatType == k % 5;
  }

  /** How many of 0 .. k - 1 leave remainder t when divided by 5. */
  function IndicesWithRemainder(k: nat, t: int): nat
  {
    if 0 <= t < 5 then (k + 4 - t) / 5 else 0
  }

  /** Among 0 .. k, one more index has remainder t than among 0 .. k - 1 exactly when k itself does. */
  lemma CycleStep(k: nat, t: int)
    ensures IndicesWithRemainder(k + 1, t) == IndicesWithRemainder(k, t) + (if k % 5 == t then 1 else 0)
  {
    if 0 <= t < 5 {
      var q, m := k / 5, k % 5;
      assert k == 5 * q + m;
      assert k + 4 - t == 5 * q + (m + 4 - t);
      assert k + 5 - t == 5 * q + (m + 5 - t);
      if m == t {
        assert (k + 4 - t) / 5 == q;
        assert (k + 5 - t) / 5 == q + 1;
      } else if m < t {
        assert (k + 4 - t) / 5 == q;
        assert (k + 5 - t) / 5 == q;
      } else {
        assert (k + 4 - t) / 5 == q + 1;
        assert (k + 5 - t) / 5 == q + 1;
      }
    }
  }

  class ECGClassifier {
    /** Set once initialisation ran to the end. */
    var isLoaded: bool
    /** Whether the TFLite interpreter exists (`tflite != null`). */
    var hasInterpreter: bool

    /**
     * The constructor's outcome, with model loading as inputs: whether the
     * interpreter got created, and whether the rest of initialisation
     * (labels, tensor checks) finished without an exception.
     */
    constructor (interpreterCreated: bool, initialised: bool)
      requires initialised ==> interpreterCreated
      ensures isLoaded == initialised && hasInterpreter == interpreterCreated
    {
      isLoaded := initialised;
      hasInterpreter := interpreterCreated;
    }

    predicate IsModelLoaded()
      reads this
    {
      isLoaded && hasInterpreter
    }

    /**
     * `classifyCSVData`: the stream is never read, so the result depends only
     * on whether the model is loaded.
     */
    method ClassifyCSVData(csvStream: seq<string>) returns (results: seq<BeatClassification>)
      ensures results == Classification(IsModelLoaded())
    {
      results := [];
      if !IsModelLoaded() {
        return;
      }
      var classTypes := CLASS_TYPES;
      var i := 0;
      while i < PLACEHOLDER_BEATS
        invariant 0 <= i <= PLACEHOLDER_BEATS
        invariant |results| == i
        invariant forall j :: 0 <= j < i ==> results[j] == PlaceholderBeat(j)
      {
        var confidence := 0.85 + (i as real * 0.02);
        if confidence > 1.0 {
          confidence := 1.0;
        }
        var result := BeatClassification(i, classTypes[i % |classTypes|], confidence);
        results := results + [result];
        i := i + 1;
      }
    }

    /** `close`: drops the interpreter and clears the loaded flag; closing again changes nothing. */
    method Close()
      modifies this
      ensures !isLoaded && !hasInterpreter && !IsModelLoaded()
    {
      if hasInterpreter {
        hasInterpreter := false;
      }
      isLoaded := false;
    }
  }

  /** Two calls in the same state give the same list, whatever the input. */
  method ClassifyTwice(c: ECGClassifier, a: seq<string>, b: seq<string>)
    returns (first: seq<BeatClassification>, second: seq<BeatClassification>)
    ensures first == second
    ensures !c.IsModelLoaded() ==> first == []
  {
    first := c.ClassifyCSVData(a);
    second := c.ClassifyCSVData(b);
  }

  /** `getBeatTypeName`. */
  function BeatTypeName(beatType: int): (name: string)
    ensures !IsBeatType(beatType) <==> name == "Invalid beat type"
  {
    match beatType
    case 0 => "Normal beat"
    case 1 => "Left bundle branch block beat"
    case 2 => "Right bundle branch block beat"
    case 3 => "Atrial premature beat"
    case 4 => "Premature ventricular contraction"
    case -1 => "Unknown beat type"
    case _ => "Invalid beat type"
  }

  /** `getBeatTypeCode`. */
  function BeatTypeCode(beatType: int): (code: string)
    ensures |code| == 1
    ensures !IsBeatType(beatType) <==> code == "?"
    ensures IsBeatType(beatType) ==> code[0] in "NLRAVU" && TypeOfInitial(code[0]) == beatType
  {
    match beatType
    case 0 => "N"
    case 1 => "L"
    case 2 => "R"
    case 3 => "A"
    case 4 => "V"
    case -1 => "U"
    case _ => "?"
  }

  /** The six beat types have six different codes and six different names. */
  lemma BeatTypeTablesInjective(s: int, t: int)
    requires IsBeatType(s) && IsBeatType(t) && s != t
    ensures BeatTypeCode(s) != BeatTypeCode(t)
    ensures BeatTypeName(s) != BeatTypeName(t)
  {
    InitialsIdentifyType(s);
    InitialsIdentifyType(t);
  }

  /** The beat type a first letter stands for; -2 for a letter that starts no name or code. */
  function TypeOfInitial(c: char): int
  {
    match c
    case 'N' => 0
    case 'L' => 1
    case 'R' => 2
    case 'A' => 3
    case 'P' => 4
    case 'V' => 4
    case 'U' => -1
    case _ => -2
  }

  /** The first letter of a named type's name, and its code, give the type back. */
  lemma InitialsIdentifyType(t: int)
    requires IsBeatType(t)
    ensures |BeatTypeName(t)| > 0 && TypeOfInitial(BeatTypeName(t)[0]) == t
    ensures TypeOfInitial(BeatTypeCode(t)[0]) == t
  {
  }
}
