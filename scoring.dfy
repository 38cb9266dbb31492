/** The evaluator's scoring rule `evaluate_final_output`, as a function of the
    final output it is given. Two copies of the rule exist
    (tests/guvi_simulator.py:26-143 and tests/test_e2e.py:112-218); they
    compute the same scores and differ only in how they describe a fakeData
    item whose extracted field has the wrong type. `Evaluate` is that rule; the
    methods in modules GuviSimulator and EndToEnd are the two copies, written
    as the step-by-step updates of a score record, and each is proved to
    compute `Evaluate`.

    Scores are counted in HALF-POINTS, so that the 2.5 points of an optional
    field are a whole number: `Pts(20)` is 20 points. */
module Scoring {
  import opened Text

  // ---------------------------------------------------------------------------
  // Python values as the rule sees them.

  /** A JSON-like Python value. List elements are strings: the extractor only
      ever puts strings in its lists, and `str(v)` of a string is itself. */
  datatype Value =
    | NoneValue
    | BoolValue(b: bool)
    | IntValue(i: int)
    | StrValue(s: string)
    | ListValue(items: seq<string>)
    | DictValue(entries: map<string, Value>)

  /** Python truthiness. */
  predicate Truthy(v: Value)
  {
    match v
    case NoneValue => false
    case BoolValue(b) => b
    case IntValue(i) => i != 0
    case StrValue(s) => s != []
    case ListValue(items) => items != []
    case DictValue(entries) => entries != map[]
  }

  /** `d.get(key, default)` */
  function Get(d: map<string, Value>, key: string, default: Value): Value
  {
    if key in d then d[key] else default
  }

  /** What `>` can compare with an int: an int, or a bool (an int subclass). */
  predicate IsNumber(v: Value)
  {
    v.IntValue? || v.BoolValue?
  }

  function NumberOf(v: Value): int
    requires IsNumber(v)
  {
    if v.IntValue? then v.i else if v.b then 1 else 0
  }

  /** The exceptions the rule can raise on a malformed final output:
      `.get` on something that is not a dict, `>` between a non-number and 0. */
  datatype PyError = AttributeError | TypeError

  /** One entry of the scenario's `fakeData` dict, in iteration order. */
  datatype FakeItem = FakeItem(key: string, value: string)

  // ---------------------------------------------------------------------------
  // Scores and details.

  /** `n` whole points, in half-points. */
  function Pts(n: int): int { 2 * n }

  /** The 2.5 points of a present, non-empty optional field. */
  const OptionalFieldPoints: int := 5

  datatype Score = Score(
    scamDetection: int,
    intelligenceExtraction: int,
    engagementQuality: int,
    responseStructure: int,
    total: int)

  /** How one fakeData item fared. The guvi copy reports a field of the wrong
      type separately; the end-to-end copy calls it a miss. */
  datatype IntelStatus = Match | Miss | WrongType

  datatype IntelDetail = IntelDetail(fakeKey: string, fakeValue: string, outputKey: string, status: IntelStatus)

  /** One engagement threshold or one structure field, and whether it scored. */
  datatype Check = Check(name: string, passed: bool)

  datatype Evaluation =
    | Evaluated(score: Score, intelDetails: seq<IntelDetail>,
                engagementDetails: seq<Check>, structureDetails: seq<Check>)
    | Raised(error: PyError)

  // ---------------------------------------------------------------------------
  // 1. Scam detection.

  function ScamDetectionScore(finalOutput: map<string, Value>): (r: int)
    ensures r == Pts(20) <==> Truthy(Get(finalOutput, "scamDetected", BoolValue(false)))
    ensures r == 0 || r == Pts(20)
  {
    if Truthy(Get(finalOutput, "scamDetected", BoolValue(false))) then Pts(20) else 0
  }

  // ---------------------------------------------------------------------------
  // 2. Intelligence extraction.

  const KeyMapping: map<string, string> := map[
    "bankAccount" := "bankAccounts",
    "upiId" := "upiIds",
    "phoneNumber" := "phoneNumbers",
    "phishingLink" := "phishingLinks",
    "emailAddress" := "emailAddresses"
  ]

  /** `key_mapping.get(fake_key, fake_key)` */
  function OutputKey(fakeKey: string): string
  {
    if fakeKey in KeyMapping then KeyMapping[fakeKey] else fakeKey
  }

  /** Some entry of `values` contains `fakeValue` as a substring. */
  function AnyContains(values: seq<string>, fakeValue: string): (r: bool)
    ensures r <==> exists k :: 0 <= k < |values| && Contains(values[k], fakeValue)
  {
    if values == [] then false
    else Contains(values[0], fakeValue) || AnyContains(values[1..], fakeValue)
  }

  /** The outcome for one item against the `extractedIntelligence` dict; a
      missing field is an empty list. */
  function ItemStatus(extracted: map<string, Value>, item: FakeItem): IntelStatus
  {
    match Get(extracted, OutputKey(item.key), ListValue([]))
    case ListValue(values) => if AnyContains(values, item.value) then Match else Miss
    case StrValue(s) => if Contains(s, item.value) then Match else Miss
    case _ => WrongType
  }

  function Statuses(extracted: map<string, Value>, items: seq<FakeItem>): (r: seq<IntelStatus>)
    ensures |r| == |items|
    ensures forall k :: 0 <= k < |items| ==> r[k] == ItemStatus(extracted, items[k])
  {
    seq(|items|, k requires 0 <= k < |items| => ItemStatus(extracted, items[k]))
  }

  function CountMatches(statuses: seq<IntelStatus>): (n: nat)
    ensures n <= |statuses|
    decreases |statuses|
  {
    if statuses == [] then 0
    else CountMatches(statuses[..|statuses| - 1]) + if statuses[|statuses| - 1] == Match then 1 else 0
  }

  /** 10 points per matching item, at most 40. */
  function IntelScore(statuses: seq<IntelStatus>): (r: int)
    ensures r == Pts(10) * CountMatches(statuses) || r == Pts(40)
    ensures 0 <= r <= Pts(40)
  {
    Min(Pts(10) * CountMatches(statuses), Pts(40))
  }

  function Min(a: int, b: int): int { if a <= b then a else b }

  /** The status a copy of the rule reports. */
  function Reported(s: IntelStatus, distinguishWrongType: bool): IntelStatus
  {
    if s == WrongType && !distinguishWrongType then Miss else s
  }

  function IntelDetails(extracted: map<string, Value>, items: seq<FakeItem>, distinguishWrongType: bool)
    : (r: seq<IntelDetail>)
    ensures |r| == |items|
    ensures forall k :: 0 <= k < |items| ==>
              r[k] == IntelDetail(items[k].key, items[k].value, OutputKey(items[k].key),
                                  Reported(ItemStatus(extracted, items[k]), distinguishWrongType))
  {
    seq(|items|, k requires 0 <= k < |items| =>
      IntelDetail(items[k].key, items[k].value, OutputKey(items[k].key),
                  Reported(ItemStatus(extracted, items[k]), distinguishWrongType)))
  }

  // ---------------------------------------------------------------------------
  // 3. Engagement quality.

  function EngagementChecks(duration: int, messages: int): (r: seq<Check>)
    ensures |r| == 4
  {
    [ Check("duration > 0", duration > 0),
      Check("duration > 60", duration > 60),
      Check("messages > 0", messages > 0),
      Check("messages >= 5", messages >= 5) ]
  }

  function CountPassed(checks: seq<Check>): (n: nat)
    ensures n <= |checks|
    decreases |checks|
  {
    if checks == [] then 0
    else CountPassed(checks[..|checks| - 1]) + if checks[|checks| - 1].passed then 1 else 0
  }

  /** 5 points per threshold met. */
  function EngagementScore(duration: int, messages: int): int
  {
    Pts(5) * CountPassed(EngagementChecks(duration, messages))
  }

  // ---------------------------------------------------------------------------
  // 4. Response structure.

  const RequiredFields: seq<string> := ["status", "scamDetected", "extractedIntelligence"]
  const OptionalFields: seq<string> := ["engagementMetrics", "agentNotes"]

  /** A required field scores when present. */
  function RequiredChecks(finalOutput: map<string, Value>, fields: seq<string>): (r: seq<Check>)
    ensures |r| == |fields|
    ensures forall k :: 0 <= k < |fields| ==> r[k] == Check(fields[k], fields[k] in finalOutput)
  {
    seq(|fields|, k requires 0 <= k < |fields| => Check(fields[k], fields[k] in finalOutput))
  }

  /** An optional field scores when present and truthy. */
  function OptionalChecks(finalOutput: map<string, Value>, fields: seq<string>): (r: seq<Check>)
    ensures |r| == |fields|
    ensures forall k :: 0 <= k < |fields| ==>
              r[k] == Check(fields[k], fields[k] in finalOutput && Truthy(finalOutput[fields[k]]))
  {
    seq(|fields|, k requires 0 <= k < |fields| =>
      Check(fields[k], fields[k] in finalOutput && Truthy(finalOutput[fields[k]])))
  }

  function StructureChecks(finalOutput: map<string, Value>): seq<Check>
  {
    RequiredChecks(finalOutput, RequiredFields) + OptionalChecks(finalOutput, OptionalFields)
  }

  /** 5 points per required field present, 2.5 per optional field present and
      non-empty, at most 20. */
  function StructureScore(finalOutput: map<string, Value>): (r: int)
    ensures 0 <= r <= Pts(20)
  {
    Min(Pts(5) * CountPassed(RequiredChecks(finalOutput, RequiredFields))
        + OptionalFieldPoints * CountPassed(OptionalChecks(finalOutput, OptionalFields)),
        Pts(20))
  }

  // ---------------------------------------------------------------------------
  // The whole rule, section by section.

  /** A section's points and detail lines, or the exception it raised. */
  datatype Outcome<T> = Done(points: int, details: seq<T>) | Failed(error: PyError)

  /** `extracted.get(...)`, on a dict; an empty dict otherwise. */
  function EntriesOf(extracted: Value): map<string, Value>
  {
    if extracted.DictValue? then extracted.entries else map[]
  }

  /** Section 2: `.get` on an `extractedIntelligence` that is not a dict
      raises, but only once there is an item to look up. */
  function IntelOutcome(extracted: Value, fakeData: seq<FakeItem>, distinguishWrongType: bool)
    : (r: Outcome<IntelDetail>)
    ensures r.Failed? <==> |fakeData| > 0 && !extracted.DictValue?
    ensures r.Failed? ==> r.error == AttributeError
    ensures r.Done? ==> 0 <= r.points <= Pts(40) && |r.details| == |fakeData|
  {
    if |fakeData| > 0 && !extracted.DictValue? then Failed(AttributeError)
    else
      Done(IntelScore(Statuses(EntriesOf(extracted), fakeData)),
           IntelDetails(EntriesOf(extracted), fakeData, distinguishWrongType))
  }

  /** Section 3: `.get` on `engagementMetrics` raises unless it is a dict;
      `>` raises unless the duration and the message count are numbers. */
  function EngagementOutcome(metrics: Value): (r: Outcome<Check>)
    ensures r.Failed? <==>
              !metrics.DictValue?
              || !IsNumber(Get(metrics.entries, "engagementDurationSeconds", IntValue(0)))
              || !IsNumber(Get(metrics.entries, "totalMessagesExchanged", IntValue(0)))
    ensures r.Failed? ==> (r.error == AttributeError <==> !metrics.DictValue?)
    ensures r.Done? ==> 0 <= r.points <= Pts(20) && |r.details| == 4
  {
    if !metrics.DictValue? then Failed(AttributeError)
    else
      var duration := Get(metrics.entries, "engagementDurationSeconds", IntValue(0));
      var messages := Get(metrics.entries, "totalMessagesExchanged", IntValue(0));
      if !IsNumber(duration) || !IsNumber(messages) then Failed(TypeError)
      else
        assert CountPassed(EngagementChecks(NumberOf(duration), NumberOf(messages))) <= 4;
        Done(EngagementScore(NumberOf(duration), NumberOf(messages)),
             EngagementChecks(NumberOf(duration), NumberOf(messages)))
  }

  /** `evaluate_final_output(final_output, scenario, ...)` where the scenario's
      `fakeData` is `fakeData`: the four sections in order, the first
      exception ending the evaluation, the total their sum. */
  function Evaluate(finalOutput: map<string, Value>, fakeData: seq<FakeItem>, distinguishWrongType: bool)
    : (e: Evaluation)
    ensures e.Evaluated? ==>
              e.score.total == e.score.scamDetection + e.score.intelligenceExtraction
                               + e.score.engagementQuality + e.score.responseStructure
              && 0 <= e.score.total <= Pts(100)
  {
    var intel := IntelOutcome(Get(finalOutput, "extractedIntelligence", DictValue(map[])),
                              fakeData, distinguishWrongType);
    var engagement := EngagementOutcome(Get(finalOutput, "engagementMetrics", DictValue(map[])));
    if intel.Failed? then Raised(intel.error)
    else if engagement.Failed? then Raised(engagement.error)
    else
      var scam := ScamDetectionScore(finalOutput);
      var structure := StructureScore(finalOutput);
      Evaluated(Score(scam, intel.points, engagement.points, structure,
                      scam + intel.points + engagement.points + structure),
                intel.details, engagement.details, StructureChecks(finalOutput))
  }

  // ---------------------------------------------------------------------------
  // One more item, one more field: how the functions above grow, for the
  // loops that compute them.

  lemma CountMatchesSnoc(statuses: seq<IntelStatus>, s: IntelStatus)
    ensures CountMatches(statuses + [s]) == CountMatches(statuses) + if s == Match then 1 else 0
  {
    assert (statuses + [s])[..|statuses|] == statuses;
  }

  lemma CountPassedSnoc(checks: seq<Check>, c: Check)
    ensures CountPassed(checks + [c]) == CountPassed(checks) + if c.passed then 1 else 0
  {
    assert (checks + [c])[..|checks|] == checks;
  }

  lemma IntelSnoc(extracted: map<string, Value>, items: seq<FakeItem>, k: nat, distinguishWrongType: bool)
    requires k < |items|
    ensures CountMatches(Statuses(extracted, items[..k + 1])) ==
            CountMatches(Statuses(extracted, items[..k])) + if ItemStatus(extracted, items[k]) == Match then 1 else 0
    ensures IntelDetails(extracted, items[..k + 1], distinguishWrongType) ==
            IntelDetails(extracted, items[..k], distinguishWrongType)
            + [IntelDetail(items[k].key, items[k].value, OutputKey(items[k].key),
                           Reported(ItemStatus(extracted, items[k]), distinguishWrongType))]
  {
    StatusesSnoc(extracted, items, k);
    CountMatchesSnoc(Statuses(extracted, items[..k]), ItemStatus(extracted, items[k]));
    DetailsSnoc(extracted, items, k, distinguishWrongType);
  }

  lemma StatusesSnoc(extracted: map<string, Value>, items: seq<FakeItem>, k: nat)
    requires k < |items|
    ensures Statuses(extracted, items[..k + 1]) == Statuses(extracted, items[..k]) + [ItemStatus(extracted, items[k])]
  {
  }

  lemma DetailsSnoc(extracted: map<string, Value>, items: seq<FakeItem>, k: nat, distinguishWrongType: bool)
    requires k < |items|
    ensures IntelDetails(extracted, items[..k + 1], distinguishWrongType) ==
            IntelDetails(extracted, items[..k], distinguishWrongType)
            + [IntelDetail(items[k].key, items[k].value, OutputKey(items[k].key),
                           Reported(ItemStatus(extracted, items[k]), distinguishWrongType))]
  {
  }

  lemma RequiredSnoc(finalOutput: map<string, Value>, fields: seq<string>, k: nat)
    requires k < |fields|
    ensures RequiredChecks(finalOutput, fields[..k + 1]) ==
            RequiredChecks(finalOutput, fields[..k]) + [Check(fields[k], fields[k] in finalOutput)]
    ensures CountPassed(RequiredChecks(finalOutput, fields[..k + 1])) ==
            CountPassed(RequiredChecks(finalOutput, fields[..k])) + if fields[k] in finalOutput then 1 else 0
  {
    assert RequiredChecks(finalOutput, fields[..k + 1]) ==
           RequiredChecks(finalOutput, fields[..k]) + [Check(fields[k], fields[k] in finalOutput)];
    CountPassedSnoc(RequiredChecks(finalOutput, fields[..k]), Check(fields[k], fields[k] in finalOutput));
  }

  lemma OptionalSnoc(finalOutput: map<string, Value>, fields: seq<string>, k: nat)
    requires k < |fields|
    ensures var c := Check(fields[k], fields[k] in finalOutput && Truthy(finalOutput[fields[k]]));
            OptionalChecks(finalOutput, fields[..k + 1]) == OptionalChecks(finalOutput, fields[..k]) + [c]
            && CountPassed(OptionalChecks(finalOutput, fields[..k + 1])) ==
               CountPassed(OptionalChecks(finalOutput, fields[..k])) + if c.passed then 1 else 0
  {
    var c := Check(fields[k], fields[k] in finalOutput && Truthy(finalOutput[fields[k]]));
    assert OptionalChecks(finalOutput, fields[..k + 1]) == OptionalChecks(finalOutput, fields[..k]) + [c];
    CountPassedSnoc(OptionalChecks(finalOutput, fields[..k]), c);
  }

  lemma EngagementUnfold(duration: int, messages: int)
    ensures EngagementScore(duration, messages) ==
            (if duration > 0 then Pts(5) else 0) + (if duration > 60 then Pts(5) else 0)
            + (if messages > 0 then Pts(5) else 0) + (if messages >= 5 then Pts(5) else 0)
  {
    var c := EngagementChecks(duration, messages);
    CountPassedSnoc(c[..3], c[3]);
    CountPassedSnoc(c[..2], c[2]);
    CountPassedSnoc(c[..1], c[1]);
    CountPassedSnoc(c[..0], c[0]);
    assert c[..3] + [c[3]] == c;
    assert c[..2] + [c[2]] == c[..3];
    assert c[..1] + [c[1]] == c[..2];
    assert c[..0] + [c[0]] == c[..1];
  }
}
