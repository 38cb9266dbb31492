/** `evaluate_final_output` of tests/guvi_simulator.py:26-143: the scoring
    rule as the simulator runs it, updating a score record section by section
    and collecting detail lines as it goes. */
module GuviSimulator {
  import opened Text
  import opened Scoring

  /** The result is the rule `Evaluate`, with a wrong-type field reported as
      such; `conversationHistory` is accepted and never read, so no score
      depends on it. */
  method EvaluateFinalOutput(finalOutput: map<string, Value>, fakeData: seq<FakeItem>,
                             conversationHistory: seq<Value>)
    returns (result: Evaluation)
    ensures result == Evaluate(finalOutput, fakeData, true)
  {
    var score := Score(0, 0, 0, 0, 0);

    // 1. Scam detection
    if Truthy(Get(finalOutput, "scamDetected", BoolValue(false))) {
      score := score.(scamDetection := Pts(20));
    }

    // 2. Intelligence extraction
    var extracted := Get(finalOutput, "extractedIntelligence", DictValue(map[]));
    var intel := IntelligenceExtraction(extracted, fakeData);
    if intel.Failed? {
      return Raised(intel.error);
    }
    score := score.(intelligenceExtraction := intel.points);

    // 3. Engagement quality
    var metrics := Get(finalOutput, "engagementMetrics", DictValue(map[]));
    var engagement := EngagementQuality(metrics);
    if engagement.Failed? {
      return Raised(engagement.error);
    }
    score := score.(engagementQuality := engagement.points);

    // 4. Response structure
    var structure, structureDetails := ResponseStructure(finalOutput);
    score := score.(responseStructure := structure);

    score := score.(total := score.scamDetection + score.intelligenceExtraction
                             + score.engagementQuality + score.responseStructure);
    result := Evaluated(score, intel.details, engagement.details, structureDetails);
  }

  /** For each fakeData item: look its field up, score 10 on a substring
      match, and record MATCH, MISS or a wrong type; then cap at 40. */
  method IntelligenceExtraction(extracted: Value, fakeData: seq<FakeItem>) returns (r: Outcome<IntelDetail>)
    ensures r == IntelOutcome(extracted, fakeData, true)
  {
    ghost var entries := EntriesOf(extracted);
    var points := 0;
    var intelDetails: seq<IntelDetail> := [];
    var k := 0;
    while k < |fakeData|
      invariant 0 <= k <= |fakeData|
      invariant k > 0 ==> extracted.DictValue?
      invariant points == Pts(10) * CountMatches(Statuses(entries, fakeData[..k]))
      invariant intelDetails == IntelDetails(entries, fakeData[..k], true)
    {
      var item := fakeData[k];
      if !extracted.DictValue? {
        return Failed(AttributeError);
      }
      var outputKey, status := CheckItem(extracted.entries, item);
      if status == Match {
        points := points + Pts(10);
      }
      intelDetails := intelDetails + [IntelDetail(item.key, item.value, outputKey, status)];
      IntelSnoc(entries, fakeData, k, true);
      k := k + 1;
    }
    assert fakeData[..|fakeData|] == fakeData;
    points := Min(points, Pts(40));
    r := Done(points, intelDetails);
  }

  /** One item: the field it is looked up under, and MATCH when an entry of
      that list (or that string) contains the value, MISS when none does or
      the field is missing, a wrong type when the field is neither. */
  method CheckItem(entries: map<string, Value>, item: FakeItem) returns (outputKey: string, status: IntelStatus)
    ensures outputKey == OutputKey(item.key)
    ensures status == ItemStatus(entries, item)
  {
    outputKey := OutputKey(item.key);
    var extractedValues := Get(entries, outputKey, ListValue([]));
    if extractedValues.ListValue? {
      if AnyContains(extractedValues.items, item.value) {
        status := Match;
      } else {
        status := Miss;
      }
    } else if extractedValues.StrValue? {
      if Contains(extractedValues.s, item.value) {
        status := Match;
      } else {
        status := Miss;
      }
    } else {
      status := WrongType;
    }
  }

  /** Read duration and message count (default 0) and score 5 for each of
      duration > 0, duration > 60, messages > 0, messages >= 5. */
  method EngagementQuality(metrics: Value) returns (r: Outcome<Check>)
    ensures r == EngagementOutcome(metrics)
  {
    if !metrics.DictValue? {
      return Failed(AttributeError);
    }
    var duration := Get(metrics.entries, "engagementDurationSeconds", IntValue(0));
    var messages := Get(metrics.entries, "totalMessagesExchanged", IntValue(0));
    var points := 0;
    var engagementDetails: seq<Check> := [];
    if !IsNumber(duration) {
      return Failed(TypeError);
    }
    if NumberOf(duration) > 0 {
      points := points + Pts(5);
      engagementDetails := engagementDetails + [Check("duration > 0", true)];
    } else {
      engagementDetails := engagementDetails + [Check("duration > 0", false)];
    }
    if NumberOf(duration) > 60 {
      points := points + Pts(5);
      engagementDetails := engagementDetails + [Check("duration > 60", true)];
    } else {
      engagementDetails := engagementDetails + [Check("duration > 60", false)];
    }
    if !IsNumber(messages) {
      return Failed(TypeError);
    }
    if NumberOf(messages) > 0 {
      points := points + Pts(5);
      engagementDetails := engagementDetails + [Check("messages > 0", true)];
    } else {
      engagementDetails := engagementDetails + [Check("messages > 0", false)];
    }
    if NumberOf(messages) >= 5 {
      points := points + Pts(5);
      engagementDetails := engagementDetails + [Check("messages >= 5", true)];
    } else {
      engagementDetails := engagementDetails + [Check("messages >= 5", false)];
    }
    EngagementUnfold(NumberOf(duration), NumberOf(messages));
    r := Done(points, engagementDetails);
  }

  /** 5 per required field present, 2.5 per optional field present and
      non-empty, then capped at 20. */
  method ResponseStructure(finalOutput: map<string, Value>) returns (points: int, structureDetails: seq<Check>)
    ensures points == StructureScore(finalOutput)
    ensures structureDetails == StructureChecks(finalOutput)
  {
    var requiredPoints, requiredDetails := RequiredFieldsPresent(finalOutput, RequiredFields);
    var optionalPoints, optionalDetails := OptionalFieldsPresent(finalOutput, OptionalFields);
    points := Min(requiredPoints + optionalPoints, Pts(20));
    structureDetails := requiredDetails + optionalDetails;
  }

  /** 5 points and a passed check per field of `fields` present in the output. */
  method RequiredFieldsPresent(finalOutput: map<string, Value>, fields: seq<string>)
    returns (points: int, details: seq<Check>)
    ensures points == Pts(5) * CountPassed(RequiredChecks(finalOutput, fields))
    ensures details == RequiredChecks(finalOutput, fields)
  {
    points := 0;
    details := [];
    var f := 0;
    while f < |fields|
      invariant 0 <= f <= |fields|
      invariant points == Pts(5) * CountPassed(RequiredChecks(finalOutput, fields[..f]))
      invariant details == RequiredChecks(finalOutput, fields[..f])
    {
      var field := fields[f];
      RequiredSnoc(finalOutput, fields, f);
      if field in finalOutput {
        points := points + Pts(5);
        details := details + [Check(field, true)];
      } else {
        details := details + [Check(field, false)];
      }
      f := f + 1;
    }
    assert fields[..|fields|] == fields;
  }

  /** 2.5 points and a passed check per field of `fields` present in the
      output and non-empty. */
  method OptionalFieldsPresent(finalOutput: map<string, Value>, fields: seq<string>)
    returns (points: int, details: seq<Check>)
    ensures points == OptionalFieldPoints * CountPassed(OptionalChecks(finalOutput, fields))
    ensures details == OptionalChecks(finalOutput, fields)
  {
    points := 0;
    details := [];
    var g := 0;
    while g < |fields|
      invariant 0 <= g <= |fields|
      invariant points == OptionalFieldPoints * CountPassed(OptionalChecks(finalOutput, fields[..g]))
      invariant details == OptionalChecks(finalOutput, fields[..g])
    {
      var field := fields[g];
      OptionalSnoc(finalOutput, fields, g);
      if field in finalOutput && Truthy(finalOutput[field]) {
        points := points + OptionalFieldPoints;
        details := details + [Check(field, true)];
      } else {
        details := details + [Check(field, false)];
      }
      g := g + 1;
    }
    assert fields[..|fields|] == fields;
  }
}
