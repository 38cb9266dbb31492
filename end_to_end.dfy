/** `evaluate_final_output` of tests/test_e2e.py:112-218, the end-to-end
    test's copy of the scoring rule. Its engagement and structure sections are
    the simulator's, line for line, and are shared with module GuviSimulator;
    its intelligence section writes one MATCH or MISS line per item, a field
    of the wrong type being a MISS. It returns the score with the three detail
    lists. */
module EndToEnd {
  import opened Text
  import opened Scoring
  import GuviSimulator

  method EvaluateFinalOutput(finalOutput: map<string, Value>, fakeData: seq<FakeItem>)
    returns (result: Evaluation)
    ensures result == Evaluate(finalOutput, fakeData, false)
  {
    var score := Score(0, 0, 0, 0, 0);

    // 1. Scam detection
    if Truthy(Get(finalOutput, "scamDetected", BoolValue(false))) {
      score := score.(scamDetection := Pts(20));
    }

    // 2. Intelligence extraction
    var extracted := Get(finalOutput, "extractedIntelligence", DictValue(map[]));
    var intel := IntelligenceExtraction(extracted, fakeData);
    if intel.Failed? {
      return Raised(intel.error);
    }
    score := score.(intelligenceExtraction := intel.points);

    // 3. Engagement quality
    var metrics := Get(finalOutput, "engagementMetrics", DictValue(map[]));
    var engagement := GuviSimulator.EngagementQuality(metrics);
    if engagement.Failed? {
      return Raised(engagement.error);
    }
    score := score.(engagementQuality := engagement.points);

    // 4. Response structure
    var structure, structureDetails := GuviSimulator.ResponseStructure(finalOutput);
    score := score.(responseStructure := structure);

    score := score.(total := score.scamDetection + score.intelligenceExtraction
                             + score.engagementQuality + score.responseStructure);
    result := Evaluated(score, intel.details, engagement.details, structureDetails);
  }

  /** For each fakeData item: look its field up, score 10 on a substring
      match, and record MATCH or MISS; then cap at 40. */
  method IntelligenceExtraction(extracted: Value, fakeData: seq<FakeItem>) returns (r: Outcome<IntelDetail>)
    ensures r == IntelOutcome(extracted, fakeData, false)
  {
    ghost var entries := EntriesOf(extracted);
    var points := 0;
    var intelDetails: seq<IntelDetail> := [];
    var k := 0;
    while k < |fakeData|
      invariant 0 <= k <= |fakeData|
      invariant k > 0 ==> extracted.DictValue?
      invariant points == Pts(10) * CountMatches(Statuses(entries, fakeData[..k]))
      invariant intelDetails == IntelDetails(entries, fakeData[..k], false)
    {
      var item := fakeData[k];
      if !extracted.DictValue? {
        return Failed(AttributeError);
      }
      var outputKey, matched := CheckItem(extracted.entries, item);
      if matched {
        points := points + Pts(10);
      }
      var status := if matched then Match else Miss;
      intelDetails := intelDetails + [IntelDetail(item.key, item.value, outputKey, status)];
      IntelSnoc(entries, fakeData, k, false);
      k := k + 1;
    }
    assert fakeData[..|fakeData|] == fakeData;
    points := Min(points, Pts(40));
    r := Done(points, intelDetails);
  }

  /** One item: the field it is looked up under, and whether an entry of
      that list (or that string) contains the value; a field of another type
      never matches. */
  method CheckItem(entries: map<string, Value>, item: FakeItem) returns (outputKey: string, matched: bool)
    ensures outputKey == OutputKey(item.key)
    ensures matched <==> ItemStatus(entries, item) == Match
  {
    outputKey := OutputKey(item.key);
    var extractedValues := Get(entries, outputKey, ListValue([]));
    matched := false;
    if extractedValues.ListValue? {
      if AnyContains(extractedValues.items, item.value) {
        matched := true;
      }
    } else if extractedValues.StrValue? {
      if Contains(extractedValues.s, item.value) {
        matched := true;
      }
    }
  }
}
