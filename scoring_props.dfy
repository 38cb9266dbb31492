/** What the scoring rule promises: the range of each section, what earns
    points, when the rule raises, and that its two copies agree. */
module ScoringProperties {
  import opened Text
  import opened Scoring

  // ---------------------------------------------------------------------------
  // Scam detection.

  lemma ScamDetectionIff(finalOutput: map<string, Value>, fakeData: seq<FakeItem>, distinguishWrongType: bool)
    requires Evaluate(finalOutput, fakeData, distinguishWrongType).Evaluated?
    ensures var s := Evaluate(finalOutput, fakeData, distinguishWrongType).score;
            (s.scamDetection == Pts(20) <==> "scamDetected" in finalOutput && Truthy(finalOutput["scamDetected"]))
            && (s.scamDetection == 0 <==> !("scamDetected" in finalOutput && Truthy(finalOutput["scamDetected"])))
  {
  }

  // ---------------------------------------------------------------------------
  // Intelligence extraction.

  /** A key is looked up under its own name exactly when the mapping does not
      know it: no mapped key maps to itself. */
  lemma OutputKeyIsOwnNameIff(fakeKey: string)
    ensures OutputKey(fakeKey) == fakeKey <==> fakeKey !in KeyMapping
  {
    forall k | k in KeyMapping
      ensures |KeyMapping[k]| > |k|
    {
      if k == "bankAccount" {
        assert KeyMapping[k] == "bankAccounts" && |k| == 11;
      } else if k == "upiId" {
        assert KeyMapping[k] == "upiIds" && |k| == 5;
      } else if k == "phoneNumber" {
        assert KeyMapping[k] == "phoneNumbers" && |k| == 11;
      } else if k == "phishingLink" {
        assert KeyMapping[k] == "phishingLinks" && |k| == 12;
      } else {
        assert k == "emailAddress";
        assert KeyMapping[k] == "emailAddresses" && |k| == 12;
      }
    }
    if fakeKey in KeyMapping {
      assert |OutputKey(fakeKey)| > |fakeKey|;
    }
  }

  /** An item scores exactly when some entry of its field's list, or its
      field's string, contains the reference value; it is a wrong type
      exactly when the field is present and neither a list nor a string. */
  lemma ItemStatusMeaning(extracted: map<string, Value>, item: FakeItem)
    ensures var s := ItemStatus(extracted, item);
            (s == Match <==>
               var v := Get(extracted, OutputKey(item.key), ListValue([]));
               (v.ListValue? && exists k :: 0 <= k < |v.items| && Contains(v.items[k], item.value))
               || (v.StrValue? && Contains(v.s, item.value)))
            && (s == WrongType <==>
                  OutputKey(item.key) in extracted
                  && !extracted[OutputKey(item.key)].ListValue?
                  && !extracted[OutputKey(item.key)].StrValue?)
  {
  }

  /** A field the output does not have counts as an empty list: a miss, not
      a wrong type. */
  lemma MissingFieldMisses(extracted: map<string, Value>, item: FakeItem)
    requires OutputKey(item.key) !in extracted
    ensures ItemStatus(extracted, item) == Miss
  {
  }

  /** `CountMatches` counts the matching items. */
  lemma {:induction false} CountMatchesCounts(statuses: seq<IntelStatus>)
    ensures CountMatches(statuses) == |set k | 0 <= k < |statuses| && statuses[k] == Match|
    decreases |statuses|
  {
    if statuses != [] {
      var n := |statuses| - 1;
      var d := statuses[..n];
      CountMatchesCounts(d);
      var before := set k | 0 <= k < |d| && d[k] == Match;
      var after := set k | 0 <= k < |statuses| && statuses[k] == Match;
      if statuses[n] == Match {
        assert after == before + {n};
        assert n !in before;
      } else {
        assert after == before;
      }
    }
  }

  /** The intelligence score is 10 per matching item, at most 40: a multiple
      of 10 between 0 and 40 whatever the number of items. */
  lemma IntelScoreSteps(statuses: seq<IntelStatus>)
    ensures IntelScore(statuses) ==
            Pts(10) * Min(|set k | 0 <= k < |statuses| && statuses[k] == Match|, 4)
    ensures IntelScore(statuses) % Pts(10) == 0
    ensures IntelScore(statuses) in {0, Pts(10), Pts(20), Pts(30), Pts(40)}
  {
    CountMatchesCounts(statuses);
  }

  /** One detail per fakeData item, in fakeData order, naming the item and
      saying MATCH exactly for the items that scored; the end-to-end copy
      says only MATCH or MISS. */
  lemma IntelDetailsPerItem(finalOutput: map<string, Value>, fakeData: seq<FakeItem>, distinguishWrongType: bool)
    requires Evaluate(finalOutput, fakeData, distinguishWrongType).Evaluated?
    ensures var e := Evaluate(finalOutput, fakeData, distinguishWrongType);
            var entries := EntriesOf(Get(finalOutput, "extractedIntelligence", DictValue(map[])));
            |e.intelDetails| == |fakeData|
            && (forall k :: 0 <= k < |fakeData| ==>
                  e.intelDetails[k].fakeKey == fakeData[k].key
                  && e.intelDetails[k].fakeValue == fakeData[k].value
                  && (e.intelDetails[k].status == Match <==> ItemStatus(entries, fakeData[k]) == Match)
                  && (!distinguishWrongType ==> e.intelDetails[k].status != WrongType))
  {
  }

  // ---------------------------------------------------------------------------
  // Engagement quality.

  /** The engagement score is 0, 5, 10, 15 or 20; it is 20 exactly when the
      duration is over 60 and there are at least 5 messages, and 0 exactly
      when both are at most 0. */
  lemma EngagementSteps(duration: int, messages: int)
    ensures EngagementScore(duration, messages) in {0, Pts(5), Pts(10), Pts(15), Pts(20)}
    ensures EngagementScore(duration, messages) == Pts(20) <==> duration > 60 && messages >= 5
    ensures EngagementScore(duration, messages) == 0 <==> duration <= 0 && messages <= 0
  {
    EngagementUnfold(duration, messages);
  }

  /** More engagement never scores less. */
  lemma EngagementMonotone(duration1: int, messages1: int, duration2: int, messages2: int)
    requires duration1 <= duration2 && messages1 <= messages2
    ensures EngagementScore(duration1, messages1) <= EngagementScore(duration2, messages2)
  {
    EngagementUnfold(duration1, messages1);
    EngagementUnfold(duration2, messages2);
  }

  // ---------------------------------------------------------------------------
  // Response structure.

  lemma CountPassedThree(checks: seq<Check>)
    requires |checks| == 3
    ensures CountPassed(checks) ==
            (if checks[0].passed then 1 else 0) + (if checks[1].passed then 1 else 0)
            + (if checks[2].passed then 1 else 0)
  {
    CountPassedSnoc(checks[..2], checks[2]);
    CountPassedSnoc(checks[..1], checks[1]);
    CountPassedSnoc(checks[..0], checks[0]);
    assert checks[..2] + [checks[2]] == checks;
    assert checks[..1] + [checks[1]] == checks[..2];
    assert checks[..0] + [checks[0]] == checks[..1];
  }

  lemma CountPassedTwo(checks: seq<Check>)
    requires |checks| == 2
    ensures CountPassed(checks) == (if checks[0].passed then 1 else 0) + (if checks[1].passed then 1 else 0)
  {
    CountPassedSnoc(checks[..1], checks[1]);
    CountPassedSnoc(checks[..0], checks[0]);
    assert checks[..1] + [checks[1]] == checks;
    assert checks[..0] + [checks[0]] == checks[..1];
  }

  /** 5 points per required field present and 2.5 per optional field present
      and non-empty; these add up to at most 20, so the cap never lowers the
      score, and 20 is reached exactly when all five count. */
  lemma StructureScoreValue(finalOutput: map<string, Value>)
    ensures StructureScore(finalOutput) ==
            (if "status" in finalOutput then Pts(5) else 0)
            + (if "scamDetected" in finalOutput then Pts(5) else 0)
            + (if "extractedIntelligence" in finalOutput then Pts(5) else 0)
            + (if "engagementMetrics" in finalOutput && Truthy(finalOutput["engagementMetrics"])
               then OptionalFieldPoints else 0)
            + (if "agentNotes" in finalOutput && Truthy(finalOutput["agentNotes"])
               then OptionalFieldPoints else 0)
    ensures StructureScore(finalOutput) == Pts(20) <==>
            "status" in finalOutput && "scamDetected" in finalOutput && "extractedIntelligence" in finalOutput
            && "engagementMetrics" in finalOutput && Truthy(finalOutput["engagementMetrics"])
            && "agentNotes" in finalOutput && Truthy(finalOutput["agentNotes"])
  {
    CountPassedThree(RequiredChecks(finalOutput, RequiredFields));
    CountPassedTwo(OptionalChecks(finalOutput, OptionalFields));
  }

  // ---------------------------------------------------------------------------
  // The whole rule.

  /** The rule raises exactly when `extractedIntelligence` is not a dict and
      there is an item to look up, when `engagementMetrics` is not a dict, or
      when the duration or message count is not a number. */
  lemma RaisesIff(finalOutput: map<string, Value>, fakeData: seq<FakeItem>, distinguishWrongType: bool)
    ensures var extracted := Get(finalOutput, "extractedIntelligence", DictValue(map[]));
            var metrics := Get(finalOutput, "engagementMetrics", DictValue(map[]));
            Evaluate(finalOutput, fakeData, distinguishWrongType).Raised? <==>
              (|fakeData| > 0 && !extracted.DictValue?)
              || !metrics.DictValue?
              || !IsNumber(Get(metrics.entries, "engagementDurationSeconds", IntValue(0)))
              || !IsNumber(Get(metrics.entries, "totalMessagesExchanged", IntValue(0)))
  {
  }

  /** Every score is the sum of its four sections and lies between 0 and 100. */
  lemma TotalBounds(finalOutput: map<string, Value>, fakeData: seq<FakeItem>, distinguishWrongType: bool)
    requires Evaluate(finalOutput, fakeData, distinguishWrongType).Evaluated?
    ensures var s := Evaluate(finalOutput, fakeData, distinguishWrongType).score;
            s.total == s.scamDetection + s.intelligenceExtraction + s.engagementQuality + s.responseStructure
            && 0 <= s.scamDetection <= Pts(20) && 0 <= s.intelligenceExtraction <= Pts(40)
            && 0 <= s.engagementQuality <= Pts(20) && 0 <= s.responseStructure <= Pts(20)
            && 0 <= s.total <= Pts(100)
  {
  }

  /** The two copies raise on the same outputs and give the same scores and
      the same engagement and structure details; their intelligence details
      differ only in calling a wrong-type field a MISS. */
  lemma CopiesAgree(finalOutput: map<string, Value>, fakeData: seq<FakeItem>)
    ensures Evaluate(finalOutput, fakeData, true).Raised? == Evaluate(finalOutput, fakeData, false).Raised?
    ensures Evaluate(finalOutput, fakeData, true).Evaluated? ==>
              var guvi := Evaluate(finalOutput, fakeData, true);
              var e2e := Evaluate(finalOutput, fakeData, false);
              guvi.score == e2e.score
              && guvi.engagementDetails == e2e.engagementDetails
              && guvi.structureDetails == e2e.structureDetails
              && |guvi.intelDetails| == |e2e.intelDetails|
              && forall k :: 0 <= k < |guvi.intelDetails| ==>
                   e2e.intelDetails[k] == guvi.intelDetails[k].(status := Reported(guvi.intelDetails[k].status, false))
  {
  }
}
