# Honeypot intelligence extraction and scoring, in Dafny

This project models the core of a conversational scam honeypot:

- `IntelligenceService` (app/services/intelligence.py) pulls structured
  intelligence out of one scammer message: bank account numbers, UPI
  payment ids, phishing links, Indian phone numbers and suspicious keywords.
  It puts them in an `ExtractedIntelligence` record (app/models.py:39-45).
- `merge_intelligence` folds one record into another.
- The scoring rule `evaluate_final_output` grades a final output against a
  scenario's reference `fakeData`. There are two copies of it, in
  tests/guvi_simulator.py and tests/test_e2e.py.

The model has these modules:

| module | file | contents |
|---|---|---|
| `Text` | text.dfy | ASCII character classes, `str.lower()`, `str.replace` of one character, and Python's substring test `in` |
| `Lists` | lists.dfy | the append-if-absent loop (`AppendNew`), `Filter`, `Map`, duplicate-freedom and first-found order |
| `Patterns` | patterns.dfy | the six regular expressions as scanners, and `re.findall` over them (leftmost matches that never overlap, greedy first choice) |
| `Intelligence` | intelligence.dfy | the pattern tables, the two classes, and one specification function per list that `extract` builds |
| `IntelligenceProperties` | intelligence_props.dfy | what each list looks like, and the algebra of the merge |
| `Scoring` | scoring.dfy | final outputs as Python values; the rule as one function `Evaluate`, scored in half-points so that 2.5 is the integer 5 |
| `GuviSimulator` | guvi_simulator.dfy | the simulator's copy of the rule, as imperative methods |
| `EndToEnd` | end_to_end.dfy | the end-to-end copy of the rule, as imperative methods |
| `ScoringProperties` | scoring_props.dfy | bounds, the conditions for each score, when the rule raises, and that the two copies agree |
| `Scenarios` | scenarios.dfy | the extractor's lists as the rule sees them, and messages from the repository's tests worked through the model |

`IntelligenceService.Extract` and `MergeIntelligence` are methods on classes.
They update sequence fields in place, and their loops carry invariants. Each
loop is proved equal to a specification function over the text, and
`IntelligenceProperties` proves the shape properties about those functions.
The scoring copies are also imperative: each updates a score record section
by section. Each copy is proved equal to `Scoring.Evaluate`.

Several of the repository's test scripts expect behaviour the code does not
have. The model follows the code, and `Scenarios` proves what the code does
on those inputs:

- tests/test_changes.py:14-17 expects an `emailAddresses` field, and
  tests/guvi_simulator.py:50 maps `emailAddress` items to it. The record
  (app/models.py:39-45) has no such field, so an `emailAddress` item never
  scores (`Scenarios.EmailAddressNeverScores`).
- tests/test_intel_quick.py:14-25 expects no UPI id from the message
  "email us at offers@fake-amazon-deals.com for assistance". The code yields
  the UPI id "offers@fake" (`Scenarios.OffersAddressUpiId`).
- tests/test_intel_quick.py:28-36 expects a phone entry containing
  "+91-9876543210". Phone entries lose their spaces and hyphens, so a
  reference number written that way never scores
  (`Scenarios.SeparatedPhoneNeverScores`).
- tests/test_intel_quick.py:94-103 expects the link with its query string.
  The link pattern stops before '?' (`Scenarios.QueryLinkIsCut`).

## Model

| member | source | states |
|---|---|---|
| Patterns.RunLength | app/services/intelligence.py:15-16 | the greedy run of characters a regex repetition takes: every character in it satisfies the class, and the character after it does not |
| Patterns.AccountNumberAfter | app/services/intelligence.py:15 | the captured 9-18 digits after an account keyword and its separators lie after the keyword, inside the text |
| Patterns.AccountMatchAt | app/services/intelligence.py:15 | a context match at `i` captures a span starting at or after `i` |
| Patterns.BareDigitsAt | app/services/intelligence.py:16 | a bare digit-run match starts at `i` and lies inside the text |
| Patterns.UpiMatchShaped | app/services/intelligence.py:22 | a UPI match is a non-empty local part, '@', and a non-empty run of ASCII letters |
| Patterns.HostEndRun | app/services/intelligence.py:29 | the host run of a link is host characters and `%XX` escapes |
| Patterns.UrlMatchShaped | app/services/intelligence.py:29 | a link match is "http://" or "https://", then host characters or escapes, then path characters |
| Patterns.UrlScheme | app/services/intelligence.py:29 | the scheme length found (7 or 8) is that of the scheme the match starts with |
| Patterns.MobileAtShape | app/services/intelligence.py:34-35 | a mobile number at `i` is ten digits, the first one 6-9 |
| Patterns.PrefixedMobileMatchShaped | app/services/intelligence.py:34 | a match of the phone pattern is a mobile number, optionally after "+91" and one hyphen or white-space character |
| Patterns.BareMobileAt | app/services/intelligence.py:35 | a bare phone match is exactly ten characters forming a mobile number |
| Patterns.Scan | app/services/intelligence.py:52 | `findall`'s matches lie inside the text, in text order, and never overlap |
| Patterns.ScanShaped | app/services/intelligence.py:52 | every span the scan finds has the shape of its pattern |
| Patterns.FindAllShaped | app/services/intelligence.py:52 | every string `re.findall` returns has the shape of its pattern |
| Text.Lower | app/services/intelligence.py:99 | lower-casing keeps the length and maps each character through `LowerChar` |
| Text.RemoveChar | app/services/intelligence.py:94 | removing a character leaves no copy of it, keeps every other character, and changes nothing when the character is absent |
| Text.RemoveCharAppend | app/services/intelligence.py:94 | removing a character distributes over concatenation |
| Text.ContainsIff | app/services/intelligence.py:101 | Python's substring test holds exactly when the needle occurs at some index of the haystack |
| Lists.AppendNewOrder | app/services/intelligence.py:63-64 | the append-if-absent loop keeps entries in the order they were first found |
| Lists.AppendNew | app/services/intelligence.py:63-64 | the append-if-absent loop keeps the start list as a prefix, holds exactly the values of the start list and the input, and adds no repeat to a list without one |
| Lists.AppendNewDistinct | app/services/intelligence.py:63-64 | distinct input values that are not yet in the list are all appended, in input order |
| Lists.AppendNewFresh | app/services/intelligence.py:63-64 | every appended entry is an input value that was not in the start list |
| Lists.AppendNewConcat | app/services/intelligence.py:51-64 | running the loop over one pattern's matches and then the next pattern's is running it over both, concatenated |
| Intelligence.CandidatesShaped | app/services/intelligence.py:51-52 | the matches of a pattern table, pattern by pattern, each have the shape of the pattern that found them |
| Intelligence.IndexOfChar | app/services/intelligence.py:71 | the index of the first `c` in the string |
| Intelligence.TakeUntil | app/services/intelligence.py:71 | the longest prefix without `c` |
| Intelligence.Clean | app/services/intelligence.py:94 | a cleaned phone match holds no space and no hyphen |
| Intelligence.CleanAllAt | app/services/intelligence.py:93-94 | cleaning a list cleans each match in place and keeps the length |
| Intelligence.FoundKeywordsMembers | app/services/intelligence.py:100-102 | a word is found exactly when it is in the vocabulary and occurs in the lower-cased text |
| Intelligence.MergeLists | app/services/intelligence.py:109-110 | `merge_lists` returns each element of either list once, and nothing else |
| Intelligence.ExtractedIntelligence.constructor | app/models.py:39-45 | a new record has five empty lists |
| Intelligence.ExtractedIntelligence.Of | app/models.py:39-45 | a record holding the five given lists |
| Intelligence.IntelligenceService.Extract | app/services/intelligence.py:46-104 | `extract` returns a fresh record whose five lists are those the five sections build from the text |
| Intelligence.IntelligenceService.ExtractBankAccounts | app/services/intelligence.py:51-64 | the bank loop over both patterns yields `BankAccountsIn(text)` |
| Intelligence.IntelligenceService.AddBankAccounts | app/services/intelligence.py:53-64 | one pattern's matches are filtered (timestamp, phone and length tests) and appended when new |
| Intelligence.IntelligenceService.ExtractUpiIds | app/services/intelligence.py:67-81 | the UPI loop yields `UpiIdsIn(text)` |
| Intelligence.IntelligenceService.AddUpiIds | app/services/intelligence.py:69-81 | matches pass the '@', excluded-handle and dotted-handle tests and are appended when new |
| Intelligence.IntelligenceService.ExtractPhishingLinks | app/services/intelligence.py:84-88 | the link loop yields `PhishingLinksIn(text)` |
| Intelligence.IntelligenceService.AddLinks | app/services/intelligence.py:86-88 | links are appended when new |
| Intelligence.IntelligenceService.ExtractPhoneNumbers | app/services/intelligence.py:91-96 | the phone loop over both patterns yields `PhoneNumbersIn(text)` |
| Intelligence.IntelligenceService.AddPhoneNumbers | app/services/intelligence.py:93-96 | each match is cleaned of spaces and hyphens and appended when new |
| Intelligence.IntelligenceService.ExtractSuspiciousKeywords | app/services/intelligence.py:99-102 | the keyword loop over the lower-cased text yields `SuspiciousKeywordsIn(text)` |
| Intelligence.IntelligenceService.FindKeywords | app/services/intelligence.py:100-102 | each vocabulary word occurring in the text is appended once, in vocabulary order |
| Intelligence.IntelligenceService.MergeIntelligence | app/services/intelligence.py:106-118 | each list of `current` becomes, in place, the duplicate-free union of the old lists of both records; `current` is returned; a distinct `new_intel` is unchanged |
| IntelligenceProperties.OnePattern | app/services/intelligence.py:67-68 | a one-pattern table finds that pattern's matches |
| IntelligenceProperties.TwoPatterns | app/services/intelligence.py:51-52 | a two-pattern table finds the first pattern's matches, then the second's |
| IntelligenceProperties.ExtractionOrder | app/services/intelligence.py:46-104 | each list is the append-if-absent loop over its filtered or cleaned candidates, pattern by pattern, and all five lists have no repeats |
| IntelligenceProperties.FirstFoundOrder | app/services/intelligence.py:63-64 | of two list entries, the earlier one was found first |
| IntelligenceProperties.BankAccountsShape | app/services/intelligence.py:51-64 | every bank account is 9-18 digits, and none has 10 digits with a first digit 6-9 or a start of "16", "17" or "18" |
| IntelligenceProperties.KeptAccountsShape | app/services/intelligence.py:55-64 | the filters keep only 9-18 digit values that are neither phone-shaped nor timestamp-shaped |
| IntelligenceProperties.HandleOfUpi | app/services/intelligence.py:71 | for local@letters, `split("@")[1]` is the letters |
| IntelligenceProperties.UpiCandidatesHaveAt | app/services/intelligence.py:67-70 | every UPI match holds '@', so the '@' test always passes |
| IntelligenceProperties.DottedHandleBranchUnreachable | app/services/intelligence.py:73-81 | a UPI match's handle never holds '.', so the dotted-handle branch never runs; a match is kept exactly when its lower-cased handle is not excluded |
| IntelligenceProperties.UpiIdsShape | app/services/intelligence.py:67-81 | every UPI id is local@letters, and its lower-cased handle is not a mail provider |
| IntelligenceProperties.UrlShapedHasNoQueryOrSpace | app/services/intelligence.py:29 | a link match holds no '?' and no white space |
| IntelligenceProperties.PhishingLinksShape | app/services/intelligence.py:84-88 | every link has the link pattern's shape (the scheme, then word characters, '-', '.', '/' and `%XX` escapes), so it starts with "http://" or "https://" and holds no '?' and no white space |
| IntelligenceProperties.CleanPhoneMatch | app/services/intelligence.py:94 | cleaning a phone match keeps its shape and removes a space or hyphen separator |
| IntelligenceProperties.CleanSeparated | app/services/intelligence.py:94 | a space or hyphen between two separator-free parts is removed |
| IntelligenceProperties.CleanKeeps | app/services/intelligence.py:94 | a text with no space and no hyphen is left unchanged |
| IntelligenceProperties.PhoneNumbersShape | app/services/intelligence.py:91-96 | every phone entry holds no space and no hyphen, and is a mobile number, optionally after "+91" and a separator that is neither |
| IntelligenceProperties.VocabularyDistinct | app/services/intelligence.py:39-44 | no word appears twice in the keyword vocabulary |
| IntelligenceProperties.FoundKeywordsOrder | app/services/intelligence.py:100-102 | the words found are vocabulary words with no repeats, in vocabulary order |
| IntelligenceProperties.SuspiciousKeywordsSpec | app/services/intelligence.py:99-102 | the keywords are exactly the vocabulary words occurring in the lower-cased text, in vocabulary order |
| IntelligenceProperties.NoDupCardinality | app/services/intelligence.py:110 | a list with no repeats has as many elements as its set |
| IntelligenceProperties.MergeWithKnownNoOp | app/services/intelligence.py:106-118 | merging in only known values keeps the elements and the length of a list with no repeats |
| IntelligenceProperties.MergeListsAlgebra | app/services/intelligence.py:109-110 | `merge_lists` is commutative, associative and idempotent on elements, and keeps the length of a list with no repeats merged with itself |
| Scoring.ScamDetectionScore | tests/guvi_simulator.py:37-39 | 20 points exactly when `scamDetected` is truthy, 0 otherwise |
| Scoring.AnyContains | tests/guvi_simulator.py:61 | some entry of the list contains the reference value |
| Scoring.Statuses | tests/guvi_simulator.py:55-75 | one status per fakeData item, in order |
| Scoring.CountMatches | tests/guvi_simulator.py:55-75 | the number of matches is at most the number of items |
| Scoring.IntelScore | tests/guvi_simulator.py:62-77 | the intelligence points are 10 per match, or 40 when that is exceeded |
| Scoring.IntelDetails | tests/guvi_simulator.py:55-75 | one detail per item, naming the item, its output key and its reported status |
| Scoring.EngagementChecks | tests/guvi_simulator.py:84-107 | four engagement thresholds |
| Scoring.CountPassed | tests/guvi_simulator.py:84-126 | the number of checks passed is at most the number of checks |
| Scoring.RequiredChecks | tests/guvi_simulator.py:114-119 | a required field passes exactly when present |
| Scoring.OptionalChecks | tests/guvi_simulator.py:121-126 | an optional field passes exactly when present and truthy |
| Scoring.StructureScore | tests/guvi_simulator.py:110-128 | the structure points lie between 0 and 20 |
| Scoring.IntelOutcome | tests/guvi_simulator.py:42-77 | the section raises AttributeError exactly when there is an item and `extractedIntelligence` is not a dict; otherwise 0-40 points and one detail per item |
| Scoring.EngagementOutcome | tests/guvi_simulator.py:80-107 | the section raises AttributeError when the metrics are not a dict and TypeError when duration or count is not a number; otherwise 0-20 points and four details |
| Scoring.Evaluate | tests/guvi_simulator.py:26-143 | the total is the sum of the four sections and lies between 0 and 100 |
| ScoringProperties.ScamDetectionIff | tests/guvi_simulator.py:37-39 | scam detection scores 20 exactly when `scamDetected` is present and truthy, and 0 exactly when it is not |
| ScoringProperties.OutputKeyIsOwnNameIff | tests/guvi_simulator.py:45-56 | an item is looked up under its own name exactly when `key_mapping` does not know it |
| ScoringProperties.ItemStatusMeaning | tests/guvi_simulator.py:56-75 | an item matches exactly when some entry of its list, or its string, contains the reference value; it is a wrong type exactly when its field is present and neither a list nor a string |
| ScoringProperties.MissingFieldMisses | tests/guvi_simulator.py:57 | a missing field counts as an empty list, a miss |
| ScoringProperties.CountMatchesCounts | tests/guvi_simulator.py:55-75 | the count is the size of the set of matching positions |
| ScoringProperties.IntelScoreSteps | tests/guvi_simulator.py:62-77 | the intelligence score is 10 times the smaller of the matches and 4: 0, 10, 20, 30 or 40 |
| ScoringProperties.IntelDetailsPerItem | tests/guvi_simulator.py:55-75 | one detail per item in fakeData order, MATCH exactly for the items that scored; the end-to-end copy reports no wrong type |
| ScoringProperties.EngagementSteps | tests/guvi_simulator.py:80-107 | the engagement score is a multiple of 5 up to 20; it is 20 exactly when the duration is over 60 and there are at least 5 messages, and 0 exactly when both are at most 0 |
| ScoringProperties.EngagementMonotone | tests/guvi_simulator.py:80-107 | more duration and more messages never score less |
| ScoringProperties.StructureScoreValue | tests/guvi_simulator.py:110-128 | the structure score is 5 per required field present plus 2.5 per optional field present and truthy; the cap never lowers it, and 20 is reached exactly when all five count |
| ScoringProperties.RaisesIff | tests/guvi_simulator.py:42-82 | the rule raises exactly when `extractedIntelligence` is not a dict and there is an item, or the metrics are not a dict, or duration or count is not a number |
| ScoringProperties.TotalBounds | tests/guvi_simulator.py:129-136 | the total is the sum of the sections, each within its range, and lies between 0 and 100 |
| ScoringProperties.CopiesAgree | tests/test_e2e.py:112-218 | the two copies raise on the same outputs and give the same scores and the same engagement and structure details; their intelligence details differ only in calling a wrong-type field a miss |
| GuviSimulator.EvaluateFinalOutput | tests/guvi_simulator.py:26-143 | the simulator's copy computes `Evaluate` with wrong types reported |
| GuviSimulator.IntelligenceExtraction | tests/guvi_simulator.py:41-77 | the item loop and the cap compute the intelligence section |
| GuviSimulator.CheckItem | tests/guvi_simulator.py:56-75 | one item's output key and its MATCH, MISS or wrong-type status |
| GuviSimulator.EngagementQuality | tests/guvi_simulator.py:79-107 | the four threshold tests compute the engagement section |
| GuviSimulator.ResponseStructure | tests/guvi_simulator.py:109-128 | the two field loops and the cap compute the structure section |
| GuviSimulator.RequiredFieldsPresent | tests/guvi_simulator.py:114-119 | 5 points and a passed check per required field present |
| GuviSimulator.OptionalFieldsPresent | tests/guvi_simulator.py:121-126 | 2.5 points and a passed check per optional field present and truthy |
| EndToEnd.EvaluateFinalOutput | tests/test_e2e.py:112-218 | the end-to-end copy computes `Evaluate` with a wrong type reported as a miss |
| EndToEnd.IntelligenceExtraction | tests/test_e2e.py:127-157 | the item loop and the cap compute the intelligence section |
| EndToEnd.CheckItem | tests/test_e2e.py:141-154 | one item's output key, and whether it matched |
| Scenarios.RecordDictFields | app/models.py:39-45 | a record's dict holds its five lists under their field names and nothing else |
| Scenarios.EmailAddressNeverScores | tests/guvi_simulator.py:50-57 | an `emailAddress` item never scores against an extracted record, which has no `emailAddresses` field |
| Scenarios.SeparatedPhoneNeverScores | tests/test_intel_quick.py:28-36 | a reference phone number with a space or hyphen never scores against extracted phones |
| Scenarios.QueryLinkNeverScores | tests/test_intel_quick.py:94-103 | a reference link with '?' never scores against extracted links |
| Scenarios.NonDigitAccountNeverScores | tests/guvi_simulator.py:55-64 | a reference account with a non-digit never scores against extracted accounts |
| Scenarios.CleanedMobiles | app/services/intelligence.py:94 | "+91-" and a mobile number clean to the number with "+91", and the bare number stays as it is |
| Scenarios.HyphenatedMobile | tests/test_intel_quick.py:28-31 | the text "+91-" followed by a mobile number, and nothing else, yields the phone entries "+91" + number and the number |
| Scenarios.HyphenatedMobileScoresBare | tests/test_intel_quick.py:28-36 | for that message the bare number scores |
| Scenarios.AddressMatch | app/services/intelligence.py:22 | in a text with one address, the only UPI match is local@handle, cut at the first non-letter |
| Scenarios.AddressUpiIds | app/services/intelligence.py:67-81 | an e-mail address yields the UPI id local@handle unless the handle is an excluded provider |
| Scenarios.OffersAddressUpiId | tests/test_intel_quick.py:14-25 | the e-mail test's message yields the UPI id "offers@fake" |
| Scenarios.GmailAddressNoUpiId | tests/test_comprehensive.py:79-84 | the shortened message "Contact me at scammer@gmail.com" (the test's message without its second address) yields no UPI id, the gmail address being excluded |
| Scenarios.LinkMatch | app/services/intelligence.py:29 | in a text with one link, the link match runs over host and path and stops at the first other character, such as '?' |
| Scenarios.QueryLinkIsCut | tests/test_intel_quick.py:94-98 | the link test's message yields the link without its query string |
| Scenarios.UpiIdsOfOne | app/services/intelligence.py:67-81 | one UPI match yields that match or nothing, as the filter decides |
| Scenarios.LinksOfOne | app/services/intelligence.py:84-88 | one link match yields that link |

## Left out

- Regular expressions are modelled by hand-written scanners. Their `\w`,
  `\d` and `\s` are those of the `re.ASCII` flag, not Python's default
  Unicode classes. The two differ even on ASCII text: the default `\s` also
  matches the separators \x1c-\x1f, which the model's `\s` does not.
  `str.lower()` is modelled on ASCII letters only.
- `merge_lists` builds its list from a Python set, so its order depends on string hashes.
  `Intelligence.MergeLists` picks one order, and its contract states only the
  elements and the absence of repeats.
- Extract: it builds each list in a helper method and fills a fresh record at
  the end, instead of appending to the record's fields as it goes. No caller
  can observe the difference.
- Extracted values in a final output are strings, so `str(v)` is `v`.
  fakeData values are strings. Scores are integers in half-points, with no
  floats.
- The engagement duration and message count are integers. Another number
  type is not modelled, and any non-number raises.
- The detail lines are records, not formatted text.
- The `conversation_history` parameter of the simulator's copy is never read. It is kept as a parameter.
- The cumulative fold of the test scripts (tests/test_changes.py) and the
  routes that call `extract` and `merge_intelligence` on every turn are not
  part of this model. `MergeWithKnownNoOp` states the merge's part in them.
- The LLM services (agent.py, scam_detector.py), the callback, the routes,
  configuration, main.py and the live test scripts are I/O around the core
  and are not part of this model.
- Test assertions that disagree with the code are not stated as properties.
  `Scenarios` proves what the code does on those inputs instead.
