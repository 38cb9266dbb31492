/** The extractor's lists as the scoring rule sees them, and inputs of the
    repository's tests worked through the model.

    A final output carries the record `ExtractedIntelligence`
    (app/models.py:39-45) as its `extractedIntelligence` dict: the five lists
    under their field names, and nothing else. */
module Scenarios {
  import opened Text
  import opened Lists
  import opened Patterns
  import opened Intelligence
  import opened Scoring
  import IntelligenceProperties

  /** The `extractedIntelligence` dict of a final output whose record
      holds these five lists. */
  function RecordDict(bankAccounts: seq<string>, upiIds: seq<string>, phishingLinks: seq<string>,
                      phoneNumbers: seq<string>, suspiciousKeywords: seq<string>): map<string, Value>
  {
    map[
      "bankAccounts" := ListValue(bankAccounts),
      "upiIds" := ListValue(upiIds),
      "phishingLinks" := ListValue(phishingLinks),
      "phoneNumbers" := ListValue(phoneNumbers),
      "suspiciousKeywords" := ListValue(suspiciousKeywords)
    ]
  }

  /** The dict for the record `extract` returns for `text`. */
  function ExtractedDict(text: string): map<string, Value>
  {
    RecordDict(BankAccountsIn(text), UpiIdsIn(text), PhishingLinksIn(text),
               PhoneNumbersIn(text), SuspiciousKeywordsIn(text))
  }

  /** Each field of the dict holds its list, and no other name is a key. */
  lemma RecordDictFields(bankAccounts: seq<string>, upiIds: seq<string>, phishingLinks: seq<string>,
                         phoneNumbers: seq<string>, suspiciousKeywords: seq<string>)
    ensures var d := RecordDict(bankAccounts, upiIds, phishingLinks, phoneNumbers, suspiciousKeywords);
            d.Keys == {"bankAccounts", "upiIds", "phishingLinks", "phoneNumbers", "suspiciousKeywords"}
            && d["bankAccounts"] == ListValue(bankAccounts)
            && d["upiIds"] == ListValue(upiIds)
            && d["phishingLinks"] == ListValue(phishingLinks)
            && d["phoneNumbers"] == ListValue(phoneNumbers)
            && d["suspiciousKeywords"] == ListValue(suspiciousKeywords)
  {
  }

  /** No list entry contains `fakeValue` when `fakeValue` has a character
      that no entry has. */
  lemma NoEntryContains(values: seq<string>, fakeValue: string, c: char)
    requires c in fakeValue
    requires forall v :: v in values ==> c !in v
    ensures !AnyContains(values, fakeValue)
  {
    if AnyContains(values, fakeValue) {
      var k :| 0 <= k < |values| && Contains(values[k], fakeValue);
      ContainsChar(values[k], fakeValue, c);
    }
  }

  // ---------------------------------------------------------------------------
  // Reference values the extractor can never match.

  /** The record has no `emailAddresses` field, so an `emailAddress` item
      never scores, whatever the record holds. */
  lemma EmailAddressNeverScores(bankAccounts: seq<string>, upiIds: seq<string>, phishingLinks: seq<string>,
                                phoneNumbers: seq<string>, suspiciousKeywords: seq<string>, value: string)
    ensures ItemStatus(RecordDict(bankAccounts, upiIds, phishingLinks, phoneNumbers, suspiciousKeywords),
                       FakeItem("emailAddress", value)) == Miss
  {
    RecordDictFields(bankAccounts, upiIds, phishingLinks, phoneNumbers, suspiciousKeywords);
    assert OutputKey("emailAddress") == "emailAddresses";
    assert |"emailAddresses"| == 14;
  }

  /** Phone entries have their spaces and hyphens removed, so a reference
      number written with either (such as "+91-9876543210") never scores. */
  lemma SeparatedPhoneNeverScores(text: string, value: string)
    requires ' ' in value || '-' in value
    ensures ItemStatus(ExtractedDict(text), FakeItem("phoneNumber", value)) == Miss
  {
    var phones := PhoneNumbersIn(text);
    IntelligenceProperties.PhoneNumbersShape(text);
    if ' ' in value {
      NoEntryContains(phones, value, ' ');
    } else {
      NoEntryContains(phones, value, '-');
    }
    OutputKeys();
    ExtractedFields(text);
    FieldMisses(ExtractedDict(text), "phoneNumber", phones, value);
  }

  /** Links are cut before '?', so a reference link with a query string
      never scores. */
  lemma QueryLinkNeverScores(text: string, value: string)
    requires '?' in value
    ensures ItemStatus(ExtractedDict(text), FakeItem("phishingLink", value)) == Miss
  {
    LinksMiss(text, value);
    OutputKeys();
    ExtractedFields(text);
    FieldMisses(ExtractedDict(text), "phishingLink", PhishingLinksIn(text), value);
  }

  /** Bank entries are digits only, so a reference account with any other
      character never scores. */
  lemma NonDigitAccountNeverScores(text: string, value: string, i: nat)
    requires i < |value| && !IsDigit(value[i])
    ensures ItemStatus(ExtractedDict(text), FakeItem("bankAccount", value)) == Miss
  {
    AccountsMiss(text, value, i);
    OutputKeys();
    ExtractedFields(text);
    FieldMisses(ExtractedDict(text), "bankAccount", BankAccountsIn(text), value);
  }

  /** The output key of each extractor field. */
  lemma OutputKeys()
    ensures OutputKey("bankAccount") == "bankAccounts" && OutputKey("upiId") == "upiIds"
    ensures OutputKey("phishingLink") == "phishingLinks" && OutputKey("phoneNumber") == "phoneNumbers"
  {
  }

  /** What the dict of an extracted record holds under each field. */
  lemma ExtractedFields(text: string)
    ensures var d := ExtractedDict(text);
            d["bankAccounts"] == ListValue(BankAccountsIn(text))
            && d["upiIds"] == ListValue(UpiIdsIn(text))
            && d["phishingLinks"] == ListValue(PhishingLinksIn(text))
            && d["phoneNumbers"] == ListValue(PhoneNumbersIn(text))
  {
    RecordDictFields(BankAccountsIn(text), UpiIdsIn(text), PhishingLinksIn(text),
                     PhoneNumbersIn(text), SuspiciousKeywordsIn(text));
  }

  lemma LinksMiss(text: string, value: string)
    requires '?' in value
    ensures !AnyContains(PhishingLinksIn(text), value)
  {
    IntelligenceProperties.PhishingLinksShape(text);
    NoEntryContains(PhishingLinksIn(text), value, '?');
  }

  lemma AccountsMiss(text: string, value: string, i: nat)
    requires i < |value| && !IsDigit(value[i])
    ensures !AnyContains(BankAccountsIn(text), value)
  {
    IntelligenceProperties.BankAccountsShape(text);
    forall a | a in BankAccountsIn(text)
      ensures value[i] !in a
    {
      assert AllDigits(a);
    }
    NoEntryContains(BankAccountsIn(text), value, value[i]);
  }

  lemma FieldMisses(d: map<string, Value>, key: string, values: seq<string>, value: string)
    requires OutputKey(key) in d && d[OutputKey(key)] == ListValue(values)
    requires !AnyContains(values, value)
    ensures ItemStatus(d, FakeItem(key, value)) == Miss
  {
  }

  // ---------------------------------------------------------------------------
  // Texts worked through the scanners.

  lemma {:induction false} RunIs(f: char -> bool, text: string, i: nat, n: nat)
    requires i + n <= |text|
    requires forall k :: i <= k < i + n ==> f(text[k])
    requires i + n == |text| || !f(text[i + n])
    ensures RunLength(f, text, i) == n
    decreases n
  {
    if n > 0 {
      RunIs(f, text, i + 1, n - 1);
    }
  }

  lemma PrefixedMatches(text: string, x: string)
    requires IsMobile(x) && text == "+91-" + x
    ensures FindAll(PrefixedMobile, text) == [text]
  {
    assert text[0..3] == "+91";
    RunIs(IsDigit, text, 5, 9);
    assert MobileAt(text, 4);
    assert MatchAt(PrefixedMobile, text, 0) == Some(Span(0, 14));
    assert Scan(PrefixedMobile, text, 0) == [Span(0, 14)];
    assert text[0..14] == text;
  }

  lemma BareMatches(text: string, x: string)
    requires IsMobile(x) && text == "+91-" + x
    ensures FindAll(BareMobile, text) == [x]
  {
    RunIs(IsDigit, text, 2, 1);
    assert !MobileAt(text, 1);
    ScanSkip(BareMobile, text, 0, 4);
    RunIs(IsDigit, text, 5, 9);
    assert MobileAt(text, 4);
    assert MatchAt(BareMobile, text, 4) == Some(Span(4, 14));
    assert Scan(BareMobile, text, 4) == [Span(4, 14)];
    assert text[4..14] == x;
  }

  /** Spaces and hyphens are removed from the first entry, and the second
      has none. */
  lemma CleanedMobiles(text: string, x: string)
    requires IsMobile(x) && text == "+91-" + x
    ensures CleanAll([text, x]) == ["+91" + x, x]
  {
    IntelligenceProperties.DigitsHaveNoSeparator(x);
    PrefixCleaned();
    RemoveCharAppend("+91-", x, ' ');
    RemoveCharAppend("+91-", x, '-');
    assert Clean(text) == "+91" + x;
    CleanAllAt([text, x]);
  }

  lemma PrefixCleaned()
    ensures RemoveChar("+91-", ' ') == "+91-" && RemoveChar("+91-", '-') == "+91"
  {
  }

  /** "+91-" and a mobile number yield two phone entries: the number with
      its "+91" (the hyphen removed) and the bare number, found by the
      second pattern. */
  lemma HyphenatedMobile(x: string)
    requires IsMobile(x)
    ensures PhoneNumbersIn("+91-" + x) == ["+91" + x, x]
  {
    HyphenatedCandidates(x);
    TwoDistinct("+91" + x, x);
  }

  lemma HyphenatedCandidates(x: string)
    requires IsMobile(x)
    ensures CleanAll(Candidates(PhonePatterns, "+91-" + x)) == ["+91" + x, x]
  {
    var text := "+91-" + x;
    PrefixedMatches(text, x);
    BareMatches(text, x);
    IntelligenceProperties.TwoPatterns(PrefixedMobile, BareMobile, text);
    assert Candidates(PhonePatterns, text) == [text, x];
    CleanedMobiles(text, x);
  }

  /** Two different values are both appended. */
  lemma TwoDistinct(c: string, x: string)
    requires |c| != |x|
    ensures AppendNew([], [c, x]) == [c, x]
  {
    AppendNewSnoc([], [], c);
    assert [] + [c] == [c];
    AppendNewSnoc([], [c], x);
    assert [c] + [x] == [c, x];
  }

  /** For that text the bare number scores (the number as written never
      does, by `SeparatedPhoneNeverScores`). */
  lemma HyphenatedMobileScoresBare(x: string)
    requires IsMobile(x)
    ensures ItemStatus(ExtractedDict("+91-" + x), FakeItem("phoneNumber", x)) == Match
  {
    var text := "+91-" + x;
    var phones := ["+91" + x, x];
    HyphenatedMobile(x);
    OutputKeys();
    ExtractedFields(text);
    SelfContains(x);
    FieldMatches(ExtractedDict(text), "phoneNumber", phones, x, 1);
  }

  lemma SelfContains(s: string)
    ensures Contains(s, s)
  {
    ContainsIff(s, s);
    assert OccursAt(s, s, 0);
  }

  lemma FieldMatches(d: map<string, Value>, key: string, values: seq<string>, value: string, k: nat)
    requires OutputKey(key) in d && d[OutputKey(key)] == ListValue(values)
    requires k < |values| && Contains(values[k], value)
    ensures ItemStatus(d, FakeItem(key, value)) == Match
  {
  }

  /** A scan that finds one match, at `a`, and nothing after it. */
  lemma OneSpan(p: Pattern, text: string, a: nat, e: nat)
    requires a < e <= |text| && MatchAt(p, text, a) == Some(Span(a, e))
    requires Scan(p, text, 0) == Scan(p, text, a) && Scan(p, text, e) == []
    ensures FindAll(p, text) == [text[a..e]]
  {
    assert Scan(p, text, a) == [Span(a, e)] + [];
  }

  // UPI handles.

  /** No UPI match starts before `a` when there is no '@' before `a` and the
      character before `a` is not a local character. */
  lemma NoHandleBefore(text: string, a: nat)
    requires a <= |text| && (a == 0 || !IsLocalChar(text[a - 1]))
    requires forall k :: 0 <= k < a ==> text[k] != '@'
    ensures forall k :: 0 <= k < a ==> MatchAt(UpiHandle, text, k) == None
  {
    forall k | 0 <= k < a
      ensures MatchAt(UpiHandle, text, k) == None
    {
      var n := RunLength(IsLocalChar, text, k);
    }
  }

  /** No UPI match starts at or after `e` when there is no '@' from `e` on. */
  lemma NoHandleAfter(text: string, e: nat)
    requires e <= |text|
    requires forall k :: e <= k < |text| ==> text[k] != '@'
    ensures forall k :: e <= k < |text| ==> MatchAt(UpiHandle, text, k) == None
  {
    forall k | e <= k < |text|
      ensures MatchAt(UpiHandle, text, k) == None
    {
      var n := RunLength(IsLocalChar, text, k);
    }
  }

  lemma HandleAt(text: string, a: nat, at: nat, e: nat)
    requires a < at && at + 1 < e <= |text| && text[at] == '@'
    requires forall k :: a <= k < at ==> IsLocalChar(text[k])
    requires forall k :: at < k < e ==> IsAsciiLetter(text[k])
    requires e == |text| || !IsAsciiLetter(text[e])
    ensures MatchAt(UpiHandle, text, a) == Some(Span(a, e))
  {
    RunIs(IsLocalChar, text, a, at - a);
    RunIs(IsAsciiLetter, text, at + 1, e - at - 1);
  }

  /** Where the characters of `x + y + z` come from. */
  lemma Pieces(x: string, y: string, z: string)
    ensures forall k :: 0 <= k < |x| ==> (x + y + z)[k] == x[k]
    ensures forall k :: |x| <= k < |x| + |y| ==> (x + y + z)[k] == y[k - |x|]
    ensures forall k :: |x| + |y| <= k < |x| + |y| + |z| ==> (x + y + z)[k] == z[k - |x| - |y|]
    ensures (x + y + z)[|x|..|x| + |y|] == y
  {
  }

  /** A text with one address, from `a` to `e` with its '@' at `at`, and
      no other '@'. */
  lemma OnlyAddress(text: string, a: nat, at: nat, e: nat)
    requires a < at && at + 1 < e <= |text| && text[at] == '@'
    requires forall k :: 0 <= k < a ==> text[k] != '@'
    requires a == 0 || !IsLocalChar(text[a - 1])
    requires forall k :: a <= k < at ==> IsLocalChar(text[k])
    requires forall k :: at < k < e ==> IsAsciiLetter(text[k])
    requires e == |text| || !IsAsciiLetter(text[e])
    requires forall k :: e <= k < |text| ==> text[k] != '@'
    ensures FindAll(UpiHandle, text) == [text[a..e]]
  {
    NoHandleBefore(text, a);
    ScanSkip(UpiHandle, text, 0, a);
    HandleAt(text, a, at, e);
    NoHandleAfter(text, e);
    ScanSkip(UpiHandle, text, e, |text|);
    OneSpan(UpiHandle, text, a, e);
  }

  /** `prefix`, the address `local@handle`, then `rest`: no '@' outside the
      address, a local part not run into from the left, and a handle not
      continued by a letter. */
  ghost predicate AddressLayout(prefix: string, local: string, handle: string, rest: string)
  {
    && '@' !in prefix && (prefix == [] || !IsLocalChar(prefix[|prefix| - 1]))
    && local != [] && (forall k :: 0 <= k < |local| ==> IsLocalChar(local[k]))
    && handle != [] && (forall k :: 0 <= k < |handle| ==> IsAsciiLetter(handle[k]))
    && '@' !in rest && (rest == [] || !IsAsciiLetter(rest[0]))
  }

  /** A text holding one address `local@handle...`: the only UPI match is
      `local@handle`, the handle being cut at the first character that is
      not a letter. */
  lemma AddressMatch(prefix: string, local: string, handle: string, rest: string)
    requires AddressLayout(prefix, local, handle, rest)
    ensures FindAll(UpiHandle, prefix + (local + "@" + handle) + rest) == [local + "@" + handle]
  {
    var m := local + "@" + handle;
    var text := prefix + m + rest;
    var a, at := |prefix|, |prefix| + |local|;
    var e := at + 1 + |handle|;
    AddressOutside(prefix, local, handle, rest);
    AddressInside(prefix, local, handle, rest);
    OnlyAddress(text, a, at, e);
  }

  /** Around the address: no '@', and neither neighbour extends it. */
  lemma AddressOutside(prefix: string, local: string, handle: string, rest: string)
    requires AddressLayout(prefix, local, handle, rest)
    ensures var text := prefix + (local + "@" + handle) + rest;
            var e := |prefix| + |local| + 1 + |handle|;
            e <= |text|
            && (forall k :: 0 <= k < |prefix| ==> text[k] != '@')
            && (|prefix| == 0 || !IsLocalChar(text[|prefix| - 1]))
            && (e == |text| || !IsAsciiLetter(text[e]))
            && (forall k :: e <= k < |text| ==> text[k] != '@')
  {
    Pieces(prefix, local + "@" + handle, rest);
  }

  /** The address itself: local characters, the '@', letters. */
  lemma AddressInside(prefix: string, local: string, handle: string, rest: string)
    requires AddressLayout(prefix, local, handle, rest)
    ensures var text := prefix + (local + "@" + handle) + rest;
            var a, at := |prefix|, |prefix| + |local|;
            at + 1 + |handle| <= |text| && text[at] == '@'
            && (forall k :: a <= k < at ==> IsLocalChar(text[k]))
            && (forall k :: at < k < at + 1 + |handle| ==> IsAsciiLetter(text[k]))
  {
    var m := local + "@" + handle;
    Pieces(prefix, m, rest);
    Pieces(local, "@", handle);
  }

  /** A text with one UPI match yields that match or nothing. */
  lemma UpiIdsOfOne(text: string, m: string)
    requires FindAll(UpiHandle, text) == [m]
    ensures UpiIdsIn(text) == if KeepUpi(m) then [m] else []
  {
    IntelligenceProperties.OnePattern(UpiHandle, text);
    FilterSnoc(KeepUpi, [], m);
    assert [] + [m] == [m];
    AppendNewSnoc([], [], m);
  }

  /** Such a match is kept unless its handle is an excluded provider. */
  lemma KeptAddress(local: string, handle: string)
    requires local != [] && forall k :: 0 <= k < |local| ==> IsLocalChar(local[k])
    requires handle != [] && forall k :: 0 <= k < |handle| ==> IsAsciiLetter(handle[k])
    ensures KeepUpi(local + "@" + handle) <==> Lower(handle) !in ExcludedUpiHandles
  {
    AddressShaped(local, handle);
    IntelligenceProperties.DottedHandleAt(local + "@" + handle, |local|);
  }

  lemma AddressShaped(local: string, handle: string)
    requires local != [] && forall k :: 0 <= k < |local| ==> IsLocalChar(local[k])
    requires handle != [] && forall k :: 0 <= k < |handle| ==> IsAsciiLetter(handle[k])
    ensures UpiShapedAt(local + "@" + handle, |local|)
    ensures (local + "@" + handle)[|local| + 1..] == handle
  {
    var m := local + "@" + handle;
    forall j | 0 <= j < |local| ensures IsLocalChar(m[j]) {
      assert m[j] == local[j];
    }
    forall j | |local| < j < |m| ensures IsAsciiLetter(m[j]) {
      assert m[j] == handle[j - |local| - 1];
    }
  }

  /** An e-mail address in a message yields a UPI entry unless its handle,
      cut at the first non-letter, is one of the excluded mail providers:
      the dotted-handle branch never sees the domain. */
  lemma AddressUpiIds(prefix: string, local: string, handle: string, rest: string)
    requires AddressLayout(prefix, local, handle, rest)
    ensures UpiIdsIn(prefix + (local + "@" + handle) + rest) ==
            if Lower(handle) in ExcludedUpiHandles then [] else [local + "@" + handle]
  {
    var m := local + "@" + handle;
    var text := prefix + m + rest;
    AddressMatch(prefix, local, handle, rest);
    UpiIdsOfOne(text, m);
    KeptAddress(local, handle);
  }

  lemma OffersLayout()
    ensures AddressLayout("email us at ", "offers", "fake", "-amazon-deals.com for assistance")
  {
    assert '@' !in "-amazon-deals.com for assistance" by {
      assert forall k :: 0 <= k < 32 ==> "-amazon-deals.com for assistance"[k] != '@';
    }
  }

  lemma FakeNotExcluded()
    ensures Lower("fake") == "fake" && "fake" !in ExcludedUpiHandles
  {
  }

  lemma OffersText()
    ensures "offers" + "@" + "fake" == "offers@fake"
  {
  }

  /** The message of the e-mail test yields the UPI entry "offers@fake". */
  lemma OffersAddressUpiId(text: string)
    requires text == "email us at " + "offers@fake" + "-amazon-deals.com for assistance"
    ensures UpiIdsIn(text) == ["offers@fake"]
  {
    OffersLayout();
    FakeNotExcluded();
    OffersText();
    AddressUpiIds("email us at ", "offers", "fake", "-amazon-deals.com for assistance");
  }

  lemma GmailLayout()
    ensures AddressLayout("Contact me at ", "scammer", "gmail", ".com")
  {
  }

  lemma GmailExcluded()
    ensures Lower("gmail") == "gmail" && "gmail" in ExcludedUpiHandles
  {
  }

  lemma GmailText()
    ensures "scammer" + "@" + "gmail" == "scammer@gmail"
  {
  }

  /** A mail provider's address yields no UPI entry. */
  lemma GmailAddressNoUpiId(text: string)
    requires text == "Contact me at " + "scammer@gmail" + ".com"
    ensures UpiIdsIn(text) == []
  {
    GmailLayout();
    GmailExcluded();
    GmailText();
    AddressUpiIds("Contact me at ", "scammer", "gmail", ".com");
  }

  // Links.

  /** A link starts with "ht". */
  lemma NoLinkAt(text: string, i: nat)
    requires i < |text| && !(i + 1 < |text| && text[i] == 'h' && text[i + 1] == 't')
    ensures MatchAt(HttpUrl, text, i) == None
  {
    NoSchemeAt(text, i);
  }

  lemma NoSchemeAt(text: string, i: nat)
    requires i < |text| && !(i + 1 < |text| && text[i] == 'h' && text[i + 1] == 't')
    ensures SchemeLength(text, i) == 0
  {
    if i + 7 <= |text| {
      assert text[i..i + 7][..2] == text[i..i + 2];
      assert text[i..i + 2] != "ht";
      if i + 8 <= |text| {
        assert text[i..i + 8][..2] == text[i..i + 2];
      }
    }
  }

  lemma {:induction false} HostEndIs(text: string, j: nat, e: nat)
    requires j <= e <= |text|
    requires forall k :: j <= k < e ==> IsHostChar(text[k])
    requires e == |text| || (!IsHostChar(text[e]) && text[e] != '%')
    ensures HostEnd(text, j) == e
    decreases e - j
  {
    if j < e {
      HostEndIs(text, j + 1, e);
    }
  }

  /** No 'h' followed by 't' in `s`. */
  ghost predicate NoHt(s: string)
  {
    forall k :: 0 <= k < |s| - 1 ==> !(s[k] == 'h' && s[k + 1] == 't')
  }

  /** No link starts in `text[lo..hi]` when no 'h' there is followed by 't'. */
  lemma NoLinkIn(text: string, lo: nat, hi: nat)
    requires lo <= hi <= |text|
    requires forall k :: lo <= k < hi && k + 1 < |text| ==> !(text[k] == 'h' && text[k + 1] == 't')
    ensures Scan(HttpUrl, text, lo) == Scan(HttpUrl, text, hi)
  {
    forall k | lo <= k < hi
      ensures MatchAt(HttpUrl, text, k) == None
    {
      NoLinkAt(text, k);
    }
    ScanSkip(HttpUrl, text, lo, hi);
  }

  /** "http://" at `a`, host characters up to `h`, path characters up to `e`
      (the path, if any, starting with '/'), then a character that is
      neither: the link is `text[a..e]`. */
  lemma LinkAt(text: string, a: nat, h: nat, e: nat)
    requires a + 7 < h <= e <= |text| && text[a..a + 7] == "http://"
    requires forall k :: a + 7 <= k < h ==> IsHostChar(text[k])
    requires h == e || text[h] == '/'
    requires forall k :: h <= k < e ==> IsPathChar(text[k])
    requires e == |text| || (!IsPathChar(text[e]) && text[e] != '%')
    ensures MatchAt(HttpUrl, text, a) == Some(Span(a, e))
  {
    SchemeAt(text, a);
    HostEndIs(text, a + 7, h);
    RunIs(IsPathChar, text, h, e - h);
  }

  lemma SchemeAt(text: string, a: nat)
    requires a + 7 <= |text| && text[a..a + 7] == "http://"
    ensures SchemeLength(text, a) == 7
  {
    assert text[a + 4] == ':';
    if a + 8 <= |text| {
      assert text[a..a + 8][4] == ':';
    }
  }

  /** A text with one link, from `a` to `e`, and no other "ht". */
  lemma OnlyLink(text: string, a: nat, h: nat, e: nat)
    requires a + 7 < h <= e <= |text| && text[a..a + 7] == "http://"
    requires forall k :: 0 <= k < a && k + 1 < |text| ==> !(text[k] == 'h' && text[k + 1] == 't')
    requires forall k :: a + 7 <= k < h ==> IsHostChar(text[k])
    requires h == e || text[h] == '/'
    requires forall k :: h <= k < e ==> IsPathChar(text[k])
    requires e == |text| || (!IsPathChar(text[e]) && text[e] != '%')
    requires forall k :: e <= k < |text| - 1 ==> !(text[k] == 'h' && text[k + 1] == 't')
    ensures FindAll(HttpUrl, text) == [text[a..e]]
  {
    NoLinkIn(text, 0, a);
    LinkAt(text, a, h, e);
    NoLinkIn(text, e, |text|);
    OneSpan(HttpUrl, text, a, e);
  }

  /** `prefix`, the link `http://` + `host` + `path`, then `rest`: no "ht"
      outside the link, a path starting with '/', and a first character of
      `rest` that the link cannot take. */
  ghost predicate LinkLayout(prefix: string, host: string, path: string, rest: string)
  {
    && NoHt(prefix) && NoHt(rest)
    && host != [] && (forall k :: 0 <= k < |host| ==> IsHostChar(host[k]))
    && (path == [] || path[0] == '/')
    && (forall k :: 0 <= k < |path| ==> IsPathChar(path[k]))
    && (rest == [] || (!IsPathChar(rest[0]) && rest[0] != '%'))
  }

  /** A text holding one link: the link runs from "http://" over the host and
      the path and stops at the first character that is not a path
      character, such as '?'. */
  lemma LinkMatch(prefix: string, host: string, path: string, rest: string)
    requires LinkLayout(prefix, host, path, rest)
    ensures FindAll(HttpUrl, prefix + ("http://" + host + path) + rest) == ["http://" + host + path]
  {
    var u := "http://" + host + path;
    var text := prefix + u + rest;
    var a := |prefix|;
    var h := a + 7 + |host|;
    var e := a + |u|;
    LinkOutside(prefix, host, path, rest);
    LinkInside(prefix, host, path, rest);
    OnlyLink(text, a, h, e);
  }

  /** Around the link: no "ht", and a first character after it that the
      link cannot take. */
  lemma LinkOutside(prefix: string, host: string, path: string, rest: string)
    requires LinkLayout(prefix, host, path, rest)
    ensures var text := prefix + ("http://" + host + path) + rest;
            var a, e := |prefix|, |prefix| + 7 + |host| + |path|;
            e <= |text| && a < |text| && text[a] == 'h'
            && (forall k :: 0 <= k < a - 1 ==> !(text[k] == 'h' && text[k + 1] == 't'))
            && (e == |text| || (!IsPathChar(text[e]) && text[e] != '%'))
            && (forall k :: e <= k < |text| - 1 ==> !(text[k] == 'h' && text[k + 1] == 't'))
  {
    var u := "http://" + host + path;
    Pieces(prefix, u, rest);
    assert u[0] == 'h';
  }

  /** The link itself: the scheme, host characters, then the path. */
  lemma LinkInside(prefix: string, host: string, path: string, rest: string)
    requires LinkLayout(prefix, host, path, rest)
    ensures var text := prefix + ("http://" + host + path) + rest;
            var a := |prefix|;
            var h, e := a + 7 + |host|, a + 7 + |host| + |path|;
            a + 7 < h <= e <= |text| && text[a..a + 7] == "http://"
            && (forall k :: a + 7 <= k < h ==> IsHostChar(text[k]))
            && (h == e || text[h] == '/')
            && (forall k :: h <= k < e ==> IsPathChar(text[k]))
  {
    NestedFirst(prefix, "http://", host, path, rest);
    NestedSecond(prefix, "http://", host, path, rest);
    NestedThird(prefix, "http://", host, path, rest);
  }

  /** Where the characters of `x + (s + y + w) + z` come from: `s`, ... */
  lemma NestedFirst(x: string, s: string, y: string, w: string, z: string)
    ensures (x + (s + y + w) + z)[|x|..|x| + |s|] == s
  {
    Pieces(x, s + y + w, z);
    Pieces(s, y, w);
  }

  /** ... `y`, ... */
  lemma NestedSecond(x: string, s: string, y: string, w: string, z: string)
    ensures forall k :: |x| + |s| <= k < |x| + |s| + |y| ==> (x + (s + y + w) + z)[k] == y[k - |x| - |s|]
  {
    var u := s + y + w;
    forall k | |x| + |s| <= k < |x| + |s| + |y|
      ensures (x + u + z)[k] == y[k - |x| - |s|]
    {
      assert (x + u + z)[k] == u[k - |x|];
      assert u[k - |x|] == y[k - |x| - |s|];
    }
  }

  /** ... and `w`. */
  lemma NestedThird(x: string, s: string, y: string, w: string, z: string)
    ensures forall k :: |x| + |s| + |y| <= k < |x| + |s| + |y| + |w| ==>
              (x + (s + y + w) + z)[k] == w[k - |x| - |s| - |y|]
  {
    var u := s + y + w;
    forall k | |x| + |s| + |y| <= k < |x| + |s| + |y| + |w|
      ensures (x + u + z)[k] == w[k - |x| - |s| - |y|]
    {
      assert (x + u + z)[k] == u[k - |x|];
      assert u[k - |x|] == w[k - |x| - |s| - |y|];
    }
  }

  lemma QueryLinkLayout()
    ensures LinkLayout("Click here: ", "amaz0n-deals.fake-site.com", "/claim", "?id=12345")
  {
  }

  lemma QueryLinkText()
    ensures "http://" + "amaz0n-deals.fake-site.com" + "/claim" == "http://amaz0n-deals.fake-site.com/claim"
  {
  }

  /** The link test's message yields the link without its query string. */
  lemma QueryLinkIsCut(text: string)
    requires text == "Click here: " + "http://amaz0n-deals.fake-site.com/claim" + "?id=12345"
    ensures PhishingLinksIn(text) == ["http://amaz0n-deals.fake-site.com/claim"]
  {
    QueryLinkLayout();
    QueryLinkText();
    LinkMatch("Click here: ", "amaz0n-deals.fake-site.com", "/claim", "?id=12345");
    LinksOfOne(text, "http://amaz0n-deals.fake-site.com/claim");
  }

  /** A text with one link match yields that link. */
  lemma LinksOfOne(text: string, l: string)
    requires FindAll(HttpUrl, text) == [l]
    ensures PhishingLinksIn(text) == [l]
  {
    IntelligenceProperties.OnePattern(HttpUrl, text);
    AppendNewSnoc([], [], l);
    assert [] + [l] == [l];
  }
}
