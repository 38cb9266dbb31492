/** `IntelligenceService` (app/services/intelligence.py) and the record it fills,
    `ExtractedIntelligence` (app/models.py:39-45).

    `Extract` scans one message with the pattern tables below and appends each
    accepted match to the record's lists, skipping values already present.
    `MergeIntelligence` replaces each list of `current` by the set union of
    both records' lists, in place, and returns `current`.

    The functions `BankAccountsIn`, ..., `SuspiciousKeywordsIn` say which list
    `Extract` builds from a text; module IntelligenceProperties proves what
    those lists look like. */
module Intelligence {
  import opened Text
  import opened Lists
  import opened Patterns

  // ---------------------------------------------------------------------------
  // The tables `IntelligenceService.__init__` sets up (never changed afterwards).

  const BankAccountPatterns: seq<Pattern> := [AccountContext, BareDigits]
  const UpiPatterns: seq<Pattern> := [UpiHandle]
  const ExcludedUpiHandles: set<string> := {"gmail", "yahoo", "hotmail", "outlook", "rediffmail"}
  const UrlPatterns: seq<Pattern> := [HttpUrl]
  const PhonePatterns: seq<Pattern> := [PrefixedMobile, BareMobile]
  const SuspiciousKeywords: seq<string> :=
    [ "blocked", "verify", "kyc", "suspend", "urgent", "immediate",
      "pan card", "adhar", "otp", "pin", "password", "refund",
      "lottery", "winner", "expiry", "unauthorized",
      "download", "apk", "install" ]

  /** Every match of every pattern in `patterns`, pattern by pattern, each
      pattern's matches in text order. */
  function Candidates(patterns: seq<Pattern>, text: string): seq<string>
    decreases |patterns|
  {
    if patterns == [] then []
    else Candidates(DropLast(patterns), text) + FindAll(Last(patterns), text)
  }

  /** Each candidate has the shape of the pattern that found it. */
  lemma {:induction false} CandidatesShaped(patterns: seq<Pattern>, text: string)
    ensures forall m :: m in Candidates(patterns, text) ==> exists p :: p in patterns && Shaped(p, m)
    decreases |patterns|
  {
    if patterns != [] {
      CandidatesShaped(DropLast(patterns), text);
      FindAllShaped(Last(patterns), text);
      assert forall p :: p in DropLast(patterns) ==> p in patterns;
    }
  }

  lemma CandidatesSnoc(patterns: seq<Pattern>, k: nat, text: string)
    requires k < |patterns|
    ensures Candidates(patterns[..k + 1], text) == Candidates(patterns[..k], text) + FindAll(patterns[k], text)
  {
    assert DropLast(patterns[..k + 1]) == patterns[..k];
  }

  // ---------------------------------------------------------------------------
  // The filters applied to each match.

  /** Ten characters starting "16", "17" or "18": a Unix time in seconds. */
  predicate LooksLikeTimestamp(m: string)
  {
    |m| == 10 && (StartsWith(m, "16") || StartsWith(m, "17") || StartsWith(m, "18"))
  }

  /** Ten characters of which the first is one of "6789": a mobile number. */
  predicate LooksLikePhone(m: string)
  {
    |m| == 10 && IsMobileLead(m[0])
  }

  /** The three tests a bank-account match must pass. */
  predicate KeepAccount(m: string)
  {
    !LooksLikeTimestamp(m) && !LooksLikePhone(m) && 9 <= |m| <= 18
  }

  /** The index of the first `c` in `s`. */
  function IndexOfChar(s: string, c: char): (k: nat)
    requires c in s
    ensures k < |s| && s[k] == c && c !in s[..k]
  {
    if s[0] == c then 0
    else
      assert c in s[1..];
      var k := 1 + IndexOfChar(s[1..], c);
      assert s[..k] == [s[0]] + s[1..][..k - 1];
      k
  }

  /** The longest prefix of `s` without `c`. */
  function TakeUntil(s: string, c: char): (r: string)
    ensures |r| <= |s| && r == s[..|r|] && c !in r
    ensures |r| < |s| ==> s[|r|] == c
  {
    if s == [] || s[0] == c then []
    else
      var r := [s[0]] + TakeUntil(s[1..], c);
      assert s[..|r|] == [s[0]] + s[1..][..|r| - 1];
      r
  }

  /** The second piece when `m` is split at '@': the text between the first
      '@' and the next one. */
  function HandleOf(m: string): string
    requires '@' in m
  {
    TakeUntil(m[IndexOfChar(m, '@') + 1..], '@')
  }

  /** The tests a UPI match must pass: a handle that is not a mail provider,
      and either no dot in it or one of "upi", "bank", "pay" in it. */
  predicate KeepUpi(m: string)
  {
    '@' in m &&
    var handle := HandleOf(m);
    Lower(handle) !in ExcludedUpiHandles &&
    ('.' !in handle || Contains(handle, "upi") || Contains(handle, "bank") || Contains(handle, "pay"))
  }

  /** A phone match with every space and then every hyphen removed. */
  function Clean(m: string): (r: string)
    ensures ' ' !in r && '-' !in r
  {
    RemoveChar(RemoveChar(m, ' '), '-')
  }

  /** `Clean` applied to each element. */
  function CleanAll(ms: seq<string>): seq<string>
  {
    Map(Clean, ms)
  }

  /** `CleanAll` cleans each element in place. */
  lemma CleanAllAt(ms: seq<string>)
    ensures |CleanAll(ms)| == |ms|
    ensures forall k :: 0 <= k < |ms| ==> CleanAll(ms)[k] == Clean(ms[k])
  {
    MapAt(Clean, ms);
  }

  /** The vocabulary words that occur in `lowered`, in vocabulary order. */
  function FoundKeywords(lowered: string, vocabulary: seq<string>): seq<string>
    decreases |vocabulary|
  {
    if vocabulary == [] then []
    else
      FoundKeywords(lowered, DropLast(vocabulary))
      + if Contains(lowered, Last(vocabulary)) then [Last(vocabulary)] else []
  }

  /** The words found are the vocabulary words that occur in `lowered`. */
  lemma {:induction false} FoundKeywordsMembers(lowered: string, vocabulary: seq<string>)
    ensures forall kw :: kw in FoundKeywords(lowered, vocabulary) <==> kw in vocabulary && Contains(lowered, kw)
    decreases |vocabulary|
  {
    if vocabulary != [] {
      FoundKeywordsMembers(lowered, DropLast(vocabulary));
      assert vocabulary == DropLast(vocabulary) + [Last(vocabulary)];
    }
  }

  lemma CleanAllConcat(xs: seq<string>, ys: seq<string>)
    ensures CleanAll(xs + ys) == CleanAll(xs) + CleanAll(ys)
  {
    MapConcat(Clean, xs, ys);
  }

  lemma CleanAllSnoc(ms: seq<string>, m: nat)
    requires m < |ms|
    ensures CleanAll(ms[..m + 1]) == CleanAll(ms[..m]) + [Clean(ms[m])]
  {
    assert ms[..m + 1] == ms[..m] + [ms[m]];
    MapSnoc(Clean, ms[..m], ms[m]);
  }

  lemma FoundKeywordsSnoc(lowered: string, vocabulary: seq<string>, kw: string)
    ensures FoundKeywords(lowered, vocabulary + [kw]) ==
            FoundKeywords(lowered, vocabulary) + if Contains(lowered, kw) then [kw] else []
  {
    DropLastOfSnoc(vocabulary, kw);
  }

  /** One more turn of the keyword loop. */
  lemma KeywordStep(lowered: string, vocabulary: seq<string>, k: nat, hit: bool)
    requires k < |vocabulary| && hit == Contains(lowered, vocabulary[k])
    ensures AppendNew([], FoundKeywords(lowered, vocabulary[..k + 1])) ==
            var a := AppendNew([], FoundKeywords(lowered, vocabulary[..k]));
            if hit && vocabulary[k] !in a then a + [vocabulary[k]] else a
  {
    var before := FoundKeywords(lowered, vocabulary[..k]);
    assert vocabulary[..k + 1] == vocabulary[..k] + [vocabulary[k]];
    FoundKeywordsSnoc(lowered, vocabulary[..k], vocabulary[k]);
    if Contains(lowered, vocabulary[k]) {
      AppendNewSnoc([], before, vocabulary[k]);
    } else {
      assert before + [] == before;
    }
  }

  // ---------------------------------------------------------------------------
  // What `extract` puts in each list.

  function BankAccountsIn(text: string): seq<string>
  {
    AppendNew([], Filter(KeepAccount, Candidates(BankAccountPatterns, text)))
  }

  function UpiIdsIn(text: string): seq<string>
  {
    AppendNew([], Filter(KeepUpi, Candidates(UpiPatterns, text)))
  }

  function PhishingLinksIn(text: string): seq<string>
  {
    AppendNew([], Candidates(UrlPatterns, text))
  }

  function PhoneNumbersIn(text: string): seq<string>
  {
    AppendNew([], CleanAll(Candidates(PhonePatterns, text)))
  }

  function SuspiciousKeywordsIn(text: string): seq<string>
  {
    AppendNew([], FoundKeywords(Lower(text), SuspiciousKeywords))
  }

  /** The inner `merge_lists`: a list built from the set of both lists'
      elements, each once. Python's order depends on string
      hashes; this body picks first-occurrence order, and the contract, which
      is all the rest of the model relies on, leaves the order open. */
  function MergeLists(list1: seq<string>, list2: seq<string>): (r: seq<string>)
    ensures NoDup(r)
    ensures Elems(r) == Elems(list1) + Elems(list2)
  {
    AppendNew([], list1 + list2)
  }

  // ---------------------------------------------------------------------------
  // The record and the service.

  /** The five lists of `ExtractedIntelligence`; each starts empty. */
  class ExtractedIntelligence {
    var bankAccounts: seq<string>
    var upiIds: seq<string>
    var phishingLinks: seq<string>
    var phoneNumbers: seq<string>
    var suspiciousKeywords: seq<string>

    constructor()
      ensures bankAccounts == [] && upiIds == [] && phishingLinks == []
      ensures phoneNumbers == [] && suspiciousKeywords == []
    {
      bankAccounts, upiIds, phishingLinks := [], [], [];
      phoneNumbers, suspiciousKeywords := [], [];
    }

    /** A record holding the five given lists. */
    constructor Of(bankAccounts: seq<string>, upiIds: seq<string>, phishingLinks: seq<string>,
                   phoneNumbers: seq<string>, suspiciousKeywords: seq<string>)
      ensures this.bankAccounts == bankAccounts && this.upiIds == upiIds
      ensures this.phishingLinks == phishingLinks && this.phoneNumbers == phoneNumbers
      ensures this.suspiciousKeywords == suspiciousKeywords
    {
      this.bankAccounts, this.upiIds, this.phishingLinks := bankAccounts, upiIds, phishingLinks;
      this.phoneNumbers, this.suspiciousKeywords := phoneNumbers, suspiciousKeywords;
    }
  }

  class IntelligenceService {

    constructor() {}

    /** `extract(text)`: a fresh record; each of its five sections is one
        method below. */
    method Extract(text: string) returns (intel: ExtractedIntelligence)
      ensures fresh(intel)
      ensures intel.bankAccounts == BankAccountsIn(text)
      ensures intel.upiIds == UpiIdsIn(text)
      ensures intel.phishingLinks == PhishingLinksIn(text)
      ensures intel.phoneNumbers == PhoneNumbersIn(text)
      ensures intel.suspiciousKeywords == SuspiciousKeywordsIn(text)
    {
      var accounts := ExtractBankAccounts(text);
      var upiIds := ExtractUpiIds(text);
      var links := ExtractPhishingLinks(text);
      var phones := ExtractPhoneNumbers(text);
      var keywords := ExtractSuspiciousKeywords(text);
      intel := new ExtractedIntelligence.Of(accounts, upiIds, links, phones, keywords);
    }

    /** For each bank pattern, its matches go through `AddBankAccounts`. */
    method ExtractBankAccounts(text: string) returns (accounts: seq<string>)
      ensures accounts == BankAccountsIn(text)
    {
      accounts := [];
      var p := 0;
      while p < |BankAccountPatterns|
        invariant 0 <= p <= |BankAccountPatterns|
        invariant accounts == AppendNew([], Filter(KeepAccount, Candidates(BankAccountPatterns[..p], text)))
      {
        var matches := FindAll(BankAccountPatterns[p], text);
        ghost var before := Candidates(BankAccountPatterns[..p], text);
        accounts := AddBankAccounts(accounts, matches);
        FilterConcat(KeepAccount, before, matches);
        AppendNewConcat([], Filter(KeepAccount, before), Filter(KeepAccount, matches));
        CandidatesSnoc(BankAccountPatterns, p, text);
        p := p + 1;
      }
      assert BankAccountPatterns[..|BankAccountPatterns|] == BankAccountPatterns;
    }

    /** One bank pattern's matches: skip timestamps and phone-shaped values,
        keep 9 to 18 characters, append if new. */
    method AddBankAccounts(accounts: seq<string>, matches: seq<string>) returns (r: seq<string>)
      ensures r == AppendNew(accounts, Filter(KeepAccount, matches))
    {
      r := accounts;
      var m := 0;
      while m < |matches|
        invariant 0 <= m <= |matches|
        invariant r == AppendNew(accounts, Filter(KeepAccount, matches[..m]))
      {
        var found := matches[m];
        AppendNewFilterStep(KeepAccount, accounts, matches, m);
        m := m + 1;
        if LooksLikeTimestamp(found) {
          continue;
        }
        if LooksLikePhone(found) {
          continue;
        }
        if 9 <= |found| <= 18 {
          if found !in r {
            r := r + [found];
          }
        }
      }
      assert matches[..|matches|] == matches;
    }

    /** For each UPI pattern, its matches go through `AddUpiIds`. */
    method ExtractUpiIds(text: string) returns (upiIds: seq<string>)
      ensures upiIds == UpiIdsIn(text)
    {
      upiIds := [];
      var p := 0;
      while p < |UpiPatterns|
        invariant 0 <= p <= |UpiPatterns|
        invariant upiIds == AppendNew([], Filter(KeepUpi, Candidates(UpiPatterns[..p], text)))
      {
        var matches := FindAll(UpiPatterns[p], text);
        ghost var before := Candidates(UpiPatterns[..p], text);
        upiIds := AddUpiIds(upiIds, matches);
        FilterConcat(KeepUpi, before, matches);
        AppendNewConcat([], Filter(KeepUpi, before), Filter(KeepUpi, matches));
        CandidatesSnoc(UpiPatterns, p, text);
        p := p + 1;
      }
      assert UpiPatterns[..|UpiPatterns|] == UpiPatterns;
    }

    /** One UPI pattern's matches: keep a match unless its handle is a mail
        provider or, having a dot, names no payment word; append if new.
        (Every match of the pattern holds an '@'; see `UpiCandidatesHaveAt`.) */
    method AddUpiIds(upiIds: seq<string>, matches: seq<string>) returns (r: seq<string>)
      ensures r == AppendNew(upiIds, Filter(KeepUpi, matches))
    {
      r := upiIds;
      var m := 0;
      while m < |matches|
        invariant 0 <= m <= |matches|
        invariant r == AppendNew(upiIds, Filter(KeepUpi, matches[..m]))
      {
        var found := matches[m];
        AppendNewFilterStep(KeepUpi, upiIds, matches, m);
        if '@' in found {
          var handle := HandleOf(found);
          if Lower(handle) !in ExcludedUpiHandles {
            if '.' !in handle {
              if found !in r {
                r := r + [found];
              }
            } else if Contains(handle, "upi") || Contains(handle, "bank") || Contains(handle, "pay") {
              if found !in r {
                r := r + [found];
              }
            }
          }
        }
        m := m + 1;
      }
      assert matches[..|matches|] == matches;
    }

    /** Every link match, appended if new. */
    method ExtractPhishingLinks(text: string) returns (links: seq<string>)
      ensures links == PhishingLinksIn(text)
    {
      links := [];
      var p := 0;
      while p < |UrlPatterns|
        invariant 0 <= p <= |UrlPatterns|
        invariant links == AppendNew([], Candidates(UrlPatterns[..p], text))
      {
        var matches := FindAll(UrlPatterns[p], text);
        ghost var before := Candidates(UrlPatterns[..p], text);
        links := AddLinks(links, matches);
        AppendNewConcat([], before, matches);
        CandidatesSnoc(UrlPatterns, p, text);
        p := p + 1;
      }
      assert UrlPatterns[..|UrlPatterns|] == UrlPatterns;
    }

    /** One link pattern's matches, each appended if new. */
    method AddLinks(links: seq<string>, matches: seq<string>) returns (r: seq<string>)
      ensures r == AppendNew(links, matches)
    {
      r := links;
      var m := 0;
      while m < |matches|
        invariant 0 <= m <= |matches|
        invariant r == AppendNew(links, matches[..m])
      {
        var found := matches[m];
        assert matches[..m + 1] == matches[..m] + [found];
        AppendNewSnoc(links, matches[..m], found);
        if found !in r {
          r := r + [found];
        }
        m := m + 1;
      }
      assert matches[..|matches|] == matches;
    }

    /** For each phone pattern, its matches go through `AddPhoneNumbers`. */
    method ExtractPhoneNumbers(text: string) returns (phones: seq<string>)
      ensures phones == PhoneNumbersIn(text)
    {
      phones := [];
      var p := 0;
      while p < |PhonePatterns|
        invariant 0 <= p <= |PhonePatterns|
        invariant phones == AppendNew([], CleanAll(Candidates(PhonePatterns[..p], text)))
      {
        var matches := FindAll(PhonePatterns[p], text);
        ghost var before := Candidates(PhonePatterns[..p], text);
        phones := AddPhoneNumbers(phones, matches);
        CleanAllConcat(before, matches);
        AppendNewConcat([], CleanAll(before), CleanAll(matches));
        CandidatesSnoc(PhonePatterns, p, text);
        p := p + 1;
      }
      assert PhonePatterns[..|PhonePatterns|] == PhonePatterns;
    }

    /** One phone pattern's matches, spaces and hyphens removed, each
        appended if new. */
    method AddPhoneNumbers(phones: seq<string>, matches: seq<string>) returns (r: seq<string>)
      ensures r == AppendNew(phones, CleanAll(matches))
    {
      r := phones;
      var m := 0;
      while m < |matches|
        invariant 0 <= m <= |matches|
        invariant r == AppendNew(phones, CleanAll(matches[..m]))
      {
        var found := matches[m];
        var cleanNum := Clean(found);
        CleanAllSnoc(matches, m);
        AppendNewSnoc(phones, CleanAll(matches[..m]), cleanNum);
        if cleanNum !in r {
          r := r + [cleanNum];
        }
        m := m + 1;
      }
      assert matches[..|matches|] == matches;
    }

    method ExtractSuspiciousKeywords(text: string) returns (keywords: seq<string>)
      ensures keywords == SuspiciousKeywordsIn(text)
    {
      var textLower := Lower(text);
      keywords := FindKeywords(textLower, SuspiciousKeywords);
    }

    /** Each word of `vocabulary` found in `textLower`, appended if new. */
    method FindKeywords(textLower: string, vocabulary: seq<string>) returns (keywords: seq<string>)
      ensures keywords == AppendNew([], FoundKeywords(textLower, vocabulary))
    {
      keywords := [];
      var k := 0;
      while k < |vocabulary|
        invariant 0 <= k <= |vocabulary|
        invariant keywords == AppendNew([], FoundKeywords(textLower, vocabulary[..k]))
      {
        var kw := vocabulary[k];
        var hit := Contains(textLower, kw);
        KeywordStep(textLower, vocabulary, k, hit);
        if hit && kw !in keywords {
          keywords := keywords + [kw];
        }
        k := k + 1;
      }
      assert vocabulary[..|vocabulary|] == vocabulary;
    }

    /** `merge_intelligence(current, new_intel)`: each list of `current`
        becomes the union of both records' lists, without repeats; `current`
        itself is returned, and `newIntel`, when it is another object, is
        left as it was. */
    method MergeIntelligence(current: ExtractedIntelligence, newIntel: ExtractedIntelligence)
      returns (merged: ExtractedIntelligence)
      modifies current
      ensures merged == current
      ensures SameElemsNoDup(current.bankAccounts, old(current.bankAccounts) + old(newIntel.bankAccounts))
      ensures SameElemsNoDup(current.upiIds, old(current.upiIds) + old(newIntel.upiIds))
      ensures SameElemsNoDup(current.phishingLinks, old(current.phishingLinks) + old(newIntel.phishingLinks))
      ensures SameElemsNoDup(current.phoneNumbers, old(current.phoneNumbers) + old(newIntel.phoneNumbers))
      ensures SameElemsNoDup(current.suspiciousKeywords,
                             old(current.suspiciousKeywords) + old(newIntel.suspiciousKeywords))
      ensures newIntel != current ==> unchanged(newIntel)
    {
      current.bankAccounts := MergeLists(current.bankAccounts, newIntel.bankAccounts);
      current.upiIds := MergeLists(current.upiIds, newIntel.upiIds);
      current.phishingLinks := MergeLists(current.phishingLinks, newIntel.phishingLinks);
      current.phoneNumbers := MergeLists(current.phoneNumbers, newIntel.phoneNumbers);
      current.suspiciousKeywords := MergeLists(current.suspiciousKeywords, newIntel.suspiciousKeywords);
      merged := current;
    }
  }
}
