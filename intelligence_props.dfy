/** What the lists `IntelligenceService.Extract` builds look like, and what
    `merge_lists` and repeated merging preserve. */
module IntelligenceProperties {
  import opened Text
  import opened Lists
  import opened Patterns
  import opened Intelligence

  // ---------------------------------------------------------------------------
  // The candidate lists, spelled out.

  lemma OnePattern(p: Pattern, text: string)
    ensures Candidates([p], text) == FindAll(p, text)
  {
    assert DropLast([p]) == [];
  }

  lemma TwoPatterns(p1: Pattern, p2: Pattern, text: string)
    ensures Candidates([p1, p2], text) == FindAll(p1, text) + FindAll(p2, text)
  {
    assert DropLast([p1, p2]) == [p1];
    OnePattern(p1, text);
  }

  /** Each list is a guarded-append loop over its (filtered) candidates,
      pattern by pattern: every list is duplicate-free, and its entries come
      in the order in which they are first found. */
  lemma ExtractionOrder(text: string)
    ensures BankAccountsIn(text) ==
            AppendNew([], Filter(KeepAccount, FindAll(AccountContext, text) + FindAll(BareDigits, text)))
    ensures UpiIdsIn(text) == AppendNew([], Filter(KeepUpi, FindAll(UpiHandle, text)))
    ensures PhishingLinksIn(text) == AppendNew([], FindAll(HttpUrl, text))
    ensures PhoneNumbersIn(text) ==
            AppendNew([], CleanAll(FindAll(PrefixedMobile, text) + FindAll(BareMobile, text)))
    ensures NoDup(BankAccountsIn(text)) && NoDup(UpiIdsIn(text)) && NoDup(PhishingLinksIn(text))
    ensures NoDup(PhoneNumbersIn(text)) && NoDup(SuspiciousKeywordsIn(text))
  {
    TwoPatterns(AccountContext, BareDigits, text);
    OnePattern(UpiHandle, text);
    OnePattern(HttpUrl, text);
    TwoPatterns(PrefixedMobile, BareMobile, text);
  }

  /** First-found order: of two entries of a list built by guarded appends
      over `found`, the earlier one was found first. */
  lemma FirstFoundOrder(found: seq<string>)
    ensures forall i, j :: 0 <= i < j < |AppendNew([], found)| ==>
              FirstIndex(found, AppendNew([], found)[i]) < FirstIndex(found, AppendNew([], found)[j])
  {
    AppendNewOrder([], found);
  }

  // ---------------------------------------------------------------------------
  // Bank accounts.

  /** Every bank account is 9 to 18 ASCII digits, and neither a ten-digit
      value starting 6-9 nor one starting "16", "17" or "18". */
  lemma BankAccountsShape(text: string)
    ensures forall a :: a in BankAccountsIn(text) ==>
              AllDigits(a) && 9 <= |a| <= 18
              && !(|a| == 10 && IsMobileLead(a[0]))
              && !(|a| == 10 && (StartsWith(a, "16") || StartsWith(a, "17") || StartsWith(a, "18")))
  {
    TwoPatterns(AccountContext, BareDigits, text);
    var ms := FindAll(AccountContext, text) + FindAll(BareDigits, text);
    AccountCandidatesShaped(text);
    KeptAccountsShape(ms);
    assert BankAccountsIn(text) == AppendNew([], Filter(KeepAccount, ms));
  }

  lemma AccountCandidatesShaped(text: string)
    ensures forall m :: m in FindAll(AccountContext, text) + FindAll(BareDigits, text) ==> IsAccountDigits(m)
  {
    FindAllShaped(AccountContext, text);
    FindAllShaped(BareDigits, text);
  }

  lemma KeptAccountsShape(ms: seq<string>)
    requires forall m :: m in ms ==> IsAccountDigits(m)
    ensures forall a :: a in AppendNew([], Filter(KeepAccount, ms)) ==>
              AllDigits(a) && 9 <= |a| <= 18
              && !(|a| == 10 && IsMobileLead(a[0]))
              && !(|a| == 10 && (StartsWith(a, "16") || StartsWith(a, "17") || StartsWith(a, "18")))
  {
    forall a | a in AppendNew([], Filter(KeepAccount, ms))
      ensures AllDigits(a) && 9 <= |a| <= 18
      ensures !(|a| == 10 && IsMobileLead(a[0]))
      ensures !(|a| == 10 && (StartsWith(a, "16") || StartsWith(a, "17") || StartsWith(a, "18")))
    {
      assert a in Filter(KeepAccount, ms);
      assert KeepAccount(a);
    }
  }

  // ---------------------------------------------------------------------------
  // UPI ids.

  /** When `m` is local@letters, its handle is the letters. */
  lemma HandleOfUpi(m: string, k: int)
    requires UpiShapedAt(m, k)
    ensures '@' in m && HandleOf(m) == m[k + 1..]
  {
    assert forall j :: 0 <= j < k ==> m[j] != '@';
    var i := IndexOfChar(m, '@');
    assert forall j :: k < j < |m| ==> m[j] != '@';
  }

  lemma UpiCandidatesHaveAt(text: string)
    ensures forall m :: m in Candidates(UpiPatterns, text) ==> '@' in m && UpiShaped(m)
  {
    OnePattern(UpiHandle, text);
    FindAllShaped(UpiHandle, text);
    forall m | m in Candidates(UpiPatterns, text)
      ensures '@' in m && UpiShaped(m)
    {
      assert Shaped(UpiHandle, m);
      var k :| UpiShapedAt(m, k);
      HandleOfUpi(m, k);
    }
  }

  /** For a match of the UPI pattern the dotted-handle branch never decides:
      the handle is letters only, so it is kept exactly when its lower-case
      form is not a mail provider. */
  lemma DottedHandleBranchUnreachable(m: string)
    requires UpiShaped(m)
    ensures '@' in m && '.' !in HandleOf(m)
    ensures KeepUpi(m) <==> Lower(HandleOf(m)) !in ExcludedUpiHandles
  {
    var k :| UpiShapedAt(m, k);
    DottedHandleAt(m, k);
  }

  lemma DottedHandleAt(m: string, k: int)
    requires UpiShapedAt(m, k)
    ensures '@' in m && HandleOf(m) == m[k + 1..] && '.' !in HandleOf(m)
    ensures KeepUpi(m) <==> Lower(HandleOf(m)) !in ExcludedUpiHandles
  {
    HandleOfUpi(m, k);
    var handle := m[k + 1..];
    forall j | 0 <= j < |handle|
      ensures handle[j] != '.'
    {
      assert handle[j] == m[k + 1 + j];
    }
  }

  /** Every UPI id is local@handle with a local part of letters, digits,
      dots, underscores and hyphens, a non-empty all-letter handle, and a handle that is not a mail
      provider's name in any case. */
  lemma UpiIdsShape(text: string)
    ensures forall u :: u in UpiIdsIn(text) ==>
              exists k :: UpiShapedAt(u, k) && HandleOf(u) == u[k + 1..]
                          && Lower(u[k + 1..]) !in ExcludedUpiHandles
  {
    forall u | u in UpiIdsIn(text)
      ensures exists k :: UpiShapedAt(u, k) && HandleOf(u) == u[k + 1..]
                          && Lower(u[k + 1..]) !in ExcludedUpiHandles
    {
      assert u in Filter(KeepUpi, Candidates(UpiPatterns, text));
      UpiCandidatesHaveAt(text);
      var k :| UpiShapedAt(u, k);
      HandleOfUpi(u, k);
    }
  }

  // ---------------------------------------------------------------------------
  // Links.

  /** A link match never holds '?' or whitespace. */
  lemma UrlShapedHasNoQueryOrSpace(l: string)
    requires UrlShaped(l)
    ensures forall j :: 0 <= j < |l| ==> l[j] != '?' && !IsSpace(l[j])
  {
    var s := if StartsWith(l, "https://") then 8 else 7;
    var scheme := l[..s];
    assert scheme == "https://" || scheme == "http://";
    forall j | 0 <= j < |l|
      ensures l[j] != '?' && !IsSpace(l[j])
    {
      if j < s {
        assert l[j] == scheme[j];
      }
    }
  }

  /** Every link is a match of the link pattern: the scheme, then word
      characters, '-', '.', '/' and `%XX` escapes only. So it starts with
      "http://" or "https://" and holds neither '?' nor whitespace: a query
      string is cut off. */
  lemma PhishingLinksShape(text: string)
    ensures forall l :: l in PhishingLinksIn(text) ==>
              UrlShaped(l)
              && (StartsWith(l, "http://") || StartsWith(l, "https://"))
              && '?' !in l
              && forall j :: 0 <= j < |l| ==> !IsSpace(l[j])
  {
    OnePattern(HttpUrl, text);
    FindAllShaped(HttpUrl, text);
    forall l | l in PhishingLinksIn(text)
      ensures UrlShaped(l)
      ensures StartsWith(l, "http://") || StartsWith(l, "https://")
      ensures forall j :: 0 <= j < |l| ==> l[j] != '?' && !IsSpace(l[j])
    {
      assert l in FindAll(HttpUrl, text);
      UrlShapedHasNoQueryOrSpace(l);
    }
  }

  // ---------------------------------------------------------------------------
  // Phone numbers.

  /** The three shapes an entry can take. A separator other than a space or
      a hyphen (a tab, say) survives cleaning. */
  ghost predicate CleanPhoneShaped(e: string)
  {
    || IsMobile(e)
    || (|e| == 13 && StartsWith(e, "+91") && IsMobile(e[3..]))
    || (|e| == 14 && StartsWith(e, "+91") && IsSpace(e[3]) && e[3] != ' ' && IsMobile(e[4..]))
  }

  lemma RemoveOne(c: char)
    ensures RemoveChar([c], c) == []
  {
  }

  /** Cleaning a match keeps its shape, with a space or hyphen separator
      removed. */
  lemma CleanPhoneMatch(m: string)
    requires PrefixedMobileShaped(m)
    ensures CleanPhoneShaped(Clean(m))
  {
    if |m| == 14 && StartsWith(m, "+91") && IsPhoneSeparator(m[3]) && IsMobile(m[4..]) {
      var rest := m[4..];
      DigitsHaveNoSeparator(rest);
      assert m == "+91" + [m[3]] + rest;
      if m[3] == ' ' {
        CleanSeparated("+91", ' ', rest);
      } else if m[3] == '-' {
        CleanSeparated("+91", '-', rest);
      } else {
        CleanKeeps("+91" + [m[3]], rest);
      }
    } else {
      UnseparatedHasNoSeparator(m);
      CleanKeeps(m, []);
      assert m + [] == m;
    }
  }

  lemma DigitsHaveNoSeparator(rest: string)
    requires AllDigits(rest)
    ensures ' ' !in rest && '-' !in rest
  {
    forall j | 0 <= j < |rest| ensures rest[j] != ' ' && rest[j] != '-' {
      assert IsDigit(rest[j]);
    }
  }

  lemma UnseparatedHasNoSeparator(m: string)
    requires IsMobile(m) || (|m| == 13 && StartsWith(m, "+91") && IsMobile(m[3..]))
    ensures ' ' !in m && '-' !in m
  {
    forall j | 0 <= j < |m| ensures m[j] != ' ' && m[j] != '-' {
      if |m| == 13 {
        if j >= 3 {
          assert m[j] == m[3..][j - 3];
        } else {
          assert m[j] == "+91"[j];
        }
      }
    }
  }

  /** A space or hyphen between `p` and `rest`, which hold neither, is removed. */
  lemma CleanSeparated(p: string, c: char, rest: string)
    requires c == ' ' || c == '-'
    requires ' ' !in p && '-' !in p && ' ' !in rest && '-' !in rest
    ensures Clean(p + [c] + rest) == p + rest
  {
    if c == ' ' {
      DropSeparator(p, ' ', rest);
      assert '-' !in p + rest;
    } else {
      assert ' ' !in p + [c] + rest;
      assert RemoveChar(p + [c] + rest, ' ') == p + [c] + rest;
      DropSeparator(p, '-', rest);
    }
  }

  lemma DropSeparator(p: string, c: char, rest: string)
    requires c !in p && c !in rest
    ensures RemoveChar(p + [c] + rest, c) == p + rest
  {
    RemoveCharAppend(p + [c], rest, c);
    RemoveCharAppend(p, [c], c);
    RemoveOne(c);
    assert p + [] == p;
  }

  /** A text without a space or hyphen is left as it is. */
  lemma CleanKeeps(p: string, rest: string)
    requires ' ' !in p && '-' !in p && ' ' !in rest && '-' !in rest
    ensures Clean(p + rest) == p + rest
  {
    RemoveCharAppend(p, rest, ' ');
    RemoveCharAppend(p, rest, '-');
  }

  lemma PhoneCandidatesShaped(ms: seq<string>, text: string)
    requires ms == FindAll(PrefixedMobile, text) + FindAll(BareMobile, text)
    ensures forall m :: m in ms ==> PrefixedMobileShaped(m)
  {
    FindAllShaped(PrefixedMobile, text);
    FindAllShaped(BareMobile, text);
    forall m | m in ms
      ensures PrefixedMobileShaped(m)
    {
      assert m in FindAll(PrefixedMobile, text) || m in FindAll(BareMobile, text);
    }
  }

  /** Every phone number holds no space and no hyphen, and is a mobile
      number, optionally after "+91" and, when the separator was neither a
      space nor a hyphen, that separator. */
  lemma PhoneNumbersShape(text: string)
    ensures forall e :: e in PhoneNumbersIn(text) ==> ' ' !in e && '-' !in e && CleanPhoneShaped(e)
  {
    TwoPatterns(PrefixedMobile, BareMobile, text);
    var ms := FindAll(PrefixedMobile, text) + FindAll(BareMobile, text);
    PhoneCandidatesShaped(ms, text);
    CleanAllShaped(ms);
    assert PhoneNumbersIn(text) == AppendNew([], CleanAll(ms));
  }

  lemma CleanAllShaped(ms: seq<string>)
    requires forall m :: m in ms ==> PrefixedMobileShaped(m)
    ensures forall e :: e in CleanAll(ms) ==> ' ' !in e && '-' !in e && CleanPhoneShaped(e)
  {
    forall e | e in CleanAll(ms)
      ensures ' ' !in e && '-' !in e && CleanPhoneShaped(e)
    {
      CleanAllAt(ms);
      var k :| 0 <= k < |ms| && CleanAll(ms)[k] == e;
      assert ms[k] in ms;
      CleanPhoneMatch(ms[k]);
    }
  }

  // ---------------------------------------------------------------------------
  // Keywords.

  // The vocabulary in three blocks, so that its distinctness is checked a
  // block at a time.
  const FirstWords: seq<string> := ["blocked", "verify", "kyc", "suspend", "urgent", "immediate"]
  const MiddleWords: seq<string> := ["pan card", "adhar", "otp", "pin", "password", "refund"]
  const LastWords: seq<string> :=
    ["lottery", "winner", "expiry", "unauthorized", "download", "apk", "install"]

  lemma VocabularyBlocks()
    ensures SuspiciousKeywords == FirstWords + MiddleWords + LastWords
  {
  }

  lemma BlocksDistinct()
    ensures NoDup(FirstWords) && NoDup(MiddleWords) && NoDup(LastWords)
  {
  }

  lemma FirstMiddleDisjoint()
    ensures forall x :: x in FirstWords ==> x !in MiddleWords
  {
  }

  lemma LastDisjoint()
    ensures forall x :: x in FirstWords + MiddleWords ==> x !in LastWords
  {
  }

  /** No word appears twice in the vocabulary. */
  lemma VocabularyDistinct()
    ensures NoDup(SuspiciousKeywords)
  {
    VocabularyBlocks();
    BlocksDistinct();
    FirstMiddleDisjoint();
    LastDisjoint();
    NoDupConcat(FirstWords, MiddleWords);
    NoDupConcat(FirstWords + MiddleWords, LastWords);
  }

  lemma {:induction false} FoundKeywordsOrder(lowered: string, vocabulary: seq<string>)
    requires NoDup(vocabulary)
    ensures forall kw :: kw in FoundKeywords(lowered, vocabulary) ==> kw in vocabulary
    ensures NoDup(FoundKeywords(lowered, vocabulary))
    ensures forall i, j :: 0 <= i < j < |FoundKeywords(lowered, vocabulary)| ==>
              FirstIndex(vocabulary, FoundKeywords(lowered, vocabulary)[i])
              < FirstIndex(vocabulary, FoundKeywords(lowered, vocabulary)[j])
    decreases |vocabulary|
  {
    if vocabulary != [] {
      var d := DropLast(vocabulary);
      var last := Last(vocabulary);
      var f := FoundKeywords(lowered, d);
      var r := FoundKeywords(lowered, vocabulary);
      FoundKeywordsOrder(lowered, d);
      FoundKeywordsMembers(lowered, d);
      FoundKeywordsMembers(lowered, vocabulary);
      NoDupDropLast(vocabulary);
      FirstIndexDropLast(vocabulary);
      if Contains(lowered, last) {
        assert r == f + [last];
        forall i, j | 0 <= i < j < |r|
          ensures FirstIndex(vocabulary, r[i]) < FirstIndex(vocabulary, r[j])
        {
          assert r[i] == f[i] && r[i] in d;
          if j < |f| { assert r[j] == f[j] && r[j] in d; }
        }
      } else {
        assert r == f;
      }
    }
  }

  /** The keywords are exactly the vocabulary words that occur in the
      lower-cased text, each once, in vocabulary order. */
  lemma SuspiciousKeywordsSpec(text: string)
    ensures forall kw :: kw in SuspiciousKeywordsIn(text) <==>
              kw in SuspiciousKeywords && Contains(Lower(text), kw)
    ensures forall i, j :: 0 <= i < j < |SuspiciousKeywordsIn(text)| ==>
              FirstIndex(SuspiciousKeywords, SuspiciousKeywordsIn(text)[i])
              < FirstIndex(SuspiciousKeywords, SuspiciousKeywordsIn(text)[j])
  {
    VocabularyDistinct();
    FoundKeywordsMembers(Lower(text), SuspiciousKeywords);
    FoundKeywordsOrder(Lower(text), SuspiciousKeywords);
    AppendNewDistinct([], FoundKeywords(Lower(text), SuspiciousKeywords));
  }

  // ---------------------------------------------------------------------------
  // Merging.

  lemma {:induction false} NoDupCardinality<T>(s: seq<T>)
    requires NoDup(s)
    ensures |Elems(s)| == |s|
    decreases |s|
  {
    if s != [] {
      var d := DropLast(s);
      assert NoDup(d);
      NoDupCardinality(d);
      assert s == d + [Last(s)];
      assert Elems(s) == Elems(d) + {Last(s)};
      assert Last(s) !in Elems(d);
    }
  }

  /** Merging a list without repeats with itself (or with any list whose
      elements it already holds) gives back the same elements and the same
      length: only the order may change. */
  lemma MergeWithKnownNoOp(current: seq<string>, incoming: seq<string>, merged: seq<string>)
    requires NoDup(current)
    requires forall x :: x in incoming ==> x in current
    requires SameElemsNoDup(merged, current + incoming)
    ensures Elems(merged) == Elems(current)
    ensures |merged| == |current|
  {
    assert Elems(current + incoming) == Elems(current);
    NoDupCardinality(current);
    NoDupCardinality(merged);
  }

  /** `merge_lists` is a set union: commutative, associative and idempotent. */
  lemma MergeListsAlgebra(a: seq<string>, b: seq<string>, c: seq<string>)
    ensures Elems(MergeLists(a, b)) == Elems(MergeLists(b, a))
    ensures Elems(MergeLists(MergeLists(a, b), c)) == Elems(MergeLists(a, MergeLists(b, c)))
    ensures Elems(MergeLists(a, a)) == Elems(a)
    ensures NoDup(a) ==> |MergeLists(a, a)| == |a|
  {
    if NoDup(a) {
      MergeWithKnownNoOp(a, a, MergeLists(a, a));
    }
  }
}
