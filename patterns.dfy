/** The regular expressions of `IntelligenceService` (app/services/intelligence.py:14-36)
    and Python's `re.findall` over them, written as scanners over strings.

    `re.findall(pattern, text)` tries the pattern at position 0, 1, 2, ...;
    when it matches at `i` and the match ends at `e`, it records the match
    (or its capture group) and resumes at `e`: matches are leftmost and never
    overlap. At one position the regex engine backtracks and returns the first
    way to match in priority order (greedy repetitions first). For each pattern
    below the comment says why that first way is the one the scanner computes.
    Character classes are ASCII (see module Text). */
module Patterns {
  import opened Text

  datatype Option<T> = None | Some(value: T)

  /** What `findall` returns for one match is `text[from..to]`; the search
      for the next match resumes at `to`. */
  datatype Span = Span(from: nat, to: nat)

  /** The six patterns, in the order the extractor lists them. */
  datatype Pattern =
    | AccountContext  // an account keyword, separators, then 9-18 digits (only the digits are returned)
    | BareDigits      // a whole run of 9-18 digits between word boundaries
    | UpiHandle       // local part, '@', a run of letters
    | HttpUrl         // http:// or https://, a host, a path
    | PrefixedMobile  // an optional "+91" with an optional separator, then a mobile number
    | BareMobile      // a mobile number between word boundaries

  function Min(a: int, b: int): int { if a <= b then a else b }

  /** The length of the longest run of characters satisfying `f` that starts at `i`. */
  function RunLength(f: char -> bool, text: string, i: nat): (n: nat)
    requires i <= |text|
    ensures i + n <= |text|
    ensures forall k :: i <= k < i + n ==> f(text[k])
    ensures i + n == |text| || !f(text[i + n])
    decreases |text| - i
  {
    if i < |text| && f(text[i]) then 1 + RunLength(f, text, i + 1) else 0
  }

  /** A word boundary at position `j`: a word character on exactly one side. */
  predicate WordBoundary(text: string, j: nat)
    requires j <= |text|
  {
    (j > 0 && IsWordChar(text[j - 1])) != (j < |text| && IsWordChar(text[j]))
  }

  predicate StartsWithAt(text: string, i: nat, s: string)
  {
    i + |s| <= |text| && text[i..i + |s|] == s
  }

  // ---------------------------------------------------------------------------
  // Shapes: what a returned match looks like, pattern by pattern.

  ghost predicate IsAccountDigits(m: string)
  {
    AllDigits(m) && 9 <= |m| <= 18
  }

  /** `[a-zA-Z0-9._-]` */
  predicate IsLocalChar(c: char)
  {
    IsAsciiLetter(c) || IsDigit(c) || c == '.' || c == '-' || c == '_'
  }

  /** `m` is a non-empty local part, the '@' at `k`, and a non-empty run of letters. */
  ghost predicate UpiShapedAt(m: string, k: int)
  {
    0 < k < |m| - 1 && m[k] == '@'
    && (forall j :: 0 <= j < k ==> IsLocalChar(m[j]))
    && (forall j :: k < j < |m| ==> IsAsciiLetter(m[j]))
  }

  ghost predicate UpiShaped(m: string)
  {
    exists k :: UpiShapedAt(m, k)
  }

  /** A host character: a word character, a hyphen or a dot. */
  predicate IsHostChar(c: char) { c == '-' || IsWordChar(c) || c == '.' }

  /** A path character: a host character or a slash. */
  predicate IsPathChar(c: char) { c == '/' || IsHostChar(c) }

  /** A scheme, then a non-empty rest made of path characters and `%XX`
      escapes, beginning with a host character or an escape. */
  ghost predicate UrlShaped(m: string)
  {
    var s := if StartsWith(m, "https://") then 8 else 7;
    (StartsWith(m, "http://") || StartsWith(m, "https://"))
    && s < |m| && m[s] != '/'
    && (forall j :: s <= j < |m| ==> IsPathChar(m[j]) || m[j] == '%')
    && (forall j :: s <= j < |m| && m[j] == '%' ==>
          j + 2 < |m| && IsHexDigit(m[j + 1]) && IsHexDigit(m[j + 2]))
  }

  /** What may stand between "+91" and the number: a hyphen or white space. */
  predicate IsPhoneSeparator(c: char) { c == '-' || IsSpace(c) }

  ghost predicate PrefixedMobileShaped(m: string)
  {
    || IsMobile(m)
    || (|m| == 13 && StartsWith(m, "+91") && IsMobile(m[3..]))
    || (|m| == 14 && StartsWith(m, "+91") && IsPhoneSeparator(m[3]) && IsMobile(m[4..]))
  }

  ghost predicate Shaped(p: Pattern, m: string)
  {
    match p
    case AccountContext => IsAccountDigits(m)
    case BareDigits => IsAccountDigits(m)
    case UpiHandle => UpiShaped(m)
    case HttpUrl => UrlShaped(m)
    case PrefixedMobile => PrefixedMobileShaped(m)
    case BareMobile => IsMobile(m)
  }

  // ---------------------------------------------------------------------------
  // Bank accounts with context (app/services/intelligence.py:15).

  /** The alternatives of the keyword group, in the order the regex tries them. */
  const AccountKeywords: seq<string> := ["a/c", "acct", "account", "no", "number"]

  /** What may follow an account keyword: white space, a dot, a colon or a hyphen. */
  predicate IsAccountSeparator(c: char) { IsSpace(c) || c == '.' || c == ':' || c == '-' }

  /** The lower-case keyword `kw` at `i`, letters compared without case. */
  predicate KeywordAt(text: string, i: nat, kw: string)
  {
    i + |kw| <= |text| && Lower(text[i..i + |kw|]) == kw
  }

  /** The separators and the captured digits after a keyword that ends at `j`.
      The separator run is taken whole: stopping it earlier leaves a separator,
      not a digit, next. The digit count is as large as it can be up to 18,
      since nothing follows it in the pattern. */
  function AccountNumberAfter(text: string, j: nat): (r: Option<Span>)
    requires j <= |text|
    ensures r.Some? ==> j <= r.value.from < r.value.to <= |text|
                        && IsAccountDigits(text[r.value.from..r.value.to])
                        && (r.value.to == |text| || r.value.to - r.value.from == 18 || !IsDigit(text[r.value.to]))
  {
    var s := j + RunLength(IsAccountSeparator, text, j);
    var d := RunLength(IsDigit, text, s);
    if d >= 9 then Some(Span(s, s + Min(d, 18))) else None
  }

  /** The first keyword alternative that matches at `i` and is followed by an
      account number; the capture group's span. */
  function AccountMatchAt(text: string, i: nat, keywords: seq<string>): (r: Option<Span>)
    requires i <= |text|
    ensures r.Some? ==> i <= r.value.from < r.value.to <= |text|
                        && IsAccountDigits(text[r.value.from..r.value.to])
    decreases |keywords|
  {
    if keywords == [] then None
    else if KeywordAt(text, i, keywords[0]) && AccountNumberAfter(text, i + |keywords[0]|).Some? then
      AccountNumberAfter(text, i + |keywords[0]|)
    else AccountMatchAt(text, i, keywords[1..])
  }

  // ---------------------------------------------------------------------------
  // Bare digit runs (app/services/intelligence.py:16).

  /** With fewer digits than the whole run the next character is a digit and
      the word boundary fails, so only the whole run can match. */
  function BareDigitsAt(text: string, i: nat): (r: Option<Span>)
    requires i <= |text|
    ensures r.Some? ==> r.value.from == i < r.value.to <= |text|
                        && IsAccountDigits(text[i..r.value.to])
                        && (i == 0 || !IsWordChar(text[i - 1]))
                        && (r.value.to == |text| || !IsWordChar(text[r.value.to]))
  {
    var d := RunLength(IsDigit, text, i);
    if 9 <= d <= 18 && WordBoundary(text, i) && WordBoundary(text, i + d) then Some(Span(i, i + d))
    else None
  }

  // ---------------------------------------------------------------------------
  // UPI handles (app/services/intelligence.py:22).

  /** The local part is taken whole: stopping it earlier leaves a local
      character, not '@', next. The letters after '@' are taken whole. */
  function UpiMatchAt(text: string, i: nat): (r: Option<Span>)
    requires i <= |text|
    ensures r.Some? ==> r.value.from == i < r.value.to <= |text|
  {
    var l := RunLength(IsLocalChar, text, i);
    var at := i + l;
    if l > 0 && at < |text| && text[at] == '@' then
      var h := RunLength(IsAsciiLetter, text, at + 1);
      if h > 0 then Some(Span(i, at + 1 + h)) else None
    else None
  }

  lemma UpiMatchShaped(text: string, i: nat)
    requires i <= |text| && UpiMatchAt(text, i).Some?
    ensures UpiShaped(text[i..UpiMatchAt(text, i).value.to])
  {
    var l := RunLength(IsLocalChar, text, i);
    var h := RunLength(IsAsciiLetter, text, i + l + 1);
    assert UpiShapedAt(text[i..i + l + 1 + h], l);
  }

  // ---------------------------------------------------------------------------
  // Links (app/services/intelligence.py:29).

  /** 8 for "https://", 7 for "http://", 0 for neither. `s?` is tried with the
      's' first; the two cases cannot both apply. */
  function SchemeLength(text: string, i: nat): (n: nat)
    ensures n != 0 ==> i + n <= |text|
  {
    if StartsWithAt(text, i, "https://") then 8
    else if StartsWithAt(text, i, "http://") then 7
    else 0
  }

  /** The end of the greedy run of host units (a host character, or '%'
      followed by two hex digits) that starts at `j`. */
  function HostEnd(text: string, j: nat): (e: nat)
    requires j <= |text|
    ensures j <= e <= |text|
    decreases |text| - j
  {
    if j < |text| && IsHostChar(text[j]) then HostEnd(text, j + 1)
    else if j + 3 <= |text| && text[j] == '%' && IsHexDigit(text[j + 1]) && IsHexDigit(text[j + 2]) then
      HostEnd(text, j + 3)
    else j
  }

  /** The run `HostEnd` skips is host characters and `%XX` escapes. */
  lemma {:induction false} HostEndRun(text: string, j: nat)
    requires j <= |text|
    ensures forall k :: j <= k < HostEnd(text, j) ==> IsHostChar(text[k]) || text[k] == '%'
    ensures forall k :: j <= k < HostEnd(text, j) && text[k] == '%' ==>
              k + 2 < HostEnd(text, j) && IsHexDigit(text[k + 1]) && IsHexDigit(text[k + 2])
    decreases |text| - j
  {
    if j < |text| && IsHostChar(text[j]) {
      HostEndRun(text, j + 1);
    } else if j + 3 <= |text| && text[j] == '%' && IsHexDigit(text[j + 1]) && IsHexDigit(text[j + 2]) {
      HostEndRun(text, j + 3);
    }
  }

  /** At least one host unit, then the greedy path run; the path can never
      fail, so the longest host run is the one the engine keeps. */
  function UrlMatchAt(text: string, i: nat): (r: Option<Span>)
    requires i <= |text|
    ensures r.Some? ==> r.value.from == i < r.value.to <= |text|
  {
    var s := SchemeLength(text, i);
    if s == 0 then None
    else
      var h := HostEnd(text, i + s);
      if h == i + s then None
      else Some(Span(i, h + RunLength(IsPathChar, text, h)))
  }

  lemma UrlMatchShaped(text: string, i: nat)
    requires i <= |text| && UrlMatchAt(text, i).Some?
    ensures UrlShaped(text[i..UrlMatchAt(text, i).value.to])
  {
    var s := SchemeLength(text, i);
    var h := HostEnd(text, i + s);
    var e := h + RunLength(IsPathChar, text, h);
    assert UrlMatchAt(text, i).value.to == e;
    UrlShape(text, i, s, h, e);
  }

  lemma UrlShape(text: string, i: nat, s: nat, h: nat, e: nat)
    requires s == SchemeLength(text, i) != 0
    requires i + s < h == HostEnd(text, i + s) <= e <= |text|
    requires forall k :: h <= k < e ==> IsPathChar(text[k])
    ensures UrlShaped(text[i..e])
  {
    UrlScheme(text, i, s, e);
    HostEndRun(text, i + s);
    UrlRest(text, i, s, h, e);
  }

  /** The scheme `SchemeLength` found is the one the match starts with. */
  lemma UrlScheme(text: string, i: nat, s: nat, e: nat)
    requires s == SchemeLength(text, i) != 0 && i + s <= e <= |text|
    ensures StartsWith(text[i..e], "http://") || StartsWith(text[i..e], "https://")
    ensures s == if StartsWith(text[i..e], "https://") then 8 else 7
  {
    StartsWithSlice(text, i, e, "https://");
    StartsWithSlice(text, i, e, "http://");
  }

  /** A slice starting at `i` starts with `p` exactly when `p` is at `i` and
      fits in the slice. */
  lemma StartsWithSlice(text: string, i: nat, e: nat, p: string)
    requires i <= e <= |text|
    ensures StartsWith(text[i..e], p) <==> i + |p| <= e && StartsWithAt(text, i, p)
  {
    if i + |p| <= e {
      assert text[i..e][..|p|] == text[i..i + |p|];
    }
  }

  /** After the scheme: a host unit first, then path characters and escapes. */
  lemma UrlRest(text: string, i: nat, s: nat, h: nat, e: nat)
    requires i + s < h <= e <= |text|
    requires forall k :: i + s <= k < h ==> IsHostChar(text[k]) || text[k] == '%'
    requires forall k :: i + s <= k < h && text[k] == '%' ==>
               k + 2 < h && IsHexDigit(text[k + 1]) && IsHexDigit(text[k + 2])
    requires forall k :: h <= k < e ==> IsPathChar(text[k])
    ensures var m := text[i..e];
            s < |m| && m[s] != '/'
            && (forall j :: s <= j < |m| ==> IsPathChar(m[j]) || m[j] == '%')
            && (forall j :: s <= j < |m| && m[j] == '%' ==>
                  j + 2 < |m| && IsHexDigit(m[j + 1]) && IsHexDigit(m[j + 2]))
  {
    var m := text[i..e];
    assert m[s] == text[i + s];
    forall j | s <= j < |m|
      ensures IsPathChar(m[j]) || m[j] == '%'
    {
      assert m[j] == text[i + j];
    }
    forall j | s <= j < |m| && m[j] == '%'
      ensures j + 2 < |m| && IsHexDigit(m[j + 1]) && IsHexDigit(m[j + 2])
    {
      assert m[j] == text[i + j];
      assert i + j < h;
    }
  }

  // ---------------------------------------------------------------------------
  // Phone numbers (app/services/intelligence.py:34-35).

  /** A mobile number at `i`: a digit 6 to 9 and nine more digits. */
  predicate MobileAt(text: string, i: nat)
  {
    i < |text| && IsMobileLead(text[i]) && RunLength(IsDigit, text, i + 1) >= 9
  }

  lemma MobileAtShape(text: string, i: nat)
    requires MobileAt(text, i)
    ensures i + 10 <= |text| && IsMobile(text[i..i + 10])
  {
    var m := text[i..i + 10];
    forall k | 0 <= k < 10 ensures IsDigit(m[k]) {
      assert m[k] == text[i + k];
    }
  }

  /** The optional prefix is tried first, and within it the optional
      separator; without "+91" at `i` only the bare number can match. With
      "+91" at `i` dropping the prefix leaves '+', not a digit, first. */
  function PrefixedMobileAt(text: string, i: nat): (r: Option<Span>)
    requires i <= |text|
    ensures r.Some? ==> r.value.from == i < r.value.to <= |text|
  {
    if StartsWithAt(text, i, "+91") then
      if i + 3 < |text| && IsPhoneSeparator(text[i + 3]) && MobileAt(text, i + 4) then
        MobileAtShape(text, i + 4);
        Some(Span(i, i + 14))
      else if MobileAt(text, i + 3) then
        MobileAtShape(text, i + 3);
        Some(Span(i, i + 13))
      else None
    else if MobileAt(text, i) then
      MobileAtShape(text, i);
      Some(Span(i, i + 10))
    else None
  }

  lemma PrefixedMobileMatchShaped(text: string, i: nat)
    requires i <= |text| && PrefixedMobileAt(text, i).Some?
    ensures PrefixedMobileShaped(text[i..PrefixedMobileAt(text, i).value.to])
  {
    if StartsWithAt(text, i, "+91") {
      if i + 3 < |text| && IsPhoneSeparator(text[i + 3]) && MobileAt(text, i + 4) {
        MobileAtShape(text, i + 4);
        assert text[i..i + 14][4..] == text[i + 4..i + 14];
        assert text[i..i + 14][..3] == text[i..i + 3];
      } else {
        MobileAtShape(text, i + 3);
        assert text[i..i + 13][3..] == text[i + 3..i + 13];
        assert text[i..i + 13][..3] == text[i..i + 3];
      }
    } else {
      MobileAtShape(text, i);
    }
  }

  /** With a word boundary on both sides: `text[i..i+10]` is a whole mobile number. */
  function BareMobileAt(text: string, i: nat): (r: Option<Span>)
    requires i <= |text|
    ensures r.Some? ==> r.value.from == i && r.value.to == i + 10 <= |text| && IsMobile(text[i..i + 10])
                        && (i == 0 || !IsWordChar(text[i - 1]))
                        && (i + 10 == |text| || !IsWordChar(text[i + 10]))
  {
    if MobileAt(text, i) then
      MobileAtShape(text, i);
      if WordBoundary(text, i) && WordBoundary(text, i + 10) then Some(Span(i, i + 10)) else None
    else None
  }

  // ---------------------------------------------------------------------------
  // findall

  /** The match of pattern `p` at position `i`, if any. */
  function MatchAt(p: Pattern, text: string, i: nat): (r: Option<Span>)
    requires i <= |text|
    ensures r.Some? ==> i <= r.value.from < r.value.to <= |text|
  {
    match p
    case AccountContext => AccountMatchAt(text, i, AccountKeywords)
    case BareDigits => BareDigitsAt(text, i)
    case UpiHandle => UpiMatchAt(text, i)
    case HttpUrl => UrlMatchAt(text, i)
    case PrefixedMobile => PrefixedMobileAt(text, i)
    case BareMobile => BareMobileAt(text, i)
  }

  /** The matches found from `pos` on: leftmost first, resuming after each
      match, so they come in text order and never overlap. */
  function Scan(p: Pattern, text: string, pos: nat): (spans: seq<Span>)
    requires pos <= |text|
    ensures forall k :: 0 <= k < |spans| ==> pos <= spans[k].from < spans[k].to <= |text|
    ensures forall k :: 0 < k < |spans| ==> spans[k - 1].to <= spans[k].from
    decreases |text| - pos
  {
    if pos == |text| then []
    else
      match MatchAt(p, text, pos)
      case None => Scan(p, text, pos + 1)
      case Some(sp) => [sp] + Scan(p, text, sp.to)
  }

  /** A position where the pattern does not match is passed over. */
  lemma ScanStep(p: Pattern, text: string, pos: nat)
    requires pos < |text| && MatchAt(p, text, pos) == None
    ensures Scan(p, text, pos) == Scan(p, text, pos + 1)
  {
  }

  /** The pattern matches at none of the positions `lo` to `hi - 1`. */
  ghost predicate NoMatchBetween(p: Pattern, text: string, lo: nat, hi: nat)
    requires lo <= hi <= |text|
    decreases hi - lo
  {
    lo == hi || (MatchAt(p, text, lo) == None && NoMatchBetween(p, text, lo + 1, hi))
  }

  lemma {:induction false} NoMatchBetweenAll(p: Pattern, text: string, lo: nat, hi: nat)
    requires lo <= hi <= |text|
    requires forall i :: lo <= i < hi ==> MatchAt(p, text, i) == None
    ensures NoMatchBetween(p, text, lo, hi)
    decreases hi - lo
  {
    if lo < hi {
      NoMatchBetweenAll(p, text, lo + 1, hi);
    }
  }

  lemma {:induction false} ScanSkipBetween(p: Pattern, text: string, lo: nat, hi: nat)
    requires lo <= hi <= |text|
    requires NoMatchBetween(p, text, lo, hi)
    ensures Scan(p, text, lo) == Scan(p, text, hi)
    decreases hi - lo
  {
    if lo < hi {
      ScanStep(p, text, lo);
      ScanSkipBetween(p, text, lo + 1, hi);
    }
  }

  /** Positions where the pattern does not match are passed over one by one. */
  lemma ScanSkip(p: Pattern, text: string, lo: nat, hi: nat)
    requires lo <= hi <= |text|
    requires forall i :: lo <= i < hi ==> MatchAt(p, text, i) == None
    ensures Scan(p, text, lo) == Scan(p, text, hi)
  {
    NoMatchBetweenAll(p, text, lo, hi);
    ScanSkipBetween(p, text, lo, hi);
  }

  /** The strings the spans cover. */
  function Slices(text: string, spans: seq<Span>): (ms: seq<string>)
    requires forall k :: 0 <= k < |spans| ==> spans[k].from <= spans[k].to <= |text|
    ensures |ms| == |spans|
    ensures forall k :: 0 <= k < |spans| ==> ms[k] == text[spans[k].from..spans[k].to]
  {
    if spans == [] then [] else [text[spans[0].from..spans[0].to]] + Slices(text, spans[1..])
  }

  /** The match at `i` has the shape of its pattern. */
  lemma MatchAtShaped(p: Pattern, text: string, i: nat)
    requires i <= |text| && MatchAt(p, text, i).Some?
    ensures Shaped(p, text[MatchAt(p, text, i).value.from..MatchAt(p, text, i).value.to])
  {
    match p
    case UpiHandle => UpiMatchShaped(text, i);
    case HttpUrl => UrlMatchShaped(text, i);
    case PrefixedMobile => PrefixedMobileMatchShaped(text, i);
    case _ =>
  }

  /** Every span the scan finds has the shape of its pattern. */
  lemma {:induction false} ScanShaped(p: Pattern, text: string, pos: nat)
    requires pos <= |text|
    ensures forall sp :: sp in Scan(p, text, pos) ==> Shaped(p, text[sp.from..sp.to])
    decreases |text| - pos
  {
    if pos < |text| {
      match MatchAt(p, text, pos)
      case None => ScanShaped(p, text, pos + 1);
      case Some(sp) =>
        MatchAtShaped(p, text, pos);
        ScanShaped(p, text, sp.to);
    }
  }

  /** What Python's findall returns for pattern `p` on `text`. */
  function FindAll(p: Pattern, text: string): seq<string>
  {
    Slices(text, Scan(p, text, 0))
  }

  /** Every match `findall` returns has the shape of its pattern. */
  lemma FindAllShaped(p: Pattern, text: string)
    ensures forall m :: m in FindAll(p, text) ==> Shaped(p, m)
  {
    ScanShaped(p, text, 0);
    var spans := Scan(p, text, 0);
    forall m | m in FindAll(p, text)
      ensures Shaped(p, m)
    {
      var k :| 0 <= k < |spans| && FindAll(p, text)[k] == m;
      assert spans[k] in spans;
    }
  }
}
