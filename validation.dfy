/**
 * Checking and cleaning the query parameters of the two routes: the `created`
 * date filter, the `page` number and the `language` name.
 */
module SearchValidation {
  import opened Wrappers
  import opened JsBuiltins
  import opened ApiErrors

  const INVALID_CREATED_MESSAGE: string :=
    "Invalid 'created' parameter. Must be in 'yyyy-mm-dd' format, or a range like '>yyyy-mm-dd', '<yyyy-mm-dd', or 'yyyy-mm-dd..yyyy-mm-dd'."
  const INVALID_PAGE_MESSAGE: string := "Invalid 'page' parameter. Must be a positive number."

  // ---------------------------------------------------------------------------
  // created: ^([<>]=?)?(\d{4}-\d{2}-\d{2})(\.\.(\d{4}-\d{2}-\d{2}))?$
  // ---------------------------------------------------------------------------

  /** `\d{4}-\d{2}-\d{2}`: only the shape of a date, not whether it exists. */
  predicate IsDate(d: string)
  {
    |d| == 10 && AllDigits(d[..4]) && d[4] == '-' && AllDigits(d[5..7]) && d[7] == '-' && AllDigits(d[8..])
  }

  /** The length of the comparison prefix `([<>]=?)?` at the start of `s` (matched greedily). */
  function ComparatorLength(s: string): (n: nat)
    ensures n <= 2 && n <= |s|
  {
    if |s| >= 1 && (s[0] == '<' || s[0] == '>') then
      if |s| >= 2 && s[1] == '=' then 2 else 1
    else 0
  }

  /** The recogniser: prefix, one date, and optionally `..` and a second date, nothing else. */
  predicate MatchesCreated(s: string)
  {
    var t := s[ComparatorLength(s)..];
    (|t| == 10 && IsDate(t))
    || (|t| == 22 && IsDate(t[..10]) && t[10] == '.' && t[11] == '.' && IsDate(t[12..]))
  }

  // The language of the pattern, written as a concatenation of its three parts.

  predicate IsComparator(p: string)
  {
    p == "" || p == "<" || p == ">" || p == "<=" || p == ">="
  }

  predicate IsRangeEnd(r: string)
  {
    r == "" || (|r| == 12 && r[..2] == ".." && IsDate(r[2..]))
  }

  ghost predicate InCreatedLanguage(s: string)
  {
    exists pre, date, rest :: IsComparator(pre) && IsDate(date) && IsRangeEnd(rest) && s == pre + date + rest
  }

  lemma {:induction false} ComparatorLengthOf(pre: string, t: string)
    requires IsComparator(pre) && t != [] && IsDigit(t[0])
    ensures ComparatorLength(pre + t) == |pre|
  {
    var s := pre + t;
    if |pre| == 0 {
      assert s == t;
    } else if |pre| == 1 {
      assert s[0] == pre[0] && s[1] == t[0];
    } else {
      assert s[0] == pre[0] && s[1] == pre[1];
    }
  }

  /** Everything the recogniser accepts is in the pattern's language. */
  lemma {:induction false} MatchesCreatedSound(s: string)
    requires MatchesCreated(s)
    ensures InCreatedLanguage(s)
  {
    var p := ComparatorLength(s);
    var pre, t := s[..p], s[p..];
    assert IsComparator(pre);
    var date, rest := t[..10], t[10..];
    if |t| == 10 { assert date == t; }
    assert IsDate(date);
    if |t| == 22 {
      assert rest[..2] == ".." && rest[2..] == t[12..];
    } else {
      assert rest == "";
    }
    assert IsRangeEnd(rest);
    assert s == pre + date + rest;
  }

  /** Everything in the pattern's language is accepted by the recogniser. */
  lemma {:induction false} MatchesCreatedComplete(s: string)
    requires InCreatedLanguage(s)
    ensures MatchesCreated(s)
  {
    var pre, date, rest :| IsComparator(pre) && IsDate(date) && IsRangeEnd(rest) && s == pre + date + rest;
    assert AllDigits(date[..4]) && date[..4][0] == date[0];
    ComparatorLengthOf(pre, date + rest);
    assert s == pre + (date + rest);
    var t := s[|pre|..];
    assert t == date + rest;
    assert t[..10] == date;
    if rest != "" {
      assert |t| == 22;
      assert t[12..] == rest[2..];
      assert t[10] == rest[..2][0] && t[11] == rest[..2][1];
      assert IsDate(t[..10]) && IsDate(t[12..]);
    } else {
      assert t == date;
    }
  }

  /** The recogniser accepts exactly the strings the pattern matches. */
  lemma MatchesCreatedCorrect(s: string)
    ensures MatchesCreated(s) <==> InCreatedLanguage(s)
  {
    if MatchesCreated(s) {
      MatchesCreatedSound(s);
    }
    if InCreatedLanguage(s) {
      MatchesCreatedComplete(s);
    }
  }

  /** `validateCreatedFormat(created)`: nothing to check when absent; a non-matching value throws. */
  function ValidateCreatedFormat(created: Option<string>): (r: Result<(), ApiError>)
    ensures r.Success? <==> (created.None? || InCreatedLanguage(created.value))
    ensures r.Failure? ==> r.error == BadRequestError(Some(INVALID_CREATED_MESSAGE), None)
  {
    if created.Some? && !MatchesCreated(created.value) then
      MatchesCreatedCorrect(created.value);
      Failure(BadRequestError(Some(INVALID_CREATED_MESSAGE), None))
    else
      if created.Some? then MatchesCreatedCorrect(created.value); Success(())
      else Success(())
  }

  /** A date in the exact `yyyy-mm-dd` shape. */
  lemma IsDateExample(d: string)
    requires |d| == 10 && d[4] == '-' && d[7] == '-'
    requires forall i :: 0 <= i < 10 && i != 4 && i != 7 ==> IsDigit(d[i])
    ensures IsDate(d)
  {
    assert forall i :: 0 <= i < 4 ==> d[..4][i] == d[i];
    assert forall i :: 0 <= i < 2 ==> d[5..7][i] == d[i + 5] && d[8..][i] == d[i + 8];
  }

  /** A comparison prefix followed by a date is accepted. */
  lemma AcceptedSingleDate(pre: string, date: string)
    requires IsComparator(pre) && IsDate(date)
    ensures ValidateCreatedFormat(Some(pre + date)).Success?
  {
    assert pre + date == pre + date + "";
  }

  lemma AcceptedAbsentExample()
    ensures ValidateCreatedFormat(None).Success?
  {
  }

  lemma AcceptedDateExample()
    ensures ValidateCreatedFormat(Some("2023-01-15")).Success?
  {
    IsDateExample("2023-01-15");
    AcceptedSingleDate("", "2023-01-15");
    assert "" + "2023-01-15" == "2023-01-15";
  }

  /** Only the digit shape is checked: month 99 and day 99 pass. */
  lemma AcceptedImpossibleDateExample()
    ensures ValidateCreatedFormat(Some("2023-99-99")).Success?
  {
    IsDateExample("2023-99-99");
    AcceptedSingleDate("", "2023-99-99");
    assert "" + "2023-99-99" == "2023-99-99";
  }

  lemma AcceptedGreaterExample()
    ensures ValidateCreatedFormat(Some(">2023-01-15")).Success?
  {
    var s := ">2023-01-15";
    assert s[1..] == "2023-01-15";
    IsDateExample(s[1..]);
    assert MatchesCreated(s);
    MatchesCreatedSound(s);
  }

  lemma AcceptedLessExample()
    ensures ValidateCreatedFormat(Some("<2023-01-15")).Success?
  {
    var s := "<2023-01-15";
    assert s[1..] == "2023-01-15";
    IsDateExample(s[1..]);
    assert MatchesCreated(s);
    MatchesCreatedSound(s);
  }

  lemma AcceptedAtMostExample()
    ensures ValidateCreatedFormat(Some("<=2023-01-15")).Success?
  {
    var s := "<=2023-01-15";
    assert s[2..] == "2023-01-15";
    IsDateExample(s[2..]);
    assert MatchesCreated(s);
    MatchesCreatedSound(s);
  }

  /** A closed range `from..to` is accepted. */
  lemma AcceptedRangeExample()
    ensures ValidateCreatedFormat(Some("2023-01-15..2023-01-30")).Success?
  {
    IsDateExample("2023-01-15");
    IsDateExample("2023-01-30");
    var r := "2023-01-15..2023-01-30";
    assert r == "" + "2023-01-15" + "..2023-01-30";
    assert "..2023-01-30"[2..] == "2023-01-30";
    assert IsRangeEnd("..2023-01-30");
    assert IsComparator("");
    assert InCreatedLanguage(r);
  }

  lemma RejectedSlashesExample()
    ensures ValidateCreatedFormat(Some("2023/01/15")).Failure?
  {
  }

  lemma RejectedWordExample()
    ensures ValidateCreatedFormat(Some("invalid-date")).Failure?
  {
  }

  /** Months and days must have two digits. */
  lemma RejectedShortFieldsExample()
    ensures ValidateCreatedFormat(Some("2023-1-1")).Failure?
  {
  }

  /** `=>` is not a comparison prefix. */
  lemma RejectedReversedPrefixExample()
    ensures ValidateCreatedFormat(Some("=>2023-01-15")).Failure?
  {
  }

  /** Both ends of a range are checked. */
  lemma RejectedRangeEndExample()
    ensures ValidateCreatedFormat(Some("2023-01-15..2023/01/30")).Failure?
  {
    var r := "2023-01-15..2023/01/30";
    assert r[12..][4] == '/';
  }

  // ---------------------------------------------------------------------------
  // page
  // ---------------------------------------------------------------------------

  /** `validatePageNumberFormat(page)`: absent stays absent; otherwise parseInt must give a positive number. */
  function ValidatePageNumberFormat(page: Option<string>): (r: Result<Option<int>, ApiError>)
    ensures page.None? ==> r == Success(None)
    ensures page.Some? ==> (r.Success? <==> ParseInt(page.value).Some? && ParseInt(page.value).value > 0)
    ensures page.Some? && r.Success? ==> r.value == ParseInt(page.value) && r.value.value >= 1
    ensures r.Failure? ==> r.error == BadRequestError(Some(INVALID_PAGE_MESSAGE), None)
  {
    if page.None? then Success(None)
    else
      var pageNum := ParseInt(page.value);
      if pageNum.None? || pageNum.value <= 0 then Failure(BadRequestError(Some(INVALID_PAGE_MESSAGE), None))
      else Success(pageNum)
  }

  /** The numeral of any positive number is accepted as that page, whatever non-digit text follows. */
  lemma PageNumberRoundTrip(n: nat, rest: string)
    requires n >= 1 && (rest == [] || !IsDigit(rest[0]))
    ensures ValidatePageNumberFormat(Some(NatToString(n) + rest)) == Success(Some(n))
  {
    ParseIntOfNumeral(n, rest);
  }

  /** Zero and negative numbers are refused. */
  lemma PageNumberNotPositive(n: nat)
    ensures ValidatePageNumberFormat(Some(NatToString(n))).Failure? <==> n == 0
    ensures ValidatePageNumberFormat(Some("-" + NatToString(n))).Failure?
  {
    ParseIntOfNumeral(n, "");
    assert NatToString(n) + "" == NatToString(n);
    ParseIntOfNegativeNumeral(n, "");
    assert "-" + NatToString(n) + "" == "-" + NatToString(n);
  }

  lemma AcceptedAbsentPageExample()
    ensures ValidatePageNumberFormat(None) == Success(None)
  {
  }

  lemma AcceptedFirstPageExample()
    ensures ValidatePageNumberFormat(Some("1")) == Success(Some(1))
  {
    PageNumberRoundTrip(1, "");
    assert NatToString(1) + "" == "1";
  }

  lemma AcceptedHundredthPageExample()
    ensures ValidatePageNumberFormat(Some("100")) == Success(Some(100))
  {
    assert NatToString(10) == "10";
    PageNumberRoundTrip(100, "");
    assert NatToString(100) + "" == "100";
  }

  /** parseInt stops at the decimal point, so "1.5" selects page 1. */
  lemma DecimalPageExample()
    ensures ValidatePageNumberFormat(Some("1.5")) == Success(Some(1))
  {
    assert NatToString(1) == "1";
    PageNumberRoundTrip(1, ".5");
    assert NatToString(1) + ".5" == "1.5";
  }

  /** Page zero is refused. */
  lemma RejectedZeroExample()
    ensures ValidatePageNumberFormat(Some("0")).Failure?
  {
    PageNumberNotPositive(0);
    assert NatToString(0) == "0";
  }

  /** A negative page is refused. */
  lemma RejectedNegativeExample()
    ensures ValidatePageNumberFormat(Some("-5")).Failure?
  {
    var s := "-5";
    assert !IsJsWhitespace(s[0]);
    assert TrimStart(s) == s;
    var digits := s[1..];
    assert digits == "5" && digits[1..] == [];
    assert LeadingDigits(digits) == digits;
    assert DecimalValue(digits) == 5;
    assert ParseInt(s) == Some(-5);
  }

  /** Text that is not a number is refused. */
  lemma RejectedTextExample()
    ensures ValidatePageNumberFormat(Some("abc")).Failure?
  {
    ParseIntNaN("abc");
  }

  // ---------------------------------------------------------------------------
  // language: remove every character outside [a-zA-Z0-9\s+#-]
  // ---------------------------------------------------------------------------

  predicate IsLanguageChar(c: char)
  {
    ('a' <= c <= 'z') || ('A' <= c <= 'Z') || IsDigit(c) || IsJsWhitespace(c) || c == '+' || c == '#' || c == '-'
  }

  predicate AllLanguageChars(s: string)
  {
    forall i :: 0 <= i < |s| ==> IsLanguageChar(s[i])
  }

  /** `s.replace(/[^a-zA-Z0-9\s+#-]/g, "")`. */
  function StripDisallowed(s: string): (r: string)
    ensures |r| <= |s|
  {
    if s == [] then []
    else (if IsLanguageChar(s[0]) then [s[0]] else []) + StripDisallowed(s[1..])
  }

  /** `sanitizeLanguage(language)`. */
  function SanitizeLanguage(language: Option<string>): (r: Option<string>)
    ensures r.None? <==> language.None?
    ensures r.Some? ==> AllLanguageChars(r.value)
  {
    if language.None? then None
    else
      StripKeepsAllowed(language.value);
      Some(StripDisallowed(language.value))
  }

  /** Only whitelisted characters survive the filter. */
  lemma {:induction false} StripKeepsAllowed(s: string)
    ensures AllLanguageChars(StripDisallowed(s))
  {
    if s != [] {
      StripKeepsAllowed(s[1..]);
    }
  }

  /** Filtering works piecewise: what is kept of a concatenation is what is kept of each part. */
  lemma {:induction false} StripConcat(a: string, b: string)
    ensures StripDisallowed(a + b) == StripDisallowed(a) + StripDisallowed(b)
  {
    if a != [] {
      assert (a + b)[1..] == a[1..] + b;
      StripConcat(a[1..], b);
    } else {
      assert a + b == b;
    }
  }

  /** A single character is kept exactly when it is whitelisted. */
  lemma StripChar(c: char)
    ensures StripDisallowed([c]) == if IsLanguageChar(c) then [c] else []
  {
    assert [c][1..] == [];
  }

  /** The filter leaves a string unchanged exactly when every character of it is whitelisted. */
  lemma {:induction false} StripIdentity(s: string)
    ensures StripDisallowed(s) == s <==> AllLanguageChars(s)
  {
    if s != [] {
      StripIdentity(s[1..]);
      if !IsLanguageChar(s[0]) {
        assert |StripDisallowed(s)| < |s|;
      } else if AllLanguageChars(s) {
        assert AllLanguageChars(s[1..]);
      } else {
        assert !AllLanguageChars(s[1..]) by {
          if AllLanguageChars(s[1..]) {
            forall i | 0 <= i < |s| ensures IsLanguageChar(s[i]) {
              if i > 0 { assert s[i] == s[1..][i - 1]; }
            }
          }
        }
      }
    }
  }

  /** Sanitising twice is sanitising once. */
  lemma SanitizeIdempotent(language: Option<string>)
    ensures SanitizeLanguage(SanitizeLanguage(language)) == SanitizeLanguage(language)
  {
    if language.Some? {
      StripKeepsAllowed(language.value);
      StripIdentity(StripDisallowed(language.value));
    }
  }

  /** A string that is entirely whitelisted comes back as it was. */
  lemma {:induction false} KeptWhenAllowed(s: string)
    requires AllLanguageChars(s)
    ensures SanitizeLanguage(Some(s)) == Some(s)
  {
    StripIdentity(s);
  }

  /** A disallowed character at the end adds nothing to what is kept. */
  lemma {:induction false} DroppedLast(x: string, c: char)
    requires !IsLanguageChar(c)
    ensures StripDisallowed(x + [c]) == StripDisallowed(x)
  {
    StripConcat(x, [c]);
    StripChar(c);
    assert StripDisallowed(x) + [] == StripDisallowed(x);
  }

  /** A disallowed character followed by whitelisted text: the character goes, the text stays. */
  lemma {:induction false} DroppedBefore(x: string, c: char, b: string)
    requires !IsLanguageChar(c) && AllLanguageChars(b)
    ensures StripDisallowed(x + [c] + b) == StripDisallowed(x) + b
  {
    StripConcat(x + [c], b);
    DroppedLast(x, c);
    StripIdentity(b);
  }

  /** One disallowed character between two whitelisted strings is removed and nothing else is. */
  lemma {:induction false} DroppedBetween(a: string, c: char, b: string)
    requires AllLanguageChars(a) && AllLanguageChars(b) && !IsLanguageChar(c)
    ensures StripDisallowed(a + [c] + b) == a + b
  {
    StripIdentity(a);
    DroppedBefore(a, c, b);
  }

  /** Two disallowed characters among whitelisted text are removed and the text around them is kept, in order. */
  lemma {:induction false} TwoDropped(a: string, c1: char, b: string, c2: char, d: string)
    requires AllLanguageChars(a) && AllLanguageChars(b) && AllLanguageChars(d)
    requires !IsLanguageChar(c1) && !IsLanguageChar(c2)
    ensures SanitizeLanguage(Some(a + [c1] + b + [c2] + d)) == Some(a + b + d)
  {
    DroppedBetween(a, c1, b);
    DroppedBefore(a + [c1] + b, c2, d);
  }

  lemma SanitizeAbsentExample()
    ensures SanitizeLanguage(None) == None
  {
  }

  lemma SanitizeSymbolsExample()
    ensures SanitizeLanguage(Some("C++")) == Some("C++")
    ensures SanitizeLanguage(Some("C#")) == Some("C#")
    ensures SanitizeLanguage(Some("F#")) == Some("F#")
  {
    KeptWhenAllowed("C++");
    KeptWhenAllowed("C#");
    KeptWhenAllowed("F#");
  }

  lemma SanitizeWordExample()
    ensures SanitizeLanguage(Some("typescript")) == Some("typescript")
  {
    KeptWhenAllowed("typescript");
  }

  lemma SanitizeHyphenExample()
    ensures SanitizeLanguage(Some("Objective-C")) == Some("Objective-C")
  {
    KeptWhenAllowed("Objective-C");
  }

  lemma SanitizeSpaceExample()
    ensures SanitizeLanguage(Some("Type Script")) == Some("Type Script")
  {
    KeptWhenAllowed("Type Script");
  }

  /** `python; DROP TABLE users;` loses its two semicolons. */
  lemma SanitizeInjectionExample()
    ensures SanitizeLanguage(Some("python" + [';'] + " DROP TABLE users" + [';'] + ""))
         == Some("python" + " DROP TABLE users" + "")
  {
    TwoDropped("python", ';', " DROP TABLE users", ';', "");
  }

  /** `javascript' OR 1=1--` loses the quote and the equals sign. */
  lemma SanitizeQuoteExample()
    ensures SanitizeLanguage(Some("javascript" + ['\''] + " OR 1" + ['='] + "1--"))
         == Some("javascript" + " OR 1" + "1--")
  {
    TwoDropped("javascript", '\'', " OR 1", '=', "1--");
  }

  /** Three disallowed characters, each followed by whitelisted text: only the characters go. */
  lemma {:induction false} ThreeDropped(a: string, c1: char, b: string, c2: char, c: string, c3: char, d: string)
    requires AllLanguageChars(a) && AllLanguageChars(b) && AllLanguageChars(c) && AllLanguageChars(d)
    requires !IsLanguageChar(c1) && !IsLanguageChar(c2) && !IsLanguageChar(c3)
    ensures StripDisallowed(a + [c1] + b + [c2] + c + [c3] + d) == a + b + c + d
  {
    StripIdentity(a);
    DroppedBefore(a, c1, b);
    DroppedBefore(a + [c1] + b, c2, c);
    DroppedBefore(a + [c1] + b + [c2] + c, c3, d);
  }

  /** Text wrapped in a markup tag pair and a call: the brackets, parentheses and slash go, the text stays in order. */
  lemma {:induction false} MarkupDropped(a: string, b: string, c: string, d: string, e: string)
    requires AllLanguageChars(a) && AllLanguageChars(b) && AllLanguageChars(c)
    requires AllLanguageChars(d) && AllLanguageChars(e)
    ensures SanitizeLanguage(Some(a + ['<'] + b + ['>'] + c + ['('] + d + [')'] + ['<'] + ['/'] + e + ['>']))
         == Some(a + b + c + d + e)
  {
    var s3 := a + ['<'] + b + ['>'] + c + ['('] + d;
    ThreeDropped(a, '<', b, '>', c, '(', d);
    DroppedLast(s3, ')');
    DroppedLast(s3 + [')'], '<');
    DroppedBefore(s3 + [')'] + ['<'], '/', e);
    DroppedLast(s3 + [')'] + ['<'] + ['/'] + e, '>');
  }

  /** `java<script>alert(1)</script>` becomes `javascriptalert1script`. */
  lemma SanitizeMarkupExample()
    ensures SanitizeLanguage(Some("java" + ['<'] + "script" + ['>'] + "alert" + ['('] + "1" + [')']
                                  + ['<'] + ['/'] + "script" + ['>']))
         == Some("java" + "script" + "alert" + "1" + "script")
  {
    MarkupDropped("java", "script", "alert", "1", "script");
  }
}
