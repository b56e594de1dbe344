/** The four patterns at their limits: the shortest texts they match, and what just misses them. */
module RedactionPatterns {
  import opened Redaction
  import opened TargetRedaction
  import opened Text
  import opened Wrappers

  // ---- Phone numbers ----

  predicate Digits(t: Charset, s: string) { forall k :: 0 <= k < |s| ==> t.digit(s[k]) }

  /** Digits are a phone number from eight on. */
  lemma DigitsArePhoneIff(t: Charset, s: string)
    requires t.Standard() && Digits(t, s)
    ensures Clean(t, Phone, s) <==> |s| < 8
  {
    if |s| >= 8 {
      assert PhoneParts(t, s, 0, 0, |s|);
      assert Matches(t, Phone, s, 0, |s|);
    }
  }

  predicate Separators(t: Charset, s: string) {
    forall k :: 0 <= k < |s| ==> t.digit(s[k]) || t.space(s[k]) || s[k] in {'(', ')', '.', '-'}
  }

  /** Between its first and its last digit a phone number may hold six or more digits, blanks, parentheses, dots and
      dashes, and it takes a plus sign before it along. */
  lemma PhoneTakesSeparators(t: Charset, first: char, middle: string, last: char)
    requires t.Standard() && t.digit(first) && t.digit(last) && Separators(t, middle) && |middle| >= 6
    ensures MatchEnd(t, Phone, "+" + [first] + middle + [last], 0) == Some(|middle| + 3)
    ensures MatchEnd(t, Phone, [first] + middle + [last], 0) == Some(|middle| + 2)
  {
    PhoneSpans(t, [first] + middle + [last], first, middle, last, 0);
    PhoneSpans(t, "+" + [first] + middle + [last], first, middle, last, 1);
  }

  lemma PhoneSpans(t: Charset, s: string, first: char, middle: string, last: char, i: nat)
    requires t.Standard() && t.digit(first) && t.digit(last) && Separators(t, middle) && |middle| >= 6
    requires s == (if i == 0 then "" else "+") + [first] + middle + [last] && i <= 1
    ensures MatchEnd(t, Phone, s, 0) == Some(|s|)
  {
    assert |s| == i + |middle| + 2 && s[i] == first && s[|s| - 1] == last;
    assert forall x :: i + 1 <= x < |s| - 1 ==> s[x] == middle[x - i - 1];
    assert PhoneParts(t, s, 0, i, |s|);
    MatcherIsGreedy(t, Phone, s, 0, |s|);
    MatcherIsSound(t, Phone, s, 0);
  }

  // ---- E-mail addresses ----

  predicate LabelText(t: Charset, s: string) { s != "" && forall k :: 0 <= k < |s| ==> t.word(s[k]) || s[k] == '-' }

  predicate LocalText(t: Charset, s: string) {
    s != "" && forall k :: 0 <= k < |s| ==> t.word(s[k]) || s[k] == '-' || s[k] == '.' || s[k] == '+'
  }

  /** A local part, an at sign and two labels with a dot between them are one e-mail address. */
  lemma TwoLabelsAreEmail(t: Charset, local: string, host: string, top: string)
    requires t.Standard() && LocalText(t, local) && LabelText(t, host) && LabelText(t, top)
    ensures var s := local + "@" + host + "." + top; MatchEnd(t, Email, s, 0) == Some(|s|)
  {
    var s, at, dot := local + "@" + host + "." + top, |local|, |local| + 1 + |host|;
    assert forall x :: 0 <= x < at ==> s[x] == local[x];
    assert forall x :: at + 1 <= x < dot ==> s[x] == host[x - at - 1];
    assert forall x :: dot + 1 <= x < |s| ==> s[x] == top[x - dot - 1];
    assert s[at] == '@' && s[dot] == '.' && |s| == dot + 1 + |top|;
    assert forall x :: dot <= x < |s| ==> DottedAt(t, s, x, |s|);
    assert EmailParts(t, s, 0, at, dot, |s|);
    MatcherIsGreedy(t, Email, s, 0, |s|);
    MatcherIsSound(t, Email, s, 0);
  }

  /** Without an at sign followed by a dot there is none. */
  lemma EmailNeedsAtAndDot(t: Charset, s: string)
    requires forall x, y :: 0 <= x < y < |s| ==> s[x] != '@' || s[y] != '.'
    ensures Clean(t, Email, s)
  {
  }

  /** Nor is there one in a host that begins with a dot. */
  lemma EmailNeedsHost(t: Charset, local: string, rest: string)
    requires t.Standard() && forall x :: 0 <= x < |local| ==> local[x] != '@'
    requires forall x :: 0 <= x < |rest| ==> rest[x] != '@'
    ensures Clean(t, Email, local + "@." + rest)
  {
    var s := local + "@." + rest;
    assert forall x :: 0 <= x < |s| && s[x] == '@' ==> x == |local|;
    assert s[|local| + 1] == '.';
  }

  // ---- URLs ----

  predicate Visible(t: Charset, s: string) { s != "" && forall k :: 0 <= k < |s| ==> !t.space(s[k]) }

  /** A scheme, in whatever case, and one visible character or more are a URL. */
  lemma SchemeAndMoreIsUrl(t: Charset, scheme: string, rest: string)
    requires scheme in {"http://", "https://", "HTTP://", "HTTPS://"} && Visible(t, rest)
    ensures MatchEnd(t, Url, scheme + rest, 0) == Some(|scheme + rest|)
  {
    var s := scheme + rest;
    assert forall x :: |scheme| <= x < |s| ==> s[x] == rest[x - |scheme|];
    assert forall x :: 0 <= x < |scheme| ==> s[x] == scheme[x];
    assert Scheme(s, 0, |scheme|);
    assert Matches(t, Url, s, 0, |s|);
    UrlIsGreedy(t, s, 0, |s|);
    MatcherIsSound(t, Url, s, 0);
  }

  /** A scheme alone, or one with a blank behind it, is none. */
  lemma UrlNeedsMore(t: Charset, scheme: string, rest: string)
    requires t.Standard() && scheme in {"http://", "https://"}
    requires rest == "" || t.space(rest[0])
    ensures MatchEnd(t, Url, scheme + rest, 0).None?
  {
    var s := scheme + rest;
    assert forall x :: 0 <= x < |scheme| ==> s[x] == scheme[x];
    if rest != "" { assert s[|scheme|] == rest[0]; }
  }

  /** Without a colon followed by a slash there is none either. */
  lemma UrlNeedsColonAndSlash(t: Charset, s: string)
    requires forall x, y :: 0 <= x < y < |s| ==> s[x] != ':' || s[y] != '/'
    ensures Clean(t, Url, s)
  {
  }

  // ---- CPF numbers ----

  lemma CpfSub(t: Charset, s: string)
    requires t.Standard()
    requires s == "123.456.789-01 5"
    ensures Sub(t, Cpf, s) == "[redacted] 5"
  {
    assert s == ['1', '2', '3', '.', '4', '5', '6', '.', '7', '8', '9', '-', '0', '1', ' ', '5'];
    var ends := Table(t, Cpf, s);
    assert CpfAt(t, s, 0);
    assert ends[0] == Some(14) && ends[14].None? && ends[15].None?;
    assert Scan(s, ends, 16) == "";
    assert Scan(s, ends, 15) == [s[15]] + "";
    assert Scan(s, ends, 14) == [s[14]] + ([s[15]] + "");
    assert Scan(s, ends, 0) == REDACTED + ([s[14]] + ([s[15]] + ""));
  }

  lemma ShortIsKept(t: Charset, out: string)
    requires t.Standard() && out == "[redacted] 5"
    ensures Sub(t, Phone, out) == out && Sub(t, Url, out) == out
  {
    assert out == ['[', 'r', 'e', 'd', 'a', 'c', 't', 'e', 'd', ']', ' ', '5'];
    assert forall x :: 0 <= x < 11 ==> !t.digit(out[x]);
    SubOfCleanIsIdentity(t, Phone, out);
    UrlNeedsColonAndSlash(t, out);
    SubOfCleanIsIdentity(t, Url, out);
  }

  lemma OnlyCpfsInside(t: Charset, s: string, out: string)
    requires s != "" && Clean(t, Email, s) && Sub(t, Cpf, s) == out && Sub(t, Phone, out) == out
    requires Sub(t, Url, out) == out
    ensures SanitizeText(t, s, "") == out
  {
    assert Strip(t.space, "") == "";
    SubOfCleanIsIdentity(t, Literal(""), s);
    SubOfCleanIsIdentity(t, Email, s);
  }

  /** The CPF pattern goes first; the phone pattern alone would take the digit behind it along. */
  lemma CpfGoesFirst(t: Charset, s: string)
    requires t.Standard()
    requires s == "123.456.789-01 5"
    ensures SanitizeText(t, s, "") == "[redacted] 5"
    ensures MatchEnd(t, Phone, s, 0) == Some(|s|)
  {
    assert s == ['1', '2', '3', '.', '4', '5', '6', '.', '7', '8', '9', '-', '0', '1', ' ', '5'];
    EmailNeedsAtAndDot(t, s);
    CpfSub(t, s);
    ShortIsKept(t, "[redacted] 5");
    OnlyCpfsInside(t, s, "[redacted] 5");
    PhoneTakesAll(t, s);
  }

  lemma PhoneTakesAll(t: Charset, s: string)
    requires t.Standard()
    requires s == "123.456.789-01 5"
    ensures MatchEnd(t, Phone, s, 0) == Some(|s|)
  {
    assert s == ['1', '2', '3', '.', '4', '5', '6', '.', '7', '8', '9', '-', '0', '1', ' ', '5'];
    assert PhoneParts(t, s, 0, 0, 16);
    MatcherIsGreedy(t, Phone, s, 0, 16);
    MatcherIsSound(t, Phone, s, 0);
  }

  /** The same digits right after a letter are no CPF number. */
  lemma CpfNeedsBoundary(t: Charset)
    requires t.Standard()
    ensures MatchEnd(t, Cpf, "123.456.789-01", 0) == Some(14)
    ensures Clean(t, Cpf, "x123.456.789-01") && Clean(t, Cpf, "123.456.789-012")
  {
    assert "123.456.789-01" == ['1', '2', '3', '.', '4', '5', '6', '.', '7', '8', '9', '-', '0', '1'];
    assert "x123.456.789-01" == ['x', '1', '2', '3', '.', '4', '5', '6', '.', '7', '8', '9', '-', '0', '1'];
    assert "123.456.789-012" == ['1', '2', '3', '.', '4', '5', '6', '.', '7', '8', '9', '-', '0', '1', '2'];
  }

  // ---- A target with a bracket ----

  lemma NothingToReplaceFirst(t: Charset, s: string)
    requires t.Standard() && s == "!12345678" && forall c: char :: '1' <= c <= '8' ==> !t.same('[', c)
    ensures Sub(t, Literal("!["), s) == s && Sub(t, Email, s) == s && Sub(t, Cpf, s) == s
  {
    assert s == ['!', '1', '2', '3', '4', '5', '6', '7', '8'] && "!["[1] == '[';
    assert forall i :: 0 <= i <= |s| ==> !LiteralAt(t, "![", s, i);
    SubOfCleanIsIdentity(t, Literal("!["), s);
    EmailNeedsAtAndDot(t, s);
    SubOfCleanIsIdentity(t, Email, s);
    SubOfCleanIsIdentity(t, Cpf, s);
  }

  lemma MarkKeepsNoUrl(t: Charset, out: string)
    requires out == "![redacted]"
    ensures Sub(t, Url, out) == out
  {
    assert out == ['!', '[', 'r', 'e', 'd', 'a', 'c', 't', 'e', 'd', ']'];
    UrlNeedsColonAndSlash(t, out);
    SubOfCleanIsIdentity(t, Url, out);
  }

  /** The condition on brackets is needed: the marker may complete such a target. */
  lemma BracketedTargetMayShow(t: Charset, value: string, target: string)
    requires t.Standard() && t.same('!', '!') && t.same('[', '[')
    requires forall c: char :: '1' <= c <= '8' ==> !t.same('[', c)
    requires value == "!12345678" && target == "!["
    ensures Strip(t.space, target) == target && SanitizeText(t, value, target) == "![redacted]"
    ensures !Clean(t, Literal(target), "![redacted]")
  {
    NothingToReplaceFirst(t, value);
    DigitsAfterMark(t, value);
    MarkKeepsNoUrl(t, "![redacted]");
    assert "![redacted]"[0] == '!' && "![redacted]"[1] == '[' && |"![redacted]"| == 11;
    assert Matches(t, Literal("!["), "![redacted]", 0, 2);
  }

  lemma DigitsAfterMark(t: Charset, s: string)
    requires t.Standard() && s == "!12345678"
    ensures Sub(t, Phone, s) == "![redacted]"
  {
    assert s == ['!', '1', '2', '3', '4', '5', '6', '7', '8'];
    OnePhoneBehindMark(t, s);
    SubReplacesTheMatch(t, Phone, s, 1, 9);
    assert s[..1] == "!" && s[9..] == "";
  }

  lemma OnePhoneBehindMark(t: Charset, s: string)
    requires t.Standard() && s == ['!', '1', '2', '3', '4', '5', '6', '7', '8']
    ensures MatchEnd(t, Phone, s, 0).None? && MatchEnd(t, Phone, s, 9).None? && MatchEnd(t, Phone, s, 1) == Some(9)
  {
    assert PhoneParts(t, s, 1, 1, 9);
    PhoneIsGreedy(t, s, 1, 9);
    MatcherIsSound(t, Phone, s, 1);
  }
}
