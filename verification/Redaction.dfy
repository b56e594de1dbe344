/** The runner's text redaction: four regular expressions, each replaced by a fixed marker in a left-to-right scan.
    Every pattern has two forms here: a relation saying which stretches of text it matches, and the matcher that finds
    where the greedy match starting at a position ends. */
module Redaction {
  import opened Text
  import opened Wrappers

  const REDACTED := "[redacted]"

  // ---- Characters ----

  /** How the language sees characters. Outside ASCII the classes are left open, so results hold for every Unicode
      version; `same` is case-insensitive equality, `casefold` and `lower` are the string methods of those names. */
  datatype Charset = Charset(
    word: char -> bool, digit: char -> bool, space: char -> bool,
    same: (char, char) -> bool, casefold: string -> string, lower: string -> string)
  {
    ghost predicate Standard() {
      && (forall c: char :: c < '\U{80}' ==>
            word(c) == ('0' <= c <= '9' || 'a' <= c <= 'z' || 'A' <= c <= 'Z' || c == '_'))
      && (forall c: char :: c < '\U{80}' ==> digit(c) == ('0' <= c <= '9'))
      && (forall c: char :: c < '\U{80}' ==> space(c) == ('\t' <= c <= '\r' || '\U{1c}' <= c <= ' '))
      && lower("target_hash") == "target_hash"
    }
  }

  datatype Class = LocalPart | Label | PhoneBody | NonSpace

  predicate In(t: Charset, k: Class, c: char) {
    match k
    case LocalPart => t.word(c) || c == '.' || c == '+' || c == '-'
    case Label => t.word(c) || c == '-'
    case PhoneBody => t.digit(c) || t.space(c) || c == '(' || c == ')' || c == '.' || c == '-'
    case NonSpace => !t.space(c)
  }

  predicate AllIn(t: Charset, k: Class, s: string, i: nat, j: nat)
    requires j <= |s|
  {
    forall x :: i <= x < j ==> In(t, k, s[x])
  }

  /** The end of the longest run of `k` from `i`. */
  function Run(t: Charset, k: Class, s: string, i: nat): (j: nat)
    requires i <= |s|
    ensures i <= j <= |s| && AllIn(t, k, s, i, j)
    ensures j < |s| ==> !In(t, k, s[j])
    decreases |s| - i
  {
    if i < |s| && In(t, k, s[i]) then Run(t, k, s, i + 1) else i
  }

  /** A literal of the URL pattern under case-insensitive matching; the long s folds to an s. */
  predicate Letter(c: char, lower: char) {
    || c == lower
    || (lower == 'h' && c == 'H') || (lower == 't' && c == 'T') || (lower == 'p' && c == 'P')
    || (lower == 's' && (c == 'S' || c == '\U{17f}'))
  }

  // ---- Which stretches match ----

  datatype Pattern = Literal(text: string) | Email | Cpf | Phone | Url

  /** One or more labels, each after a dot: it starts with a dot, and a label character follows every dot. */
  predicate Dotted(t: Charset, s: string, i: nat, j: nat)
    requires j <= |s|
  {
    && i < j && s[i] == '.'
    && forall x :: i <= x < j ==> DottedAt(t, s, x, j)
  }

  predicate DottedAt(t: Charset, s: string, x: nat, j: nat)
    requires x < j <= |s|
  {
    In(t, Label, s[x]) || (s[x] == '.' && x + 1 < j && In(t, Label, s[x + 1]))
  }

  ghost predicate EmailParts(t: Charset, s: string, i: nat, at: nat, dot: nat, j: nat)
    requires j <= |s|
  {
    && i < at && at + 1 < dot < j
    && AllIn(t, LocalPart, s, i, at) && s[at] == '@' && AllIn(t, Label, s, at + 1, dot) && Dotted(t, s, dot, j)
  }

  predicate PhoneParts(t: Charset, s: string, i: nat, first: nat, j: nat)
    requires j <= |s|
  {
    && (first == i || (first == i + 1 && i < j && s[i] == '+'))
    && first + 8 <= j
    && t.digit(s[first]) && AllIn(t, PhoneBody, s, first + 1, j - 1) && t.digit(s[j - 1])
  }

  predicate DigitsAt(t: Charset, s: string, i: nat, n: nat) {
    i + n <= |s| && forall x :: i <= x < i + n ==> t.digit(s[x])
  }

  predicate Boundary(t: Charset, s: string, i: nat) {
    (0 < i <= |s| && t.word(s[i - 1])) != (i < |s| && t.word(s[i]))
  }

  predicate CpfAt(t: Charset, s: string, i: nat) {
    && i + 14 <= |s| && Boundary(t, s, i) && Boundary(t, s, i + 14)
    && DigitsAt(t, s, i, 3) && s[i + 3] == '.' && DigitsAt(t, s, i + 4, 3) && s[i + 7] == '.'
    && DigitsAt(t, s, i + 8, 3) && s[i + 11] == '-' && DigitsAt(t, s, i + 12, 2)
  }

  predicate HttpAt(s: string, i: nat) {
    i + 4 <= |s| && Letter(s[i], 'h') && Letter(s[i + 1], 't') && Letter(s[i + 2], 't') && Letter(s[i + 3], 'p')
  }

  predicate SlashesAt(s: string, i: nat) {
    i + 3 <= |s| && s[i] == ':' && s[i + 1] == '/' && s[i + 2] == '/'
  }

  /** The URL scheme spans `i..j`. */
  predicate Scheme(s: string, i: nat, j: nat) {
    && HttpAt(s, i)
    && (|| (j == i + 7 && SlashesAt(s, i + 4))
        || (j == i + 8 && i + 4 < |s| && Letter(s[i + 4], 's') && SlashesAt(s, i + 5)))
  }

  predicate LiteralAt(t: Charset, text: string, s: string, i: nat) {
    i + |text| <= |s| && forall k :: 0 <= k < |text| ==> t.same(text[k], s[i + k])
  }

  /** The pattern can match exactly `s[i..j]`. */
  ghost predicate Matches(t: Charset, p: Pattern, s: string, i: nat, j: nat)
    requires j <= |s|
  {
    match p
    case Literal(text) => text != "" && j == i + |text| && LiteralAt(t, text, s, i)
    case Email => exists at: nat, dot: nat :: EmailParts(t, s, i, at, dot, j)
    case Cpf => j == i + 14 && CpfAt(t, s, i)
    case Phone => PhoneParts(t, s, i, i, j) || PhoneParts(t, s, i, i + 1, j)
    case Url => exists a :: i < a < j && Scheme(s, i, a) && AllIn(t, NonSpace, s, a, j)
  }

  ghost predicate Clean(t: Charset, p: Pattern, s: string) {
    forall i, j :: 0 <= i <= j <= |s| ==> !Matches(t, p, s, i, j)
  }

  // ---- Where the greedy match ends ----

  function LabelsEnd(t: Charset, s: string, i: nat): (j: nat)
    requires i <= |s|
    ensures i <= j <= |s|
    ensures i < j ==> Dotted(t, s, i, j)
    ensures i == j ==> !(i + 1 < |s| && s[i] == '.' && In(t, Label, s[i + 1]))
    decreases |s| - i
  {
    if i + 1 < |s| && s[i] == '.' && In(t, Label, s[i + 1]) then
      var m := Run(t, Label, s, i + 1);
      LabelsEnd(t, s, m)
    else i
  }

  function EmailEnd(t: Charset, s: string, i: nat): Option<nat>
    requires i <= |s|
  {
    var at := Run(t, LocalPart, s, i);
    if at == i || at == |s| || s[at] != '@' then None
    else
      var dot := Run(t, Label, s, at + 1);
      var j := LabelsEnd(t, s, dot);
      if dot == at + 1 || j == dot then None else Some(j)
  }

  /** The last digit in `low..high`. */
  function LastDigit(t: Charset, s: string, low: nat, high: nat): (r: Option<nat>)
    requires high <= |s|
    ensures r.Some? ==> low <= r.value < high && t.digit(s[r.value])
    ensures r.Some? ==> forall x :: r.value < x < high ==> !t.digit(s[x])
    ensures r.None? ==> forall x :: low <= x < high ==> !t.digit(s[x])
  {
    if high <= low then None else if t.digit(s[high - 1]) then Some(high - 1) else LastDigit(t, s, low, high - 1)
  }

  function PhoneEnd(t: Charset, s: string, i: nat): Option<nat>
    requires i <= |s|
  {
    var first := if i < |s| && s[i] == '+' then i + 1 else i;
    if first == |s| || !t.digit(s[first]) then None
    else
      match LastDigit(t, s, first + 7, Run(t, PhoneBody, s, first + 1))
      case None => None
      case Some(last) => Some(last + 1)
  }

  function UrlEnd(t: Charset, s: string, i: nat): Option<nat>
    requires i <= |s|
  {
    if !Scheme(s, i, i + 7) && !Scheme(s, i, i + 8) then None
    else
      var a := if Scheme(s, i, i + 8) then i + 8 else i + 7;
      var j := Run(t, NonSpace, s, a);
      if j == a then None else Some(j)
  }

  function MatchEnd(t: Charset, p: Pattern, s: string, i: nat): Option<nat>
    requires i <= |s|
  {
    match p
    case Literal(text) => if text != "" && LiteralAt(t, text, s, i) then Some(i + |text|) else None
    case Email => EmailEnd(t, s, i)
    case Cpf => if CpfAt(t, s, i) then Some(i + 14) else None
    case Phone => PhoneEnd(t, s, i)
    case Url => UrlEnd(t, s, i)
  }

  lemma MatcherIsSound(t: Charset, p: Pattern, s: string, i: nat)
    requires i <= |s| && MatchEnd(t, p, s, i).Some?
    ensures i < MatchEnd(t, p, s, i).value <= |s|
    ensures Matches(t, p, s, i, MatchEnd(t, p, s, i).value)
  {
    match p
    case Email =>
      var at := Run(t, LocalPart, s, i);
      var dot := Run(t, Label, s, at + 1);
      assert EmailParts(t, s, i, at, dot, LabelsEnd(t, s, dot));
    case Phone =>
      var first := if s[i] == '+' then i + 1 else i;
      assert PhoneParts(t, s, i, first, MatchEnd(t, p, s, i).value);
    case Url =>
      var a := if Scheme(s, i, i + 8) then i + 8 else i + 7;
      assert Scheme(s, i, a);
    case _ =>
  }

  /** If the pattern can match anything from `i`, the matcher finds a match there, and no shorter one. */
  lemma MatcherIsGreedy(t: Charset, p: Pattern, s: string, i: nat, j: nat)
    requires t.Standard() && i <= j <= |s| && Matches(t, p, s, i, j)
    ensures MatchEnd(t, p, s, i).Some? && j <= MatchEnd(t, p, s, i).value
  {
    match p
    case Email => EmailIsGreedy(t, s, i, j);
    case Phone => PhoneIsGreedy(t, s, i, j);
    case Url => UrlIsGreedy(t, s, i, j);
    case _ =>
  }

  lemma EmailIsGreedy(t: Charset, s: string, i: nat, j: nat)
    requires t.Standard() && i <= j <= |s| && Matches(t, Email, s, i, j)
    ensures EmailEnd(t, s, i).Some? && j <= EmailEnd(t, s, i).value
  {
    var at: nat, dot: nat :| EmailParts(t, s, i, at, dot, j);
    assert Run(t, LocalPart, s, i) == at by { RunFrom(t, LocalPart, s, i, at); }
    assert Run(t, Label, s, at + 1) == dot by { RunFrom(t, Label, s, at + 1, dot); }
    assert j <= LabelsEnd(t, s, dot) by { DottedIsGreedy(t, s, dot, j); }
  }

  lemma PhoneIsGreedy(t: Charset, s: string, i: nat, j: nat)
    requires t.Standard() && i <= j <= |s| && Matches(t, Phone, s, i, j)
    ensures PhoneEnd(t, s, i).Some? && j <= PhoneEnd(t, s, i).value
  {
    var first := if PhoneParts(t, s, i, i, j) then i else i + 1;
    RunFrom(t, PhoneBody, s, first + 1, j);
  }

  lemma UrlIsGreedy(t: Charset, s: string, i: nat, j: nat)
    requires i <= j <= |s| && Matches(t, Url, s, i, j)
    ensures UrlEnd(t, s, i).Some? && j <= UrlEnd(t, s, i).value
  {
    var a :| i < a < j && Scheme(s, i, a) && AllIn(t, NonSpace, s, a, j);
    RunFrom(t, NonSpace, s, a, j);
  }

  /** A run covers every stretch of its class, and stops there if the next character is outside. */
  lemma {:induction false} RunFrom(t: Charset, k: Class, s: string, i: nat, j: nat)
    requires i <= j <= |s| && AllIn(t, k, s, i, j)
    ensures j <= Run(t, k, s, i)
    ensures j < |s| && !In(t, k, s[j]) ==> Run(t, k, s, i) == j
    decreases j - i
  {
    if i < j {
      RunFrom(t, k, s, i + 1, j);
    }
  }

  lemma {:induction false} DottedIsGreedy(t: Charset, s: string, i: nat, j: nat)
    requires t.Standard() && j <= |s| && Dotted(t, s, i, j)
    ensures j <= LabelsEnd(t, s, i)
    decreases j - i
  {
    assert !In(t, Label, '.');
    assert DottedAt(t, s, i, j);
    var m := Run(t, Label, s, i + 1);
    if m < j {
      assert DottedAt(t, s, m, j);
      DottedIsGreedy(t, s, m, j);
    }
  }

  // ---- Substitution and search ----

  /** Where the match starting at each position ends, if one starts there. */
  type MatchTable = seq<Option<nat>>

  predicate Forward(s: string, ends: MatchTable) {
    |ends| == |s| + 1 && forall i :: 0 <= i <= |s| && ends[i].Some? ==> i < ends[i].value <= |s|
  }

  function Table(t: Charset, p: Pattern, s: string): (ends: MatchTable)
    ensures Forward(s, ends)
    ensures forall i :: 0 <= i <= |s| ==> ends[i] == MatchEnd(t, p, s, i)
  {
    var ends := seq(|s| + 1, i requires 0 <= i <= |s| => MatchEnd(t, p, s, i));
    assert Forward(s, ends) by {
      forall i | 0 <= i <= |s| && ends[i].Some? ensures i < ends[i].value <= |s| {
        MatcherIsSound(t, p, s, i);
      }
    }
    ends
  }

  /** `re.sub` with the marker from position `i`: leftmost matches, never overlapping. */
  function Scan(s: string, ends: MatchTable, i: nat): string
    requires Forward(s, ends) && i <= |s|
    decreases |s| - i
  {
    if i == |s| then ""
    else if ends[i].Some? then REDACTED + Scan(s, ends, ends[i].value)
    else [s[i]] + Scan(s, ends, i + 1)
  }

  function Sub(t: Charset, p: Pattern, s: string): string { Scan(s, Table(t, p, s), 0) }

  predicate Search(t: Charset, p: Pattern, s: string) {
    exists i :: 0 <= i <= |s| && MatchEnd(t, p, s, i).Some?
  }

  function SanitizeText(t: Charset, value: string, target: string): string {
    if value == "" then value
    else
      var text := Sub(t, Literal(Strip(t.space, target)), value);
      var noEmail := Sub(t, Email, text);
      var noCpf := Sub(t, Cpf, noEmail);
      var noPhone := Sub(t, Phone, noCpf);
      Sub(t, Url, noPhone)
  }

  predicate OccursAt(s: string, part: string, i: nat) { i + |part| <= |s| && s[i..i + |part|] == part }

  predicate Contains(s: string, part: string) { exists i :: 0 <= i <= |s| && OccursAt(s, part, i) }

  predicate ContainsSensitiveText(t: Charset, value: string, target: string) {
    || (Strip(t.space, target) != "" && Contains(t.casefold(value), t.casefold(Strip(t.space, target))))
    || Search(t, Email, value) || Search(t, Cpf, value) || Search(t, Phone, value) || Search(t, Url, value)
  }

  /** Searching is exactly asking whether the pattern can match anywhere. */
  lemma SearchIffNotClean(t: Charset, p: Pattern, s: string)
    requires t.Standard()
    ensures Search(t, p, s) <==> !Clean(t, p, s)
  {
    if i :| 0 <= i <= |s| && MatchEnd(t, p, s, i).Some? {
      MatcherIsSound(t, p, s, i);
    }
    if i, j :| 0 <= i <= j <= |s| && Matches(t, p, s, i, j) {
      MatcherIsGreedy(t, p, s, i, j);
    }
  }

  // ---- Where stretches of the output come from ----

  predicate Bracketless(s: string, a: nat, b: nat)
    requires b <= |s|
  {
    forall x :: a <= x < b ==> s[x] != '[' && s[x] != ']'
  }

  predicate NoneStarts(ends: MatchTable, a: nat, b: nat)
    requires b <= |ends|
  {
    forall x :: a <= x < b ==> ends[x].None?
  }

  /** The input continues at `c` where the output does at `b`, by the same character or by a match. */
  predicate GoesOn(s: string, ends: MatchTable, c: nat, out: string, b: nat)
    requires Forward(s, ends)
  {
    b < |out| ==> c < |s| && (s[c] == out[b] || ends[c].Some?)
  }

  lemma {:induction false} PrefixIsCopied(s: string, ends: MatchTable, i: nat, n: nat)
    requires Forward(s, ends) && i <= |s|
    requires n <= |Scan(s, ends, i)| && Bracketless(Scan(s, ends, i), 0, n)
    ensures i + n <= |s| && s[i..i + n] == Scan(s, ends, i)[..n] && NoneStarts(ends, i, i + n)
    ensures GoesOn(s, ends, i + n, Scan(s, ends, i), n)
    decreases n
  {
    var out := Scan(s, ends, i);
    if n > 0 {
      assert out[0] != '[';
      var rest := Scan(s, ends, i + 1);
      assert out == [s[i]] + rest;
      assert forall x :: 0 <= x < n - 1 ==> rest[x] == out[x + 1];
      PrefixIsCopied(s, ends, i + 1, n - 1);
      assert s[i..i + n] == [s[i]] + s[i + 1..i + n];
      assert out[..n] == [s[i]] + rest[..n - 1];
    }
  }

  /** `out[a..b]` was copied from the input at `c`, where no match of the substituted pattern started. */
  predicate Copied(s: string, ends: MatchTable, c: nat, out: string, a: nat, b: nat)
    requires Forward(s, ends) && a <= b <= |out|
  {
    && c + (b - a) <= |s| && s[c..c + (b - a)] == out[a..b]
    && NoneStarts(ends, c, c + (b - a)) && GoesOn(s, ends, c + (b - a), out, b)
  }

  /** `out[a..b]` is the marker's text from `c`, without either bracket. */
  predicate InMarker(c: nat, out: string, a: nat, b: nat)
    requires a <= b <= |out|
  {
    0 < c && c + (b - a) < |REDACTED| && out[a..b] == REDACTED[c..c + (b - a)]
  }

  /** A stretch of the output without brackets lies inside one marker, or was copied from the input. */
  lemma {:induction false} Provenance(s: string, ends: MatchTable, i: nat, a: nat, b: nat)
    returns (copied: bool, c: nat)
    requires Forward(s, ends) && i <= |s|
    requires a < b <= |Scan(s, ends, i)| && Bracketless(Scan(s, ends, i), a, b)
    ensures copied ==> Copied(s, ends, c, Scan(s, ends, i), a, b)
    ensures !copied ==> InMarker(c, Scan(s, ends, i), a, b)
    decreases |s| - i
  {
    var out := Scan(s, ends, i);
    var head := if ends[i].Some? then REDACTED else [s[i]];
    var next := if ends[i].Some? then ends[i].value else i + 1;
    var rest := Scan(s, ends, next);
    if a >= |head| {
      SkipHead(head, rest, a, b);
      copied, c := Provenance(s, ends, next, a - |head|, b - |head|);
      ProvenanceShift(s, ends, c, head, rest, a, b);
    } else if ends[i].None? {
      PrefixIsCopied(s, ends, i, b);
      copied, c := true, i;
    } else {
      InsideTheMarker(out, a, b);
      copied, c := false, a;
    }
  }

  lemma SkipHead(head: string, rest: string, a: nat, b: nat)
    requires |head| <= a < b <= |head + rest| && Bracketless(head + rest, a, b)
    ensures Bracketless(rest, a - |head|, b - |head|)
  {
    forall x | a - |head| <= x < b - |head| ensures rest[x] != '[' && rest[x] != ']' {
      assert rest[x] == (head + rest)[x + |head|];
    }
  }

  lemma ProvenanceShift(s: string, ends: MatchTable, c: nat, head: string, rest: string, a: nat, b: nat)
    requires Forward(s, ends) && |head| <= a < b <= |head + rest|
    ensures Copied(s, ends, c, rest, a - |head|, b - |head|) ==> Copied(s, ends, c, head + rest, a, b)
    ensures InMarker(c, rest, a - |head|, b - |head|) ==> InMarker(c, head + rest, a, b)
  {
    assert (head + rest)[a..b] == rest[a - |head|..b - |head|];
  }

  lemma InsideTheMarker(out: string, a: nat, b: nat)
    requires REDACTED <= out && a < |REDACTED| && a < b <= |out| && Bracketless(out, a, b)
    ensures 0 < a && b < |REDACTED| && out[a..b] == REDACTED[a..b]
  {
    assert out[0] == '[' && out[9] == ']' && |REDACTED| == 10;
    assert a != 0 && !(a <= 9 < b);
  }

  // ---- Matches are carried by their own text ----

  lemma AllInShift(t: Charset, k: Class, s: string, s': string, i: nat, j: nat, i': nat, a: nat, b: nat)
    requires i <= j <= |s| && i' + (j - i) <= |s'| && s[i..j] == s'[i'..i' + (j - i)]
    requires i <= a <= b <= j && AllIn(t, k, s, a, b)
    ensures AllIn(t, k, s', a - i + i', b - i + i')
  {
    forall x | a - i + i' <= x < b - i + i' ensures In(t, k, s'[x]) {
      assert s'[x] == s'[i'..i' + (j - i)][x - i'] == s[i..j][x - i'] == s[x - i' + i];
    }
  }

  /** An e-mail or phone match needs nothing but its own characters, so a copy of them matches too. */
  lemma MatchShift(t: Charset, p: Pattern, s: string, s': string, i: nat, j: nat, i': nat)
    requires p in {Email, Phone}
    requires i <= j <= |s| && i' + (j - i) <= |s'| && s[i..j] == s'[i'..i' + (j - i)]
    requires Matches(t, p, s, i, j)
    ensures Matches(t, p, s', i', i' + (j - i))
  {
    forall x | i <= x < j ensures s'[x - i + i'] == s[x] {
      assert s'[x - i + i'] == s'[i'..i' + (j - i)][x - i] == s[i..j][x - i];
    }
    if p == Email {
      var at: nat, dot: nat :| EmailParts(t, s, i, at, dot, j);
      var d := i' - i;
      AllInShift(t, LocalPart, s, s', i, j, i', i, at);
      AllInShift(t, Label, s, s', i, j, i', at + 1, dot);
      DottedShift(t, s, s', i, j, i', dot);
      assert EmailParts(t, s', i', at + d, dot + d, j + d);
    } else {
      var first := if PhoneParts(t, s, i, i, j) then i else i + 1;
      AllInShift(t, PhoneBody, s, s', i, j, i', first + 1, j - 1);
      assert PhoneParts(t, s', i', first - i + i', j - i + i');
    }
  }

  lemma DottedShift(t: Charset, s: string, s': string, i: nat, j: nat, i': nat, dot: nat)
    requires i <= dot <= j <= |s| && i' + (j - i) <= |s'| && s[i..j] == s'[i'..i' + (j - i)]
    requires Dotted(t, s, dot, j)
    ensures Dotted(t, s', dot - i + i', j - i + i')
  {
    forall x | i <= x < j ensures s'[x - i + i'] == s[x] {
      assert s'[x - i + i'] == s'[i'..i' + (j - i)][x - i] == s[i..j][x - i];
    }
    var last := j - i + i';
    forall x | dot - i + i' <= x < last ensures DottedAt(t, s', x, last) {
      assert DottedAt(t, s, x - i' + i, j);
      assert s'[x] == s[x - i' + i];
      if x + 1 < last {
        assert s'[x + 1] == s[x + 1 - i' + i];
      }
    }
    assert s'[dot - i + i'] == s[dot];
  }

  lemma ClassesHaveNoBrackets(t: Charset)
    requires t.Standard()
    ensures forall k | k in {LocalPart, Label, PhoneBody} :: !In(t, k, '[') && !In(t, k, ']')
    ensures !t.digit('[') && !t.digit(']')
  {
  }

  /** Neither kind of match contains a bracket. */
  lemma MatchIsBracketless(t: Charset, p: Pattern, s: string, i: nat, j: nat)
    requires t.Standard() && p in {Email, Phone} && i <= j <= |s| && Matches(t, p, s, i, j)
    ensures i < j && Bracketless(s, i, j)
  {
    ClassesHaveNoBrackets(t);
    if p == Email {
      var at: nat, dot: nat :| EmailParts(t, s, i, at, dot, j);
      forall x | i <= x < j ensures s[x] != '[' && s[x] != ']' {
        if x >= dot {
          assert DottedAt(t, s, x, j);
        }
      }
    }
  }

  /** No e-mail or phone number lies within the marker. */
  lemma MarkerIsClean(t: Charset, p: Pattern, i: nat, j: nat)
    requires t.Standard() && p in {Email, Phone} && i <= j < |REDACTED|
    ensures !Matches(t, p, REDACTED, i, j)
  {
    assert REDACTED == ['[', 'r', 'e', 'd', 'a', 'c', 't', 'e', 'd', ']'];
    assert forall x :: 0 <= x < |REDACTED| ==> REDACTED[x] != '@' && !t.digit(REDACTED[x]);
  }

  // ---- What substitution guarantees ----

  /** An e-mail or phone number in the output of any substitution was already in its input, at a position where no
      match of the substituted pattern starts. */
  lemma Origin(t: Charset, p: Pattern, q: Pattern, s: string, i: nat, j: nat) returns (c: nat)
    requires t.Standard() && p in {Email, Phone} && i <= j <= |Sub(t, q, s)| && Matches(t, p, Sub(t, q, s), i, j)
    ensures c + (j - i) <= |s| && Matches(t, p, s, c, c + (j - i)) && Table(t, q, s)[c].None?
  {
    var out, ends := Sub(t, q, s), Table(t, q, s);
    MatchIsBracketless(t, p, out, i, j);
    var copied;
    copied, c := Provenance(s, ends, 0, i, j);
    if copied {
      assert ends[c].None?;
      MatchShift(t, p, out, s, i, j, c);
    } else {
      MarkerIsClean(t, p, c, c + (j - i));
      MatchShift(t, p, out, REDACTED, i, j, c);
    }
  }

  lemma NothingMatchesWhereNoneStarts(t: Charset, p: Pattern, s: string, i: nat, j: nat)
    requires t.Standard() && i <= j <= |s| && Table(t, p, s)[i].None?
    ensures !Matches(t, p, s, i, j)
  {
    if Matches(t, p, s, i, j) {
      MatcherIsGreedy(t, p, s, i, j);
    }
  }

  /** Substituting e-mails or phones leaves none. */
  lemma SubCleans(t: Charset, p: Pattern, s: string)
    requires t.Standard() && p in {Email, Phone}
    ensures Clean(t, p, Sub(t, p, s))
  {
    var out := Sub(t, p, s);
    forall i, j | 0 <= i <= j <= |out| ensures !Matches(t, p, out, i, j) {
      if Matches(t, p, out, i, j) {
        var c := Origin(t, p, p, s, i, j);
        NothingMatchesWhereNoneStarts(t, p, s, c, c + (j - i));
      }
    }
  }

  /** A later substitution, of whatever pattern, never brings an e-mail or a phone number back. */
  lemma SubKeepsClean(t: Charset, p: Pattern, q: Pattern, s: string)
    requires t.Standard() && p in {Email, Phone} && Clean(t, p, s)
    ensures Clean(t, p, Sub(t, q, s))
  {
    var out := Sub(t, q, s);
    forall i, j | 0 <= i <= j <= |out| ensures !Matches(t, p, out, i, j) {
      if Matches(t, p, out, i, j) {
        var c := Origin(t, p, q, s, i, j);
      }
    }
  }

  /** Substituting URLs leaves none, although a URL may run through brackets: its scheme cannot. */
  lemma UrlSubCleans(t: Charset, s: string)
    requires t.Standard()
    ensures Clean(t, Url, Sub(t, Url, s))
  {
    var out := Sub(t, Url, s);
    forall i, j | 0 <= i <= j <= |out| ensures !Matches(t, Url, out, i, j) {
      if Matches(t, Url, out, i, j) {
        var a :| i < a < j && Scheme(out, i, a) && AllIn(t, NonSpace, out, a, j);
        SchemeIsBracketless(out, i, a);
        var copied, c := Provenance(s, Table(t, Url, s), 0, i, a);
        if copied {
          assert Table(t, Url, s)[c].None?;
          SchemeShift(out, i, a, s, c);
          UrlContinues(t, s, c, c + (a - i), out[a]);
        } else {
          assert REDACTED == ['[', 'r', 'e', 'd', 'a', 'c', 't', 'e', 'd', ']'];
          SchemeShift(out, i, a, REDACTED, c);
        }
      }
    }
  }

  lemma SchemeIsBracketless(s: string, i: nat, j: nat)
    requires j <= |s| && Scheme(s, i, j)
    ensures i < j && Bracketless(s, i, j)
  {
  }

  lemma SchemeShift(s: string, i: nat, j: nat, s': string, i': nat)
    requires i < j <= |s| && i' + (j - i) <= |s'| && s[i..j] == s'[i'..i' + (j - i)] && Scheme(s, i, j)
    ensures Scheme(s', i', i' + (j - i))
  {
    forall x | i <= x < j ensures s'[x - i + i'] == s[x] {
      assert s'[x - i + i'] == s'[i'..i' + (j - i)][x - i] == s[i..j][x - i];
    }
  }

  /** A scheme followed by a visible character, or by the start of another URL, starts a URL. */
  lemma UrlContinues(t: Charset, s: string, i: nat, a: nat, next: char)
    requires t.Standard() && a < |s| && Scheme(s, i, a) && In(t, NonSpace, next)
    requires s[a] == next || UrlEnd(t, s, a).Some?
    ensures UrlEnd(t, s, i).Some?
  {
    assert In(t, NonSpace, s[a]);
    assert Matches(t, Url, s, i, a + 1);
    UrlIsGreedy(t, s, i, a + 1);
  }

  /** Every CPF is phone-shaped, whatever surrounds it. */
  lemma CpfIsPhone(t: Charset, s: string, i: nat, j: nat)
    requires i <= j <= |s| && Matches(t, Cpf, s, i, j)
    ensures Matches(t, Phone, s, i, j)
  {
    assert PhoneParts(t, s, i, i, j);
  }

  lemma NoPhoneNoCpf(t: Charset, s: string)
    requires Clean(t, Phone, s)
    ensures Clean(t, Cpf, s)
  {
    forall i, j | 0 <= i <= j <= |s| ensures !Matches(t, Cpf, s, i, j) {
      if Matches(t, Cpf, s, i, j) {
        CpfIsPhone(t, s, i, j);
      }
    }
  }

  ghost predicate Redacted(t: Charset, s: string) {
    Clean(t, Email, s) && Clean(t, Cpf, s) && Clean(t, Phone, s) && Clean(t, Url, s)
  }

  /** The output of the sanitizer holds no match of any of the four patterns, for every text and target. */
  lemma SanitizedTextIsRedacted(t: Charset, value: string, target: string)
    requires t.Standard()
    ensures Redacted(t, SanitizeText(t, value, target))
  {
    if value != "" {
      var text := Sub(t, Literal(Strip(t.space, target)), value);
      var noEmail := Sub(t, Email, text);
      var noCpf := Sub(t, Cpf, noEmail);
      var noPhone := Sub(t, Phone, noCpf);
      SubCleans(t, Email, text);
      SubKeepsClean(t, Email, Cpf, noEmail);
      SubKeepsClean(t, Email, Phone, noCpf);
      SubCleans(t, Phone, noCpf);
      SubKeepsClean(t, Email, Url, noPhone);
      SubKeepsClean(t, Phone, Url, noPhone);
      UrlSubCleans(t, noPhone);
      NoPhoneNoCpf(t, Sub(t, Url, noPhone));
    } else {
      EmptyIsRedacted(t);
    }
  }

  lemma EmptyIsRedacted(t: Charset)
    ensures Redacted(t, "")
  {
  }

  lemma MarkerIsRedacted(t: Charset)
    requires t.Standard()
    ensures Redacted(t, REDACTED)
  {
    assert REDACTED == ['[', 'r', 'e', 'd', 'a', 'c', 't', 'e', 'd', ']'];
    assert forall x :: 0 <= x < |REDACTED| ==> REDACTED[x] != '@' && !t.digit(REDACTED[x]) && REDACTED[x] != ':';
    NoPhoneNoCpf(t, REDACTED);
  }

  lemma {:induction false} ScanWithoutMatches(s: string, ends: MatchTable, i: nat)
    requires Forward(s, ends) && i <= |s| && NoneStarts(ends, 0, |ends|)
    ensures Scan(s, ends, i) == s[i..]
    decreases |s| - i
  {
    if i < |s| {
      ScanWithoutMatches(s, ends, i + 1);
    }
  }

  lemma SubOfCleanIsIdentity(t: Charset, p: Pattern, s: string)
    requires Clean(t, p, s)
    ensures Sub(t, p, s) == s
  {
    var ends := Table(t, p, s);
    forall i | 0 <= i < |ends| ensures ends[i].None? {
      if ends[i].Some? {
        MatcherIsSound(t, p, s, i);
      }
    }
    ScanWithoutMatches(s, ends, 0);
    assert s[0..] == s;
  }

  /** Sanitizing redacted text again, with no target, changes nothing. */
  lemma RedactedIsFixed(t: Charset, s: string)
    requires Redacted(t, s)
    ensures SanitizeText(t, s, "") == s
  {
    assert Strip(t.space, "") == "";
    assert Clean(t, Literal(""), s);
    SubOfCleanIsIdentity(t, Literal(""), s);
    SubOfCleanIsIdentity(t, Email, s);
    SubOfCleanIsIdentity(t, Cpf, s);
    SubOfCleanIsIdentity(t, Phone, s);
    SubOfCleanIsIdentity(t, Url, s);
  }

  /** The residual check accepts exactly the redacted texts. */
  lemma ResidualCheckIffNotRedacted(t: Charset, s: string)
    requires t.Standard()
    ensures ContainsSensitiveText(t, s, "") <==> !Redacted(t, s)
  {
    assert Strip(t.space, "") == "";
    SearchIffNotClean(t, Email, s);
    SearchIffNotClean(t, Cpf, s);
    SearchIffNotClean(t, Phone, s);
    SearchIffNotClean(t, Url, s);
  }

  /** Sanitizing twice, the second time as the reader does, is sanitizing once. */
  lemma SanitizeIsIdempotent(t: Charset, value: string, target: string)
    requires t.Standard()
    ensures var once := SanitizeText(t, value, target);
            SanitizeText(t, once, "") == once && !ContainsSensitiveText(t, once, "")
  {
    SanitizedTextIsRedacted(t, value, target);
    RedactedIsFixed(t, SanitizeText(t, value, target));
    ResidualCheckIffNotRedacted(t, SanitizeText(t, value, target));
  }
}
