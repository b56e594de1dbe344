/** What redaction does to the searched target itself, to texts that need none, and to what surrounds a match. */
module TargetRedaction {
  import opened Redaction
  import opened Text
  import opened Wrappers

  // ---- The searched target ----

  /** No character of the text passes for a bracket. */
  predicate Plain(t: Charset, text: string) {
    forall k :: 0 <= k < |text| ==> !t.same(text[k], '[') && !t.same(text[k], ']')
  }

  lemma LiteralIsBracketless(t: Charset, x: string, s: string, i: nat)
    requires Plain(t, x) && LiteralAt(t, x, s, i)
    ensures Bracketless(s, i, i + |x|)
  {
    forall y | i <= y < i + |x| ensures s[y] != '[' && s[y] != ']' {
      assert t.same(x[y - i], s[i + (y - i)]);
    }
  }

  lemma LiteralShift(t: Charset, x: string, s: string, s': string, i: nat, i': nat)
    requires LiteralAt(t, x, s, i) && i' + |x| <= |s'| && s[i..i + |x|] == s'[i'..i' + |x|]
    ensures LiteralAt(t, x, s', i')
  {
    forall k | 0 <= k < |x| ensures t.same(x[k], s'[i' + k]) {
      assert s'[i' + k] == s'[i'..i' + |x|][k] == s[i..i + |x|][k] == s[i + k];
    }
  }

  /** The text does not match inside the marker. */
  predicate OutsideMarker(t: Charset, x: string) {
    forall i :: 0 <= i <= |REDACTED| ==> !LiteralAt(t, x, REDACTED, i)
  }

  /** An occurrence of such a text in the output of any substitution was already in its input, at a position where no
      match of the substituted pattern starts. */
  lemma LiteralOrigin(t: Charset, x: string, q: Pattern, s: string, i: nat) returns (c: nat)
    requires x != "" && Plain(t, x) && OutsideMarker(t, x) && LiteralAt(t, x, Sub(t, q, s), i)
    ensures LiteralAt(t, x, s, c) && Matches(t, Literal(x), s, c, c + |x|) && MatchEnd(t, q, s, c).None?
  {
    var out, ends := Sub(t, q, s), Table(t, q, s);
    LiteralIsBracketless(t, x, out, i);
    var copied;
    copied, c := Provenance(s, ends, 0, i, i + |x|);
    if copied {
      assert ends[c].None?;
      LiteralShift(t, x, out, s, i, c);
    } else {
      LiteralShift(t, x, out, REDACTED, i, c);
    }
  }

  /** Substituting the target leaves none of it. */
  lemma TargetSubCleans(t: Charset, x: string, s: string)
    requires Plain(t, x) && OutsideMarker(t, x)
    ensures Clean(t, Literal(x), Sub(t, Literal(x), s))
  {
    var out := Sub(t, Literal(x), s);
    forall i, j | 0 <= i <= j <= |out| ensures !Matches(t, Literal(x), out, i, j) {
      if Matches(t, Literal(x), out, i, j) {
        var c := LiteralOrigin(t, x, Literal(x), s, i);
      }
    }
  }

  /** A later substitution, of whatever pattern, never brings it back. */
  lemma SubKeepsTargetOut(t: Charset, x: string, q: Pattern, s: string)
    requires Plain(t, x) && OutsideMarker(t, x) && Clean(t, Literal(x), s)
    ensures Clean(t, Literal(x), Sub(t, q, s))
  {
    var out := Sub(t, q, s);
    forall i, j | 0 <= i <= j <= |out| ensures !Matches(t, Literal(x), out, i, j) {
      if Matches(t, Literal(x), out, i, j) {
        var c := LiteralOrigin(t, x, q, s, i);
      }
    }
  }

  /** For every text: the output does not hold the stripped target, in whatever case. */
  lemma TargetIsRedacted(t: Charset, value: string, target: string)
    requires Plain(t, Strip(t.space, target)) && OutsideMarker(t, Strip(t.space, target))
    ensures Clean(t, Literal(Strip(t.space, target)), SanitizeText(t, value, target))
  {
    var x := Strip(t.space, target);
    if value != "" {
      var text := Sub(t, Literal(x), value);
      var noEmail := Sub(t, Email, text);
      var noCpf := Sub(t, Cpf, noEmail);
      var noPhone := Sub(t, Phone, noCpf);
      TargetSubCleans(t, x, value);
      SubKeepsTargetOut(t, x, Email, text);
      SubKeepsTargetOut(t, x, Cpf, noEmail);
      SubKeepsTargetOut(t, x, Phone, noCpf);
      SubKeepsTargetOut(t, x, Url, noPhone);
    }
  }

  /** A text that is nothing but the target becomes the marker. */
  lemma TargetAloneBecomesMarker(t: Charset, target: string)
    requires t.Standard() && var x := Strip(t.space, target); x != "" && LiteralAt(t, x, x, 0)
    ensures SanitizeText(t, Strip(t.space, target), target) == REDACTED
  {
    var x := Strip(t.space, target);
    var ends := Table(t, Literal(x), x);
    assert ends[0] == Some(|x|);
    assert Scan(x, ends, |x|) == "";
    assert Sub(t, Literal(x), x) == REDACTED + "" == REDACTED;
    MarkerIsRedacted(t);
    SubOfCleanIsIdentity(t, Email, REDACTED);
    SubOfCleanIsIdentity(t, Cpf, REDACTED);
    SubOfCleanIsIdentity(t, Phone, REDACTED);
    SubOfCleanIsIdentity(t, Url, REDACTED);
  }

  ghost predicate NeverShows(t: Charset, target: string) {
    forall value :: Clean(t, Literal(Strip(t.space, target)), SanitizeText(t, value, target))
  }

  /** A target without brackets is absent from every output exactly if it is not part of the marker's own text. */
  lemma TargetNeverShowsIff(t: Charset, target: string)
    requires t.Standard() && var x := Strip(t.space, target); x != "" && Plain(t, x) && LiteralAt(t, x, x, 0)
    ensures NeverShows(t, target) <==> OutsideMarker(t, Strip(t.space, target))
  {
    var x := Strip(t.space, target);
    if OutsideMarker(t, x) {
      forall value ensures Clean(t, Literal(x), SanitizeText(t, value, target)) {
        TargetIsRedacted(t, value, target);
      }
    } else {
      var i :| 0 <= i <= |REDACTED| && LiteralAt(t, x, REDACTED, i);
      TargetAloneBecomesMarker(t, target);
      assert Matches(t, Literal(x), REDACTED, i, i + |x|);
    }
  }

  // ---- What is kept ----

  /** A text in which neither the target nor any of the four patterns occurs is kept. */
  lemma TextWithoutMatchesIsKept(t: Charset, value: string, target: string)
    requires Redacted(t, value) && Clean(t, Literal(Strip(t.space, target)), value)
    ensures SanitizeText(t, value, target) == value
  {
    SubOfCleanIsIdentity(t, Literal(Strip(t.space, target)), value);
    SubOfCleanIsIdentity(t, Email, value);
    SubOfCleanIsIdentity(t, Cpf, value);
    SubOfCleanIsIdentity(t, Phone, value);
    SubOfCleanIsIdentity(t, Url, value);
  }

  lemma OneMoreCopied(s: string, from: nat, i: nat, rest: string)
    requires from < i <= |s|
    ensures [s[from]] + (s[from + 1..i] + rest) == s[from..i] + rest
  {
    assert s[from..i] == [s[from]] + s[from + 1..i];
  }

  lemma {:induction false} ScanCopiesUntilMatch(s: string, ends: MatchTable, from: nat, i: nat)
    requires Forward(s, ends) && from <= i <= |s| && NoneStarts(ends, from, i)
    ensures Scan(s, ends, from) == s[from..i] + Scan(s, ends, i)
    decreases i - from
  {
    if from < i {
      ScanCopiesUntilMatch(s, ends, from + 1, i);
      OneMoreCopied(s, from, i, Scan(s, ends, i));
    } else {
      assert s[from..i] == "";
    }
  }

  lemma ScanReplacesTheMatch(s: string, ends: MatchTable, i: nat, j: nat)
    requires Forward(s, ends) && i < j <= |s| && ends[i] == Some(j)
    requires NoneStarts(ends, 0, i) && NoneStarts(ends, j, |s|)
    ensures Scan(s, ends, 0) == s[..i] + REDACTED + s[j..]
  {
    ScanCopiesUntilMatch(s, ends, 0, i);
    ScanCopiesUntilMatch(s, ends, j, |s|);
    var tail := Scan(s, ends, j);
    assert Scan(s, ends, i) == REDACTED + tail;
    assert Scan(s, ends, |s|) == "";
    assert tail == s[j..|s|] + "" == s[j..];
    assert s[0..i] + (REDACTED + tail) == s[..i] + REDACTED + tail;
  }

  /** If the first match of a pattern is `s[i..j]`, and nothing matches behind it, the substitution puts the marker in
      its place and keeps what stands before and after. */
  lemma SubReplacesTheMatch(t: Charset, p: Pattern, s: string, i: nat, j: nat)
    requires i <= j <= |s| && MatchEnd(t, p, s, i) == Some(j)
    requires forall k :: 0 <= k < i || j <= k <= |s| ==> MatchEnd(t, p, s, k).None?
    ensures Sub(t, p, s) == s[..i] + REDACTED + s[j..]
  {
    MatcherIsSound(t, p, s, i);
    ScanReplacesTheMatch(s, Table(t, p, s), i, j);
  }

  ghost predicate Within(s: string, part: string) {
    exists i :: 0 <= i <= |s| && part <= s[i..]
  }

  lemma WithinIffContained(s: string, part: string)
    ensures Within(s, part) <==> Contains(s, part)
  {
    if i :| 0 <= i <= |s| && part <= s[i..] {
      assert s[i..i + |part|] == s[i..][..|part|] == part;
      assert OccursAt(s, part, i);
    }
    if i :| 0 <= i <= |s| && OccursAt(s, part, i) {
      assert s[i..][..|part|] == s[i..i + |part|] == part;
    }
  }

  /** The residual check, with a target: it accepts exactly the redacted texts that do not contain the target once both
      are case-folded. */
  lemma SensitiveIffTargetOrPattern(t: Charset, value: string, target: string)
    requires t.Standard()
    ensures var x, folded := Strip(t.space, target), t.casefold(value);
            ContainsSensitiveText(t, value, target) <==>
              || !Redacted(t, value)
              || (x != "" && Within(folded, t.casefold(x)))
  {
    SearchIffNotClean(t, Email, value);
    SearchIffNotClean(t, Cpf, value);
    SearchIffNotClean(t, Phone, value);
    SearchIffNotClean(t, Url, value);
    WithinIffContained(t.casefold(value), t.casefold(Strip(t.space, target)));
  }
}
