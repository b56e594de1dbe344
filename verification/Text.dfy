/** Stripping blanks off both ends of a text. */
module Text {
  function Lstrip(space: char -> bool, s: string): string {
    if s != "" && space(s[0]) then Lstrip(space, s[1..]) else s
  }

  function Rstrip(space: char -> bool, s: string): string {
    if s != "" && space(s[|s| - 1]) then Rstrip(space, s[..|s| - 1]) else s
  }

  function Strip(space: char -> bool, s: string): string { Rstrip(space, Lstrip(space, s)) }

  /** The characters that Unicode counts as white space. */
  predicate IsSpace(c: char) {
    || '\t' <= c <= '\r' || '\U{1c}' <= c <= ' ' || c == '\U{85}' || c == '\U{a0}' || c == '\U{1680}'
    || '\U{2000}' <= c <= '\U{200a}' || c == '\U{2028}' || c == '\U{2029}' || c == '\U{202f}' || c == '\U{205f}'
    || c == '\U{3000}'
  }

  function Trim(s: string): string { Strip(IsSpace, s) }

  predicate Unpadded(s: string) { s != "" ==> !IsSpace(s[0]) && !IsSpace(s[|s| - 1]) }

  lemma {:induction false} LstripEnds(space: char -> bool, s: string)
    ensures var l := Lstrip(space, s); l != "" ==> !space(l[0]) && s != "" && l[|l| - 1] == s[|s| - 1]
  {
    if s != "" && space(s[0]) {
      LstripEnds(space, s[1..]);
    }
  }

  lemma {:induction false} RstripEnds(space: char -> bool, s: string)
    ensures var r := Rstrip(space, s); r != "" ==> !space(r[|r| - 1]) && s != "" && r[0] == s[0]
  {
    if s != "" && space(s[|s| - 1]) {
      RstripEnds(space, s[..|s| - 1]);
    }
  }

  predicate Blank(space: char -> bool, s: string) { forall c :: c in s ==> space(c) }

  lemma {:induction false} LstripDropsBlanks(space: char -> bool, s: string) returns (i: nat)
    ensures i <= |s| && Blank(space, s[..i]) && Lstrip(space, s) == s[i..]
  {
    i := 0;
    if s != "" && space(s[0]) {
      var k := LstripDropsBlanks(space, s[1..]);
      i := k + 1;
      assert s[..i] == [s[0]] + s[1..][..k];
    }
  }

  lemma {:induction false} RstripDropsBlanks(space: char -> bool, s: string) returns (j: nat)
    ensures j <= |s| && Blank(space, s[j..]) && Rstrip(space, s) == s[..j]
  {
    j := |s|;
    if s != "" && space(s[|s| - 1]) {
      j := RstripDropsBlanks(space, s[..|s| - 1]);
      assert s[j..] == s[..|s| - 1][j..] + [s[|s| - 1]];
    }
  }

  /** Stripping takes blanks off both ends and nothing else. */
  lemma StripDropsBlanks(space: char -> bool, s: string) returns (i: nat, j: nat)
    ensures i <= j <= |s| && Strip(space, s) == s[i..j] && Blank(space, s[..i]) && Blank(space, s[j..])
    ensures i < j ==> !space(s[i]) && !space(s[j - 1])
  {
    i := LstripDropsBlanks(space, s);
    var k := RstripDropsBlanks(space, s[i..]);
    j := i + k;
    assert s[i..][k..] == s[j..];
    StripEnds(space, s);
  }

  lemma StripEnds(space: char -> bool, s: string)
    ensures var r := Strip(space, s); r != "" ==> !space(r[0]) && !space(r[|r| - 1])
  {
    LstripEnds(space, s);
    RstripEnds(space, Lstrip(space, s));
  }

  /** So does trimming: what is left is the text between its first and its last character that is not blank. */
  lemma TrimDropsBlanks(s: string) returns (i: nat, j: nat)
    ensures i <= j <= |s| && Trim(s) == s[i..j] && Blank(IsSpace, s[..i]) && Blank(IsSpace, s[j..])
    ensures i < j ==> !IsSpace(s[i]) && !IsSpace(s[j - 1])
  {
    i, j := StripDropsBlanks(IsSpace, s);
  }

  lemma TrimIsNoLonger(s: string)
    ensures |Trim(s)| <= |s|
  {
    var i, j := TrimDropsBlanks(s);
  }

  /** Trimming leaves no blank at either end, and exactly the texts without one are left alone. */
  lemma TrimIsFixedIffUnpadded(s: string)
    ensures Unpadded(Trim(s)) && Trim(Trim(s)) == Trim(s)
    ensures Trim(s) == s <==> Unpadded(s)
  {
    StripEnds(IsSpace, s);
  }
}
