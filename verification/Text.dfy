/** Strings as the Go code sees them: white space, trimming, lower-casing.
    A string is a sequence of Unicode scalar values. */
module Text {

  // The code points Go's unicode.IsSpace accepts.
  predicate IsSpace(c: char) {
    || '\t' <= c <= '\r'
    || c == ' '
    || c == '\U{0085}'
    || c == '\U{00A0}'
    || c == '\U{1680}'
    || '\U{2000}' <= c <= '\U{200A}'
    || c == '\U{2028}'
    || c == '\U{2029}'
    || c == '\U{202F}'
    || c == '\U{205F}'
    || c == '\U{3000}'
  }

  function TrimLeft(s: string): string {
    if s == "" || !IsSpace(s[0]) then s else TrimLeft(s[1..])
  }

  function TrimRight(s: string): string {
    if s == "" || !IsSpace(s[|s| - 1]) then s else TrimRight(s[..|s| - 1])
  }

  function Trim(s: string): string {
    TrimRight(TrimLeft(s))
  }

  // No white space at either end.
  predicate Trimmed(s: string) {
    s == "" || (!IsSpace(s[0]) && !IsSpace(s[|s| - 1]))
  }

  function LowerChar(c: char): char {
    if 'A' <= c <= 'Z' then (c as int + 32) as char else c
  }

  function Lower(s: string): string {
    seq(|s|, i requires 0 <= i < |s| => LowerChar(s[i]))
  }

  // strings.ToLower(strings.TrimSpace(s)), the form of every stored e-mail address.
  function Normalize(s: string): string {
    Lower(Trim(s))
  }

  predicate HasPrefix(s: string, p: string) {
    p <= s
  }

  predicate AllSpace(s: string) {
    forall i :: 0 <= i < |s| ==> IsSpace(s[i])
  }

  lemma {:induction false} TrimLeftSuffix(s: string) returns (k: nat)
    ensures k <= |s| && TrimLeft(s) == s[k..] && AllSpace(s[..k])
    ensures TrimLeft(s) == "" || !IsSpace(TrimLeft(s)[0])
  {
    if s == "" || !IsSpace(s[0]) {
      k := 0;
    } else {
      var m := TrimLeftSuffix(s[1..]);
      k := m + 1;
      assert s[1..][m..] == s[k..];
      forall i | 0 <= i < k ensures IsSpace(s[i]) {
        assert i > 0 ==> s[i] == s[1..][..m][i - 1];
      }
    }
  }

  lemma {:induction false} TrimRightPrefix(s: string) returns (k: nat)
    ensures k <= |s| && TrimRight(s) == s[..k] && AllSpace(s[k..])
    ensures TrimRight(s) == "" || !IsSpace(TrimRight(s)[|TrimRight(s)| - 1])
  {
    if s == "" || !IsSpace(s[|s| - 1]) {
      k := |s|;
    } else {
      var t := s[..|s| - 1];
      k := TrimRightPrefix(t);
      assert t[..k] == s[..k];
      assert s[k..] == t[k..] + [s[|s| - 1]];
    }
  }

  // Trimming removes exactly a run of white space at each end.
  lemma TrimIsWindow(s: string) returns (i: nat, j: nat)
    ensures i <= j <= |s| && Trim(s) == s[i..j]
    ensures AllSpace(s[..i]) && AllSpace(s[j..])
    ensures Trimmed(Trim(s))
  {
    i := TrimLeftSuffix(s);
    var t := s[i..];
    var m := TrimRightPrefix(t);
    j := i + m;
    assert t[..m] == s[i..j] && t[m..] == s[j..];
  }

  lemma TrimFixed(s: string)
    requires Trimmed(s)
    ensures Trim(s) == s
  {
  }

  lemma TrimIdempotent(s: string)
    ensures Trim(Trim(s)) == Trim(s)
  {
    var _, _ := TrimIsWindow(s);
    TrimFixed(Trim(s));
  }

  // ---- Lower-casing, whatever the letters

  // What unicode.ToLower does one rune at a time: white space stays white space and nothing else
  // becomes it, and lower case stays as it is.
  ghost predicate Lowers(lower: char -> char) {
    forall c :: IsSpace(lower(c)) == IsSpace(c) && lower(lower(c)) == lower(c)
  }

  function LowerBy(lower: char -> char, s: string): string {
    seq(|s|, i requires 0 <= i < |s| => lower(s[i]))
  }

  function NormalizeBy(lower: char -> char, s: string): string {
    LowerBy(lower, Trim(s))
  }

  // A normalised address is its own normal form.
  lemma NormalizeByIdempotent(lower: char -> char, s: string)
    requires Lowers(lower)
    ensures NormalizeBy(lower, NormalizeBy(lower, s)) == NormalizeBy(lower, s)
    ensures Trimmed(NormalizeBy(lower, s))
  {
    var _, _ := TrimIsWindow(s);
    TrimFixed(LowerBy(lower, Trim(s)));
  }

  // login lower-cases before it trims; every other handler trims first. The two orders agree.
  lemma TrimLowerByCommute(lower: char -> char, s: string)
    requires Lowers(lower)
    ensures Trim(LowerBy(lower, s)) == NormalizeBy(lower, s)
  {
    LeftLowerBy(lower, s);
    RightLowerBy(lower, TrimLeft(s));
  }

  lemma {:induction false} LeftLowerBy(lower: char -> char, s: string)
    requires Lowers(lower)
    ensures TrimLeft(LowerBy(lower, s)) == LowerBy(lower, TrimLeft(s))
  {
    if s != "" && IsSpace(s[0]) {
      LeftLowerBy(lower, s[1..]);
      assert LowerBy(lower, s)[1..] == LowerBy(lower, s[1..]);
    }
  }

  lemma {:induction false} RightLowerBy(lower: char -> char, s: string)
    requires Lowers(lower)
    ensures TrimRight(LowerBy(lower, s)) == LowerBy(lower, TrimRight(s))
  {
    if s != "" && IsSpace(s[|s| - 1]) {
      RightLowerBy(lower, s[..|s| - 1]);
      assert LowerBy(lower, s)[..|s| - 1] == LowerBy(lower, s[..|s| - 1]);
    }
  }

  // ---- The ASCII letters, as the rest of the model uses them

  lemma AsciiLowers()
    ensures Lowers(LowerChar)
  {
  }

  lemma NormalizeIsBy(s: string)
    ensures Normalize(s) == NormalizeBy(LowerChar, s)
  {
  }

  lemma NormalizeIdempotent(s: string)
    ensures Normalize(Normalize(s)) == Normalize(s)
    ensures Trimmed(Normalize(s))
    ensures Trim(Normalize(s)) == Normalize(s)
  {
    AsciiLowers();
    NormalizeIsBy(s);
    NormalizeIsBy(Normalize(s));
    NormalizeByIdempotent(LowerChar, s);
    TrimFixed(Normalize(s));
  }
}
