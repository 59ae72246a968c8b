/** Secrets as internal/security handles them: hashes, seals, personal access tokens, password
    strength. bcrypt and AES-GCM are ideal. */
module Security {
  import opened Text
  import opened Wrappers

  // An ideal hash: it matches exactly the secret it was made from.
  datatype Hash = HashOf(secret: string)

  predicate CheckSecret(secret: string, h: Hash) {
    h == HashOf(secret)
  }

  // Authenticated encryption, ideal: opening gives back what was sealed.
  datatype Sealed = Seal(plain: string)

  function Open(s: Sealed): string {
    s.plain
  }

  // ---- Personal access tokens

  const PAT_PREFIX := "kalke_"

  predicate IsPat(token: string) {
    HasPrefix(token, PAT_PREFIX)
  }

  // strings.IndexByte, or |s|.
  function IndexOf(s: string, c: char): (i: nat)
    ensures i <= |s| && (i < |s| ==> s[i] == c)
    ensures forall j :: 0 <= j < i ==> s[j] != c
  {
    if s == "" || s[0] == c then 0
    else
      var m := IndexOf(s[1..], c);
      assert forall j :: 1 <= j < m + 1 ==> s[j] == s[1..][j - 1];
      1 + m
  }

  function PatPrefixFromToken(token: string): Option<string> {
    if !IsPat(token) then None
    else
      var rest := token[|PAT_PREFIX|..];
      var i := IndexOf(rest, '_');
      if i == 0 || i == |rest| then None else Some(rest[..i])
  }

  // hex.EncodeToString of six bytes
  predicate HexPrefix(p: string) {
    |p| == 12 && forall i :: 0 <= i < |p| ==> '0' <= p[i] <= '9' || 'a' <= p[i] <= 'f'
  }

  // base64.RawURLEncoding: letters, digits, '-' and '_' (section 5 of RFC 4648)
  predicate Base64Url(s: string) {
    forall i :: 0 <= i < |s| ==>
      'a' <= s[i] <= 'z' || 'A' <= s[i] <= 'Z' || '0' <= s[i] <= '9' || s[i] == '-' || s[i] == '_'
  }

  function MakePat(prefix: string, secret: string): string {
    PAT_PREFIX + (prefix + ("_" + secret))
  }

  lemma IndexIs(s: string, c: char, k: nat)
    requires k < |s| && s[k] == c && forall j :: 0 <= j < k ==> s[j] != c
    ensures IndexOf(s, c) == k
  {
    var i := IndexOf(s, c);
    assert i == |s| || s[i] == c;
  }

  // The prefix is found even though the secret may itself contain underscores, and a token
  // survives the trimming of its text.
  lemma PatRoundTrip(prefix: string, secret: string)
    requires HexPrefix(prefix) && Base64Url(secret)
    ensures IsPat(MakePat(prefix, secret))
    ensures PatPrefixFromToken(MakePat(prefix, secret)) == Some(prefix)
    ensures Trim(MakePat(prefix, secret)) == MakePat(prefix, secret)
  {
    var t := MakePat(prefix, secret);
    var rest := prefix + ("_" + secret);
    assert t[|PAT_PREFIX|..] == rest;
    IndexIs(rest, '_', |prefix|);
    assert rest[..|prefix|] == prefix;
    assert t[0] == 'k';
    assert t[|t| - 1] == if secret == "" then '_' else secret[|secret| - 1];
    TrimFixed(t);
  }

  // ---- Password strength; unicode.IsLetter is a parameter

  const MIN_RUNES := 10

  predicate Digit(c: char) {
    '0' <= c <= '9'
  }

  datatype Strength = Strong | TooShort | NeedsLetter | NeedsNumber

  predicate HasLetter(letter: char -> bool, p: string) {
    exists i :: 0 <= i < |p| && letter(p[i])
  }

  predicate HasDigit(p: string) {
    exists i :: 0 <= i < |p| && Digit(p[i])
  }

  predicate StrongPassword(letter: char -> bool, p: string) {
    |p| >= MIN_RUNES && HasLetter(letter, p) && HasDigit(p)
  }

  // The answer names the first requirement not met, in the order length, letter, digit.
  predicate Answers(letter: char -> bool, p: string, r: Strength) {
    && (r == Strong <==> StrongPassword(letter, p))
    && (r == TooShort <==> |p| < MIN_RUNES)
    && (r == NeedsLetter <==> |p| >= MIN_RUNES && !HasLetter(letter, p))
  }

  // What strength is: ten runes, a letter and an ASCII digit.
  lemma StrengthMeans(letter: char -> bool, p: string)
    ensures StrongPassword(letter, p)
            <==> && |p| >= 10 && (exists i :: 0 <= i < |p| && letter(p[i]))
                 && exists i :: 0 <= i < |p| && '0' <= p[i] <= '9'
  {
    if HasDigit(p) {
      var i :| 0 <= i < |p| && Digit(p[i]);
      assert '0' <= p[i] <= '9';
    }
    if i :| 0 <= i < |p| && '0' <= p[i] <= '9' {
      assert Digit(p[i]);
    }
  }

  method PasswordStrengthError(letter: char -> bool, p: string) returns (r: Strength)
    ensures Answers(letter, p, r)
    ensures r == TooShort <==> |p| < 10
    ensures r == NeedsLetter <==> |p| >= 10 && forall i :: 0 <= i < |p| ==> !letter(p[i])
    ensures r == Strong ==> exists i :: 0 <= i < |p| && '0' <= p[i] <= '9'
    ensures r == NeedsNumber ==> forall i :: 0 <= i < |p| ==> !('0' <= p[i] <= '9')
  {
    if |p| < MIN_RUNES {
      return TooShort;
    }
    var hasLetter, hasDigit := false, false;
    for i := 0 to |p|
      invariant hasLetter <==> exists k :: 0 <= k < i && letter(p[k])
      invariant hasDigit <==> exists k :: 0 <= k < i && Digit(p[k])
    {
      if letter(p[i]) {
        hasLetter := true;
      }
      if Digit(p[i]) {
        hasDigit := true;
      }
    }
    if !hasLetter {
      return NeedsLetter;
    }
    if !hasDigit {
      return NeedsNumber;
    }
    return Strong;
  }
}
