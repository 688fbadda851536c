/** Which keys are sensitive, said of the keys themselves. */
module ScrubKeys {
  import opened Chars
  import opened ScrubText

  predicate IsSeparator(c: char) { c == '_' || c == '-' || IsSpace(c) }

  /** The same character, or the same letter in the other case. */
  predicate SameLetter(c: char, d: char) {
    c == d || (IsLetter(c) && IsLetter(d) && (c as int == d as int + 32 || d as int == c as int + 32))
  }

  /** The same letters in the same order, whatever their case and whatever separators stand between them. */
  predicate SpelledAlike(a: string, b: string)
    decreases |a| + |b|
  {
    if a != "" && IsSeparator(a[0]) then SpelledAlike(a[1..], b)
    else if b != "" && IsSeparator(b[0]) then SpelledAlike(a, b[1..])
    else if a == "" || b == "" then a == b
    else SameLetter(a[0], b[0]) && SpelledAlike(a[1..], b[1..])
  }

  lemma {:induction false} SpelledAlikeIff(a: string, b: string)
    ensures SpelledAlike(a, b) <==> NormalizeKey(a) == NormalizeKey(b)
    decreases |a| + |b|
  {
    if a != "" && IsSeparator(a[0]) {
      SpelledAlikeIff(a[1..], b);
    } else if b != "" && IsSeparator(b[0]) {
      SpelledAlikeIff(a, b[1..]);
    } else if a != "" && b != "" {
      SpelledAlikeIff(a[1..], b[1..]);
      SameHeadSameRest(ToLower(a[0]), NormalizeKey(a[1..]), ToLower(b[0]), NormalizeKey(b[1..]));
    }
  }

  lemma SameHeadSameRest(c: char, s: string, d: char, t: string)
    ensures [c] + s == [d] + t <==> c == d && s == t
  {
    assert ([c] + s)[0] == c && ([c] + s)[1..] == s;
    assert ([d] + t)[0] == d && ([d] + t)[1..] == t;
  }

  /** The key spells one of the first `n` names. */
  ghost predicate SpellsOneOf(key: string, n: nat) {
    exists k: nat :: k < n && SpelledAlike(key, SensitiveKey(k))
  }

  lemma SpellsOneMore(key: string, n: nat, name: string)
    requires n > 0 && name == SensitiveKey(n - 1)
    ensures SpellsOneOf(key, n) <==> SpelledAlike(key, name) || SpellsOneOf(key, n - 1)
  {
    if k: nat :| k < n && SpelledAlike(key, SensitiveKey(k)) { assert k == n - 1 || k < n - 1; }
  }

  lemma {:induction false} NamesOneOfIff(key: string, n: nat)
    requires n <= SENSITIVE_KEY_COUNT
    ensures NamesOneOf(NormalizeKey(key), n) <==> SpellsOneOf(key, n)
  {
    if n > 0 {
      NamesOneOfIff(key, n - 1);
      NamesOneMore(key, n, SensitiveKey(n - 1));
      SpellsOneMore(key, n, SensitiveKey(n - 1));
    }
  }

  lemma NamesOneMore(key: string, n: nat, name: string)
    requires 0 < n <= SENSITIVE_KEY_COUNT && name == SensitiveKey(n - 1)
    ensures NamesOneOf(NormalizeKey(key), n) <==> SpelledAlike(key, name) || NamesOneOf(NormalizeKey(key), n - 1)
  {
    SpelledAlikeIff(key, name);
  }

  /** Every spelling of a listed name is sensitive, whatever its case and separators, and no other key is. */
  lemma SensitiveKeysAreTheSpellings(key: string)
    ensures IsLocationSensitiveKey(key) <==>
            exists k: nat :: k < SENSITIVE_KEY_COUNT && SpelledAlike(key, SensitiveKey(k))
  {
    NamesOneOfIff(key, SENSITIVE_KEY_COUNT);
  }
}
