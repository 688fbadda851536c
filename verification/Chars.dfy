/** The character classes of the source's regular expressions. */
module Chars {
  predicate IsDigit(c: char) { '0' <= c <= '9' }

  predicate IsLetter(c: char) { 'a' <= c <= 'z' || 'A' <= c <= 'Z' }

  /** `\s` */
  predicate IsSpace(c: char) {
    || c in {' ', '\t', '\n', '\r', '\U{000B}', '\U{000C}', '\U{00A0}', '\U{FEFF}', '\U{1680}'}
    || '\U{2000}' <= c <= '\U{200A}'
    || c in {'\U{2028}', '\U{2029}', '\U{202F}', '\U{205F}', '\U{3000}'}
  }

  /** `\w` */
  predicate IsWord(c: char) { IsLetter(c) || IsDigit(c) || c == '_' }

  /** `[A-Za-z_$]`, `[\w$-]` and `[\w$]` */
  predicate IsIdentStart(c: char) { IsLetter(c) || c == '_' || c == '$' }

  predicate IsIdentChar(c: char) { IsWord(c) || c == '$' || c == '-' }

  predicate IsWordChar(c: char) { IsWord(c) || c == '$' }

  predicate IsLineBreak(c: char) { c == '\n' || c == '\r' }

  predicate IsQuote(c: char) { c == '"' || c == '\'' }

  predicate IsBlank(c: char) { c == ' ' || c == '\t' }

  /** `toLowerCase` on ASCII letters; no other character lower-cases to a letter of a sensitive key. */
  function ToLower(c: char): char {
    if 'A' <= c <= 'Z' then c - 'A' + 'a' else c
  }

  function ToUpper(c: char): char {
    if 'a' <= c <= 'z' then c - 'a' + 'A' else c
  }
}
