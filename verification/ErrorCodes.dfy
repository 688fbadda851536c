/** Error codes and their i18n keys (packages/errors/src/codes.ts, lines 2602-2633). */
module ErrorCodes {
  import opened Options
  import opened Chars

  predicate IsUpper(c: char) { 'A' <= c <= 'Z' }

  predicate IsCodeChar(c: char) { IsUpper(c) || IsDigit(c) || c == '_' }

  /** Non-empty segments of letters and digits, joined by single underscores: `s` is what is left of a code. */
  predicate IsCodeTail(s: string) {
    && (forall k :: 0 <= k < |s| ==> IsCodeChar(s[k]))
    && (forall k :: 0 <= k < |s| && s[k] == '_' ==> k + 1 < |s| && s[k + 1] != '_')
  }

  predicate IsCode(s: string) { s != "" && s[0] != '_' && IsCodeTail(s) }

  function Lower(s: string): string { if s == "" then "" else [ToLower(s[0])] + Lower(s[1..]) }

  function Upper(s: string): string { if s == "" then "" else [ToUpper(s[0])] + Upper(s[1..]) }

  predicate IsLowerOrDigit(c: char) { 'a' <= c <= 'z' || IsDigit(c) }

  /** `.replace(/_([a-z0-9])/g, (_, c) => c.toUpperCase())` */
  function Camel(s: string): string {
    if s == "" then ""
    else if s[0] == '_' && |s| > 1 && IsLowerOrDigit(s[1]) then [ToUpper(s[1])] + Camel(s[2..])
    else [s[0]] + Camel(s[1..])
  }

  function ToKey(code: string): string { Camel(Lower(code)) }

  predicate StartsWord(c: char) { IsUpper(c) || IsDigit(c) }

  /** The reverse transform, as far as the snake_case form: an underscore before each capital or digit. */
  function Snake(key: string): string {
    if key == "" then ""
    else (if StartsWord(key[0]) then ['_', ToLower(key[0])] else [key[0]]) + Snake(key[1..])
  }

  /** `fromLegacyCode`: the upper-cased token, if it is registered. */
  function FromLegacyCode(registered: set<string>, raw: string): Option<string> {
    if raw != "" && Upper(raw) in registered then Some(Upper(raw)) else None
  }

  /** Every digit has an underscore right before it. */
  predicate DigitsStartSegments(s: string) {
    forall k :: 0 <= k < |s| && IsDigit(s[k]) ==> k > 0 && s[k - 1] == '_'
  }

  lemma {:induction false} UpperOfLower(s: string)
    requires forall k :: 0 <= k < |s| ==> IsCodeChar(s[k])
    ensures Upper(Lower(s)) == s && |Lower(s)| == |s|
  {
    if s != "" {
      UpperOfLower(s[1..]);
      UpperOfLowerChar(s[0]);
      UpperCons(ToLower(s[0]), Lower(s[1..]));
      assert s == [s[0]] + s[1..];
    }
  }

  lemma UpperOfLowerChar(c: char)
    requires IsCodeChar(c)
    ensures ToUpper(ToLower(c)) == c
  {
  }

  lemma UpperCons(c: char, rest: string)
    ensures Upper([c] + rest) == [ToUpper(c)] + Upper(rest)
  {
    assert ([c] + rest)[1..] == rest;
  }

  lemma LowerTwo(s: string, rest: string)
    requires |s| > 1 && rest == Lower(s[2..])
    ensures Lower(s) == [ToLower(s[0]), ToLower(s[1])] + rest
  {
    assert s[1..][1..] == s[2..];
  }

  lemma DropTwo(a: char, b: char, rest: string)
    ensures ([a, b] + rest)[2..] == rest
  {
  }

  lemma TailOfTail(s: string, n: nat)
    requires IsCodeTail(s) && n <= |s|
    ensures IsCodeTail(s[n..])
  {
    assert forall k :: 0 <= k < |s| - n ==> s[n..][k] == s[n + k];
  }

  function BackOf(c: char): string { Upper(if StartsWord(c) then ['_', ToLower(c)] else [c]) }

  lemma {:induction false} UpperConcat(s: string, t: string)
    ensures Upper(s + t) == Upper(s) + Upper(t)
  {
    if s == "" {
      assert s + t == t;
    } else {
      assert (s + t)[1..] == s[1..] + t;
      UpperConcat(s[1..], t);
    }
  }

  lemma BackCons(c: char, rest: string)
    ensures Upper(Snake([c] + rest)) == BackOf(c) + Upper(Snake(rest))
  {
    assert ([c] + rest)[1..] == rest;
    UpperConcat(if StartsWord(c) then ['_', ToLower(c)] else [c], Snake(rest));
  }

  lemma UpperOne(c: char)
    ensures Upper([c]) == [ToUpper(c)]
  {
    assert [c][1..] == "";
  }

  lemma BackOfIs(c: char)
    requires IsCodeChar(c) && c != '_'
    ensures BackOf(ToUpper(ToLower(c))) == ['_', c]
    ensures BackOf(ToLower(c)) == if IsDigit(c) then ['_', c] else [c]
  {
    assert ToUpper(ToLower(c)) == c;
    UpperOne(ToLower(c));
    assert ['_', ToLower(c)][1..] == [ToLower(c)];
  }

  /** A segment's first character, with its underscore, comes back as it was. */
  lemma UnderscoreBack(s: string)
    requires IsCodeTail(s) && s != "" && s[0] == '_'
    ensures Upper(Snake(Camel(Lower(s)))) == [s[0], s[1]] + Upper(Snake(Camel(Lower(s[2..]))))
  {
    LowerTwo(s, Lower(s[2..]));
    DropTwo(ToLower(s[0]), ToLower(s[1]), Lower(s[2..]));
    BackCons(ToUpper(ToLower(s[1])), Camel(Lower(s[2..])));
    BackOfIs(s[1]);
  }

  /** Any other letter comes back as it was; a digit gains an underscore. */
  lemma InnerBack(s: string)
    requires IsCodeTail(s) && s != "" && s[0] != '_'
    ensures Upper(Snake(Camel(Lower(s)))) ==
            (if IsDigit(s[0]) then ['_', s[0]] else [s[0]]) + Upper(Snake(Camel(Lower(s[1..]))))
  {
    assert Lower(s)[1..] == Lower(s[1..]);
    BackCons(ToLower(s[0]), Camel(Lower(s[1..])));
    BackOfIs(s[0]);
  }

  lemma DigitsOfTail(s: string, n: nat)
    requires 0 < n <= |s| && (n < |s| && IsDigit(s[n]) ==> s[n - 1] != '_')
    ensures DigitsStartSegments(s) <==> DigitsStartSegments(s[..n]) && DigitsStartSegments(s[n..])
  {
    assert forall k :: 0 <= k < n ==> s[..n][k] == s[k];
    assert forall k :: 0 <= k < |s| - n ==> s[n..][k] == s[n + k];
    assert forall k :: n <= k < |s| ==> s[k] == s[n..][k - n];
  }

  /** Going back keeps the text, or makes it longer. */
  predicate KeepsOrGrows(s: string, back: string, keeps: bool) {
    if keeps then back == s else |back| > |s|
  }

  lemma JoinBack(s: string, n: nat, head: string, back: string, keepsHead: bool, keepsTail: bool)
    requires n <= |s| && KeepsOrGrows(s[..n], head, keepsHead) && KeepsOrGrows(s[n..], back, keepsTail)
    ensures KeepsOrGrows(s, head + back, keepsHead && keepsTail)
  {
    assert s == s[..n] + s[n..];
  }

  /** Through the key and back only underscores are gained: one before each digit that had none. */
  lemma {:induction false} TailRoundTrip(s: string)
    requires IsCodeTail(s)
    ensures KeepsOrGrows(s, Upper(Snake(Camel(Lower(s)))), DigitsStartSegments(s))
    decreases |s|
  {
    if s != "" {
      var n := if s[0] == '_' then 2 else 1;
      var back := Upper(Snake(Camel(Lower(s[n..]))));
      TailOfTail(s, n);
      TailRoundTrip(s[n..]);
      DigitsOfTail(s, n);
      if s[0] == '_' {
        UnderscoreBack(s);
        assert s[..2] == [s[0], s[1]];
        JoinBack(s, 2, [s[0], s[1]], back, true, DigitsStartSegments(s[2..]));
      } else {
        InnerBack(s);
        assert s[..1] == [s[0]];
        var head := if IsDigit(s[0]) then ['_', s[0]] else [s[0]];
        JoinBack(s, 1, head, back, !IsDigit(s[0]), DigitsStartSegments(s[1..]));
      }
    }
  }

  // ----- What the key of a code looks like -----

  /** The parts of a code between its underscores. */
  function Segments(s: string): (r: seq<string>)
    ensures |r| > 0
  {
    if s == "" then [""]
    else
      var rest := Segments(s[1..]);
      if s[0] == '_' then [""] + rest else [[s[0]] + rest[0]] + rest[1..]
  }

  function WithUnderscores(segments: seq<string>): string {
    if segments == [] then "" else "_" + segments[0] + WithUnderscores(segments[1..])
  }

  /** Each segment with a capital, or a digit, first and the rest in lower case. */
  function Capitalized(segments: seq<string>): string {
    if segments == [] then ""
    else
      var s := segments[0];
      (if s == "" then "" else [s[0]] + Lower(s[1..])) + Capitalized(segments[1..])
  }

  lemma {:induction false} SegmentsRejoin(s: string)
    ensures Segments(s)[0] + WithUnderscores(Segments(s)[1..]) == s
  {
    if s != "" {
      SegmentsRejoin(s[1..]);
      assert s == [s[0]] + s[1..];
      assert Segments(s)[1..] == if s[0] == '_' then Segments(s[1..]) else Segments(s[1..])[1..];
    }
  }

  /** The first segment in lower case, and the others capitalized. */
  function Camelized(segments: seq<string>): string
    requires segments != []
  {
    Lower(segments[0]) + Capitalized(segments[1..])
  }

  lemma LetterInSegment(c: char, segments: seq<string>)
    requires segments != []
    ensures Camelized([[c] + segments[0]] + segments[1..]) == [ToLower(c)] + Camelized(segments)
  {
    var first := [c] + segments[0];
    assert ([first] + segments[1..])[1..] == segments[1..];
    assert first[1..] == segments[0];
  }

  lemma CapitalOfSegment(c: char, segments: seq<string>)
    requires segments != []
    ensures Camelized([""] + ([[c] + segments[0]] + segments[1..])) == [c] + Camelized(segments)
  {
    var first := [c] + segments[0];
    var inner := [first] + segments[1..];
    assert ([""] + inner)[1..] == inner;
    assert inner[1..] == segments[1..] && first[1..] == segments[0];
  }

  lemma LetterOfCode(s: string)
    requires IsCodeTail(s) && s != "" && s[0] != '_'
    ensures Camel(Lower(s)) == [ToLower(s[0])] + Camel(Lower(s[1..])) && ToLower(s[0]) != '_'
    ensures Segments(s) == [[s[0]] + Segments(s[1..])[0]] + Segments(s[1..])[1..]
  {
    assert Lower(s)[1..] == Lower(s[1..]);
  }

  lemma CapitalOfCode(s: string)
    requires IsCodeTail(s) && s != "" && s[0] == '_'
    ensures Camel(Lower(s)) == [s[1]] + Camel(Lower(s[2..])) && s[1] != '_'
    ensures Segments(s) == [""] + ([[s[1]] + Segments(s[2..])[0]] + Segments(s[2..])[1..])
  {
    LowerTwo(s, Lower(s[2..]));
    DropTwo(ToLower(s[0]), ToLower(s[1]), Lower(s[2..]));
    assert ToUpper(ToLower(s[1])) == s[1];
    assert s[1..][1..] == s[2..];
  }

  lemma {:induction false} CamelBySegments(s: string)
    requires IsCodeTail(s)
    ensures Camel(Lower(s)) == Camelized(Segments(s)) && '_' !in Camel(Lower(s))
    decreases |s|
  {
    if s == "" {
      assert [""][1..] == [];
    } else if s[0] == '_' {
      TailOfTail(s, 2);
      CamelBySegments(s[2..]);
      CapitalOfCode(s);
      CapitalOfSegment(s[1], Segments(s[2..]));
    } else {
      TailOfTail(s, 1);
      CamelBySegments(s[1..]);
      LetterOfCode(s);
      LetterInSegment(s[0], Segments(s[1..]));
    }
  }

  /** The key of a code: no underscore, and a capital or digit where each segment after the first starts. */
  lemma KeyBySegments(code: string)
    requires IsCode(code)
    ensures var segments := Segments(code);
            && segments[0] + WithUnderscores(segments[1..]) == code
            && ToKey(code) == Lower(segments[0]) + Capitalized(segments[1..])
            && '_' !in ToKey(code)
  {
    SegmentsRejoin(code);
    CamelBySegments(code);
  }

  // ----- The way back -----

  /** The exact reach of the round trip: the code comes back when every digit follows an underscore, and only then. */
  lemma KeyRoundTripsIff(registered: set<string>, code: string)
    requires IsCode(code) && code in registered
    ensures FromLegacyCode(registered, Snake(ToKey(code))) == Some(code) <==> DigitsStartSegments(code)
  {
    TailRoundTrip(code);
  }

  /** No two such codes share a key. */
  lemma KeysAreDistinct(a: string, b: string)
    requires IsCode(a) && IsCode(b) && DigitsStartSegments(a) && DigitsStartSegments(b)
    ensures ToKey(a) == ToKey(b) <==> a == b
  {
    TailRoundTrip(a);
    TailRoundTrip(b);
  }

  /** A registered code is found again from its lower-case form; nothing unregistered is ever found. */
  lemma LegacyFormFindsCodeIff(registered: set<string>, code: string)
    requires IsCode(code)
    ensures FromLegacyCode(registered, Lower(code)) == Some(code) <==> code in registered
  {
    UpperOfLower(code);
  }
}
