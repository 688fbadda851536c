/** The coordinate pass: what it leaves in any text, and what it does to printed JSON. */
module ScrubPairs {
  import opened Options
  import opened Chars
  import opened Regexes
  import opened CoordinatePairs
  import opened ScrubText
  import opened ScrubJson

  // ----- A match depends on its own characters only -----

  predicate ContextFree(r: Regex) {
    match r
    case Cat(a, b) => ContextFree(a) && ContextFree(b)
    case Either(a, b) => ContextFree(a) && ContextFree(b)
    case NotAhead(_) => false
    case End => false
    case _ => true
  }

  predicate Uses(r: Regex, c: char) {
    match r
    case One(cls) => cls.Has(c)
    case Repeat(cls, _, _) => cls.Has(c)
    case Star(cls) => cls.Has(c)
    case Cat(a, b) => Uses(a, c) || Uses(b, c)
    case Either(a, b) => Uses(a, c) || Uses(b, c)
    case _ => false
  }

  lemma {:induction false} MatchesElsewhere(r: Regex, s: string, i: nat, j: nat, t: string, k: nat)
    requires ContextFree(r) && Matches(r, s, i, j)
    requires k + (j - i) <= |t| && s[i..j] == t[k..k + (j - i)]
    ensures Matches(r, t, k, k + (j - i))
  {
    assert forall x :: i <= x < j ==> s[x] == s[i..j][x - i] == t[k..k + (j - i)][x - i] == t[k + (x - i)];
    match r
    case Cat(a, b) =>
      var m := CatSplit(a, b, s, i, j);
      var n := k + (m - i);
      assert s[i..m] == t[k..n] && s[m..j] == t[n..n + (j - m)];
      MatchesElsewhere(a, s, i, m, t, k);
      MatchesElsewhere(b, s, m, j, t, n);
      CatJoin(a, b, t, k, n, k + (j - i));
    case Either(a, b) =>
      if Matches(a, s, i, j) { MatchesElsewhere(a, s, i, j, t, k); } else { MatchesElsewhere(b, s, i, j, t, k); }
    case Repeat(cls, _, _) =>
      assert forall y :: k <= y < k + (j - i) ==> t[y] == s[i + (y - k)];
    case Star(cls) =>
      assert forall y :: k <= y < k + (j - i) ==> t[y] == s[i + (y - k)];
    case _ =>
  }

  lemma {:induction false} MatchUsesOnly(r: Regex, s: string, i: nat, j: nat, c: char)
    requires Matches(r, s, i, j) && !Uses(r, c)
    ensures forall x :: i <= x < j ==> s[x] != c
  {
    match r
    case Cat(a, b) =>
      var m := CatSplit(a, b, s, i, j);
      MatchUsesOnly(a, s, i, m, c);
      MatchUsesOnly(b, s, m, j, c);
    case Either(a, b) =>
      if Matches(a, s, i, j) { MatchUsesOnly(a, s, i, j, c); } else { MatchUsesOnly(b, s, i, j, c); }
    case _ =>
  }

  const FOREIGN: set<char> := {'"', '\\', 's', '{'}

  lemma PairIsContextFree()
    ensures ContextFree(COORDINATE_PAIR)
  {
    var tail := Cat(Optional(Cat(COMMA, ALTITUDE)), CLOSE);
    assert ContextFree(SIGN) && ContextFree(FRACTION);
    assert ContextFree(COMMA) && ContextFree(DECIMAL) && ContextFree(ALTITUDE) && ContextFree(CLOSE);
    assert ContextFree(tail) && ContextFree(Cat(DECIMAL, tail)) && ContextFree(Cat(COMMA, Cat(DECIMAL, tail)));
    assert ContextFree(Cat(DECIMAL, Cat(COMMA, Cat(DECIMAL, tail))));
  }

  lemma CatAvoids(a: Regex, b: Regex, c: char)
    requires !Uses(a, c) && !Uses(b, c)
    ensures !Uses(Cat(a, b), c)
  {
  }

  lemma OptionalAvoids(r: Regex, c: char)
    requires !Uses(r, c)
    ensures !Uses(Optional(r), c)
  {
  }

  lemma PiecesAvoid(c: char)
    requires c !in {',', '-', '.'} && !IsDigit(c) && !IsSpace(c)
    ensures !Uses(GAP, c) && !Uses(COMMA, c) && !Uses(DECIMAL, c) && !Uses(ALTITUDE, c)
    ensures !Uses(Optional(Cat(COMMA, ALTITUDE)), c)
  {
    CatAvoids(One(Lit(',')), GAP, c);
    CatAvoids(GAP, Cat(One(Lit(',')), GAP), c);
    OptionalAvoids(One(Lit('-')), c);
    CatAvoids(One(Lit('.')), Repeat(Digit, 1, 20), c);
    OptionalAvoids(FRACTION, c);
    CatAvoids(Repeat(Digit, 1, 3), FRACTION, c);
    CatAvoids(SIGN, Cat(Repeat(Digit, 1, 3), FRACTION), c);
    CatAvoids(Repeat(Digit, 1, 9), Optional(FRACTION), c);
    CatAvoids(SIGN, Cat(Repeat(Digit, 1, 9), Optional(FRACTION)), c);
    CatAvoids(COMMA, ALTITUDE, c);
    OptionalAvoids(Cat(COMMA, ALTITUDE), c);
  }

  /** The pattern after its opening bracket, and after that and the gap. */
  const AFTER_OPEN: Regex :=
    Cat(GAP, Cat(DECIMAL, Cat(COMMA, Cat(DECIMAL, Cat(Optional(Cat(COMMA, ALTITUDE)), CLOSE)))))

  lemma AfterOpenAvoids(c: char)
    requires c !in {',', '-', '.', ']'} && !IsDigit(c) && !IsSpace(c)
    ensures !Uses(AFTER_OPEN, c)
  {
    PiecesAvoid(c);
    var more := Optional(Cat(COMMA, ALTITUDE));
    CatAvoids(GAP, One(Lit(']')), c);
    CatAvoids(more, CLOSE, c);
    CatAvoids(DECIMAL, Cat(more, CLOSE), c);
    CatAvoids(COMMA, Cat(DECIMAL, Cat(more, CLOSE)), c);
    CatAvoids(DECIMAL, Cat(COMMA, Cat(DECIMAL, Cat(more, CLOSE))), c);
    CatAvoids(GAP, Cat(DECIMAL, Cat(COMMA, Cat(DECIMAL, Cat(more, CLOSE)))), c);
  }

  lemma PairAvoids(c: char)
    requires c !in {'[', ',', '-', '.', ']'} && !IsDigit(c) && !IsSpace(c)
    ensures !Uses(COORDINATE_PAIR, c)
  {
    AfterOpenAvoids(c);
    CatAvoids(One(Lit('[')), AFTER_OPEN, c);
  }

  /** The pattern, known by what it decides rather than by how it is written. */
  lemma ThePattern() returns (r: Regex)
    ensures ContextFree(r) && forall c :: c in FOREIGN ==> !Uses(r, c)
    ensures forall s: string, p: nat, e: nat {:trigger Matches(r, s, p, e)} ::
              Matches(r, s, p, e) <==> ReadPair(s, p) == Some(e)
  {
    r := COORDINATE_PAIR;
    PairIsContextFree();
    forall c | c in FOREIGN ensures !Uses(r, c) { PairAvoids(c); }
    forall s: string, p: nat, e: nat ensures Matches(r, s, p, e) <==> ReadPair(s, p) == Some(e) {
      ReadPairDecidesThePattern(s, p, e);
    }
  }

  lemma PairElsewhere(s: string, p: nat, e: nat, t: string, q: nat)
    requires ReadPair(s, p) == Some(e) && q + (e - p) <= |t| && s[p..e] == t[q..q + (e - p)]
    ensures ReadPair(t, q) == Some(q + (e - p))
  {
    var r := ThePattern();
    assert Matches(r, s, p, e);
    MatchesElsewhere(r, s, p, e, t, q);
  }

  lemma PairUsesOnly(s: string, p: nat, e: nat, c: char)
    requires ReadPair(s, p) == Some(e) && c in FOREIGN
    ensures forall x :: p <= x < e ==> s[x] != c
  {
    var r := ThePattern();
    assert Matches(r, s, p, e);
    MatchUsesOnly(r, s, p, e, c);
  }

  /** A pair cannot run over a character its pattern does not use. */
  lemma NoPairOver(s: string, p: nat, x: nat)
    requires p <= x < |s| && s[x] in FOREIGN
    ensures ReadPair(s, p).Some? ==> ReadPair(s, p).value <= x
  {
    if ReadPair(s, p).Some? { PairUsesOnly(s, p, ReadPair(s, p).value, s[x]); }
  }

  // ----- No pair is left -----

  lemma CopiesFirst(text: string, i: nat)
    requires i <= |text| && ReplacePairs(text, i) != "" && ReplacePairs(text, i)[0] != '"'
    ensures i < |text| && ReplacePairs(text, i) == [text[i]] + ReplacePairs(text, i + 1)
  {
  }

  lemma CopyStep(text: string, i: nat, n: nat, rest: string)
    requires 0 < n && i + n <= |text| && n - 1 <= |rest| && rest[..n - 1] == text[i + 1..i + n]
    ensures ([text[i]] + rest)[..n] == text[i..i + n]
  {
    ConsTakes(text[i], rest, n - 1);
    SliceCons(text, i, i + n);
  }

  predicate QuoteFree(s: string, n: nat)
    requires n <= |s|
  {
    forall x :: 0 <= x < n ==> s[x] != '"'
  }

  lemma QuoteFreeTail(c: char, rest: string, n: nat)
    requires 0 < n <= |rest| + 1 && QuoteFree([c] + rest, n)
    ensures QuoteFree(rest, n - 1)
  {
    assert forall x :: 0 <= x < n - 1 ==> rest[x] == ([c] + rest)[x + 1];
  }

  /** Up to the first mark the coordinate pass copies. */
  lemma {:induction false} CopiedPrefix(text: string, i: nat, n: nat, out: string)
    requires i <= |text| && out == ReplacePairs(text, i) && n <= |out| && QuoteFree(out, n)
    ensures i + n <= |text| && out[..n] == text[i..i + n]
    decreases n
  {
    if n > 0 {
      CopiesFirst(text, i);
      var rest := ReplacePairs(text, i + 1);
      QuoteFreeTail(text[i], rest, n);
      CopiedPrefix(text, i + 1, n - 1, rest);
      CopyStep(text, i, n, rest);
    }
  }

  lemma ConsTakes(c: char, rest: string, n: nat)
    requires n <= |rest|
    ensures ([c] + rest)[..n + 1] == [c] + rest[..n]
  {
  }

  lemma SliceCons(s: string, a: nat, b: nat)
    requires a < b <= |s|
    ensures s[a..b] == [s[a]] + s[a + 1..b]
  {
  }

  lemma ConsSlice(c: char, rest: string, a: nat, b: nat)
    requires a <= b <= |rest|
    ensures ([c] + rest)[a + 1..b + 1] == rest[a..b]
  {
  }

  lemma SliceOfDrop(s: string, d: nat, a: nat, b: nat)
    requires d <= a <= b <= |s|
    ensures s[d..][a - d..b - d] == s[a..b]
  {
  }

  lemma ShiftedSlice(s: string, n: nat, b: string, p: nat, e: nat, k: nat)
    requires n <= p <= e <= |s| && s[n..] == b && k == p - n
    ensures k + (e - p) <= |b| && s[p..e] == b[k..k + (e - p)]
  {
  }

  lemma PairsShift(s: string, n: nat, b: string, p: nat, e: nat, k: nat)
    requires n <= p < |s| && s[n..] == b && k == p - n && ReadPair(s, p) == Some(e)
    ensures k < |b| && ReadPair(b, k).Some?
  {
    ShiftedSlice(s, n, b, p, e, k);
    PairElsewhere(s, p, e, b, k);
  }

  lemma MarkIsPairFree(rest: string, q: nat)
    requires q < |MARK|
    ensures ReadPair(MARK + rest, q).None?
  {
    var s := MARK + rest;
    assert s[q] == MARK[q] && s[2] == 's';
    if q <= 1 { NoPairOver(s, q, 2); }
    if ReadPair(s, q).Some? { PairIsLong(s, q); }
  }

  lemma {:induction false} ReplacedIsPairFree(text: string, i: nat)
    requires i <= |text|
    ensures PairFree(ReplacePairs(text, i))
    decreases |text| - i
  {
    if i < |text| {
      var out := ReplacePairs(text, i);
      var n := if ReadPair(text, i).Some? then |MARK| else 1;
      var next := if ReadPair(text, i).Some? then ReadPair(text, i).value else i + 1;
      var head := if ReadPair(text, i).Some? then MARK else [text[i]];
      ReplacedIsPairFree(text, next);
      assert out == head + ReplacePairs(text, next);
      forall q: nat | q < |out| ensures ReadPair(out, q).None? {
        if q >= |head| {
          assert out[|head|..] == ReplacePairs(text, next);
          if ReadPair(out, q).Some? {
            PairsShift(out, |head|, ReplacePairs(text, next), q, ReadPair(out, q).value, q - |head|);
          }
        } else if ReadPair(text, i).Some? {
          MarkIsPairFree(ReplacePairs(text, next), q);
        } else if ReadPair(out, 0).Some? {
          PairUsesOnly(out, 0, ReadPair(out, 0).value, '"');
          CopiedPrefix(text, i, ReadPair(out, 0).value, out);
          PairElsewhere(out, 0, ReadPair(out, 0).value, text, i);
        }
      }
    }
  }

  /** Text with no backslash in it survives unescaping, wherever it stands. */
  lemma {:induction false} UnescapeKeeps(raw: string, p: nat, e: nat) returns (q: nat)
    requires p < e <= |raw| && forall x :: p <= x < e ==> raw[x] != '\\'
    ensures q + (e - p) <= |Unescape(raw)| && Unescape(raw)[q..q + (e - p)] == raw[p..e]
    decreases |raw|
  {
    var d := if raw[0] == '\\' && |raw| > 1 then 2 else 1;
    if p == 0 {
      q := 0;
      UnescapeKeepsPrefix(raw, e);
    } else if p >= d {
      q := UnescapeDrops(raw, d, p, e);
    } else {
      q := 0;
      EscapedThenKept(raw, e);
    }
  }

  lemma {:induction false} UnescapeDrops(raw: string, d: nat, p: nat, e: nat) returns (q: nat)
    requires d <= p < e <= |raw| && forall x :: p <= x < e ==> raw[x] != '\\'
    requires d == if raw[0] == '\\' && |raw| > 1 then 2 else 1
    ensures q + (e - p) <= |Unescape(raw)| && Unescape(raw)[q..q + (e - p)] == raw[p..e]
    decreases |raw|, 0
  {
    var rest := raw[d..];
    SliceOfDrop(raw, d, p, e);
    assert forall x :: p - d <= x < e - d ==> rest[x] == raw[x + d];
    var q' := UnescapeKeeps(rest, p - d, e - d);
    q := q' + 1;
    UnescapeSteps(raw, d);
    ConsSlice(raw[d - 1], Unescape(rest), q', q' + (e - p));
  }

  lemma UnescapeSteps(raw: string, d: nat)
    requires raw != "" && d == if raw[0] == '\\' && |raw| > 1 then 2 else 1
    ensures Unescape(raw) == [raw[d - 1]] + Unescape(raw[d..])
  {
  }

  /** The escaped character itself, then text without a backslash. */
  lemma EscapedThenKept(raw: string, e: nat)
    requires 1 < e <= |raw| && raw[0] == '\\' && forall x :: 1 <= x < e ==> raw[x] != '\\'
    ensures e - 1 <= |Unescape(raw)| && Unescape(raw)[0..e - 1] == raw[1..e]
  {
    var rest := raw[2..];
    UnescapeKeepsPrefix(rest, e - 2);
    UnescapeSteps(raw, 2);
    ConsTakes(raw[1], Unescape(rest), e - 2);
    SliceOfDrop(raw, 2, 2, e);
    assert raw[1..e] == [raw[1]] + raw[2..e];
  }

  lemma {:induction false} UnescapeKeepsPrefix(raw: string, e: nat)
    requires e <= |raw| && forall x :: 0 <= x < e ==> raw[x] != '\\'
    ensures e <= |Unescape(raw)| && Unescape(raw)[..e] == raw[..e]
    decreases e
  {
    if e > 0 {
      UnescapeKeepsPrefix(raw[1..], e - 1);
      UnescapeSteps(raw, 1);
      ConsTakes(raw[0], Unescape(raw[1..]), e - 1);
      assert raw[..e] == [raw[0]] + raw[1..][..e - 1];
    }
  }

  /** A string the scanner keeps holds no position. */
  lemma KeptStringIsPairFree(raw: string, depth: nat)
    requires depth <= MAX_STRING_DEPTH && !QuotedValueIsSensitive(raw, depth)
    ensures PairFree(raw)
  {
    forall p: nat | p < |raw| ensures ReadPair(raw, p).None? {
      if ReadPair(raw, p).Some? {
        var e := ReadPair(raw, p).value;
        assert raw[p] == '[';
        assert MayHoldKeyText(raw) && depth < MAX_STRING_DEPTH;
        var u := Unescape(raw);
        assert ScrubAt(u, depth + 1) == u;
        ReplacedIsPairFree(Scan(u, 0, -1, -1, depth + 1), 0);
        assert PairFree(u);
        PairUsesOnly(raw, p, e, '\\');
        var q := UnescapeKeeps(raw, p, e);
        PairElsewhere(raw, p, e, u, q);
      }
    }
  }
}
