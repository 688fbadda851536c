/**
 * The cookie guard of the shared cache (apps/web/next.config.ts, lines 159-209):
 * the regular expression Next matches against the whole `Cookie` header, and
 * what it is meant to say about the header's pairs.
 */
module CookieGuard {
  import opened Chars
  import opened Regexes

  const LOCALE_COOKIE := "th-locale"
  const DEFAULT_LOCALE := "en"
  const NAME := LOCALE_COOKIE + "="

  /** `en\s*(?:;|$)` */
  const DEFAULT_VALUE: Regex := Cat(Word(DEFAULT_LOCALE), Cat(Star(Space), Either(One(Lit(';')), End)))

  /** `(?:.*;)?\s*th-locale=(?!en\s*(?:;|$)).*` */
  const NOT_A_CHOSEN_LANGUAGE: Regex :=
    Cat(Optional(Cat(Star(Dot), One(Lit(';')))),
        Cat(Star(Space), Cat(Word(NAME), Cat(NotAhead(DEFAULT_VALUE), Star(Dot)))))

  /** The guard as Next applies it, anchored at both ends. */
  ghost predicate GuardMatches(header: string) { Matches(NOT_A_CHOSEN_LANGUAGE, header, 0, |header|) }

  // ----- The meaning -----

  function FirstSemicolon(h: string, i: nat): (b: nat)
    requires i <= |h|
    ensures i <= b <= |h| && (b < |h| ==> h[b] == ';') && forall x :: i <= x < b ==> h[x] != ';'
    decreases |h| - i
  {
    if i == |h| || h[i] == ';' then i else FirstSemicolon(h, i + 1)
  }

  /** `header.split(";")`, from `i` on. */
  function Pieces(h: string, i: nat): seq<string>
    requires i <= |h|
    decreases |h| - i
  {
    var b := FirstSemicolon(h, i);
    [h[i..b]] + if b < |h| then Pieces(h, b + 1) else []
  }

  function TrimLeft(s: string): string {
    if s != "" && IsSpace(s[0]) then TrimLeft(s[1..]) else s
  }

  predicate StartsWith(s: string, prefix: string) { |prefix| <= |s| && s[..|prefix|] == prefix }

  /** The default locale and trailing whitespace. */
  predicate IsDefault(value: string) {
    StartsWith(value, DEFAULT_LOCALE) && forall x :: |DEFAULT_LOCALE| <= x < |value| ==> IsSpace(value[x])
  }

  /** A pair that sets the locale to something else than the default. */
  predicate ChoosesLanguage(piece: string) {
    var pair := TrimLeft(piece);
    StartsWith(pair, NAME) && !IsDefault(pair[|NAME|..])
  }

  predicate OneLine(h: string) { forall x :: 0 <= x < |h| ==> Dot.Has(h[x]) }

  // ----- Pieces and their places -----

  predicate PieceAt(h: string, a: nat, b: nat) {
    && a <= b <= |h| && (a == 0 || h[a - 1] == ';') && (b == |h| || h[b] == ';')
    && forall x :: a <= x < b ==> h[x] != ';'
  }

  lemma FirstSemicolonIs(h: string, i: nat, b: nat)
    requires i <= b <= |h| && (b == |h| || h[b] == ';') && forall x :: i <= x < b ==> h[x] != ';'
    ensures FirstSemicolon(h, i) == b
  {
  }

  lemma {:induction false} PieceStands(h: string, i: nat, piece: string) returns (a: nat, b: nat)
    requires i <= |h| && (i == 0 || h[i - 1] == ';') && piece in Pieces(h, i)
    ensures PieceAt(h, a, b) && h[a..b] == piece
    decreases |h| - i
  {
    a, b := i, FirstSemicolon(h, i);
    if piece != h[a..b] { a, b := PieceStands(h, b + 1, piece); }
  }

  lemma {:induction false} PlaceIsAPiece(h: string, i: nat, a: nat, b: nat)
    requires i <= a && PieceAt(h, a, b) && (i == 0 || h[i - 1] == ';')
    ensures h[a..b] in Pieces(h, i)
    decreases |h| - i
  {
    var first := FirstSemicolon(h, i);
    if a == i {
      FirstSemicolonIs(h, i, b);
    } else {
      assert h[a - 1] == ';';
      PlaceIsAPiece(h, first + 1, a, b);
    }
  }

  lemma {:induction false} TrimLeftStops(s: string, n: nat)
    requires n <= |s| && (n < |s| ==> !IsSpace(s[n])) && forall x :: 0 <= x < n ==> IsSpace(s[x])
    ensures TrimLeft(s) == s[n..]
  {
    if n > 0 { TrimLeftStops(s[1..], n - 1); }
  }

  lemma {:induction false} TrimLeftLeaves(s: string) returns (n: nat)
    ensures n <= |s| && TrimLeft(s) == s[n..] && forall x :: 0 <= x < n ==> IsSpace(s[x])
  {
    n := 0;
    if s != "" && IsSpace(s[0]) {
      var m := TrimLeftLeaves(s[1..]);
      n := m + 1;
      assert forall x :: 0 < x < n ==> s[x] == s[1..][x - 1];
    }
  }

  // ----- The guard at a place -----

  /** The guard finds the name at `p`, after blanks from `a`, the start of a piece, with no default value at `q`. */
  ghost predicate NameAt(h: string, a: nat, p: nat, q: nat) {
    && a <= p <= q <= |h| && (a == 0 || h[a - 1] == ';')
    && (forall x :: a <= x < p ==> IsSpace(h[x]))
    && q == p + |NAME| && h[p..q] == NAME
    && !(exists e: nat :: Matches(DEFAULT_VALUE, h, q, e))
  }

  lemma MatchFindsName(h: string) returns (a: nat, p: nat, q: nat)
    requires GuardMatches(h)
    ensures NameAt(h, a, p, q)
  {
    var ahead := Cat(NotAhead(DEFAULT_VALUE), Star(Dot));
    a := CatSplit(Optional(Cat(Star(Dot), One(Lit(';')))), Cat(Star(Space), Cat(Word(NAME), ahead)), h, 0, |h|);
    p := CatSplit(Star(Space), Cat(Word(NAME), ahead), h, a, |h|);
    q := CatSplit(Word(NAME), ahead, h, p, |h|);
    var q' := CatSplit(NotAhead(DEFAULT_VALUE), Star(Dot), h, q, |h|);
    WordMatches(NAME, h, p, q);
    if Matches(Cat(Star(Dot), One(Lit(';'))), h, 0, a) {
      var m := CatSplit(Star(Dot), One(Lit(';')), h, 0, a);
    }
  }

  lemma NameGivesMatch(h: string, a: nat, p: nat, q: nat)
    requires OneLine(h) && NameAt(h, a, p, q)
    ensures GuardMatches(h)
  {
    var ahead := Cat(NotAhead(DEFAULT_VALUE), Star(Dot));
    WordMatches(NAME, h, p, q);
    CatJoin(NotAhead(DEFAULT_VALUE), Star(Dot), h, q, q, |h|);
    CatJoin(Word(NAME), ahead, h, p, q, |h|);
    CatJoin(Star(Space), Cat(Word(NAME), ahead), h, a, p, |h|);
    if a > 0 { CatJoin(Star(Dot), One(Lit(';')), h, 0, a - 1, a); }
    assert Matches(Optional(Cat(Star(Dot), One(Lit(';')))), h, 0, a);
    CatJoin(Optional(Cat(Star(Dot), One(Lit(';')))), Cat(Star(Space), Cat(Word(NAME), ahead)), h, 0, a, |h|);
  }

  /** The value from `q` up to the end of its piece. */
  predicate ValueAt(h: string, q: nat, b: nat) {
    q <= b <= |h| && (b == |h| || h[b] == ';') && forall x :: q <= x < b ==> h[x] != ';'
  }

  lemma FoundIsDefault(h: string, q: nat, b: nat, e: nat)
    requires ValueAt(h, q, b) && Matches(DEFAULT_VALUE, h, q, e)
    ensures IsDefault(h[q..b])
  {
    var stop := Either(One(Lit(';')), End);
    var m := CatSplit(Word(DEFAULT_LOCALE), Cat(Star(Space), stop), h, q, e);
    var r := CatSplit(Star(Space), stop, h, m, e);
    WordMatches(DEFAULT_LOCALE, h, q, m);
    DefaultEnds(h, q, m, r, b);
  }

  lemma DefaultIsFound(h: string, q: nat, b: nat) returns (e: nat)
    requires ValueAt(h, q, b) && IsDefault(h[q..b])
    ensures Matches(DEFAULT_VALUE, h, q, e)
  {
    var stop := Either(One(Lit(';')), End);
    var m := q + |DEFAULT_LOCALE|;
    assert h[q..m] == h[q..b][..|DEFAULT_LOCALE|];
    WordMatches(DEFAULT_LOCALE, h, q, m);
    assert forall x :: m <= x < b ==> h[x] == h[q..b][x - q];
    e := if b == |h| then b else b + 1;
    assert Matches(stop, h, b, e);
    CatJoin(Star(Space), stop, h, m, b, e);
    CatJoin(Word(DEFAULT_LOCALE), Cat(Star(Space), stop), h, q, m, e);
  }

  /** The look-ahead finds the default at `q` exactly when the value there is the default. */
  lemma DefaultIff(h: string, q: nat, b: nat)
    requires ValueAt(h, q, b)
    ensures (exists e: nat :: Matches(DEFAULT_VALUE, h, q, e)) <==> IsDefault(h[q..b])
  {
    if IsDefault(h[q..b]) {
      var e := DefaultIsFound(h, q, b);
      assert Matches(DEFAULT_VALUE, h, q, e);
    } else if e: nat :| Matches(DEFAULT_VALUE, h, q, e) {
      FoundIsDefault(h, q, b, e);
    }
  }

  lemma DefaultEnds(h: string, q: nat, m: nat, r: nat, b: nat)
    requires q <= m <= r <= |h| && m == q + |DEFAULT_LOCALE| && h[q..m] == DEFAULT_LOCALE
    requires (forall x :: m <= x < r ==> IsSpace(h[x])) && (r == |h| || h[r] == ';')
    requires q <= b <= |h| && (b == |h| || h[b] == ';') && forall x :: q <= x < b ==> h[x] != ';'
    ensures IsDefault(h[q..b])
  {
    assert h[q] == h[q..m][0] && h[q + 1] == h[q..m][1];
    assert r == b;
    assert h[q..b][..2] == h[q..m];
  }

  /** The name in place is the left-trimmed piece in place. */
  lemma NameIsThePair(h: string, a: nat, b: nat, p: nat, q: nat)
    requires PieceAt(h, a, b) && a <= p <= q <= b && q == p + |NAME|
    requires forall x :: a <= x < p ==> IsSpace(h[x])
    requires h[p..q] == NAME
    ensures TrimLeft(h[a..b]) == h[p..b] && StartsWith(h[p..b], NAME) && h[p..b][|NAME|..] == h[q..b]
  {
    NameStarts(h, p, q);
    SlicesAgree(h, a, b, p, q);
    assert forall x :: 0 <= x < p - a ==> h[a..b][x] == h[a + x];
    TrimLeftStops(h[a..b], p - a);
  }

  lemma NameStarts(h: string, p: nat, q: nat)
    requires p <= q <= |h| && h[p..q] == NAME
    ensures p < |h| && !IsSpace(h[p])
  {
    assert h[p] == NAME[0];
  }

  lemma SlicesAgree(h: string, a: nat, b: nat, p: nat, q: nat)
    requires a <= p <= q <= b <= |h|
    ensures h[a..b][p - a..] == h[p..b] && h[p..b][..q - p] == h[p..q] && h[p..b][q - p..] == h[q..b]
  {
  }

  lemma MatchFindsPiece(h: string) returns (piece: string)
    requires GuardMatches(h)
    ensures piece in Pieces(h, 0) && ChoosesLanguage(piece)
  {
    var a, p, q := MatchFindsName(h);
    var b := FirstSemicolon(h, q);
    NameHasNoSemicolon(h, p, q);
    assert PieceAt(h, a, b);
    NameIsThePair(h, a, b, p, q);
    DefaultIff(h, q, b);
    PlaceIsAPiece(h, 0, a, b);
    piece := h[a..b];
  }

  lemma NameHasNoSemicolon(h: string, p: nat, q: nat)
    requires p <= q <= |h| && h[p..q] == NAME
    ensures forall x :: p <= x < q ==> h[x] != ';'
  {
    assert forall x :: p <= x < q ==> h[x] == NAME[x - p];
    assert ';' !in NAME;
  }

  lemma PieceGivesMatch(h: string, piece: string)
    requires OneLine(h) && piece in Pieces(h, 0) && ChoosesLanguage(piece)
    ensures GuardMatches(h)
  {
    var a, b := PieceStands(h, 0, piece);
    var n := TrimLeftLeaves(piece);
    var p := a + n;
    var q := p + |NAME|;
    SlicesAgree(h, a, b, p, q);
    assert forall x :: a <= x < p ==> h[x] == piece[x - a];
    DefaultIff(h, q, b);
    NameGivesMatch(h, a, p, q);
  }

  /**
   * On every one-line header the anchored pattern matches exactly when some
   * pair, wherever it stands and however often the name is repeated, sets the
   * locale to something else than the default.
   */
  lemma GuardMeansWhatItSays(h: string)
    requires OneLine(h)
    ensures GuardMatches(h) <==> exists piece :: piece in Pieces(h, 0) && ChoosesLanguage(piece)
  {
    if GuardMatches(h) { var piece := MatchFindsPiece(h); }
    if piece :| piece in Pieces(h, 0) && ChoosesLanguage(piece) { PieceGivesMatch(h, piece); }
  }
}
