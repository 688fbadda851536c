/**
 * `scrubMessageText` (packages/errors/src/scrub-location-pii.ts, lines 586-602):
 * text past the length limit is dropped, and the cut is moved back before an
 * unclosed bracket so that a position is not split.
 */
module ScrubMessage {
  import opened Options
  import opened Chars
  import opened Regexes
  import opened CoordinatePairs
  import opened ScrubText
  import opened ScrubPairs

  const MAX_TEXT_LENGTH := 64 * 1024
  const TAIL_BRACKET_WINDOW := 500

  /** Opening less closing brackets in `s[i..]`. */
  function Depth(s: string, i: nat): int
    requires i <= |s|
    decreases |s| - i
  {
    if i == |s| then 0
    else (if s[i] == '[' then 1 else if s[i] == ']' then -1 else 0) + Depth(s, i + 1)
  }

  /** The last position of `s[low..i]` from which more brackets open than close. */
  function LastOpen(s: string, i: nat, low: nat): (r: Option<nat>)
    requires low <= i <= |s|
    ensures r.Some? ==> low <= r.value < i && Depth(s, r.value) > 0
    ensures forall k: nat :: (if r.Some? then r.value < k else low <= k) && k < i ==> Depth(s, k) <= 0
  {
    if i == low then None else if Depth(s, i - 1) > 0 then Some(i - 1) else LastOpen(s, i - 1, low)
  }

  /** The part of the text that is scrubbed; the rest is replaced. */
  function Examined(text: string): (head: string)
    ensures |head| <= |text| && head == text[..|head|]
  {
    if |text| <= MAX_TEXT_LENGTH then text
    else
      var head := text[..MAX_TEXT_LENGTH];
      match LastOpen(head, |head|, |head| - TAIL_BRACKET_WINDOW)
      case Some(i) => head[..i]
      case None => head
  }

  function Scrubbed(text: string): string {
    ScrubAt(Examined(text), 0) + if |text| <= MAX_TEXT_LENGTH then "" else SCRUBBED_TRUNCATED
  }

  method ScrubMessageText(text: string) returns (result: string)
    ensures result == Scrubbed(text)
  {
    if |text| <= MAX_TEXT_LENGTH {
      result := ScrubTextAt(text, 0);
      return;
    }
    var full := text[..MAX_TEXT_LENGTH];
    var head := full;
    var closers := 0;
    var i := |full| - 1;
    while i >= |full| - TAIL_BRACKET_WINDOW
      invariant |full| - TAIL_BRACKET_WINDOW - 1 <= i < |full|
      invariant head == full && closers >= 0 && closers == -Depth(full, i + 1)
      invariant LastOpen(full, |full|, |full| - TAIL_BRACKET_WINDOW) ==
                LastOpen(full, i + 1, |full| - TAIL_BRACKET_WINDOW)
    {
      var ch := full[i];
      if ch == ']' {
        closers := closers + 1;
      } else if ch == '[' {
        if closers == 0 {
          head := head[..i];
          break;
        }
        closers := closers - 1;
      }
      i := i - 1;
    }
    assert head == Examined(text);
    result := ScrubTextAt(head, 0);
    result := result + SCRUBBED_TRUNCATED;
  }

  // ----- Where a long text is cut -----

  /**
   * The cut is at the limit, or at the last of the 500 characters before it from
   * which more brackets open than close up to the limit.
   */
  ghost predicate IsCutAt(text: string, n: nat)
    requires |text| > MAX_TEXT_LENGTH
  {
    var head, low := text[..MAX_TEXT_LENGTH], MAX_TEXT_LENGTH - TAIL_BRACKET_WINDOW;
    && low <= n <= MAX_TEXT_LENGTH && (n < MAX_TEXT_LENGTH ==> Depth(head, n) > 0)
    && forall k: nat :: (if n < MAX_TEXT_LENGTH then n < k else low <= k) && k < MAX_TEXT_LENGTH ==> Depth(head, k) <= 0
  }

  /** A text within the limit is scrubbed whole; of a longer one what stands before its cut is, and a marker follows. */
  lemma LongTextIsCutExactly(text: string, n: nat)
    ensures |text| <= MAX_TEXT_LENGTH ==> Scrubbed(text) == ScrubAt(text, 0)
    ensures |text| > MAX_TEXT_LENGTH ==> (IsCutAt(text, n) <==> n == |Examined(text)|)
    ensures |text| > MAX_TEXT_LENGTH && IsCutAt(text, n) ==>
              Scrubbed(text) == ScrubAt(text[..n], 0) + "[scrubbed: truncated]"
  {
    if |text| > MAX_TEXT_LENGTH {
      var head, low := text[..MAX_TEXT_LENGTH], MAX_TEXT_LENGTH - TAIL_BRACKET_WINDOW;
      var last := LastOpen(head, |head|, low);
      assert |Examined(text)| == if last.Some? then last.value else MAX_TEXT_LENGTH;
      if IsCutAt(text, n) && n < MAX_TEXT_LENGTH { assert Depth(head, n) > 0; }
    } else {
      assert ScrubAt(text, 0) + "" == ScrubAt(text, 0);
    }
  }

  // ----- Is a position ever split? -----

  /** `c` can only be the last character of a match. */
  predicate OnlyLast(r: Regex, c: char) {
    match r
    case Cat(a, b) => !Uses(a, c) && OnlyLast(b, c)
    case One(_) => true
    case _ => false
  }

  lemma {:induction false} MatchEndsWith(r: Regex, s: string, i: nat, j: nat, c: char)
    requires Matches(r, s, i, j) && OnlyLast(r, c)
    ensures forall x :: i <= x < j - 1 ==> s[x] != c
  {
    match r
    case Cat(a, b) =>
      var m := CatSplit(a, b, s, i, j);
      MatchUsesOnly(a, s, i, m, c);
      MatchEndsWith(b, s, m, j, c);
    case _ =>
  }

  lemma OnlyLastJoin(a: Regex, b: Regex, c: char)
    requires !Uses(a, c) && OnlyLast(b, c)
    ensures OnlyLast(Cat(a, b), c)
  {
  }

  lemma PairClosesLast()
    ensures OnlyLast(AFTER_OPEN, ']')
  {
    var more := Optional(Cat(COMMA, ALTITUDE));
    PiecesAvoid(']');
    OnlyLastJoin(GAP, One(Lit(']')), ']');
    OnlyLastJoin(more, CLOSE, ']');
    OnlyLastJoin(DECIMAL, Cat(more, CLOSE), ']');
    OnlyLastJoin(COMMA, Cat(DECIMAL, Cat(more, CLOSE)), ']');
    OnlyLastJoin(DECIMAL, Cat(COMMA, Cat(DECIMAL, Cat(more, CLOSE))), ']');
    OnlyLastJoin(GAP, Cat(DECIMAL, Cat(COMMA, Cat(DECIMAL, Cat(more, CLOSE)))), ']');
  }

  /** Between its own two brackets a pair holds none. */
  lemma PairBrackets(s: string, p: nat, e: nat)
    requires ReadPair(s, p) == Some(e)
    ensures s[p] == '[' && forall x :: p < x < e - 1 ==> s[x] != '[' && s[x] != ']'
  {
    ReadPairDecidesThePattern(s, p, e);
    var m := CatSplit(One(Lit('[')), AFTER_OPEN, s, p, e);
    AfterOpenAvoids('[');
    MatchUsesOnly(AFTER_OPEN, s, m, e, '[');
    PairClosesLast();
    MatchEndsWith(AFTER_OPEN, s, m, e, ']');
  }

  lemma {:induction false} FlatDepth(s: string, i: nat)
    requires i <= |s| && forall x :: i <= x < |s| ==> s[x] != '[' && s[x] != ']'
    ensures Depth(s, i) == 0
    decreases |s| - i
  {
    if i < |s| { FlatDepth(s, i + 1); }
  }

  /**
   * A position across the length limit is left out whole exactly when its
   * bracket is one of the last 500 characters before the limit.
   */
  lemma PositionLeftOutIff(text: string, p: nat, e: nat)
    requires ReadPair(text, p) == Some(e) && p < MAX_TEXT_LENGTH < e
    ensures |Examined(text)| <= p <==> p >= MAX_TEXT_LENGTH - TAIL_BRACKET_WINDOW
  {
    if p >= MAX_TEXT_LENGTH - TAIL_BRACKET_WINDOW {
      var head := text[..MAX_TEXT_LENGTH];
      PairBrackets(text, p, e);
      assert head[p] == '[';
      FlatDepth(head, p + 1);
      assert Depth(head, p) == 1;
      forall k: nat | p < k < |head| ensures Depth(head, k) <= 0 { FlatDepth(head, k); }
    }
  }

  // ----- The other case is real: a position with wide gaps is split -----

  const FAR := MAX_TEXT_LENGTH - 605

  function WideChar(k: int): char {
    if k < 0 then 'x'
    else match k
      case 0 => '['
      case 201 => '1'
      case 202 => '.'
      case 203 => '5'
      case 404 => ','
      case 605 => '2'
      case 606 => '.'
      case 607 => '5'
      case 608 => ']'
      case _ => ' '
  }

  function WidePosition(): (s: string)
    ensures |s| == FAR + 609 && forall k :: 0 <= k < |s| ==> s[k] == WideChar(k - FAR)
  {
    seq(FAR + 609, k => WideChar(k - FAR))
  }

  lemma GapReads(s: string, i: nat, j: nat)
    requires i <= j < |s| && j - i <= 200 && !IsSpace(s[j]) && forall k :: i <= k < j ==> IsSpace(s[k])
    ensures ReadGap(s, i) == Some(j)
  {
    MaxRunIsTheOnlyStop(s, i, j, Space);
  }

  lemma DecimalReads(s: string, i: nat)
    requires i + 3 < |s| && IsDigit(s[i]) && s[i + 1] == '.' && IsDigit(s[i + 2]) && !IsDigit(s[i + 3])
    ensures ReadDecimal(s, i) == Some(i + 3)
  {
    MaxRunIsTheOnlyStop(s, i, i + 1, Digit);
    MaxRunIsTheOnlyStop(s, i + 2, i + 3, Digit);
  }

  lemma WidePositionReads(text: string, p: nat, e: nat)
    requires text == WidePosition() && p == FAR && e == FAR + 609
    ensures ReadPair(text, p) == Some(e) && ReadDecimal(text, p + 201) == Some(p + 204)
  {
    GapReads(text, p + 1, p + 201);
    DecimalReads(text, p + 201);
    GapReads(text, p + 204, p + 404);
    GapReads(text, p + 405, p + 605);
    assert ReadComma(text, p + 204) == Some(p + 605);
    DecimalReads(text, p + 605);
    GapReads(text, p + 608, p + 608);
  }

  /** A position whose first number is kept while its end is past the limit. */
  lemma PositionCanBeSplit() returns (text: string, p: nat, e: nat)
    ensures ReadPair(text, p) == Some(e) && p < MAX_TEXT_LENGTH < e
    ensures p + 204 <= |Examined(text)| && ReadDecimal(text, p + 201) == Some(p + 204)
  {
    text, p, e := WidePosition(), FAR, FAR + 609;
    var head := text[..MAX_TEXT_LENGTH];
    forall k: nat | p < k <= |head| ensures Depth(head, k) == 0 { FlatDepth(head, k); }
    assert Examined(text) == head;
    WidePositionReads(text, p, e);
  }
}
