/**
 * What the scanner takes for a quoted string, a key and a sensitive key's value,
 * said of the text itself and without the scanning loops
 * (packages/errors/src/scrub-location-pii.ts, lines 281-352 and 431-489).
 */
module ScrubTokens {
  import opened Options
  import opened Chars
  import opened ScrubText
  import opened ScrubCuts
  import opened ScrubValues

  // ----- Quoted strings -----

  /** How many backslashes stand right before `k`, from `s` on. */
  function Backslashes(text: string, s: nat, k: nat): nat
    requires s <= k <= |text|
    decreases k
  {
    if k > s && text[k - 1] == '\\' then 1 + Backslashes(text, s, k - 1) else 0
  }

  /** Not escaped: an even number of backslashes stands before it. */
  predicate IsPlainAt(text: string, s: nat, k: nat)
    requires s <= k <= |text|
  {
    Backslashes(text, s, k) % 2 == 0
  }

  /** Up to `e`, neither the quote nor a line break, unless escaped. */
  ghost predicate NoneBefore(text: string, s: nat, quote: char, e: nat)
    requires e <= |text|
  {
    forall k: nat :: s <= k < e && IsPlainAt(text, s, k) ==> text[k] != quote && !IsLineBreak(text[k])
  }

  /** The first of the quote and a line break that is not escaped, or the end of the text. */
  ghost predicate IsQuoteEnd(text: string, start: nat, r: QuoteEnd)
    requires start < |text|
  {
    var s := start + 1;
    match r
    case ClosedAt(c) => s <= c < |text| && text[c] == text[start] && IsPlainAt(text, s, c)
                        && NoneBefore(text, s, text[start], c)
    case OpenUntil(p) => s <= p <= |text| && NoneBefore(text, s, text[start], p)
                         && (p == |text| || (IsLineBreak(text[p]) && IsPlainAt(text, s, p)))
  }

  lemma PlainGoesOn(text: string, s: nat, i: nat)
    requires s <= i < |text| && IsPlainAt(text, s, i)
    ensures text[i] != '\\' ==> IsPlainAt(text, s, i + 1)
    ensures text[i] == '\\' ==> !IsPlainAt(text, s, i + 1) && (i + 2 <= |text| ==> IsPlainAt(text, s, i + 2))
  {
  }

  lemma {:induction false} QuoteScanEnds(text: string, start: nat, i: nat)
    requires start < |text| && IsQuote(text[start]) && start < i
    requires i <= |text| ==> IsPlainAt(text, start + 1, i)
    requires NoneBefore(text, start + 1, text[start], if i < |text| then i else |text|)
    ensures IsQuoteEnd(text, start, QuoteScan(text, text[start], i))
    decreases if i < |text| then |text| - i else 0
  {
    if i < |text| && text[i] != text[start] && !IsLineBreak(text[i]) {
      var next := if text[i] == '\\' then i + 2 else i + 1;
      PlainGoesOn(text, start + 1, i);
      NoneBeforeNext(text, start + 1, text[start], i, next);
      QuoteScanEnds(text, start, next);
    }
  }

  lemma NoneBeforeNext(text: string, s: nat, quote: char, i: nat, next: nat)
    requires s <= i < |text| && IsPlainAt(text, s, i) && NoneBefore(text, s, quote, i)
    requires text[i] != quote && !IsLineBreak(text[i]) && next == if text[i] == '\\' then i + 2 else i + 1
    ensures NoneBefore(text, s, quote, if next < |text| then next else |text|)
  {
    PlainGoesOn(text, s, i);
  }

  /** A quote closes at the next one of its kind that is not escaped, if no line break comes before it. */
  lemma QuoteCloseExact(text: string, start: nat, r: QuoteEnd)
    requires start < |text| && IsQuote(text[start])
    ensures QuoteClose(text, start) == r <==> IsQuoteEnd(text, start, r)
  {
    QuoteScanEnds(text, start, start + 1);
  }

  /** A quoted string ends past its closing quote, or where its line does. */
  lemma PastQuoteExact(text: string, start: nat, e: nat)
    requires start < |text| && IsQuote(text[start])
    ensures PastQuote(text, start) == e <==>
            (e > 0 && IsQuoteEnd(text, start, ClosedAt(e - 1))) || IsQuoteEnd(text, start, OpenUntil(e))
  {
    QuoteCloseExact(text, start, QuoteClose(text, start));
    if e > 0 { QuoteCloseExact(text, start, ClosedAt(e - 1)); }
    QuoteCloseExact(text, start, OpenUntil(e));
  }

  // ----- Keys -----

  /** `e` is just past a `:` that stands after `p` and blanks only, and that starts no `://`. */
  predicate IsKeyColon(text: string, p: nat, e: nat) {
    && p < e <= |text| && text[e - 1] == ':' && (forall k :: p <= k < e - 1 ==> text[k] == ' ' || text[k] == '\t')
    && !(e + 1 < |text| && text[e] == '/' && text[e + 1] == '/')
  }

  lemma KeyColonExact(text: string, p: nat, e: nat)
    ensures AfterKeyColon(text, p) == Some(e) <==> IsKeyColon(text, p, e)
  {
    var i := SkipBlanks(text, p);
    if IsKeyColon(text, p, e) { assert i <= e - 1 by { SkipStopsAt(text, p, e - 1); } }
  }

  lemma {:induction false} SkipStopsAt(text: string, p: nat, j: nat)
    requires p <= j < |text| && !IsBlank(text[j]) && forall k :: p <= k < j ==> IsBlank(text[k])
    ensures SkipBlanks(text, p) == j
    decreases j - p
  {
    if p < j { SkipStopsAt(text, p + 1, j); }
  }

  ghost predicate HasKeyColon(text: string, p: nat) { exists e: nat :: IsKeyColon(text, p, e) }

  lemma KeyColonIff(text: string, p: nat)
    ensures AfterKeyColon(text, p).Some? <==> HasKeyColon(text, p)
  {
    if AfterKeyColon(text, p).Some? { KeyColonExact(text, p, AfterKeyColon(text, p).value); }
    if e: nat :| IsKeyColon(text, p, e) { KeyColonExact(text, p, e); }
  }

  /** A dot with an identifier right after it: the path goes on. */
  predicate IsPathDot(text: string, k: nat) { CharAt(text, k, '.') && k + 1 < |text| && IsIdentStart(text[k + 1]) }

  predicate IsPathChar(text: string, k: nat) { k < |text| && (IsIdentChar(text[k]) || IsPathDot(text, k)) }

  /** The whole dotted path from `p` on, and the positions of its dots. */
  predicate IsPath(text: string, p: nat, end: nat) {
    p < end <= |text| && (forall k :: p <= k < end ==> IsPathChar(text, k)) && !IsPathChar(text, end)
  }

  /** A dot among the 65 characters from `k` on. */
  predicate HasDotFrom(text: string, k: nat)
    requires k + MAX_KEY_LENGTH < |text|
  {
    exists j :: k <= j <= k + MAX_KEY_LENGTH && text[j] == '.'
  }

  /** No identifier from `p` to `end` is longer than 64 characters. */
  predicate ShortSegments(text: string, p: nat, end: nat)
    requires end <= |text|
  {
    forall k: nat :: p <= k < end - MAX_KEY_LENGTH ==> HasDotFrom(text, k)
  }

  lemma {:induction false} PathEnds(text: string, p: nat, e: nat) returns (end: nat)
    requires p < e <= |text| && forall k :: p <= k < e ==> IsPathChar(text, k)
    ensures IsPath(text, p, end)
    decreases |text| - e
  {
    if IsPathChar(text, e) { end := PathEnds(text, p, e + 1); } else { end := e; }
  }

  lemma {:induction false} SegmentEndStops(text: string, segment: nat, e: nat, end: nat)
    requires segment < e <= end <= |text| && !IsPathChar(text, end) && e - segment <= MAX_KEY_LENGTH + 1
    requires forall k :: segment <= k < e ==> IsIdentChar(text[k])
    ensures var s := SegmentEnd(text, segment, e);
            && e <= s <= end && s - segment <= MAX_KEY_LENGTH + 1
            && (forall k :: segment <= k < s ==> IsIdentChar(text[k]))
            && (s - segment <= MAX_KEY_LENGTH && s < |text| ==> !IsIdentChar(text[s]))
    decreases end - e
  {
    if e < |text| && e - segment <= MAX_KEY_LENGTH && IsIdentChar(text[e]) {
      SegmentEndStops(text, segment, e + 1, end);
    }
  }

  /** One segment read: too long, or followed by the rest of the path, or the last. */
  lemma {:induction false} PathStartsKeyIff(text: string, p: nat, segment: nat, e: nat, end: nat)
    requires p <= segment < e <= end && e == segment + 1 && IsPath(text, p, end) && IsIdentStart(text[segment])
    ensures PathStartsKey(text, p, segment, e) <==>
            ShortSegments(text, segment, end) && end - p <= MAX_KEY_PATH_LENGTH && HasKeyColon(text, end)
    decreases end - e
  {
    var s := SegmentEnd(text, segment, e);
    SegmentEndStops(text, segment, e, end);
    if s - segment > MAX_KEY_LENGTH {
      assert !HasDotFrom(text, segment);
    } else {
      assert s < end ==> IsPathChar(text, s);
      if s < end {
        ShortPastDot(text, segment, s, end);
        PathStartsKeyIff(text, p, s + 1, s + 2, end);
      } else {
        KeyColonIff(text, end);
      }
    }
  }

  lemma ShortPastDot(text: string, segment: nat, dot: nat, end: nat)
    requires segment < dot < end <= |text| && dot - segment <= MAX_KEY_LENGTH && text[dot] == '.'
    ensures ShortSegments(text, segment, end) <==> ShortSegments(text, dot + 1, end)
  {
    forall k: nat | segment <= k <= dot && k < end - MAX_KEY_LENGTH ensures HasDotFrom(text, k) {}
  }

  /**
   * A dotted path starts a key: it continues no word, none of its identifiers is
   * longer than 64 characters nor the whole longer than 256, and a colon follows.
   */
  ghost predicate IsBareKeyAt(text: string, p: nat, end: nat) {
    && p < |text| && IsIdentStart(text[p]) && (p > 0 ==> !IsWordChar(text[p - 1]))
    && IsPath(text, p, end) && ShortSegments(text, p, end) && end - p <= MAX_KEY_PATH_LENGTH && HasKeyColon(text, end)
  }

  /** A quoted key of at most 199 characters: the quote closes, and a colon follows. */
  ghost predicate IsQuotedKeyAt(text: string, p: nat, close: nat) {
    && p < |text| && IsQuote(text[p]) && IsQuoteEnd(text, p, ClosedAt(close)) && close - p <= MAX_QUOTED_KEY_SPAN
    && HasKeyColon(text, close + 1)
  }

  ghost predicate IsKeyAt(text: string, p: nat) {
    (exists end: nat :: IsBareKeyAt(text, p, end)) || exists close: nat :: IsQuotedKeyAt(text, p, close)
  }

  /** Where the scanner says that a key starts, one does, and nowhere else. */
  lemma StartsKeyExact(text: string, p: nat)
    ensures StartsKeyAt(text, p) <==> IsKeyAt(text, p)
  {
    if p < |text| && IsQuote(text[p]) {
      QuotedKeyIff(text, p);
    } else if p < |text| && IsIdentStart(text[p]) {
      BareKeyIff(text, p);
    }
  }

  lemma QuotedKeyIff(text: string, p: nat)
    requires p < |text| && IsQuote(text[p])
    ensures StartsKeyAt(text, p) <==> exists close: nat :: IsQuotedKeyAt(text, p, close)
  {
    var r := QuoteClose(text, p);
    QuoteCloseExact(text, p, r);
    if r.ClosedAt? {
      KeyColonIff(text, r.index + 1);
      if StartsKeyAt(text, p) { assert IsQuotedKeyAt(text, p, r.index); }
    }
    if close: nat :| IsQuotedKeyAt(text, p, close) { QuoteCloseExact(text, p, ClosedAt(close)); }
  }

  lemma BareKeyIff(text: string, p: nat)
    requires p < |text| && IsIdentStart(text[p])
    ensures StartsKeyAt(text, p) <==> exists end: nat :: IsBareKeyAt(text, p, end)
  {
    var end := PathEnds(text, p, p + 1);
    PathStartsKeyIff(text, p, p, p + 1, end);
    if StartsKeyAt(text, p) { assert IsBareKeyAt(text, p, end); }
    if e: nat :| IsBareKeyAt(text, p, e) {
      assert IsPath(text, p, e);
      assert e == end;
    }
  }

  /**
   * A comma ends a bare value when a key or the end of the line follows it, and
   * a line ends a value when it starts with a key or a closing bracket.
   */
  lemma EndersExact(text: string, k: nat)
    ensures EndsBareValue(text, k) <==>
            var t := SkipBlanks(text, k + 1); t >= |text| || text[t] in "\n\r" || IsKeyAt(text, t)
    ensures EndsLineValue(text, k) <==> IsKeyAt(text, k) || (k < |text| && text[k] in ")]}")
  {
    StartsKeyExact(text, SkipBlanks(text, k + 1));
    StartsKeyExact(text, k);
  }

  // ----- The value of a sensitive key -----

  /** A container from its bracket on; `gap` stands before the replacement. */
  ghost predicate IsContainerCut(text: string, p: nat, start: nat, gap: string, r: Option<Cut>)
    requires start <= |text|
  {
    exists end: Option<nat> :: EndsAtFirstReturn(text, Unquoted(text, start), 0, end) &&
      r == Some(if end.Some? then Cut(p, end.value, gap + MARK) else Cut(p, |text|, gap + TRUNCATED_MARK))
  }

  /** `q` is the first character from `p` on that is no white space, or the end. */
  predicate IsNextNonSpace(text: string, p: nat, q: nat) {
    p <= q <= |text| && AllSpace(text, p, q) && (q < |text| ==> !IsSpace(text[q]))
  }

  /** What follows on the next lines, from `q` on: nothing, a container, or lines up to the next key. */
  ghost predicate IsCutFrom(text: string, p: nat, q: nat, r: Option<Cut>)
    requires p < |text| && q <= |text|
  {
    if q == |text| then r.None?
    else if text[q] in "{[" then IsContainerCut(text, p, q, " ", r)
    else IsLineCut(text, p, r)
  }

  ghost predicate IsNextLinesCut(text: string, p: nat, r: Option<Cut>)
    requires p < |text|
  {
    exists q: nat :: IsNextNonSpace(text, p, q) && IsCutFrom(text, p, q, r)
  }

  ghost predicate IsTrimmed(text: string, start: nat, stop: nat, e: nat)
    requires stop <= |text|
  {
    && start <= e <= stop && (forall k :: e <= k < stop ==> IsBlank(text[k]))
    && (e > start ==> !IsBlank(text[e - 1]))
  }

  ghost predicate IsBareCut(text: string, p: nat, r: Option<Cut>)
    requires p <= |text|
  {
    exists stop: nat, e: nat ::
      && stop <= |text| && IsBareEnd(text, LineUnquoted(text, p), LineLimit(text, p), 0, stop)
      && IsTrimmed(text, p, stop, e) && r == if e > p then Some(Cut(p, e, MARK)) else None
  }

  /** The value's extent and replacement by its first character, past the blanks after the colon. */
  ghost predicate IsValueCut(text: string, colonEnd: nat, r: Option<Cut>)
    requires colonEnd <= |text|
  {
    var p := SkipBlanks(text, colonEnd);
    if p == |text| then r.None?
    else if IsLineBreak(text[p]) then IsNextLinesCut(text, p, r)
    else if text[p] in "{[" then IsContainerCut(text, p, p, "", r)
    else if IsQuote(text[p]) then
      r.Some? && r.value == Cut(p, r.value.end, MARK) &&
      ((r.value.end > 0 && IsQuoteEnd(text, p, ClosedAt(r.value.end - 1))) ||
       IsQuoteEnd(text, p, OpenUntil(r.value.end)))
    else IsBareCut(text, p, r)
  }

  lemma {:induction false} TrimEndExact(text: string, start: nat, i: nat, e: nat)
    requires start <= i <= |text|
    ensures TrimEnd(text, start, i) == e <==> IsTrimmed(text, start, i, e)
    decreases i
  {
    if i > start && IsBlank(text[i - 1]) { TrimEndExact(text, start, i - 1, e); }
  }

  lemma ContainerCutExact(text: string, p: nat, start: nat, gap: string, r: Option<Cut>)
    requires start <= |text|
    ensures var end := ContainerScan(text, start, 0);
            IsContainerCut(text, p, start, gap, r) <==>
            r == Some(if end.Some? then Cut(p, end.value, gap + MARK) else Cut(p, |text|, gap + TRUNCATED_MARK))
  {
    var end := ContainerScan(text, start, 0);
    ContainerEndExact(text, start, end);
    if IsContainerCut(text, p, start, gap, r) {
      var other: Option<nat> :|
        && EndsAtFirstReturn(text, Unquoted(text, start), 0, other)
        && r == Some(if other.Some? then Cut(p, other.value, gap + MARK) else Cut(p, |text|, gap + TRUNCATED_MARK));
      ContainerEndExact(text, start, other);
    }
  }

  lemma NextNonSpaceExact(text: string, p: nat, q: nat)
    requires p <= |text|
    ensures IsNextNonSpace(text, p, q) <==> q == SkipSpace(text, p)
  {
    SkipSpaceSkips(text, p);
    var s := SkipSpace(text, p);
    if IsNextNonSpace(text, p, q) {
      NonSpaceIsPast(text, p, s, q);
      NonSpaceIsPast(text, p, q, s);
    }
  }

  lemma NonSpaceIsPast(text: string, p: nat, s: nat, q: nat)
    requires p <= s <= |text| && AllSpace(text, p, s) && p <= q <= |text| && (q < |text| ==> !IsSpace(text[q]))
    ensures s <= q
  {
  }

  lemma CutFromExact(text: string, p: nat, q: nat, r: Option<Cut>)
    requires p < |text| && q <= |text| && IsLineBreak(text[p])
    ensures var end := ContainerScan(text, q, 0);
            IsCutFrom(text, p, q, r) <==>
            r == if q == |text| then None
                 else if text[q] in "{[" then
                   Some(if end.Some? then Cut(p, end.value, " " + MARK) else Cut(p, |text|, " " + TRUNCATED_MARK))
                 else LineScan(text, p, p)
  {
    ContainerCutExact(text, p, q, " ", r);
    LineCutExact(text, p, r);
  }

  lemma NextLinesCutExact(text: string, p: nat, r: Option<Cut>)
    requires p < |text| && IsLineBreak(text[p])
    ensures IsNextLinesCut(text, p, r) <==> IsCutFrom(text, p, SkipSpace(text, p), r)
  {
    var s := SkipSpace(text, p);
    NextNonSpaceExact(text, p, s);
    if q: nat :| IsNextNonSpace(text, p, q) && IsCutFrom(text, p, q, r) { NextNonSpaceExact(text, p, q); }
  }

  lemma BareCutExact(text: string, p: nat, r: Option<Cut>)
    requires p <= |text|
    ensures var e := BareValueEnd(text, p);
            IsBareCut(text, p, r) <==> r == if e > p then Some(Cut(p, e, MARK)) else None
  {
    var stop, e := BareScan(text, p, 0), BareValueEnd(text, p);
    BareEndExact(text, p, stop);
    TrimEndExact(text, p, stop, e);
    if s: nat, f: nat :|
      && s <= |text| && IsBareEnd(text, LineUnquoted(text, p), LineLimit(text, p), 0, s)
      && IsTrimmed(text, p, s, f) && r == if f > p then Some(Cut(p, f, MARK)) else None {
      BareEndExact(text, p, s);
      TrimEndExact(text, p, s, f);
    }
  }

  /** What is cut after a sensitive key is the value as the text has it, and it is replaced as its shape calls for. */
  lemma SensitiveValueExact(text: string, colonEnd: nat, r: Option<Cut>)
    requires colonEnd <= |text|
    ensures SensitiveValueAt(text, colonEnd) == r <==> IsValueCut(text, colonEnd, r)
  {
    var p := SkipBlanks(text, colonEnd);
    if p < |text| {
      if IsLineBreak(text[p]) {
        NextLinesCutExact(text, p, r);
        CutFromExact(text, p, SkipSpace(text, p), r);
      } else if text[p] in "{[" {
        ContainerCutExact(text, p, p, "", r);
        assert "" + MARK == MARK && "" + TRUNCATED_MARK == TRUNCATED_MARK;
      } else if IsQuote(text[p]) {
        if r.Some? { PastQuoteExact(text, p, r.value.end); }
      } else {
        BareCutExact(text, p, r);
      }
    }
  }

  // ----- What the pass does at a token -----

  /** At a key whose colon ends at `c`: past the colon, or past the value of a sensitive one, which is cut. */
  ghost predicate IsKeyMove(text: string, m: Move, key: string, c: nat)
    requires c <= |text|
  {
    if IsLocationSensitiveKey(key) then
      IsValueCut(text, c, m.cut) && m.next == if m.cut.Some? then m.cut.value.end else c
    else m.cut.None? && m.next == c
  }

  /** The same for a key that ends at `e`, with the colon that follows it. */
  ghost predicate IsKeyRead(text: string, m: Move, key: string, e: nat) {
    exists c: nat :: IsKeyColon(text, e, c) && IsKeyMove(text, m, key, c)
  }

  lemma KeyReadExact(text: string, m: Move, key: string, e: nat, c: nat, dq: int, sq: int)
    requires AfterKeyColon(text, e) == Some(c) && m == KeyMove(text, IsLocationSensitiveKey(key), c, dq, sq)
    ensures IsKeyRead(text, m, key, e) && m.dq == dq && m.sq == sq
  {
    KeyColonExact(text, e, c);
    SensitiveValueExact(text, c, SensitiveValueAt(text, c));
    assert IsKeyMove(text, m, key, c);
  }

  predicate IsWord(text: string, i: nat, e: nat) {
    && i < e <= |text| && IsIdentStart(text[i]) && (forall k :: i <= k < e ==> IsIdentChar(text[k]))
    && (e < |text| ==> !IsIdentChar(text[e]))
  }

  lemma {:induction false} IdentEndExact(text: string, i: nat, e: nat)
    requires i <= e <= |text| && (forall k :: i <= k < e ==> IsIdentChar(text[k]))
    requires e < |text| ==> !IsIdentChar(text[e])
    ensures IdentEnd(text, i) == e
    decreases e - i
  {
    if i < e { IdentEndExact(text, i + 1, e); }
  }

  /** A bare word is a key when it has at most 64 characters, continues no word, and a colon follows. */
  lemma WordIsReadExactly(text: string, i: nat, e: nat, dq: int, sq: int, depth: nat)
    requires IsWord(text, i, e) && depth <= MAX_STRING_DEPTH
    ensures var m := MoveAt(text, i, dq, sq, depth);
            var canBeKey := e - i <= 64 && (i > 0 ==> !IsWordChar(text[i - 1]));
            && m.dq == dq && m.sq == sq
            && if canBeKey && HasKeyColon(text, e) then IsKeyRead(text, m, text[i..e], e)
               else m.cut.None? && m.next == e
  {
    IdentEndExact(text, i + 1, e);
    KeyColonIff(text, e);
    var colon := AfterKeyColon(text, e);
    if BareKeyColon(text, i, e).Some? {
      KeyReadExact(text, MoveAt(text, i, dq, sq, depth), text[i..e], e, colon.value, dq, sq);
    }
  }

  /** A quoted string is a key when a colon follows it; any other is looked into as a value. */
  lemma QuotedIsReadExactly(text: string, i: nat, close: nat, dq: int, sq: int, depth: nat)
    requires i < |text| && IsQuote(text[i]) && IsQuoteEnd(text, i, ClosedAt(close)) && depth <= MAX_STRING_DEPTH
    requires i >= if text[i] == '"' then dq else sq
    ensures var m, e := MoveAt(text, i, dq, sq, depth), close + 1;
            && m.dq == dq && m.sq == sq
            && if HasKeyColon(text, e) then IsKeyRead(text, m, text[i + 1..close], e)
               else
                 && m.next == e
                 && m.cut == if QuotedValueIsSensitive(text[i + 1..close], depth) then Some(Cut(i, e, MARK)) else None
  {
    QuoteCloseExact(text, i, ClosedAt(close));
    QuoteMoveAt(text, i, close, dq, sq, depth);
    KeyColonIff(text, close + 1);
    var colon := AfterKeyColon(text, close + 1);
    if colon.Some? {
      KeyReadExact(text, MoveAt(text, i, dq, sq, depth), text[i + 1..close], close + 1, colon.value, dq, sq);
    }
  }

  lemma QuoteMoveAt(text: string, i: nat, close: nat, dq: int, sq: int, depth: nat)
    requires i < |text| && IsQuote(text[i]) && QuoteClose(text, i) == ClosedAt(close) && depth <= MAX_STRING_DEPTH
    requires i >= if text[i] == '"' then dq else sq
    ensures MoveAt(text, i, dq, sq, depth) == QuotedMove(text, i, close, dq, sq, depth)
  {
  }

  /** A quote that does not close, and any other character, is passed by itself. */
  lemma RestIsPassed(text: string, i: nat, dq: int, sq: int, depth: nat)
    requires i < |text| && !IsIdentStart(text[i]) && depth <= MAX_STRING_DEPTH
    requires IsQuote(text[i]) ==> exists p: nat :: IsQuoteEnd(text, i, OpenUntil(p))
    ensures MoveAt(text, i, dq, sq, depth).next == i + 1 && MoveAt(text, i, dq, sq, depth).cut.None?
  {
    if IsQuote(text[i]) {
      var p: nat :| IsQuoteEnd(text, i, OpenUntil(p));
      QuoteCloseExact(text, i, OpenUntil(p));
    }
  }
}
