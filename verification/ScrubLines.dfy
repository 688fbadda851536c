/**
 * Text that is no JSON: `key: value` pairs as logs and error messages write
 * them, with bare keys, bare or quoted values, and a comma or a line break
 * between the pairs.
 */
module ScrubLines {
  import opened Options
  import opened Chars
  import opened CoordinatePairs
  import opened ScrubText
  import opened ScrubJson
  import opened ScrubPairs
  import opened ScrubRefinement

  datatype Value = Phrase(words: string) | Quote(mark: char, raw: string)

  /** `onNewLine`: the next pair, if there is one, stands on a line of its own. */
  datatype Pair = Pair(key: string, value: Value, onNewLine: bool)

  function PrintValue(v: Value): string {
    match v
    case Phrase(words) => words
    case Quote(mark, raw) => [mark] + raw + [mark]
  }

  function PrintPair(p: Pair): string {
    p.key + (": " + PrintValue(p.value))
  }

  function PrintPairs(pairs: seq<Pair>): string {
    if pairs == [] then ""
    else if |pairs| == 1 then PrintPair(pairs[0])
    else PrintPair(pairs[0]) + ((if pairs[0].onNewLine then "\n" else ", ") + PrintPairs(pairs[1..]))
  }

  // ----- Which pairs -----

  predicate IsBareKey(key: string) {
    && 0 < |key| <= MAX_KEY_LENGTH && IsIdentStart(key[0])
    && forall k :: 0 <= k < |key| ==> IsIdentChar(key[k])
  }

  /** No quote, bracket, colon or line break. */
  predicate IsPhraseChar(c: char) { !IsQuote(c) && !IsLineBreak(c) && c !in "()[]{}:" }

  predicate IsPhrase(words: string) {
    && words != "" && !IsBlank(words[0]) && !IsBlank(words[|words| - 1]) && words[|words| - 1] != ','
    && forall k :: 0 <= k < |words| ==> IsPhraseChar(words[k])
  }

  /** Between two such marks: no line break, and the mark itself only after a backslash. */
  predicate IsQuoteBody(mark: char, raw: string, k: nat)
    decreases |raw| - k
  {
    if k >= |raw| then k == |raw|
    else if raw[k] == mark || IsLineBreak(raw[k]) then false
    else IsQuoteBody(mark, raw, if raw[k] == '\\' then k + 2 else k + 1)
  }

  predicate IsValue(v: Value) {
    match v
    case Phrase(words) => IsPhrase(words)
    case Quote(mark, raw) => IsQuote(mark) && IsQuoteBody(mark, raw, 0)
  }

  /** Any value under a sensitive key; elsewhere no quoted value that could hold a key or a position. */
  predicate IsPair(p: Pair) {
    && IsBareKey(p.key) && IsValue(p.value)
    && (p.value.Quote? && !IsLocationSensitiveKey(p.key) ==> ':' !in p.value.raw && '[' !in p.value.raw)
  }

  predicate ArePairs(pairs: seq<Pair>) { pairs == [] || (IsPair(pairs[0]) && ArePairs(pairs[1..])) }

  /** The redaction: the value of every sensitive key becomes the marker, and nothing else changes. */
  function RedactPair(p: Pair): Pair {
    if IsLocationSensitiveKey(p.key) then p.(value := Quote('"', SCRUBBED)) else p
  }

  function RedactPairs(pairs: seq<Pair>): seq<Pair> {
    if pairs == [] then [] else [RedactPair(pairs[0])] + RedactPairs(pairs[1..])
  }

  // ----- What stands where -----

  /** A value ends at `end`: the text does, or a line break, or a comma and the next key. */
  predicate PairEnds(text: string, end: nat) {
    || end == |text|
    || (end < |text| && IsLineBreak(text[end]))
    || (end < |text| && text[end] == ',' && EndsBareValue(text, end))
  }

  predicate FollowsGap(text: string, i: nat)
    requires i <= |text|
  {
    i == 0 || text[i - 1] == ' ' || text[i - 1] == '\n'
  }

  /** A key at `i`: at the start of the text or past a separator, and followed by a colon and a blank. */
  predicate KeyStands(text: string, i: nat, key: string) {
    && IsBareKey(key) && Occurs(text, i, key) && i + |key| + 1 < |text|
    && text[i + |key|] == ':' && text[i + |key| + 1] == ' '
    && FollowsGap(text, i)
  }

  lemma {:induction false} IdentEndsAtColon(text: string, i: nat, key: string, k: nat)
    requires KeyStands(text, i, key) && k <= |key|
    ensures IdentEnd(text, i + k) == i + |key|
    decreases |key| - k
  {
    if k < |key| {
      OccursAt(text, i, key, k);
      IdentEndsAtColon(text, i, key, k + 1);
    }
  }

  lemma {:induction false} SegmentEndsAtColon(text: string, i: nat, key: string, k: nat)
    requires KeyStands(text, i, key) && k <= |key|
    ensures SegmentEnd(text, i, i + k) == i + |key|
    decreases |key| - k
  {
    if k < |key| {
      OccursAt(text, i, key, k);
      SegmentEndsAtColon(text, i, key, k + 1);
    }
  }

  lemma ColonStands(text: string, e: nat)
    requires e + 1 < |text| && text[e] == ':' && text[e + 1] == ' '
    ensures AfterKeyColon(text, e) == Some(e + 1)
  {
    assert SkipBlanks(text, e) == e;
  }

  lemma KeyIsSeen(text: string, i: nat, key: string)
    requires KeyStands(text, i, key)
    ensures StartsKeyAt(text, i)
  {
    OccursAt(text, i, key, 0);
    SegmentEndsAtColon(text, i, key, 1);
    ColonStands(text, i + |key|);
  }

  // ----- A phrase -----

  /** From `i` to `stop` no colon and nothing else that is markup; there the value ends. */
  predicate PhraseStands(text: string, i: nat, stop: nat) {
    && i <= stop <= |text| && PairEnds(text, stop)
    && forall k :: i <= k < stop ==> IsPhraseChar(text[k])
  }

  lemma {:induction false} BlanksStayIn(text: string, i: nat, stop: nat)
    requires PhraseStands(text, i, stop)
    ensures SkipBlanks(text, i) <= stop
    decreases stop - i
  {
    if i < stop { BlanksStayIn(text, i + 1, stop); }
  }

  lemma NoColonIn(text: string, i: nat, stop: nat)
    requires PhraseStands(text, i, stop)
    ensures AfterKeyColon(text, i).None?
  {
    BlanksStayIn(text, i, stop);
  }

  lemma {:induction false} IdentStaysIn(text: string, i: nat, stop: nat)
    requires PhraseStands(text, i, stop)
    ensures IdentEnd(text, i) <= stop
    decreases stop - i
  {
    if i < stop { IdentStaysIn(text, i + 1, stop); }
  }

  lemma {:induction false} SegmentStaysIn(text: string, segment: nat, e: nat, stop: nat)
    requires PhraseStands(text, e, stop)
    ensures SegmentEnd(text, segment, e) <= stop
    decreases stop - e
  {
    if e < stop { SegmentStaysIn(text, segment, e + 1, stop); }
  }

  lemma {:induction false} NoPathIn(text: string, p: nat, segment: nat, e: nat, stop: nat)
    requires p <= segment <= e && PhraseStands(text, e, stop)
    ensures !PathStartsKey(text, p, segment, e)
    decreases stop - e
  {
    var end := SegmentEnd(text, segment, e);
    SegmentStaysIn(text, segment, e, stop);
    NoColonIn(text, end, stop);
    if CharAt(text, end, '.') && end + 1 < |text| && IsIdentStart(text[end + 1]) {
      NoPathIn(text, p, end + 1, end + 2, stop);
    }
  }

  lemma NoKeyIn(text: string, p: nat, stop: nat)
    requires PhraseStands(text, p, stop) && p < stop
    ensures !StartsKeyAt(text, p)
  {
    NoPathIn(text, p, p, p + 1, stop);
  }

  /** A comma inside the phrase does not end it, unless nothing but blanks follows. */
  lemma InnerCommaGoesOn(text: string, i: nat, stop: nat)
    requires PhraseStands(text, i, stop) && i + 1 < stop && !IsBlank(text[stop - 1])
    ensures !EndsBareValue(text, i)
  {
    var k := SkipBlanks(text, i + 1);
    BlanksStayIn(text, i + 1, stop);
    assert k < stop;
    NoKeyIn(text, k, stop);
  }

  lemma {:induction false} BareScanPhrase(text: string, i: nat, stop: nat)
    requires PhraseStands(text, i, stop)
    requires i < stop ==> !IsBlank(text[stop - 1]) && text[stop - 1] != ','
    ensures BareScan(text, i, 0) == stop
    decreases stop - i
  {
    if i < stop {
      if text[i] == ',' { InnerCommaGoesOn(text, i, stop); }
      BareScanPhrase(text, i + 1, stop);
    }
  }

  // ----- The pass over a value -----

  lemma PhraseMove(text: string, i: nat, stop: nat, depth: nat) returns (next: nat)
    requires depth <= MAX_STRING_DEPTH && PhraseStands(text, i, stop) && i < stop
    ensures i < next <= stop && MoveAt(text, i, -1, -1, depth) == Move(next, None, -1, -1)
  {
    if IsIdentStart(text[i]) {
      next := IdentEnd(text, i + 1);
      IdentStaysIn(text, i + 1, stop);
      NoColonIn(text, next, stop);
    } else {
      next := i + 1;
    }
  }

  lemma {:induction false} PhraseEmits(f: nat -> string, text: string, i: nat, stop: nat, depth: nat)
    requires depth <= MAX_STRING_DEPTH && IsScan(f, text, depth) && PhraseStands(text, i, stop)
    ensures Emits(f, i, stop, text[i..stop])
    decreases stop - i
  {
    if i < stop {
      var next := PhraseMove(text, i, stop, depth);
      KeepingMoveEmits(f, text, i, next, depth);
      PhraseEmits(f, text, next, stop, depth);
      assert text[i..stop] == text[i..next] + text[next..stop];
      EmitsThen(f, i, next, stop, text[i..next], text[next..stop]);
    }
  }

  lemma {:induction false} QuoteScansTo(text: string, mark: char, i: nat, raw: string, k: nat)
    requires IsQuoteBody(mark, raw, k) && k <= |raw| && Occurs(text, i, raw) && CharAt(text, i + |raw|, mark)
    ensures QuoteScan(text, mark, i + k) == ClosedAt(i + |raw|)
    decreases |raw| - k
  {
    if k < |raw| {
      OccursAt(text, i, raw, k);
      QuoteScansTo(text, mark, i, raw, if raw[k] == '\\' then k + 2 else k + 1);
    }
  }

  /** A quoted value at `i`: it closes at its last character, and no colon makes it a key. */
  lemma QuoteStands(text: string, i: nat, mark: char, raw: string, end: nat)
    requires IsQuote(mark) && IsQuoteBody(mark, raw, 0) && Occurs(text, i, [mark] + raw + [mark])
    requires end == i + |raw| + 2 && PairEnds(text, end)
    ensures text[i] == mark && QuoteClose(text, i) == ClosedAt(end - 1)
    ensures text[i + 1..end - 1] == raw && AfterKeyColon(text, end).None?
  {
    Bracketed(text, i, [mark], raw, [mark]);
    QuoteScansTo(text, mark, i + 1, raw, 0);
    assert SkipBlanks(text, end) == end;
  }

  /** A quoted value that could hold neither key nor position is kept. */
  lemma QuoteEmits(f: nat -> string, text: string, i: nat, mark: char, raw: string, end: nat, depth: nat)
    requires depth <= MAX_STRING_DEPTH && IsScan(f, text, depth)
    requires IsQuote(mark) && IsQuoteBody(mark, raw, 0) && Occurs(text, i, [mark] + raw + [mark])
    requires end == i + |raw| + 2 && PairEnds(text, end) && !MayHoldKeyText(raw)
    ensures Emits(f, i, end, [mark] + raw + [mark])
  {
    QuoteStands(text, i, mark, raw, end);
    assert !QuotedValueIsSensitive(text[i + 1..end - 1], depth);
    assert QuotedMove(text, i, end - 1, -1, -1, depth) == Move(end, None, -1, -1);
    assert MoveAt(text, i, -1, -1, depth) == Move(end, None, -1, -1);
    KeepingMoveEmits(f, text, i, end, depth);
  }

  lemma KeptValueEmits(f: nat -> string, text: string, i: nat, v: Value, end: nat, depth: nat)
    requires depth <= MAX_STRING_DEPTH && IsScan(f, text, depth) && IsValue(v)
    requires Occurs(text, i, PrintValue(v)) && end == i + |PrintValue(v)| && PairEnds(text, end)
    requires v.Quote? ==> ':' !in v.raw && '[' !in v.raw
    ensures Emits(f, i, end, PrintValue(v))
  {
    match v
    case Phrase(words) =>
      PhraseOccurs(text, i, words, end);
      PhraseEmits(f, text, i, end, depth);
    case Quote(mark, raw) => QuoteEmits(f, text, i, mark, raw, end, depth);
  }

  lemma PhraseOccurs(text: string, i: nat, words: string, end: nat)
    requires IsPhrase(words) && Occurs(text, i, words) && end == i + |words| && PairEnds(text, end)
    ensures PhraseStands(text, i, end) && i < end
    ensures !IsBlank(text[i]) && !IsBlank(text[end - 1]) && text[end - 1] != ','
  {
    forall k | i <= k < end ensures text[k] == words[k - i] { OccursAt(text, i, words, k - i); }
  }

  /** The whole value of a sensitive key is cut, and nothing more: past commas within it, up to the next key. */
  lemma ValueIsCut(text: string, i: nat, v: Value, end: nat)
    requires IsValue(v) && Occurs(text, i, PrintValue(v)) && end == i + |PrintValue(v)| && PairEnds(text, end)
    requires i > 0 && text[i - 1] == ' '
    ensures SensitiveValueAt(text, i - 1) == Some(Cut(i, end, MARK))
  {
    match v
    case Phrase(words) =>
      PhraseOccurs(text, i, words, end);
      BareScanPhrase(text, i, end);
      assert SkipBlanks(text, i) == i;
    case Quote(mark, raw) =>
      QuoteStands(text, i, mark, raw, end);
      assert SkipBlanks(text, i) == i;
  }

  // ----- The pass over a pair -----

  lemma KeyWordMove(text: string, i: nat, key: string, depth: nat)
    requires depth <= MAX_STRING_DEPTH && KeyStands(text, i, key)
    ensures MoveAt(text, i, -1, -1, depth) == KeyMove(text, IsLocationSensitiveKey(key), i + |key| + 1, -1, -1)
  {
    OccursAt(text, i, key, 0);
    IdentEndsAtColon(text, i, key, 1);
    ColonStands(text, i + |key|);
    WordMoveAt(text, i, i + |key|, key, depth);
  }

  lemma WordMoveAt(text: string, i: nat, e: nat, key: string, depth: nat)
    requires depth <= MAX_STRING_DEPTH && i < e < |text| && IsIdentStart(text[i]) && IdentEnd(text, i + 1) == e
    requires BareKeyColon(text, i, e) == Some(e + 1) && text[i..e] == key
    ensures MoveAt(text, i, -1, -1, depth) == KeyMove(text, IsLocationSensitiveKey(key), e + 1, -1, -1)
  {
    var m := KeyMove(text, IsLocationSensitiveKey(key), e + 1, -1, -1);
    assert WordMove(text, i, -1, -1) == m;
    LettersMoveByWord(text, i, m, depth);
  }

  lemma LettersMoveByWord(text: string, i: nat, m: Move, depth: nat)
    requires depth <= MAX_STRING_DEPTH && i < |text| && IsIdentStart(text[i]) && WordMove(text, i, -1, -1) == m
    ensures MoveAt(text, i, -1, -1, depth) == m
  {
  }

  /** A separator's characters go out as they are. */
  lemma GapEmits(f: nat -> string, text: string, i: nat, c: char, depth: nat)
    requires depth <= MAX_STRING_DEPTH && IsScan(f, text, depth) && CharAt(text, i, c) && c in " ,\n"
    ensures Emits(f, i, i + 1, [c])
  {
    assert MoveAt(text, i, -1, -1, depth) == Move(i + 1, None, -1, -1);
    KeepingMoveEmits(f, text, i, i + 1, depth);
  }

  lemma KeyAndColon(text: string, i: nat, p: Pair) returns (j: nat)
    requires IsPair(p) && Occurs(text, i, PrintPair(p)) && FollowsGap(text, i)
    ensures j == i + |p.key| + 2 <= |text| && KeyStands(text, i, p.key) && Occurs(text, j, PrintValue(p.value))
    ensures text[i..j] == p.key + ": " && text[i..j - 1] == p.key + ":"
  {
    var e := i + |p.key|;
    j := e + 2;
    OccursSplit(text, i, p.key, ": " + PrintValue(p.value));
    OccursSplit(text, e, ": ", PrintValue(p.value));
    KeyText(text, i, p.key, e);
  }

  lemma KeyText(text: string, i: nat, key: string, e: nat)
    requires Occurs(text, i, key) && e == i + |key| && Occurs(text, e, ": ")
    ensures text[e] == ':' && text[e + 1] == ' '
    ensures text[i..e + 2] == key + ": " && text[i..e + 1] == key + ":"
  {
    OccursAt(text, e, ": ", 0);
    OccursAt(text, e, ": ", 1);
    assert text[i..e + 2] == text[i..e] + text[e..e + 2];
    assert text[i..e + 1] == text[i..e] + [text[e]];
  }

  lemma CutAtKeyEmits(f: nat -> string, text: string, i: nat, key: string, cut: Cut, depth: nat)
    requires depth <= MAX_STRING_DEPTH && IsScan(f, text, depth) && KeyStands(text, i, key)
    requires IsLocationSensitiveKey(key) && SensitiveValueAt(text, i + |key| + 1) == Some(cut)
    requires i <= cut.start < cut.end <= |text| && text[i..cut.start] == key + ": "
    ensures Emits(f, i, cut.end, key + ": " + cut.replacement)
  {
    KeyWordMove(text, i, key, depth);
    CuttingMoveEmits(f, text, i, cut, depth);
  }

  lemma MarkedPairEmits(f: nat -> string, text: string, i: nat, p: Pair, end: nat, depth: nat)
    requires depth <= MAX_STRING_DEPTH && IsScan(f, text, depth) && IsPair(p) && IsLocationSensitiveKey(p.key)
    requires Occurs(text, i, PrintPair(p)) && FollowsGap(text, i)
    requires end == i + |PrintPair(p)| && PairEnds(text, end)
    ensures Emits(f, i, end, p.key + ": " + MARK)
  {
    var j := KeyAndColon(text, i, p);
    ValueIsCut(text, j, p.value, end);
    CutAtKeyEmits(f, text, i, p.key, Cut(j, end, MARK), depth);
  }

  lemma KeptKeyEmits(f: nat -> string, text: string, i: nat, p: Pair, j: nat, depth: nat)
    requires depth <= MAX_STRING_DEPTH && IsScan(f, text, depth) && !IsLocationSensitiveKey(p.key)
    requires j == i + |p.key| + 2 <= |text| && KeyStands(text, i, p.key) && text[i..j - 1] == p.key + ":"
    ensures Emits(f, i, j, p.key + ":" + " ")
  {
    KeyWordMove(text, i, p.key, depth);
    KeepingMoveEmits(f, text, i, j - 1, depth);
    GapEmits(f, text, j - 1, ' ', depth);
    EmitsThen(f, i, j - 1, j, p.key + ":", " ");
  }

  lemma KeptPairEmits(f: nat -> string, text: string, i: nat, p: Pair, end: nat, depth: nat)
    requires depth <= MAX_STRING_DEPTH && IsScan(f, text, depth) && IsPair(p) && !IsLocationSensitiveKey(p.key)
    requires Occurs(text, i, PrintPair(p)) && FollowsGap(text, i)
    requires end == i + |PrintPair(p)| && PairEnds(text, end)
    ensures Emits(f, i, end, PrintPair(p))
  {
    var j := KeyAndColon(text, i, p);
    KeptKeyEmits(f, text, i, p, j, depth);
    KeptValueEmits(f, text, j, p.value, end, depth);
    EmitsThen(f, i, j, end, p.key + ":" + " ", PrintValue(p.value));
    assert p.key + ":" + " " + PrintValue(p.value) == PrintPair(p);
  }

  lemma PairEmits(f: nat -> string, text: string, i: nat, p: Pair, end: nat, depth: nat)
    requires depth <= MAX_STRING_DEPTH && IsScan(f, text, depth) && IsPair(p)
    requires Occurs(text, i, PrintPair(p)) && FollowsGap(text, i)
    requires end == i + |PrintPair(p)| && PairEnds(text, end)
    ensures Emits(f, i, end, PrintPair(RedactPair(p)))
  {
    if IsLocationSensitiveKey(p.key) {
      MarkedPairEmits(f, text, i, p, end, depth);
      assert p.key + ": " + MARK == PrintPair(p.(value := Quote('"', SCRUBBED)));
    } else {
      KeptPairEmits(f, text, i, p, end, depth);
    }
  }

  // ----- The pass over a text of pairs -----

  /** The first pair ends where the next one's separator starts, or with the text. */
  lemma PairsSplit(text: string, i: nat, pairs: seq<Pair>) returns (j: nat, k: nat)
    requires pairs != [] && ArePairs(pairs) && Occurs(text, i, PrintPairs(pairs)) && i + |PrintPairs(pairs)| == |text|
    ensures Occurs(text, i, PrintPair(pairs[0])) && j == i + |PrintPair(pairs[0])| && PairEnds(text, j)
    ensures |pairs| == 1 ==> j == |text|
    ensures |pairs| > 1 ==>
              && Occurs(text, k, PrintPairs(pairs[1..])) && k + |PrintPairs(pairs[1..])| == |text|
              && j < k && text[j..k] == (if pairs[0].onNewLine then "\n" else ", ")
  {
    j, k := i + |PrintPair(pairs[0])|, |text|;
    if |pairs| > 1 {
      var gap := if pairs[0].onNewLine then "\n" else ", ";
      OccursSplit(text, i, PrintPair(pairs[0]), gap + PrintPairs(pairs[1..]));
      k := GapSplit(text, j, gap, pairs[1..]);
    }
  }

  /** A separator, and the pairs behind it. */
  lemma GapSplit(text: string, j: nat, gap: string, rest: seq<Pair>) returns (k: nat)
    requires rest != [] && ArePairs(rest) && gap in {"\n", ", "} && Occurs(text, j, gap + PrintPairs(rest))
    ensures j < k == j + |gap| <= |text| && text[j..k] == gap && Occurs(text, k, PrintPairs(rest)) && PairEnds(text, j)
  {
    OccursSplit(text, j, gap, PrintPairs(rest));
    k := j + |gap|;
    OccursAt(text, j, gap, 0);
    if gap == ", " {
      OccursAt(text, j, gap, 1);
      NextPairEnds(text, j, rest);
    }
  }

  lemma NextPairEnds(text: string, j: nat, pairs: seq<Pair>)
    requires pairs != [] && IsPair(pairs[0]) && j + 2 <= |text| && text[j] == ',' && text[j + 1] == ' '
    requires Occurs(text, j + 2, PrintPairs(pairs))
    ensures PairEnds(text, j)
  {
    FirstPairOccurs(text, j + 2, pairs);
    var _ := KeyAndColon(text, j + 2, pairs[0]);
    OccursAt(text, j + 2, pairs[0].key, 0);
    assert SkipBlanks(text, j + 1) == j + 2;
    KeyIsSeen(text, j + 2, pairs[0].key);
  }

  lemma FirstPairOccurs(text: string, i: nat, pairs: seq<Pair>)
    requires pairs != [] && Occurs(text, i, PrintPairs(pairs))
    ensures Occurs(text, i, PrintPair(pairs[0]))
  {
    if |pairs| > 1 {
      OccursSplit(text, i, PrintPair(pairs[0]),
                  (if pairs[0].onNewLine then "\n" else ", ") + PrintPairs(pairs[1..]));
    }
  }

  lemma SeparatorEmits(f: nat -> string, text: string, j: nat, k: nat, gap: string, depth: nat)
    requires depth <= MAX_STRING_DEPTH && IsScan(f, text, depth)
    requires j < k <= |text| && text[j..k] == gap && gap in {"\n", ", "}
    ensures Emits(f, j, k, gap) && FollowsGap(text, k)
  {
    assert text[j] == gap[0];
    GapEmits(f, text, j, gap[0], depth);
    if gap == ", " {
      assert text[j + 1] == gap[1];
      GapEmits(f, text, j + 1, ' ', depth);
      EmitsThen(f, j, j + 1, k, ",", " ");
    }
  }

  lemma {:induction false} PairsEmit(f: nat -> string, text: string, i: nat, pairs: seq<Pair>, depth: nat)
    requires depth <= MAX_STRING_DEPTH && IsScan(f, text, depth) && ArePairs(pairs)
    requires Occurs(text, i, PrintPairs(pairs)) && i + |PrintPairs(pairs)| == |text|
    requires FollowsGap(text, i)
    ensures Emits(f, i, |text|, PrintPairs(RedactPairs(pairs)))
    decreases |pairs|
  {
    if pairs != [] {
      var j, k := PairsSplit(text, i, pairs);
      PairEmits(f, text, i, pairs[0], j, depth);
      if |pairs| > 1 {
        var gap := text[j..k];
        SeparatorEmits(f, text, j, k, gap, depth);
        PairsEmit(f, text, k, pairs[1..], depth);
        PairThenPairs(f, i, j, k, |text|, RedactPair(pairs[0]), gap, RedactPairs(pairs[1..]));
      }
    }
  }

  lemma PairThenPairs(f: nat -> string, i: nat, j: nat, k: nat, end: nat, first: Pair, gap: string, rest: seq<Pair>)
    requires rest != [] && gap == (if first.onNewLine then "\n" else ", ")
    requires Emits(f, i, j, PrintPair(first)) && Emits(f, j, k, gap) && Emits(f, k, end, PrintPairs(rest))
    ensures Emits(f, i, end, PrintPairs([first] + rest))
  {
    EmitsThen(f, j, k, end, gap, PrintPairs(rest));
    EmitsThen(f, i, j, end, PrintPair(first), gap + PrintPairs(rest));
    assert ([first] + rest)[1..] == rest;
  }

  // ----- The coordinate pass -----

  /** Every `[` is a marker's. */
  predicate OnlyMarkBrackets(s: string) {
    forall k :: 0 <= k < |s| && s[k] == '[' ==> k + 1 < |s| && s[k + 1] == 's'
  }

  lemma MarkBracketsJoin(s: string, t: string)
    requires OnlyMarkBrackets(s) && OnlyMarkBrackets(t)
    ensures OnlyMarkBrackets(s + t)
  {
  }

  lemma PairHasNoBrackets(p: Pair)
    requires IsPair(p)
    ensures OnlyMarkBrackets(PrintPair(RedactPair(p)))
  {
    var v := RedactPair(p).value;
    MarkBracketsJoin(": ", PrintValue(v));
    MarkBracketsJoin(p.key, ": " + PrintValue(v));
  }

  lemma {:induction false} PairsHaveNoBrackets(pairs: seq<Pair>)
    requires ArePairs(pairs)
    ensures OnlyMarkBrackets(PrintPairs(RedactPairs(pairs)))
  {
    if pairs != [] {
      PairHasNoBrackets(pairs[0]);
      PairsHaveNoBrackets(pairs[1..]);
      var gap, rest := if pairs[0].onNewLine then "\n" else ", ", PrintPairs(RedactPairs(pairs[1..]));
      MarkBracketsJoin(gap, rest);
      MarkBracketsJoin(PrintPair(RedactPair(pairs[0])), gap + rest);
      assert ([RedactPair(pairs[0])] + RedactPairs(pairs[1..]))[1..] == RedactPairs(pairs[1..]);
    }
  }

  lemma {:induction false} NothingToReplace(s: string, i: nat)
    requires OnlyMarkBrackets(s) && i <= |s|
    ensures ReplacePairs(s, i) == s[i..]
    decreases |s| - i
  {
    if i < |s| {
      if s[i] == '[' { NoPairOver(s, i, i + 1); }
      NothingToReplace(s, i + 1);
    }
  }

  lemma ScanOfPairs(pairs: seq<Pair>, depth: nat)
    requires ArePairs(pairs) && depth <= MAX_STRING_DEPTH
    ensures Scan(PrintPairs(pairs), 0, -1, -1, depth) == PrintPairs(RedactPairs(pairs))
  {
    var text := PrintPairs(pairs);
    var f := (i: nat) => if i <= |text| then Scan(text, i, -1, -1, depth) else "";
    assert text[0..|text|] == text;
    PairsEmit(f, text, 0, pairs, depth);
    assert f(0) == Scan(text, 0, -1, -1, depth) && f(|text|) == "";
  }

  /** Scrubbing a text of such pairs replaces exactly the values of the sensitive keys, each of them whole. */
  lemma ScrubOfPairsIsRedaction(pairs: seq<Pair>, depth: nat)
    requires ArePairs(pairs) && depth <= MAX_STRING_DEPTH
    ensures ScrubAt(PrintPairs(pairs), depth) == PrintPairs(RedactPairs(pairs))
  {
    ScanOfPairs(pairs, depth);
    PairsHaveNoBrackets(pairs);
    NothingToReplace(PrintPairs(RedactPairs(pairs)), 0);
  }
}
