/**
 * The line marks of the scanner (packages/errors/src/scrub-location-pii.ts,
 * lines 505-535) keep it linear and change nothing: a scanner that looks for the
 * closing quote at every quote gives the same output.
 */
module ScrubMarks {
  import opened Options
  import opened Chars
  import opened ScrubText

  /** The pass without marks. */
  function PlainScan(text: string, i: nat, depth: nat): string
    requires i <= |text| && depth <= MAX_STRING_DEPTH
    decreases |text| - i
  {
    if i == |text| then ""
    else
      var m := MoveAt(text, i, -1, -1, depth);
      (match m.cut
       case Some(cut) => text[i..cut.start] + cut.replacement
       case None => text[i..m.next])
      + PlainScan(text, m.next, depth)
  }

  /** A quote that does not close on its line leaves every later one of its kind unclosed too. */
  lemma {:induction false} OpenQuoteStaysOpen(text: string, quote: char, j: nat, p: nat)
    requires QuoteScan(text, quote, j) == OpenUntil(p) && quote != '\\' && p <= |text|
    ensures forall k :: j <= k < p && text[k] == quote ==> QuoteScan(text, quote, k + 1) == OpenUntil(p)
    decreases if j < |text| then |text| - j else 0
  {
    if j < |text| && !IsLineBreak(text[j]) {
      OpenQuoteStaysOpen(text, quote, if text[j] == '\\' then j + 2 else j + 1, p);
    }
  }

  /** From `i` up to the mark no quote of this kind closes. */
  ghost predicate MarkHolds(text: string, i: nat, quote: char, mark: int) {
    forall k: nat :: i <= k < mark && k < |text| && text[k] == quote ==> QuoteClose(text, k).OpenUntil?
  }

  ghost predicate MarksHold(text: string, i: nat, dq: int, sq: int) {
    MarkHolds(text, i, '"', dq) && MarkHolds(text, i, '\'', sq)
  }

  /** A move under marks that hold is the move without marks, and leaves marks that hold. */
  lemma MarkedMoveIsPlain(text: string, i: nat, dq: int, sq: int, depth: nat)
    requires i < |text| && depth <= MAX_STRING_DEPTH && MarksHold(text, i, dq, sq)
    ensures var m, plain := MoveAt(text, i, dq, sq, depth), MoveAt(text, i, -1, -1, depth);
            m.next == plain.next && m.cut == plain.cut && MarksHold(text, m.next, m.dq, m.sq)
  {
    if IsQuote(text[i]) {
      match QuoteClose(text, i)
      case OpenUntil(p) => OpenQuoteStaysOpen(text, text[i], i + 1, p);
      case ClosedAt(_) =>
    }
  }

  lemma {:induction false} MarkedScanIsPlain(text: string, i: nat, dq: int, sq: int, depth: nat)
    requires i <= |text| && depth <= MAX_STRING_DEPTH && MarksHold(text, i, dq, sq)
    ensures Scan(text, i, dq, sq, depth) == PlainScan(text, i, depth)
    decreases |text| - i
  {
    if i < |text| {
      var m := MoveAt(text, i, dq, sq, depth);
      MarkedMoveIsPlain(text, i, dq, sq, depth);
      MarkedScanIsPlain(text, m.next, m.dq, m.sq, depth);
    }
  }

  /** The linear scanner refines the plain one on every text. */
  lemma LinearScanIsPlainScan(text: string, depth: nat)
    requires depth <= MAX_STRING_DEPTH
    ensures ScrubAt(text, depth) == ReplacePairs(PlainScan(text, 0, depth), 0)
  {
    MarkedScanIsPlain(text, 0, -1, -1, depth);
  }
}
