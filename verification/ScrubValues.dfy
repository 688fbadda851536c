/**
 * Where a sensitive value ends, said without the scanning loops
 * (packages/errors/src/scrub-location-pii.ts, lines 387-489): bare values,
 * values on the following lines, and what is left when nothing is cut.
 */
module ScrubValues {
  import opened Options
  import opened Chars
  import opened ScrubText

  // ----- Bare values -----

  /** The unquoted positions from `i` up to the end of the line, or to a quote it does not close. */
  function LineUnquoted(text: string, i: nat): (ps: seq<nat>)
    requires i <= |text|
    ensures forall k :: 0 <= k < |ps| ==> i <= ps[k] < |text|
    decreases |text| - i
  {
    if i == |text| || IsLineBreak(text[i]) then []
    else if IsQuote(text[i]) then
      match QuoteClose(text, i)
      case ClosedAt(c) => LineUnquoted(text, c + 1)
      case OpenUntil(_) => []
    else [i] + LineUnquoted(text, i + 1)
  }

  /** Where that stretch ends: a line break outside quotes, or the end of an unclosed quote's line. */
  function LineLimit(text: string, i: nat): (r: nat)
    requires i <= |text|
    ensures i <= r <= |text|
    decreases |text| - i
  {
    if i == |text| || IsLineBreak(text[i]) then i
    else if IsQuote(text[i]) then
      match QuoteClose(text, i)
      case ClosedAt(c) => LineLimit(text, c + 1)
      case OpenUntil(p) => p
    else LineLimit(text, i + 1)
  }

  function Nesting(c: char): int { if c in "([{" then 1 else if c in ")]}" then -1 else 0 }

  /** Brackets opened less brackets closed among the first `n` positions. */
  function Net(text: string, ps: seq<nat>, n: nat): int
    requires n <= |ps| && forall k :: 0 <= k < |ps| ==> ps[k] < |text|
  {
    if n == 0 then 0 else Net(text, ps, n - 1) + Nesting(text[ps[n - 1]])
  }

  lemma {:induction false} NetCons(text: string, p: nat, rest: seq<nat>, n: nat)
    requires p < |text| && n <= |rest| && forall k :: 0 <= k < |rest| ==> rest[k] < |text|
    ensures Net(text, [p] + rest, n + 1) == Nesting(text[p]) + Net(text, rest, n)
  {
    if n > 0 { NetCons(text, p, rest, n - 1); }
  }

  /** Outside all brackets: one that closes more, or a comma before a key or the end of the line. */
  predicate EndsHere(text: string, ps: seq<nat>, d: nat, n: nat)
    requires n < |ps| && forall k :: 0 <= k < |ps| ==> ps[k] < |text|
  {
    d + Net(text, ps, n) == 0 && (text[ps[n]] in ")]}" || (text[ps[n]] == ',' && EndsBareValue(text, ps[n])))
  }

  /** `e` is the first position that ends the value, or the limit when none does. */
  ghost predicate IsBareEnd(text: string, ps: seq<nat>, limit: nat, d: nat, e: nat)
    requires forall k :: 0 <= k < |ps| ==> ps[k] < |text|
  {
    || (exists n: nat :: n < |ps| && FirstEnd(text, ps, d, n) && e == ps[n])
    || ((forall n: nat :: n < |ps| ==> !EndsHere(text, ps, d, n)) && e == limit)
  }

  ghost predicate FirstEnd(text: string, ps: seq<nat>, d: nat, n: nat)
    requires n < |ps| && forall k :: 0 <= k < |ps| ==> ps[k] < |text|
  {
    EndsHere(text, ps, d, n) && forall m: nat :: m < n ==> !EndsHere(text, ps, d, m)
  }

  lemma EndsHereCons(text: string, p: nat, rest: seq<nat>, d: nat, d': nat, n: nat)
    requires p < |text| && n < |rest| && forall k :: 0 <= k < |rest| ==> rest[k] < |text|
    requires d' == d + Nesting(text[p])
    ensures EndsHere(text, [p] + rest, d, n + 1) <==> EndsHere(text, rest, d', n)
  {
    NetCons(text, p, rest, n);
    assert ([p] + rest)[n + 1] == rest[n];
  }

  lemma BareEndCons(text: string, p: nat, rest: seq<nat>, limit: nat, d: nat, e: nat)
    requires p < |text| && forall k :: 0 <= k < |rest| ==> rest[k] < |text|
    requires d + Nesting(text[p]) >= 0 && !EndsHere(text, [p] + rest, d, 0)
    requires IsBareEnd(text, rest, limit, d + Nesting(text[p]), e)
    ensures IsBareEnd(text, [p] + rest, limit, d, e)
  {
    var ps, d' := [p] + rest, d + Nesting(text[p]);
    forall n: nat | n < |rest| ensures EndsHere(text, ps, d, n + 1) <==> EndsHere(text, rest, d', n) {
      EndsHereCons(text, p, rest, d, d', n);
    }
    assert forall n: nat :: 0 < n < |ps| ==> (EndsHere(text, ps, d, n) <==> EndsHere(text, rest, d', n - 1));
    if n: nat :| n < |rest| && FirstEnd(text, rest, d', n) && e == rest[n] {
      assert FirstEnd(text, ps, d, n + 1) && ps[n + 1] == rest[n];
    }
  }

  lemma {:induction false} BareScanEnds(text: string, i: nat, d: nat)
    requires i <= |text|
    ensures IsBareEnd(text, LineUnquoted(text, i), LineLimit(text, i), d, BareScan(text, i, d))
    decreases |text| - i
  {
    if i < |text| && !IsLineBreak(text[i]) {
      if IsQuote(text[i]) {
        match QuoteClose(text, i)
        case ClosedAt(c) => BareScanEnds(text, c + 1, d);
        case OpenUntil(_) =>
      } else {
        var rest := LineUnquoted(text, i + 1);
        if EndsHere(text, [i] + rest, d, 0) {
          assert FirstEnd(text, [i] + rest, d, 0);
        } else {
          BareScanEnds(text, i + 1, d + Nesting(text[i]));
          BareEndCons(text, i, rest, LineLimit(text, i + 1), d, BareScan(text, i, d));
        }
      }
    }
  }

  /**
   * A bare value runs exactly to the first unquoted position outside all
   * brackets where a bracket closes or a comma comes before a key or the end of
   * the line, or else to the end of the line.
   */
  lemma BareEndExact(text: string, start: nat, e: nat)
    requires start <= |text|
    ensures BareScan(text, start, 0) == e <==> IsBareEnd(text, LineUnquoted(text, start), LineLimit(text, start), 0, e)
  {
    BareScanEnds(text, start, 0);
    var ps, end := LineUnquoted(text, start), BareScan(text, start, 0);
    if IsBareEnd(text, ps, LineLimit(text, start), 0, e) {
      if n: nat :| n < |ps| && FirstEnd(text, ps, 0, n) && e == ps[n] {
        var m: nat :| m < |ps| && FirstEnd(text, ps, 0, m) && end == ps[m];
        assert EndsHere(text, ps, 0, n) && EndsHere(text, ps, 0, m);
      }
    }
  }

  // ----- Values on the following lines -----

  /** A run of line breaks starts at `b`. */
  predicate RunAt(text: string, p: nat, b: nat) {
    p <= b < |text| && IsLineBreak(text[b]) && (b == p || !IsLineBreak(text[b - 1]))
  }

  /** The next line that is not empty starts a key or closes a bracket. */
  predicate LastsTo(text: string, b: nat)
    requires b <= |text|
  {
    EndsLineValue(text, SkipBlanks(text, SkipLineBreaks(text, b)))
  }

  /** `b` is the first run that ends the value. */
  ghost predicate FirstRun(text: string, p: nat, b: nat) {
    RunAt(text, p, b) && LastsTo(text, b) && forall c: nat :: RunAt(text, p, c) && c < b ==> !LastsTo(text, c)
  }

  ghost predicate IsLineCut(text: string, p: nat, r: Option<Cut>) {
    || (exists b: nat :: FirstRun(text, p, b) &&
          r == if HasNonSpace(text, p, b) then Some(Cut(p, b, " " + MARK)) else None)
    || ((forall b: nat :: RunAt(text, p, b) ==> !LastsTo(text, b)) &&
          r == Some(Cut(p, |text|, " " + TRUNCATED_MARK)))
  }

  lemma {:induction false} SkipLineBreaksSkips(text: string, i: nat)
    requires i <= |text|
    ensures var r := SkipLineBreaks(text, i);
            (forall k :: i <= k < r ==> IsLineBreak(text[k])) && (r < |text| ==> !IsLineBreak(text[r]))
    decreases |text| - i
  {
    if i < |text| && IsLineBreak(text[i]) { SkipLineBreaksSkips(text, i + 1); }
  }

  lemma {:induction false} LineEndSkips(text: string, i: nat)
    requires i <= |text|
    ensures forall k :: i <= k < LineEnd(text, i) ==> !IsLineBreak(text[k])
    decreases |text| - i
  {
    if i < |text| && !IsLineBreak(text[i]) { LineEndSkips(text, i + 1); }
  }

  /** Between a run and the next the scan jumps over no other. */
  lemma NextRun(text: string, p: nat, b: nat, next: nat)
    requires RunAt(text, p, b) && next == LineEnd(text, SkipBlanks(text, SkipLineBreaks(text, b)))
    ensures b < next && (next < |text| ==> RunAt(text, p, next))
    ensures forall c: nat :: RunAt(text, p, c) && c < next ==> c <= b
  {
    var e := SkipLineBreaks(text, b);
    var t := SkipBlanks(text, e);
    SkipLineBreaksSkips(text, b);
    LineEndSkips(text, t);
    assert forall k :: e <= k < next ==> !IsLineBreak(text[k]);
    forall c: nat | b < c < next ensures !RunAt(text, p, c) {
      if c <= e { assert IsLineBreak(text[c - 1]); }
    }
  }

  lemma {:induction false} LineScanCuts(text: string, p: nat, b: nat)
    requires RunAt(text, p, b) && forall c: nat :: RunAt(text, p, c) && c < b ==> !LastsTo(text, c)
    ensures IsLineCut(text, p, LineScan(text, p, b))
    decreases |text| - b
  {
    if LastsTo(text, b) {
      assert FirstRun(text, p, b);
    } else {
      var next := LineEnd(text, SkipBlanks(text, SkipLineBreaks(text, b)));
      NextRun(text, p, b, next);
      assert forall c: nat :: RunAt(text, p, c) && c < next ==> !LastsTo(text, c);
      if next < |text| { LineScanCuts(text, p, next); }
    }
  }

  /**
   * A value on the following lines is cut exactly up to the first run of line
   * breaks after which a line starts a key or closes a bracket; to the end of
   * the text when there is none.
   */
  lemma LineCutExact(text: string, p: nat, r: Option<Cut>)
    requires p < |text| && IsLineBreak(text[p])
    ensures LineScan(text, p, p) == r <==> IsLineCut(text, p, r)
  {
    LineScanCuts(text, p, p);
    var s := LineScan(text, p, p);
    if IsLineCut(text, p, r) {
      if b: nat :| FirstRun(text, p, b) && r == if HasNonSpace(text, p, b) then Some(Cut(p, b, " " + MARK)) else None {
        var c: nat :| FirstRun(text, p, c) &&
                      s == if HasNonSpace(text, p, c) then Some(Cut(p, c, " " + MARK)) else None;
        assert b == c;
      }
    }
  }

  // ----- Nothing is left uncut -----

  predicate AllSpace(text: string, i: nat, j: nat)
    requires i <= j <= |text|
  {
    forall k :: i <= k < j ==> IsSpace(text[k])
  }

  /** After white space only: the end, a key, a closing bracket, or a comma that ends an empty value. */
  ghost predicate HasNoValue(text: string, i: nat) {
    exists q: nat :: i <= q <= |text| && AllSpace(text, i, q) && StartsNothing(text, q)
  }

  predicate StartsNothing(text: string, q: nat) {
    q >= |text| || StartsKeyAt(text, q) || text[q] in ")]}" || (text[q] == ',' && EndsBareValue(text, q))
  }

  lemma {:induction false} SkipSpaceSkips(text: string, i: nat)
    requires i <= |text|
    ensures AllSpace(text, i, SkipSpace(text, i))
    decreases |text| - i
  {
    if i < |text| && IsSpace(text[i]) { SkipSpaceSkips(text, i + 1); }
  }

  lemma BlanksAreSpace(text: string, i: nat)
    requires i <= |text|
    ensures AllSpace(text, i, SkipBlanks(text, i))
  {
  }

  lemma EmptyLinesHaveNoValue(text: string, p: nat, b: nat)
    requires FirstRun(text, p, b) && !HasNonSpace(text, p, b)
    ensures HasNoValue(text, p)
  {
    var e := SkipLineBreaks(text, b);
    var q := SkipBlanks(text, e);
    SkipLineBreaksSkips(text, b);
    assert AllSpace(text, p, b) && AllSpace(text, b, e) && AllSpace(text, e, q);
    assert AllSpace(text, p, q) && StartsNothing(text, q);
  }

  lemma BareValueIsThere(text: string, p: nat)
    requires p < |text| && !IsBlank(text[p]) && !IsLineBreak(text[p]) && !IsQuote(text[p]) && !StartsNothing(text, p)
    ensures BareValueEnd(text, p) > p
  {
    var i := BareScan(text, p, 0);
    assert i > p;
    TrimEndStops(text, p, i);
  }

  lemma {:induction false} TrimEndStops(text: string, start: nat, i: nat)
    requires start < i <= |text| && !IsBlank(text[start])
    ensures TrimEnd(text, start, i) > start
  {
    if IsBlank(text[i - 1]) { TrimEndStops(text, start, i - 1); }
  }

  /** A sensitive key whose value is not cut has none: the scanner fails closed. */
  lemma UncutMeansNoValue(text: string, colonEnd: nat)
    requires colonEnd <= |text| && SensitiveValueAt(text, colonEnd).None?
    ensures HasNoValue(text, colonEnd)
  {
    var p := SkipBlanks(text, colonEnd);
    BlanksAreSpace(text, colonEnd);
    if p == |text| {
      assert StartsNothing(text, p);
    } else if IsLineBreak(text[p]) {
      SkipSpaceSkips(text, p);
      var r := SkipSpace(text, p);
      if r == |text| {
        assert AllSpace(text, colonEnd, r) && StartsNothing(text, r);
      } else {
        LineScanCuts(text, p, p);
        var b: nat :| FirstRun(text, p, b);
        EmptyLinesHaveNoValue(text, p, b);
        var q: nat :| p <= q <= |text| && AllSpace(text, p, q) && StartsNothing(text, q);
        assert AllSpace(text, colonEnd, q);
      }
    } else if !StartsNothing(text, p) {
      BareValueIsThere(text, p);
    }
  }
}
