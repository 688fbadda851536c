/** What the scanner does to any text at all. */
module ScrubCuts {
  import opened Options
  import opened Chars
  import opened CoordinatePairs
  import opened ScrubText

  // ----- The pass only cuts -----

  /** The cuts the pass makes from `i` on, in the order it makes them. */
  function CutsFrom(text: string, i: nat, dq: int, sq: int, depth: nat): seq<Cut>
    requires i <= |text| && depth <= MAX_STRING_DEPTH
    decreases |text| - i
  {
    if i == |text| then []
    else
      var m := MoveAt(text, i, dq, sq, depth);
      (if m.cut.Some? then [m.cut.value] else []) + CutsFrom(text, m.next, m.dq, m.sq, depth)
  }

  /** Non-empty regions of `text[from..]`, in order and disjoint. */
  ghost predicate OrderedCuts(text: string, from: nat, cuts: seq<Cut>)
    requires from <= |text|
    decreases |cuts|
  {
    cuts == [] ||
    (from <= cuts[0].start < cuts[0].end <= |text| && OrderedCuts(text, cuts[0].end, cuts[1..]))
  }

  /** `text[from..]` with each region replaced and everything else kept. */
  function Splice(text: string, from: nat, cuts: seq<Cut>): string
    requires from <= |text| && OrderedCuts(text, from, cuts)
    decreases |cuts|
  {
    if cuts == [] then text[from..]
    else text[from..cuts[0].start] + cuts[0].replacement + Splice(text, cuts[0].end, cuts[1..])
  }

  lemma Associate(a: string, b: string, c: string)
    ensures a + b + c == a + (b + c)
  {
  }

  lemma {:induction false} SpliceSkips(text: string, from: nat, to: nat, cuts: seq<Cut>)
    requires from <= to <= |text| && OrderedCuts(text, to, cuts)
    ensures OrderedCuts(text, from, cuts) && Splice(text, from, cuts) == text[from..to] + Splice(text, to, cuts)
  {
    if cuts == [] {
      assert text[from..] == text[from..to] + text[to..];
    } else {
      var a, b := text[from..to], text[to..cuts[0].start];
      var tail := cuts[0].replacement + Splice(text, cuts[0].end, cuts[1..]);
      assert text[from..cuts[0].start] == a + b;
      assert (a + b) + tail == a + (b + tail);
      Associate(a + b, cuts[0].replacement, Splice(text, cuts[0].end, cuts[1..]));
      Associate(b, cuts[0].replacement, Splice(text, cuts[0].end, cuts[1..]));
    }
  }

  /** The pass keeps all text outside its cuts, in order, and its cuts are ordered and disjoint. */
  lemma {:induction false} ScanIsSplice(text: string, i: nat, dq: int, sq: int, depth: nat)
    requires i <= |text| && depth <= MAX_STRING_DEPTH
    ensures var cuts := CutsFrom(text, i, dq, sq, depth);
            OrderedCuts(text, i, cuts) && Scan(text, i, dq, sq, depth) == Splice(text, i, cuts)
    decreases |text| - i
  {
    if i < |text| {
      var m := MoveAt(text, i, dq, sq, depth);
      var rest := CutsFrom(text, m.next, m.dq, m.sq, depth);
      ScanIsSplice(text, m.next, m.dq, m.sq, depth);
      match m.cut
      case Some(cut) =>
        assert ([cut] + rest)[1..] == rest;
      case None =>
        assert [] + rest == rest;
        SpliceSkips(text, i, m.next, rest);
    }
  }

  // ----- Containers -----

  /** The positions outside quoted strings, from `i` on. */
  function Unquoted(text: string, i: nat): (ps: seq<nat>)
    requires i <= |text|
    ensures forall k :: 0 <= k < |ps| ==> i <= ps[k] < |text|
    decreases |text| - i
  {
    if i == |text| then []
    else if IsQuote(text[i]) then Unquoted(text, PastQuote(text, i))
    else [i] + Unquoted(text, i + 1)
  }

  function Delta(c: char): int {
    if c in "{[" then 1 else if c in "}]" then -1 else 0
  }

  /** Bracket depth after the first `n` of the positions. */
  function DepthAfter(text: string, ps: seq<nat>, n: nat): int
    requires n <= |ps| && forall k :: 0 <= k < |ps| ==> ps[k] < |text|
  {
    if n == 0 then 0 else DepthAfter(text, ps, n - 1) + Delta(text[ps[n - 1]])
  }

  lemma {:induction false} DepthAfterCons(text: string, p: nat, ps: seq<nat>, n: nat)
    requires p < |text| && n <= |ps| && forall k :: 0 <= k < |ps| ==> ps[k] < |text|
    ensures DepthAfter(text, [p] + ps, n + 1) == Delta(text[p]) + DepthAfter(text, ps, n)
  {
    if n > 0 {
      DepthAfterCons(text, p, ps, n - 1);
      assert ([p] + ps)[n] == ps[n - 1];
    }
  }

  /** The `n`-th unquoted character closes a bracket and is the first to bring the depth `d` down to zero. */
  ghost predicate FirstReturn(text: string, ps: seq<nat>, d: int, n: nat)
    requires forall k :: 0 <= k < |ps| ==> ps[k] < |text|
  {
    n < |ps| && Closes(text, ps, d, n) && forall m: nat :: m < n ==> !Closes(text, ps, d, m)
  }

  ghost predicate Closes(text: string, ps: seq<nat>, d: int, n: nat)
    requires n < |ps| && forall k :: 0 <= k < |ps| ==> ps[k] < |text|
  {
    text[ps[n]] in "}]" && d + DepthAfter(text, ps, n + 1) == 0
  }

  /** `r` is just past the first return of the depth to zero. */
  ghost predicate EndsAtFirstReturn(text: string, ps: seq<nat>, d: int, r: Option<nat>)
    requires forall k :: 0 <= k < |ps| ==> ps[k] < |text|
  {
    match r
    case Some(e) => exists n: nat :: FirstReturn(text, ps, d, n) && e == ps[n] + 1
    case None => forall n: nat :: n < |ps| ==> !Closes(text, ps, d, n)
  }

  lemma FirstReturnCons(text: string, p: nat, rest: seq<nat>, d: int, r: Option<nat>)
    requires p < |text| && forall k :: 0 <= k < |rest| ==> rest[k] < |text|
    requires !(text[p] in "}]" && d == 1)
    requires EndsAtFirstReturn(text, rest, d + Delta(text[p]), r)
    ensures EndsAtFirstReturn(text, [p] + rest, d, r)
  {
    var ps, d' := [p] + rest, d + Delta(text[p]);
    DepthAfterCons(text, p, rest, 0);
    forall n: nat | n < |rest| ensures Closes(text, ps, d, n + 1) <==> Closes(text, rest, d', n) {
      DepthAfterCons(text, p, rest, n + 1);
      assert ps[n + 1] == rest[n];
    }
    assert !Closes(text, ps, d, 0);
    assert forall n: nat :: 0 < n < |ps| ==> (Closes(text, ps, d, n) <==> Closes(text, rest, d', n - 1));
    if r.Some? {
      var n: nat :| FirstReturn(text, rest, d', n) && r.value == rest[n] + 1;
      assert FirstReturn(text, ps, d, n + 1) && ps[n + 1] == rest[n];
    }
  }

  lemma {:induction false} ContainerScanReturns(text: string, i: nat, d: int)
    requires i <= |text|
    ensures EndsAtFirstReturn(text, Unquoted(text, i), d, ContainerScan(text, i, d))
    decreases |text| - i
  {
    if i < |text| {
      if IsQuote(text[i]) {
        ContainerScanReturns(text, PastQuote(text, i), d);
      } else if text[i] in "}]" && d == 1 {
        DepthAfterCons(text, i, Unquoted(text, i + 1), 0);
        assert FirstReturn(text, Unquoted(text, i), d, 0);
      } else {
        ContainerScanReturns(text, i + 1, d + Delta(text[i]));
        FirstReturnCons(text, i, Unquoted(text, i + 1), d, ContainerScan(text, i + 1, d + Delta(text[i])));
      }
    }
  }

  /**
   * `containerEnd` answers `r` exactly when `r` is just past the first unquoted
   * closing bracket at which the depth is back to zero, or there is none.
   */
  lemma ContainerEndExact(text: string, start: nat, r: Option<nat>)
    requires start <= |text|
    ensures ContainerScan(text, start, 0) == r <==> EndsAtFirstReturn(text, Unquoted(text, start), 0, r)
  {
    var ps, end := Unquoted(text, start), ContainerScan(text, start, 0);
    ContainerScanReturns(text, start, 0);
    if EndsAtFirstReturn(text, ps, 0, r) && r.Some? {
      var n: nat :| FirstReturn(text, ps, 0, n) && r.value == ps[n] + 1;
      assert Closes(text, ps, 0, n);
      var m: nat :| FirstReturn(text, ps, 0, m) && end.value == ps[m] + 1;
      assert Closes(text, ps, 0, m);
    }
  }
}
