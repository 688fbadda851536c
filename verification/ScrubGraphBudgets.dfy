/**
 * Exactly what the two budgets of a graph walk cost it. How many values and
 * characters stand before each place is counted on the graph, as if there were
 * no budgets; from these counts alone follows what the walk shows there.
 */
module ScrubGraphBudgets {
  import opened ScrubText
  import opened ScrubMessage
  import opened ScrubGraph
  import opened ScrubGraphMeaning

  function Min(a: nat, b: nat): nat { if a <= b then a else b }

  // ----- What there is to visit and to scrub -----

  /** The values visited below and at `v`, itself included; a sensitive key's value is not. */
  function Visits(g: Graph, v: Value, depth: nat, path: set<Ref>): (n: nat)
    requires Closed(g) && Known(g, v)
    ensures n > 0
    decreases Levels(depth), 0, 0
  {
    if v.At? && depth <= MAX_DEPTH && v.ref !in path then
      assert NodeKnown(g, g[v.ref]);
      match g[v.ref]
      case Moment => 1
      case Items(items) => 1 + VisitsOfItems(g, items, depth + 1, path + {v.ref})
      case Entries(entries) => 1 + VisitsOfEntries(g, entries, depth + 1, path + {v.ref})
    else 1
  }

  function VisitsOfItems(g: Graph, items: seq<Value>, depth: nat, path: set<Ref>): nat
    requires Closed(g) && forall k :: 0 <= k < |items| ==> Known(g, items[k])
    decreases Levels(depth), 1, |items|
  {
    if items == [] then 0 else Visits(g, items[0], depth, path) + VisitsOfItems(g, items[1..], depth, path)
  }

  function VisitsOfEntries(g: Graph, entries: seq<Entry>, depth: nat, path: set<Ref>): nat
    requires Closed(g) && forall k :: 0 <= k < |entries| ==> Known(g, entries[k].value)
    decreases Levels(depth), 1, |entries|
  {
    if entries == [] then 0
    else VisitsOfEntry(g, entries[0], depth, path) + VisitsOfEntries(g, entries[1..], depth, path)
  }

  function VisitsOfEntry(g: Graph, e: Entry, depth: nat, path: set<Ref>): nat
    requires Closed(g) && Known(g, e.value)
    decreases Levels(depth), 0, 1
  {
    if IsLocationSensitiveKey(e.key) then 0 else Visits(g, e.value, depth, path)
  }

  /** The characters of the text leaves among them that could hold a key or a position. */
  function Characters(g: Graph, textLeaves: bool, v: Value, depth: nat, path: set<Ref>): nat
    requires Closed(g) && Known(g, v)
    decreases Levels(depth), 0, 0
  {
    match v
    case Str(s) => if textLeaves && (':' in s || '[' in s) then |s| else 0
    case Plain(_) => 0
    case At(ref) =>
      if depth <= MAX_DEPTH && ref !in path then
        assert NodeKnown(g, g[ref]);
        match g[ref]
        case Moment => 0
        case Items(items) => CharactersOfItems(g, textLeaves, items, depth + 1, path + {ref})
        case Entries(entries) => CharactersOfEntries(g, textLeaves, entries, depth + 1, path + {ref})
      else 0
  }

  function CharactersOfItems(g: Graph, textLeaves: bool, items: seq<Value>, depth: nat, path: set<Ref>): nat
    requires Closed(g) && forall k :: 0 <= k < |items| ==> Known(g, items[k])
    decreases Levels(depth), 1, |items|
  {
    if items == [] then 0
    else Characters(g, textLeaves, items[0], depth, path) + CharactersOfItems(g, textLeaves, items[1..], depth, path)
  }

  function CharactersOfEntries(g: Graph, textLeaves: bool, entries: seq<Entry>, depth: nat, path: set<Ref>): nat
    requires Closed(g) && forall k :: 0 <= k < |entries| ==> Known(g, entries[k].value)
    decreases Levels(depth), 1, |entries|
  {
    if entries == [] then 0
    else CharactersOfEntry(g, textLeaves, entries[0], depth, path)
         + CharactersOfEntries(g, textLeaves, entries[1..], depth, path)
  }

  function CharactersOfEntry(g: Graph, textLeaves: bool, e: Entry, depth: nat, path: set<Ref>): nat
    requires Closed(g) && Known(g, e.value)
    decreases Levels(depth), 0, 1
  {
    if IsLocationSensitiveKey(e.key) then 0 else Characters(g, textLeaves, e.value, depth, path)
  }

  // ----- The redaction with budgets -----

  /**
   * The redaction of `v` with `m` visits and `n` characters before it: a text
   * that ends past the character budget is cut, as is everything from the last
   * visit of the node budget on, at every level.
   */
  function Budgeted(g: Graph, textLeaves: bool, v: Value, depth: nat, path: set<Ref>, m: nat, n: nat): Out
    requires Closed(g) && Known(g, v)
    decreases Levels(depth), 0, 0
  {
    match v
    case Str(s) =>
      if !textLeaves || (':' !in s && '[' !in s) then Text(s)
      else Text(if n + |s| <= MAX_AREA_TEXT then Scrubbed(s) else SCRUBBED_TRUNCATED)
    case Plain(_) => Same(v)
    case At(ref) =>
      if depth > MAX_DEPTH then Text(SCRUBBED_TRUNCATED)
      else if ref in path then Text(CIRCULAR)
      else
        assert NodeKnown(g, g[ref]);
        match g[ref]
        case Moment => Same(v)
        case Items(items) => OutItems(BudgetedItems(g, textLeaves, items, depth + 1, path + {ref}, m + 1, n))
        case Entries(entries) =>
          OutEntries(BudgetedEntries(g, textLeaves, entries, depth + 1, path + {ref}, m + 1, n))
  }

  function BudgetedItems(
      g: Graph, textLeaves: bool, items: seq<Value>, depth: nat, path: set<Ref>, m: nat, n: nat): seq<Out>
    requires Closed(g) && forall k :: 0 <= k < |items| ==> Known(g, items[k])
    decreases Levels(depth), 1, |items|
  {
    if items == [] then []
    else if m >= MAX_NODES then [Text(SCRUBBED_TRUNCATED)]
    else
      [Budgeted(g, textLeaves, items[0], depth, path, m, n)]
      + BudgetedItems(g, textLeaves, items[1..], depth, path, m + Visits(g, items[0], depth, path),
                      n + Characters(g, textLeaves, items[0], depth, path))
  }

  function BudgetedEntries(
      g: Graph, textLeaves: bool, entries: seq<Entry>, depth: nat, path: set<Ref>, m: nat, n: nat): seq<OutEntry>
    requires Closed(g) && forall k :: 0 <= k < |entries| ==> Known(g, entries[k].value)
    decreases Levels(depth), 1, |entries|
  {
    if entries == [] then []
    else if m >= MAX_NODES then [OutEntry(entries[0].key, Text(SCRUBBED_TRUNCATED))]
    else
      [OutEntry(entries[0].key, BudgetedEntry(g, textLeaves, entries[0], depth, path, m, n))]
      + BudgetedEntries(g, textLeaves, entries[1..], depth, path, m + VisitsOfEntry(g, entries[0], depth, path),
                        n + CharactersOfEntry(g, textLeaves, entries[0], depth, path))
  }

  function BudgetedEntry(g: Graph, textLeaves: bool, e: Entry, depth: nat, path: set<Ref>, m: nat, n: nat): Out
    requires Closed(g) && Known(g, e.value)
    decreases Levels(depth), 0, 1
  {
    if IsLocationSensitiveKey(e.key) then Text(SCRUBBED) else Budgeted(g, textLeaves, e.value, depth, path, m, n)
  }

  // ----- The walk is this redaction -----

  /** What is spent after `m` visits and `n` characters; past the node budget no more text is met. */
  predicate IsSpent(b: Budget, m: nat, n: nat) {
    b.nodes == Min(m, MAX_NODES) && (m < MAX_NODES ==> b.chars == Min(n, MAX_AREA_TEXT))
  }

  /**
   * The walk shows at every place what the counts before it call for, and spends
   * one visit for each value and one character for each that it scrubs, until a
   * budget is used up.
   */
  lemma {:induction false} WalkIsBudgeted(
      g: Graph, textLeaves: bool, v: Value, depth: nat, path: set<Ref>, b: Budget, m: nat, n: nat)
    requires Closed(g) && Known(g, v) && m < MAX_NODES && IsSpent(b, m, n)
    ensures var w := Walk(g, textLeaves, v, depth, path, b);
            && w.out == Budgeted(g, textLeaves, v, depth, path, m, n)
            && IsSpent(w.budget, m + Visits(g, v, depth, path), n + Characters(g, textLeaves, v, depth, path))
    decreases Levels(depth), 0, 1
  {
    match v
    case Str(s) => LeafIsBudgeted(g, textLeaves, s, depth, path, b, m, n);
    case Plain(_) =>
    case At(ref) =>
      if depth <= MAX_DEPTH && ref !in path {
        NodeIsBudgeted(g, textLeaves, ref, depth, path, b.(nodes := b.nodes + 1), m, n);
      }
  }

  lemma {:induction false} NodeIsBudgeted(
      g: Graph, textLeaves: bool, ref: Ref, depth: nat, path: set<Ref>, b: Budget, m: nat, n: nat)
    requires Closed(g) && ref in g && depth <= MAX_DEPTH && ref !in path && IsSpent(b, m + 1, n) && m < MAX_NODES
    ensures var w := WalkNode(g, textLeaves, ref, depth, path, b);
            && w.out == Budgeted(g, textLeaves, At(ref), depth, path, m, n)
            && IsSpent(w.budget, m + Visits(g, At(ref), depth, path),
                       n + Characters(g, textLeaves, At(ref), depth, path))
    decreases Levels(depth), 0, 0
  {
    assert NodeKnown(g, g[ref]);
    match g[ref]
    case Moment =>
    case Items(items) => ItemsAreBudgeted(g, textLeaves, items, depth + 1, path + {ref}, b, m + 1, n);
    case Entries(entries) => EntriesAreBudgeted(g, textLeaves, entries, depth + 1, path + {ref}, b, m + 1, n);
  }

  lemma LeafIsBudgeted(
      g: Graph, textLeaves: bool, s: string, depth: nat, path: set<Ref>, b: Budget, m: nat, n: nat)
    requires Closed(g) && m < MAX_NODES && IsSpent(b, m, n)
    ensures var w := Walk(g, textLeaves, Str(s), depth, path, b);
            && w.out == Budgeted(g, textLeaves, Str(s), depth, path, m, n)
            && IsSpent(w.budget, m + 1, n + Characters(g, textLeaves, Str(s), depth, path))
  {
  }

  lemma {:induction false} ItemsAreBudgeted(
      g: Graph, textLeaves: bool, items: seq<Value>, depth: nat, path: set<Ref>, b: Budget, m: nat, n: nat)
    requires Closed(g) && (forall k :: 0 <= k < |items| ==> Known(g, items[k])) && IsSpent(b, m, n)
    ensures var w := WalkItems(g, textLeaves, items, depth, path, b);
            && w.outs == BudgetedItems(g, textLeaves, items, depth, path, m, n)
            && IsSpent(w.budget, m + VisitsOfItems(g, items, depth, path),
                       n + CharactersOfItems(g, textLeaves, items, depth, path))
    decreases Levels(depth), 1, |items|
  {
    if items != [] && m < MAX_NODES {
      WalkIsBudgeted(g, textLeaves, items[0], depth, path, b, m, n);
      ItemsAreBudgeted(g, textLeaves, items[1..], depth, path, Walk(g, textLeaves, items[0], depth, path, b).budget,
                       m + Visits(g, items[0], depth, path), n + Characters(g, textLeaves, items[0], depth, path));
    }
  }

  lemma {:induction false} EntriesAreBudgeted(
      g: Graph, textLeaves: bool, entries: seq<Entry>, depth: nat, path: set<Ref>, b: Budget, m: nat, n: nat)
    requires Closed(g) && (forall k :: 0 <= k < |entries| ==> Known(g, entries[k].value)) && IsSpent(b, m, n)
    ensures var w := WalkEntries(g, textLeaves, entries, depth, path, b);
            && w.outs == BudgetedEntries(g, textLeaves, entries, depth, path, m, n)
            && IsSpent(w.budget, m + VisitsOfEntries(g, entries, depth, path),
                       n + CharactersOfEntries(g, textLeaves, entries, depth, path))
    decreases Levels(depth), 1, |entries|
  {
    if entries != [] && m < MAX_NODES {
      var e := entries[0];
      var spent := WalkEntry(g, textLeaves, e, depth, path, b).budget;
      var rest := WalkEntries(g, textLeaves, entries[1..], depth, path, spent);
      EntryIsBudgeted(g, textLeaves, e, depth, path, b, m, n);
      EntriesAreBudgeted(g, textLeaves, entries[1..], depth, path, spent,
                         m + VisitsOfEntry(g, e, depth, path), n + CharactersOfEntry(g, textLeaves, e, depth, path));
      EntriesStep(g, textLeaves, entries, depth, path, b, rest);
    }
  }

  lemma {:induction false} EntryIsBudgeted(
      g: Graph, textLeaves: bool, e: Entry, depth: nat, path: set<Ref>, b: Budget, m: nat, n: nat)
    requires Closed(g) && Known(g, e.value) && m < MAX_NODES && IsSpent(b, m, n)
    ensures var w := WalkEntry(g, textLeaves, e, depth, path, b);
            && w.out == BudgetedEntry(g, textLeaves, e, depth, path, m, n)
            && IsSpent(w.budget, m + VisitsOfEntry(g, e, depth, path),
                       n + CharactersOfEntry(g, textLeaves, e, depth, path))
    decreases Levels(depth), 0, 2
  {
    if !IsLocationSensitiveKey(e.key) { WalkIsBudgeted(g, textLeaves, e.value, depth, path, b, m, n); }
  }

  // ----- Within the budgets nothing is cut -----

  lemma {:induction false} BudgetedIsRedacted(
      g: Graph, textLeaves: bool, v: Value, depth: nat, path: set<Ref>, m: nat, n: nat)
    requires Closed(g) && Known(g, v)
    requires m + Visits(g, v, depth, path) < MAX_NODES
    requires n + Characters(g, textLeaves, v, depth, path) <= MAX_AREA_TEXT
    ensures Budgeted(g, textLeaves, v, depth, path, m, n) == Redacted(g, textLeaves, v, depth, path)
    decreases Levels(depth), 0, 0
  {
    if v.At? && depth <= MAX_DEPTH && v.ref !in path {
      assert NodeKnown(g, g[v.ref]);
      match g[v.ref]
      case Moment =>
      case Items(items) => BudgetedItemsAreRedacted(g, textLeaves, items, depth + 1, path + {v.ref}, m + 1, n);
      case Entries(entries) => BudgetedEntriesAreRedacted(g, textLeaves, entries, depth + 1, path + {v.ref}, m + 1, n);
    }
  }

  lemma {:induction false} BudgetedItemsAreRedacted(
      g: Graph, textLeaves: bool, items: seq<Value>, depth: nat, path: set<Ref>, m: nat, n: nat)
    requires Closed(g) && forall k :: 0 <= k < |items| ==> Known(g, items[k])
    requires m + VisitsOfItems(g, items, depth, path) < MAX_NODES
    requires n + CharactersOfItems(g, textLeaves, items, depth, path) <= MAX_AREA_TEXT
    ensures BudgetedItems(g, textLeaves, items, depth, path, m, n) == RedactedItems(g, textLeaves, items, depth, path)
    decreases Levels(depth), 1, |items|
  {
    if items != [] {
      BudgetedIsRedacted(g, textLeaves, items[0], depth, path, m, n);
      BudgetedItemsAreRedacted(g, textLeaves, items[1..], depth, path, m + Visits(g, items[0], depth, path),
                               n + Characters(g, textLeaves, items[0], depth, path));
    }
  }

  lemma {:induction false} BudgetedEntriesAreRedacted(
      g: Graph, textLeaves: bool, entries: seq<Entry>, depth: nat, path: set<Ref>, m: nat, n: nat)
    requires Closed(g) && forall k :: 0 <= k < |entries| ==> Known(g, entries[k].value)
    requires m + VisitsOfEntries(g, entries, depth, path) < MAX_NODES
    requires n + CharactersOfEntries(g, textLeaves, entries, depth, path) <= MAX_AREA_TEXT
    ensures BudgetedEntries(g, textLeaves, entries, depth, path, m, n) ==
            RedactedEntries(g, textLeaves, entries, depth, path)
    decreases Levels(depth), 1, |entries|
  {
    if entries != [] {
      var e, rest := entries[0], entries[1..];
      var m', n' := m + VisitsOfEntry(g, e, depth, path), n + CharactersOfEntry(g, textLeaves, e, depth, path);
      RestStaysWithin(g, textLeaves, entries, depth, path, m, n);
      BudgetedEntryIsRedacted(g, textLeaves, e, depth, path, m, n);
      BudgetedEntriesAreRedacted(g, textLeaves, rest, depth, path, m', n');
      FirstIsRedacted(g, textLeaves, entries, depth, path, m, n);
    }
  }

  lemma RestStaysWithin(
      g: Graph, textLeaves: bool, entries: seq<Entry>, depth: nat, path: set<Ref>, m: nat, n: nat)
    requires Closed(g) && forall k :: 0 <= k < |entries| ==> Known(g, entries[k].value)
    requires entries != []
    ensures m + VisitsOfEntries(g, entries, depth, path) ==
            m + VisitsOfEntry(g, entries[0], depth, path) + VisitsOfEntries(g, entries[1..], depth, path)
    ensures n + CharactersOfEntries(g, textLeaves, entries, depth, path) ==
            n + CharactersOfEntry(g, textLeaves, entries[0], depth, path)
            + CharactersOfEntries(g, textLeaves, entries[1..], depth, path)
  {
  }

  lemma FirstIsRedacted(
      g: Graph, textLeaves: bool, entries: seq<Entry>, depth: nat, path: set<Ref>, m: nat, n: nat)
    requires Closed(g) && forall k :: 0 <= k < |entries| ==> Known(g, entries[k].value)
    requires entries != [] && m < MAX_NODES
    requires OutEntry(entries[0].key, BudgetedEntry(g, textLeaves, entries[0], depth, path, m, n)) ==
             RedactedEntry(g, textLeaves, entries[0], depth, path)
    requires BudgetedEntries(g, textLeaves, entries[1..], depth, path, m + VisitsOfEntry(g, entries[0], depth, path),
                             n + CharactersOfEntry(g, textLeaves, entries[0], depth, path)) ==
             RedactedEntries(g, textLeaves, entries[1..], depth, path)
    ensures BudgetedEntries(g, textLeaves, entries, depth, path, m, n) ==
            RedactedEntries(g, textLeaves, entries, depth, path)
  {
  }

  lemma {:induction false} BudgetedEntryIsRedacted(
      g: Graph, textLeaves: bool, e: Entry, depth: nat, path: set<Ref>, m: nat, n: nat)
    requires Closed(g) && Known(g, e.value)
    requires m + VisitsOfEntry(g, e, depth, path) < MAX_NODES
    requires n + CharactersOfEntry(g, textLeaves, e, depth, path) <= MAX_AREA_TEXT
    ensures OutEntry(e.key, BudgetedEntry(g, textLeaves, e, depth, path, m, n)) ==
            RedactedEntry(g, textLeaves, e, depth, path)
    decreases Levels(depth), 0, 1
  {
    if !IsLocationSensitiveKey(e.key) { BudgetedIsRedacted(g, textLeaves, e.value, depth, path, m, n); }
  }

  /** Within both budgets the walk is the redaction without counters, and spends exactly what it visits and scrubs. */
  lemma WalkWithinBudgetIsRedaction(
      g: Graph, textLeaves: bool, v: Value, depth: nat, path: set<Ref>, b: Budget)
    requires Closed(g) && Known(g, v)
    requires b.nodes + Visits(g, v, depth, path) < MAX_NODES
    requires b.chars + Characters(g, textLeaves, v, depth, path) <= MAX_AREA_TEXT
    ensures Walk(g, textLeaves, v, depth, path, b) ==
            Walked(Redacted(g, textLeaves, v, depth, path),
                   Budget(b.nodes + Visits(g, v, depth, path),
                          b.chars + Characters(g, textLeaves, v, depth, path)))
  {
    WalkIsBudgeted(g, textLeaves, v, depth, path, b, b.nodes, b.chars);
    BudgetedIsRedacted(g, textLeaves, v, depth, path, b.nodes, b.chars);
  }
}
