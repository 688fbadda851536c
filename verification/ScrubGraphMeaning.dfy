/**
 * What the graph walk means: within its budgets it is the plain redaction of
 * the value, on acyclic graphs it expands shared values wherever they stand, and
 * nothing under a sensitive key can be read off its output.
 */
module ScrubGraphMeaning {
  import opened ScrubText
  import opened ScrubMessage
  import opened ScrubGraph

  // ----- Without budgets -----

  /** The redaction of `v` met at `depth` below the values of `path`: no counters. */
  function Redacted(g: Graph, textLeaves: bool, v: Value, depth: nat, path: set<Ref>): Out
    requires Closed(g) && Known(g, v)
    decreases Levels(depth), 0, 0
  {
    match v
    case Str(s) => Text(if textLeaves && MayHoldText(s) then Scrubbed(s) else s)
    case Plain(_) => Same(v)
    case At(ref) =>
      if depth > MAX_DEPTH then Text(SCRUBBED_TRUNCATED)
      else if ref in path then Text(CIRCULAR)
      else
        assert NodeKnown(g, g[ref]);
        match g[ref]
        case Moment => Same(v)
        case Items(items) => OutItems(RedactedItems(g, textLeaves, items, depth + 1, path + {ref}))
        case Entries(entries) => OutEntries(RedactedEntries(g, textLeaves, entries, depth + 1, path + {ref}))
  }

  function RedactedItems(g: Graph, textLeaves: bool, items: seq<Value>, depth: nat, path: set<Ref>): seq<Out>
    requires Closed(g) && forall k :: 0 <= k < |items| ==> Known(g, items[k])
    decreases Levels(depth), 1, |items|
  {
    if items == [] then []
    else [Redacted(g, textLeaves, items[0], depth, path)] + RedactedItems(g, textLeaves, items[1..], depth, path)
  }

  function RedactedEntries(g: Graph, textLeaves: bool, entries: seq<Entry>, depth: nat, path: set<Ref>): seq<OutEntry>
    requires Closed(g) && forall k :: 0 <= k < |entries| ==> Known(g, entries[k].value)
    decreases Levels(depth), 1, |entries|
  {
    if entries == [] then []
    else
      [RedactedEntry(g, textLeaves, entries[0], depth, path)]
      + RedactedEntries(g, textLeaves, entries[1..], depth, path)
  }

  function RedactedEntry(g: Graph, textLeaves: bool, e: Entry, depth: nat, path: set<Ref>): OutEntry
    requires Closed(g) && Known(g, e.value)
    decreases Levels(depth), 0, 1
  {
    OutEntry(e.key, if IsLocationSensitiveKey(e.key) then Text(SCRUBBED)
                    else Redacted(g, textLeaves, e.value, depth, path))
  }

  /** Neither budget has run out. */
  predicate Left(b: Budget) { b.nodes < MAX_NODES && b.chars < MAX_AREA_TEXT }

  /** A walk that ends with budget left never lost anything to the budgets. */
  lemma {:induction false} WalkIsRedaction(
      g: Graph, textLeaves: bool, v: Value, depth: nat, path: set<Ref>, b: Budget)
    requires Closed(g) && Known(g, v) && Left(Walk(g, textLeaves, v, depth, path, b).budget)
    ensures Left(b) && Walk(g, textLeaves, v, depth, path, b).out == Redacted(g, textLeaves, v, depth, path)
    decreases Levels(depth), 0
  {
    if v.At? && depth <= MAX_DEPTH && v.ref !in path && b.nodes < MAX_NODES {
      var counted := b.(nodes := b.nodes + 1);
      assert NodeKnown(g, g[v.ref]);
      assert Walk(g, textLeaves, v, depth, path, b) == WalkNode(g, textLeaves, v.ref, depth, path, counted);
      match g[v.ref]
      case Moment =>
      case Items(items) => WalkItemsIsRedaction(g, textLeaves, items, depth + 1, path + {v.ref}, counted);
      case Entries(entries) => WalkEntriesIsRedaction(g, textLeaves, entries, depth + 1, path + {v.ref}, counted);
    }
  }

  lemma {:induction false} WalkItemsIsRedaction(
      g: Graph, textLeaves: bool, items: seq<Value>, depth: nat, path: set<Ref>, b: Budget)
    requires Closed(g) && (forall k :: 0 <= k < |items| ==> Known(g, items[k]))
    requires Left(WalkItems(g, textLeaves, items, depth, path, b).budget)
    ensures Left(b)
    ensures WalkItems(g, textLeaves, items, depth, path, b).outs == RedactedItems(g, textLeaves, items, depth, path)
    decreases Levels(depth), 1, |items|
  {
    if items != [] && b.nodes < MAX_NODES {
      WalkItemsIsRedaction(g, textLeaves, items[1..], depth, path,
                           Walk(g, textLeaves, items[0], depth, path, b).budget);
      WalkIsRedaction(g, textLeaves, items[0], depth, path, b);
    }
  }

  lemma {:induction false} WalkEntriesIsRedaction(
      g: Graph, textLeaves: bool, entries: seq<Entry>, depth: nat, path: set<Ref>, b: Budget)
    requires Closed(g) && (forall k :: 0 <= k < |entries| ==> Known(g, entries[k].value))
    requires Left(WalkEntries(g, textLeaves, entries, depth, path, b).budget)
    ensures Left(b)
    ensures WalkEntries(g, textLeaves, entries, depth, path, b).outs ==
            RedactedEntries(g, textLeaves, entries, depth, path)
    decreases Levels(depth), 1, |entries|
  {
    if entries != [] && b.nodes < MAX_NODES {
      WalkEntriesIsRedaction(g, textLeaves, entries[1..], depth, path,
                             WalkEntry(g, textLeaves, entries[0], depth, path, b).budget);
      if !IsLocationSensitiveKey(entries[0].key) {
        WalkIsRedaction(g, textLeaves, entries[0].value, depth, path, b);
      }
    }
  }

  // ----- Without cycles -----

  predicate Below(v: Value, rank: map<Ref, nat>, top: nat) { v.At? ==> v.ref in rank && rank[v.ref] < top }

  ghost predicate NodeBelow(n: Node, rank: map<Ref, nat>, top: nat) {
    match n
    case Moment => true
    case Items(items) => forall k :: 0 <= k < |items| ==> Below(items[k], rank, top)
    case Entries(entries) => forall k :: 0 <= k < |entries| ==> Below(entries[k].value, rank, top)
  }

  /** Every object ranks above the objects it holds, so none is met below itself. */
  ghost predicate Acyclic(g: Graph, rank: map<Ref, nat>) {
    forall r :: r in g ==> r in rank && NodeBelow(g[r], rank, rank[r])
  }

  ghost predicate AllAbove(path: set<Ref>, rank: map<Ref, nat>, top: nat) {
    forall r :: r in path ==> r in rank && rank[r] >= top
  }

  /** On an acyclic graph the path set has no effect: a value shared by two branches is walked in both. */
  lemma {:induction false} PathNeverMatters(
      g: Graph, textLeaves: bool, v: Value, depth: nat, path: set<Ref>, rank: map<Ref, nat>, top: nat)
    requires Closed(g) && Known(g, v) && Acyclic(g, rank) && AllAbove(path, rank, top) && Below(v, rank, top)
    ensures Redacted(g, textLeaves, v, depth, path) == Redacted(g, textLeaves, v, depth, {})
    decreases Levels(depth), 0
  {
    if v.At? && depth <= MAX_DEPTH {
      assert NodeKnown(g, g[v.ref]) && NodeBelow(g[v.ref], rank, rank[v.ref]);
      var p, q := path + {v.ref}, {} + {v.ref};
      match g[v.ref]
      case Moment =>
      case Items(items) =>
        ItemsPathNeverMatters(g, textLeaves, items, depth + 1, p, q, rank, rank[v.ref]);
      case Entries(entries) =>
        EntriesPathNeverMatters(g, textLeaves, entries, depth + 1, p, q, rank, rank[v.ref]);
    }
  }

  lemma {:induction false} ItemsPathNeverMatters(
      g: Graph, textLeaves: bool, items: seq<Value>, depth: nat, p: set<Ref>, q: set<Ref>,
      rank: map<Ref, nat>, top: nat)
    requires Closed(g) && Acyclic(g, rank) && AllAbove(p, rank, top) && AllAbove(q, rank, top)
    requires forall k :: 0 <= k < |items| ==> Known(g, items[k]) && Below(items[k], rank, top)
    ensures RedactedItems(g, textLeaves, items, depth, p) == RedactedItems(g, textLeaves, items, depth, q)
    decreases Levels(depth), 1, |items|
  {
    if items != [] {
      PathNeverMatters(g, textLeaves, items[0], depth, p, rank, top);
      PathNeverMatters(g, textLeaves, items[0], depth, q, rank, top);
      ItemsPathNeverMatters(g, textLeaves, items[1..], depth, p, q, rank, top);
    }
  }

  lemma {:induction false} EntriesPathNeverMatters(
      g: Graph, textLeaves: bool, entries: seq<Entry>, depth: nat, p: set<Ref>, q: set<Ref>,
      rank: map<Ref, nat>, top: nat)
    requires Closed(g) && Acyclic(g, rank) && AllAbove(p, rank, top) && AllAbove(q, rank, top)
    requires forall k :: 0 <= k < |entries| ==> Known(g, entries[k].value) && Below(entries[k].value, rank, top)
    ensures RedactedEntries(g, textLeaves, entries, depth, p) == RedactedEntries(g, textLeaves, entries, depth, q)
    decreases Levels(depth), 1, |entries|
  {
    if entries != [] {
      PathNeverMatters(g, textLeaves, entries[0].value, depth, p, rank, top);
      PathNeverMatters(g, textLeaves, entries[0].value, depth, q, rank, top);
      EntriesPathNeverMatters(g, textLeaves, entries[1..], depth, p, q, rank, top);
    }
  }

  // ----- Nothing sensitive shows -----

  /** Both heaps show `n` and `m` alike, but for what stands under sensitive keys. `shown` holds the objects shown. */
  ghost predicate NodesAlike(n: Node, m: Node, shown: set<Ref>) {
    match n
    case Moment => m.Moment?
    case Items(items) => m == n && forall k :: 0 <= k < |items| ==> Shown(items[k], shown)
    case Entries(entries) =>
      && m.Entries? && |m.entries| == |entries|
      && forall k :: 0 <= k < |entries| ==> EntriesAlike(entries[k], m.entries[k], shown)
  }

  predicate Shown(v: Value, shown: set<Ref>) { v.At? ==> v.ref in shown }

  predicate EntriesAlike(e: Entry, f: Entry, shown: set<Ref>) {
    e.key == f.key && (IsLocationSensitiveKey(e.key) || (e.value == f.value && Shown(e.value, shown)))
  }

  ghost predicate Alike(g: Graph, h: Graph, shown: set<Ref>) {
    forall r :: r in shown ==> r in g && r in h && NodesAlike(g[r], h[r], shown)
  }

  /**
   * Two heaps that differ only under sensitive keys, or in objects met only
   * there, give the same output and spend the same budget.
   */
  lemma {:induction false} SensitiveValuesDoNotShow(
      g: Graph, h: Graph, shown: set<Ref>, textLeaves: bool, v: Value, depth: nat, path: set<Ref>, b: Budget)
    requires Closed(g) && Closed(h) && Alike(g, h, shown) && Shown(v, shown)
    ensures Walk(g, textLeaves, v, depth, path, b) == Walk(h, textLeaves, v, depth, path, b)
    decreases Levels(depth), 0, 1
  {
    if v.At? && depth <= MAX_DEPTH && v.ref !in path && b.nodes < MAX_NODES {
      assert NodesAlike(g[v.ref], h[v.ref], shown);
      match g[v.ref]
      case Moment =>
      case Items(_) => ItemsNodeDoesNotShow(g, h, shown, textLeaves, v, depth, path, b);
      case Entries(_) => EntriesNodeDoesNotShow(g, h, shown, textLeaves, v, depth, path, b);
    }
  }

  lemma {:induction false} ItemsNodeDoesNotShow(
      g: Graph, h: Graph, shown: set<Ref>, textLeaves: bool, v: Value, depth: nat, path: set<Ref>, b: Budget)
    requires Closed(g) && Closed(h) && Alike(g, h, shown) && v.At? && v.ref in shown && g[v.ref].Items?
    requires depth <= MAX_DEPTH && v.ref !in path && b.nodes < MAX_NODES
    ensures Walk(g, textLeaves, v, depth, path, b) == Walk(h, textLeaves, v, depth, path, b)
    decreases Levels(depth), 0, 0
  {
    assert NodeKnown(g, g[v.ref]) && NodeKnown(h, h[v.ref]) && NodesAlike(g[v.ref], h[v.ref], shown);
    var counted := b.(nodes := b.nodes + 1);
    ItemsDoNotShow(g, h, shown, textLeaves, g[v.ref].items, depth + 1, path + {v.ref}, counted);
  }

  lemma {:induction false} EntriesNodeDoesNotShow(
      g: Graph, h: Graph, shown: set<Ref>, textLeaves: bool, v: Value, depth: nat, path: set<Ref>, b: Budget)
    requires Closed(g) && Closed(h) && Alike(g, h, shown) && v.At? && v.ref in shown && g[v.ref].Entries?
    requires depth <= MAX_DEPTH && v.ref !in path && b.nodes < MAX_NODES
    ensures Walk(g, textLeaves, v, depth, path, b) == Walk(h, textLeaves, v, depth, path, b)
    decreases Levels(depth), 0, 0
  {
    assert NodeKnown(g, g[v.ref]) && NodeKnown(h, h[v.ref]) && NodesAlike(g[v.ref], h[v.ref], shown);
    var counted := b.(nodes := b.nodes + 1);
    EntriesDoNotShow(g, h, shown, textLeaves, g[v.ref].entries, h[v.ref].entries, depth + 1, path + {v.ref}, counted);
  }

  lemma {:induction false} ItemsDoNotShow(
      g: Graph, h: Graph, shown: set<Ref>, textLeaves: bool, items: seq<Value>, depth: nat, path: set<Ref>, b: Budget)
    requires Closed(g) && Closed(h) && Alike(g, h, shown)
    requires forall k :: 0 <= k < |items| ==> Known(g, items[k]) && Known(h, items[k]) && Shown(items[k], shown)
    ensures WalkItems(g, textLeaves, items, depth, path, b) == WalkItems(h, textLeaves, items, depth, path, b)
    decreases Levels(depth), 1, |items|
  {
    if items != [] && b.nodes < MAX_NODES {
      SensitiveValuesDoNotShow(g, h, shown, textLeaves, items[0], depth, path, b);
      ItemsDoNotShow(g, h, shown, textLeaves, items[1..], depth, path,
                     Walk(g, textLeaves, items[0], depth, path, b).budget);
    }
  }

  lemma {:induction false} EntriesDoNotShow(
      g: Graph, h: Graph, shown: set<Ref>, textLeaves: bool, es: seq<Entry>, fs: seq<Entry>,
      depth: nat, path: set<Ref>, b: Budget)
    requires Closed(g) && Closed(h) && Alike(g, h, shown) && |es| == |fs|
    requires forall k :: 0 <= k < |es| ==> Known(g, es[k].value) && Known(h, fs[k].value)
    requires forall k :: 0 <= k < |es| ==> EntriesAlike(es[k], fs[k], shown)
    ensures WalkEntries(g, textLeaves, es, depth, path, b) == WalkEntries(h, textLeaves, fs, depth, path, b)
    decreases Levels(depth), 1, |es|
  {
    if es != [] {
      assert EntriesAlike(es[0], fs[0], shown);
      if b.nodes < MAX_NODES {
        if !IsLocationSensitiveKey(es[0].key) {
          SensitiveValuesDoNotShow(g, h, shown, textLeaves, es[0].value, depth, path, b);
        }
        EntriesDoNotShow(g, h, shown, textLeaves, es[1..], fs[1..], depth, path,
                         WalkEntry(g, textLeaves, es[0], depth, path, b).budget);
      }
    }
  }
}
