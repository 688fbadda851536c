/**
 * The budgeted walk over an arbitrary object graph
 * (packages/errors/src/scrub-location-pii.ts, lines 68-74 and 144-222): `scrubValue`,
 * `scrubLeafText` and `scrubArea`.
 */
module ScrubGraph {
  import opened ScrubText
  import opened ScrubMessage

  const MAX_DEPTH := 12
  const MAX_NODES := 20_000
  const MAX_AREA_TEXT := 256 * 1024
  const CIRCULAR := "[Circular]"

  type Ref = nat

  /** A string, an object, or any other value (`Plain`), which the walk hands back as it is. */
  datatype Value = Str(s: string) | At(ref: Ref) | Plain(id: nat)
  datatype Entry = Entry(key: string, value: Value)
  datatype Node = Moment | Items(items: seq<Value>) | Entries(entries: seq<Entry>)

  /** The heap: shared values and cycles are references met again. */
  type Graph = map<Ref, Node>

  datatype Out = Text(s: string) | Same(value: Value) | OutItems(items: seq<Out>) | OutEntries(entries: seq<OutEntry>)
  datatype OutEntry = OutEntry(key: string, value: Out)

  datatype Budget = Budget(nodes: nat, chars: nat)

  predicate Known(g: Graph, v: Value) { v.At? ==> v.ref in g }

  ghost predicate NodeKnown(g: Graph, n: Node) {
    match n
    case Moment => true
    case Items(items) => forall k :: 0 <= k < |items| ==> Known(g, items[k])
    case Entries(entries) => forall k :: 0 <= k < |entries| ==> Known(g, entries[k].value)
  }

  ghost predicate Closed(g: Graph) {
    forall r :: r in g ==> NodeKnown(g, g[r])
  }

  predicate MayHoldText(s: string) { ':' in s || '[' in s }

  // ----- What the walk computes -----

  datatype Walked = Walked(out: Out, budget: Budget)
  datatype WalkedItems = WalkedItems(outs: seq<Out>, budget: Budget)
  datatype WalkedEntries = WalkedEntries(outs: seq<OutEntry>, budget: Budget)

  function WalkText(s: string, b: Budget): Walked {
    if !MayHoldText(s) then Walked(Text(s), b)
    else if b.chars + |s| > MAX_AREA_TEXT then Walked(Text(SCRUBBED_TRUNCATED), b.(chars := MAX_AREA_TEXT))
    else Walked(Text(Scrubbed(s)), b.(chars := b.chars + |s|))
  }

  function Levels(depth: nat): nat { if depth <= MAX_DEPTH then MAX_DEPTH + 1 - depth else 0 }

  function Walk(g: Graph, textLeaves: bool, v: Value, depth: nat, path: set<Ref>, b: Budget): Walked
    requires Closed(g) && Known(g, v)
    decreases Levels(depth), 0, 1
  {
    var counted := b.(nodes := b.nodes + 1);
    if counted.nodes > MAX_NODES then Walked(Text(SCRUBBED_TRUNCATED), counted)
    else
      match v
      case Str(s) => if textLeaves then WalkText(s, counted) else Walked(Text(s), counted)
      case Plain(_) => Walked(Same(v), counted)
      case At(ref) =>
        if depth > MAX_DEPTH then Walked(Text(SCRUBBED_TRUNCATED), counted)
        else if ref in path then Walked(Text(CIRCULAR), counted)
        else WalkNode(g, textLeaves, ref, depth, path, counted)
  }

  /** An object that is not on the path, already counted. */
  function WalkNode(g: Graph, textLeaves: bool, ref: Ref, depth: nat, path: set<Ref>, b: Budget): Walked
    requires Closed(g) && ref in g && depth <= MAX_DEPTH
    decreases Levels(depth), 0, 0
  {
    assert NodeKnown(g, g[ref]);
    match g[ref]
    case Moment => Walked(Same(At(ref)), b)
    case Items(items) =>
      var w := WalkItems(g, textLeaves, items, depth + 1, path + {ref}, b);
      Walked(OutItems(w.outs), w.budget)
    case Entries(entries) =>
      var w := WalkEntries(g, textLeaves, entries, depth + 1, path + {ref}, b);
      Walked(OutEntries(w.outs), w.budget)
  }

  function WalkItems(g: Graph, textLeaves: bool, items: seq<Value>, depth: nat, path: set<Ref>, b: Budget): WalkedItems
    requires Closed(g) && forall k :: 0 <= k < |items| ==> Known(g, items[k])
    decreases Levels(depth), 1, |items|
  {
    if items == [] then WalkedItems([], b)
    else if b.nodes >= MAX_NODES then WalkedItems([Text(SCRUBBED_TRUNCATED)], b)
    else
      var first := Walk(g, textLeaves, items[0], depth, path, b);
      var rest := WalkItems(g, textLeaves, items[1..], depth, path, first.budget);
      WalkedItems([first.out] + rest.outs, rest.budget)
  }

  function WalkEntries(g: Graph, textLeaves: bool, entries: seq<Entry>, depth: nat, path: set<Ref>, b: Budget)
    : WalkedEntries
    requires Closed(g) && forall k :: 0 <= k < |entries| ==> Known(g, entries[k].value)
    decreases Levels(depth), 1, |entries|
  {
    if entries == [] then WalkedEntries([], b)
    else if b.nodes >= MAX_NODES then WalkedEntries([OutEntry(entries[0].key, Text(SCRUBBED_TRUNCATED))], b)
    else
      var first := WalkEntry(g, textLeaves, entries[0], depth, path, b);
      var rest := WalkEntries(g, textLeaves, entries[1..], depth, path, first.budget);
      WalkedEntries([OutEntry(entries[0].key, first.out)] + rest.outs, rest.budget)
  }

  function WalkEntry(g: Graph, textLeaves: bool, e: Entry, depth: nat, path: set<Ref>, b: Budget): Walked
    requires Closed(g) && Known(g, e.value)
    decreases Levels(depth), 0, 2
  {
    if IsLocationSensitiveKey(e.key) then Walked(Text(SCRUBBED), b)
    else Walk(g, textLeaves, e.value, depth, path, b)
  }

  // ----- The walk as the source runs it -----

  class AreaScrubber {
    const g: Graph
    const textLeaves: bool
    var nodes: nat
    var chars: nat
    var path: set<Ref>

    constructor (g: Graph, textLeaves: bool)
      ensures this.g == g && this.textLeaves == textLeaves && nodes == 0 && chars == 0 && path == {}
    {
      this.g, this.textLeaves, nodes, chars, path := g, textLeaves, 0, 0, {};
    }

    function Spent(): Budget
      reads this
    {
      Budget(nodes, chars)
    }

    method ScrubLeafText(value: string) returns (out: string)
      modifies this`chars
      ensures Walked(Text(out), Spent()) == WalkText(value, old(Spent()))
    {
      if !(':' in value) && !('[' in value) { return value; }
      if chars + |value| > MAX_AREA_TEXT {
        chars := MAX_AREA_TEXT;
        return SCRUBBED_TRUNCATED;
      }
      chars := chars + |value|;
      out := ScrubMessageText(value);
    }

    method ScrubValue(value: Value, depth: nat) returns (out: Out)
      requires Closed(g) && Known(g, value)
      modifies this
      ensures path == old(path)
      ensures Walked(out, Spent()) == Walk(g, textLeaves, value, depth, path, old(Spent()))
      decreases Levels(depth), 1
    {
      nodes := nodes + 1;
      if nodes > MAX_NODES { return Text(SCRUBBED_TRUNCATED); }
      match value
      case Str(s) =>
        if !textLeaves { return Text(s); }
        var scrubbed := ScrubLeafText(s);
        out := Text(scrubbed);
      case Plain(_) =>
        out := Same(value);
      case At(ref) =>
        if depth > MAX_DEPTH { return Text(SCRUBBED_TRUNCATED); }
        if ref in path { return Text(CIRCULAR); }
        out := ScrubNode(ref, depth);
    }

    /** An object that is not on the path: it is put there for as long as its parts are walked. */
    method ScrubNode(ref: Ref, depth: nat) returns (out: Out)
      requires Closed(g) && ref in g && ref !in path && depth <= MAX_DEPTH
      modifies this
      ensures path == old(path)
      ensures Walked(out, Spent()) == WalkNode(g, textLeaves, ref, depth, path, old(Spent()))
      decreases Levels(depth), 0
    {
      assert NodeKnown(g, g[ref]);
      if g[ref].Moment? { return Same(At(ref)); }
      ghost var before := path;
      path := path + {ref};
      match g[ref] {
        case Moment =>
        case Items(items) =>
          var outs := ScrubItems(items, depth + 1);
          out := OutItems(outs);
        case Entries(entries) =>
          var outs := ScrubEntries(entries, depth + 1);
          out := OutEntries(outs);
      }
      path := path - {ref};
      assert path == before;
    }

    method ScrubItems(items: seq<Value>, depth: nat) returns (out: seq<Out>)
      requires Closed(g) && forall k :: 0 <= k < |items| ==> Known(g, items[k])
      modifies this
      ensures path == old(path)
      ensures WalkedItems(out, Spent()) == WalkItems(g, textLeaves, items, depth, path, old(Spent()))
      decreases Levels(depth), 3
    {
      out := [];
      var i := 0;
      ghost var all := WalkItems(g, textLeaves, items, depth, path, Spent());
      while i < |items|
        invariant 0 <= i <= |items| && path == old(path)
        invariant all == ItemsAppended(out, WalkItems(g, textLeaves, items[i..], depth, path, Spent()))
      {
        assert items[i..][1..] == items[i + 1..];
        if nodes >= MAX_NODES {
          out := out + [Text(SCRUBBED_TRUNCATED)];
          return;
        }
        ghost var before, done := Spent(), out;
        ghost var first := Walk(g, textLeaves, items[i], depth, path, before);
        ghost var rest := WalkItems(g, textLeaves, items[i + 1..], depth, path, first.budget);
        ItemsStep(g, textLeaves, items[i..], depth, path, before, rest);
        var scrubbed := ScrubValue(items[i], depth);
        out := out + [scrubbed];
        i := i + 1;
        ItemsAppendedTwice(done, scrubbed, rest);
      }
      assert out + [] == out;
    }

    /** One property: a sensitive key's value is not looked at. */
    method ScrubEntry(e: Entry, depth: nat) returns (out: OutEntry)
      requires Closed(g) && Known(g, e.value)
      modifies this
      ensures path == old(path) && out.key == e.key
      ensures Walked(out.value, Spent()) == WalkEntry(g, textLeaves, e, depth, path, old(Spent()))
      decreases Levels(depth), 2
    {
      var scrubbed := Text(SCRUBBED);
      if !IsLocationSensitiveKey(e.key) { scrubbed := ScrubValue(e.value, depth); }
      out := OutEntry(e.key, scrubbed);
    }

    method ScrubEntries(entries: seq<Entry>, depth: nat) returns (out: seq<OutEntry>)
      requires Closed(g) && forall k :: 0 <= k < |entries| ==> Known(g, entries[k].value)
      modifies this
      ensures path == old(path)
      ensures WalkedEntries(out, Spent()) == WalkEntries(g, textLeaves, entries, depth, path, old(Spent()))
      decreases Levels(depth), 3
    {
      out := [];
      var i := 0;
      ghost var all := WalkEntries(g, textLeaves, entries, depth, path, Spent());
      while i < |entries|
        invariant 0 <= i <= |entries| && path == old(path)
        invariant all == EntriesAppended(out, WalkEntries(g, textLeaves, entries[i..], depth, path, Spent()))
      {
        assert entries[i..][1..] == entries[i + 1..];
        if nodes >= MAX_NODES {
          out := out + [OutEntry(entries[i].key, Text(SCRUBBED_TRUNCATED))];
          return;
        }
        ghost var before, done := Spent(), out;
        ghost var first := WalkEntry(g, textLeaves, entries[i], depth, path, before);
        ghost var rest := WalkEntries(g, textLeaves, entries[i + 1..], depth, path, first.budget);
        EntriesStep(g, textLeaves, entries[i..], depth, path, before, rest);
        var scrubbed := ScrubEntry(entries[i], depth);
        out := out + [scrubbed];
        i := i + 1;
        EntriesAppendedTwice(done, scrubbed, rest);
      }
      assert out + [] == out;
    }
  }

  ghost function ItemsAppended(done: seq<Out>, rest: WalkedItems): WalkedItems {
    WalkedItems(done + rest.outs, rest.budget)
  }

  lemma ItemsAppendedTwice(done: seq<Out>, o: Out, rest: WalkedItems)
    ensures ItemsAppended(done, ItemsAppended([o], rest)) == ItemsAppended(done + [o], rest)
  {
    assert done + ([o] + rest.outs) == (done + [o]) + rest.outs;
  }

  lemma ItemsStep(
      g: Graph, textLeaves: bool, items: seq<Value>, depth: nat, path: set<Ref>, b: Budget, rest: WalkedItems)
    requires Closed(g) && (forall k :: 0 <= k < |items| ==> Known(g, items[k]))
    requires items != [] && b.nodes < MAX_NODES
    requires rest == WalkItems(g, textLeaves, items[1..], depth, path,
                               Walk(g, textLeaves, items[0], depth, path, b).budget)
    ensures WalkItems(g, textLeaves, items, depth, path, b) ==
            ItemsAppended([Walk(g, textLeaves, items[0], depth, path, b).out], rest)
  {
  }

  ghost function EntriesAppended(done: seq<OutEntry>, rest: WalkedEntries): WalkedEntries {
    WalkedEntries(done + rest.outs, rest.budget)
  }

  lemma EntriesAppendedTwice(done: seq<OutEntry>, o: OutEntry, rest: WalkedEntries)
    ensures EntriesAppended(done, EntriesAppended([o], rest)) == EntriesAppended(done + [o], rest)
  {
    assert done + ([o] + rest.outs) == (done + [o]) + rest.outs;
  }

  lemma EntriesStep(
      g: Graph, textLeaves: bool, entries: seq<Entry>, depth: nat, path: set<Ref>, b: Budget, rest: WalkedEntries)
    requires Closed(g) && (forall k :: 0 <= k < |entries| ==> Known(g, entries[k].value))
    requires entries != [] && b.nodes < MAX_NODES
    requires rest == WalkEntries(g, textLeaves, entries[1..], depth, path,
                                 WalkEntry(g, textLeaves, entries[0], depth, path, b).budget)
    ensures WalkEntries(g, textLeaves, entries, depth, path, b) ==
            EntriesAppended([OutEntry(entries[0].key, WalkEntry(g, textLeaves, entries[0], depth, path, b).out)], rest)
  {
  }

  /** `scrubArea`: a fresh path and a fresh budget. */
  method ScrubArea(g: Graph, value: Value, textLeaves: bool) returns (out: Out)
    requires Closed(g) && Known(g, value)
    ensures out == Walk(g, textLeaves, value, 0, {}, Budget(0, 0)).out
  {
    var scrubber := new AreaScrubber(g, textLeaves);
    out := scrubber.ScrubValue(value, 0);
  }

  // ----- The budgets hold -----

  lemma {:induction false} WalkKeepsBudget(g: Graph, textLeaves: bool, v: Value, depth: nat, path: set<Ref>, b: Budget)
    requires Closed(g) && Known(g, v) && b.nodes < MAX_NODES && b.chars <= MAX_AREA_TEXT
    ensures var w := Walk(g, textLeaves, v, depth, path, b).budget;
            b.nodes < w.nodes <= MAX_NODES && b.chars <= w.chars <= MAX_AREA_TEXT
    decreases Levels(depth), 0
  {
    if v.At? && depth <= MAX_DEPTH && v.ref !in path {
      assert NodeKnown(g, g[v.ref]);
      var counted := b.(nodes := b.nodes + 1);
      match g[v.ref]
      case Moment =>
      case Items(items) => WalkItemsKeepsBudget(g, textLeaves, items, depth + 1, path + {v.ref}, counted);
      case Entries(entries) => WalkEntriesKeepsBudget(g, textLeaves, entries, depth + 1, path + {v.ref}, counted);
    }
  }

  lemma {:induction false} WalkItemsKeepsBudget(
      g: Graph, textLeaves: bool, items: seq<Value>, depth: nat, path: set<Ref>, b: Budget)
    requires Closed(g) && (forall k :: 0 <= k < |items| ==> Known(g, items[k]))
    requires b.nodes <= MAX_NODES && b.chars <= MAX_AREA_TEXT
    ensures var w := WalkItems(g, textLeaves, items, depth, path, b).budget;
            b.nodes <= w.nodes <= MAX_NODES && b.chars <= w.chars <= MAX_AREA_TEXT
    decreases Levels(depth), 1, |items|
  {
    if items != [] && b.nodes < MAX_NODES {
      WalkKeepsBudget(g, textLeaves, items[0], depth, path, b);
      WalkItemsKeepsBudget(g, textLeaves, items[1..], depth, path,
                           Walk(g, textLeaves, items[0], depth, path, b).budget);
    }
  }

  lemma {:induction false} WalkEntriesKeepsBudget(
      g: Graph, textLeaves: bool, entries: seq<Entry>, depth: nat, path: set<Ref>, b: Budget)
    requires Closed(g) && (forall k :: 0 <= k < |entries| ==> Known(g, entries[k].value))
    requires b.nodes <= MAX_NODES && b.chars <= MAX_AREA_TEXT
    ensures var w := WalkEntries(g, textLeaves, entries, depth, path, b).budget;
            b.nodes <= w.nodes <= MAX_NODES && b.chars <= w.chars <= MAX_AREA_TEXT
    decreases Levels(depth), 1, |entries|
  {
    if entries != [] && b.nodes < MAX_NODES {
      if !IsLocationSensitiveKey(entries[0].key) {
        WalkKeepsBudget(g, textLeaves, entries[0].value, depth, path, b);
      }
      WalkEntriesKeepsBudget(g, textLeaves, entries[1..], depth, path,
                             WalkEntry(g, textLeaves, entries[0], depth, path, b).budget);
    }
  }

  // ----- What may stand in the output, and where -----

  /**
   * `o` renders `v`, met at `depth` below the values of `path`: text that could
   * hold a position or a key stands scrubbed, or not at all.
   */
  ghost predicate Renders(g: Graph, textLeaves: bool, v: Value, depth: nat, path: set<Ref>, o: Out)
    requires Closed(g) && Known(g, v)
    decreases o, 0
  {
    match v
    case Str(s) =>
      o.Text? && if textLeaves && MayHoldText(s) then o.s in {Scrubbed(s), SCRUBBED_TRUNCATED} else o.s == s
    case Plain(_) => o == Same(v)
    case At(ref) =>
      if depth > MAX_DEPTH then o == Text(SCRUBBED_TRUNCATED)
      else if ref in path then o == Text(CIRCULAR)
      else
        && NodeKnown(g, g[ref])
        && match g[ref]
           case Moment => o == Same(v)
           case Items(items) => o.OutItems? && RendersItems(g, textLeaves, items, depth + 1, path + {ref}, o.items)
           case Entries(entries) =>
             o.OutEntries? && RendersEntries(g, textLeaves, entries, depth + 1, path + {ref}, o.entries)
  }

  /** Item by item, unless the budget ran out: then one marker stands for the items left. */
  ghost predicate RendersItems(
      g: Graph, textLeaves: bool, items: seq<Value>, depth: nat, path: set<Ref>, outs: seq<Out>)
    requires Closed(g) && forall k :: 0 <= k < |items| ==> Known(g, items[k])
    decreases outs, 0
  {
    if items == [] then outs == []
    else
      || outs == [Text(SCRUBBED_TRUNCATED)]
      || (outs != [] && Renders(g, textLeaves, items[0], depth, path, outs[0])
          && RendersItems(g, textLeaves, items[1..], depth, path, outs[1..]))
  }

  ghost predicate RendersEntries(
      g: Graph, textLeaves: bool, entries: seq<Entry>, depth: nat, path: set<Ref>, outs: seq<OutEntry>)
    requires Closed(g) && forall k :: 0 <= k < |entries| ==> Known(g, entries[k].value)
    decreases outs, 0
  {
    if entries == [] then outs == []
    else
      || outs == [OutEntry(entries[0].key, Text(SCRUBBED_TRUNCATED))]
      || (outs != [] && RendersEntry(g, textLeaves, entries[0], depth, path, outs[0])
          && RendersEntries(g, textLeaves, entries[1..], depth, path, outs[1..]))
  }

  ghost predicate RendersEntry(g: Graph, textLeaves: bool, e: Entry, depth: nat, path: set<Ref>, o: OutEntry)
    requires Closed(g) && Known(g, e.value)
    decreases o, 1
  {
    && o.key == e.key
    && if IsLocationSensitiveKey(e.key) then o.value == Text(SCRUBBED)
       else Renders(g, textLeaves, e.value, depth, path, o.value)
  }

  lemma {:induction false} WalkRenders(g: Graph, textLeaves: bool, v: Value, depth: nat, path: set<Ref>, b: Budget)
    requires Closed(g) && Known(g, v) && b.nodes < MAX_NODES && b.chars <= MAX_AREA_TEXT
    ensures Renders(g, textLeaves, v, depth, path, Walk(g, textLeaves, v, depth, path, b).out)
    decreases Levels(depth), 0
  {
    if v.At? && depth <= MAX_DEPTH && v.ref !in path {
      assert NodeKnown(g, g[v.ref]);
      var counted := b.(nodes := b.nodes + 1);
      match g[v.ref]
      case Moment =>
      case Items(items) => WalkRendersItems(g, textLeaves, items, depth + 1, path + {v.ref}, counted);
      case Entries(entries) => WalkRendersEntries(g, textLeaves, entries, depth + 1, path + {v.ref}, counted);
    }
  }

  lemma {:induction false} WalkRendersItems(
      g: Graph, textLeaves: bool, items: seq<Value>, depth: nat, path: set<Ref>, b: Budget)
    requires Closed(g) && (forall k :: 0 <= k < |items| ==> Known(g, items[k]))
    requires b.nodes <= MAX_NODES && b.chars <= MAX_AREA_TEXT
    ensures RendersItems(g, textLeaves, items, depth, path, WalkItems(g, textLeaves, items, depth, path, b).outs)
    decreases Levels(depth), 1, |items|
  {
    if items != [] && b.nodes < MAX_NODES {
      var first := Walk(g, textLeaves, items[0], depth, path, b);
      WalkRenders(g, textLeaves, items[0], depth, path, b);
      WalkKeepsBudget(g, textLeaves, items[0], depth, path, b);
      WalkRendersItems(g, textLeaves, items[1..], depth, path, first.budget);
      var rest := WalkItems(g, textLeaves, items[1..], depth, path, first.budget);
      assert ([first.out] + rest.outs)[1..] == rest.outs;
    }
  }

  lemma {:induction false} WalkRendersEntries(
      g: Graph, textLeaves: bool, entries: seq<Entry>, depth: nat, path: set<Ref>, b: Budget)
    requires Closed(g) && (forall k :: 0 <= k < |entries| ==> Known(g, entries[k].value))
    requires b.nodes <= MAX_NODES && b.chars <= MAX_AREA_TEXT
    ensures RendersEntries(
              g, textLeaves, entries, depth, path, WalkEntries(g, textLeaves, entries, depth, path, b).outs)
    decreases Levels(depth), 1, |entries|
  {
    if entries != [] && b.nodes < MAX_NODES {
      var first := WalkEntry(g, textLeaves, entries[0], depth, path, b);
      if !IsLocationSensitiveKey(entries[0].key) {
        WalkRenders(g, textLeaves, entries[0].value, depth, path, b);
        WalkKeepsBudget(g, textLeaves, entries[0].value, depth, path, b);
      }
      WalkRendersEntries(g, textLeaves, entries[1..], depth, path, first.budget);
      var rest := WalkEntries(g, textLeaves, entries[1..], depth, path, first.budget);
      assert ([OutEntry(entries[0].key, first.out)] + rest.outs)[1..] == rest.outs;
    }
  }

  /** Under every sensitive key, at any depth, stands one of the two replacement strings. */
  ghost predicate SensitiveKeysReplaced(o: Out)
    decreases o, 0
  {
    match o
    case OutItems(items) => forall k :: 0 <= k < |items| ==> SensitiveKeysReplaced(items[k])
    case OutEntries(entries) => forall k :: 0 <= k < |entries| ==> EntryReplaced(entries[k])
    case _ => true
  }

  ghost predicate EntryReplaced(e: OutEntry)
    decreases e, 1
  {
    && (IsLocationSensitiveKey(e.key) ==> e.value in {Text(SCRUBBED), Text(SCRUBBED_TRUNCATED)})
    && SensitiveKeysReplaced(e.value)
  }

  lemma {:induction false} RendersReplaces(g: Graph, textLeaves: bool, v: Value, depth: nat, path: set<Ref>, o: Out)
    requires Closed(g) && Known(g, v) && Renders(g, textLeaves, v, depth, path, o)
    ensures SensitiveKeysReplaced(o)
    decreases o, 0
  {
    match o
    case OutItems(outs) => RendersItemsReplaces(g, textLeaves, g[v.ref].items, depth + 1, path + {v.ref}, outs);
    case OutEntries(outs) => RendersEntriesReplaces(g, textLeaves, g[v.ref].entries, depth + 1, path + {v.ref}, outs);
    case _ =>
  }

  lemma {:induction false} RendersItemsReplaces(
      g: Graph, textLeaves: bool, items: seq<Value>, depth: nat, path: set<Ref>, outs: seq<Out>)
    requires Closed(g) && (forall k :: 0 <= k < |items| ==> Known(g, items[k]))
    requires RendersItems(g, textLeaves, items, depth, path, outs)
    ensures forall k :: 0 <= k < |outs| ==> SensitiveKeysReplaced(outs[k])
    decreases outs, 0
  {
    if items != [] && outs != [Text(SCRUBBED_TRUNCATED)] {
      RendersReplaces(g, textLeaves, items[0], depth, path, outs[0]);
      RendersItemsReplaces(g, textLeaves, items[1..], depth, path, outs[1..]);
      assert forall k :: 0 < k < |outs| ==> outs[k] == outs[1..][k - 1];
    }
  }

  lemma {:induction false} RendersEntriesReplaces(
      g: Graph, textLeaves: bool, entries: seq<Entry>, depth: nat, path: set<Ref>, outs: seq<OutEntry>)
    requires Closed(g) && (forall k :: 0 <= k < |entries| ==> Known(g, entries[k].value))
    requires RendersEntries(g, textLeaves, entries, depth, path, outs)
    ensures forall k :: 0 <= k < |outs| ==> EntryReplaced(outs[k])
    decreases outs, 0
  {
    if entries != [] && outs != [OutEntry(entries[0].key, Text(SCRUBBED_TRUNCATED))] {
      if !IsLocationSensitiveKey(entries[0].key) {
        RendersReplaces(g, textLeaves, entries[0].value, depth, path, outs[0].value);
      }
      RendersEntriesReplaces(g, textLeaves, entries[1..], depth, path, outs[1..]);
      assert forall k :: 0 < k < |outs| ==> outs[k] == outs[1..][k - 1];
    }
  }

  /**
   * One area, on any graph, cyclic or not: the budgets hold, so the first guard
   * of `scrubValue` never fires; `[Circular]` stands exactly for a value met
   * below itself; where text leaves are scrubbed, each that could hold a position
   * or a key stands scrubbed or cut; and no sensitive key keeps its value.
   */
  lemma AreaIsScrubbed(g: Graph, value: Value, textLeaves: bool)
    requires Closed(g) && Known(g, value)
    ensures var w := Walk(g, textLeaves, value, 0, {}, Budget(0, 0));
            && w.budget.nodes <= MAX_NODES && w.budget.chars <= MAX_AREA_TEXT
            && Renders(g, textLeaves, value, 0, {}, w.out) && SensitiveKeysReplaced(w.out)
  {
    WalkKeepsBudget(g, textLeaves, value, 0, {}, Budget(0, 0));
    WalkRenders(g, textLeaves, value, 0, {}, Budget(0, 0));
    RendersReplaces(g, textLeaves, value, 0, {}, Walk(g, textLeaves, value, 0, {}, Budget(0, 0)).out);
  }
}
