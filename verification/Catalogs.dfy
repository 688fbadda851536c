/**
 * Message catalogs (packages/locale/src/message-resolver.ts): a dotted key
 * looked up segment by segment, and the flat index of all keys.
 */
module Catalogs {
  import opened Options

  datatype Node = Text(s: string) | Tree(entries: seq<Entry>)
  datatype Entry = Entry(segment: string, node: Node)

  /** The entries of one object, in the order `Object.entries` gives them. */
  type Catalog = seq<Entry>

  const PROTO := "__proto__"

  // ----- Keys -----

  function FirstDot(k: string): (i: nat)
    ensures i <= |k| && (i < |k| ==> k[i] == '.') && forall x :: 0 <= x < i ==> k[x] != '.'
  {
    if k == "" || k[0] == '.' then 0 else 1 + FirstDot(k[1..])
  }

  /** `key.split(".")` */
  function Split(k: string): (segments: seq<string>)
    ensures segments != []
    decreases |k|
  {
    var i := FirstDot(k);
    [k[..i]] + if i < |k| then Split(k[i + 1..]) else []
  }

  function Full(prefix: string, k: string): string { if prefix == "" then k else prefix + ("." + k) }

  // ----- The flat index -----

  /** `acc[key] = value`: `__proto__` is a setter, and ignores a string. */
  function Put(acc: map<string, string>, key: string, value: string): map<string, string> {
    if key == PROTO then acc else acc[key := value]
  }

  function Flat(c: Catalog, prefix: string): map<string, string>
    decreases c, 0
  {
    if c == [] then map[] else Merged(Flat(c[..|c| - 1], prefix), c[|c| - 1], prefix)
  }

  function Merged(acc: map<string, string>, e: Entry, prefix: string): map<string, string>
    decreases e, 1
  {
    match e.node
    case Text(s) => Put(acc, Full(prefix, e.segment), s)
    case Tree(entries) => acc + Flat(entries, Full(prefix, e.segment))
  }

  method FlattenCatalog(c: Catalog, prefix: string) returns (acc: map<string, string>)
    ensures acc == Flat(c, prefix)
    decreases c
  {
    acc := map[];
    for k := 0 to |c|
      invariant acc == Flat(c[..k], prefix)
    {
      assert c[..k + 1][..k] == c[..k];
      var nextKey := Full(prefix, c[k].segment);
      match c[k].node
      case Text(s) => acc := Put(acc, nextKey, s);
      case Tree(entries) =>
        var sub := FlattenCatalog(entries, nextKey);
        acc := acc + sub;
    }
    assert c[..|c|] == c;
  }

  // ----- The lookup -----

  /**
   * What a property read can give. `Native` is any other value of the language
   * (a function, a number, a prototype object); reading a property of null
   * throws.
   */
  datatype Value = Absent | Null | Thrown | Message(node: Node) | Native(id: nat)

  /** What objects inherit, and the properties of native values. */
  datatype Runtime = Runtime(inherited: string -> Value, member: (nat, string) -> Value)

  function Find(c: Catalog, segment: string): Option<Node>
    decreases |c|
  {
    if c == [] then None
    else if c[|c| - 1].segment == segment then Some(c[|c| - 1].node)
    else Find(c[..|c| - 1], segment)
  }

  function Read(rt: Runtime, v: Value, segment: string): Value {
    match v
    case Absent => Absent
    case Message(Text(_)) => Absent
    case Message(Tree(entries)) =>
      (match Find(entries, segment) case Some(node) => Message(node) case None => rt.inherited(segment))
    case Native(id) => rt.member(id, segment)
    case Null => Thrown
    case Thrown => Thrown
  }

  /** The fold over the segments. */
  function ReadAll(rt: Runtime, v: Value, segments: seq<string>): Value
    decreases |segments|
  {
    if segments == [] then v else ReadAll(rt, Read(rt, v, segments[0]), segments[1..])
  }

  function ResolveMessage(rt: Runtime, c: Catalog, key: string): Value {
    if key == "" then Absent else ReadAll(rt, Message(Tree(c)), Split(key))
  }

  /** `resolveMessageAsString`: the message, nothing, or a throw. */
  datatype Answer = Answer(text: string) | Nothing | Throws

  function AsString(v: Value): Answer {
    match v
    case Message(Text(s)) => Answer(s)
    case Thrown => Throws
    case _ => Nothing
  }

  // ----- Both mean the same -----

  /** Segments are non-empty, dot-free and distinct within one object. */
  predicate Formed(c: Catalog)
    decreases c
  {
    c == [] ||
    var init, e := c[..|c| - 1], c[|c| - 1];
    && Formed(init) && Find(init, e.segment).None?
    && e.segment != "" && '.' !in e.segment
    && (e.node.Tree? ==> Formed(e.node.entries))
  }

  /** The text at a key, along the catalog's own entries only. */
  function OwnText(c: Catalog, k: string): Option<string>
    decreases |k|
  {
    var i := FirstDot(k);
    match Find(c, k[..i])
    case Some(Text(s)) => if i == |k| then Some(s) else None
    case Some(Tree(entries)) => if i < |k| then OwnText(entries, k[i + 1..]) else None
    case None => None
  }

  function Get(m: map<string, string>, k: string): Option<string> { if k in m then Some(m[k]) else None }

  /** The key goes through the object at `segment`. */
  predicate GoesThrough(k: string, segment: string) {
    |segment| < |k| && k[..|segment|] == segment && k[|segment|] == '.'
  }

  lemma {:induction false} FlatKeysGoThrough(c: Catalog, prefix: string, x: string)
    requires prefix != "" && x in Flat(c, prefix)
    ensures GoesThrough(x, prefix)
    decreases c
  {
    var init, e := c[..|c| - 1], c[|c| - 1];
    if x in Flat(init, prefix) {
      FlatKeysGoThrough(init, prefix, x);
    } else {
      var key := Full(prefix, e.segment);
      assert key[|prefix|] == '.' && key[..|prefix|] == prefix;
      if e.node.Tree? {
        FlatKeysGoThrough(e.node.entries, key, x);
        assert x[..|prefix|] == x[..|key|][..|prefix|] && x[|prefix|] == x[..|key|][|prefix|];
      }
    }
  }

  lemma FullIsInjective(prefix: string, a: string, b: string)
    ensures Full(prefix, a) == Full(prefix, b) <==> a == b
  {
    if prefix != "" {
      assert Full(prefix, a)[|prefix| + 1..] == a && Full(prefix, b)[|prefix| + 1..] == b;
    }
  }

  lemma FirstDotIs(k: string, i: nat)
    requires i <= |k| && (i < |k| ==> k[i] == '.') && forall x :: 0 <= x < i ==> k[x] != '.'
    ensures FirstDot(k) == i
  {
  }

  lemma FirstDotOf(segment: string, rest: string)
    requires '.' !in segment
    ensures FirstDot(segment) == |segment| && FirstDot(segment + ("." + rest)) == |segment|
  {
    var k := segment + ("." + rest);
    assert forall x :: 0 <= x < |segment| ==> segment[x] in segment && k[x] == segment[x];
    FirstDotIs(segment, |segment|);
    FirstDotIs(k, |segment|);
  }

  lemma GoesThroughMeans(k: string, segment: string)
    requires '.' !in segment
    ensures GoesThrough(k, segment) <==> FirstDot(k) == |segment| < |k| && k[..|segment|] == segment
  {
    if GoesThrough(k, segment) {
      assert forall x :: 0 <= x < |segment| ==> k[x] == k[..|segment|][x] && segment[x] in segment;
      FirstDotIs(k, |segment|);
    }
  }

  lemma SubtreeKeysGoThrough(prefix: string, segment: string, sub: Catalog, k: string)
    requires segment != "" && Full(prefix, k) in Flat(sub, Full(prefix, segment))
    ensures GoesThrough(k, segment)
  {
    FlatKeysGoThrough(sub, Full(prefix, segment), Full(prefix, k));
    if prefix != "" {
      var cut := |prefix| + 1;
      assert Full(prefix, k)[cut..] == k && Full(prefix, segment)[cut..] == segment;
      assert Full(prefix, k)[..|Full(prefix, segment)|][cut..] == k[..|segment|];
    }
  }

  lemma KeySplits(k: string, segment: string, rest: string)
    requires GoesThrough(k, segment) && rest == k[|segment| + 1..]
    ensures k == segment + ("." + rest)
  {
    assert k[|segment|..] == "." + rest;
    assert k == k[..|segment|] + k[|segment|..];
  }

  lemma Reassociate(a: string, b: string, c: string)
    ensures a + ("." + (b + ("." + c))) == (a + ("." + b)) + ("." + c)
  {
    assert "." + (b + ("." + c)) == ("." + b) + ("." + c);
  }

  lemma FullThrough(prefix: string, segment: string, k: string)
    requires segment != "" && GoesThrough(k, segment)
    ensures Full(prefix, k) == Full(Full(prefix, segment), k[|segment| + 1..])
  {
    var rest := k[|segment| + 1..];
    KeySplits(k, segment, rest);
    Reassociate(prefix, segment, rest);
  }

  lemma TextMerges(c: Catalog, prefix: string, k: string, init: Catalog, e: Entry)
    requires Formed(c) && c != [] && init == c[..|c| - 1] && e == c[|c| - 1] && e.node.Text?
    requires Full(prefix, k) != PROTO && Get(Flat(init, prefix), Full(prefix, k)) == OwnText(init, k)
    ensures Get(Flat(c, prefix), Full(prefix, k)) == OwnText(c, k)
  {
    FirstDotOf(e.segment, "");
    FullIsInjective(prefix, k, e.segment);
    assert FirstDot(k) == |k| ==> k[..FirstDot(k)] == k;
  }

  lemma TreeMerges(c: Catalog, prefix: string, k: string, init: Catalog, e: Entry)
    requires Formed(c) && c != [] && init == c[..|c| - 1] && e == c[|c| - 1] && e.node.Tree?
    requires Full(prefix, k) != PROTO && Get(Flat(init, prefix), Full(prefix, k)) == OwnText(init, k)
    requires GoesThrough(k, e.segment) ==>
               Get(Flat(e.node.entries, Full(prefix, e.segment)), Full(prefix, k)) ==
               OwnText(e.node.entries, k[|e.segment| + 1..])
    ensures Get(Flat(c, prefix), Full(prefix, k)) == OwnText(c, k)
  {
    GoesThroughMeans(k, e.segment);
    if !GoesThrough(k, e.segment) && Full(prefix, k) in Flat(e.node.entries, Full(prefix, e.segment)) {
      SubtreeKeysGoThrough(prefix, e.segment, e.node.entries, k);
    }
  }

  /** The index holds at each key exactly the text that stands there: no subtree overwrites another. */
  lemma {:induction false} FlatHoldsOwnText(c: Catalog, prefix: string, k: string)
    requires Formed(c) && Full(prefix, k) != PROTO
    ensures Get(Flat(c, prefix), Full(prefix, k)) == OwnText(c, k)
    decreases c
  {
    if c != [] {
      var init, e := c[..|c| - 1], c[|c| - 1];
      FlatHoldsOwnText(init, prefix, k);
      if e.node.Text? {
        TextMerges(c, prefix, k, init, e);
      } else {
        if GoesThrough(k, e.segment) { SubtreeHoldsOwnText(e, prefix, k); }
        TreeMerges(c, prefix, k, init, e);
      }
    }
  }

  lemma {:induction false} SubtreeHoldsOwnText(e: Entry, prefix: string, k: string)
    requires e.node.Tree? && Formed(e.node.entries) && e.segment != "" && GoesThrough(k, e.segment)
    requires Full(prefix, k) != PROTO
    ensures Get(Flat(e.node.entries, Full(prefix, e.segment)), Full(prefix, k)) ==
            OwnText(e.node.entries, k[|e.segment| + 1..])
    decreases e
  {
    FullThrough(prefix, e.segment, k);
    FlatHoldsOwnText(e.node.entries, Full(prefix, e.segment), k[|e.segment| + 1..]);
  }

  /** The segment at which a key leaves the catalog's own entries, and the segments after it. */
  datatype Exit = Exit(segment: string, rest: seq<string>)

  function Leaving(c: Catalog, k: string): Option<Exit>
    decreases |k|
  {
    var i := FirstDot(k);
    match Find(c, k[..i])
    case None => Some(Exit(k[..i], if i < |k| then Split(k[i + 1..]) else []))
    case Some(Tree(entries)) => if i < |k| then Leaving(entries, k[i + 1..]) else None
    case Some(Text(_)) => None
  }

  /** What the key inherits where it leaves, read to the end. */
  function StrayValue(rt: Runtime, exit: Option<Exit>): Value {
    match exit
    case None => Absent
    case Some(Exit(segment, rest)) => ReadAll(rt, rt.inherited(segment), rest)
  }

  lemma ReadAllSplits(rt: Runtime, v: Value, k: string) returns (i: nat, rest: seq<string>)
    ensures i == FirstDot(k) && rest == if i < |k| then Split(k[i + 1..]) else []
    ensures ReadAll(rt, v, Split(k)) == ReadAll(rt, Read(rt, v, k[..i]), rest)
  {
    i := FirstDot(k);
    rest := if i < |k| then Split(k[i + 1..]) else [];
    SplitsAt(k, i, rest);
    ReadAllCons(rt, v, k[..i], rest);
  }

  lemma SplitsAt(k: string, i: nat, rest: seq<string>)
    requires i == FirstDot(k) && rest == if i < |k| then Split(k[i + 1..]) else []
    ensures Split(k) == [k[..i]] + rest
  {
  }

  lemma ReadAllCons(rt: Runtime, v: Value, head: string, rest: seq<string>)
    ensures ReadAll(rt, v, [head] + rest) == ReadAll(rt, Read(rt, v, head), rest)
  {
    assert ([head] + rest)[1..] == rest;
  }

  /** The lookup gives the own text, or strays. */
  lemma {:induction false} LookupIsOwnOrStray(rt: Runtime, c: Catalog, k: string)
    ensures var v := ReadAll(rt, Message(Tree(c)), Split(k));
            match OwnText(c, k)
            case Some(s) => v == Message(Text(s)) && Leaving(c, k).None?
            case None => AsString(v) == AsString(StrayValue(rt, Leaving(c, k)))
    decreases |k|
  {
    var i, rest := ReadAllSplits(rt, Message(Tree(c)), k);
    match Find(c, k[..i])
    case None =>
    case Some(Text(s)) => if i < |k| { AbsentStaysAbsent(rt, rest[1..]); }
    case Some(Tree(entries)) => if i < |k| { LookupIsOwnOrStray(rt, entries, k[i + 1..]); }
  }

  lemma {:induction false} AbsentStaysAbsent(rt: Runtime, segments: seq<string>)
    ensures ReadAll(rt, Absent, segments) == Absent
  {
    if segments != [] { AbsentStaysAbsent(rt, segments[1..]); }
  }

  predicate AgreesAt(rt: Runtime, c: Catalog, k: string) {
    AsString(ResolveMessage(rt, c, k)) == match Get(Flat(c, ""), k) case Some(s) => Answer(s) case None => Nothing
  }

  // ----- Where they differ -----

  /** The values met from `v` on, one property read at a time. */
  ghost predicate IsPath(rt: Runtime, v: Value, segments: seq<string>, path: seq<Value>) {
    && |path| == |segments| + 1 && path[0] == v
    && forall n :: 0 <= n < |segments| ==> path[n + 1] == Read(rt, path[n], segments[n])
  }

  /** The path ends at a string, or a read on it throws: one of a property of null, or a throwing getter. */
  ghost predicate Speaks(path: seq<Value>) {
    path != []
    && ((path[|path| - 1].Message? && path[|path| - 1].node.Text?) || exists n :: 0 <= n < |path| && path[n].Thrown?)
  }

  ghost predicate Surfaces(rt: Runtime, v: Value, segments: seq<string>) {
    exists path: seq<Value> :: IsPath(rt, v, segments, path) && Speaks(path)
  }

  /** There is a path, and it ends at what the fold gives. */
  lemma {:induction false} PathEndsAtFold(rt: Runtime, v: Value, segments: seq<string>) returns (path: seq<Value>)
    ensures IsPath(rt, v, segments, path) && path[|segments|] == ReadAll(rt, v, segments)
    decreases |segments|
  {
    if segments == [] {
      path := [v];
    } else {
      var next := PathEndsAtFold(rt, Read(rt, v, segments[0]), segments[1..]);
      path := [v] + next;
      forall n | 0 <= n < |segments| ensures path[n + 1] == Read(rt, path[n], segments[n]) {
        if n > 0 { assert next[n] == Read(rt, next[n - 1], segments[1..][n - 1]); }
      }
    }
  }

  lemma {:induction false} PathsAreEqual(
      rt: Runtime, v: Value, segments: seq<string>, a: seq<Value>, b: seq<Value>, n: nat)
    requires IsPath(rt, v, segments, a) && IsPath(rt, v, segments, b) && n <= |segments|
    ensures a[n] == b[n]
  {
    if n > 0 { PathsAreEqual(rt, v, segments, a, b, n - 1); }
  }

  lemma {:induction false} ThrowLasts(rt: Runtime, v: Value, segments: seq<string>, path: seq<Value>, n: nat, m: nat)
    requires IsPath(rt, v, segments, path) && n <= m <= |segments| && path[n].Thrown?
    ensures path[m].Thrown?
    decreases m
  {
    if n < m {
      ThrowLasts(rt, v, segments, path, n, m - 1);
      assert path[m] == Read(rt, path[m - 1], segments[m - 1]);
    }
  }

  lemma SurfacesMeans(rt: Runtime, v: Value, segments: seq<string>)
    ensures Surfaces(rt, v, segments) <==> AsString(ReadAll(rt, v, segments)) != Nothing
  {
    var path := PathEndsAtFold(rt, v, segments);
    if path[|segments|].Thrown? { assert Speaks(path); }
    if other: seq<Value> :| IsPath(rt, v, segments, other) && Speaks(other) {
      PathsAreEqual(rt, v, segments, path, other, |segments|);
      if n :| 0 <= n < |other| && other[n].Thrown? { ThrowLasts(rt, v, segments, other, n, |segments|); }
    }
  }

  /**
   * The exact condition: index and lookup agree at a key that stays inside the
   * catalog unless it is `__proto__` with a text of its own, and at any other
   * key unless the inherited property at which it leaves leads, along the rest
   * of the key, to a string or to a throw.
   */
  lemma IndexAgreesWithLookupIff(rt: Runtime, c: Catalog, k: string)
    requires Formed(c)
    ensures AgreesAt(rt, c, k) <==>
            k == "" ||
            match Leaving(c, k)
            case None => k != PROTO || OwnText(c, k).None?
            case Some(exit) => !Surfaces(rt, rt.inherited(exit.segment), exit.rest)
  {
    LookupIsOwnOrStray(rt, c, k);
    IndexHoldsIff(c, k);
    match Leaving(c, k)
    case None =>
    case Some(exit) => SurfacesMeans(rt, rt.inherited(exit.segment), exit.rest);
  }

  lemma {:induction false} LeavesAtASegment(c: Catalog, k: string)
    ensures Leaving(c, k).Some? ==> Leaving(c, k).value.segment in Split(k)
    decreases |k|
  {
    var i := FirstDot(k);
    if i < |k| {
      match Find(c, k[..i])
      case Some(Tree(entries)) => LeavesAtASegment(entries, k[i + 1..]);
      case _ =>
    }
  }

  /** A key that leaves at a segment which is no inherited property name means the same to both. */
  lemma UninheritedExitAgrees(rt: Runtime, c: Catalog, k: string)
    requires Formed(c) && k != PROTO
    requires Leaving(c, k).Some? ==> rt.inherited(Leaving(c, k).value.segment).Absent?
    ensures AgreesAt(rt, c, k)
  {
    IndexAgreesWithLookupIff(rt, c, k);
    match Leaving(c, k)
    case None =>
    case Some(exit) =>
      AbsentStaysAbsent(rt, exit.rest);
      SurfacesMeans(rt, Absent, exit.rest);
  }

  /** So does one none of whose segments is such a name. */
  lemma UninheritedKeysAgree(rt: Runtime, c: Catalog, k: string)
    requires Formed(c) && k != PROTO && forall segment :: segment in Split(k) ==> rt.inherited(segment).Absent?
    ensures AgreesAt(rt, c, k)
  {
    LeavesAtASegment(c, k);
    UninheritedExitAgrees(rt, c, k);
  }

  /** The index at any key, `__proto__` included. */
  lemma IndexHoldsIff(c: Catalog, k: string)
    requires Formed(c)
    ensures Get(Flat(c, ""), k) == if k == PROTO then None else OwnText(c, k)
    ensures OwnText(c, "").None?
  {
    if k == PROTO { ProtoIsNeverIndexed(c); } else { FlatHoldsOwnText(c, "", k); }
    EmptySegmentIsAbsent(c);
  }

  lemma {:induction false} EmptySegmentIsAbsent(c: Catalog)
    requires Formed(c)
    ensures Find(c, "").None?
    decreases c
  {
    if c != [] { EmptySegmentIsAbsent(c[..|c| - 1]); }
  }

  lemma {:induction false} DotlessIsNotBelow(c: Catalog, prefix: string, x: string)
    requires prefix != "" && '.' !in x
    ensures x !in Flat(c, prefix)
    decreases c
  {
    if c != [] {
      var e := c[|c| - 1];
      DotlessIsNotBelow(c[..|c| - 1], prefix, x);
      assert Full(prefix, e.segment)[|prefix|] == '.';
      if e.node.Tree? { DotlessIsNotBelow(e.node.entries, Full(prefix, e.segment), x); }
    }
  }

  lemma {:induction false} ProtoIsNeverIndexed(c: Catalog)
    requires Formed(c)
    ensures PROTO !in Flat(c, "")
    decreases c
  {
    if c != [] {
      var e := c[|c| - 1];
      ProtoIsNeverIndexed(c[..|c| - 1]);
      if e.node.Tree? { DotlessIsNotBelow(e.node.entries, e.segment, PROTO); }
    }
  }

  lemma StrayMember(rt: Runtime, c: Catalog, segment: string, member: string, id: nat)
    requires Formed(c) && Find(c, segment).None? && '.' !in segment && '.' !in member
    requires rt.inherited(segment) == Native(id)
    ensures var k := segment + ("." + member);
            && AsString(ResolveMessage(rt, c, k)) == AsString(rt.member(id, member))
            && k !in Flat(c, "")
  {
    var k := segment + ("." + member);
    FirstDotOf(segment, member);
    FirstDotOf(member, "");
    assert k[..|segment|] == segment && k[|segment| + 1..] == member;
    assert member[..|member|] == member && Split(member) == [member];
    assert ReadAll(rt, Native(id), [member]) == ReadAll(rt, rt.member(id, member), []);
    LookupIsOwnOrStray(rt, c, k);
    IndexHoldsIff(c, k);
  }

  /** Every catalog without a `constructor` of its own: the lookup finds a message the index does not have. */
  lemma InheritedNameIsNotIndexed(rt: Runtime, c: Catalog, fn: nat)
    requires Formed(c) && Find(c, "constructor").None?
    requires rt.inherited("constructor") == Native(fn) && rt.member(fn, "name") == Message(Text("Object"))
    ensures var k := "constructor" + ("." + "name");
            AsString(ResolveMessage(rt, c, k)) == Answer("Object") && k !in Flat(c, "")
  {
    StrayMember(rt, c, "constructor", "name", fn);
  }
}
