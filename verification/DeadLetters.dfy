/**
 * The dead-letter store (packages/adapters/src/job-diagnostics/redis-dlq-adapter.ts):
 * one queue's sorted set, `pushToDLQ` and `recordRerunFailure`, against a Redis
 * whose commands may answer, fail without effect, or apply and lose their reply,
 * and whose contents others change between any two commands.
 */
module DeadLetters {
  import opened Options
  import opened Replies
  import opened Strings

  const MAX_PER_QUEUE := 500
  const MAX_SWAP_ATTEMPTS := 3

  datatype Failure = Failure(message: string, code: Option<string>)

  /** An entry. `payload` and `other` stand for the parts nothing here looks into. */
  datatype Item = Item(id: string, failedAt: int, payload: nat, attempt: Option<nat>, error: Failure,
                       firstFailedAt: Option<int>, lastRunId: Option<string>, other: nat)

  /** `JSON.stringify` and the reading of a member; an unreadable member parses to nothing. */
  datatype Json = Json(stringify: Item -> string, parse: string -> Option<Item>)

  ghost predicate RoundTrips(j: Json) {
    forall item: Item :: j.parse(j.stringify(item)) == Some(item)
  }

  /** The sorted set: its members with their scores. */
  type Queue = map<string, int>

  predicate HasId(j: Json, raw: string, id: string) {
    j.parse(raw).Some? && j.parse(raw).value.id == id
  }

  ghost function EntriesOf(j: Json, q: Queue, id: string): set<string> {
    set raw | raw in q && HasId(j, raw, id)
  }

  /** By score, and members with equal scores by their text. */
  predicate Earlier(q: Queue, a: string, b: string)
    requires a in q && b in q
  {
    q[a] < q[b] || (q[a] == q[b] && Precedes(a, b))
  }

  function LaterThan(q: Queue, m: string): set<string>
    requires m in q
  {
    set n | n in q && Earlier(q, m, n)
  }

  // ----- What one command does -----

  /** `SWAP_DLQ_MEMBER_LUA`, when the old member is there. */
  function Swapped(q: Queue, prior: string, score: int, next: string): Queue {
    var added := q[next := score];
    if prior != next then added - {prior} else added
  }

  ghost predicate IsEarliest(q: Queue, some: set<string>, m: string)
    requires forall n :: n in some ==> n in q
  {
    m in some && forall n :: n in some && n != m ==> Earlier(q, m, n)
  }

  /** The order of members is total, so some member is the earliest. */
  lemma {:induction false} EarliestExists(q: Queue, some: set<string>) returns (m: string)
    requires some != {} && forall n :: n in some ==> n in q
    ensures IsEarliest(q, some, m)
    decreases |some|
  {
    var one :| one in some;
    var rest := some - {one};
    if rest == {} {
      m := one;
      assert some == {one};
    } else {
      var least := EarliestExists(q, rest);
      PrecedesIsTotal(one, least);
      m := if Earlier(q, least, one) then least else one;
      forall n | n in some && n != m ensures Earlier(q, m, n) {
        if n != one {
          assert n in rest;
          if m == one { EarlierThanRest(q, one, least, n); }
        }
      }
    }
  }

  lemma EarlierThanRest(q: Queue, one: string, least: string, n: string)
    requires one in q && least in q && n in q && Earlier(q, one, least) && (n == least || Earlier(q, least, n))
    ensures Earlier(q, one, n)
  {
    if n != least && q[one] == q[least] == q[n] { PrecedesIsTransitive(one, least, n); }
  }

  lemma EarliestIsThere(q: Queue)
    requires |q| > 0
    ensures exists m :: IsEarliest(q, q.Keys, m)
  {
    assert |q.Keys| == |q|;
    var m := EarliestExists(q, q.Keys);
  }

  /** The member of rank 0. */
  ghost function Earliest(q: Queue): (m: string)
    requires |q| > 0
    ensures IsEarliest(q, q.Keys, m)
  {
    EarliestIsThere(q);
    var m :| IsEarliest(q, q.Keys, m);
    m
  }

  /** `zremrangebyrank(key, 0, n - 1)` */
  ghost function WithoutLowest(q: Queue, n: nat): (r: Queue)
    requires n <= |q|
    ensures |r| == |q| - n
    decreases n
  {
    if n == 0 then q else WithoutLowest(q - {Earliest(q)}, n - 1)
  }

  /** `zadd`, then `zremrangebyrank(key, 0, -(max + 1))`: all but the `max` members of highest rank go. */
  ghost function Pushed(q: Queue, raw: string, score: int): Queue {
    var added := q[raw := score];
    WithoutLowest(added, if |added| > MAX_PER_QUEUE then |added| - MAX_PER_QUEUE else 0)
  }

  datatype Write =
    | Swap(before: Queue, prior: string, score: int, raw: string)
    | Push(before: Queue, score: int, raw: string) {
    ghost function After(): Queue {
      match this
      case Swap(q, prior, score, raw) => Swapped(q, prior, score, raw)
      case Push(q, score, raw) => Pushed(q, raw, score)
    }
  }

  // ----- `recordRerunFailure` -----

  datatype RerunFailure = RerunFailure(jobId: string, runId: string, failedAt: int, error: Failure)

  /** The entry after one more failure. */
  function Next(item: Item, f: RerunFailure): Item {
    item.(failedAt := f.failedAt,
          attempt := Some((if item.attempt.Some? then item.attempt.value else 1) + 1),
          error := f.error,
          firstFailedAt := if item.firstFailedAt.Some? then item.firstFailedAt else Some(item.failedAt),
          lastRunId := if f.runId != "" then Some(f.runId) else item.lastRunId)
  }

  /**
   * One round as Redis has it: the set and the reply at the scan, then the set
   * and the reply at the swap. Others may have run anything in between.
   */
  datatype Round = Round(seen: Queue, found: Option<Stored>, scan: Reply, at: Queue, swap: Reply)

  /** A stored member, and the entry parsed from it. */
  datatype Stored = Stored(raw: string, item: Item)

  /** `found` is the oldest member of `seen` with this id, if there is one. */
  ghost predicate IsFound(j: Json, seen: Queue, id: string, found: Option<Stored>) {
    match found
    case None => EntriesOf(j, seen, id) == {}
    case Some(Stored(raw, item)) =>
      && raw in seen && j.parse(raw) == Some(item) && item.id == id
      && forall other :: other in EntriesOf(j, seen, id) ==> !Earlier(seen, other, raw)
  }

  ghost predicate AreRounds(j: Json, id: string, rounds: seq<Round>) {
    |rounds| == MAX_SWAP_ATTEMPTS && forall r :: r in rounds ==> IsFound(j, r.seen, id, r.found)
  }

  /** No answer stands for a throw. */
  datatype Recorded = Recorded(answer: Option<bool>, writes: seq<Write>)

  function RewriteOf(j: Json, f: RerunFailure, r: Round): Write
    requires r.found.Some?
  {
    Swap(r.at, r.found.value.raw, f.failedAt, j.stringify(Next(r.found.value.item, f)))
  }

  function RecordFrom(j: Json, f: RerunFailure, rounds: seq<Round>): Recorded {
    if rounds == [] then Recorded(None, [])
    else
      var r := rounds[0];
      if !r.scan.Answered? then Recorded(None, [])
      else if r.found.None? then Recorded(Some(false), [])
      else if r.found.value.raw in r.at && r.swap.Applied() then
        Recorded(if r.swap.Answered? then Some(true) else None, [RewriteOf(j, f, r)])
      else if !r.swap.Answered? then Recorded(None, [])
      else RecordFrom(j, f, rounds[1..])
  }

  /** The adapter. `log` lists the writes Redis applied. */
  class Adapter {
    const j: Json
    ghost var log: seq<Write>

    constructor (j: Json)
      ensures this.j == j && log == []
    {
      this.j, log := j, [];
    }

    /** The swap command: its reply, or a throw. */
    method RunSwap(r: Round, raw: string, score: int, next: string) returns (swapped: Option<nat>)
      modifies this`log
      ensures swapped == if !r.swap.Answered? then None else Some(if raw in r.at then 1 else 0)
      ensures log == old(log) + if raw in r.at && r.swap.Applied() then [Swap(r.at, raw, score, next)] else []
    {
      if raw in r.at && r.swap.Applied() { log := log + [Swap(r.at, raw, score, next)]; }
      if !r.swap.Answered? { return None; }
      return Some(if raw in r.at then 1 else 0);
    }

    method RecordRerunFailure(f: RerunFailure, rounds: seq<Round>) returns (answer: Option<bool>)
      requires |rounds| == MAX_SWAP_ATTEMPTS
      modifies this`log
      ensures answer == RecordFrom(j, f, rounds).answer
      ensures log == old(log) + RecordFrom(j, f, rounds).writes
    {
      for round := 0 to MAX_SWAP_ATTEMPTS
        invariant log == old(log)
        invariant RecordFrom(j, f, rounds[round..]) == RecordFrom(j, f, rounds)
      {
        var r := rounds[round];
        assert r in rounds && rounds[round..][1..] == rounds[round + 1..];
        if !r.scan.Answered? { return None; }
        if r.found.None? { return Some(false); }
        var Stored(raw, item) := r.found.value;
        var swapped := RunSwap(r, raw, f.failedAt, j.stringify(Next(item, f)));
        if swapped.None? { return None; }
        if swapped.value == 1 { return Some(true); }
      }
      return None;
    }

    method PushToDLQ(item: Item, at: Queue, push: Reply) returns (ok: bool)
      modifies this`log
      ensures ok == push.Answered?
      ensures log == old(log) + if push.Applied() then [Push(at, item.failedAt, j.stringify(item))] else []
    {
      if push.Applied() { log := log + [Push(at, item.failedAt, j.stringify(item))]; }
      ok := push.Answered?;
    }
  }

  // ----- What the writes leave alone -----

  /** A rewrite changes no member but the one it replaces, and keeps that entry's id and payload. */
  lemma RewriteTouchesOneEntry(j: Json, f: RerunFailure, r: Round, m: string)
    requires RoundTrips(j) && r.found.Some?
    ensures var w := RewriteOf(j, f, r);
            && w.raw in w.After() && w.After()[w.raw] == f.failedAt
            && (m != w.prior && m != w.raw ==>
                  (m in w.After() <==> m in w.before) && (m in w.before ==> w.After()[m] == w.before[m]))
            && (w.prior in w.After() <==> w.prior == w.raw)
    ensures var next := j.parse(RewriteOf(j, f, r).raw); var was := r.found.value.item;
            && next.Some? && next.value.id == was.id && next.value.payload == was.payload
            && next.value.firstFailedAt ==
               Some(if was.firstFailedAt.Some? then was.firstFailedAt.value else was.failedAt)
  {
  }

  lemma {:induction false} SubsetIsNoLarger(a: set<string>, b: set<string>)
    requires a <= b
    ensures |a| <= |b|
    decreases a
  {
    if a != {} {
      var x :| x in a;
      SubsetIsNoLarger(a - {x}, b - {x});
    }
  }

  lemma LaterIsProper(q: Queue, m: string)
    requires m in q
    ensures LaterThan(q, m) <= q.Keys - {m} && |LaterThan(q, m)| < |q|
  {
    PrecedesIsTotal(m, m);
    assert LaterThan(q, m) <= q.Keys - {m};
    SubsetIsNoLarger(LaterThan(q, m), q.Keys - {m});
  }

  /** All others are later than the earliest, and it is later than none. */
  lemma EarliestHasAllLater(q: Queue, e: string)
    requires IsEarliest(q, q.Keys, e)
    ensures LaterThan(q, e) == q.Keys - {e}
    ensures forall m :: m in q && m != e ==> LaterThan(q - {e}, m) == LaterThan(q, m)
  {
    PrecedesIsTotal(e, e);
    forall m | m in q && m != e ensures LaterThan(q - {e}, m) == LaterThan(q, m) {
      PrecedesIsTotal(e, m);
      assert e !in LaterThan(q, m);
    }
  }

  /** Removing the lowest ranks keeps exactly the members that few enough are later than, with their scores. */
  lemma {:induction false} WithoutLowestKeeps(q: Queue, n: nat, m: string)
    requires n <= |q|
    ensures m in WithoutLowest(q, n) <==> m in q && |LaterThan(q, m)| < |q| - n
    ensures m in WithoutLowest(q, n) ==> WithoutLowest(q, n)[m] == q[m]
    decreases n
  {
    if n == 0 {
      if m in q { LaterIsProper(q, m); }
    } else {
      var e := Earliest(q);
      var rest := q - {e};
      EarliestHasAllLater(q, e);
      assert rest.Keys == q.Keys - {e} && |rest| == |q| - 1;
      WithoutLowestKeeps(rest, n - 1, m);
    }
  }

  /** The pushed entry, or any other, is there afterwards exactly when fewer than 500 are later. */
  lemma PushKeepsIff(q: Queue, raw: string, score: int, m: string)
    ensures var added := q[raw := score];
            && (m in Pushed(q, raw, score) <==> m in added && |LaterThan(added, m)| < MAX_PER_QUEUE)
            && (m in Pushed(q, raw, score) ==> Pushed(q, raw, score)[m] == added[m])
  {
    var added := q[raw := score];
    WithoutLowestKeeps(added, if |added| > MAX_PER_QUEUE then |added| - MAX_PER_QUEUE else 0, m);
    if m in added { LaterIsProper(added, m); }
  }

  /** The exact reach of a push: it prunes nothing precisely while the set has room. */
  lemma PushPrunesNothingIff(q: Queue, raw: string, score: int)
    ensures var added := q[raw := score]; Pushed(q, raw, score) == added <==> |added| <= MAX_PER_QUEUE
  {
  }

  /** The newest entry stays, however full the set is. */
  lemma NewestIsKept(q: Queue, raw: string, score: int)
    requires forall m :: m in q ==> q[m] < score
    ensures raw in Pushed(q, raw, score)
  {
    PrecedesIsTotal(raw, raw);
    assert LaterThan(q[raw := score], raw) == {};
    PushKeepsIff(q, raw, score, raw);
  }

  /** Of entries that failed at the same moment the one with the greatest text stays. */
  lemma LastOfItsMomentIsKept(q: Queue, raw: string, score: int)
    requires forall m :: m in q && m != raw ==> q[m] < score || (q[m] == score && Precedes(m, raw))
    ensures raw in Pushed(q, raw, score)
  {
    var added := q[raw := score];
    PrecedesIsTotal(raw, raw);
    forall m | m in q && m != raw ensures !Earlier(added, raw, m) { PrecedesIsTotal(m, raw); }
    assert LaterThan(added, raw) == {};
    PushKeepsIff(q, raw, score, raw);
  }

  // ----- Reruns of one entry failing together -----

  /** One command against the queue; a swap names the member it was built from. */
  datatype Command =
    | DoSwap(prior: string, failure: RerunFailure)
    | DoPush(item: Item)
    | DoRemove(raw: string)
    | DoPurge

  ghost function Done(j: Json, q: Queue, c: Command): Queue {
    match c
    case DoSwap(prior, f) =>
      if prior in q && j.parse(prior).Some?
      then Swapped(q, prior, f.failedAt, j.stringify(Next(j.parse(prior).value, f)))
      else q
    case DoPush(item) => Pushed(q, j.stringify(item), item.failedAt)
    case DoRemove(raw) => q - {raw}
    case DoPurge => map[]
  }

  ghost function Play(j: Json, q: Queue, commands: seq<Command>): Queue {
    if commands == [] then q else Done(j, Play(j, q, commands[..|commands| - 1]), commands[|commands| - 1])
  }

  /** The swaps that hit an entry with this id. */
  ghost function Hits(j: Json, q: Queue, commands: seq<Command>, id: string): nat {
    if commands == [] then 0
    else
      var before, c := commands[..|commands| - 1], commands[|commands| - 1];
      Hits(j, q, before, id)
      + if c.DoSwap? && c.prior in Play(j, q, before) && HasId(j, c.prior, id) then 1 else 0
  }

  function AttemptOf(j: Json, raw: string): nat {
    if j.parse(raw).Some? && j.parse(raw).value.attempt.Some? then j.parse(raw).value.attempt.value else 1
  }

  /** Every entry with this id is the one entry, with this attempt. */
  ghost predicate OneEntry(j: Json, q: Queue, id: string, attempt: nat) {
    && (forall a, b :: a in EntriesOf(j, q, id) && b in EntriesOf(j, q, id) ==> a == b)
    && forall a :: a in EntriesOf(j, q, id) ==> AttemptOf(j, a) == attempt
  }

  lemma DoneKeepsOneEntry(j: Json, q: Queue, c: Command, id: string, attempt: nat)
    requires RoundTrips(j) && OneEntry(j, q, id, attempt) && (c.DoPush? ==> c.item.id != id)
    ensures var hit := c.DoSwap? && c.prior in q && HasId(j, c.prior, id);
            OneEntry(j, Done(j, q, c), id, attempt + if hit then 1 else 0)
    ensures EntriesOf(j, q, id) == {} ==> EntriesOf(j, Done(j, q, c), id) == {}
  {
    match c
    case DoSwap(prior, f) =>
      if prior in q && j.parse(prior).Some? {
        var next := j.stringify(Next(j.parse(prior).value, f));
        assert j.parse(next) == Some(Next(j.parse(prior).value, f));
        forall a | a in EntriesOf(j, Done(j, q, c), id) ensures a == next || a in EntriesOf(j, q, id) - {prior} {}
        if HasId(j, prior, id) { assert prior in EntriesOf(j, q, id); }
      }
    case DoPush(item) =>
      assert j.parse(j.stringify(item)) == Some(item);
      forall a | a in EntriesOf(j, Done(j, q, c), id) ensures a in EntriesOf(j, q, id) {
        PushKeepsIff(q, j.stringify(item), item.failedAt, a);
      }
    case DoRemove(raw) => assert EntriesOf(j, Done(j, q, c), id) <= EntriesOf(j, q, id);
    case DoPurge =>
  }

  /**
   * However reruns of one entry fail together, beside pushes of other entries,
   * deletes and purges: one entry is left at most, every rewrite that landed
   * is counted in it, and an entry once gone does not come back.
   */
  lemma {:induction false} RerunsLeaveOneCountedEntry(
      j: Json, q: Queue, commands: seq<Command>, id: string, attempt: nat, k: nat)
    requires RoundTrips(j) && OneEntry(j, q, id, attempt) && k <= |commands|
    requires forall c :: c in commands && c.DoPush? ==> c.item.id != id
    ensures OneEntry(j, Play(j, q, commands), id, attempt + Hits(j, q, commands, id))
    ensures EntriesOf(j, Play(j, q, commands[..k]), id) == {} ==> EntriesOf(j, Play(j, q, commands), id) == {}
    decreases |commands|
  {
    if commands != [] {
      var before := commands[..|commands| - 1];
      RerunsLeaveOneCountedEntry(j, q, before, id, attempt, if k < |commands| then k else 0);
      DoneKeepsOneEntry(j, Play(j, q, before), commands[|commands| - 1], id, attempt + Hits(j, q, before, id));
      if k < |commands| { assert before[..k] == commands[..k]; } else { assert commands[..k] == commands; }
    } else {
      assert commands[..k] == commands;
    }
  }
}
