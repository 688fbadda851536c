/**
 * The provider's session state (`createSessionTracker` in apps/web/src/trpc.ts):
 * a snapshot that every reading replaces, and one re-armable "next settle"
 * promise shared by all waiters of a pending stretch.
 */
module SessionTracking {
  import opened Options

  /** `version` stands for the identity of the snapshot object: every replacement has a new one. */
  datatype Snapshot = Snapshot(
    version: nat,
    isAuthenticated: bool,
    isPending: bool,
    hasSettled: bool,
    lastSettledAuthenticated: bool,
    lastSettledReadFailed: bool,
    stretchTimedOut: bool
  )

  datatype Reading = Reading(isAuthenticated: bool, isPending: bool, readFailed: bool)

  /** Promises are numbered as they are created; `resolved` holds those already resolved. */
  datatype Tracker = Tracker(current: Snapshot, nextSettle: Option<nat>, created: nat, resolved: set<nat>)

  const INITIAL: Tracker :=
    Tracker(Snapshot(0, false, true, false, false, false, false), None, 0, {})

  function Updated(t: Tracker, r: Reading): Tracker {
    var prev := t.current;
    var next := Snapshot(
      prev.version + 1,
      r.isAuthenticated,
      r.isPending,
      prev.hasSettled || !r.isPending,
      if r.isPending then prev.lastSettledAuthenticated else r.isAuthenticated,
      if r.isPending then prev.lastSettledReadFailed else r.readFailed && !r.isAuthenticated,
      if r.isPending then prev.stretchTimedOut else false);
    if !r.isPending && t.nextSettle.Some? then
      Tracker(next, None, t.created, t.resolved + {t.nextSettle.value})
    else
      t.(current := next)
  }

  function Marked(t: Tracker): Tracker {
    if !t.current.isPending then t
    else t.(current := t.current.(version := t.current.version + 1, stretchTimedOut := true))
  }

  /** The promise a caller waits on; `None` is a promise that is already resolved. */
  function Waited(t: Tracker): (Tracker, Option<nat>) {
    if !t.current.isPending then (t, None)
    else if t.nextSettle.Some? then (t, t.nextSettle)
    else (t.(nextSettle := Some(t.created), created := t.created + 1), Some(t.created))
  }

  /** The tracker as the source has it: an object whose methods reassign its fields. */
  class SessionTracker {
    var current: Snapshot
    var nextSettle: Option<nat>
    var created: nat
    var resolved: set<nat>

    function State(): Tracker
      reads this
    {
      Tracker(current, nextSettle, created, resolved)
    }

    constructor ()
      ensures State() == INITIAL
    {
      current := Snapshot(0, false, true, false, false, false, false);
      nextSettle, created, resolved := None, 0, {};
    }

    method WaitForSettle() returns (promise: Option<nat>)
      modifies this
      ensures (State(), promise) == Waited(old(State()))
    {
      if !current.isPending { return None; }
      if nextSettle.None? {
        nextSettle := Some(created);
        created := created + 1;
      }
      promise := nextSettle;
    }

    method MarkSettleTimedOut()
      modifies this
      ensures State() == Marked(old(State()))
    {
      if !current.isPending { return; }
      current := current.(version := current.version + 1, stretchTimedOut := true);
    }

    method Update(reading: Reading)
      modifies this
      ensures State() == Updated(old(State()), reading)
    {
      var prev := current;
      current := Snapshot(
        prev.version + 1,
        reading.isAuthenticated,
        reading.isPending,
        prev.hasSettled || !reading.isPending,
        if reading.isPending then prev.lastSettledAuthenticated else reading.isAuthenticated,
        if reading.isPending then prev.lastSettledReadFailed else reading.readFailed && !reading.isAuthenticated,
        if reading.isPending then prev.stretchTimedOut else false);
      if !reading.isPending && nextSettle.Some? {
        var settled := nextSettle.value;
        nextSettle := None;
        resolved := resolved + {settled};
      }
    }
  }

  // ----- The tracker against the history of calls made on it -----

  datatype Op = Feed(reading: Reading) | Mark | Wait

  function Apply(t: Tracker, op: Op): Tracker {
    match op
    case Feed(r) => Updated(t, r)
    case Mark => Marked(t)
    case Wait => Waited(t).0
  }

  function After(ops: seq<Op>): Tracker {
    if ops == [] then INITIAL else Apply(After(ops[..|ops| - 1]), ops[|ops| - 1])
  }

  predicate Settles(op: Op) { op.Feed? && !op.reading.isPending }

  /** Index of the last reading, and of the last settled one; -1 when there is none. */
  function LastFeed(ops: seq<Op>): (k: int)
    ensures -1 <= k < |ops| && (k >= 0 ==> ops[k].Feed?)
    ensures forall j :: k < j < |ops| ==> !ops[j].Feed?
  {
    if ops == [] then -1
    else if ops[|ops| - 1].Feed? then |ops| - 1
    else LastFeed(ops[..|ops| - 1])
  }

  function LastSettle(ops: seq<Op>): (k: int)
    ensures -1 <= k < |ops| && (k >= 0 ==> Settles(ops[k]))
    ensures forall j :: k < j < |ops| ==> !Settles(ops[j])
  {
    if ops == [] then -1
    else if Settles(ops[|ops| - 1]) then |ops| - 1
    else LastSettle(ops[..|ops| - 1])
  }

  /** By the history alone: no reading yet, or the last one was pending. */
  predicate PendingByHistory(ops: seq<Op>) {
    LastFeed(ops) < 0 || ops[LastFeed(ops)].reading.isPending
  }

  /** The bound was marked at `j`, inside a pending stretch that no settle has ended since. */
  predicate MarkedInStretch(ops: seq<Op>, j: int) {
    LastSettle(ops) < j < |ops| && ops[j].Mark? && PendingByHistory(ops[..j])
  }

  ghost predicate FieldsMatchHistory(t: Tracker, ops: seq<Op>) {
    var s := t.current;
    var settle := LastSettle(ops);
    var feed := LastFeed(ops);
    && s.isPending == PendingByHistory(ops)
    && s.isAuthenticated == (feed >= 0 && ops[feed].reading.isAuthenticated)
    && s.hasSettled == (settle >= 0)
    && s.lastSettledAuthenticated == (settle >= 0 && ops[settle].reading.isAuthenticated)
    && s.lastSettledReadFailed ==
       (settle >= 0 && ops[settle].reading.readFailed && !ops[settle].reading.isAuthenticated)
    && s.stretchTimedOut == (exists j :: MarkedInStretch(ops, j))
    && (s.stretchTimedOut ==> s.isPending)
    && (t.nextSettle.Some? ==> s.isPending)
    && !(s.lastSettledReadFailed && s.lastSettledAuthenticated)
  }

  /** One more call adds a mark to the stretch, ends the stretch, or leaves its marks as they were. */
  lemma MarksInStretch(ops: seq<Op>)
    requires ops != []
    ensures var n := |ops| - 1; var op, prefix := ops[n], ops[..n];
            (exists j :: MarkedInStretch(ops, j)) <==>
            !Settles(op) && ((op.Mark? && PendingByHistory(prefix)) || exists j :: MarkedInStretch(prefix, j))
  {
    var n := |ops| - 1;
    var prefix := ops[..n];
    assert forall j :: 0 <= j <= n ==> prefix[..j] == ops[..j];
    if ops[n].Mark? && PendingByHistory(prefix) { assert MarkedInStretch(ops, n); }
    if j :| MarkedInStretch(prefix, j) && !Settles(ops[n]) { assert MarkedInStretch(ops, j); }
    if j :| MarkedInStretch(ops, j) { assert j < n ==> MarkedInStretch(prefix, j); }
  }

  /** Every field is a function of the readings seen, whatever the order of the calls. */
  lemma {:induction false} TrackerRefinesHistory(ops: seq<Op>)
    ensures FieldsMatchHistory(After(ops), ops)
  {
    if ops != [] {
      var n := |ops| - 1;
      var prefix := ops[..n];
      TrackerRefinesHistory(prefix);
      MarksInStretch(ops);
    }
  }

  ghost predicate PromisesSane(t: Tracker) {
    && (forall p :: p in t.resolved ==> p < t.created)
    && (t.nextSettle.Some? ==> t.nextSettle.value < t.created && t.nextSettle.value !in t.resolved)
  }

  lemma {:induction false} PromisesStaySane(ops: seq<Op>)
    ensures PromisesSane(After(ops))
  {
    if ops != [] { PromisesStaySane(ops[..|ops| - 1]); }
  }

  predicate SettlesBetween(ops: seq<Op>, lo: int, hi: int) {
    exists k :: lo < k < hi && 0 <= k < |ops| && Settles(ops[k])
  }

  lemma SettlesBetweenGrows(ops: seq<Op>, i: nat)
    requires i < |ops| - 1
    ensures var n := |ops| - 1;
            SettlesBetween(ops, i, |ops|) <==> SettlesBetween(ops[..n], i, n) || Settles(ops[n])
  {
    var n := |ops| - 1;
    if k :| i < k < n && Settles(ops[..n][k]) { assert Settles(ops[k]); }
    if k :| i < k < n && Settles(ops[k]) { assert Settles(ops[..n][k]); }
  }

  /** One call, seen by the waiter of promise `p`. */
  lemma WaiterAfterOneCall(t: Tracker, op: Op, p: nat, released: bool)
    requires PromisesSane(t) && (t.nextSettle.Some? ==> t.current.isPending)
    requires (p in t.resolved <==> released) && (!released ==> t.nextSettle == Some(p))
    ensures p in Apply(t, op).resolved <==> released || Settles(op)
    ensures !released && !Settles(op) ==> Apply(t, op).nextSettle == Some(p)
  {
  }

  /**
   * A promise handed out at call `i` is unresolved through every later call until
   * the first settled reading after `i`, and resolved from that one on.
   */
  lemma {:induction false} WaiterReleasedByFirstLaterSettle(ops: seq<Op>, i: nat)
    requires i < |ops| && ops[i].Wait? && After(ops[..i]).current.isPending
    ensures Waited(After(ops[..i])).1.Some?
    ensures Waited(After(ops[..i])).1.value in After(ops).resolved <==> SettlesBetween(ops, i, |ops|)
    ensures !SettlesBetween(ops, i, |ops|) ==> After(ops).nextSettle == Waited(After(ops[..i])).1
  {
    var n := |ops| - 1;
    var p := Waited(After(ops[..i])).1;
    if i == n {
      PromisesStaySane(ops[..n]);
    } else {
      assert ops[..n][..i] == ops[..i];
      WaiterReleasedByFirstLaterSettle(ops[..n], i);
      PromisesStaySane(ops[..n]);
      TrackerRefinesHistory(ops[..n]);
      SettlesBetweenGrows(ops, i);
      WaiterAfterOneCall(After(ops[..n]), ops[n], p.value, SettlesBetween(ops[..n], i, n));
    }
  }
}
