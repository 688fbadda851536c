/**
 * The session-read retry scheduler (apps/web/src/trpc.ts, lines 234-391): a
 * timer, a visibility listener and a backoff step, driven by session readings,
 * timer fires, visibility events and `cancel`.
 */
module SessionReadRetry {
  import opened Options

  const JITTER := 0.2

  /** Milliseconds; `hasDocument` is false on the server. */
  datatype Config = Config(baseMs: nat, maxMs: nat, hasDocument: bool)

  datatype Reading = Reading(isPending: bool, readFailed: bool, retryable: bool) {
    predicate IsTransientFailure() { !isPending && readFailed && retryable }
    predicate IsCleanSettle() { !isPending && !(readFailed && retryable) }
  }

  /** `timer` holds the delay it was armed with. */
  datatype Retry = Retry(attempt: nat, timer: Option<int>, listening: bool)

  const IDLE := Retry(0, None, false)

  /** What `Math.random` returns. */
  type Unit = r: real | 0.0 <= r < 1.0 witness 0.0

  /** A call made on the scheduler: a reading fed to it, or `cancel`. */
  datatype Call = Feed(reading: Reading, random: Unit) | Drop {
    /** The call ends the loop, or asks for it to go on; a pending reading does neither. */
    predicate Stops() { Drop? || reading.IsCleanSettle() }
    predicate Decides() { Drop? || !reading.isPending }
  }

  /**
   * `hidden` is the tab's visibility at that moment. `reentry` holds the calls
   * made from inside `refetchSession`, in order.
   */
  datatype Event =
    | Read(reading: Reading, random: Unit)
    | Cancel
    | Fire(hidden: bool, reentry: seq<Call>, random: Unit)
    | VisibilityChange(hidden: bool, random: Unit)

  function Pow2(n: nat): (p: nat)
    ensures p >= 1
  {
    if n == 0 then 1 else 2 * Pow2(n - 1)
  }

  function Min(a: nat, b: nat): nat { if a <= b then a else b }

  function Max(a: int, b: int): int { if a >= b then a else b }

  /** `Math.round`: halves go up. */
  function Round(x: real): int { (x + 0.5).Floor }

  function StepMs(c: Config, attempt: nat): nat { Min(c.baseMs * Pow2(attempt), c.maxMs) }

  function JitterFactor(random: Unit): real { 1.0 + (random * 2.0 - 1.0) * JITTER }

  function Scaled(stepMs: nat, factor: real): int { Max(0, Round(stepMs as real * factor)) }

  function DelayFor(c: Config, attempt: nat, random: Unit): int { Scaled(StepMs(c, attempt), JitterFactor(random)) }

  function Armed(c: Config, s: Retry, random: Unit): Retry {
    if s.timer.Some? || s.listening then s else s.(timer := Some(DelayFor(c, s.attempt, random)))
  }

  function Cancelled(s: Retry): Retry { s.(timer := None, listening := false) }

  function AfterReading(c: Config, s: Retry, r: Reading, random: Unit): Retry {
    if r.isPending then s
    else if r.readFailed && r.retryable then Armed(c, s, random)
    else Cancelled(s.(attempt := 0))
  }

  function Paused(c: Config, s: Retry): Retry {
    if c.hasDocument then s.(listening := true) else s
  }

  function Grown(c: Config, attempt: nat): nat {
    if c.baseMs * Pow2(attempt) < c.maxMs then attempt + 1 else attempt
  }

  function AfterCalls(c: Config, s: Retry, calls: seq<Call>): Retry {
    if calls == [] then s
    else
      var before, call := AfterCalls(c, s, calls[..|calls| - 1]), calls[|calls| - 1];
      if call.Drop? then Cancelled(before) else AfterReading(c, before, call.reading, call.random)
  }

  /** Without a document no tab is ever hidden. */
  function Fired(c: Config, s: Retry, hidden: bool, reentry: seq<Call>, random: Unit): Retry {
    var due := s.(timer := None);
    if c.hasDocument && hidden then Paused(c, due)
    else
      var grown := due.(attempt := Grown(c, due.attempt));
      Armed(c, AfterCalls(c, grown, reentry), random)
  }

  function Shown(c: Config, s: Retry, hidden: bool, random: Unit): Retry {
    if hidden then s else Armed(c, s.(listening := false), random)
  }

  class Scheduler {
    const c: Config
    var attempt: nat
    var timer: Option<int>
    var listening: bool

    constructor (c: Config)
      ensures this.c == c && State() == IDLE
    {
      this.c, attempt, timer, listening := c, 0, None, false;
    }

    function State(): Retry
      reads this
    {
      Retry(attempt, timer, listening)
    }

    method Arm(random: Unit)
      modifies this
      ensures State() == Armed(c, old(State()), random)
    {
      if timer.Some? || listening { return; }
      timer := Some(DelayFor(c, attempt, random));
    }

    method CancelRetry()
      modifies this
      ensures State() == Cancelled(old(State()))
    {
      if timer.Some? { timer := None; }
      if listening { listening := false; }
    }

    method PauseUntilVisible()
      modifies this
      ensures State() == Paused(c, old(State()))
    {
      if !c.hasDocument || listening { return; }
      listening := true;
    }

    /** `refetchSession`, seen from here: the calls it makes on the scheduler before it returns. */
    method Refetch(calls: seq<Call>)
      modifies this
      ensures State() == AfterCalls(c, old(State()), calls)
    {
      for k := 0 to |calls|
        invariant State() == AfterCalls(c, old(State()), calls[..k])
      {
        assert calls[..k + 1][..k] == calls[..k];
        if calls[k].Drop? { CancelRetry(); } else { OnReading(calls[k].reading, calls[k].random); }
      }
      assert calls[..|calls|] == calls;
    }

    /** The timer's callback. Whether `refetchSession` throws makes no difference. */
    method OnTimer(hidden: bool, reentry: seq<Call>, random: Unit) returns (refetched: bool)
      modifies this
      ensures State() == Fired(c, old(State()), hidden, reentry, random)
      ensures refetched == !(c.hasDocument && hidden)
    {
      timer := None;
      if c.hasDocument && hidden {
        PauseUntilVisible();
        return false;
      }
      if c.baseMs * Pow2(attempt) < c.maxMs { attempt := attempt + 1; }
      refetched := true;
      Refetch(reentry);
      Arm(random);
    }

    /** The visibility listener. */
    method OnVisibilityChange(hidden: bool, random: Unit)
      modifies this
      ensures State() == Shown(c, old(State()), hidden, random)
    {
      if hidden { return; }
      listening := false;
      Arm(random);
    }

    method OnReading(r: Reading, random: Unit)
      modifies this
      ensures State() == AfterReading(c, old(State()), r, random)
    {
      if r.isPending { return; }
      if r.readFailed && r.retryable {
        Arm(random);
        return;
      }
      attempt := 0;
      CancelRetry();
    }
  }

  // ----- Runs -----

  function Next(c: Config, s: Retry, e: Event): Retry {
    match e
    case Read(r, random) => AfterReading(c, s, r, random)
    case Cancel => Cancelled(s)
    case Fire(hidden, reentry, random) => Fired(c, s, hidden, reentry, random)
    case VisibilityChange(hidden, random) => Shown(c, s, hidden, random)
  }

  /** A timer fires only while armed, and a listener runs only while registered. */
  predicate CanHappen(s: Retry, e: Event) {
    match e
    case Fire(_, _, _) => s.timer.Some?
    case VisibilityChange(_, _) => s.listening
    case _ => true
  }

  function Run(c: Config, events: seq<Event>): Retry {
    if events == [] then IDLE else Next(c, Run(c, events[..|events| - 1]), events[|events| - 1])
  }

  predicate IsRun(c: Config, events: seq<Event>) {
    events == [] ||
    (IsRun(c, events[..|events| - 1]) && CanHappen(Run(c, events[..|events| - 1]), events[|events| - 1]))
  }

  predicate WantedAfter(wanted: bool, calls: seq<Call>) {
    if calls == [] then wanted
    else
      var call := calls[|calls| - 1];
      if call.Decides() then !call.Stops() else WantedAfter(wanted, calls[..|calls| - 1])
  }

  /** The calls a fire makes on the scheduler from inside its re-read. */
  function Inside(c: Config, e: Event): seq<Call>
    requires e.Fire?
  {
    if c.hasDocument && e.hidden then [] else e.reentry
  }

  /** The last word of the readings and `cancel`: is the last settle a transient failure nobody has cancelled? */
  predicate Wanted(c: Config, events: seq<Event>) {
    events != [] &&
    match events[|events| - 1]
    case Read(r, _) => r.IsTransientFailure() || (r.isPending && Wanted(c, events[..|events| - 1]))
    case Cancel => false
    case Fire(_, _, _) => WantedAfter(Wanted(c, events[..|events| - 1]), Inside(c, events[|events| - 1]))
    case VisibilityChange(_, _) => Wanted(c, events[..|events| - 1])
  }

  predicate SettlesClean(call: Call) { call.Feed? && call.reading.IsCleanSettle() }

  function RereadsAfter(rereads: nat, calls: seq<Call>): nat {
    if exists k :: 0 <= k < |calls| && SettlesClean(calls[k]) then 0 else rereads
  }

  /** Re-reads asked for since the last clean settle. */
  function Rereads(c: Config, events: seq<Event>): nat {
    if events == [] then 0
    else
      var before := Rereads(c, events[..|events| - 1]);
      match events[|events| - 1]
      case Read(r, _) => if r.IsCleanSettle() then 0 else before
      case Cancel => before
      case Fire(hidden, reentry, _) => if c.hasDocument && hidden then before else RereadsAfter(before + 1, reentry)
      case VisibilityChange(_, _) => before
  }

  /** Exactly one of the timer and the listener. */
  predicate HoldsOne(s: Retry) { s.timer.Some? != s.listening }

  predicate HoldsNone(s: Retry) { s.timer.None? && !s.listening }

  /** A delay within 20% of the step it was armed for, up to rounding. */
  predicate Jittered(delay: int, stepMs: nat) {
    && 0 <= delay
    && stepMs as real * 0.8 - 0.5 < delay as real <= stepMs as real * 1.2 + 0.5
  }

  /** The backoff step after `n` re-reads: one more each time, until the delay reaches its maximum. */
  predicate IsStepAfter(c: Config, attempt: nat, n: nat) {
    && attempt <= n
    && (attempt == n || c.baseMs * Pow2(attempt) >= c.maxMs)
    && (attempt == 0 || c.baseMs * Pow2(attempt - 1) < c.maxMs)
  }

  predicate LastWord(calls: seq<Call>, k: nat) {
    k < |calls| && calls[k].Decides() && forall i :: k < i < |calls| ==> !calls[i].Decides()
  }

  /** The calls' last word is that the loop should end. */
  predicate EndStopped(calls: seq<Call>) {
    exists k :: 0 <= k < |calls| && LastWord(calls, k) && calls[k].Stops()
  }

  /** A re-read that, before it returns, feeds a clean settle back or cancels, with no failure fed after it. */
  predicate StopsInside(c: Config, e: Event) { e.Fire? && EndStopped(Inside(c, e)) }

  predicate NeverStopsInside(c: Config, events: seq<Event>) {
    forall e :: e in events ==> !StopsInside(c, e)
  }

  lemma DelayIsJittered(c: Config, attempt: nat, random: Unit)
    ensures Jittered(DelayFor(c, attempt, random), StepMs(c, attempt))
  {
    RoundedScale(StepMs(c, attempt), JitterFactor(random));
  }

  lemma RoundedScale(stepMs: nat, factor: real)
    requires 0.8 <= factor <= 1.2
    ensures Jittered(Scaled(stepMs, factor), stepMs)
  {
    var x := ScaledBounds(stepMs as real, factor);
    RoundsWithin(stepMs as real * 0.8, x, stepMs as real * 1.2);
  }

  lemma ScaledBounds(b: real, factor: real) returns (x: real)
    requires b >= 0.0 && 0.8 <= factor <= 1.2
    ensures x == b * factor && b * 0.8 <= x <= b * 1.2
  {
    x := b * factor;
    Scales(b, 0.8, factor);
    Scales(b, factor, 1.2);
  }

  lemma RoundsWithin(low: real, x: real, high: real)
    requires 0.0 <= low <= x <= high
    ensures 0 <= Max(0, Round(x)) && low - 0.5 < Max(0, Round(x)) as real <= high + 0.5
  {
  }

  lemma Scales(b: real, x: real, y: real)
    requires b >= 0.0 && x <= y
    ensures b * x <= b * y
  {
  }

  /** The claims about one state, given what its run so far asks for. */
  predicate Kept(c: Config, s: Retry, wanted: bool, rereads: nat) {
    && (if wanted then HoldsOne(s) else HoldsNone(s))
    && (s.listening ==> c.hasDocument)
    && (s.timer.Some? ==> Jittered(s.timer.value, StepMs(c, s.attempt)))
    && IsStepAfter(c, s.attempt, rereads)
  }

  lemma ArmingKeeps(c: Config, s: Retry, random: Unit, rereads: nat)
    requires (s.timer.Some? ==> !s.listening && Jittered(s.timer.value, StepMs(c, s.attempt)))
    requires (s.listening ==> c.hasDocument) && IsStepAfter(c, s.attempt, rereads)
    ensures Kept(c, Armed(c, s, random), true, rereads) && Armed(c, s, random).attempt == s.attempt
  {
    DelayIsJittered(c, s.attempt, random);
  }

  lemma GrowingKeeps(c: Config, attempt: nat, rereads: nat)
    requires IsStepAfter(c, attempt, rereads)
    ensures IsStepAfter(c, Grown(c, attempt), rereads + 1)
  {
  }

  lemma SilentLastCall(calls: seq<Call>, less: seq<Call>)
    requires calls != [] && less == calls[..|calls| - 1] && !calls[|calls| - 1].Decides()
    ensures EndStopped(less) <==> EndStopped(calls)
    ensures (exists k :: 0 <= k < |less| && less[k].Decides()) <==> exists k :: 0 <= k < |calls| && calls[k].Decides()
  {
    var n := |less|;
    forall k | 0 <= k < n ensures less[k] == calls[k] && (LastWord(less, k) <==> LastWord(calls, k)) {
      assert forall i :: k < i < n ==> less[i] == calls[i];
    }
    if k :| 0 <= k < n && LastWord(less, k) && less[k].Stops() { assert LastWord(calls, k) && calls[k].Stops(); }
    if k :| 0 <= k <= n && LastWord(calls, k) && calls[k].Stops() { assert LastWord(less, k) && less[k].Stops(); }
  }

  lemma {:induction false} WantedAfterMeans(wanted: bool, calls: seq<Call>)
    ensures WantedAfter(wanted, calls) <==>
            !EndStopped(calls) && (wanted || exists k :: 0 <= k < |calls| && calls[k].Decides())
  {
    if calls != [] {
      var n := |calls| - 1;
      if calls[n].Decides() {
        assert LastWord(calls, n);
        assert forall k :: 0 <= k < n ==> !LastWord(calls, k);
      } else {
        WantedAfterMeans(wanted, calls[..n]);
        SilentLastCall(calls, calls[..n]);
      }
    }
  }

  /** Between the calls made inside a re-read: nothing listens, and a stopped loop holds no timer. */
  predicate InsideKept(c: Config, s: Retry, wanted: bool, rereads: nat) {
    && !s.listening && (s.timer.Some? ==> wanted && Jittered(s.timer.value, StepMs(c, s.attempt)))
    && IsStepAfter(c, s.attempt, rereads)
  }

  lemma OneCallKeeps(c: Config, s: Retry, call: Call, wanted: bool, rereads: nat)
    requires InsideKept(c, s, wanted, rereads)
    ensures InsideKept(c, if call.Drop? then Cancelled(s) else AfterReading(c, s, call.reading, call.random),
                       if call.Decides() then !call.Stops() else wanted, if SettlesClean(call) then 0 else rereads)
  {
    if call.Feed? && call.reading.IsTransientFailure() { ArmingKeeps(c, s, call.random, rereads); }
  }

  lemma {:induction false} CallsKeep(c: Config, s: Retry, calls: seq<Call>, wanted: bool, rereads: nat)
    requires InsideKept(c, s, wanted, rereads)
    ensures InsideKept(c, AfterCalls(c, s, calls), WantedAfter(wanted, calls), RereadsAfter(rereads, calls))
  {
    if calls != [] {
      var n := |calls| - 1;
      CallsKeep(c, s, calls[..n], wanted, rereads);
      OneCallKeeps(c, AfterCalls(c, s, calls[..n]), calls[n], WantedAfter(wanted, calls[..n]),
                   RereadsAfter(rereads, calls[..n]));
      if k :| 0 <= k < n && SettlesClean(calls[k]) { assert SettlesClean(calls[..n][k]); }
      if k :| 0 <= k < n && SettlesClean(calls[..n][k]) { assert SettlesClean(calls[k]); }
    }
  }

  lemma StepKeeps(c: Config, s: Retry, e: Event, events: seq<Event>)
    requires Kept(c, s, Wanted(c, events), Rereads(c, events)) && CanHappen(s, e)
    requires !StopsInside(c, e)
    ensures Kept(c, Next(c, s, e), Wanted(c, events + [e]), Rereads(c, events + [e]))
  {
    assert (events + [e])[..|events|] == events;
    match e
    case Read(r, random) =>
      if r.IsTransientFailure() { ArmingKeeps(c, s, random, Rereads(c, events)); }
    case Cancel =>
    case Fire(hidden, reentry, random) =>
      WantedAfterMeans(true, Inside(c, e));
      if !(c.hasDocument && hidden) {
        var grown := Retry(Grown(c, s.attempt), None, false);
        var after := AfterCalls(c, grown, reentry);
        GrowingKeeps(c, s.attempt, Rereads(c, events));
        CallsKeep(c, grown, reentry, true, Rereads(c, events) + 1);
        ArmingKeeps(c, after, random, RereadsAfter(Rereads(c, events) + 1, reentry));
        assert Fired(c, s, hidden, reentry, random) == Armed(c, after, random);
      }
    case VisibilityChange(hidden, random) =>
      if !hidden { ArmingKeeps(c, s.(listening := false), random, Rereads(c, events)); }
  }

  /**
   * Never stranded, never doubled: from a transient failed settle until a clean
   * settle or `cancel` exactly one of timer and listener is held, and otherwise
   * neither; every armed delay is within 20% of its step.
   */
  lemma {:induction false} LoopIsNeverStrandedNorDoubled(c: Config, events: seq<Event>)
    requires IsRun(c, events) && NeverStopsInside(c, events)
    ensures Kept(c, Run(c, events), Wanted(c, events), Rereads(c, events))
    decreases |events|
  {
    if events != [] {
      var before, e := events[..|events| - 1], events[|events| - 1];
      LoopIsNeverStrandedNorDoubled(c, before);
      StepKeeps(c, Run(c, before), e, before);
      assert before + [e] == events;
    }
  }

  lemma Doubles(b: nat, p: nat)
    ensures b * (2 * p) == 2 * (b * p)
  {
  }

  /** The doubled step never reaches twice the maximum, however long the outage. */
  lemma StepStaysBounded(c: Config, events: seq<Event>)
    requires IsRun(c, events) && NeverStopsInside(c, events)
    ensures Run(c, events).attempt == 0 || c.baseMs * Pow2(Run(c, events).attempt) < 2 * c.maxMs
  {
    LoopIsNeverStrandedNorDoubled(c, events);
    var a := Run(c, events).attempt;
    if a > 0 { Doubles(c.baseMs, Pow2(a - 1)); }
  }

  /**
   * The exact condition: a fire keeps the loop in step with what is wanted
   * unless the last word of what `refetchSession` calls from inside is a clean
   * settle or `cancel`; the fire arms a timer after it all the same, and the
   * loop goes on.
   */
  lemma FireKeepsTheLoopIff(c: Config, events: seq<Event>, e: Event)
    requires IsRun(c, events) && NeverStopsInside(c, events)
    requires e.Fire? && CanHappen(Run(c, events), e)
    ensures var wanted, after := Wanted(c, events + [e]), Next(c, Run(c, events), e);
            (if wanted then HoldsOne(after) else HoldsNone(after)) <==> !StopsInside(c, e)
  {
    assert (events + [e])[..|events|] == events;
    LoopIsNeverStrandedNorDoubled(c, events);
    if StopsInside(c, e) {
      WantedAfterMeans(Wanted(c, events), Inside(c, e));
    } else {
      StepKeeps(c, Run(c, events), e, events);
    }
  }

  // ----- Which delay, and when a listener instead -----

  /** Half a millisecond at most from the step scaled by the factor. */
  predicate IsRoundedScale(delay: int, stepMs: nat, factor: real) {
    stepMs as real * factor - 0.5 < delay as real <= stepMs as real * factor + 0.5
  }

  /** The factor runs from 0.8 up to 1.2 with the random number. */
  lemma DelayFollowsRandom(c: Config, attempt: nat, random: Unit)
    ensures IsRoundedScale(DelayFor(c, attempt, random), Min(c.baseMs * Pow2(attempt), c.maxMs), 0.8 + 0.4 * random)
  {
    FactorOf(random);
    ScaledNear(StepMs(c, attempt), JitterFactor(random));
  }

  lemma FactorOf(random: Unit)
    ensures JitterFactor(random) == 0.8 + 0.4 * random && 0.8 <= JitterFactor(random) <= 1.2
  {
  }

  lemma ScaledNear(stepMs: nat, factor: real)
    requires 0.8 <= factor <= 1.2
    ensures IsRoundedScale(Scaled(stepMs, factor), stepMs, factor)
  {
    var x := ScaledBounds(stepMs as real, factor);
    RoundsWithin(x, x, x);
  }

  lemma {:induction false} Pow2Grows(a: nat, n: nat)
    requires a <= n
    ensures Pow2(a) <= Pow2(n)
    decreases n - a
  {
    if a < n { Pow2Grows(a + 1, n); }
  }

  lemma ProductGrows(base: nat, p: nat, q: nat)
    requires p <= q
    ensures base * p <= base * q
  {
  }

  /** After `n` re-reads the timer is armed for the base doubled `n` times or for the maximum, within 20%. */
  lemma DelayDoublesUpToTheMaximum(c: Config, events: seq<Event>)
    requires IsRun(c, events) && NeverStopsInside(c, events) && Run(c, events).timer.Some?
    ensures Jittered(Run(c, events).timer.value, Min(c.baseMs * Pow2(Rereads(c, events)), c.maxMs))
  {
    LoopIsNeverStrandedNorDoubled(c, events);
    Pow2Grows(Run(c, events).attempt, Rereads(c, events));
    ProductGrows(c.baseMs, Pow2(Run(c, events).attempt), Pow2(Rereads(c, events)));
  }

  /** The last fire found the tab hidden, and since then it was not shown, nor did the loop end. */
  predicate HiddenSince(c: Config, events: seq<Event>) {
    events != [] &&
    match events[|events| - 1]
    case Read(r, _) => !r.IsCleanSettle() && HiddenSince(c, events[..|events| - 1])
    case Cancel => false
    case Fire(hidden, _, _) => c.hasDocument && hidden
    case VisibilityChange(hidden, _) => hidden && HiddenSince(c, events[..|events| - 1])
  }

  lemma {:induction false} CallsNeverListen(c: Config, s: Retry, calls: seq<Call>)
    requires !s.listening
    ensures !AfterCalls(c, s, calls).listening
  {
    if calls != [] { CallsNeverListen(c, s, calls[..|calls| - 1]); }
  }

  /** The listener is held exactly while a re-read waits for a hidden tab to be shown; no timer runs meanwhile. */
  lemma {:induction false} ListensWhileHidden(c: Config, events: seq<Event>)
    requires IsRun(c, events)
    ensures Run(c, events).listening <==> HiddenSince(c, events)
    ensures Run(c, events).listening ==> Run(c, events).timer.None?
    decreases |events|
  {
    if events != [] {
      var before, e := events[..|events| - 1], events[|events| - 1];
      ListensWhileHidden(c, before);
      if e.Fire? {
        var s := Run(c, before);
        CallsNeverListen(c, s.(timer := None, attempt := Grown(c, s.attempt)), e.reentry);
      }
    }
  }
}
