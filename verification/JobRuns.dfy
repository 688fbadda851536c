/**
 * What the run route does with one run (apps/jobs/src/app.ts, lines 797-1078):
 * bookkeeping after a success, and the trail a failure leaves in the run history
 * and in the dead-letter queue. Every call it makes may throw.
 */
module JobRuns {
  import opened Options
  import opened DeadLetters
  import opened Replies

  /** What a call gives back: its value, or the error it throws. */
  datatype Outcome<+T> = Done(value: T) | Raised(error: Failure)

  /** How the module load, the input and each pass of the handler went. */
  datatype Pass = Returned(hasMore: bool) | Threw(error: Failure)

  /** `X-Dlq-Rerun-Of` and `X-Dlq-Rerun-Claim`; an empty header counts as absent. */
  datatype Headers = Headers(rerunOf: Option<string>, claim: Option<string>)

  datatype Request = Request(runId: string, payload: nat, headers: Headers, finishedAt: int)

  /** The calls that keep the books: each has a `try` of its own around it. */
  datatype Phase = Kick | SuccessRecord | ErrorRecord | ClaimCheck | Rewrite | DlqPush

  const PHASES := {Kick, SuccessRecord, ErrorRecord, ClaimCheck, Rewrite, DlqPush}

  /** What a call of this phase throws when it throws, and what the reporter then does. */
  datatype Trouble = Trouble(error: Failure, reporter: Outcome<()>)

  /** One run: its passes in order, and how every store, trigger and reporter call went. */
  datatype World = World(
    passes: seq<Pass>, handsOff: bool, trigger: Reply, successRecord: Reply, errorRecord: Reply,
    hasDlq: bool, claimCheck: Reply, held: Option<string>, rounds: seq<Round>, pushAt: Queue, push: Reply,
    troubles: Phase -> Trouble)

  datatype Status = Success | Error

  /** `Escaped`: the catch block itself threw, and the caller gets that error instead of the run's. */
  datatype Response = Ran | RunFailed(error: Failure) | Escaped(error: Failure)

  /** The run-history entries written, the dead-letter writes applied, and whether a fresh request was asked for. */
  datatype Trail = Trail(response: Response, history: seq<Status>, writes: seq<Write>, kicked: bool)

  predicate Present(header: Option<string>) { header.Some? && header.value != "" }

  /** The passes in order; the first one that throws ends them. */
  function PassesOf(passes: seq<Pass>): Outcome<()> {
    if passes == [] then Done(())
    else match passes[0] case Threw(e) => Raised(e) case Returned(_) => PassesOf(passes[1..])
  }

  // ----- The two blocks, with any of their guards in place -----

  /** Which calls, and which reports of their failure, have a `try` around them. */
  datatype Guards = Guards(calls: set<Phase>, reports: set<Phase>)

  /** Around every one. */
  const SOURCE := Guards(PHASES, PHASES)

  /** What leaves the `try` of a call: a guard hands the error to the reporter and drops it. */
  function Leaving(g: Guards, phase: Phase, w: World, threw: bool): Outcome<()>
  {
    var trouble := w.troubles(phase);
    if !threw then Done(())
    else if phase !in g.calls then Raised(trouble.error)
    else if phase !in g.reports then trouble.reporter
    else Done(())
  }

  lemma GuardedCallsNeverThrow(phase: Phase, w: World, threw: bool)
    ensures Leaving(SOURCE, phase, w, threw) == Done(())
  {
    match phase case _ =>
  }

  /** The `try` block: what it throws, the history written and the request for a fresh run. */
  datatype Tried = Tried(outcome: Outcome<()>, history: seq<Status>, kicked: bool)

  function TryBlock(g: Guards, w: World): Tried
  {
    var passes := PassesOf(w.passes);
    if passes.Raised? then Tried(passes, [], false)
    else
      var kicked := w.handsOff && w.trigger.Applied();
      var kick := Leaving(g, Kick, w, w.handsOff && !w.trigger.Answered?);
      if kick.Raised? then Tried(kick, [], kicked)
      else
        Tried(Leaving(g, SuccessRecord, w, !w.successRecord.Answered?),
              if w.successRecord.Applied() then [Success] else [], kicked)
  }

  /** The rerun headers are there, so the claim is looked at. */
  predicate AsksForClaim(r: Request, w: World) {
    w.hasDlq && Present(r.headers.rerunOf) && Present(r.headers.claim)
  }

  predicate HoldsClaim(r: Request, w: World) {
    AsksForClaim(r, w) && w.claimCheck.Answered? && w.held == r.headers.claim
  }

  function FailureOf(r: Request, e: Failure): RerunFailure
    requires r.headers.rerunOf.Some?
  {
    RerunFailure(r.headers.rerunOf.value, r.runId, r.finishedAt, e)
  }

  function ItemOf(r: Request, e: Failure): Item {
    Item(r.runId, r.finishedAt, r.payload, Some(1), e, None, None, 0)
  }

  ghost predicate IsWorld(j: Json, r: Request, w: World) {
    r.headers.rerunOf.Some? ==> AreRounds(j, r.headers.rerunOf.value, w.rounds)
  }

  function Rewrites(j: Json, r: Request, w: World, e: Failure): Recorded
  {
    if HoldsClaim(r, w) then RecordFrom(j, FailureOf(r, e), w.rounds) else Recorded(Some(false), [])
  }

  predicate SaysRecorded(r: Recorded) { r.answer.Some? && r.answer.value }

  function PushOf(j: Json, r: Request, w: World, e: Failure): Write {
    Push(w.pushAt, r.finishedAt, j.stringify(ItemOf(r, e)))
  }

  /** The dead-letter part of the `catch` block: what it throws and what it writes. */
  function BuryBlock(g: Guards, j: Json, r: Request, w: World, e: Failure): (Outcome<()>, seq<Write>)
  {
    var claim := Leaving(g, ClaimCheck, w, AsksForClaim(r, w) && !w.claimCheck.Answered?);
    if !w.hasDlq || claim.Raised? then (claim, [])
    else
      var recorded := Rewrites(j, r, w, e);
      var rewrite := Leaving(g, Rewrite, w, recorded.answer.None?);
      if rewrite.Raised? || SaysRecorded(recorded) then (rewrite, recorded.writes)
      else (Leaving(g, DlqPush, w, !w.push.Answered?),
            recorded.writes + if w.push.Applied() then [PushOf(j, r, w, e)] else [])
  }

  /** The `catch` block for error `e`. */
  function CatchBlock(g: Guards, j: Json, r: Request, w: World, e: Failure): (Outcome<()>, seq<Status>, seq<Write>)
  {
    var history := if w.errorRecord.Applied() then [Error] else [];
    var record := Leaving(g, ErrorRecord, w, !w.errorRecord.Answered?);
    if record.Raised? then (record, history, [])
    else
      var (bury, writes) := BuryBlock(g, j, r, w, e);
      (bury, history, writes)
  }

  function TrailOf(g: Guards, j: Json, r: Request, w: World): Trail
  {
    var Tried(outcome, history, kicked) := TryBlock(g, w);
    match outcome
    case Done(_) => Trail(Ran, history, [], kicked)
    case Raised(e) =>
      var (caught, more, writes) := CatchBlock(g, j, r, w, e);
      Trail(if caught.Done? then RunFailed(e) else Escaped(caught.error), history + more, writes, kicked)
  }

  /** The route. An out-parameter that is `Raised` stands for a throw; the caller's `match` is its `catch`. */
  class RunRoute {
    const adapter: Adapter
    ghost var history: seq<Status>
    ghost var kicked: bool

    constructor (adapter: Adapter)
      ensures this.adapter == adapter && history == [] && !kicked
    {
      this.adapter, history, kicked := adapter, [], false;
    }

    method Trigger(w: World) returns (o: Outcome<()>)
      modifies this`kicked
      ensures o == if w.trigger.Answered? then Done(()) else Raised(w.troubles(Kick).error)
      ensures kicked == (old(kicked) || w.trigger.Applied())
    {
      kicked := kicked || w.trigger.Applied();
      o := if w.trigger.Answered? then Done(()) else Raised(w.troubles(Kick).error);
    }

    method Record(status: Status, reply: Reply, error: Failure) returns (o: Outcome<()>)
      modifies this`history
      ensures o == if reply.Answered? then Done(()) else Raised(error)
      ensures history == old(history) + if reply.Applied() then [status] else []
    {
      if reply.Applied() { history := history + [status]; }
      o := if reply.Answered? then Done(()) else Raised(error);
    }

    /** `reportError`, in its own `try`: whatever the reporter throws is dropped. */
    method Report(error: Failure, reporter: Outcome<()>) {
      match reporter
      case Done(_) =>
      case Raised(_) =>
    }

    method RunPasses(passes: seq<Pass>) returns (o: Outcome<()>)
      ensures o == PassesOf(passes)
    {
      for k := 0 to |passes|
        invariant PassesOf(passes[k..]) == PassesOf(passes)
      {
        assert passes[k..][1..] == passes[k + 1..];
        if passes[k].Threw? { return Raised(passes[k].error); }
      }
      return Done(());
    }

    method Try(w: World) returns (o: Outcome<()>)
      modifies this`history, this`kicked
      ensures o == TryBlock(SOURCE, w).outcome
      ensures history == old(history) + TryBlock(SOURCE, w).history
      ensures kicked == (old(kicked) || TryBlock(SOURCE, w).kicked)
    {
      GuardedCallsNeverThrow(Kick, w, w.handsOff && !w.trigger.Answered?);
      GuardedCallsNeverThrow(SuccessRecord, w, !w.successRecord.Answered?);
      o := RunPasses(w.passes);
      if o.Raised? { return; }
      if w.handsOff {
        var triggered := Trigger(w);
        if triggered.Raised? { Report(triggered.error, w.troubles(Kick).reporter); }
      }
      var recorded := Record(Success, w.successRecord, w.troubles(SuccessRecord).error);
      if recorded.Raised? { Report(recorded.error, w.troubles(SuccessRecord).reporter); }
      return Done(());
    }

    method Bury(r: Request, w: World, e: Failure)
      requires |w.rounds| == MAX_SWAP_ATTEMPTS
      modifies adapter`log
      ensures adapter.log == old(adapter.log) + BuryBlock(SOURCE, adapter.j, r, w, e).1
    {
      var rerunOf := if Present(r.headers.rerunOf) then r.headers.rerunOf else None;
      var rerunClaim := if Present(r.headers.claim) then r.headers.claim else None;
      var holdsClaim := false;
      if w.hasDlq && rerunOf.Some? && rerunClaim.Some? {
        if w.claimCheck.Answered? {
          holdsClaim := w.held == rerunClaim;
        } else {
          Report(w.troubles(ClaimCheck).error, w.troubles(ClaimCheck).reporter);
        }
      }
      var recordedOnEntry := false;
      if w.hasDlq && rerunOf.Some? && holdsClaim {
        var answer := adapter.RecordRerunFailure(FailureOf(r, e), w.rounds);
        if answer.Some? {
          recordedOnEntry := answer.value;
        } else {
          Report(w.troubles(Rewrite).error, w.troubles(Rewrite).reporter);
        }
      }
      if w.hasDlq && !recordedOnEntry {
        var pushed := adapter.PushToDLQ(ItemOf(r, e), w.pushAt, w.push);
        if !pushed { Report(w.troubles(DlqPush).error, w.troubles(DlqPush).reporter); }
      }
    }

    method Handle(r: Request, w: World) returns (response: Response)
      requires |w.rounds| == MAX_SWAP_ATTEMPTS
      modifies this`history, this`kicked, adapter`log
      ensures kicked == (old(kicked) || TrailOf(SOURCE, adapter.j, r, w).kicked)
      ensures history == old(history) + TrailOf(SOURCE, adapter.j, r, w).history
      ensures adapter.log == old(adapter.log) + TrailOf(SOURCE, adapter.j, r, w).writes
      ensures response == TrailOf(SOURCE, adapter.j, r, w).response
    {
      var tried := Try(w);
      if tried.Done? { return Ran; }
      var recorded := Record(Error, w.errorRecord, w.troubles(ErrorRecord).error);
      if recorded.Raised? { Report(recorded.error, w.troubles(ErrorRecord).reporter); }
      Bury(r, w, tried.error);
      return RunFailed(tried.error);
    }
  }

  // ----- Bookkeeping never decides the outcome -----

  predicate AllReturned(passes: seq<Pass>) { forall k :: 0 <= k < |passes| ==> passes[k].Returned? }

  /** The response the passes alone call for. */
  predicate IsOwn(passes: seq<Pass>, response: Response) {
    match response
    case Ran => AllReturned(passes)
    case RunFailed(e) =>
      exists k :: 0 <= k < |passes| && passes[k] == Threw(e) && AllReturned(passes[..k])
    case Escaped(_) => false
  }

  lemma {:induction false} PassesDecide(passes: seq<Pass>)
    ensures PassesOf(passes).Done? <==> AllReturned(passes)
    ensures forall e :: IsOwn(passes, RunFailed(e)) <==> PassesOf(passes) == Raised(e)
    decreases |passes|
  {
    if passes != [] {
      var rest := passes[1..];
      PassesDecide(rest);
      assert AllReturned(passes) <==> passes[0].Returned? && AllReturned(rest) by {
        assert forall k :: 0 < k < |passes| ==> passes[k] == rest[k - 1];
      }
      forall e ensures IsOwn(passes, RunFailed(e)) <==> PassesOf(passes) == Raised(e) { FirstThrow(passes, e); }
    }
  }

  lemma FirstThrow(passes: seq<Pass>, e: Failure)
    requires passes != []
    ensures IsOwn(passes, RunFailed(e)) <==>
            if passes[0].Threw? then passes[0].error == e else IsOwn(passes[1..], RunFailed(e))
  {
    var rest := passes[1..];
    if passes[0].Threw? {
      assert AllReturned(passes[..0]);
      assert forall k :: 0 < k <= |passes| ==> passes[..k][0] == passes[0];
    } else {
      forall k | 0 <= k < |rest| ensures AllReturned(rest[..k]) <==> AllReturned(passes[..k + 1]) {
        assert forall i :: 0 <= i < k ==> rest[..k][i] == passes[..k + 1][i + 1];
        assert passes[..k + 1] == [passes[0]] + rest[..k];
      }
      assert forall k :: 0 <= k < |rest| ==> rest[k] == passes[k + 1];
      if k :| 0 <= k < |rest| && rest[k] == Threw(e) && AllReturned(rest[..k]) {
        assert passes[k + 1] == Threw(e) && AllReturned(passes[..k + 1]);
      }
      if k :| 0 <= k < |passes| && passes[k] == Threw(e) && AllReturned(passes[..k]) {
        assert rest[k - 1] == Threw(e) && AllReturned(rest[..k - 1]);
      }
    }
  }

  lemma TryThrowsOnlyForAPass(w: World)
    ensures var tried := TryBlock(SOURCE, w);
            && (tried.outcome.Raised? <==> PassesOf(w.passes).Raised?) && Error !in tried.history
            && (tried.outcome.Raised? ==> tried.outcome == PassesOf(w.passes) && tried.history == [] && !tried.kicked)
  {
    GuardedCallsNeverThrow(Kick, w, w.handsOff && !w.trigger.Answered?);
    GuardedCallsNeverThrow(SuccessRecord, w, !w.successRecord.Answered?);
  }

  lemma CatchNeverThrows(j: Json, r: Request, w: World, e: Failure)
    ensures var (caught, history, _) := CatchBlock(SOURCE, j, r, w, e); caught == Done(()) && Success !in history
  {
    GuardedCallsNeverThrow(ErrorRecord, w, !w.errorRecord.Answered?);
    GuardedCallsNeverThrow(ClaimCheck, w, AsksForClaim(r, w) && !w.claimCheck.Answered?);
    GuardedCallsNeverThrow(Rewrite, w, Rewrites(j, r, w, e).answer.None?);
    GuardedCallsNeverThrow(DlqPush, w, !w.push.Answered?);
  }

  /**
   * Whatever the tracker, the trigger, the store and the reporter throw, the
   * response is the one the passes call for; a run that succeeds leaves no error
   * record and no dead letter, and a failed one no success record.
   */
  lemma BookkeepingNeverDecides(j: Json, r: Request, w: World)
    ensures var t := TrailOf(SOURCE, j, r, w);
            && IsOwn(w.passes, t.response)
            && (t.response.Ran? ==> Error !in t.history && t.writes == [])
            && (t.response.RunFailed? ==> Success !in t.history && !t.kicked)
  {
    PassesDecide(w.passes);
    TryThrowsOnlyForAPass(w);
    var passes := PassesOf(w.passes);
    if passes.Raised? { CatchNeverThrows(j, r, w, passes.error); }
  }

  /** These guards keep the response the passes' own in every world. */
  ghost predicate ResponseIsOwn(g: Guards, j: Json) {
    forall r: Request, w: World :: IsWorld(j, r, w) ==> IsOwn(w.passes, TrailOf(g, j, r, w).response)
  }

  const RERUN := Request("run", 0, Headers(Some("entry"), Some("token")), 0)

  /** A rerun whose every call throws, and every report of it; only the claim check may answer. */
  function Broken(passes: seq<Pass>, claimCheck: Reply): World {
    var round := Round(map[], None, Failed, map[], Failed);
    World(passes, true, Failed, Failed, Failed, true, claimCheck, Some("token"), [round, round, round], map[], Failed,
          _ => Trouble(Failure("call", None), Raised(Failure("report", None))))
  }

  lemma BrokenIsWorld(j: Json, passes: seq<Pass>, claimCheck: Reply)
    ensures IsWorld(j, RERUN, Broken(passes, claimCheck))
  {
    assert EntriesOf(j, map[], "entry") == {};
  }

  lemma MissingGuardShows(g: Guards, j: Json, phase: Phase)
    requires phase !in g.calls || phase !in g.reports
    ensures !ResponseIsOwn(g, j)
  {
    var passes := if phase.Kick? || phase.SuccessRecord? then [] else [Threw(Failure("own", None))];
    var w := Broken(passes, if phase.Rewrite? then Answered else Failed);
    BrokenIsWorld(j, passes, w.claimCheck);
    assert !IsOwn(passes, TrailOf(g, j, RERUN, w).response);
  }

  /** None of the twelve guards can be taken away: without it some throw becomes the run's outcome. */
  lemma EveryGuardIsNeeded(g: Guards, j: Json)
    ensures ResponseIsOwn(g, j) <==> g == SOURCE
  {
    forall phase: Phase ensures phase in PHASES { GuardedCallsNeverThrow(phase, Broken([], Failed), true); }
    if phase: Phase :| phase !in g.calls || phase !in g.reports {
      MissingGuardShows(g, j, phase);
    } else {
      assert g.calls == PHASES && g.reports == PHASES;
      forall r: Request, w: World ensures IsOwn(w.passes, TrailOf(g, j, r, w).response) {
        BookkeepingNeverDecides(j, r, w);
      }
    }
  }

  // ----- No failed run is lost -----

  /** The member's entry names this run: it is the run's own, or the run rewrote it last. */
  predicate NamesRun(j: Json, raw: string, runId: string) {
    j.parse(raw).Some? && (j.parse(raw).value.id == runId || j.parse(raw).value.lastRunId == Some(runId))
  }

  /** The write leaves such an entry. */
  ghost predicate Leaves(j: Json, w: Write, runId: string) { w.raw in w.After() && NamesRun(j, w.raw, runId) }

  /** How many writes left one. */
  ghost function Traces(j: Json, writes: seq<Write>, runId: string): nat {
    if writes == [] then 0 else (if Leaves(j, writes[0], runId) then 1 else 0) + Traces(j, writes[1..], runId)
  }

  lemma TracesOfOne(j: Json, writes: seq<Write>, runId: string)
    requires |writes| <= 1
    ensures Traces(j, writes, runId) == if writes != [] && Leaves(j, writes[0], runId) then 1 else 0
  {
    if writes != [] { assert writes[1..] == []; }
  }

  lemma {:induction false} TracesAdd(j: Json, a: seq<Write>, b: seq<Write>, runId: string)
    ensures Traces(j, a + b, runId) == Traces(j, a, runId) + Traces(j, b, runId)
    decreases |a|
  {
    if a == [] {
      assert a + b == b;
    } else {
      assert (a + b)[1..] == a[1..] + b;
      TracesAdd(j, a[1..], b, runId);
    }
  }

  /** Fewer than 500 entries are later than the pushed one. */
  predicate HasRoom(w: Write)
    requires w.Push?
  {
    |LaterThan(w.before[w.raw := w.score], w.raw)| < MAX_PER_QUEUE
  }

  /** A rewrite round that Redis applied and whose reply was lost. */
  ghost predicate LosesItsReply(n: Round) {
    n.found.Some? && n.found.value.raw in n.at && n.swap.ReplyLost?
  }

  lemma {:induction false} RewriteRecords(j: Json, f: RerunFailure, rounds: seq<Round>)
    requires RoundTrips(j) && f.runId != ""
    requires forall n :: n in rounds ==> IsFound(j, n.seen, f.jobId, n.found)
    ensures var recorded := RecordFrom(j, f, rounds);
            && |recorded.writes| <= 1
            && (forall w :: w in recorded.writes ==> w.Swap? && Leaves(j, w, f.runId) && HasId(j, w.prior, f.jobId))
            && (SaysRecorded(recorded) ==> |recorded.writes| == 1)
            && (recorded.answer.Some? && !SaysRecorded(recorded) ==> recorded.writes == [])
            && (recorded.answer.None? && recorded.writes != [] ==> exists n :: n in rounds && LosesItsReply(n))
    decreases |rounds|
  {
    if rounds != [] {
      var n := rounds[0];
      if n.scan.Answered? && n.found.Some? {
        RewriteTouchesOneEntry(j, f, n, "");
        assert j.parse(j.stringify(Next(n.found.value.item, f))) == Some(Next(n.found.value.item, f));
        if n.found.value.raw in n.at && n.swap.Applied() {
          assert n in rounds && (n.swap.ReplyLost? ==> LosesItsReply(n));
        } else {
          assert n in rounds && forall m :: m in rounds[1..] ==> m in rounds;
          RewriteRecords(j, f, rounds[1..]);
        }
      }
    }
  }

  /** Did the rewrite throw after Redis had applied it? */
  ghost predicate RewriteThrewAfterApplying(j: Json, r: Request, w: World, e: Failure)
  {
    var recorded := Rewrites(j, r, w, e);
    recorded.answer.None? && recorded.writes != []
  }

  /** The rewrite of this run, as `RewriteRecords` has it; without the claim there is none. */
  lemma RunRewrites(j: Json, r: Request, w: World, e: Failure)
    requires RoundTrips(j) && IsWorld(j, r, w) && r.runId != ""
    ensures var recorded := Rewrites(j, r, w, e);
            && |recorded.writes| <= 1
            && (forall x :: x in recorded.writes ==>
                  x.Swap? && Leaves(j, x, r.runId) && HoldsClaim(r, w) && HasId(j, x.prior, r.headers.rerunOf.value))
            && (SaysRecorded(recorded) ==> |recorded.writes| == 1)
            && (recorded.answer.Some? && !SaysRecorded(recorded) ==> recorded.writes == [])
  {
    if HoldsClaim(r, w) { RewriteRecords(j, FailureOf(r, e), w.rounds); }
  }

  lemma PushLeavesIff(j: Json, r: Request, w: World, e: Failure)
    requires RoundTrips(j)
    ensures Leaves(j, PushOf(j, r, w, e), r.runId) <==> HasRoom(PushOf(j, r, w, e))
  {
    var raw := j.stringify(ItemOf(r, e));
    PushKeepsIff(w.pushAt, raw, r.finishedAt, raw);
    assert j.parse(raw) == Some(ItemOf(r, e));
  }

  /** What a failed run writes, with a dead-letter queue. */
  lemma FailureWrites(j: Json, r: Request, w: World)
    requires PassesOf(w.passes).Raised? && w.hasDlq
    ensures var e := PassesOf(w.passes).error; var recorded := Rewrites(j, r, w, e);
            TrailOf(SOURCE, j, r, w).writes
            == recorded.writes
               + if !SaysRecorded(recorded) && w.push.Applied() then [PushOf(j, r, w, e)] else []
  {
    GuardedCallsNeverThrow(ErrorRecord, w, !w.errorRecord.Answered?);
    GuardedCallsNeverThrow(ClaimCheck, w, AsksForClaim(r, w) && !w.claimCheck.Answered?);
    GuardedCallsNeverThrow(Rewrite, w, Rewrites(j, r, w, PassesOf(w.passes).error).answer.None?);
  }

  /**
   * With a dead-letter queue, a failed run leaves an entry naming it whenever a
   * rewrite was applied, or the push was and the queue had room; it leaves one,
   * or two when the rewrite threw after Redis had applied it. An entry is
   * rewritten only under its live claim.
   */
  lemma NoFailedRunIsLost(j: Json, r: Request, w: World)
    requires RoundTrips(j) && IsWorld(j, r, w) && r.runId != "" && w.hasDlq && !AllReturned(w.passes)
    ensures PassesOf(w.passes).Raised?
    ensures var t := TrailOf(SOURCE, j, r, w); var e := PassesOf(w.passes).error;
            && Traces(j, t.writes, r.runId)
               == (if Rewrites(j, r, w, e).writes != [] then 1 else 0)
                  + (if !SaysRecorded(Rewrites(j, r, w, e)) && w.push.Applied() && HasRoom(PushOf(j, r, w, e))
                     then 1 else 0)
            && (w.push.Applied() && HasRoom(PushOf(j, r, w, e)) ==> Traces(j, t.writes, r.runId) > 0)
            && (Traces(j, t.writes, r.runId) > 1 ==> RewriteThrewAfterApplying(j, r, w, e))
            && (forall x :: x in t.writes && x.Swap? ==>
                  HoldsClaim(r, w) && HasId(j, x.prior, r.headers.rerunOf.value))
  {
    PassesDecide(w.passes);
    var e := PassesOf(w.passes).error;
    var recorded := Rewrites(j, r, w, e);
    FailureWrites(j, r, w);
    PushLeavesIff(j, r, w, e);
    RunRewrites(j, r, w, e);
    TracesAdd(j, recorded.writes, if !SaysRecorded(recorded) && w.push.Applied() then [PushOf(j, r, w, e)] else [],
              r.runId);
    TracesOfOne(j, recorded.writes, r.runId);
    TracesOfOne(j, [PushOf(j, r, w, e)], r.runId);
  }

  /** A failed run is lost exactly when no rewrite was applied and the push had no effect or no room. */
  lemma LostIff(j: Json, r: Request, w: World)
    requires RoundTrips(j) && IsWorld(j, r, w) && r.runId != "" && w.hasDlq && !AllReturned(w.passes)
    ensures PassesOf(w.passes).Raised?
    ensures var e := PassesOf(w.passes).error;
            (forall x :: x in TrailOf(SOURCE, j, r, w).writes ==> !Leaves(j, x, r.runId)) <==>
            Rewrites(j, r, w, e).writes == [] && (w.push.Failed? || !HasRoom(PushOf(j, r, w, e)))
  {
    PassesDecide(w.passes);
    var e := PassesOf(w.passes).error;
    FailureWrites(j, r, w);
    PushLeavesIff(j, r, w, e);
    RunRewrites(j, r, w, e);
    var recorded := Rewrites(j, r, w, e);
    if recorded.writes != [] {
      assert recorded.writes[0] in TrailOf(SOURCE, j, r, w).writes;
    } else if w.push.Applied() {
      assert PushOf(j, r, w, e) in TrailOf(SOURCE, j, r, w).writes;
    }
  }

  // ----- What is in the queue at the end -----

  ghost function EntriesNaming(j: Json, q: Queue, runId: string): set<string> {
    set raw | raw in q && NamesRun(j, raw, runId)
  }

  ghost function AfterAll(q: Queue, writes: seq<Write>): Queue {
    if writes == [] then q else writes[|writes| - 1].After()
  }

  /** Nobody else writes from `q` on: every command of the run meets what the run itself left. */
  ghost predicate Undisturbed(j: Json, r: Request, w: World, e: Failure, q: Queue) {
    && (forall n :: n in w.rounds ==> n.at == q)
    && w.pushAt == AfterAll(q, Rewrites(j, r, w, e).writes)
  }

  lemma {:induction false} RewriteMeets(j: Json, f: RerunFailure, rounds: seq<Round>, runId: string, q: Queue)
    requires RoundTrips(j) && runId != "" && f.runId == runId && forall n :: n in rounds ==> n.at == q
    ensures forall x :: x in RecordFrom(j, f, rounds).writes ==>
              x.Swap? && x.before == q && x.prior in q
              && j.parse(x.raw).Some? && j.parse(x.raw).value.lastRunId == Some(runId)
    decreases |rounds|
  {
    if rounds != [] {
      var n := rounds[0];
      assert n in rounds && forall m :: m in rounds[1..] ==> m in rounds;
      if n.found.Some? {
        assert j.parse(j.stringify(Next(n.found.value.item, f))) == Some(Next(n.found.value.item, f));
      }
      RewriteMeets(j, f, rounds[1..], runId, q);
    }
  }

  /** A write adds no member but its own. */
  lemma WriteAddsItsOwn(w: Write, m: string)
    ensures m in w.After() ==> m in w.before || m == w.raw
  {
    if w.Push? { PushKeepsIff(w.before, w.raw, w.score, m); }
  }

  lemma SwapDoesNotGrow(w: Write)
    requires w.Swap? && w.prior in w.before
    ensures |w.After()| <= |w.before|
  {
    var added := w.before[w.raw := w.score];
    assert w.After().Keys <= w.before.Keys - {w.prior} + {w.raw};
    SubsetIsNoLarger(w.After().Keys, w.before.Keys - {w.prior} + {w.raw});
    assert |w.After().Keys| == |w.After()| && |w.before.Keys| == |w.before|;
  }

  /** One of these writes put the member there. */
  ghost predicate PutBy(writes: seq<Write>, raw: string) { exists x :: x in writes && x.raw == raw }

  lemma PutByOneMore(writes: seq<Write>, w: Write, raw: string)
    ensures PutBy(writes + [w], raw) <==> PutBy(writes, raw) || raw == w.raw
  {
    assert w in writes + [w];
    if x :| x in writes && x.raw == raw { assert x in writes + [w]; }
  }

  /** The run's entries after these writes are those the writes left and nothing took away. */
  ghost predicate NamesTheirOwn(j: Json, q: Queue, writes: seq<Write>, runId: string) {
    forall raw :: raw in EntriesNaming(j, AfterAll(q, writes), runId) <==>
                  raw in AfterAll(q, writes) && PutBy(writes, raw)
  }

  lemma LastWriteDecides(q: Queue, writes: seq<Write>, w: Write)
    ensures AfterAll(q, writes + [w]) == w.After()
  {
    assert (writes + [w])[|writes + [w]| - 1] == w;
  }

  lemma OneMoreWrite(j: Json, q: Queue, writes: seq<Write>, w: Write, runId: string)
    requires NamesTheirOwn(j, q, writes, runId) && w.before == AfterAll(q, writes) && NamesRun(j, w.raw, runId)
    ensures NamesTheirOwn(j, q, writes + [w], runId)
  {
    var after := AfterAll(q, writes + [w]);
    LastWriteDecides(q, writes, w);
    forall raw ensures raw in EntriesNaming(j, after, runId) <==> raw in after && PutBy(writes + [w], raw) {
      WriteAddsItsOwn(w, raw);
      PutByOneMore(writes, w, raw);
      assert raw in EntriesNaming(j, w.before, runId) <==> raw in w.before && PutBy(writes, raw);
    }
  }

  lemma NamedAfterRewrite(j: Json, q: Queue, rewrites: seq<Write>, runId: string)
    requires |rewrites| <= 1 && EntriesNaming(j, q, runId) == {}
    requires forall x :: x in rewrites ==> x.Swap? && x.before == q && NamesRun(j, x.raw, runId)
    ensures NamesTheirOwn(j, q, rewrites, runId)
  {
    var none: seq<Write> := [];
    assert NamesTheirOwn(j, q, none, runId);
    if rewrites != [] {
      OneMoreWrite(j, q, none, rewrites[0], runId);
      assert none + [rewrites[0]] == rewrites;
    }
  }

  /** With room, what a rewrite left is one entry or none. */
  lemma CountAfterRewrite(j: Json, q: Queue, rewrites: seq<Write>, runId: string)
    requires |rewrites| <= 1 && NamesTheirOwn(j, q, rewrites, runId)
    requires forall x :: x in rewrites ==> x.Swap? && x.before == q && x.prior in q
    ensures |EntriesNaming(j, AfterAll(q, rewrites), runId)| == |rewrites|
    ensures |AfterAll(q, rewrites)| <= |q|
  {
    var named := EntriesNaming(j, AfterAll(q, rewrites), runId);
    if rewrites == [] {
      assert named == {};
    } else {
      SwapDoesNotGrow(rewrites[0]);
      assert rewrites[0] in rewrites && PutBy(rewrites, rewrites[0].raw);
      assert named == {rewrites[0].raw};
    }
  }

  /** With room, a push adds one entry and takes none away. */
  lemma CountAfterPush(j: Json, w: Write, runId: string)
    requires w.Push? && |w.before| < MAX_PER_QUEUE && NamesRun(j, w.raw, runId)
    requires w.raw !in EntriesNaming(j, w.before, runId)
    ensures |EntriesNaming(j, w.After(), runId)| == |EntriesNaming(j, w.before, runId)| + 1
  {
    PushPrunesNothingIff(w.before, w.raw, w.score);
    assert EntriesNaming(j, w.After(), runId) == EntriesNaming(j, w.before, runId) + {w.raw};
  }

  /**
   * In a queue that nobody else writes to and that named the run nowhere, the
   * entries naming it at the end are those it wrote that are still there, and
   * with room in the queue that is every one: one for an applied rewrite, one
   * for an applied push.
   */
  lemma QueueHoldsTheRun(j: Json, r: Request, w: World, q: Queue)
    requires RoundTrips(j) && IsWorld(j, r, w) && r.runId != "" && w.hasDlq && PassesOf(w.passes).Raised?
    requires Undisturbed(j, r, w, PassesOf(w.passes).error, q) && EntriesNaming(j, q, r.runId) == {}
    ensures var writes := TrailOf(SOURCE, j, r, w).writes; var recorded := Rewrites(j, r, w, PassesOf(w.passes).error);
            var named := EntriesNaming(j, AfterAll(q, writes), r.runId);
            && NamesTheirOwn(j, q, writes, r.runId)
            && (|q| < MAX_PER_QUEUE ==>
                  |named| == (if recorded.writes != [] then 1 else 0)
                             + if !SaysRecorded(recorded) && w.push.Applied() then 1 else 0)
  {
    var e := PassesOf(w.passes).error;
    var recorded, push := Rewrites(j, r, w, e), PushOf(j, r, w, e);
    FailureWrites(j, r, w);
    RunRewrites(j, r, w, e);
    if HoldsClaim(r, w) { RewriteMeets(j, FailureOf(r, e), w.rounds, r.runId, q); }
    assert j.parse(push.raw) == Some(ItemOf(r, e));
    NamedAfterRewrite(j, q, recorded.writes, r.runId);
    var pushes := if !SaysRecorded(recorded) && w.push.Applied() then [push] else [];
    if pushes == [] {
      assert recorded.writes + pushes == recorded.writes;
    } else {
      OneMoreWrite(j, q, recorded.writes, push, r.runId);
    }
    if |q| < MAX_PER_QUEUE {
      CountAfterRewrite(j, q, recorded.writes, r.runId);
      if pushes != [] {
        LastWriteDecides(q, recorded.writes, push);
        CountAfterPush(j, push, r.runId);
      }
    }
  }
}
