/**
 * What a run leaves behind, said of the request and of how each call went: the
 * run history, the request for a fresh run, and every dead-letter write.
 */
module JobEffects {
  import opened Options
  import opened DeadLetters
  import opened Replies
  import opened JobRuns

  /** The passes went well up to the one at `k`, which threw `e`. */
  predicate FailsAt(passes: seq<Pass>, k: nat, e: Failure) {
    k < |passes| && passes[k] == Threw(e) && AllReturned(passes[..k])
  }

  lemma FailureIsThe(passes: seq<Pass>, k: nat, e: Failure)
    requires FailsAt(passes, k, e)
    ensures PassesOf(passes) == Raised(e)
  {
    PassesDecide(passes);
    assert IsOwn(passes, RunFailed(e));
  }

  /** The one history entry is the run's own, and only a run that went well asks for a fresh one, when it is to. */
  lemma HistoryAndKick(j: Json, r: Request, w: World)
    ensures var t := TrailOf(SOURCE, j, r, w); var ok := AllReturned(w.passes);
            && t.history == (if ok && w.successRecord != Failed then [Success]
                             else if !ok && w.errorRecord != Failed then [Error] else [])
            && (t.kicked <==> ok && w.handsOff && w.trigger != Failed)
            && (ok || !w.hasDlq ==> t.writes == [])
  {
    PassesDecide(w.passes);
    GuardedCallsNeverThrow(Kick, w, w.handsOff && !w.trigger.Answered?);
  }

  /** The rerun headers are both there, the claim check answered, and the claim it found live is the header's. */
  predicate HasLiveClaim(r: Request, w: World) {
    && r.headers.rerunOf.Some? && r.headers.rerunOf.value != ""
    && r.headers.claim.Some? && r.headers.claim.value != ""
    && w.claimCheck == Answered && w.held == r.headers.claim
  }

  /** The entry a failed run pushes. */
  function OwnEntry(j: Json, r: Request, w: World, e: Failure): Write {
    Push(w.pushAt, r.finishedAt, j.stringify(Item(r.runId, r.finishedAt, r.payload, Some(1), e, None, None, 0)))
  }

  function PushIfTaken(j: Json, r: Request, w: World, e: Failure): seq<Write> {
    if w.push != Failed then [OwnEntry(j, r, w, e)] else []
  }

  /** Without the live claim no entry is rewritten: a failed run is pushed as an entry of its own. */
  lemma WithoutClaimTheRunIsPushed(j: Json, r: Request, w: World, k: nat, e: Failure)
    requires FailsAt(w.passes, k, e) && w.hasDlq && !HasLiveClaim(r, w)
    ensures TrailOf(SOURCE, j, r, w).writes == PushIfTaken(j, r, w, e)
  {
    FailureIsThe(w.passes, k, e);
    FailureWrites(j, r, w);
  }

  /** An entry is rewritten only by a failed run that holds its live claim. */
  lemma RewriteNeedsTheLiveClaim(j: Json, r: Request, w: World)
    ensures (exists x :: x in TrailOf(SOURCE, j, r, w).writes && x.Swap?) ==>
              w.hasDlq && !AllReturned(w.passes) && HasLiveClaim(r, w)
  {
    PassesDecide(w.passes);
    HistoryAndKick(j, r, w);
    if w.hasDlq && PassesOf(w.passes).Raised? {
      FailureWrites(j, r, w);
    }
  }

  // ----- Under the claim -----

  /** The swap answers that the member it was built from is no longer there. */
  predicate Misses(n: Round) {
    n.scan == Answered && n.found.Some? && n.found.value.raw !in n.at && n.swap == Answered
  }

  /** The swap lands. */
  predicate Lands(n: Round) {
    n.scan == Answered && n.found.Some? && n.found.value.raw in n.at && n.swap != Failed
  }

  /** The entry with this failure counted in it. */
  function Counted(r: Request, e: Failure, item: Item): Item {
    Item(item.id, r.finishedAt, item.payload,
         Some(if item.attempt.Some? then item.attempt.value + 1 else 2), e,
         Some(if item.firstFailedAt.Some? then item.firstFailedAt.value else item.failedAt),
         if r.runId == "" then item.lastRunId else Some(r.runId), item.other)
  }

  function Rewritten(j: Json, r: Request, e: Failure, n: Round): Write
    requires n.found.Some?
  {
    Swap(n.at, n.found.value.raw, r.finishedAt, j.stringify(Counted(r, e, n.found.value.item)))
  }

  /** What a round that does not miss tells the caller: recorded, no such entry, or a throw. */
  function AnswerOf(n: Round): Option<bool> {
    if n.scan == Answered && n.found.None? then Some(false)
    else if Lands(n) && n.swap == Answered then Some(true)
    else None
  }

  /** The first round that does not miss decides what is written and what is answered. */
  lemma {:induction false} FirstHitDecides(j: Json, r: Request, e: Failure, rounds: seq<Round>, k: nat)
    requires r.headers.rerunOf.Some? && k < |rounds| && !Misses(rounds[k])
    requires forall m :: 0 <= m < k ==> Misses(rounds[m])
    ensures var recorded := RecordFrom(j, FailureOf(r, e), rounds);
            && recorded.writes == (if Lands(rounds[k]) then [Rewritten(j, r, e, rounds[k])] else [])
            && recorded.answer == AnswerOf(rounds[k])
  {
    if k > 0 {
      assert Misses(rounds[0]);
      FirstHitDecides(j, r, e, rounds[1..], k - 1);
    }
  }

  lemma {:induction false} AllMissesGiveUp(j: Json, f: RerunFailure, rounds: seq<Round>)
    requires forall n :: n in rounds ==> Misses(n)
    ensures RecordFrom(j, f, rounds) == Recorded(None, [])
  {
    if rounds != [] {
      assert Misses(rounds[0]) && forall n :: n in rounds[1..] ==> n in rounds;
      AllMissesGiveUp(j, f, rounds[1..]);
    }
  }

  /**
   * Under the live claim a failed run rewrites the entry in the first round that
   * does not miss, if that lands; unless Redis then says so, it is pushed too.
   */
  lemma UnderClaimFirstHitDecides(j: Json, r: Request, w: World, k: nat, e: Failure, n: nat)
    requires FailsAt(w.passes, k, e) && w.hasDlq && HasLiveClaim(r, w)
    requires n < |w.rounds| && !Misses(w.rounds[n]) && forall m :: 0 <= m < n ==> Misses(w.rounds[m])
    ensures TrailOf(SOURCE, j, r, w).writes
            == (if Lands(w.rounds[n]) then [Rewritten(j, r, e, w.rounds[n])] else [])
               + (if Lands(w.rounds[n]) && w.rounds[n].swap == Answered then [] else PushIfTaken(j, r, w, e))
  {
    FailureIsThe(w.passes, k, e);
    FailureWrites(j, r, w);
    FirstHitDecides(j, r, e, w.rounds, n);
  }

  /** When every round misses, the run is pushed. */
  lemma UnderClaimAllMiss(j: Json, r: Request, w: World, k: nat, e: Failure)
    requires FailsAt(w.passes, k, e) && w.hasDlq && HasLiveClaim(r, w)
    requires forall n :: n in w.rounds ==> Misses(n)
    ensures TrailOf(SOURCE, j, r, w).writes == PushIfTaken(j, r, w, e)
  {
    FailureIsThe(w.passes, k, e);
    FailureWrites(j, r, w);
    AllMissesGiveUp(j, FailureOf(r, e), w.rounds);
  }
}
