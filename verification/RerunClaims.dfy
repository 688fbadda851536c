/**
 * Reruns of one dead letter under its claim
 * (packages/adapters/src/job-diagnostics/redis-dlq-adapter.ts, lines 103-157
 * and 513-681): `SET NX EX` with a fresh token, a rerun that may break off
 * without an answer, and a compare-and-delete release, interleaved.
 */
module RerunClaims {
  import opened Options
  import opened Replies

  /** Seconds. */
  const RERUN_CLAIM_TTL := 330

  type Token = nat

  /** The claim key: whose token it holds, and when it was set. */
  datatype Claim = Claim(token: Token, takenAt: nat)

  /**
   * Where one rerun stands: awaiting the claim's reply, awaiting the run (until
   * when the run itself is going, whatever becomes of the request), about to
   * release, done. `takenAt` is when its claim was set.
   */
  datatype Stage =
    | Claiming
    | Waiting(takenAt: nat)
    | BrokenOff(takenAt: nat)
    | Releasing
    | Done

  datatype System = System(now: nat, claim: Option<Claim>, reruns: map<Token, Stage>)

  const IDLE := System(0, None, map[])

  /**
   * `Set`: the command reaches Redis, and its reply is the caller's, or lost.
   * `BreakOff`: the request gives up, and the run may still be going; `RunEnds`
   * then ends it. `Refused`: nothing was started (no such entry, a failed read).
   */
  datatype Event =
    | Begin(token: Token)
    | Set(token: Token, reply: Reply)
    | Answer(token: Token)
    | Refused(token: Token)
    | BreakOff(token: Token)
    | RunEnds(token: Token)
    | Release(token: Token, reply: Reply)
    | Expire
    | Tick(seconds: nat)

  function At(s: System, t: Token, stage: Stage): System { s.(reruns := s.reruns[t := stage]) }

  predicate Enabled(s: System, e: Event) {
    match e
    case Begin(t) => t !in s.reruns
    case Set(t, _) => t in s.reruns && s.reruns[t].Claiming?
    case Answer(t) => t in s.reruns && s.reruns[t].Waiting?
    case Refused(t) => t in s.reruns && s.reruns[t].Waiting?
    case BreakOff(t) => t in s.reruns && s.reruns[t].Waiting?
    case RunEnds(t) => t in s.reruns && s.reruns[t].BrokenOff?
    case Release(t, _) => t in s.reruns && s.reruns[t].Releasing?
    case Expire => s.claim.Some? && s.now >= s.claim.value.takenAt + RERUN_CLAIM_TTL
    case Tick(_) => true
  }

  /** `SET key token EX 330 NX` */
  function Taken(s: System, t: Token, reply: Reply): System {
    if s.claim.None? && reply.Applied() then s.(claim := Some(Claim(t, s.now))) else s
  }

  /** `RELEASE_RERUN_CLAIM_LUA`: the key goes only while it holds this token. */
  function Released(s: System, t: Token, reply: Reply): System {
    if s.claim.Some? && s.claim.value.token == t && reply.Applied() then s.(claim := None) else s
  }

  function Step(s: System, e: Event): System
    requires Enabled(s, e)
  {
    match e
    case Begin(t) => At(s, t, Claiming)
    case Set(t, reply) =>
      if !reply.Answered? then At(Taken(s, t, reply), t, Releasing)
      else if s.claim.None? then At(Taken(s, t, reply), t, Waiting(s.now))
      else At(s, t, Done)
    case Answer(t) => At(s, t, Releasing)
    case Refused(t) => At(s, t, Releasing)
    case BreakOff(t) => At(s, t, BrokenOff(s.reruns[t].takenAt))
    case RunEnds(t) => At(s, t, Done)
    case Release(t, reply) => At(Released(s, t, reply), t, Done)
    case Expire => s.(claim := None)
    case Tick(seconds) => s.(now := s.now + seconds)
  }

  predicate ValidRun(events: seq<Event>)
    decreases |events|, 0
  {
    events == [] ||
    (ValidRun(events[..|events| - 1]) && Enabled(Exec(events[..|events| - 1]), events[|events| - 1]))
  }

  function Exec(events: seq<Event>): System
    requires ValidRun(events)
    decreases |events|, 1
  {
    if events == [] then IDLE else Step(Exec(events[..|events| - 1]), events[|events| - 1])
  }

  /** The job may be running for this rerun. */
  predicate MayRun(stage: Stage) { stage.Waiting? || stage.BrokenOff? }

  /** The rerun's claim has not had time to expire. */
  predicate IsYoung(s: System, t: Token) {
    t in s.reruns && MayRun(s.reruns[t]) && s.now < s.reruns[t].takenAt + RERUN_CLAIM_TTL
  }

  /** `holdsRerunClaim` */
  predicate HoldsRerunClaim(s: System, t: Token) { s.claim.Some? && s.claim.value.token == t }

  /** A young run's claim is live, and a claim's token has been used. */
  ghost predicate Inv(s: System) {
    && (s.claim.Some? ==> s.claim.value.token in s.reruns && !s.reruns[s.claim.value.token].Claiming?)
    && forall t :: IsYoung(s, t) ==> s.claim == Some(Claim(t, s.reruns[t].takenAt))
  }

  lemma StepKeepsInv(s: System, e: Event)
    requires Inv(s) && Enabled(s, e)
    ensures Inv(Step(s, e))
  {
    var after := Step(s, e);
    forall t | IsYoung(after, t) ensures after.claim == Some(Claim(t, after.reruns[t].takenAt)) {
      assert t in s.reruns;
      if MayRun(s.reruns[t]) { assert IsYoung(s, t); }
    }
  }

  lemma {:induction false} RunKeepsInv(events: seq<Event>)
    requires ValidRun(events)
    ensures Inv(Exec(events))
    decreases |events|
  {
    if events != [] {
      RunKeepsInv(events[..|events| - 1]);
      StepKeepsInv(Exec(events[..|events| - 1]), events[|events| - 1]);
    }
  }

  /**
   * However claims are contended, replies lost, requests broken off and
   * releases missed: two reruns of one entry are never both going within 330
   * seconds of their claims, and a run that fails within them still holds its
   * claim.
   */
  lemma OneYoungRunAtATime(events: seq<Event>, t: Token, u: Token)
    requires ValidRun(events)
    ensures IsYoung(Exec(events), t) && IsYoung(Exec(events), u) ==> t == u
    ensures IsYoung(Exec(events), t) ==> HoldsRerunClaim(Exec(events), t)
  {
    RunKeepsInv(events);
  }

  /** A rerun that is done stays done, and takes no further step. */
  lemma DoneStaysDone(s: System, e: Event, t: Token)
    requires Enabled(s, e) && t in s.reruns && s.reruns[t].Done?
    ensures t in Step(s, e).reruns && Step(s, e).reruns[t].Done? && !IsOf(e, t)
  {
  }

  /** A step of this rerun. */
  predicate IsOf(e: Event, t: Token) { !e.Expire? && !e.Tick? && e.token == t }

  /**
   * A rerun that finds the claim taken never starts the job, in any
   * continuation: it has no further step, so it never runs, and it neither
   * touched the claim it found nor ever releases another's.
   */
  lemma {:induction false} RefusedClaimNeverRuns(events: seq<Event>, k: nat, t: Token)
    requires k < |events| && ValidRun(events) && ValidRun(events[..k])
    requires events[k] == Set(t, Answered) && Exec(events[..k]).claim.Some?
    ensures t in Exec(events).reruns && !MayRun(Exec(events).reruns[t]) && Exec(events).reruns[t].Done?
    ensures forall i :: k < i < |events| ==> !IsOf(events[i], t)
    ensures ValidRun(events[..k + 1]) && Exec(events[..k + 1]).claim == Exec(events[..k]).claim
    decreases |events|
  {
    var before, e := events[..|events| - 1], events[|events| - 1];
    if k == |events| - 1 {
      assert before == events[..k] && events == events[..k + 1];
    } else {
      assert before[..k] == events[..k] && before[..k + 1] == events[..k + 1];
      RefusedClaimNeverRuns(before, k, t);
      DoneStaysDone(Exec(before), e, t);
      forall i | k < i < |events| ensures !IsOf(events[i], t) {
        if i < |before| { assert before[i] == events[i]; }
      }
    }
  }

  // ----- What becomes of the claim -----

  /**
   * The claim comes to be only by a `Set` that finds none and is not lost on
   * the way, and goes only by expiry or by its own rerun's release; whatever
   * else happens, and whatever fails, it stays as it is.
   */
  lemma ClaimMoves(events: seq<Event>, e: Event)
    requires ValidRun(events) && Enabled(Exec(events), e)
    ensures var s := Exec(events);
            Step(s, e).claim ==
            if s.claim.None? then
              if e.Set? && e.reply != Failed then Some(Claim(e.token, s.now)) else None
            else if e.Expire? || (e.Release? && e.token == s.claim.value.token && e.reply != Failed) then None
            else s.claim
  {
  }

  lemma Extends(events: seq<Event>, e: Event)
    requires ValidRun(events) && Enabled(Exec(events), e)
    ensures ValidRun(events + [e]) && Exec(events + [e]) == Step(Exec(events), e)
  {
    assert (events + [e])[..|events|] == events;
  }

  /** The job starts for a rerun that is told it took a free claim; one left without an answer gives it back. */
  lemma RunStartsIff(events: seq<Event>, t: Token, reply: Reply)
    requires ValidRun(events) && Enabled(Exec(events), Set(t, reply))
    ensures var s, s' := Exec(events), Step(Exec(events), Set(t, reply));
            && t in s'.reruns && (MayRun(s'.reruns[t]) <==> reply == Answered && s.claim.None?)
            && (reply != Answered ==> Enabled(s', Release(t, Answered)))
  {
  }

  /** A release that reaches Redis leaves no claim of that token, and takes no other token's. */
  lemma ReleaseFreesItsOwn(events: seq<Event>, t: Token, reply: Reply)
    requires ValidRun(events) && Enabled(Exec(events), Release(t, reply))
    ensures var s, s' := Exec(events), Step(Exec(events), Release(t, reply));
            && (reply != Failed ==> !HoldsRerunClaim(s', t))
            && (reply != Failed && HoldsRerunClaim(s, t) ==> s'.claim.None?)
            && (reply == Failed || !HoldsRerunClaim(s, t) ==> s'.claim == s.claim)
  {
  }

  /** So the next rerun of the entry starts at once: it finds the claim free, takes it and runs. */
  lemma NextRerunStarts(events: seq<Event>, t: Token, reply: Reply, u: Token)
    requires ValidRun(events) && Enabled(Exec(events), Release(t, reply)) && reply != Failed
    requires HoldsRerunClaim(Exec(events), t) && u !in Exec(events).reruns
    ensures var more := events + [Release(t, reply)] + [Begin(u)] + [Set(u, Answered)];
            && ValidRun(more)
            && Exec(more).claim == Some(Claim(u, Exec(events).now))
            && u in Exec(more).reruns && Exec(more).reruns[u] == Waiting(Exec(events).now)
  {
    Extends(events, Release(t, reply));
    Extends(events + [Release(t, reply)], Begin(u));
    Extends(events + [Release(t, reply)] + [Begin(u)], Set(u, Answered));
  }

  /** Only a request that broke off, or a release that failed, leaves a claim behind a rerun that is done. */
  lemma {:induction false} ClaimOutlivesItsRerun(events: seq<Event>, t: Token)
    requires ValidRun(events) && HoldsRerunClaim(Exec(events), t)
    ensures t in Exec(events).reruns
    ensures Exec(events).reruns[t].Done? ==> BreakOff(t) in events || Release(t, Failed) in events
    ensures Exec(events).reruns[t].BrokenOff? ==> BreakOff(t) in events
    decreases |events|
  {
    RunKeepsInv(events);
    if events != [] {
      var before, e := events[..|events| - 1], events[|events| - 1];
      assert events == before + [e];
      RunKeepsInv(before);
      if HoldsRerunClaim(Exec(before), t) { ClaimOutlivesItsRerun(before, t); }
    }
  }

  /** Past the 330 seconds two runs can overlap: the bound is exact. */
  lemma OldRunCanOverlap() returns (events: seq<Event>)
    ensures ValidRun(events)
    ensures var s := Exec(events);
            && s.reruns == map[1 := BrokenOff(0), 2 := Waiting(RERUN_CLAIM_TTL)]
            && s.now == RERUN_CLAIM_TTL && !HoldsRerunClaim(s, 1) && HoldsRerunClaim(s, 2)
  {
    events := [];
    Extends(events, Begin(1));
    events := events + [Begin(1)];
    Extends(events, Set(1, Answered));
    events := events + [Set(1, Answered)];
    Extends(events, BreakOff(1));
    events := events + [BreakOff(1)];
    Extends(events, Tick(RERUN_CLAIM_TTL));
    events := events + [Tick(RERUN_CLAIM_TTL)];
    Extends(events, Expire);
    events := events + [Expire];
    Extends(events, Begin(2));
    events := events + [Begin(2)];
    Extends(events, Set(2, Answered));
    events := events + [Set(2, Answered)];
  }
}
