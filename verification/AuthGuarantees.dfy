/** What holds of every run of the token protocol. */
module AuthGuarantees {
  import opened Options
  import opened SessionTracking
  import opened AuthTokens
  import opened AuthProtocol

  predicate ValidRun(cfg: Config, s: System, es: seq<Event>)
    decreases |es|
  {
    es == [] ||
    (HandleInRange(s.resolver) && Enabled(s, es[0]) && ValidRun(cfg, Step(cfg, s, es[0]), es[1..]))
  }

  function Exec(cfg: Config, s: System, es: seq<Event>): System
    requires ValidRun(cfg, s, es)
    decreases |es|
  {
    if es == [] then s else Exec(cfg, Step(cfg, s, es[0]), es[1..])
  }

  lemma {:induction false} RunKeepsInv(cfg: Config, s: System, es: seq<Event>)
    requires Inv(s) && ValidRun(cfg, s, es)
    ensures Inv(Exec(cfg, s, es)) && Grows(s.resolver, Exec(cfg, s, es).resolver)
    decreases |es|
  {
    if es != [] {
      StepKeepsInv(cfg, s, es[0]);
      RunKeepsInv(cfg, Step(cfg, s, es[0]), es[1..]);
    }
  }

  /** `es` is a run from the start to `s`. */
  ghost predicate Reaches(cfg: Config, es: seq<Event>, s: System) {
    ValidRun(cfg, START, es) && Exec(cfg, START, es) == s && HandleInRange(s.resolver)
  }

  // ----- Sign-out isolation -----

  /** The resolver has answered with a token, and the request is not out yet. */
  predicate CarriesToken(pc: Pc) { (pc.Answered? || pc.Issued?) && pc.bearer.Some? }

  /**
   * However the batches, replies, timeouts and sign-outs interleave: the cached
   * token was minted by an attempt of the current epoch, and every token the
   * resolver answers was minted by an attempt of the epoch it answers in.
   */
  lemma SignOutIsolation(cfg: Config, es: seq<Event>)
    requires ValidRun(cfg, START, es)
    ensures var s := Exec(cfg, START, es);
            var r := s.resolver;
            && (r.cache.Some? ==>
                  var c := r.cache.value;
                  && c.attempt < |r.attempts|
                  && r.attempts[c.attempt].epoch == r.epoch
                  && r.attempts[c.attempt].reply == Some(Token(c.token)))
            && (forall b :: 0 <= b < |s.batches| && CarriesToken(s.batches[b].pc) ==>
                  var bearer := s.batches[b].pc.bearer.value;
                  && bearer.attempt < |r.attempts|
                  && r.attempts[bearer.attempt].epoch == s.batches[b].pc.epoch
                  && r.attempts[bearer.attempt].reply == Some(Token(bearer.text)))
  {
    RunKeepsInv(cfg, START, es);
  }

  /** Once the epoch has moved, what is cached, and what is answered in a later epoch, is from later attempts. */
  lemma OldAttemptsSupplyNothing(r: Resolver, end: System)
    requires ResolverInv(r) && Inv(end) && Grows(SignedOut(r), end.resolver)
    ensures end.resolver.cache.Some? ==> end.resolver.cache.value.attempt >= |r.attempts|
    ensures forall b :: 0 <= b < |end.batches| && CarriesToken(end.batches[b].pc) &&
                        end.batches[b].pc.epoch > r.epoch ==>
              end.batches[b].pc.bearer.value.attempt >= |r.attempts|
  {
    assert forall a :: 0 <= a < |r.attempts| ==> end.resolver.attempts[a].epoch <= r.epoch;
    forall b | 0 <= b < |end.batches| && CarriesToken(end.batches[b].pc) && end.batches[b].pc.epoch > r.epoch
      ensures end.batches[b].pc.bearer.value.attempt >= |r.attempts|
    {
      assert PcInv(end.resolver, end.batches[b].pc);
    }
  }

  /**
   * A sign-out splits a run: no attempt started before it supplies the cache, or
   * an answer given after it, ever again.
   */
  lemma NoTokenSurvivesSignOut(cfg: Config, before: seq<Event>, throws: bool, after: seq<Event>)
    requires ValidRun(cfg, START, before)
    requires var s := Exec(cfg, START, before);
             HandleInRange(s.resolver) && ValidRun(cfg, Step(cfg, s, SignOut(throws)), after)
    ensures var s := Exec(cfg, START, before);
            var end := Exec(cfg, Step(cfg, s, SignOut(throws)), after);
            && (end.resolver.cache.Some? ==> end.resolver.cache.value.attempt >= |s.resolver.attempts|)
            && (forall b :: 0 <= b < |end.batches| && CarriesToken(end.batches[b].pc) &&
                            end.batches[b].pc.epoch > s.resolver.epoch ==>
                  end.batches[b].pc.bearer.value.attempt >= |s.resolver.attempts|)
  {
    var s := Exec(cfg, START, before);
    RunKeepsInv(cfg, START, before);
    StepKeepsInv(cfg, s, SignOut(throws));
    RunKeepsInv(cfg, Step(cfg, s, SignOut(throws)), after);
    OldAttemptsSupplyNothing(s.resolver, Exec(cfg, Step(cfg, s, SignOut(throws)), after));
  }

  /** Between answer and fetch lie more awaits: the token sent is current iff the epoch has not moved in them. */
  lemma SentTokenIsCurrentIff(cfg: Config, es: seq<Event>, s: System, b: nat)
    requires Reaches(cfg, es, s) && Enabled(s, Send(b)) && s.batches[b].pc.bearer.Some?
    ensures var s' := Step(cfg, s, Send(b));
            var attempt := s.batches[b].pc.bearer.value.attempt;
            && s'.batches[b].header == s.batches[b].pc.bearer
            && attempt < |s'.resolver.attempts|
            && (s'.resolver.attempts[attempt].epoch == s'.resolver.epoch <==> s.resolver.epoch == s.batches[b].pc.epoch)
  {
    RunKeepsInv(cfg, START, es);
  }

  lemma {:induction false} RunExtends(cfg: Config, s: System, es: seq<Event>, e: Event)
    requires Inv(s) && ValidRun(cfg, s, es) && Enabled(Exec(cfg, s, es), e)
    ensures ValidRun(cfg, s, es + [e]) && HandleInRange(Exec(cfg, s, es).resolver)
    ensures Exec(cfg, s, es + [e]) == Step(cfg, Exec(cfg, s, es), e)
    decreases |es|
  {
    if es == [] {
      assert (es + [e])[1..] == [];
    } else {
      StepKeepsInv(cfg, s, es[0]);
      RunExtends(cfg, Step(cfg, s, es[0]), es[1..], e);
      assert (es + [e])[1..] == es[1..] + [e];
    }
  }

  /** A signed-in reading, and a batch that mints and is answered. */
  lemma AnsweredRun() returns (es: seq<Event>)
    ensures ValidRun(DEFAULTS, START, es)
    ensures var s := Exec(DEFAULTS, START, es);
            && |s.batches| == 1 && s.batches[0].pc == Answered(Some(Bearer("jwt", 0)), 0)
            && s.resolver.epoch == 0 && s.hadAuthenticated
  {
    es := [];
    RunExtends(DEFAULTS, START, es, Read(Reading(true, false, false)));
    es := es + [Read(Reading(true, false, false))];
    RunExtends(DEFAULTS, START, es, StartBatch(true));
    es := es + [StartBatch(true)];
    assert Exec(DEFAULTS, START, es).batches[0].pc == AwaitMint(0, None, 3000);
    RunExtends(DEFAULTS, START, es, SettleMint(0, Token("jwt")));
    es := es + [SettleMint(0, Token("jwt"))];
    RunExtends(DEFAULTS, START, es, EndMintWait(0, false));
    es := es + [EndMintWait(0, false)];
    assert Exec(DEFAULTS, START, es).batches[0].pc == MintBack(0, None, Token("jwt"));
    RunExtends(DEFAULTS, START, es, ReturnFromMint(0));
    es := es + [ReturnFromMint(0)];
  }

  /** The hand-over and a sign-out in either order, and then the fetch, from where the only batch is answered. */
  lemma HopSteps(s: System, handedOver: bool, bearer: Bearer)
    requires Inv(s) && |s.batches| == 1 && s.batches[0].pc == Answered(Some(bearer), s.resolver.epoch)
    ensures Enabled(s, if handedOver then Deliver(0) else SignOut(false))
    ensures var s1 := Step(DEFAULTS, s, if handedOver then Deliver(0) else SignOut(false));
            && HandleInRange(s1.resolver) && Enabled(s1, if handedOver then SignOut(false) else Deliver(0))
            && var s2 := Step(DEFAULTS, s1, if handedOver then SignOut(false) else Deliver(0));
            && HandleInRange(s2.resolver) && Enabled(s2, Send(0))
            && var s3 := Step(DEFAULTS, s2, Send(0));
            && |s3.batches| == 1 && s3.batches[0].header == Some(bearer)
            && bearer.attempt < |s3.resolver.attempts|
            && s3.resolver.attempts[bearer.attempt].epoch < s3.resolver.epoch
  {
    assert PcInv(s.resolver, s.batches[0].pc);
  }

  /** Runs in which a sign-out lands in those awaits, before or after the hand-over, and a signed-out token goes out. */
  lemma SignOutInsideTheHop(handedOver: bool) returns (es: seq<Event>)
    ensures ValidRun(DEFAULTS, START, es)
    ensures var s := Exec(DEFAULTS, START, es);
            && |s.batches| == 1 && s.batches[0].header == Some(Bearer("jwt", 0))
            && |s.resolver.attempts| > 0 && s.resolver.attempts[0].epoch < s.resolver.epoch
  {
    es := AnsweredRun();
    RunKeepsInv(DEFAULTS, START, es);
    var s := Exec(DEFAULTS, START, es);
    var first := if handedOver then Deliver(0) else SignOut(false);
    var second := if handedOver then SignOut(false) else Deliver(0);
    HopSteps(s, handedOver, Bearer("jwt", 0));
    RunExtends(DEFAULTS, START, es, first);
    es := es + [first];
    RunExtends(DEFAULTS, START, es, second);
    es := es + [second];
    RunExtends(DEFAULTS, START, es, Send(0));
    es := es + [Send(0)];
  }

  /**
   * A sign-out whose query reset starts is later than every hand-over of a token
   * so far. Requests still on their way then, and their responses, are not
   * covered.
   */
  lemma SignOutResetsAfterEveryDelivery(cfg: Config, es: seq<Event>)
    requires ValidRun(cfg, START, es)
    ensures var s := Exec(cfg, START, es);
            && HandleInRange(s.resolver)
            && var s' := Step(cfg, s, SignOut(false));
               forall b :: 0 <= b < |s'.batches| && Received(s'.batches[b]) ==> s'.batches[b].deliveredAt < s'.resets
  {
    RunKeepsInv(cfg, START, es);
  }

  // ----- Mints -----

  predicate StartsMint(s: System, s': System) { |s'.resolver.attempts| > |s.resolver.attempts| }

  /** No step starts a mint on a clean "no session" reading with an empty cache. */
  lemma MintStartJustified(cfg: Config, es: seq<Event>, s: System, e: Event)
    requires Reaches(cfg, es, s) && Enabled(s, e) && StartsMint(s, Step(cfg, s, e))
    ensures var now := s.tracker.current;
            s.resolver.cache.Some? || !now.hasSettled || now.lastSettledAuthenticated || now.lastSettledReadFailed
  {
    RunKeepsInv(cfg, START, es);
  }

  /** A step starts at most one mint, and only when every attempt of the epoch is answered or abandoned. */
  lemma MintStartsAlone(cfg: Config, es: seq<Event>, s: System, e: Event)
    requires Reaches(cfg, es, s) && Enabled(s, e) && StartsMint(s, Step(cfg, s, e))
    ensures var r, r' := s.resolver, Step(cfg, s, e).resolver;
            && r'.attempts == r.attempts + [Attempt(r.epoch, None, false)]
            && r'.mintInFlight == Some(|r.attempts|)
            && (forall a :: 0 <= a < |r.attempts| && r.attempts[a].epoch == r.epoch ==>
                  r.attempts[a].reply.Some? || r.attempts[a].abandoned)
  {
    RunKeepsInv(cfg, START, es);
    var r := s.resolver;
    assert forall a :: 0 <= a < |r.attempts| && r.attempts[a].epoch == r.epoch && Unfinished(r.attempts[a]) ==>
        r.mintInFlight == Some(a);
  }

  /** A handle is only ever dropped by its own attempt, settling or timing out, or replaced after a sign-out. */
  lemma LateAttemptKeepsNewerHandle(cfg: Config, es: seq<Event>, s: System, e: Event, newer: nat)
    requires Reaches(cfg, es, s) && Enabled(s, e) && s.resolver.mintInFlight == Some(newer)
    requires Step(cfg, s, e).resolver.mintInFlight != Some(newer)
    ensures || (e.SettleMint? && e.attempt == newer)
            || (e.EndMintWait? && e.timedOut && s.batches[e.b].pc.attempt == newer)
            || (StartsMint(s, Step(cfg, s, e)) && s.resolver.attempts[newer].epoch < s.resolver.epoch)
  {
    RunKeepsInv(cfg, START, es);
  }

  /** Only a sign-out, a fresh token, or a 401 whose batch saw this very entry takes an entry out of the cache. */
  lemma CacheEntryOnlyLostTo(cfg: Config, es: seq<Event>, s: System, e: Event)
    requires Reaches(cfg, es, s) && Enabled(s, e)
    requires s.resolver.cache.Some? && Step(cfg, s, e).resolver.cache != s.resolver.cache
    ensures || e.SignOut?
            || (e.ReturnFromMint? &&
                var pc := s.batches[e.b].pc;
                if Step(cfg, s, e).resolver.cache.None?
                then pc.result == Unauthorized && pc.cached == s.resolver.cache
                else pc.result.Token? && Step(cfg, s, e).resolver.cache.value.attempt == pc.attempt)
  {
    RunKeepsInv(cfg, START, es);
  }

  /** In every state of the run the recorded 401 still holds: same snapshot or a failed read, inside the window. */
  ghost predicate HeldThroughout(cfg: Config, s: System, es: seq<Event>, w: Recorded401)
    requires ValidRun(cfg, s, es)
    decreases |es|
  {
    && (w.version == s.tracker.current.version || s.tracker.current.lastSettledReadFailed)
    && s.clock.perfMs - w.atMs < cfg.suppressMs
    && (es == [] || HeldThroughout(cfg, Step(cfg, s, es[0]), es[1..], w))
  }

  lemma HeldStepStartsNothing(cfg: Config, s: System, e: Event, w: Recorded401)
    requires Inv(s) && Enabled(s, e) && s.resolver.unauthorizedAt == Some(w)
    requires w.version == s.tracker.current.version || s.tracker.current.lastSettledReadFailed
    requires s.clock.perfMs - w.atMs < cfg.suppressMs
    requires w.version == Step(cfg, s, e).tracker.current.version ||
             Step(cfg, s, e).tracker.current.lastSettledReadFailed
    ensures var r' := Step(cfg, s, e).resolver;
            |r'.attempts| == |s.resolver.attempts| && r'.unauthorizedAt == Some(w) &&
            r'.refetchesAfter401 == s.resolver.refetchesAfter401
  {
  }

  /** After a recorded 401 no mint starts and no second 401 refetch fires for as long as the window holds. */
  lemma {:induction false} SuppressedWindowIsQuiet(cfg: Config, s: System, es: seq<Event>, w: Recorded401)
    requires Inv(s) && ValidRun(cfg, s, es) && s.resolver.unauthorizedAt == Some(w)
    requires HeldThroughout(cfg, s, es, w)
    ensures var r' := Exec(cfg, s, es).resolver;
            |r'.attempts| == |s.resolver.attempts| && r'.unauthorizedAt == Some(w) &&
            r'.refetchesAfter401 == s.resolver.refetchesAfter401
    decreases |es|
  {
    if es != [] {
      StepKeepsInv(cfg, s, es[0]);
      assert HeldThroughout(cfg, Step(cfg, s, es[0]), es[1..], w);
      HeldStepStartsNothing(cfg, s, es[0], w);
      SuppressedWindowIsQuiet(cfg, Step(cfg, s, es[0]), es[1..], w);
    }
  }

  // ----- Answers -----

  predicate AnswersNow(cfg: Config, s: System, e: Event, b: nat)
    requires HandleInRange(s.resolver) && Enabled(s, e)
  {
    var s' := Step(cfg, s, e);
    b < |s'.batches| && s'.batches[b].pc.Answered? && (b < |s.batches| ==> !s.batches[b].pc.Answered?)
  }

  /** An answer before the mint wait is the cache's, or none: for want of a session, or inside the 401 window. */
  lemma EarlyAnswer(s: Snapshot, r: Resolver, cfg: Config, clock: Clock, bypass: bool, out: Outcome)
    requires HandleInRange(r) && out == Proceeded(s, r, cfg, clock, bypass).1 && out.Decided?
    ensures match out.bearer
            case Some(bearer) =>
              && !bypass && r.cache.Some? && bearer == Bearer(r.cache.value.token, r.cache.value.attempt)
              && clock.wallMs - r.cache.value.mintedAtMs < TOKEN_TTL_MS
            case None =>
              || (!s.isAuthenticated && !s.isPending && r.cache.None? && !s.lastSettledReadFailed)
              || IsSuppressingAfter401(s, r, cfg, clock.perfMs)
  {
  }

  /** An answer that is given before a mint wait, and by which call. */
  lemma EarlyStep(cfg: Config, s: System, e: Event, b: nat)
    requires HandleInRange(s.resolver) && Enabled(s, e) && AnswersNow(cfg, s, e, b) && !e.ReturnFromMint?
    requires TrackerInv(s.tracker) && TrackerInv(Step(cfg, s, e).tracker)
    ensures var s' := Step(cfg, s, e); var batch' := s'.batches[b];
            match batch'.pc.bearer
            case Some(bearer) =>
              && !batch'.bypass && s.resolver.cache.Some?
              && bearer == Bearer(s.resolver.cache.value.token, s.resolver.cache.value.attempt)
              && s.clock.wallMs - s.resolver.cache.value.mintedAtMs < TOKEN_TTL_MS
            case None =>
              || (s.resolver.cache.None? && IsKnownSignedOut(s'.tracker.current))
              || IsSuppressingAfter401(s'.tracker.current, s.resolver, cfg, s.clock.perfMs)
  {
    var batch' := Step(cfg, s, e).batches[b];
    match e
    case StartBatch(isGet) => EarlyCall(cfg, s, Batch(isGet, false, 0, Sent, None, None, 0, 0));
    case Respond(c, status) => EarlyCall(cfg, s, s.batches[c].(status := status, bypass := true));
    case EndSettleWait(c, timedOut) =>
      var t := if timedOut then Marked(s.tracker) else s.tracker;
      var out := Proceeded(t.current, s.resolver, cfg, s.clock, s.batches[c].bypass).1;
      if out.Decided? { EarlyAnswer(t.current, s.resolver, cfg, s.clock, s.batches[c].bypass, out); }
    case _ =>
  }

  lemma EarlyCall(cfg: Config, s: System, batch: Batch)
    requires HandleInRange(s.resolver) && TrackerInv(s.tracker)
    ensures var (s', batch') := Call(cfg, s, batch);
            batch'.pc.Answered? ==>
              match batch'.pc.bearer
              case Some(bearer) =>
                && !batch.bypass && s.resolver.cache.Some?
                && bearer == Bearer(s.resolver.cache.value.token, s.resolver.cache.value.attempt)
                && s.clock.wallMs - s.resolver.cache.value.mintedAtMs < TOKEN_TTL_MS
              case None =>
                || (s.resolver.cache.None? && IsKnownSignedOut(s'.tracker.current))
                || IsSuppressingAfter401(s'.tracker.current, s.resolver, cfg, s.clock.perfMs)
  {
    var out := Proceeded(s.tracker.current, s.resolver, cfg, s.clock, batch.bypass).1;
    if out.Decided? { EarlyAnswer(s.tracker.current, s.resolver, cfg, s.clock, batch.bypass, out); }
  }

  lemma EmptyText(result: MintReply)
    requires result.Token? && |result.text| == 0
    ensures result == Token("")
  {
    assert result.text == "";
  }

  /**
   * Where an answered token comes from. A bypassing call is served only by the
   * mint it started or joined; any other call also by the cache within the TTL,
   * or, after its own mint failed for no stated reason, by the entry it saw
   * before minting, up to ten minutes old.
   */
  lemma TokenProvenance(cfg: Config, es: seq<Event>, s: System, e: Event, b: nat)
    requires Reaches(cfg, es, s) && Enabled(s, e) && AnswersNow(cfg, s, e, b)
    requires Step(cfg, s, e).batches[b].pc.bearer.Some?
    ensures var batch' := Step(cfg, s, e).batches[b];
            var bearer := batch'.pc.bearer.value;
            var wall := s.clock.wallMs;
            || (e == ReturnFromMint(b) && s.batches[b].pc.result == Token(bearer.text) &&
                bearer.attempt == s.batches[b].pc.attempt &&
                Step(cfg, s, e).resolver.cache ==
                Some(CacheEntry(s.resolver.stored, bearer.text, wall, bearer.attempt)))
            || (!batch'.bypass && !e.ReturnFromMint? && s.resolver.cache.Some? &&
                bearer == Bearer(s.resolver.cache.value.token, s.resolver.cache.value.attempt) &&
                wall - s.resolver.cache.value.mintedAtMs < TOKEN_TTL_MS)
            || (!batch'.bypass && e == ReturnFromMint(b) && s.batches[b].pc.result in {Failed, Token("")} &&
                s.batches[b].pc.cached.Some? &&
                bearer == Bearer(s.batches[b].pc.cached.value.token, s.batches[b].pc.cached.value.attempt) &&
                wall - s.batches[b].pc.cached.value.mintedAtMs < STALE_LIMIT_MS)
  {
    RunKeepsInv(cfg, START, es);
    if e.ReturnFromMint? {
      var result := s.batches[e.b].pc.result;
      if result.Token? && |result.text| == 0 { EmptyText(result); }
    } else {
      StepKeepsInv(cfg, s, e);
      EarlyStep(cfg, s, e, b);
    }
  }

  /** A call goes out anonymous only for one of these reasons. */
  lemma AnonymousOnlyWhen(cfg: Config, es: seq<Event>, s: System, e: Event, b: nat)
    requires Reaches(cfg, es, s) && Enabled(s, e) && AnswersNow(cfg, s, e, b)
    requires Step(cfg, s, e).batches[b].pc.bearer.None?
    ensures var s' := Step(cfg, s, e);
            if e.ReturnFromMint? then
              var pc := s.batches[b].pc;
              || s.resolver.attempts[pc.attempt].epoch < s.resolver.epoch
              || pc.result == Unauthorized
              || (pc.result in {Failed, Token("")} &&
                  (pc.cached.None? || s.batches[b].bypass ||
                   s.clock.wallMs - pc.cached.value.mintedAtMs >= STALE_LIMIT_MS))
            else
              || (s.resolver.cache.None? && IsKnownSignedOut(s'.tracker.current))
              || IsSuppressingAfter401(s'.tracker.current, s.resolver, cfg, s.clock.perfMs)
  {
    RunKeepsInv(cfg, START, es);
    if e.ReturnFromMint? {
      var result := s.batches[e.b].pc.result;
      if result.Token? && |result.text| == 0 { EmptyText(result); }
    } else {
      StepKeepsInv(cfg, s, e);
      EarlyStep(cfg, s, e, b);
    }
  }

  /** Every request is sent at most twice, and a batch that is not a GET is re-sent only after a 401. */
  lemma AtMostOneRetry(cfg: Config, es: seq<Event>)
    requires ValidRun(cfg, START, es)
    ensures var s := Exec(cfg, START, es);
            forall b :: 0 <= b < |s.batches| ==>
              var batch := s.batches[b];
              && batch.sends <= 2
              && (batch.sends == 2 ==> batch.bypass && batch.status in {Some(401), Some(207)})
              && (batch.sends == 2 && !batch.isGet ==> batch.status == Some(401))
  {
    RunKeepsInv(cfg, START, es);
  }

  // ----- Every call ends -----

  /** What is left for a batch to do, counting only its own steps. */
  function Rank(b: Batch): nat {
    match b.pc
    case AwaitSettle(_, _) => if b.bypass then 5 else 11
    case AwaitMint(_, _, _) => if b.bypass then 4 else 10
    case MintBack(_, _, _) => if b.bypass then 3 else 9
    case Answered(_, _) => if b.bypass then 2 else 8
    case Issued(_, _) => if b.bypass then 1 else 7
    case Sent => 6
    case Done => 0
  }

  /** The batch whose step it is. */
  predicate Moves(e: Event, b: nat) {
    match e
    case EndSettleWait(c, _) => c == b
    case EndMintWait(c, _) => c == b
    case ReturnFromMint(c) => c == b
    case Deliver(c) => c == b
    case Send(c) => c == b
    case Respond(c, _) => c == b
    case _ => false
  }

  lemma OthersStay(cfg: Config, s: System, e: Event, b: nat)
    requires HandleInRange(s.resolver) && Enabled(s, e) && b < |s.batches| && !Moves(e, b)
    ensures Step(cfg, s, e).batches[b] == s.batches[b]
  {
  }

  lemma ResponseIsProgress(cfg: Config, s: System, b: nat, status: Option<int>)
    requires HandleInRange(s.resolver) && Enabled(s, Respond(b, status)) && !s.batches[b].bypass
    ensures Rank(Step(cfg, s, Respond(b, status)).batches[b]) < Rank(s.batches[b])
  {
  }

  lemma OwnStepIsProgress(cfg: Config, s: System, e: Event, b: nat)
    requires HandleInRange(s.resolver) && Enabled(s, e) && b < |s.batches| && Moves(e, b) && !e.Respond?
    ensures Rank(Step(cfg, s, e).batches[b]) < Rank(s.batches[b])
  {
  }

  /** A step moves at most one batch, and moves it towards its end: eleven own steps at most after the start. */
  lemma EveryOwnStepIsProgress(cfg: Config, es: seq<Event>, s: System, e: Event, b: nat)
    requires Reaches(cfg, es, s) && Enabled(s, e) && b < |s.batches|
    ensures var s' := Step(cfg, s, e);
            if Moves(e, b) then Rank(s'.batches[b]) < Rank(s.batches[b]) else s'.batches[b] == s.batches[b]
  {
    RunKeepsInv(cfg, START, es);
    if !Moves(e, b) {
      OthersStay(cfg, s, e, b);
    } else if e.Respond? {
      assert BatchInv(s.resolver, s.batches[b]);
      ResponseIsProgress(cfg, s, b, e.status);
    } else {
      OwnStepIsProgress(cfg, s, e, b);
    }
  }

  /** Timers fire on time and continuations run before the clock moves again. */
  ghost predicate TimelyTick(s: System, clock: Clock) {
    forall b :: 0 <= b < |s.batches| ==>
      match s.batches[b].pc
      case AwaitSettle(p, deadline) => p !in s.tracker.resolved && clock.perfMs <= deadline
      case AwaitMint(a, _, deadline) =>
        a < |s.resolver.attempts| && s.resolver.attempts[a].reply.None? && clock.perfMs <= deadline
      case MintBack(_, _, _) => false
      case Answered(_, _) => false
      case Issued(_, _) => false
      case _ => true
  }

  ghost predicate Timely(cfg: Config, s: System, es: seq<Event>)
    requires ValidRun(cfg, s, es)
    decreases |es|
  {
    es == [] ||
    ((es[0].Tick? ==> TimelyTick(s, es[0].clock)) && Timely(cfg, Step(cfg, s, es[0]), es[1..]))
  }

  predicate InTime(cfg: Config, clock: Clock, b: Batch) {
    match b.pc
    case AwaitSettle(_, deadline) => clock.perfMs <= deadline == b.startedAt + cfg.settleTimeoutMs
    case AwaitMint(_, _, deadline) =>
      clock.perfMs <= deadline <= b.startedAt + cfg.settleTimeoutMs + cfg.mintTimeoutMs
    case MintBack(_, _, _) => clock.perfMs <= b.startedAt + cfg.settleTimeoutMs + cfg.mintTimeoutMs
    case Answered(_, _) => clock.perfMs <= b.startedAt + cfg.settleTimeoutMs + cfg.mintTimeoutMs
    case Issued(_, _) => clock.perfMs <= b.startedAt + cfg.settleTimeoutMs + cfg.mintTimeoutMs
    case _ => true
  }

  lemma CalledIsInTime(cfg: Config, s: System, e: Event, b: nat)
    requires HandleInRange(s.resolver) && Enabled(s, e) && (e.StartBatch? || e.Respond?)
    requires b < |s.batches| ==> InTime(cfg, s.clock, s.batches[b])
    requires b < |Step(cfg, s, e).batches|
    ensures InTime(cfg, Step(cfg, s, e).clock, Step(cfg, s, e).batches[b])
  {
  }

  lemma TimelyBatchStaysInTime(cfg: Config, s: System, e: Event, b: nat)
    requires HandleInRange(s.resolver) && Enabled(s, e) && !e.StartBatch? && !e.Respond?
    requires b < |s.batches| && InTime(cfg, s.clock, s.batches[b]) && (e.Tick? ==> TimelyTick(s, e.clock))
    ensures InTime(cfg, Step(cfg, s, e).clock, Step(cfg, s, e).batches[b])
  {
  }

  lemma TimelyStepStaysInTime(cfg: Config, s: System, e: Event)
    requires Inv(s) && Enabled(s, e) && (e.Tick? ==> TimelyTick(s, e.clock))
    requires forall b :: 0 <= b < |s.batches| ==> InTime(cfg, s.clock, s.batches[b])
    ensures var s' := Step(cfg, s, e);
            forall b :: 0 <= b < |s'.batches| ==> InTime(cfg, s'.clock, s'.batches[b])
  {
    var s' := Step(cfg, s, e);
    forall b | 0 <= b < |s'.batches| ensures InTime(cfg, s'.clock, s'.batches[b]) {
      if e.StartBatch? || e.Respond? {
        CalledIsInTime(cfg, s, e, b);
      } else {
        assert InTime(cfg, s.clock, s.batches[b]);
        TimelyBatchStaysInTime(cfg, s, e, b);
      }
    }
  }

  /** A call of the resolver is answered within the settle bound plus the mint bound. */
  lemma {:induction false} AnswersWithinBounds(cfg: Config, s: System, es: seq<Event>)
    requires Inv(s) && ValidRun(cfg, s, es) && Timely(cfg, s, es)
    requires forall b :: 0 <= b < |s.batches| ==> InTime(cfg, s.clock, s.batches[b])
    ensures var end := Exec(cfg, s, es);
            forall b :: 0 <= b < |end.batches| && !end.batches[b].pc.Sent? && !end.batches[b].pc.Done? ==>
              end.clock.perfMs - end.batches[b].startedAt <= cfg.settleTimeoutMs + cfg.mintTimeoutMs
    decreases |es|
  {
    if es == [] {
      forall b | 0 <= b < |s.batches| && !s.batches[b].pc.Sent? && !s.batches[b].pc.Done?
        ensures s.clock.perfMs - s.batches[b].startedAt <= cfg.settleTimeoutMs + cfg.mintTimeoutMs
      {
        assert InTime(cfg, s.clock, s.batches[b]);
      }
    } else {
      StepKeepsInv(cfg, s, es[0]);
      TimelyStepStaysInTime(cfg, s, es[0]);
      assert Timely(cfg, Step(cfg, s, es[0]), es[1..]);
      AnswersWithinBounds(cfg, Step(cfg, s, es[0]), es[1..]);
      assert Exec(cfg, s, es) == Exec(cfg, Step(cfg, s, es[0]), es[1..]);
    }
  }
}
