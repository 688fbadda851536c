/**
 * What every call, reply and response brings about, in the states runs reach:
 * who waits, who is answered at once, who mints, and what a mint's outcome does
 * to the cache, to the window after a 401 and to the session. The conditions are
 * written out here on the state, without the resolver's own predicates.
 */
module AuthEffects {
  import opened Options
  import opened SessionTracking
  import opened AuthTokens
  import opened AuthProtocol
  import opened AuthGuarantees

  /** A 401 was recorded, and no newer reading but a failed one and not enough time has come since. */
  predicate WindowIsOpen(cfg: Config, s: System) {
    match s.resolver.unauthorizedAt
    case None => false
    case Some(w) =>
      && (w.version == s.tracker.current.version || s.tracker.current.lastSettledReadFailed)
      && s.clock.perfMs - w.atMs < cfg.suppressMs
  }

  // ----- A mint answers -----

  /**
   * A 401 from the mint: if the cache still holds what the batch saw, it is
   * emptied, and unless a window is open one is opened at this reading and time
   * and the session is read again; if the cache has changed since, nothing is
   * touched. The batch goes without a token either way.
   */
  lemma UnauthorizedMintTakesEffect(cfg: Config, es: seq<Event>, s: System, b: nat)
    requires Reaches(cfg, es, s) && Enabled(s, ReturnFromMint(b)) && s.batches[b].pc.result == Unauthorized
    requires s.resolver.attempts[s.batches[b].pc.attempt].epoch == s.resolver.epoch
    ensures var s' := Step(cfg, s, ReturnFromMint(b)); var r, r' := s.resolver, s'.resolver;
            && s'.batches[b].pc == Answered(None, r.epoch)
            && r'.cache == (if r.cache == s.batches[b].pc.cached then None else r.cache)
            && if r.cache == s.batches[b].pc.cached && !WindowIsOpen(cfg, s) then
                 && r'.unauthorizedAt == Some(Recorded401(s.tracker.current.version, s.clock.perfMs))
                 && r'.refetchesAfter401 == r.refetchesAfter401 + 1
               else r'.unauthorizedAt == r.unauthorizedAt && r'.refetchesAfter401 == r.refetchesAfter401
  {
    RunKeepsInv(cfg, START, es);
  }

  /** When that opens the window, no continuation starts a mint or a second refetch while the window holds. */
  lemma EvictionSilencesMints(cfg: Config, es: seq<Event>, s: System, b: nat, more: seq<Event>)
    requires Reaches(cfg, es, s) && Enabled(s, ReturnFromMint(b)) && s.batches[b].pc.result == Unauthorized
    requires s.resolver.attempts[s.batches[b].pc.attempt].epoch == s.resolver.epoch
    requires s.resolver.cache == s.batches[b].pc.cached && !WindowIsOpen(cfg, s)
    requires ValidRun(cfg, Step(cfg, s, ReturnFromMint(b)), more)
    requires HeldThroughout(cfg, Step(cfg, s, ReturnFromMint(b)), more,
                            Recorded401(s.tracker.current.version, s.clock.perfMs))
    ensures var end := Exec(cfg, Step(cfg, s, ReturnFromMint(b)), more).resolver;
            && |end.attempts| == |s.resolver.attempts| && end.refetchesAfter401 == s.resolver.refetchesAfter401 + 1
  {
    var w := Recorded401(s.tracker.current.version, s.clock.perfMs);
    RunKeepsInv(cfg, START, es);
    UnauthorizedMintTakesEffect(cfg, es, s, b);
    StepKeepsInv(cfg, s, ReturnFromMint(b));
    SuppressedWindowIsQuiet(cfg, Step(cfg, s, ReturnFromMint(b)), more, w);
    assert |Step(cfg, s, ReturnFromMint(b)).resolver.attempts| == |s.resolver.attempts|;
  }

  /** A minted token is cached with its time and sent, and a session whose last read failed is read again. */
  lemma MintedTokenIsStored(cfg: Config, es: seq<Event>, s: System, b: nat)
    requires Reaches(cfg, es, s) && Enabled(s, ReturnFromMint(b))
    requires s.batches[b].pc.result.Token? && s.batches[b].pc.result.text != ""
    requires s.resolver.attempts[s.batches[b].pc.attempt].epoch == s.resolver.epoch
    ensures var s' := Step(cfg, s, ReturnFromMint(b)); var r, r', pc := s.resolver, s'.resolver, s.batches[b].pc;
            && s'.batches[b].pc == Answered(Some(Bearer(pc.result.text, pc.attempt)), r.epoch)
            && r'.cache.Some? && r'.cache.value.token == pc.result.text && r'.cache.value.attempt == pc.attempt
            && r'.cache.value.mintedAtMs == s.clock.wallMs && r'.cache != r.cache
            && r'.refetchesAfterMint == r.refetchesAfterMint +
                 (if s.tracker.current.lastSettledReadFailed && !s.tracker.current.isPending then 1 else 0)
            && r'.unauthorizedAt == r.unauthorizedAt && r'.refetchesAfter401 == r.refetchesAfter401
  {
    RunKeepsInv(cfg, START, es);
    assert |s.batches[b].pc.result.text| > 0;
  }

  /** Any other mint changes nothing; a first call then still sends the entry it saw, up to ten minutes old. */
  lemma OtherMintsChangeNothing(cfg: Config, es: seq<Event>, s: System, b: nat)
    requires Reaches(cfg, es, s) && Enabled(s, ReturnFromMint(b))
    requires || s.resolver.attempts[s.batches[b].pc.attempt].epoch != s.resolver.epoch
             || s.batches[b].pc.result in {Failed, Token("")}
    ensures var s' := Step(cfg, s, ReturnFromMint(b)); var pc := s.batches[b].pc;
            && s'.resolver == s.resolver
            && s'.batches[b].pc ==
               Answered(if s.resolver.attempts[pc.attempt].epoch == s.resolver.epoch
                           && pc.cached.Some? && !s.batches[b].bypass
                           && s.clock.wallMs - pc.cached.value.mintedAtMs < STALE_LIMIT_MS
                        then Some(Bearer(pc.cached.value.token, pc.cached.value.attempt)) else None,
                        s.resolver.epoch)
  {
    RunKeepsInv(cfg, START, es);
  }

  /** A wait that ends in time has the attempt's reply; one that does not gives up on the attempt. */
  lemma MintWaitEnds(cfg: Config, es: seq<Event>, s: System, b: nat, timedOut: bool)
    requires Reaches(cfg, es, s) && Enabled(s, EndMintWait(b, timedOut))
    ensures var s' := Step(cfg, s, EndMintWait(b, timedOut)); var pc := s.batches[b].pc;
            && s'.batches[b].pc ==
               MintBack(pc.attempt, pc.cached,
                        if timedOut then Failed else s.resolver.attempts[pc.attempt].reply.value)
            && s'.resolver.mintInFlight ==
               (if timedOut && s.resolver.mintInFlight == Some(pc.attempt) then None else s.resolver.mintInFlight)
            && s'.resolver.cache == s.resolver.cache && s'.resolver.unauthorizedAt == s.resolver.unauthorizedAt
            && |s'.resolver.attempts| == |s.resolver.attempts|
  {
    RunKeepsInv(cfg, START, es);
  }

  // ----- A call -----

  /** A batch calls the resolver: a new one, or one sent again after its response. */
  predicate Calls(e: Event, s: System, b: nat) {
    match e
    case StartBatch(_) => b == |s.batches|
    case Respond(c, status) => c == b < |s.batches| && IsRetried(s.batches[b], status)
    case _ => false
  }

  /** A 401, or a 207 to a GET that went out without a token. */
  predicate IsRetried(batch: Batch, status: Option<int>) {
    status == Some(401) || (status == Some(207) && batch.isGet && batch.header.None?)
  }

  /** A clean "no session" reading is what the session last settled on. */
  predicate KnownSignedOut(now: Snapshot) {
    now.hasSettled && !now.lastSettledAuthenticated && !now.lastSettledReadFailed
  }

  predicate HasFreshToken(s: System) {
    s.resolver.cache.Some? && s.clock.wallMs - s.resolver.cache.value.mintedAtMs < TOKEN_TTL_MS
  }

  /** A call waits for the session exactly when it is pending, unless a token is cached or it is known signed out. */
  lemma CallWaitsIff(cfg: Config, es: seq<Event>, s: System, e: Event, b: nat)
    requires Reaches(cfg, es, s) && Enabled(s, e) && Calls(e, s, b)
    ensures var s' := Step(cfg, s, e); var batch' := s'.batches[b];
            && (batch'.pc.AwaitSettle? <==>
                  && s.tracker.current.isPending && s.resolver.cache.None?
                  && (batch'.bypass || !s.tracker.current.stretchTimedOut || !KnownSignedOut(s.tracker.current)))
            && batch'.startedAt == s.clock.perfMs
            && (batch'.pc.AwaitSettle? ==>
                  && s'.resolver == s.resolver && s'.tracker.nextSettle == Some(batch'.pc.promise)
                  && batch'.pc.deadline == s.clock.perfMs + cfg.settleTimeoutMs)
  {
    RunKeepsInv(cfg, START, es);
  }

  /** Past the settle wait, if there is one: what the batch goes on to, and what it leaves alone. */
  predicate GoesOn(cfg: Config, s: System, s': System, b: nat)
    requires b < |s'.batches|
  {
    var now, r, r', batch' := s'.tracker.current, s.resolver, s'.resolver, s'.batches[b];
    var none := r.cache.None? && (if now.isPending then KnownSignedOut(now)
                                  else !now.isAuthenticated && !now.lastSettledReadFailed);
    var cachedNow := HasFreshToken(s) && !batch'.bypass;
    var held := WindowIsOpen(cfg, s'.(resolver := r));
    && (none || (held && !cachedNow) ==> batch'.pc == Answered(None, r.epoch) && r' == r)
    && (cachedNow ==>
          && batch'.pc == Answered(Some(Bearer(r.cache.value.token, r.cache.value.attempt)), r.epoch)
          && r' == r)
    && (!none && !cachedNow && !held ==>
          && batch'.pc.AwaitMint? && batch'.pc.cached == r.cache
          && r'.mintInFlight == Some(batch'.pc.attempt) && r'.cache == r.cache
          && batch'.pc.attempt < |r'.attempts| && r'.attempts[batch'.pc.attempt].epoch == r.epoch
          && batch'.pc.deadline == s.clock.perfMs + cfg.mintTimeoutMs)
  }

  /**
   * A call that does not wait: none when the session is known to be none, the
   * cached token while it is fresh and not bypassed, none while a 401's window
   * is open, and else a mint of this epoch.
   */
  lemma CallGoesOn(cfg: Config, es: seq<Event>, s: System, e: Event, b: nat)
    requires Reaches(cfg, es, s) && Enabled(s, e) && Calls(e, s, b)
    ensures !Step(cfg, s, e).batches[b].pc.AwaitSettle? ==> GoesOn(cfg, s, Step(cfg, s, e), b)
  {
    RunKeepsInv(cfg, START, es);
    if e.StartBatch? { FirstCallGoesOn(cfg, s, e, b); } else { SecondCallGoesOn(cfg, s, e, b); }
  }

  lemma FirstCallGoesOn(cfg: Config, s: System, e: Event, b: nat)
    requires TrackerInv(s.tracker) && ResolverInv(s.resolver) && e.StartBatch? && b == |s.batches|
    ensures !Step(cfg, s, e).batches[b].pc.AwaitSettle? ==> GoesOn(cfg, s, Step(cfg, s, e), b)
  {
  }

  lemma SecondCallGoesOn(cfg: Config, s: System, e: Event, b: nat)
    requires TrackerInv(s.tracker) && ResolverInv(s.resolver) && Enabled(s, e) && e.Respond? && Calls(e, s, b)
    ensures !Step(cfg, s, e).batches[b].pc.AwaitSettle? ==> GoesOn(cfg, s, Step(cfg, s, e), b)
  {
  }

  /** So does one that has waited, by the reading it then finds. */
  lemma SettleWaitGoesOn(cfg: Config, es: seq<Event>, s: System, b: nat, timedOut: bool)
    requires Reaches(cfg, es, s) && Enabled(s, EndSettleWait(b, timedOut))
    ensures GoesOn(cfg, s, Step(cfg, s, EndSettleWait(b, timedOut)), b)
  {
    RunKeepsInv(cfg, START, es);
    EndedWaitGoesOn(cfg, s, b, timedOut);
  }

  lemma EndedWaitGoesOn(cfg: Config, s: System, b: nat, timedOut: bool)
    requires TrackerInv(s.tracker) && ResolverInv(s.resolver) && Enabled(s, EndSettleWait(b, timedOut))
    ensures GoesOn(cfg, s, Step(cfg, s, EndSettleWait(b, timedOut)), b)
  {
  }

  /** A wait that timed out is marked while its stretch is pending; nothing else of the reading changes. */
  lemma TimedOutWaitIsMarked(cfg: Config, es: seq<Event>, s: System, b: nat, timedOut: bool)
    requires Reaches(cfg, es, s) && Enabled(s, EndSettleWait(b, timedOut))
    ensures var now, now' := s.tracker.current, Step(cfg, s, EndSettleWait(b, timedOut)).tracker.current;
            if timedOut && now.isPending then now' == now.(stretchTimedOut := true, version := now.version + 1)
            else now' == now
  {
  }

  // ----- A reply, a request and its response -----

  /** A mint's reply is kept, a token handed over is the one sent, and a second call without one sends nothing. */
  lemma ReplyAndRequest(cfg: Config, es: seq<Event>, s: System, e: Event, b: nat)
    requires Reaches(cfg, es, s) && Enabled(s, e)
    ensures var s' := Step(cfg, s, e);
            && (e.SettleMint? ==> s'.resolver.attempts[e.attempt].reply == Some(e.reply) &&
                                  s'.resolver.mintInFlight != Some(e.attempt) && s'.resolver.cache == s.resolver.cache)
            && (e == Deliver(b) ==> s'.batches[b].pc.Issued? && s'.batches[b].pc.bearer == s.batches[b].pc.bearer)
            && (e == Send(b) ==>
                  var batch, bearer, batch' := s.batches[b], s.batches[b].pc.bearer, s'.batches[b];
                  && batch'.header == (if bearer.Some? then bearer else batch.header)
                  && (batch'.sends == batch.sends + 1 <==> bearer.Some? || !batch.bypass)
                  && (batch'.pc == if batch.bypass then Done else Sent))
  {
    RunKeepsInv(cfg, START, es);
  }


  /** A response is retried exactly in those cases, once and past the cache; any other ends the batch. */
  lemma ResponseIsRetriedIff(cfg: Config, es: seq<Event>, s: System, b: nat, status: Option<int>)
    requires Reaches(cfg, es, s) && Enabled(s, Respond(b, status))
    ensures var s' := Step(cfg, s, Respond(b, status)); var batch' := s'.batches[b];
            && batch'.status == status && batch'.header == s.batches[b].header && batch'.sends == s.batches[b].sends
            && (batch'.bypass <==> IsRetried(s.batches[b], status))
            && (batch'.pc.Done? <==> !IsRetried(s.batches[b], status))
            && (!IsRetried(s.batches[b], status) ==> s'.resolver == s.resolver && s'.tracker == s.tracker)
  {
    RunKeepsInv(cfg, START, es);
  }

  // ----- A sign-out -----

  /** A signed-in reading, or a token handed over. */
  predicate IsSignIn(s: System, e: Event)
    requires Enabled(s, e)
  {
    (e.Read? && e.reading.isAuthenticated) || (e.Deliver? && s.batches[e.b].pc.bearer.Some?)
  }

  /** Somewhere in the run someone signs in, and no reset has been asked for since. */
  ghost predicate SignsInLast(cfg: Config, s: System, es: seq<Event>)
    requires ValidRun(cfg, s, es)
    decreases |es|
  {
    es != [] &&
    ((IsSignIn(s, es[0]) && SignOut(false) !in es[1..]) || SignsInLast(cfg, Step(cfg, s, es[0]), es[1..]))
  }

  lemma {:induction false} SignedInIff(cfg: Config, s: System, es: seq<Event>)
    requires ValidRun(cfg, s, es)
    ensures Exec(cfg, s, es).hadAuthenticated <==>
            (s.hadAuthenticated && SignOut(false) !in es) || SignsInLast(cfg, s, es)
    decreases |es|
  {
    if es != [] {
      SignInStep(cfg, s, es[0]);
      SignedInIff(cfg, Step(cfg, s, es[0]), es[1..]);
      assert es == [es[0]] + es[1..];
      assert Exec(cfg, s, es) == Exec(cfg, Step(cfg, s, es[0]), es[1..]);
    }
  }

  lemma SignInStep(cfg: Config, s: System, e: Event)
    requires HandleInRange(s.resolver) && Enabled(s, e)
    ensures Step(cfg, s, e).hadAuthenticated <==> IsSignIn(s, e) || (s.hadAuthenticated && e != SignOut(false))
  {
  }

  /** A sign-out resets the queries exactly when someone has signed in since the last reset, unless the reset throws. */
  lemma SignOutResetsIff(cfg: Config, es: seq<Event>, s: System, throws: bool)
    requires Reaches(cfg, es, s)
    ensures var s' := Step(cfg, s, SignOut(throws));
            && s'.resolver.epoch == s.resolver.epoch + 1 && s'.resolver.cache.None?
            && s'.resets == s.resets + (if !throws && SignsInLast(cfg, START, es) then 1 else 0)
            && s'.batches == s.batches && s'.resolver.attempts == s.resolver.attempts
  {
    SignedInIff(cfg, START, es);
  }
}
