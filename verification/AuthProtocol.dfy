/**
 * Many concurrent batches over one tracker and one resolver. A batch's program
 * counter names the await it is parked at; the environment supplies session
 * readings, mint replies, timeouts, responses, sign-outs and the clock. Theorems
 * hold on every finite interleaving.
 *
 * Timeouts are enabled at any moment here, which allows more runs than the real
 * timers do; only the time bound at the end assumes that timers fire on time.
 */
module AuthProtocol {
  import opened Options
  import opened SessionTracking
  import opened AuthTokens

  datatype Pc =
    | AwaitSettle(promise: nat, deadline: int)
    | AwaitMint(attempt: nat, cached: Option<CacheEntry>, deadline: int)
    | MintBack(attempt: nat, cached: Option<CacheEntry>, result: MintReply)
    | Answered(bearer: Option<Bearer>, epoch: nat)  // `epoch`: the auth epoch when the resolver answered
    | Issued(bearer: Option<Bearer>, epoch: nat)    // handed over, and on its way through `headers()` and the link
    | Sent
    | Done

  /**
   * One batch: `headers()` resolves a token (`bypass` false), the request goes
   * out, and the response may lead to one bypassing resolve and one re-send.
   * `deliveredAt` is the number of query resets when a token was last handed over to it.
   */
  datatype Batch = Batch(
    isGet: bool,
    bypass: bool,
    startedAt: int,
    pc: Pc,
    header: Option<Bearer>,
    status: Option<int>,
    sends: nat,
    deliveredAt: nat
  )

  datatype System = System(
    tracker: Tracker,
    resolver: Resolver,
    clock: Clock,
    batches: seq<Batch>,
    hadAuthenticated: bool,
    resets: nat
  )

  const START: System := System(INITIAL, FRESH_RESOLVER, Clock(0, 0), [], false, 0)

  datatype Event =
    | StartBatch(isGet: bool)
    | EndSettleWait(b: nat, timedOut: bool)
    | SettleMint(attempt: nat, reply: MintReply)
    | EndMintWait(b: nat, timedOut: bool)
    | ReturnFromMint(b: nat)
    | Deliver(b: nat)                       // `onTokenIssued`
    | Send(b: nat)                          // the header is set and the fetch starts
    | Respond(b: nat, status: Option<int>)  // `None`: the fetch itself failed
    | Read(reading: Reading)
    | SignOut(resetThrows: bool)
    | Tick(clock: Clock)

  /** `shouldRetryWithFreshToken`. */
  predicate ShouldRetryWithFreshToken(status: int, hadHeader: bool, isGet: bool) {
    status == 401 || (status == 207 && isGet && !hadHeader)
  }

  predicate Enabled(s: System, e: Event) {
    match e
    case StartBatch(_) => true
    case EndSettleWait(b, timedOut) =>
      b < |s.batches| && s.batches[b].pc.AwaitSettle? &&
      (timedOut || s.batches[b].pc.promise in s.tracker.resolved)
    case SettleMint(a, _) => a < |s.resolver.attempts| && s.resolver.attempts[a].reply.None?
    case EndMintWait(b, timedOut) =>
      b < |s.batches| && s.batches[b].pc.AwaitMint? && s.batches[b].pc.attempt < |s.resolver.attempts| &&
      (timedOut || s.resolver.attempts[s.batches[b].pc.attempt].reply.Some?)
    case ReturnFromMint(b) =>
      b < |s.batches| && s.batches[b].pc.MintBack? && s.batches[b].pc.attempt < |s.resolver.attempts|
    case Deliver(b) => b < |s.batches| && s.batches[b].pc.Answered?
    case Send(b) => b < |s.batches| && s.batches[b].pc.Issued?
    case Respond(b, _) => b < |s.batches| && s.batches[b].pc.Sent?
    case Read(_) => true
    case SignOut(_) => true
    case Tick(clock) => s.clock.perfMs <= clock.perfMs
  }

  function PcOf(out: Outcome, epoch: nat, cfg: Config, clock: Clock): Pc {
    match out
    case WaitForSettle(p) => AwaitSettle(p, clock.perfMs + cfg.settleTimeoutMs)
    case WaitForMint(a, cached) => AwaitMint(a, cached, clock.perfMs + cfg.mintTimeoutMs)
    case Decided(bearer) => Answered(bearer, epoch)
  }

  /** A batch calls the resolver and runs to its first await. */
  function Call(cfg: Config, s: System, batch: Batch): (System, Batch)
    requires HandleInRange(s.resolver)
  {
    var (t, r, out) := Entered(s.tracker, s.resolver, cfg, s.clock, batch.bypass);
    (s.(tracker := t, resolver := r),
     batch.(startedAt := s.clock.perfMs, pc := PcOf(out, r.epoch, cfg, s.clock)))
  }

  function Step(cfg: Config, s: System, e: Event): System
    requires HandleInRange(s.resolver) && Enabled(s, e)
  {
    match e
    case StartBatch(isGet) =>
      var (s', batch) := Call(cfg, s, Batch(isGet, false, 0, Sent, None, None, 0, 0));
      s'.(batches := s.batches + [batch])
    case EndSettleWait(b, timedOut) =>
      var batch := s.batches[b];
      var (t, r, out) := SettleWaitEnded(s.tracker, s.resolver, cfg, s.clock, batch.bypass, timedOut);
      s.(tracker := t, resolver := r, batches := s.batches[b := batch.(pc := PcOf(out, r.epoch, cfg, s.clock))])
    case SettleMint(a, reply) =>
      s.(resolver := MintSettled(s.resolver, a, reply))
    case EndMintWait(b, timedOut) =>
      var batch := s.batches[b];
      var (r, result) := MintWaitEnded(s.resolver, batch.pc.attempt, timedOut);
      s.(resolver := r, batches := s.batches[b := batch.(pc := MintBack(batch.pc.attempt, batch.pc.cached, result))])
    case ReturnFromMint(b) =>
      var batch := s.batches[b];
      var (r, bearer) := MintReturned(s.tracker.current, s.resolver, cfg, s.clock, batch.bypass,
                                      batch.pc.attempt, batch.pc.cached, batch.pc.result);
      s.(resolver := r, batches := s.batches[b := batch.(pc := Answered(bearer, r.epoch))])
    case Deliver(b) =>
      var batch := s.batches[b];
      var next := batch.(pc := Issued(batch.pc.bearer, batch.pc.epoch));
      if next.pc.bearer.Some? then
        s.(hadAuthenticated := true, batches := s.batches[b := next.(deliveredAt := s.resets)])
      else
        s.(batches := s.batches[b := next])
    case Send(b) =>
      var batch := s.batches[b];
      var bearer := batch.pc.bearer;
      var sends := if !batch.bypass || bearer.Some? then batch.sends + 1 else batch.sends;
      var next := batch.(pc := if batch.bypass then Done else Sent, sends := sends);
      s.(batches := s.batches[b := if bearer.Some? then next.(header := bearer) else next])
    case Respond(b, status) =>
      var batch := s.batches[b].(status := status);
      if status.Some? && ShouldRetryWithFreshToken(status.value, batch.header.Some?, batch.isGet) then
        var (s', batch') := Call(cfg, s, batch.(bypass := true));
        s'.(batches := s.batches[b := batch'])
      else
        s.(batches := s.batches[b := batch.(pc := Done)])
    case Read(reading) =>
      s.(tracker := Updated(s.tracker, reading), hadAuthenticated := s.hadAuthenticated || reading.isAuthenticated)
    case SignOut(resetThrows) =>
      var s' := s.(resolver := SignedOut(s.resolver));
      if s.hadAuthenticated && !resetThrows then s'.(hadAuthenticated := false, resets := s.resets + 1) else s'
    case Tick(clock) =>
      s.(clock := clock)
  }

  // ----- The invariant -----

  predicate TrackerInv(t: Tracker) {
    && (t.current.stretchTimedOut ==> t.current.isPending)
    && (t.nextSettle.Some? ==> t.current.isPending)
    && (!t.current.isPending ==>
          t.current.hasSettled && t.current.lastSettledAuthenticated == t.current.isAuthenticated)
    && !(t.current.lastSettledReadFailed && t.current.lastSettledAuthenticated)
  }

  /** The entry's token is what its attempt answered. */
  predicate EntrySound(r: Resolver, e: CacheEntry) {
    e.attempt < |r.attempts| && r.attempts[e.attempt].reply == Some(Token(e.token)) && |e.token| > 0 && e.id < r.stored
  }

  predicate BearerSound(r: Resolver, b: Bearer) {
    b.attempt < |r.attempts| && r.attempts[b.attempt].reply == Some(Token(b.text)) && |b.text| > 0
  }

  predicate Unfinished(a: Attempt) { a.reply.None? && !a.abandoned }

  predicate ResolverInv(r: Resolver) {
    && (r.cache.Some? ==> EntrySound(r, r.cache.value) && r.attempts[r.cache.value.attempt].epoch == r.epoch)
    && (r.mintInFlight.Some? ==>
          r.mintInFlight.value < |r.attempts| && Unfinished(r.attempts[r.mintInFlight.value]))
    && (forall a :: 0 <= a < |r.attempts| ==> r.attempts[a].epoch <= r.epoch)
    && (forall a :: 0 <= a < |r.attempts| && r.attempts[a].epoch == r.epoch && Unfinished(r.attempts[a]) ==>
          r.mintInFlight == Some(a))
  }

  predicate CapturedSound(r: Resolver, attempt: nat, cached: Option<CacheEntry>) {
    && attempt < |r.attempts|
    && (cached.Some? ==>
          EntrySound(r, cached.value) && r.attempts[cached.value.attempt].epoch == r.attempts[attempt].epoch)
  }

  predicate PcInv(r: Resolver, pc: Pc) {
    match pc
    case AwaitMint(a, cached, _) => CapturedSound(r, a, cached)
    case MintBack(a, cached, result) =>
      CapturedSound(r, a, cached) && (result == Failed || r.attempts[a].reply == Some(result))
    case Answered(bearer, epoch) =>
      epoch <= r.epoch &&
      (bearer.Some? ==> BearerSound(r, bearer.value) && r.attempts[bearer.value.attempt].epoch == epoch)
    case Issued(bearer, epoch) =>
      epoch <= r.epoch &&
      (bearer.Some? ==> BearerSound(r, bearer.value) && r.attempts[bearer.value.attempt].epoch == epoch)
    case _ => true
  }

  predicate BatchInv(r: Resolver, b: Batch) {
    && PcInv(r, b.pc)
    && (b.header.Some? ==> BearerSound(r, b.header.value))
    && (b.pc.Sent? ==> !b.bypass && b.sends == 1)
    && (!b.bypass && !b.pc.Sent? && !b.pc.Done? ==> b.sends == 0 && b.header.None?)
    && (b.bypass && !b.pc.Done? ==> b.sends == 1)
    && (b.bypass ==> b.status.Some? && (b.status.value == 401 || (b.status.value == 207 && b.isGet)))
    && b.sends <= (if b.bypass then 2 else 1)
    && (b.pc.Done? ==> b.sends >= 1)
  }

  /** A token has been handed over to the batch, whether or not its request is out. */
  predicate Received(b: Batch) { b.header.Some? || (b.pc.Issued? && b.pc.bearer.Some?) }

  predicate Inv(s: System) {
    && TrackerInv(s.tracker)
    && ResolverInv(s.resolver)
    && (forall b :: 0 <= b < |s.batches| ==> BatchInv(s.resolver, s.batches[b]))
    && (forall b :: 0 <= b < |s.batches| && Received(s.batches[b]) ==>
          s.batches[b].deliveredAt <= s.resets &&
          (s.batches[b].deliveredAt == s.resets ==> s.hadAuthenticated))
  }

  /** What no step undoes: attempts are never forgotten, re-epoched or re-answered. */
  predicate Grows(r: Resolver, r': Resolver) {
    && |r.attempts| <= |r'.attempts| && r.epoch <= r'.epoch && r.stored <= r'.stored
    && (forall a :: 0 <= a < |r.attempts| ==>
          r'.attempts[a].epoch == r.attempts[a].epoch &&
          (r.attempts[a].reply.Some? ==> r'.attempts[a].reply == r.attempts[a].reply))
  }

  lemma PcInvSurvivesGrowth(r: Resolver, r': Resolver, pc: Pc)
    requires PcInv(r, pc) && Grows(r, r')
    ensures PcInv(r', pc)
  {
  }

  lemma BatchesSurviveGrowth(r: Resolver, r': Resolver, batches: seq<Batch>)
    requires forall b :: 0 <= b < |batches| ==> BatchInv(r, batches[b])
    requires Grows(r, r')
    ensures forall b :: 0 <= b < |batches| ==> BatchInv(r', batches[b])
  {
    forall b | 0 <= b < |batches| ensures BatchInv(r', batches[b]) {
      PcInvSurvivesGrowth(r, r', batches[b].pc);
    }
  }

  lemma ProceededKeepsInv(s: Snapshot, r: Resolver, cfg: Config, clock: Clock, bypass: bool)
    requires ResolverInv(r)
    ensures var (r', out) := Proceeded(s, r, cfg, clock, bypass);
            ResolverInv(r') && Grows(r, r') && PcInv(r', PcOf(out, r'.epoch, cfg, clock))
  {
  }

  lemma CallKeepsInv(cfg: Config, s: System, batch: Batch)
    requires TrackerInv(s.tracker) && ResolverInv(s.resolver)
    ensures var (s', batch') := Call(cfg, s, batch);
            TrackerInv(s'.tracker) && ResolverInv(s'.resolver) && Grows(s.resolver, s'.resolver) &&
            PcInv(s'.resolver, batch'.pc) && !batch'.pc.Sent? && !batch'.pc.Done? && !batch'.pc.Issued?
  {
    ProceededKeepsInv(s.tracker.current, s.resolver, cfg, s.clock, batch.bypass);
  }

  lemma MintSettledKeepsInv(r: Resolver, a: nat, reply: MintReply)
    requires ResolverInv(r) && a < |r.attempts| && r.attempts[a].reply.None?
    ensures ResolverInv(MintSettled(r, a, reply)) && Grows(r, MintSettled(r, a, reply))
  {
  }

  /** One batch moves on, the others keep what the resolver's growth cannot take from them. */
  lemma MovedBatchKeepsInv(s: System, s': System, b: nat)
    requires Inv(s) && b < |s.batches|
    requires TrackerInv(s'.tracker) && ResolverInv(s'.resolver) && Grows(s.resolver, s'.resolver)
    requires |s'.batches| == |s.batches| && s'.batches == s.batches[b := s'.batches[b]]
    requires BatchInv(s'.resolver, s'.batches[b])
    requires s'.resets == s.resets && (s.hadAuthenticated ==> s'.hadAuthenticated)
    requires s'.batches[b].header == s.batches[b].header && s'.batches[b].deliveredAt == s.batches[b].deliveredAt
    requires !s'.batches[b].pc.Issued?
    ensures Inv(s')
  {
    BatchesSurviveGrowth(s.resolver, s'.resolver, s.batches);
  }

  lemma MintWaitEndedKeepsInv(r: Resolver, a: nat, cached: Option<CacheEntry>, timedOut: bool)
    requires ResolverInv(r) && CapturedSound(r, a, cached)
    requires !timedOut ==> r.attempts[a].reply.Some?
    ensures var (r', result) := MintWaitEnded(r, a, timedOut);
            ResolverInv(r') && Grows(r, r') && PcInv(r', MintBack(a, cached, result))
  {
  }

  lemma MintReturnedKeepsInv(s: Snapshot, r: Resolver, cfg: Config, clock: Clock, bypass: bool, pc: Pc)
    requires ResolverInv(r) && pc.MintBack? && PcInv(r, pc)
    ensures var (r', bearer) := MintReturned(s, r, cfg, clock, bypass, pc.attempt, pc.cached, pc.result);
            ResolverInv(r') && Grows(r, r') && PcInv(r', Answered(bearer, r'.epoch))
  {
  }

  lemma StepKeepsInv(cfg: Config, s: System, e: Event)
    requires Inv(s) && Enabled(s, e)
    ensures Inv(Step(cfg, s, e)) && Grows(s.resolver, Step(cfg, s, e).resolver)
  {
    match e
    case StartBatch(isGet) => StartBatchKeepsInv(cfg, s, isGet);
    case EndSettleWait(b, timedOut) => EndSettleWaitKeepsInv(cfg, s, b, timedOut);
    case SettleMint(a, reply) => SettleMintKeepsInv(cfg, s, a, reply);
    case EndMintWait(b, timedOut) => EndMintWaitKeepsInv(cfg, s, b, timedOut);
    case ReturnFromMint(b) => ReturnFromMintKeepsInv(cfg, s, b);
    case Deliver(b) => DeliverKeepsInv(cfg, s, b);
    case Send(b) => SendKeepsInv(cfg, s, b);
    case Respond(b, status) => RespondKeepsInv(cfg, s, b, status);
    case Read(reading) => ReadKeepsInv(cfg, s, reading);
    case SignOut(_) => SignOutKeepsInv(cfg, s, e);
    case Tick(_) =>
  }

  lemma ReadKeepsInv(cfg: Config, s: System, reading: Reading)
    requires Inv(s)
    ensures var s' := Step(cfg, s, Read(reading)); Inv(s') && Grows(s.resolver, s'.resolver)
  {
  }

  lemma SettleMintKeepsInv(cfg: Config, s: System, a: nat, reply: MintReply)
    requires Inv(s) && Enabled(s, SettleMint(a, reply))
    ensures var s' := Step(cfg, s, SettleMint(a, reply)); Inv(s') && Grows(s.resolver, s'.resolver)
  {
    MintSettledKeepsInv(s.resolver, a, reply);
    BatchesSurviveGrowth(s.resolver, MintSettled(s.resolver, a, reply), s.batches);
  }

  lemma EndMintWaitKeepsInv(cfg: Config, s: System, b: nat, timedOut: bool)
    requires Inv(s) && Enabled(s, EndMintWait(b, timedOut))
    ensures var s' := Step(cfg, s, EndMintWait(b, timedOut)); Inv(s') && Grows(s.resolver, s'.resolver)
  {
    var pc := s.batches[b].pc;
    MintWaitEndedKeepsInv(s.resolver, pc.attempt, pc.cached, timedOut);
    MovedBatchKeepsInv(s, Step(cfg, s, EndMintWait(b, timedOut)), b);
  }

  lemma ReturnFromMintKeepsInv(cfg: Config, s: System, b: nat)
    requires Inv(s) && Enabled(s, ReturnFromMint(b))
    ensures var s' := Step(cfg, s, ReturnFromMint(b)); Inv(s') && Grows(s.resolver, s'.resolver)
  {
    MintReturnedKeepsInv(s.tracker.current, s.resolver, cfg, s.clock, s.batches[b].bypass, s.batches[b].pc);
    MovedBatchKeepsInv(s, Step(cfg, s, ReturnFromMint(b)), b);
  }

  lemma StartBatchKeepsInv(cfg: Config, s: System, isGet: bool)
    requires Inv(s)
    ensures var s' := Step(cfg, s, StartBatch(isGet)); Inv(s') && Grows(s.resolver, s'.resolver)
  {
    var s' := Step(cfg, s, StartBatch(isGet));
    CallKeepsInv(cfg, s, Batch(isGet, false, 0, Sent, None, None, 0, 0));
    BatchesSurviveGrowth(s.resolver, s'.resolver, s.batches);
  }

  lemma SettleWaitEndedKeepsInv(cfg: Config, s: System, bypass: bool, timedOut: bool)
    requires TrackerInv(s.tracker) && ResolverInv(s.resolver)
    ensures var (t, r, out) := SettleWaitEnded(s.tracker, s.resolver, cfg, s.clock, bypass, timedOut);
            var pc := PcOf(out, r.epoch, cfg, s.clock);
            && TrackerInv(t) && ResolverInv(r) && Grows(s.resolver, r)
            && PcInv(r, pc) && !pc.Sent? && !pc.Done? && !pc.Issued?
  {
    var t := if timedOut then Marked(s.tracker) else s.tracker;
    ProceededKeepsInv(t.current, s.resolver, cfg, s.clock, bypass);
  }

  lemma EndSettleWaitKeepsInv(cfg: Config, s: System, b: nat, timedOut: bool)
    requires Inv(s) && Enabled(s, EndSettleWait(b, timedOut))
    ensures var s' := Step(cfg, s, EndSettleWait(b, timedOut)); Inv(s') && Grows(s.resolver, s'.resolver)
  {
    var (t, r, out) := SettleWaitEnded(s.tracker, s.resolver, cfg, s.clock, s.batches[b].bypass, timedOut);
    SettleWaitEndedKeepsInv(cfg, s, s.batches[b].bypass, timedOut);
    assert BatchInv(s.resolver, s.batches[b]);
    WaitedBatchKeepsInv(s, b, t, r, PcOf(out, r.epoch, cfg, s.clock));
  }

  /** A batch goes on to another place. */
  lemma WaitedBatchKeepsInv(s: System, b: nat, t: Tracker, r: Resolver, pc: Pc)
    requires Inv(s) && b < |s.batches| && s.batches[b].pc.AwaitSettle?
    requires TrackerInv(t) && ResolverInv(r) && Grows(s.resolver, r)
    requires PcInv(r, pc) && !pc.Sent? && !pc.Done? && !pc.Issued?
    ensures Inv(s.(tracker := t, resolver := r, batches := s.batches[b := s.batches[b].(pc := pc)]))
  {
    var s' := s.(tracker := t, resolver := r, batches := s.batches[b := s.batches[b].(pc := pc)]);
    assert BatchInv(s.resolver, s.batches[b]);
    MovedBatchKeepsInv(s, s', b);
  }

  lemma DeliverKeepsInv(cfg: Config, s: System, b: nat)
    requires Inv(s) && Enabled(s, Deliver(b))
    ensures var s' := Step(cfg, s, Deliver(b)); Inv(s') && Grows(s.resolver, s'.resolver)
  {
  }

  lemma SendKeepsInv(cfg: Config, s: System, b: nat)
    requires Inv(s) && Enabled(s, Send(b))
    ensures var s' := Step(cfg, s, Send(b)); Inv(s') && Grows(s.resolver, s'.resolver)
  {
  }

  predicate Retries(batch: Batch, status: Option<int>) {
    status.Some? && ShouldRetryWithFreshToken(status.value, batch.header.Some?, batch.isGet)
  }

  lemma FinishKeepsInv(cfg: Config, s: System, b: nat, status: Option<int>)
    requires Inv(s) && Enabled(s, Respond(b, status)) && !Retries(s.batches[b], status)
    ensures var s' := Step(cfg, s, Respond(b, status)); Inv(s') && Grows(s.resolver, s'.resolver)
  {
    MovedBatchKeepsInv(s, Step(cfg, s, Respond(b, status)), b);
  }

  lemma RetriedBatchKeepsInv(cfg: Config, s: System, b: nat, status: Option<int>)
    requires Inv(s) && Enabled(s, Respond(b, status)) && Retries(s.batches[b], status)
    ensures var (s', batch') := Call(cfg, s, s.batches[b].(status := status, bypass := true));
            && s'.batches == s.batches && s'.resets == s.resets && s'.hadAuthenticated == s.hadAuthenticated
            && batch'.header == s.batches[b].header && batch'.deliveredAt == s.batches[b].deliveredAt
            && TrackerInv(s'.tracker) && ResolverInv(s'.resolver) && Grows(s.resolver, s'.resolver)
            && BatchInv(s'.resolver, batch') && !batch'.pc.Issued?
  {
    CallKeepsInv(cfg, s, s.batches[b].(status := status, bypass := true));
  }

  lemma RespondKeepsInv(cfg: Config, s: System, b: nat, status: Option<int>)
    requires Inv(s) && Enabled(s, Respond(b, status))
    ensures var s' := Step(cfg, s, Respond(b, status)); Inv(s') && Grows(s.resolver, s'.resolver)
  {
    if Retries(s.batches[b], status) {
      RetriedBatchKeepsInv(cfg, s, b, status);
      MovedBatchKeepsInv(s, Step(cfg, s, Respond(b, status)), b);
    } else {
      FinishKeepsInv(cfg, s, b, status);
    }
  }

  lemma SignOutKeepsInv(cfg: Config, s: System, e: Event)
    requires Inv(s) && e.SignOut?
    ensures Inv(Step(cfg, s, e)) && Grows(s.resolver, Step(cfg, s, e).resolver)
  {
    BatchesSurviveGrowth(s.resolver, Step(cfg, s, e).resolver, s.batches);
  }
}
