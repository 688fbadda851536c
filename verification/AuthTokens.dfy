/**
 * The per-batch token resolver (`createAuthTokenResolver` in
 * apps/web/src/trpc.ts). The source suspends at three awaits (the settle wait, the
 * mint wait and the return of `mintSharedBounded`); the code between two awaits
 * is atomic, so each such stretch is one function here and one method of the class.
 */
module AuthTokens {
  import opened Options
  import opened SessionTracking

  const TOKEN_TTL_MS := 55_000
  const STALE_LIMIT_MS := 10 * 60 * 1000
  const SESSION_SETTLE_TIMEOUT_MS := 3_000
  const MINT_TIMEOUT_MS := 3_000
  const UNAUTHORIZED_SUPPRESS_MS := 5_000

  /** The injectable bounds; `DEFAULTS` is what the provider runs with. */
  datatype Config = Config(settleTimeoutMs: nat, mintTimeoutMs: nat, suppressMs: nat)

  const DEFAULTS := Config(SESSION_SETTLE_TIMEOUT_MS, MINT_TIMEOUT_MS, UNAUTHORIZED_SUPPRESS_MS)

  /** `perfMs` is monotonic (`performance.now`); `wallMs` (`Date.now`) may jump either way. */
  datatype Clock = Clock(perfMs: int, wallMs: int)

  datatype MintReply = Token(text: string) | Failed | Unauthorized

  /** One mint attempt: the epoch it started in, its reply if any, and whether a timeout dropped its handle. */
  datatype Attempt = Attempt(epoch: nat, reply: Option<MintReply>, abandoned: bool)

  /** A cache object. `id` stands for object identity, `attempt` for where its token came from. */
  datatype CacheEntry = CacheEntry(id: nat, token: string, mintedAtMs: int, attempt: nat)

  datatype Recorded401 = Recorded401(version: nat, atMs: int)

  datatype Resolver = Resolver(
    epoch: nat,
    cache: Option<CacheEntry>,
    stored: nat,
    attempts: seq<Attempt>,
    mintInFlight: Option<nat>,
    unauthorizedAt: Option<Recorded401>,
    refetchesAfter401: nat,
    refetchesAfterMint: nat
  )

  const FRESH_RESOLVER := Resolver(0, None, 0, [], None, None, 0, 0)

  /** A token handed to a batch, with the attempt that minted it. */
  datatype Bearer = Bearer(text: string, attempt: nat)

  datatype Outcome =
    | WaitForSettle(promise: nat)
    | WaitForMint(attempt: nat, cached: Option<CacheEntry>)
    | Decided(bearer: Option<Bearer>)

  predicate HandleInRange(r: Resolver) {
    r.mintInFlight.Some? ==> r.mintInFlight.value < |r.attempts|
  }

  predicate IsKnownSignedOut(s: Snapshot) {
    s.hasSettled && !s.lastSettledAuthenticated && !s.lastSettledReadFailed
  }

  predicate IsSuppressingAfter401(s: Snapshot, r: Resolver, cfg: Config, perfMs: int) {
    && r.unauthorizedAt.Some?
    && (r.unauthorizedAt.value.version == s.version || s.lastSettledReadFailed)
    && perfMs - r.unauthorizedAt.value.atMs < cfg.suppressMs
  }

  /** The synchronous head of `mintSharedBounded`: join the live attempt of this epoch, or start one. */
  function StartedOrJoined(r: Resolver): (Resolver, nat)
    requires HandleInRange(r)
  {
    if r.mintInFlight.None? || r.attempts[r.mintInFlight.value].epoch != r.epoch then
      (r.(attempts := r.attempts + [Attempt(r.epoch, None, false)], mintInFlight := Some(|r.attempts|)), |r.attempts|)
    else
      (r, r.mintInFlight.value)
  }

  /** From the end of the settle logic to the mint await. */
  function Proceeded(s: Snapshot, r: Resolver, cfg: Config, clock: Clock, bypass: bool): (Resolver, Outcome)
    requires HandleInRange(r)
  {
    if !s.isAuthenticated && !s.isPending && r.cache.None? && !s.lastSettledReadFailed then
      (r, Decided(None))
    else if r.cache.Some? && clock.wallMs - r.cache.value.mintedAtMs < TOKEN_TTL_MS && !bypass then
      (r, Decided(Some(Bearer(r.cache.value.token, r.cache.value.attempt))))
    else if IsSuppressingAfter401(s, r, cfg, clock.perfMs) then
      (r, Decided(None))
    else
      var (r', attempt) := StartedOrJoined(r);
      (r', WaitForMint(attempt, r.cache))
  }

  /** From the call of the resolver to its first await. */
  function Entered(t: Tracker, r: Resolver, cfg: Config, clock: Clock, bypass: bool): (Tracker, Resolver, Outcome)
    requires HandleInRange(r)
  {
    var s := t.current;
    if s.isPending && r.cache.None? then
      if !bypass && s.stretchTimedOut && IsKnownSignedOut(s) then
        (t, r, Decided(None))
      else
        var (t', promise) := Waited(t);
        (t', r, WaitForSettle(promise.value))
    else
      var (r', out) := Proceeded(s, r, cfg, clock, bypass);
      (t, r', out)
  }

  /** From the end of the settle wait (released, or timed out) to the mint await. */
  function SettleWaitEnded(t: Tracker, r: Resolver, cfg: Config, clock: Clock, bypass: bool, timedOut: bool)
    : (Tracker, Resolver, Outcome)
    requires HandleInRange(r)
  {
    var t' := if timedOut then Marked(t) else t;
    var s := t'.current;
    if s.isPending && r.cache.None? && IsKnownSignedOut(s) then
      (t', r, Decided(None))
    else
      var (r', out) := Proceeded(s, r, cfg, clock, bypass);
      (t', r', out)
  }

  /** The mint promise settles: its `finally` drops the handle if it is still this attempt's. */
  function MintSettled(r: Resolver, attempt: nat, reply: MintReply): Resolver
    requires attempt < |r.attempts|
  {
    r.(attempts := r.attempts[attempt := r.attempts[attempt].(reply := Some(reply))],
       mintInFlight := if r.mintInFlight == Some(attempt) then None else r.mintInFlight)
  }

  /** `mintSharedBounded` resumes after its race: a timeout drops the handle if it is still this attempt's. */
  function MintWaitEnded(r: Resolver, attempt: nat, timedOut: bool): (Resolver, MintReply)
    requires attempt < |r.attempts|
    requires !timedOut ==> r.attempts[attempt].reply.Some?
  {
    if !timedOut then (r, r.attempts[attempt].reply.value)
    else if r.mintInFlight == Some(attempt) then
      (r.(attempts := r.attempts[attempt := r.attempts[attempt].(abandoned := true)], mintInFlight := None), Failed)
    else (r, Failed)
  }

  /** From the return of `mintSharedBounded` to the resolver's answer. `cached` is what the batch saw before minting. */
  function MintReturned(s: Snapshot, r: Resolver, cfg: Config, clock: Clock, bypass: bool, attempt: nat,
                        cached: Option<CacheEntry>, result: MintReply): (Resolver, Option<Bearer>)
    requires attempt < |r.attempts|
  {
    if r.attempts[attempt].epoch != r.epoch then
      (r, None)
    else if result.Token? && |result.text| > 0 then
      (r.(cache := Some(CacheEntry(r.stored, result.text, clock.wallMs, attempt)),
          stored := r.stored + 1,
          refetchesAfterMint := r.refetchesAfterMint + if s.lastSettledReadFailed && !s.isPending then 1 else 0),
       Some(Bearer(result.text, attempt)))
    else if result.Unauthorized? then
      if r.cache != cached then (r, None)
      else
        var r' := r.(cache := None);
        if IsSuppressingAfter401(s, r', cfg, clock.perfMs) then (r', None)
        else (r'.(unauthorizedAt := Some(Recorded401(s.version, clock.perfMs)),
                  refetchesAfter401 := r.refetchesAfter401 + 1), None)
    else if cached.Some? && !bypass && clock.wallMs - cached.value.mintedAtMs < STALE_LIMIT_MS then
      (r, Some(Bearer(cached.value.token, cached.value.attempt)))
    else
      (r, None)
  }

  /** `notifySignedOut`: the epoch moves first, then the listener empties the cache. */
  function SignedOut(r: Resolver): Resolver {
    r.(epoch := r.epoch + 1, cache := None)
  }

  /** The resolver as the source has it: closures over variables they reassign. */
  class AuthTokenResolver {
    const tracker: SessionTracker
    const config: Config
    var epoch: nat
    var cache: Option<CacheEntry>
    var stored: nat
    var attempts: seq<Attempt>
    var mintInFlight: Option<nat>
    var unauthorizedAt: Option<Recorded401>
    var refetchesAfter401: nat
    var refetchesAfterMint: nat

    function State(): Resolver
      reads this
    {
      Resolver(epoch, cache, stored, attempts, mintInFlight, unauthorizedAt, refetchesAfter401, refetchesAfterMint)
    }

    ghost predicate Valid()
      reads this
    {
      HandleInRange(State())
    }

    constructor (tracker: SessionTracker, config: Config)
      ensures Valid() && State() == FRESH_RESOLVER
      ensures this.tracker == tracker && this.config == config
    {
      this.tracker := tracker;
      this.config := config;
      epoch, cache, stored, attempts := 0, None, 0, [];
      mintInFlight, unauthorizedAt := None, None;
      refetchesAfter401, refetchesAfterMint := 0, 0;
    }

    method MintShared() returns (attempt: nat)
      requires Valid()
      modifies this
      ensures Valid() && attempt < |attempts|
      ensures (State(), attempt) == StartedOrJoined(old(State()))
    {
      if mintInFlight.None? || attempts[mintInFlight.value].epoch != epoch {
        mintInFlight := Some(|attempts|);
        attempts := attempts + [Attempt(epoch, None, false)];
      }
      attempt := mintInFlight.value;
    }

    method Proceed(clock: Clock, bypass: bool) returns (out: Outcome)
      requires Valid()
      modifies this
      ensures Valid()
      ensures (State(), out) == Proceeded(old(tracker.current), old(State()), config, clock, bypass)
    {
      var session := tracker.current;
      if !session.isAuthenticated && !session.isPending && cache.None? && !session.lastSettledReadFailed {
        return Decided(None);
      }
      var cached := cache;
      var isFresh := cached.Some? && clock.wallMs - cached.value.mintedAtMs < TOKEN_TTL_MS;
      if isFresh && !bypass {
        return Decided(Some(Bearer(cached.value.token, cached.value.attempt)));
      }
      if IsSuppressingAfter401(session, State(), config, clock.perfMs) {
        return Decided(None);
      }
      var attempt := MintShared();
      out := WaitForMint(attempt, cached);
    }

    method Enter(clock: Clock, bypass: bool) returns (out: Outcome)
      requires Valid()
      modifies this, tracker
      ensures Valid()
      ensures (tracker.State(), State(), out) == Entered(old(tracker.State()), old(State()), config, clock, bypass)
    {
      if tracker.current.isPending && cache.None? {
        var before := tracker.current;
        if !bypass && before.stretchTimedOut && IsKnownSignedOut(before) {
          return Decided(None);
        }
        var promise := tracker.WaitForSettle();
        return WaitForSettle(promise.value);
      }
      out := Proceed(clock, bypass);
    }

    method EndSettleWait(clock: Clock, bypass: bool, timedOut: bool) returns (out: Outcome)
      requires Valid()
      modifies this, tracker
      ensures Valid()
      ensures (tracker.State(), State(), out)
           == SettleWaitEnded(old(tracker.State()), old(State()), config, clock, bypass, timedOut)
    {
      if timedOut {
        tracker.MarkSettleTimedOut();
      }
      var snapshot := tracker.current;
      if snapshot.isPending && cache.None? && IsKnownSignedOut(snapshot) {
        return Decided(None);
      }
      out := Proceed(clock, bypass);
    }

    method SettleMint(attempt: nat, reply: MintReply)
      requires Valid() && attempt < |attempts|
      modifies this
      ensures Valid() && State() == MintSettled(old(State()), attempt, reply)
    {
      attempts := attempts[attempt := attempts[attempt].(reply := Some(reply))];
      if mintInFlight == Some(attempt) {
        mintInFlight := None;
      }
    }

    method EndMintWait(attempt: nat, timedOut: bool) returns (result: MintReply)
      requires Valid() && attempt < |attempts|
      requires !timedOut ==> attempts[attempt].reply.Some?
      modifies this
      ensures Valid() && (State(), result) == MintWaitEnded(old(State()), attempt, timedOut)
    {
      if !timedOut {
        return attempts[attempt].reply.value;
      }
      if mintInFlight == Some(attempt) {
        attempts := attempts[attempt := attempts[attempt].(abandoned := true)];
        mintInFlight := None;
      }
      result := Failed;
    }

    method ReturnFromMint(clock: Clock, bypass: bool, attempt: nat, cached: Option<CacheEntry>, result: MintReply)
      returns (bearer: Option<Bearer>)
      requires Valid() && attempt < |attempts|
      modifies this
      ensures Valid()
      ensures (State(), bearer)
           == MintReturned(old(tracker.current), old(State()), config, clock, bypass, attempt, cached, result)
    {
      if attempts[attempt].epoch != epoch {
        return None;
      }
      if result.Token? && |result.text| > 0 {
        cache := Some(CacheEntry(stored, result.text, clock.wallMs, attempt));
        stored := stored + 1;
        var now := tracker.current;
        if now.lastSettledReadFailed && !now.isPending {
          refetchesAfterMint := refetchesAfterMint + 1;
        }
        return Some(Bearer(result.text, attempt));
      }
      if result.Unauthorized? {
        if cache == cached {
          cache := None;
          if !IsSuppressingAfter401(tracker.current, State(), config, clock.perfMs) {
            unauthorizedAt := Some(Recorded401(tracker.current.version, clock.perfMs));
            refetchesAfter401 := refetchesAfter401 + 1;
          }
        }
        return None;
      }
      if cached.Some? && !bypass {
        var tokenAgeMs := clock.wallMs - cached.value.mintedAtMs;
        if tokenAgeMs < STALE_LIMIT_MS {
          return Some(Bearer(cached.value.token, cached.value.attempt));
        }
      }
      bearer := None;
    }

    method SignOut()
      requires Valid()
      modifies this
      ensures Valid() && State() == SignedOut(old(State()))
    {
      epoch := epoch + 1;
      cache := None;
    }
  }
}
