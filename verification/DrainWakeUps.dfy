/**
 * Requests for write-triggered drains on one instance, interleaved at their
 * awaits: the flight handling of the run route (apps/jobs/src/app.ts, lines
 * 441-452, 708-735, 797-850 and 913) over `DrainFlights`.
 */
module DrainWakeUps {
  import opened Options
  import opened Replies
  import opened DrainFlights

  type Request = nat

  datatype Flight = Flight(name: string, rerun: bool, startedAt: nat)

  /** What a finished request did with what was left: nothing to do, or a fresh run asked for, if there is a trigger. */
  datatype HandOff = NotWanted | Kick(trigger: Option<Reply>)

  /** How a request let go of its flight. `pass` is the last pass it ran, counted from 0. */
  datatype Fate = Disabled | Broke | Threw(pass: nat) | Finished(pass: nat, handOff: HandOff)

  /**
   * Where a request stands: awaiting the enabled check, awaiting a pass of the
   * handler, awaiting the answer of the follow-up loop, awaiting the trigger,
   * done with its flight, answered. `more` is the handler's `hasMore`.
   */
  datatype Stage =
    | Deciding
    | Running(pass: nat)
    | Looped(capped: bool, more: bool, pass: nat)
    | Kicking(pass: nat)
    | Left(fate: Fate)
    | Responded(fate: Fate)

  /** A request that opened a flight. */
  datatype Drain = Drain(wakeUp: bool, flight: Flight, stage: Stage)

  /** `open` names the request whose flight is open. */
  datatype System = System(now: nat, open: map<string, Request>, drains: map<Request, Drain>)

  const IDLE := System(0, map[], map[])

  /** `CheckBreaks`: a throw before the `try`. `Kicked` carries no reply when there is no trigger. */
  datatype Event =
    | Arrive(request: Request, name: string, wakeUp: bool, now: nat)
    | FindEnabled(request: Request)
    | FindDisabled(request: Request)
    | CheckBreaks(request: Request)
    | PassReturns(request: Request, more: bool, now: nat)
    | PassThrows(request: Request)
    | LoopAnswers(request: Request)
    | Kicked(request: Request, trigger: Option<Reply>)
    | Respond(request: Request)

  // ----- Steps -----

  predicate IsOpen(s: System, r: Request, name: string) { name in s.open && s.open[name] == r }

  function Close(s: System, r: Request): System
    requires r in s.drains
  {
    var name := s.drains[r].flight.name;
    if IsOpen(s, r, name) then s.(open := s.open - {name}) else s
  }

  function With(s: System, r: Request, d: Drain): System { s.(drains := s.drains[r := d]) }

  function At(s: System, r: Request, stage: Stage): System
    requires r in s.drains
  {
    With(s, r, s.drains[r].(stage := stage))
  }

  /** A flight under six minutes old is open for the drain. */
  predicate Coalesces(s: System, name: string, now: nat) {
    name in s.open && s.open[name] in s.drains && !Expired(s.drains[s.open[name]].flight.startedAt, now)
  }

  function Marked(s: System, r: Request): System
    requires r in s.drains
  {
    With(s, r, s.drains[r].(flight := s.drains[r].flight.(rerun := true)))
  }

  function Opened(s: System, r: Request, name: string, wakeUp: bool): System {
    With(s.(open := s.open[name := r]), r, Drain(wakeUp, Flight(name, false, s.now), Deciding))
  }

  /** A wake-up that an open flight takes in only marks it; any other request opens a flight. */
  function Arrived(s: System, r: Request, name: string, wakeUp: bool): System {
    if wakeUp && Coalesces(s, name, s.now) then Marked(s, s.open[name]) else Opened(s, r, name, wakeUp)
  }

  /** The flight is closed, and the rest handed to a fresh request if there is any. */
  function HandedOn(s: System, r: Request, pass: nat, wanted: bool): System
    requires r in s.drains
  {
    At(Close(s, r), r, if wanted then Kicking(pass) else Left(Finished(pass, NotWanted)))
  }

  /** After a pass: a wake-up request turns its loop; any other hands its wake-ups on at once. */
  function Returned(s: System, r: Request, more: bool): System
    requires r in s.drains && s.drains[r].stage.Running?
  {
    var d := s.drains[r];
    var pass := d.stage.pass;
    if !d.wakeUp then HandedOn(s, r, pass, more || d.flight.rerun)
    else
      match TurnOf(d.flight.rerun, pass, d.flight.startedAt, s.now)
      case RunAgain => With(s, r, Drain(true, d.flight.(rerun := false), Running(pass + 1)))
      case Stop(capped) => At(s, r, Looped(capped, more, pass))
  }

  predicate Enabled(s: System, e: Event) {
    match e
    case Arrive(r, _, _, now) => r !in s.drains && s.now <= now
    case FindEnabled(r) => r in s.drains && s.drains[r].stage.Deciding?
    case FindDisabled(r) => r in s.drains && s.drains[r].stage.Deciding?
    case CheckBreaks(r) => r in s.drains && s.drains[r].stage.Deciding?
    case PassReturns(r, _, now) => r in s.drains && s.drains[r].stage.Running? && s.now <= now
    case PassThrows(r) => r in s.drains && s.drains[r].stage.Running?
    case LoopAnswers(r) => r in s.drains && s.drains[r].stage.Looped?
    case Kicked(r, _) => r in s.drains && s.drains[r].stage.Kicking?
    case Respond(r) => r in s.drains && s.drains[r].stage.Left?
  }

  function Step(s: System, e: Event): System
    requires Enabled(s, e)
  {
    match e
    case Arrive(r, name, wakeUp, now) => Arrived(s.(now := now), r, name, wakeUp)
    case FindEnabled(r) => At(s, r, Running(0))
    case FindDisabled(r) => At(Close(s, r), r, Left(Disabled))
    case CheckBreaks(r) => At(s, r, Left(Broke))
    case PassReturns(r, more, now) => Returned(s.(now := now), r, more)
    case PassThrows(r) => At(Close(s, r), r, Left(Threw(s.drains[r].stage.pass)))
    case LoopAnswers(r) =>
      var Looped(capped, more, pass) := s.drains[r].stage;
      HandedOn(s, r, pass, more || capped)
    case Kicked(r, trigger) => At(s, r, Left(Finished(s.drains[r].stage.pass, Kick(trigger))))
    case Respond(r) => At(Close(s, r), r, Responded(s.drains[r].stage.fate))
  }

  // ----- Runs -----

  predicate ValidRun(events: seq<Event>)
    decreases |events|, 0
  {
    events == [] ||
    (ValidRun(events[..|events| - 1]) && Enabled(Exec(events[..|events| - 1]), events[|events| - 1]))
  }

  function Exec(events: seq<Event>): System
    requires ValidRun(events)
    decreases |events|, 1
  {
    if events == [] then IDLE else Step(Exec(events[..|events| - 1]), events[|events| - 1])
  }

  /** Only a request whose start broke keeps its flight open until it is answered. */
  predicate Holds(stage: Stage) {
    stage.Deciding? || stage.Running? || stage.Looped? || stage == Left(Broke)
  }

  predicate Bounded(stage: Stage) {
    (stage.Running? || stage.Looped? || stage.Kicking?) ==> stage.pass <= MAX_COALESCED_RERUNS
  }

  /** Every open flight is its own, and belongs to a request that has not let go of it. */
  ghost predicate Inv(s: System) {
    && (forall n :: n in s.open ==> s.open[n] in s.drains && s.drains[s.open[n]].flight.name == n
                                    && Holds(s.drains[s.open[n]].stage))
    && (forall r :: r in s.drains ==> Bounded(s.drains[r].stage))
  }

  lemma CloseKeepsInv(s: System, r: Request, stage: Stage)
    requires Inv(s) && r in s.drains && Bounded(stage)
    ensures Inv(At(Close(s, r), r, stage))
  {
  }

  lemma AtKeepsInv(s: System, r: Request, d: Drain)
    requires Inv(s) && r in s.drains && d.flight.name == s.drains[r].flight.name && Bounded(d.stage) && Holds(d.stage)
    ensures Inv(With(s, r, d))
  {
  }

  lemma ArriveKeepsInv(s: System, r: Request, name: string, wakeUp: bool)
    requires Inv(s) && r !in s.drains
    ensures Inv(Arrived(s, r, name, wakeUp))
  {
    if wakeUp && Coalesces(s, name, s.now) {
      var d := s.drains[s.open[name]];
      AtKeepsInv(s, s.open[name], d.(flight := d.flight.(rerun := true)));
    }
  }

  lemma ReturnKeepsInv(s: System, r: Request, more: bool)
    requires Inv(s) && r in s.drains && s.drains[r].stage.Running?
    ensures Inv(Returned(s, r, more))
  {
    var d := s.drains[r];
    var pass := d.stage.pass;
    if !d.wakeUp {
      CloseKeepsInv(s, r, if more || d.flight.rerun then Kicking(pass) else Left(Finished(pass, NotWanted)));
    } else {
      match TurnOf(d.flight.rerun, pass, d.flight.startedAt, s.now)
      case RunAgain => AtKeepsInv(s, r, Drain(true, d.flight.(rerun := false), Running(pass + 1)));
      case Stop(capped) => AtKeepsInv(s, r, d.(stage := Looped(capped, more, pass)));
    }
  }

  lemma KickKeepsInv(s: System, r: Request, stage: Stage)
    requires Inv(s) && r in s.drains && s.drains[r].stage.Kicking? && Bounded(stage)
    ensures Inv(At(s, r, stage))
  {
    assert forall n :: n in s.open ==> s.open[n] != r;
  }

  lemma StepKeepsInv(s: System, e: Event)
    requires Inv(s) && Enabled(s, e)
    ensures Inv(Step(s, e))
  {
    match e
    case Arrive(r, name, wakeUp, now) => ArriveKeepsInv(s.(now := now), r, name, wakeUp);
    case FindEnabled(r) => AtKeepsInv(s, r, s.drains[r].(stage := Running(0)));
    case FindDisabled(r) => CloseKeepsInv(s, r, Left(Disabled));
    case CheckBreaks(r) => AtKeepsInv(s, r, s.drains[r].(stage := Left(Broke)));
    case PassReturns(r, more, now) => ReturnKeepsInv(s.(now := now), r, more);
    case PassThrows(r) => CloseKeepsInv(s, r, Left(Threw(s.drains[r].stage.pass)));
    case LoopAnswers(r) =>
      var Looped(capped, more, pass) := s.drains[r].stage;
      CloseKeepsInv(s, r, if more || capped then Kicking(pass) else Left(Finished(pass, NotWanted)));
    case Kicked(r, trigger) => KickKeepsInv(s, r, Left(Finished(s.drains[r].stage.pass, Kick(trigger))));
    case Respond(r) => CloseKeepsInv(s, r, Responded(s.drains[r].stage.fate));
  }

  lemma {:induction false} RunKeepsInv(events: seq<Event>)
    requires ValidRun(events)
    ensures Inv(Exec(events))
    decreases |events|
  {
    if events != [] {
      RunKeepsInv(events[..|events| - 1]);
      StepKeepsInv(Exec(events[..|events| - 1]), events[|events| - 1]);
    }
  }

  /**
   * Every flight a request opened is closed once its response is sent, whatever
   * path the request took; when all are answered nothing is open. A request
   * never runs more than five follow-up passes.
   */
  lemma AnsweredRequestsHoldNoFlight(events: seq<Event>)
    requires ValidRun(events)
    ensures var s := Exec(events);
            && (forall n :: n in s.open ==> s.open[n] in s.drains && !s.drains[s.open[n]].stage.Responded?)
            && ((forall r :: r in s.drains ==> s.drains[r].stage.Responded?) ==> s.open == map[])
            && (forall r :: r in s.drains && s.drains[r].stage.Running? ==>
                  s.drains[r].stage.pass <= MAX_COALESCED_RERUNS)
  {
    RunKeepsInv(events);
  }

  // ----- What one step does to another request -----

  /** The event is a wake-up that the open flight of `r` takes in. */
  predicate TakenInto(s: System, e: Event, r: Request) {
    e.Arrive? && e.wakeUp && Coalesces(s, e.name, e.now) && s.open[e.name] == r
  }

  /** Another event changes a request only by marking it, and never opens its flight again. */
  lemma OthersOnlyMark(s: System, e: Event, r: Request)
    requires Enabled(s, e) && r in s.drains && e.request != r
    ensures var after := Step(s, e);
            && r in after.drains
            && after.drains[r] == (if TakenInto(s, e, r)
                                   then s.drains[r].(flight := s.drains[r].flight.(rerun := true)) else s.drains[r])
  {
  }

  lemma OwnStepKeepsFlight(s: System, e: Event)
    requires Enabled(s, e) && !e.Arrive?
    ensures var after := Step(s, e); var d := s.drains[e.request];
            && after.drains.Keys == s.drains.Keys
            && after.drains[e.request].wakeUp == d.wakeUp
            && after.drains[e.request].flight.name == d.flight.name
            && after.drains[e.request].flight.startedAt == d.flight.startedAt
  {
  }

  // ----- What becomes of a wake-up that was taken in -----

  /** When in a request's life a wake-up came: before its first pass, during a pass, after a pass, later still. */
  datatype Phase = Before | During(pass: nat) | After(pass: nat) | Later

  function PhaseOf(stage: Stage): Phase {
    match stage
    case Deciding => Before
    case Running(pass) => During(pass)
    case Looped(_, _, pass) => After(pass)
    case _ => Later
  }

  predicate Precedes(a: Phase, b: Phase) {
    match b
    case Before => false
    case During(p) => a.Before? || ((a.During? || a.After?) && a.pass < p)
    case After(p) => a.Before? || (a.During? && a.pass <= p) || (a.After? && a.pass < p)
    case Later => !a.Later?
  }

  /** A wake-up was taken into the flight of `r` in this phase. */
  predicate TookIn(events: seq<Event>, r: Request, phase: Phase)
    requires ValidRun(events)
    decreases |events|
  {
    events != [] &&
    var before, e := events[..|events| - 1], events[|events| - 1];
    || TookIn(before, r, phase)
    || (TakenInto(Exec(before), e, r) && PhaseOf(Exec(before).drains[r].stage) == phase)
  }

  /** The step begins a pass of `r`, or has the trigger take its request for a fresh run. */
  predicate Serves(s: System, e: Event, r: Request)
    requires Enabled(s, e)
  {
    && e.request == r && r in s.drains
    && var stage := Step(s, e).drains[r].stage;
    || (stage.Running? && stage != s.drains[r].stage)
    || (e.Kicked? && e.trigger.Some? && e.trigger.value.Applied())
  }

  /** Some wake-up taken into the flight of `r` has seen no such step since. */
  predicate Unserved(events: seq<Event>, r: Request)
    requires ValidRun(events)
    decreases |events|
  {
    events != [] &&
    var before, e := events[..|events| - 1], events[|events| - 1];
    TakenInto(Exec(before), e, r) || (Unserved(before, r) && !Serves(Exec(before), e, r))
  }

  /** A request's phases follow one another, and its first is the earliest. */
  lemma PhasesMoveOn(s: System, e: Event, r: Request, phase: Phase)
    requires Enabled(s, e) && r in s.drains
    ensures r in Step(s, e).drains
    ensures Precedes(PhaseOf(Step(s, e).drains[r].stage), phase) ==> Precedes(PhaseOf(s.drains[r].stage), phase)
  {
    if e.request != r { OthersOnlyMark(s, e, r); }
  }

  /** Nothing is taken in during a phase still to come. */
  lemma {:induction false} NotYet(events: seq<Event>, r: Request, phase: Phase)
    requires ValidRun(events)
    requires r in Exec(events).drains ==> Precedes(PhaseOf(Exec(events).drains[r].stage), phase)
    ensures !TookIn(events, r, phase)
    decreases |events|
  {
    if events != [] {
      var before, e := events[..|events| - 1], events[|events| - 1];
      if r in Exec(before).drains { PhasesMoveOn(Exec(before), e, r, phase); }
      NotYet(before, r, phase);
    }
  }

  lemma {:induction false} NoneBeforeArrival(events: seq<Event>, r: Request)
    requires ValidRun(events) && r !in Exec(events).drains
    ensures !Unserved(events, r)
    decreases |events|
  {
    if events != [] {
      var before, e := events[..|events| - 1], events[|events| - 1];
      if r in Exec(before).drains { PhasesMoveOn(Exec(before), e, r, Later); }
      NoneBeforeArrival(before, r);
    }
  }

  /** What is known of a request whose wake-ups are unserved, came during its last pass, came after it. */
  predicate Told(d: Drain, unserved: bool, during: bool, after: bool) {
    match d.stage
    case Deciding => unserved == d.flight.rerun
    case Running(_) => unserved == during && (unserved ==> d.flight.rerun)
    case Looped(capped, _, _) => unserved == (during || after) && (!capped ==> !during)
    case Kicking(_) => unserved == (during || after)
    case Left(fate) => unserved == Dropped(fate, d.flight.rerun, during, after)
    case Responded(fate) => unserved == Dropped(fate, d.flight.rerun, during, after)
  }

  /**
   * Does this fate leave a wake-up behind? `marked`: the flight's mark is set;
   * `during`, `after`: a wake-up came during the last pass, or after the last
   * pass and before the flight was closed.
   */
  predicate Dropped(fate: Fate, marked: bool, during: bool, after: bool) {
    match fate
    case Disabled => marked
    case Broke => marked
    case Threw(_) => during
    case Finished(_, NotWanted) => after
    case Finished(_, Kick(trigger)) => (during || after) && !(trigger.Some? && trigger.value.Applied())
  }

  /** The last pass a request began. */
  function LastPass(stage: Stage): nat {
    match stage
    case Deciding => 0
    case Running(pass) => pass
    case Looped(_, _, pass) => pass
    case Kicking(pass) => pass
    case Left(fate) => LastPassOf(fate)
    case Responded(fate) => LastPassOf(fate)
  }

  function LastPassOf(fate: Fate): nat {
    match fate
    case Threw(pass) => pass
    case Finished(pass, _) => pass
    case _ => 0
  }

  /** One own step that begins no pass. */
  lemma OwnStepTells(s: System, e: Event, during: bool, after: bool, unserved: bool)
    requires Enabled(s, e) && !e.Arrive? && Told(s.drains[e.request], unserved, during, after)
    requires s.drains[e.request].stage.Running? ==> !after
    requires !Step(s, e).drains[e.request].stage.Running?
    ensures Told(Step(s, e).drains[e.request], unserved && !Serves(s, e, e.request), during, after)
    ensures LastPass(Step(s, e).drains[e.request].stage) == LastPass(s.drains[e.request].stage)
  {
  }

  /** One own step that does. */
  lemma NewPassTells(s: System, e: Event)
    requires Enabled(s, e) && !e.Arrive? && Step(s, e).drains[e.request].stage.Running?
    ensures Serves(s, e, e.request) && Told(Step(s, e).drains[e.request], false, false, false)
    ensures Precedes(PhaseOf(s.drains[e.request].stage), During(LastPass(Step(s, e).drains[e.request].stage)))
    ensures Precedes(PhaseOf(s.drains[e.request].stage), After(LastPass(Step(s, e).drains[e.request].stage)))
  {
  }

  /** A wake-up taken in is unserved, and came during the pass or after it. */
  lemma TakingInTells(d: Drain, unserved: bool, during: bool, after: bool)
    requires Told(d, unserved, during, after) && Holds(d.stage)
    ensures Told(d.(flight := d.flight.(rerun := true)), true,
                 during || d.stage.Running?, after || d.stage.Looped?)
  {
  }

  lemma {:induction false} RunTells(events: seq<Event>, r: Request)
    requires ValidRun(events) && r in Exec(events).drains
    ensures var d := Exec(events).drains[r]; var pass := LastPass(d.stage);
            Told(d, Unserved(events, r), TookIn(events, r, During(pass)), TookIn(events, r, After(pass)))
    decreases |events|
  {
    var before, e := events[..|events| - 1], events[|events| - 1];
    var s := Exec(before);
    if r !in s.drains {
      NoneBeforeArrival(before, r);
    } else {
      RunTells(before, r);
      var d := s.drains[r];
      var pass := LastPass(d.stage);
      var unserved, during, after :=
        Unserved(before, r), TookIn(before, r, During(pass)), TookIn(before, r, After(pass));
      if e.request != r {
        OthersOnlyMark(s, e, r);
        RunKeepsInv(before);
        if TakenInto(s, e, r) { TakingInTells(d, unserved, during, after); }
      } else if Step(s, e).drains[r].stage.Running? {
        NewPassTells(s, e);
        var next := LastPass(Step(s, e).drains[r].stage);
        NotYet(before, r, During(next));
        NotYet(before, r, After(next));
      } else {
        if d.stage.Running? { NotYet(before, r, After(pass)); }
        OwnStepTells(s, e, during, after, unserved);
      }
    }
  }

  /**
   * Which wake-ups are dropped: acknowledged, with no pass of the request
   * begun since and no fresh run asked for. For every request that has
   * responded: those of a request found disabled, or broken off before its
   * `try`; those that came during the pass that threw; those that came after
   * the loop of a finished request had looked for the last time; and those that
   * came during the last pass or after it when a fresh run was wanted and there
   * was no trigger or it took no effect. No others.
   */
  lemma WakeUpIsDroppedIff(events: seq<Event>, r: Request)
    requires ValidRun(events) && r in Exec(events).drains && Exec(events).drains[r].stage.Responded?
    ensures var d := Exec(events).drains[r]; var pass := LastPassOf(d.stage.fate);
            Unserved(events, r) <==>
            Dropped(d.stage.fate, d.flight.rerun, TookIn(events, r, During(pass)), TookIn(events, r, After(pass)))
  {
    RunTells(events, r);
  }

  lemma Extends(events: seq<Event>, e: Event)
    requires ValidRun(events) && Enabled(Exec(events), e)
    ensures ValidRun(events + [e]) && Exec(events + [e]) == Step(Exec(events), e)
  {
    assert (events + [e])[..|events|] == events;
  }

  /** One more event, and whether a wake-up is unserved after it. */
  lemma ExtendsUnserved(events: seq<Event>, e: Event, r: Request)
    requires ValidRun(events) && Enabled(Exec(events), e)
    ensures ValidRun(events + [e]) && Exec(events + [e]) == Step(Exec(events), e)
    ensures Unserved(events + [e], r) <==>
            TakenInto(Exec(events), e, r) || (Unserved(events, r) && !Serves(Exec(events), e, r))
  {
    assert (events + [e])[..|events|] == events;
  }

  /**
   * The window is real: the second wake-up is acked while the first request's
   * loop is answering, and nothing runs for it.
   */
  lemma AckedWakeUpCanBeDropped(name: string) returns (events: seq<Event>)
    ensures ValidRun(events) && Exec(events).drains.Keys == {1} && Exec(events).open == map[]
    ensures Exec(events).drains[1].stage == Responded(Finished(0, NotWanted)) && Unserved(events, 1)
  {
    events := [];
    ExtendsUnserved(events, Arrive(1, name, true, 0), 1);
    events := events + [Arrive(1, name, true, 0)];
    ExtendsUnserved(events, FindEnabled(1), 1);
    events := events + [FindEnabled(1)];
    ExtendsUnserved(events, PassReturns(1, false, 10), 1);
    events := events + [PassReturns(1, false, 10)];
    ExtendsUnserved(events, Arrive(2, name, true, 10), 1);
    events := events + [Arrive(2, name, true, 10)];
    ExtendsUnserved(events, LoopAnswers(1), 1);
    events := events + [LoopAnswers(1)];
    ExtendsUnserved(events, Respond(1), 1);
    events := events + [Respond(1)];
  }

  // ----- Two runs of one drain -----

  predicate Young(s: System, r: Request)
    requires r in s.drains
  {
    !Expired(s.drains[r].flight.startedAt, s.now)
  }

  /** A request that is not a wake-up opened its flight over the open one of `r`. */
  predicate Replaced(events: seq<Event>, r: Request)
    requires ValidRun(events)
    decreases |events|
  {
    events != [] &&
    var before, e := events[..|events| - 1], events[|events| - 1];
    Replaced(before, r) || (e.Arrive? && !e.wakeUp && IsOpen(Exec(before), r, e.name))
  }

  /** `r` had opened its flight before `u` arrived and opened one. */
  predicate CameBefore(events: seq<Event>, r: Request, u: Request)
    requires ValidRun(events)
    decreases |events|
  {
    events != [] &&
    var before, e := events[..|events| - 1], events[|events| - 1];
    || CameBefore(before, r, u)
    || (r in Exec(before).drains && u !in Exec(before).drains && u in Exec(events).drains)
  }

  /** What one step can do to the open flight of a request that goes on holding it. */
  lemma FlightStaysOpen(s: System, e: Event, r: Request)
    requires Inv(s) && Enabled(s, e) && r in s.drains && Holds(s.drains[r].stage)
    requires Holds(Step(s, e).drains[r].stage)
    ensures var after := Step(s, e); var name := s.drains[r].flight.name;
            && after.drains[r].flight.name == name
            && after.drains[r].flight.startedAt == s.drains[r].flight.startedAt && s.now <= after.now
            && (IsOpen(s, r, name) ==>
                  IsOpen(after, r, name) || (e.Arrive? && !e.wakeUp && e.name == name) || !Young(after, r))
  {
    if e.request == r {
      if !e.Arrive? { OwnStepKeepsFlight(s, e); }
    } else {
      OthersOnlyMark(s, e, r);
    }
  }

  /** A request holding a young flight has it open, unless it was replaced. */
  lemma {:induction false} OpenOrReplaced(events: seq<Event>, r: Request)
    requires ValidRun(events) && r in Exec(events).drains && Holds(Exec(events).drains[r].stage)
    ensures var s := Exec(events);
            Young(s, r) ==> IsOpen(s, r, s.drains[r].flight.name) || Replaced(events, r)
    decreases |events|
  {
    var before, e := events[..|events| - 1], events[|events| - 1];
    var s := Exec(before);
    RunKeepsInv(before);
    if r in s.drains {
      StaysHeld(s, e, r);
      OpenOrReplaced(before, r);
      FlightStaysOpen(s, e, r);
    }
  }

  /** Who holds a flight after a step, and was there before, held it before. */
  lemma StaysHeld(s: System, e: Event, r: Request)
    requires Enabled(s, e) && r in s.drains
    ensures r in Step(s, e).drains && (Holds(Step(s, e).drains[r].stage) ==> Holds(s.drains[r].stage))
    ensures Step(s, e).drains[r].flight.name == s.drains[r].flight.name
  {
    if e.request != r { OthersOnlyMark(s, e, r); } else { OwnStepKeepsFlight(s, e); }
  }

  /** A flight that is not open does not open again. */
  lemma NotOpenedAgain(s: System, e: Event, r: Request, name: string)
    requires Enabled(s, e) && r in s.drains && !IsOpen(s, r, name)
    ensures !IsOpen(Step(s, e), r, name)
  {
  }

  /** Once a later request of the drain has opened a flight, the earlier one's is not open. */
  lemma {:induction false} LaterTakesOver(events: seq<Event>, r: Request, u: Request)
    requires ValidRun(events) && CameBefore(events, r, u)
    ensures var s := Exec(events);
            && r in s.drains && u in s.drains
            && (s.drains[r].flight.name == s.drains[u].flight.name ==> !IsOpen(s, r, s.drains[r].flight.name))
    decreases |events|
  {
    var before, e := events[..|events| - 1], events[|events| - 1];
    var s := Exec(before);
    if CameBefore(before, r, u) {
      LaterTakesOver(before, r, u);
      StaysHeld(s, e, u);
      StaysHeld(s, e, r);
      if s.drains[r].flight.name == s.drains[u].flight.name { NotOpenedAgain(s, e, r, s.drains[r].flight.name); }
    } else {
      StaysHeld(s, e, r);
    }
  }

  /**
   * Single flight: when a later request of the same drain runs beside one whose
   * flight is still held and under six minutes old, a request that is not a
   * wake-up had replaced that flight.
   */
  lemma OverlapNeedsReplacement(events: seq<Event>, r: Request, u: Request)
    requires ValidRun(events) && CameBefore(events, r, u)
    requires r in Exec(events).drains && u in Exec(events).drains
    requires var s := Exec(events);
             s.drains[r].flight.name == s.drains[u].flight.name && Holds(s.drains[r].stage) && Young(s, r)
    ensures Replaced(events, r)
  {
    OpenOrReplaced(events, r);
    LaterTakesOver(events, r, u);
  }

  /** Two wake-ups of one drain hold flights under six minutes old. */
  predicate Overlap(s: System, r: Request, u: Request) {
    && r != u && r in s.drains && u in s.drains && s.drains[r].flight.name == s.drains[u].flight.name
    && s.drains[r].wakeUp && Holds(s.drains[r].stage) && Young(s, r)
    && s.drains[u].wakeUp && Holds(s.drains[u].stage) && Young(s, u)
  }

  /** From here on only others act, and only wake-ups arrive. */
  predicate OnlyWakeUps(more: seq<Event>, r: Request) {
    forall e :: e in more ==> e.request != r && (e.Arrive? ==> e.wakeUp)
  }

  ghost predicate CanOverlap(events: seq<Event>, r: Request)
    requires ValidRun(events)
  {
    exists more: seq<Event>, u: Request ::
      && OnlyWakeUps(more, r) && u !in Exec(events).drains
      && ValidRun(events + more) && Overlap(Exec(events + more), r, u)
  }

  lemma {:induction false} WakeUpsReplaceNothing(events: seq<Event>, more: seq<Event>, r: Request, u: Request)
    requires ValidRun(events) && ValidRun(events + more) && OnlyWakeUps(more, r)
    requires r in Exec(events).drains && u !in Exec(events).drains
    ensures Replaced(events + more, r) ==> Replaced(events, r)
    ensures r in Exec(events + more).drains
    ensures u in Exec(events + more).drains ==> CameBefore(events + more, r, u)
    decreases |more|
  {
    if more == [] {
      assert events + more == events;
    } else {
      var less, e := more[..|more| - 1], more[|more| - 1];
      assert (events + more)[..|events + more| - 1] == events + less;
      WakeUpsReplaceNothing(events, less, r, u);
      assert e in more;
      StaysHeld(Exec(events + less), e, r);
    }
  }

  /** A replaced flight is not open. */
  lemma {:induction false} ReplacedIsNotOpen(events: seq<Event>, r: Request)
    requires ValidRun(events) && Replaced(events, r)
    ensures r in Exec(events).drains && !IsOpen(Exec(events), r, Exec(events).drains[r].flight.name)
    decreases |events|
  {
    var before, e := events[..|events| - 1], events[|events| - 1];
    var s := Exec(before);
    RunKeepsInv(before);
    if Replaced(before, r) {
      ReplacedIsNotOpen(before, r);
      StaysHeld(s, e, r);
      NotOpenedAgain(s, e, r, s.drains[r].flight.name);
    }
  }

  /** The event that lets go of a held flight. */
  function LettingGo(s: System, v: Request): Event
    requires v in s.drains && Holds(s.drains[v].stage)
  {
    match s.drains[v].stage
    case Deciding => FindDisabled(v)
    case Running(_) => PassThrows(v)
    case Looped(_, _, _) => LoopAnswers(v)
    case _ => Respond(v)
  }

  lemma LettingGoFrees(s: System, v: Request, name: string)
    requires Inv(s) && IsOpen(s, v, name)
    ensures Enabled(s, LettingGo(s, v)) && name !in Step(s, LettingGo(s, v)).open
    ensures Step(s, LettingGo(s, v)).now == s.now
    ensures Step(s, LettingGo(s, v)).drains.Keys == s.drains.Keys
  {
  }

  lemma {:induction false} FreshRequest(used: set<Request>) returns (u: Request)
    ensures forall v :: v in used ==> v < u
    decreases |used|
  {
    if used == {} {
      u := 0;
    } else {
      var v :| v in used;
      var least := FreshRequest(used - {v});
      u := if v < least then least else v + 1;
      forall x | x in used ensures x < u {
        if x != v { assert x in used - {v}; }
      }
    }
  }

  /** With no flight open, a wake-up runs beside any request that holds a young one. */
  lemma WakeUpRuns(s: System, r: Request, u: Request)
    requires r in s.drains && u !in s.drains && s.drains[r].flight.name !in s.open
    requires s.drains[r].wakeUp && Holds(s.drains[r].stage) && Young(s, r)
    ensures var e := Arrive(u, s.drains[r].flight.name, true, s.now); Enabled(s, e) && Overlap(Step(s, e), r, u)
  {
  }

  lemma ReplacedCanOverlap(events: seq<Event>, r: Request)
    requires ValidRun(events) && Replaced(events, r) && r in Exec(events).drains
    requires var s := Exec(events); s.drains[r].wakeUp && Holds(s.drains[r].stage) && Young(s, r)
    ensures CanOverlap(events, r)
  {
    var s := Exec(events);
    var name := s.drains[r].flight.name;
    RunKeepsInv(events);
    ReplacedIsNotOpen(events, r);
    var u := FreshRequest(s.drains.Keys);
    var arrival := Arrive(u, name, true, s.now);
    if name in s.open {
      var v := s.open[name];
      var e := LettingGo(s, v);
      LettingGoFrees(s, v, name);
      OthersOnlyMark(s, e, r);
      Extends(events, e);
      WakeUpRuns(Step(s, e), r, u);
      Extends(events + [e], arrival);
      assert events + [e] + [arrival] == events + [e, arrival];
      assert OnlyWakeUps([e, arrival], r);
    } else {
      WakeUpRuns(s, r, u);
      Extends(events, arrival);
      assert OnlyWakeUps([arrival], r);
    }
  }

  /**
   * While a wake-up's flight is held and under six minutes old, a second
   * wake-up of the drain can come to run beside it exactly when a request that
   * is not a wake-up has replaced that flight.
   */
  lemma SecondRunCanStartIff(events: seq<Event>, r: Request)
    requires ValidRun(events) && r in Exec(events).drains
    requires var s := Exec(events); s.drains[r].wakeUp && Holds(s.drains[r].stage) && Young(s, r)
    ensures CanOverlap(events, r) <==> Replaced(events, r)
  {
    if Replaced(events, r) {
      ReplacedCanOverlap(events, r);
    } else if more: seq<Event>, u: Request :|
        OnlyWakeUps(more, r) && u !in Exec(events).drains
        && ValidRun(events + more) && Overlap(Exec(events + more), r, u) {
      WakeUpsReplaceNothing(events, more, r, u);
      OverlapNeedsReplacement(events + more, r, u);
    }
  }
}
