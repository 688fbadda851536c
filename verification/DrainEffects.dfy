/** What each request for a drain brings about, in the states runs reach. */
module DrainEffects {
  import opened Options
  import opened Replies
  import opened DrainFlights
  import opened DrainWakeUps

  /** A flight of the drain is open, and six minutes old at most. */
  predicate HasLiveFlight(s: System, name: string, now: nat) {
    name in s.open && s.open[name] in s.drains && now <= s.drains[s.open[name]].flight.startedAt + 360_000
  }

  /**
   * A wake-up that finds a live flight only marks it; any other request opens a
   * flight of its own, in place of whatever was open.
   */
  lemma ArrivalMarksOrOpens(events: seq<Event>, r: Request, name: string, wakeUp: bool, now: nat)
    requires ValidRun(events) && Enabled(Exec(events), Arrive(r, name, wakeUp, now))
    ensures var s, s' := Exec(events), Step(Exec(events), Arrive(r, name, wakeUp, now));
            if wakeUp && HasLiveFlight(s, name, now) then
              var owner := s.open[name];
              && s'.open == s.open && r !in s'.drains
              && s'.drains ==
                 s.drains[owner := s.drains[owner].(flight := s.drains[owner].flight.(rerun := true))]
            else
              && s'.open == s.open[name := r]
              && s'.drains == s.drains[r := Drain(wakeUp, Flight(name, false, now), Deciding)]
  {
    RunKeepsInv(events);
  }

  /** A request starts its first pass when the drain is enabled; otherwise, or when the check throws, it runs none. */
  lemma CheckDecides(events: seq<Event>, e: Event)
    requires ValidRun(events) && Enabled(Exec(events), e) && (e.FindEnabled? || e.FindDisabled? || e.CheckBreaks?)
    ensures Step(Exec(events), e).drains[e.request].stage ==
            if e.FindEnabled? then Running(0) else Left(if e.FindDisabled? then Disabled else Broke)
  {
  }

  /**
   * After a pass a wake-up request runs one more exactly when its flight was
   * marked meanwhile, fewer than five follow-ups were run and the flight is
   * younger than 150 seconds; the mark is then taken. Any other request closes
   * its flight there.
   */
  lemma FollowUpRunsIff(events: seq<Event>, r: Request, more: bool, now: nat)
    requires ValidRun(events) && Enabled(Exec(events), PassReturns(r, more, now))
    ensures var d, d' := Exec(events).drains[r], Step(Exec(events), PassReturns(r, more, now)).drains[r];
            var again := d.wakeUp && d.flight.rerun && d.stage.pass < 5 && now < d.flight.startedAt + 150_000;
            && d'.stage ==
               (if again then Running(d.stage.pass + 1)
                else if d.wakeUp then Looped(d.flight.rerun, more, d.stage.pass)
                else if more || d.flight.rerun then Kicking(d.stage.pass)
                else Left(Finished(d.stage.pass, NotWanted)))
            && d'.flight.rerun == (d.flight.rerun && !again)
  {
  }

  /** What the loop leaves, or the last pass says is left, is handed to a fresh request; a flight is closed first. */
  lemma RestIsHandedOnIff(events: seq<Event>, r: Request)
    requires ValidRun(events) && Enabled(Exec(events), LoopAnswers(r))
    ensures var s, s' := Exec(events), Step(Exec(events), LoopAnswers(r)); var stage := s.drains[r].stage;
            && s'.drains[r].stage == (if stage.more || stage.capped then Kicking(stage.pass)
                                      else Left(Finished(stage.pass, NotWanted)))
            && s'.open == map n | n in s.open && s.open[n] != r :: s.open[n]
  {
    RunKeepsInv(events);
  }
}
