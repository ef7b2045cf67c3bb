/**
 * The race state machine (`RaceSystem`): the competitor map, the race-wide
 * current lap, and `ProcessEvent` as the pure function `Step`.
 */
module Race {
  import opened Wrappers
  import opened Models
  import opened Events
  import opened Handlers

  /** The external parsers the dispatcher relies on and the shot decision. */
  datatype Env = Env(
    clock: string -> Option<ClockMs>,   // time.Parse with layout "15:04:05.000"
    toInt: string -> Option<int>,       // fmt.Sscanf with verb "%d"
    hit: HitOracle)                     // determineHit

  /** One feed record as `ProcessEvent` receives it. */
  datatype Event = Event(time: string, kind: int, id: int, params: string)

  /** The mutable part of `RaceSystem`. */
  datatype RaceState = RaceState(competitors: map<int, Competitor>, currentLap: nat)

  /** The state after one event, what it synthesized, and the error it returned. */
  datatype StepResult = StepResult(race: RaceState, out: seq<Outbound>, err: Option<Error>)

  function Initial(): RaceState
  {
    RaceState(map[], 0)
  }

  /** `getCompetitor`: the record for `id` exists afterwards; an existing one is kept. */
  function EnsureCompetitor(race: RaceState, id: int): (r: RaceState)
    ensures id in r.competitors
    ensures id in race.competitors ==> r == race
    ensures id !in race.competitors ==>
      r == race.(competitors := race.competitors[id := NewCompetitor(id)])
    ensures r.competitors.Keys == race.competitors.Keys + {id}
  {
    if id in race.competitors then race
    else race.(competitors := race.competitors[id := NewCompetitor(id)])
  }

  function Fail(race: RaceState, err: Error): StepResult
  {
    StepResult(race, [], Some(err))
  }

  /** What a handler did to the event's record: the new record and what it synthesized, or its error. */
  datatype Outcome = Done(comp: Competitor, out: seq<Outbound>) | Failed(err: Error)

  /**
   * The `switch` of `ProcessEvent`: the handler for `e.kind` applied to the
   * event's record `c`, with `lap` the race's current lap and `t` the parsed
   * event time. Only a lap completion changes the lap count, and no handler
   * undoes a competitor's progress.
   */
  function Handle(env: Env, cfg: Config, lap: nat, c: Competitor, e: Event, t: ClockMs): (h: Outcome)
    ensures !IsInbound(e.kind) ==> h == Failed(UnknownEventKind(e.kind))
    ensures (e.kind == EventOnFiringRange || e.kind == EventShot) && env.toInt(e.params).None? ==>
      h == Failed(InvalidInt(e.params))
    ensures h.Done? ==> Progressed(c, h.comp)
    ensures h.Done? && e.kind != EventLapCompleted ==> h.comp.lapsCompleted == c.lapsCompleted
    ensures e.kind == EventLapCompleted ==> h.Done? && h.comp.lapsCompleted == c.lapsCompleted + 1
  {
    if e.kind == EventRegistration then
      FromResult(Register(c))
    else if e.kind == EventStartTimeSet then
      FromResult(SetStartTime(c, env.clock(e.params)))
    else if e.kind == EventOnStartLine then
      Done(c, [])
    else if e.kind == EventStarted then
      var eff := Start(cfg, c, t);
      Done(eff.comp, eff.out)
    else if e.kind == EventOnFiringRange then
      (match env.toInt(e.params)
       case None => Failed(InvalidInt(e.params))
       case Some(n) => FromResult(EnterRange(cfg, lap, c, n)))
    else if e.kind == EventShot then
      (match env.toInt(e.params)
       case None => Failed(InvalidInt(e.params))
       case Some(_) => FromResult(Shot(env.hit, lap, c)))
    else if e.kind == EventLeftFiringRange then
      FromResult(LeaveRange(lap, c))
    else if e.kind == EventEnteredPenalty then
      FromResult(EnterPenalty(c))
    else if e.kind == EventLeftPenalty then
      FromResult(LeavePenalty(c))
    else if e.kind == EventLapCompleted then
      var eff := CompleteLap(cfg, c, t);
      Done(eff.comp, eff.out)
    else if e.kind == EventCannotContinue then
      var eff := Disqualify(c, Stated(NotFinishedPrefix + e.params));
      Done(eff.comp, eff.out)
    else
      Failed(UnknownEventKind(e.kind))
  }

  function FromResult(r: Result<Competitor, Error>): Outcome
  {
    match r
    case Ok(c) => Done(c, [])
    case Err(err) => Failed(err)
  }

  /**
   * `ProcessEvent`. A malformed timestamp fails before anything happens;
   * otherwise the competitor is created first, so it survives every later
   * failure, and the rest of the race is never touched.
   */
  function Step(env: Env, cfg: Config, race: RaceState, e: Event): (r: StepResult)
    ensures env.clock(e.time).None? ==> r == StepResult(race, [], Some(InvalidTimestamp))
    ensures env.clock(e.time).Some? ==> e.id in r.race.competitors
    ensures env.clock(e.time).Some? && r.err.Some? ==>
      r.race == EnsureCompetitor(race, e.id) && r.out == []
    ensures env.clock(e.time).Some? && !IsInbound(e.kind) ==> r.err == Some(UnknownEventKind(e.kind))
    ensures (env.clock(e.time).Some? && (e.kind == EventOnFiringRange || e.kind == EventShot)
             && env.toInt(e.params).None?) ==> r.err == Some(InvalidInt(e.params))
    ensures forall id :: id != e.id ==> (id in r.race.competitors <==> id in race.competitors)
    ensures forall id :: id != e.id && id in race.competitors ==>
      r.race.competitors[id] == race.competitors[id]
    ensures r.race.currentLap >= race.currentLap
    ensures r.race.currentLap != race.currentLap ==>
      e.kind == EventLapCompleted && r.race.currentLap == r.race.competitors[e.id].lapsCompleted
  {
    match env.clock(e.time)
    case None => Fail(race, InvalidTimestamp)
    case Some(t) =>
      var race1 := EnsureCompetitor(race, e.id);
      match Handle(env, cfg, race1.currentLap, race1.competitors[e.id], e, t)
      case Failed(err) => Fail(race1, err)
      case Done(c, out) =>
        var lap := if e.kind == EventLapCompleted then Max(race1.currentLap, c.lapsCompleted) else race1.currentLap;
        StepResult(RaceState(race1.competitors[e.id := c], lap), out, None)
  }

  /** The final state and every synthesized event of a feed replay. */
  datatype Replay = Replay(race: RaceState, out: seq<Outbound>)

  /** The feed loop: each event is processed in order and its error is dropped. */
  function Run(env: Env, cfg: Config, race: RaceState, events: seq<Event>): (r: Replay)
    ensures race.competitors.Keys <= r.race.competitors.Keys
    ensures r.race.currentLap >= race.currentLap
    ensures forall id :: id in r.race.competitors && id !in race.competitors ==>
      exists i :: 0 <= i < |events| && events[i].id == id
    decreases |events|
  {
    if |events| == 0 then Replay(race, [])
    else
      var s := Step(env, cfg, race, events[0]);
      var rest := Run(env, cfg, s.race, events[1..]);
      Replay(rest.race, s.out + rest.out)
  }

  // ---------------------------------------------------------------------------
  // The invariant the handlers protect

  /** What holds of every record while the race's current lap is `currentLap`. */
  ghost predicate CompetitorOk(cfg: Config, c: Competitor, currentLap: nat)
  {
    && c.penaltyLaps >= 0
    && 0 <= c.lapsCompleted <= currentLap
    && |c.shootingStats| <= currentLap + 1
    && (forall i :: 0 <= i < |c.shootingStats| ==> |c.shootingStats[i]| == cfg.firingLines)
    && (c.finished ==> c.lapsCompleted >= cfg.laps)
    && Bookkeeping0(c)
  }

  /** The current lap is the largest lap count of any competitor, or 0 when all have none. */
  ghost predicate CurrentLapIsMax(race: RaceState)
  {
    && (forall id :: id in race.competitors ==> race.competitors[id].lapsCompleted <= race.currentLap)
    && (race.currentLap == 0 ||
        exists id :: id in race.competitors && race.competitors[id].lapsCompleted == race.currentLap)
  }

  /** Every record is filed under its own id, as `getCompetitor` files it. */
  predicate KeysMatch(race: RaceState)
  {
    forall id :: id in race.competitors ==> race.competitors[id].id == id
  }

  ghost predicate Valid(cfg: Config, race: RaceState)
  {
    && KeysMatch(race)
    && (forall id :: id in race.competitors ==> CompetitorOk(cfg, race.competitors[id], race.currentLap))
    && CurrentLapIsMax(race)
  }

  lemma InitialValid(cfg: Config)
    ensures Valid(cfg, Initial())
  {
  }

  lemma CompetitorOkLater(cfg: Config, c: Competitor, lap: nat, later: nat)
    requires CompetitorOk(cfg, c, lap) && lap <= later
    ensures CompetitorOk(cfg, c, later)
  {
  }

  lemma EnsureKeepsValid(cfg: Config, race: RaceState, id: int)
    requires Valid(cfg, race)
    ensures Valid(cfg, EnsureCompetitor(race, id))
  {
    var r := EnsureCompetitor(race, id);
    if race.currentLap != 0 {
      var w :| w in race.competitors && race.competitors[w].lapsCompleted == race.currentLap;
      assert w in r.competitors && r.competitors[w].lapsCompleted == r.currentLap;
    }
  }

  /** Replacing one record by one with the same lap count keeps the race valid. */
  lemma CommitKeepsValid(cfg: Config, race: RaceState, id: int, c: Competitor)
    requires Valid(cfg, race) && id in race.competitors
    requires c.id == id && CompetitorOk(cfg, c, race.currentLap)
    requires c.lapsCompleted == race.competitors[id].lapsCompleted
    ensures Valid(cfg, race.(competitors := race.competitors[id := c]))
  {
    var r := race.(competitors := race.competitors[id := c]);
    if race.currentLap != 0 {
      var w :| w in race.competitors && race.competitors[w].lapsCompleted == race.currentLap;
      assert w in r.competitors && r.competitors[w].lapsCompleted == r.currentLap;
    }
  }

  /** A completed lap keeps the race valid once the current lap catches up with it. */
  lemma LapKeepsValid(cfg: Config, race: RaceState, id: int, c: Competitor)
    requires Valid(cfg, race) && id in race.competitors
    requires c.id == id && c.lapsCompleted == race.competitors[id].lapsCompleted + 1
    requires CompetitorOk(cfg, c, Max(race.currentLap, c.lapsCompleted))
    ensures Valid(cfg, RaceState(race.competitors[id := c], Max(race.currentLap, c.lapsCompleted)))
  {
    var lap := Max(race.currentLap, c.lapsCompleted);
    var r := RaceState(race.competitors[id := c], lap);
    forall other | other in r.competitors && other != id
      ensures CompetitorOk(cfg, r.competitors[other], lap)
    {
      CompetitorOkLater(cfg, race.competitors[other], race.currentLap, lap);
    }
    if lap == c.lapsCompleted {
      assert r.competitors[id].lapsCompleted == lap;
    } else {
      var w :| w in race.competitors && race.competitors[w].lapsCompleted == race.currentLap;
      assert w != id;
      assert w in r.competitors && r.competitors[w].lapsCompleted == lap;
    }
  }

  /** A range entry keeps a healthy record healthy: at most one entry is added, with FiringLines lines. */
  lemma EnterRangeKeepsOk(cfg: Config, lap: nat, c: Competitor, n: int)
    requires CompetitorOk(cfg, c, lap) && EnterRange(cfg, lap, c, n).Ok?
    ensures CompetitorOk(cfg, EnterRange(cfg, lap, c, n).value, lap)
  {
    var c' := EnterRange(cfg, lap, c, n).value;
    forall i | 0 <= i < |c'.shootingStats|
      ensures |c'.shootingStats[i]| == cfg.firingLines
    {
      if i < |c.shootingStats| {
        assert c'.shootingStats[i] == c'.shootingStats[..|c.shootingStats|][i];
      }
    }
  }

  /** A shot keeps the shape of the statistics and never lowers the penalty count. */
  lemma ShotKeepsOk(cfg: Config, hit: HitOracle, lap: nat, c: Competitor)
    requires CompetitorOk(cfg, c, lap) && Shot(hit, lap, c).Ok?
    ensures CompetitorOk(cfg, Shot(hit, lap, c).value, lap)
  {
    var c' := Shot(hit, lap, c).value;
    assert forall i :: 0 <= i < |c'.shootingStats| ==> |c'.shootingStats[i]| == |c.shootingStats[i]|;
  }

  /**
   * Every handler keeps a record healthy at the lap the race has afterwards:
   * the current lap for every kind but a lap completion, which raises it to
   * the record's new lap count when that is larger.
   */
  lemma HandleKeepsOk(env: Env, cfg: Config, lap: nat, c: Competitor, e: Event, t: ClockMs)
    requires CompetitorOk(cfg, c, lap)
    ensures var h := Handle(env, cfg, lap, c, e, t);
      h.Done? ==> CompetitorOk(cfg, h.comp, if e.kind == EventLapCompleted then Max(lap, h.comp.lapsCompleted) else lap)
  {
    var h := Handle(env, cfg, lap, c, e, t);
    if h.Done? {
      if e.kind == EventOnFiringRange {
        EnterRangeKeepsOk(cfg, lap, c, env.toInt(e.params).value);
      } else if e.kind == EventShot {
        ShotKeepsOk(cfg, env.hit, lap, c);
      } else if e.kind == EventLapCompleted {
        CompetitorOkLater(cfg, c, lap, Max(lap, h.comp.lapsCompleted));
      }
    }
  }

  /** Every event keeps the race valid, whether it succeeds or fails. */
  lemma StepPreservesValid(env: Env, cfg: Config, race: RaceState, e: Event)
    requires Valid(cfg, race)
    ensures Valid(cfg, Step(env, cfg, race, e).race)
  {
    if env.clock(e.time).Some? {
      var t := env.clock(e.time).value;
      var race1 := EnsureCompetitor(race, e.id);
      EnsureKeepsValid(cfg, race, e.id);
      var c := race1.competitors[e.id];
      var h := Handle(env, cfg, race1.currentLap, c, e, t);
      if h.Done? {
        HandleKeepsOk(env, cfg, race1.currentLap, c, e, t);
        if e.kind == EventLapCompleted {
          LapKeepsValid(cfg, race1, e.id, h.comp);
        } else {
          CommitKeepsValid(cfg, race1, e.id, h.comp);
        }
      }
    }
  }

  lemma {:induction false} RunPreservesValid(env: Env, cfg: Config, race: RaceState, events: seq<Event>)
    requires Valid(cfg, race)
    ensures Valid(cfg, Run(env, cfg, race, events).race)
    decreases |events|
  {
    if |events| > 0 {
      StepPreservesValid(env, cfg, race, events[0]);
      RunPreservesValid(env, cfg, Step(env, cfg, race, events[0]).race, events[1..]);
    }
  }

  /**
   * Whatever the feed, from the empty race: no competitor owes a negative
   * number of penalty laps, every finished competitor has run all laps, the
   * current lap is the largest lap count, and the untouched bookkeeping fields
   * keep their zero values.
   */
  lemma FeedInvariants(env: Env, cfg: Config, events: seq<Event>)
    ensures var race := Run(env, cfg, Initial(), events).race;
      && (forall id :: id in race.competitors ==>
            var c := race.competitors[id];
            && c.penaltyLaps >= 0
            && 0 <= c.lapsCompleted <= race.currentLap
            && (c.finished ==> c.lapsCompleted >= cfg.laps)
            && Bookkeeping0(c))
      && (race.currentLap == 0 ||
          exists id :: id in race.competitors && race.competitors[id].lapsCompleted == race.currentLap)
  {
    InitialValid(cfg);
    RunPreservesValid(env, cfg, Initial(), events);
  }

  /** Replaying `a` then `b` is replaying `a + b`: the feed can be cut anywhere. */
  lemma {:induction false} RunAppend(env: Env, cfg: Config, race: RaceState, a: seq<Event>, b: seq<Event>)
    ensures var ra := Run(env, cfg, race, a);
      var rb := Run(env, cfg, ra.race, b);
      Run(env, cfg, race, a + b) == Replay(rb.race, ra.out + rb.out)
    decreases |a|
  {
    if |a| == 0 {
      assert a + b == b;
    } else {
      assert (a + b)[0] == a[0];
      assert (a + b)[1..] == a[1..] + b;
      var s := Step(env, cfg, race, a[0]);
      RunAppend(env, cfg, s.race, a[1..], b);
      var ra := Run(env, cfg, s.race, a[1..]);
      var rb := Run(env, cfg, ra.race, b);
      assert s.out + (ra.out + rb.out) == (s.out + ra.out) + rb.out;
    }
  }

  function Flatten(outs: seq<seq<Outbound>>): seq<Outbound>
  {
    if |outs| == 0 then [] else outs[0] + Flatten(outs[1..])
  }

  /** `states` are the successive states of a feed whose events all succeed, emitting `outs`. */
  ghost predicate Succeeds(env: Env, cfg: Config, states: seq<RaceState>, events: seq<Event>, outs: seq<seq<Outbound>>)
  {
    && |states| == |events| + 1
    && |outs| == |events|
    && forall i :: 0 <= i < |events| ==>
         Step(env, cfg, states[i], events[i]) == StepResult(states[i + 1], outs[i], None)
  }

  /** A feed whose steps are known one by one replays to the last state and all outputs in order. */
  lemma {:induction false} RunFollowsSteps(env: Env, cfg: Config, states: seq<RaceState>,
                                           events: seq<Event>, outs: seq<seq<Outbound>>)
    requires Succeeds(env, cfg, states, events, outs)
    ensures Run(env, cfg, states[0], events) == Replay(states[|events|], Flatten(outs))
    decreases |events|
  {
    if |events| > 0 {
      assert Succeeds(env, cfg, states[1..], events[1..], outs[1..]) by {
        forall i | 0 <= i < |events| - 1
          ensures Step(env, cfg, states[1..][i], events[1..][i]) == StepResult(states[1..][i + 1], outs[1..][i], None)
        {
          assert Step(env, cfg, states[i + 1], events[i + 1]) == StepResult(states[i + 2], outs[i + 1], None);
        }
      }
      RunFollowsSteps(env, cfg, states[1..], events[1..], outs[1..]);
      var rest := Run(env, cfg, states[1], events[1..]);
      assert rest == Replay(states[|events|], Flatten(outs[1..]));
      assert Step(env, cfg, states[0], events[0]) == StepResult(states[1], outs[0], None);
      assert Run(env, cfg, states[0], events) == Replay(rest.race, outs[0] + rest.out);
    }
  }

  // ---------------------------------------------------------------------------
  // Monotonicity across a feed

  /** What a later record of the same competitor keeps from an earlier one. */
  predicate Progressed(before: Competitor, after: Competitor)
  {
    && after.id == before.id
    && (before.registered ==> after.registered)
    && (before.finished ==> after.finished)
    && (before.disqualified ==> after.disqualified)
    && before.lapsCompleted <= after.lapsCompleted
  }

  /** No competitor disappears or loses progress, and the current lap never falls. */
  predicate Advanced(before: RaceState, after: RaceState)
  {
    && before.currentLap <= after.currentLap
    && (forall id :: id in before.competitors ==>
          id in after.competitors && Progressed(before.competitors[id], after.competitors[id]))
  }

  lemma StepAdvances(env: Env, cfg: Config, race: RaceState, e: Event)
    ensures Advanced(race, Step(env, cfg, race, e).race)
  {
    var r := Step(env, cfg, race, e).race;
    forall id | id in race.competitors
      ensures id in r.competitors && Progressed(race.competitors[id], r.competitors[id])
    {
      if id == e.id && env.clock(e.time).Some? {
        var t := env.clock(e.time).value;
        var h := Handle(env, cfg, race.currentLap, race.competitors[e.id], e, t);
        assert h.Done? ==> Progressed(race.competitors[id], h.comp);
      }
    }
  }

  lemma {:induction false} RunAdvances(env: Env, cfg: Config, race: RaceState, events: seq<Event>)
    ensures Advanced(race, Run(env, cfg, race, events).race)
    decreases |events|
  {
    if |events| > 0 {
      var mid := Step(env, cfg, race, events[0]).race;
      StepAdvances(env, cfg, race, events[0]);
      RunAdvances(env, cfg, mid, events[1..]);
    }
  }

  // ---------------------------------------------------------------------------
  // Properties of single events

  /** A second registration of the same id always fails and changes nothing. */
  lemma RegistrationTwiceRejected(env: Env, cfg: Config, race: RaceState, e1: Event, e2: Event)
    requires e1.kind == EventRegistration && e2.kind == EventRegistration && e1.id == e2.id
    requires env.clock(e1.time).Some? && env.clock(e2.time).Some? && KeysMatch(race)
    ensures var r1 := Step(env, cfg, race, e1);
      var r2 := Step(env, cfg, r1.race, e2);
      && r2.err == Some(AlreadyRegistered(e2.id))
      && r2.race == r1.race && r2.out == []
  {
    var r1 := Step(env, cfg, race, e1);
    var c := EnsureCompetitor(race, e1.id).competitors[e1.id];
    assert r1.race.competitors[e1.id].registered;
    assert EnsureCompetitor(r1.race, e2.id) == r1.race;
  }

  /** `OnStartLine` only creates the record. */
  lemma OnStartLineOnlyCreates(env: Env, cfg: Config, race: RaceState, e: Event)
    requires e.kind == EventOnStartLine && env.clock(e.time).Some?
    ensures Step(env, cfg, race, e) == StepResult(EnsureCompetitor(race, e.id), [], None)
  {
  }

  /** `CannotContinue` always disqualifies, with the stated reason prefixed. */
  lemma CannotContinueDisqualifies(env: Env, cfg: Config, race: RaceState, e: Event)
    requires e.kind == EventCannotContinue && env.clock(e.time).Some? && KeysMatch(race)
    ensures var r := Step(env, cfg, race, e);
      && r.err.None?
      && r.race.competitors[e.id].disqualified
      && r.out == [Disqualified(e.id, Stated("NotFinished: " + e.params))]
  {
    var c := EnsureCompetitor(race, e.id).competitors[e.id];
    assert c.id == e.id;
  }

  /**
   * A completed lap raises the current lap to the competitor's new count when
   * that count is larger, and the finish event is emitted exactly when every
   * lap is done with no penalty lap owed.
   */
  lemma LapCompletedOutcome(env: Env, cfg: Config, race: RaceState, e: Event)
    requires e.kind == EventLapCompleted && env.clock(e.time).Some? && KeysMatch(race)
    ensures var before := EnsureCompetitor(race, e.id).competitors[e.id];
      var r := Step(env, cfg, race, e);
      var after := r.race.competitors[e.id];
      && r.err.None?
      && after.lapsCompleted == before.lapsCompleted + 1
      && r.race.currentLap == Max(race.currentLap, after.lapsCompleted)
      && (after.lapsCompleted >= cfg.laps && after.penaltyLaps == 0
          <==> r.out == [Finished(e.id, env.clock(e.time).value)])
  {
    var c := EnsureCompetitor(race, e.id).competitors[e.id];
    assert c.id == e.id;
  }
}
