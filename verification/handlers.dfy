/**
 * The per-event handlers of the race state machine. Each one sees the record of
 * the competitor the event names (and, where the source reads it, the race's
 * current lap) and returns the new record or the error it rejects the event with.
 */
module Handlers {
  import opened Wrappers
  import opened Models
  import opened Events
  import Shooting

  /** A handler that cannot fail: the new record and the events it synthesizes. */
  datatype Effect = Effect(comp: Competitor, out: seq<Outbound>)

  /** `handleRegistration`: a second registration is rejected. */
  function Register(c: Competitor): (r: Result<Competitor, Error>)
    ensures r.Err? <==> c.registered
    ensures r.Err? ==> r.error == AlreadyRegistered(c.id)
    ensures r.Ok? ==> r.value.registered && r.value == c.(registered := true)
  {
    if c.registered then Err(AlreadyRegistered(c.id)) else Ok(c.(registered := true))
  }

  /** `handleStartTimeSet`: `parsed` is the event parameter read as a clock time. */
  function SetStartTime(c: Competitor, parsed: Option<ClockMs>): (r: Result<Competitor, Error>)
    ensures r.Err? <==> parsed.None?
    ensures r.Err? ==> r.error == InvalidStartTime
    ensures r.Ok? ==> r.value.scheduledStart == parsed && r.value == c.(scheduledStart := parsed)
  {
    match parsed
    case None => Err(InvalidStartTime)
    case Some(t) => Ok(c.(scheduledStart := Some(t)))
  }

  /** The start window in milliseconds; a window that failed to parse is zero. */
  function DeltaMillis(cfg: Config): (d: nat)
    ensures cfg.startDelta.None? ==> d == 0
    ensures cfg.startDelta.Some? ==> d == 1000 * cfg.startDelta.value
  {
    match cfg.startDelta
    case None => 0
    case Some(s) => 1000 * s
  }

  /**
   * A start is late when a start time was drawn and the start comes strictly
   * after it plus the window. With no draw the scheduled start is the zero time,
   * which no clock time passes.
   */
  predicate IsLate(scheduled: Option<ClockMs>, start: ClockMs, window: nat)
  {
    scheduled.Some? && start > scheduled.value + window
  }

  /** `disqualify`: marks the competitor and emits the disqualification event. */
  function Disqualify(c: Competitor, reason: Reason): (e: Effect)
    ensures e.comp.disqualified
    ensures e.comp == c.(disqualified := true)
    ensures e.out == [Disqualified(c.id, reason)] && e.out[0].Kind() == EventDisqualified
  {
    Effect(c.(disqualified := true), [Disqualified(c.id, reason)])
  }

  /**
   * `handleStart`: records the actual start, then disqualifies the competitor
   * when the start falls after the scheduled start plus the window, comparing
   * the absolute instants the source compares.
   */
  function Start(cfg: Config, c: Competitor, t: ClockMs): (e: Effect)
    ensures e.comp.actualStart == Some(t)
    ensures var late := Instant(Some(t)) > Instant(c.scheduledStart) + DeltaMillis(cfg);
      && e.comp == c.(actualStart := Some(t), disqualified := c.disqualified || late)
      && (late ==> e.out == [Disqualified(c.id, LateStart(Instant(c.scheduledStart) + DeltaMillis(cfg)))])
      && (!late ==> e.out == [])
    ensures c.scheduledStart.Some? && t == c.scheduledStart.value + DeltaMillis(cfg) ==> e.out == []
  {
    var started := c.(actualStart := Some(t));
    var window := DeltaMillis(cfg);
    if IsLate(c.scheduledStart, t, window) then
      Disqualify(started, LateStart(c.scheduledStart.value + window))
    else
      Effect(started, [])
  }

  /**
   * `handleFiringRangeEntry`: the firing-line number must lie in
   * 1..FiringLines; only the shooting statistics change, growing by one empty
   * entry when they do not go past the current lap.
   */
  function EnterRange(cfg: Config, currentLap: nat, c: Competitor, rangeNum: int)
    : (r: Result<Competitor, Error>)
    ensures r.Err? <==> rangeNum < 1 || rangeNum > cfg.firingLines
    ensures r.Err? ==> r.error == InvalidRangeNumber(rangeNum)
    ensures r.Ok? ==> r.value == c.(shootingStats := r.value.shootingStats)
    ensures r.Ok? ==>
      |r.value.shootingStats| >= |c.shootingStats|
      && r.value.shootingStats[..|c.shootingStats|] == c.shootingStats
    ensures r.Ok? && |c.shootingStats| <= currentLap ==>
      |r.value.shootingStats| == |c.shootingStats| + 1
      && |r.value.shootingStats[|c.shootingStats|]| == cfg.firingLines
      && forall j :: 0 <= j < cfg.firingLines ==> r.value.shootingStats[|c.shootingStats|][j] == []
    ensures r.Ok? && currentLap < |c.shootingStats| ==> r.value == c
  {
    if rangeNum < 1 || rangeNum > cfg.firingLines then
      Err(InvalidRangeNumber(rangeNum))
    else
      Ok(c.(shootingStats := Shooting.InitShootingStats(c.shootingStats, currentLap, cfg.firingLines)))
  }

  /** The line every shot and every range exit uses, whatever line was entered. */
  const ShotLine: nat := 0

  /** Whether the current lap has a stats entry with at least one firing line. */
  predicate HasShotLine(c: Competitor, currentLap: nat)
  {
    currentLap < |c.shootingStats| && ShotLine < |c.shootingStats[currentLap]|
  }

  /**
   * `processShot`: the outcome the oracle decides is appended to line 0 of the
   * current lap's entry; a miss costs one penalty lap. Nothing else changes.
   */
  function Shot(hit: HitOracle, currentLap: nat, c: Competitor): (r: Result<Competitor, Error>)
    ensures r.Err? <==> currentLap >= |c.shootingStats| || |c.shootingStats[currentLap]| == 0
    ensures r.Err? && currentLap >= |c.shootingStats| ==> r.error == InvalidLap(currentLap)
    ensures r.Err? && currentLap < |c.shootingStats| ==> r.error == InvalidLine(ShotLine)
    ensures r.Ok? ==>
      var before := c.shootingStats;
      var after := r.value.shootingStats;
      var outcome := hit(c.id, currentLap, |before[currentLap][ShotLine]|);
      && r.value == c.(shootingStats := after, penaltyLaps := r.value.penaltyLaps)
      && |after| == |before|
      && (forall i :: 0 <= i < |before| && i != currentLap ==> after[i] == before[i])
      && |after[currentLap]| == |before[currentLap]|
      && (forall j :: 0 < j < |before[currentLap]| ==> after[currentLap][j] == before[currentLap][j])
      && after[currentLap][ShotLine] == before[currentLap][ShotLine] + [outcome]
      && Shooting.Hits(after[currentLap][ShotLine])
           == Shooting.Hits(before[currentLap][ShotLine]) + (if outcome then 1 else 0)
      && r.value.penaltyLaps == c.penaltyLaps + (if outcome then 0 else 1)
  {
    if currentLap >= |c.shootingStats| then
      Err(InvalidLap(currentLap))
    else if ShotLine >= |c.shootingStats[currentLap]| then
      Err(InvalidLine(ShotLine))
    else
      var entry := c.shootingStats[currentLap];
      var line := entry[ShotLine];
      var outcome := hit(c.id, currentLap, |line|);
      Shooting.HitsAppend(line, outcome);
      var stats := c.shootingStats[currentLap := entry[ShotLine := line + [outcome]]];
      Ok(c.(shootingStats := stats, penaltyLaps := if outcome then c.penaltyLaps else c.penaltyLaps + 1))
  }

  /**
   * `processRangeExit`: every one of the five shots of the visit not recorded
   * as a hit on line 0 of the current lap costs a penalty lap; more than five
   * hits cost nothing. The statistics are only read.
   */
  function LeaveRange(currentLap: nat, c: Competitor): (r: Result<Competitor, Error>)
    ensures r.Err? <==> !HasShotLine(c, currentLap)
    ensures r.Err? ==> r.error == InvalidLine(ShotLine)
    ensures r.Ok? ==>
      var hits := Shooting.Hits(c.shootingStats[currentLap][ShotLine]);
      && r.value == c.(penaltyLaps := r.value.penaltyLaps)
      && r.value.penaltyLaps >= c.penaltyLaps
      && (hits < ShotsPerVisit ==> r.value.penaltyLaps + hits == c.penaltyLaps + ShotsPerVisit)
      && (hits >= ShotsPerVisit ==> r.value == c)
  {
    if !HasShotLine(c, currentLap) then
      Err(InvalidLine(ShotLine))
    else
      var misses := ShotsPerVisit - Shooting.Hits(c.shootingStats[currentLap][ShotLine]);
      if misses > 0 then Ok(c.(penaltyLaps := c.penaltyLaps + misses)) else Ok(c)
  }

  /** `processPenaltyEntry`: only checks that a penalty lap is owed. */
  function EnterPenalty(c: Competitor): (r: Result<Competitor, Error>)
    ensures r.Err? <==> c.penaltyLaps <= 0
    ensures r.Err? ==> r.error == NoPenaltyOwed
    ensures r.Ok? ==> r.value == c
  {
    if c.penaltyLaps <= 0 then Err(NoPenaltyOwed) else Ok(c)
  }

  /** `processPenaltyExit`: pays off one owed penalty lap, never going below zero. */
  function LeavePenalty(c: Competitor): (r: Result<Competitor, Error>)
    ensures r.Err? <==> c.penaltyLaps <= 0
    ensures r.Err? ==> r.error == NoPenaltyOwed
    ensures r.Ok? ==> r.value.penaltyLaps >= 0 && r.value.penaltyLaps + 1 == c.penaltyLaps
    ensures r.Ok? ==> r.value == c.(penaltyLaps := r.value.penaltyLaps)
  {
    if c.penaltyLaps <= 0 then Err(NoPenaltyOwed) else Ok(c.(penaltyLaps := c.penaltyLaps - 1))
  }

  /**
   * `processLapCompletion` and `finishCompetitor`: one more lap; the competitor
   * finishes, and a finish event stamped with the lap time is emitted, exactly
   * when all laps are done and no penalty lap is owed. An earlier finish is not
   * a reason to skip this.
   */
  function CompleteLap(cfg: Config, c: Competitor, t: ClockMs): (e: Effect)
    ensures e.comp.lapsCompleted == c.lapsCompleted + 1
    ensures var done := e.comp.lapsCompleted >= cfg.laps && c.penaltyLaps == 0;
      && e.comp == c.(lapsCompleted := e.comp.lapsCompleted, finished := c.finished || done)
      && (done <==> e.out == [Finished(c.id, t)])
      && (!done <==> e.out == [])
    ensures e.comp.finished && !c.finished ==> e.comp.lapsCompleted >= cfg.laps && e.comp.penaltyLaps == 0
  {
    var lapped := c.(lapsCompleted := c.lapsCompleted + 1);
    if lapped.lapsCompleted >= cfg.laps && lapped.penaltyLaps == 0 then
      Effect(lapped.(finished := true), [Finished(c.id, t)])
    else
      Effect(lapped, [])
  }
}
