/**
 * Race scenarios replayed through the state machine. The fixture parsers only
 * read well-formed "hh:mm:ss.mmm" clock texts and one-digit integers; they
 * stand in for the Go library parsers for these feeds only.
 */
module Scenarios {
  import opened Wrappers
  import opened Models
  import opened Events
  import opened Handlers
  import opened Race

  function Digit(ch: char): int
  {
    ch as int - '0' as int
  }

  predicate IsDigit(ch: char)
  {
    '0' <= ch <= '9'
  }

  /** Reads "hh:mm:ss.mmm" into milliseconds since midnight. */
  function FixtureClock(s: string): (r: Option<ClockMs>)
    ensures r.Some? ==> |s| == 12
  {
    if |s| == 12 && s[2] == ':' && s[5] == ':' && s[8] == '.'
       && IsDigit(s[0]) && IsDigit(s[1]) && IsDigit(s[3]) && IsDigit(s[4])
       && IsDigit(s[6]) && IsDigit(s[7]) && IsDigit(s[9]) && IsDigit(s[10]) && IsDigit(s[11])
    then
      var h := 10 * Digit(s[0]) + Digit(s[1]);
      var m := 10 * Digit(s[3]) + Digit(s[4]);
      var sec := 10 * Digit(s[6]) + Digit(s[7]);
      var ms := 100 * Digit(s[9]) + 10 * Digit(s[10]) + Digit(s[11]);
      if h < 24 && m < 60 && sec < 60 then Some(((h * 60 + m) * 60 + sec) * 1000 + ms) else None
    else None
  }

  /** Reads a one-digit integer. */
  function FixtureInt(s: string): (r: Option<int>)
    ensures r.Some? ==> 0 <= r.value <= 9
  {
    if |s| == 1 && IsDigit(s[0]) then Some(Digit(s[0])) else None
  }

  function FixtureEnv(hit: HitOracle): Env
  {
    Env(FixtureClock, FixtureInt, hit)
  }

  /** Laps = 2, one firing line, a five-second start window. */
  function Cfg(): Config
  {
    Config(2, 1, Some(5))
  }

  function Draw(id: int, at: string): Event
  {
    Event("09:30:00.000", EventStartTimeSet, id, at)
  }

  /** A start one second past the window is disqualified with the missed deadline. */
  lemma LateStartScenario()
    ensures var r := Run(FixtureEnv(AlwaysHit()), Cfg(), Initial(),
        [Draw(1, "10:00:00.000"), Event("10:00:06.000", EventStarted, 1, "")]);
      && 1 in r.race.competitors
      && r.out == [Disqualified(1, LateStart(36_005_000))]
      && r.race.competitors[1].disqualified
  {
    var env := FixtureEnv(AlwaysHit());
    var e1 := Draw(1, "10:00:00.000");
    var e2 := Event("10:00:06.000", EventStarted, 1, "");
    assert FixtureClock(e1.time).Some? && FixtureClock(e1.params) == Some(36_000_000);
    assert FixtureClock(e2.time) == Some(36_006_000);
    var s1 := Step(env, Cfg(), Initial(), e1);
    assert s1.race.competitors[1].scheduledStart == Some(36_000_000);
    var s2 := Step(env, Cfg(), s1.race, e2);
    assert s2.out == [Disqualified(1, LateStart(36_005_000))];
    assert [e1, e2][1..] == [e2];
    assert Run(env, Cfg(), s1.race, [e2]) == Replay(s2.race, s2.out);
  }

  /** A start exactly at the end of the window is on time. */
  lemma StartAtDeadlineScenario()
    ensures var r := Run(FixtureEnv(AlwaysHit()), Cfg(), Initial(),
        [Draw(1, "10:00:00.000"), Event("10:00:05.000", EventStarted, 1, "")]);
      && 1 in r.race.competitors
      && r.out == []
      && !r.race.competitors[1].disqualified
      && r.race.competitors[1].actualStart == Some(36_005_000)
  {
    var env := FixtureEnv(AlwaysHit());
    var e1 := Draw(1, "10:00:00.000");
    var e2 := Event("10:00:05.000", EventStarted, 1, "");
    assert FixtureClock(e1.time).Some? && FixtureClock(e1.params) == Some(36_000_000);
    assert FixtureClock(e2.time) == Some(36_005_000);
    var s1 := Step(env, Cfg(), Initial(), e1);
    assert s1.race.competitors[1].scheduledStart == Some(36_000_000);
    var s2 := Step(env, Cfg(), s1.race, e2);
    assert [e1, e2][1..] == [e2];
    assert Run(env, Cfg(), s1.race, [e2]) == Replay(s2.race, s2.out);
  }

  /** Without a drawn start time even the last millisecond of the day is not late. */
  lemma UndrawnStartScenario()
    ensures var r := Step(FixtureEnv(AlwaysHit()), Cfg(), Initial(),
        Event("23:59:59.999", EventStarted, 1, ""));
      && 1 in r.race.competitors
      && r.err.None? && r.out == []
      && !r.race.competitors[1].disqualified
  {
    assert FixtureClock("23:59:59.999") == Some(86_399_999);
  }

  /** Shooting or leaving the range before entering it fails and only creates the record. */
  lemma ShotBeforeRangeScenario()
    ensures var env := FixtureEnv(AlwaysHit());
      var s1 := Step(env, Cfg(), Initial(), Event("09:00:00.000", EventRegistration, 1, ""));
      var s2 := Step(env, Cfg(), s1.race, Event("10:10:01.000", EventShot, 1, "1"));
      var s3 := Step(env, Cfg(), s1.race, Event("10:10:30.000", EventLeftFiringRange, 1, ""));
      && s2 == StepResult(s1.race, [], Some(InvalidLap(0)))
      && s3 == StepResult(s1.race, [], Some(InvalidLine(0)))
  {
    assert FixtureClock("09:00:00.000").Some?;
    assert FixtureClock("10:10:01.000").Some? && FixtureInt("1") == Some(1);
    assert FixtureClock("10:10:30.000").Some?;
  }

  /** Another competitor's lap moves the current lap to 1; a first range entry then adds only the lap-0 entry. */
  lemma EntryAfterOtherLap()
    ensures var env := FixtureEnv(AlwaysHit());
      var s1 := Step(env, Cfg(), Initial(), Event("10:20:00.000", EventLapCompleted, 2, ""));
      var s2 := Step(env, Cfg(), s1.race, Event("10:20:01.000", EventOnFiringRange, 1, "1"));
      && s1.race.currentLap == 1
      && s2.err.None? && s2.race.currentLap == 1
      && 1 in s2.race.competitors && |s2.race.competitors[1].shootingStats| == 1
  {
    assert FixtureClock("10:20:00.000").Some?;
    assert FixtureClock("10:20:01.000").Some? && FixtureInt("1") == Some(1);
  }

  /**
   * Once another competitor has completed a lap, a first range entry adds the
   * entry for lap 0 while the race's current lap is 1, so the shot that follows
   * is rejected.
   */
  lemma EntryBehindCurrentLapScenario()
    ensures var env := FixtureEnv(AlwaysHit());
      var s1 := Step(env, Cfg(), Initial(), Event("10:20:00.000", EventLapCompleted, 2, ""));
      var s2 := Step(env, Cfg(), s1.race, Event("10:20:01.000", EventOnFiringRange, 1, "1"));
      var s3 := Step(env, Cfg(), s2.race, Event("10:20:02.000", EventShot, 1, "1"));
      && s1.race.currentLap == 1
      && s2.err.None? && 1 in s2.race.competitors && |s2.race.competitors[1].shootingStats| == 1
      && s3.err == Some(InvalidLap(1))
  {
    EntryAfterOtherLap();
    assert FixtureClock("10:20:02.000").Some? && FixtureInt("1") == Some(1);
  }

  // ---------------------------------------------------------------------------
  // Range visits on one competitor's record

  /** `k` successive shots at the current lap. */
  function Shots(hit: HitOracle, lap: nat, c: Competitor, k: nat): Result<Competitor, Error>
    decreases k
  {
    if k == 0 then Ok(c)
    else match Shots(hit, lap, c, k - 1)
      case Err(e) => Err(e)
      case Ok(c1) => Shot(hit, lap, c1)
  }

  /** With every shot a hit, `k` shots add `k` hits to line 0 and no penalty. */
  lemma {:induction false} AllHitShots(lap: nat, c: Competitor, k: nat)
    requires HasShotLine(c, lap)
    ensures var r := Shots(AlwaysHit(), lap, c, k);
      && r.Ok?
      && HasShotLine(r.value, lap)
      && r.value == c.(shootingStats := r.value.shootingStats)
      && r.value.shootingStats[lap][ShotLine] == c.shootingStats[lap][ShotLine] + seq(k, i => true)
  {
    if k > 0 {
      AllHitShots(lap, c, k - 1);
      var prev := Shots(AlwaysHit(), lap, c, k - 1).value;
      var line := c.shootingStats[lap][ShotLine];
      var next := Shot(AlwaysHit(), lap, prev);
      assert Shots(AlwaysHit(), lap, c, k) == next;
      assert next.Ok?;
      assert AlwaysHit()(prev.id, lap, |prev.shootingStats[lap][ShotLine]|);
      assert next.value.shootingStats[lap][ShotLine] == prev.shootingStats[lap][ShotLine] + [true];
      assert seq(k, i => true) == seq(k - 1, i => true) + [true];
    }
  }

  /**
   * A range visit entered at the lap the competitor's statistics have reached,
   * with `k` hits: the visit leaves `5 - k` penalty laps when `k` is below five
   * and none otherwise.
   */
  lemma VisitPenalty(cfg: Config, lap: nat, c: Competitor, k: nat)
    requires cfg.firingLines >= 1 && |c.shootingStats| == lap
    ensures var entered := EnterRange(cfg, lap, c, 1);
      && entered.Ok?
      && var shot := Shots(AlwaysHit(), lap, entered.value, k);
      && shot.Ok?
      && var left := LeaveRange(lap, shot.value);
      && left.Ok?
      && |left.value.shootingStats| == lap + 1
      && left.value == c.(shootingStats := left.value.shootingStats, penaltyLaps := left.value.penaltyLaps)
      && left.value.penaltyLaps == c.penaltyLaps + (if k < ShotsPerVisit then ShotsPerVisit - k else 0)
  {
    var entered := EnterRange(cfg, lap, c, 1).value;
    assert entered.shootingStats[lap] == Shooting.EmptyEntry(cfg.firingLines);
    assert entered.shootingStats[lap][ShotLine] == [];
    AllHitShots(lap, entered, k);
    var shot := Shots(AlwaysHit(), lap, entered, k).value;
    assert [] + seq(k, i => true) == seq(k, i => true);
    assert shot.shootingStats[lap][ShotLine] == seq(k, i => true);
    Shooting.HitsAllTrue(k);
    assert Shooting.Hits(shot.shootingStats[lap][ShotLine]) == k;
  }

  /**
   * One range visit at line 1, entered when the statistics have reached `lap`:
   * the entry, `k` hits, and the exit.
   */
  function Visit(cfg: Config, lap: nat, c: Competitor, k: nat): (v: Competitor)
    requires cfg.firingLines >= 1 && |c.shootingStats| == lap
    ensures |v.shootingStats| == lap + 1
    ensures v == c.(shootingStats := v.shootingStats, penaltyLaps := v.penaltyLaps)
    ensures v.penaltyLaps == c.penaltyLaps + (if k < ShotsPerVisit then ShotsPerVisit - k else 0)
  {
    VisitPenalty(cfg, lap, c, k);
    LeaveRange(lap, Shots(AlwaysHit(), lap, EnterRange(cfg, lap, c, 1).value, k).value).value
  }

  /**
   * The two-lap race of one competitor with one firing line: five hits on the
   * first visit, `k` on the second. The competitor finishes on the second lap
   * exactly when `k` is five; otherwise `5 - k` penalty laps are still owed.
   */
  lemma TwoLapRace(cfg: Config, c: Competitor, k: nat, t1: ClockMs, t2: ClockMs)
    requires cfg.laps == 2 && cfg.firingLines == 1 && k <= ShotsPerVisit
    requires c.shootingStats == [] && c.lapsCompleted == 0 && c.penaltyLaps == 0 && !c.finished
    ensures var lap1 := CompleteLap(cfg, Visit(cfg, 0, c, ShotsPerVisit), t1);
      var lap2 := CompleteLap(cfg, Visit(cfg, 1, lap1.comp, k), t2);
      && lap1.out == [] && !lap1.comp.finished
      && lap2.comp.lapsCompleted == 2
      && lap2.comp.penaltyLaps == ShotsPerVisit - k
      && (lap2.comp.finished <==> k == ShotsPerVisit)
      && (k == ShotsPerVisit ==> lap2.out == [Finished(c.id, t2)])
      && (k < ShotsPerVisit ==> lap2.out == [])
  {
    var visit1 := Visit(cfg, 0, c, ShotsPerVisit);
    var lap1 := CompleteLap(cfg, visit1, t1);
    assert lap1.comp.lapsCompleted == 1 && lap1.comp.penaltyLaps == 0 && |lap1.comp.shootingStats| == 1;
    var visit2 := Visit(cfg, 1, lap1.comp, k);
    assert visit2.lapsCompleted == 1 && visit2.penaltyLaps == ShotsPerVisit - k;
  }

  /**
   * With a decision that can miss, one missed shot on an empty line is charged
   * twice: once by the shot and again as one of the five shots missing at the
   * range exit.
   */
  lemma MissChargedTwice(hit: HitOracle, lap: nat, c: Competitor)
    requires HasShotLine(c, lap) && c.shootingStats[lap][ShotLine] == []
    requires !hit(c.id, lap, 0)
    ensures var shot := Shot(hit, lap, c);
      && shot.Ok?
      && LeaveRange(lap, shot.value).Ok?
      && LeaveRange(lap, shot.value).value.penaltyLaps == c.penaltyLaps + 1 + ShotsPerVisit
  {
    assert Shooting.Hits([false]) == 0 by {
      assert [false][..0] == [];
    }
  }
}
