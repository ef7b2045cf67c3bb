/** The competitor record and the race configuration (core/models.go, config/config.go). */
module Models {
  import opened Wrappers

  const MillisPerDay: int := 86_400_000

  /** A time of day as the layout "15:04:05.000" parses it: milliseconds since midnight. */
  type ClockMs = t: int | 0 <= t < MillisPerDay

  /** A start window as the layout "15:04:05" parses it: whole seconds, hours below 24. */
  type DeltaSeconds = s: int | 0 <= s < 86_400

  /**
   * The configuration fields the state machine reads. `startDelta` is the parsed
   * "15:04:05" text, `None` when that text does not parse.
   */
  datatype Config = Config(laps: int, firingLines: int, startDelta: Option<DeltaSeconds>)

  /**
   * Per-competitor state. Time fields hold `None` for Go's zero `time.Time`.
   * `shootingStats[lap][line]` lists the outcome (hit = true) of every shot
   * fired on that firing line during that lap.
   */
  datatype Competitor = Competitor(
    id: int,
    registered: bool,
    scheduledStart: Option<ClockMs>,
    actualStart: Option<ClockMs>,
    finished: bool,
    disqualified: bool,
    lapsCompleted: int,
    penaltyLaps: int,
    shootingStats: seq<seq<seq<bool>>>,
    totalTime: int,
    firstEvent: Option<ClockMs>,
    lastEvent: Option<ClockMs>,
    eventsCount: int)

  /** The bookkeeping fields no handler writes still hold their zero values. */
  predicate Bookkeeping0(c: Competitor)
  {
    c.totalTime == 0 && c.firstEvent == None && c.lastEvent == None && c.eventsCount == 0
  }

  /** `&Competitor{ID: id}`: every field but the id at its zero value. */
  function NewCompetitor(id: int): (c: Competitor)
    ensures c.id == id
    ensures !c.registered && !c.finished && !c.disqualified
    ensures c.scheduledStart == None && c.actualStart == None
    ensures c.lapsCompleted == 0 && c.penaltyLaps == 0
    ensures c.shootingStats == []
    ensures Bookkeeping0(c)
  {
    Competitor(id, false, None, None, false, false, 0, 0, [], 0, None, None, 0)
  }

  /**
   * Year 0 of the proleptic Gregorian calendar is a leap year, so Go's zero
   * time (0001-01-01) lies 366 days after the date (0000-01-01) every parsed
   * clock time is placed on.
   */
  const ZeroTimeInstant: int := 366 * MillisPerDay

  /** A stored time as milliseconds since 0000-01-01T00:00:00Z. */
  function Instant(t: Option<ClockMs>): int
  {
    match t
    case None => ZeroTimeInstant
    case Some(ms) => ms
  }

  /** The unset time sorts strictly after every parsed clock time, even shifted by a day. */
  lemma ZeroTimeSortsLast(ms: ClockMs, shift: DeltaSeconds)
    ensures Instant(Some(ms)) < Instant(None) + 1000 * shift
    ensures Instant(Some(ms)) + 1000 * shift < Instant(None)
  {
  }
}
