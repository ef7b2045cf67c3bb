/** Event kinds, handler errors and the outbound (synthesized) events of the race. */
module Events {
  import opened Models

  const EventRegistration: int := 1
  const EventStartTimeSet: int := 2
  const EventOnStartLine: int := 3
  const EventStarted: int := 4
  const EventOnFiringRange: int := 5
  const EventShot: int := 6
  const EventLeftFiringRange: int := 7
  const EventEnteredPenalty: int := 8
  const EventLeftPenalty: int := 9
  const EventLapCompleted: int := 10
  const EventCannotContinue: int := 11
  const EventDisqualified: int := 32
  const EventFinished: int := 33

  /** The kinds the dispatcher accepts from the feed. */
  predicate IsInbound(kind: int)
  {
    EventRegistration <= kind <= EventCannotContinue
  }

  /** Shots a competitor owes on every firing-range visit. */
  const ShotsPerVisit: int := 5

  const NotFinishedPrefix: string := "NotFinished: "

  /** The errors `ProcessEvent` and its handlers return. */
  datatype Error =
    | InvalidTimestamp
    | InvalidStartTime
    | InvalidInt(text: string)
    | UnknownEventKind(kind: int)
    | AlreadyRegistered(id: int)
    | InvalidRangeNumber(rangeNum: int)
    | InvalidLap(lap: int)
    | InvalidLine(line: int)
    | NoPenaltyOwed

  /** Why a competitor was disqualified. `LateStart` keeps the deadline that was missed. */
  datatype Reason = LateStart(deadline: int) | Stated(text: string)

  /**
   * An event the race synthesizes. A disqualification carries no time: the
   * source stamps it with the wall clock.
   */
  datatype Outbound = Disqualified(id: int, reason: Reason) | Finished(id: int, at: ClockMs)
  {
    function Kind(): int
    {
      match this
      case Disqualified(_, _) => EventDisqualified
      case Finished(_, _) => EventFinished
    }
  }

  /**
   * The hit/miss decision for one shot, given the competitor id, the lap the
   * shot is recorded under and the number of shots already on that line.
   */
  type HitOracle = (int, int, nat) -> bool

  /** The source's decision: every shot hits. */
  function AlwaysHit(): HitOracle
  {
    (id: int, lap: int, k: nat) => true
  }
}
