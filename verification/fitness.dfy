/** The evaluator's scoring of one match: the results record the controller
    wrote is turned into a single fitness value by a fixed weighted sum,
    with defaults for optional keys and a sentinel for an unusable file. */
module Fitness {
  import opened Opt
  import Controller

  /** The results file as the evaluator reads it. A key may be missing;
      a missing file is a missing record. */
  datatype Record = Record(
    wonMatch: Option<bool>,
    fightHistory: Option<seq<int>>,
    damageDealt: Option<real>,
    damageTaken: Option<real>,
    healthBonus: Option<real>,
    timeBonus: Option<real>,
    averageDistance: Option<real>)

  /** The score of an individual whose match produced no usable results. */
  const Sentinel: real := -9999.0

  const WinReward: real := 1000.0
  const DealtWeight: real := 1.5
  const TakenWeight: real := 2.0
  /** The distance that earns no aggressiveness reward; also the default. */
  const FarDistance: real := 255.0
  const CloseWeight: real := 0.5
  const FlawlessReward: real := 500.0

  /** Policy 1: the match outcome. */
  function OutcomeTerm(won: bool): real {
    if won then WinReward else -WinReward
  }

  /** Policy 2: the damage differential, taking damage weighing more. */
  function DamageTerm(dealt: real, taken: real): real {
    DealtWeight * dealt - TakenWeight * taken
  }

  /** Policy 3: health and time efficiency. */
  function EfficiencyTerm(healthBonus: real, timeBonus: real): real {
    healthBonus + timeBonus
  }

  /** Policy 4: aggressiveness; a lower average distance is better. */
  function CloseTerm(averageDistance: real): real {
    (FarDistance - averageDistance) * CloseWeight
  }

  /** Policy 5: a flawless two-round win. */
  function FlawlessTerm(history: seq<int>): real {
    if history == [1, 1] then FlawlessReward else 0.0
  }

  /** The fitness of a results file: the sentinel when the file is missing
      or lacks the match outcome or the round history; otherwise the sum of
      the five policies, where missing damage and bonus keys count as 0 and a
      missing average distance counts as 255. */
  function Score(file: Option<Record>): (f: real)
    ensures file.None? ==> f == Sentinel
    ensures file.Some? && (file.value.wonMatch.None? || file.value.fightHistory.None?) ==> f == Sentinel
  {
    match file
    case None => Sentinel
    case Some(r) =>
      if r.wonMatch.None? || r.fightHistory.None? then Sentinel
      else
        OutcomeTerm(r.wonMatch.value)
        + DamageTerm(r.damageDealt.GetOr(0.0), r.damageTaken.GetOr(0.0))
        + EfficiencyTerm(r.healthBonus.GetOr(0.0), r.timeBonus.GetOr(0.0))
        + CloseTerm(r.averageDistance.GetOr(FarDistance))
        + FlawlessTerm(r.fightHistory.value)
  }

  /** The worked example: a won 2-0 match with 50 damage dealt, 20 taken,
      health bonus 100, time bonus 10 and average distance 50. */
  lemma ScoreExample()
    ensures Score(Some(Record(Some(true), Some([1, 1]), Some(50.0), Some(20.0),
                              Some(100.0), Some(10.0), Some(50.0)))) == 1747.5
  {
  }

  /** A missing damage or bonus key scores as 0, and a missing average
      distance as 255 (so it contributes nothing). */
  lemma ScoreDefaults(r: Record)
    ensures Score(Some(r.(damageDealt := None))) == Score(Some(r.(damageDealt := Some(0.0))))
    ensures Score(Some(r.(damageTaken := None))) == Score(Some(r.(damageTaken := Some(0.0))))
    ensures Score(Some(r.(healthBonus := None))) == Score(Some(r.(healthBonus := Some(0.0))))
    ensures Score(Some(r.(timeBonus := None))) == Score(Some(r.(timeBonus := Some(0.0))))
    ensures Score(Some(r.(averageDistance := None))) == Score(Some(r.(averageDistance := Some(FarDistance))))
  {
  }

  /** With only the two required keys present, the score is the outcome
      reward plus the flawless bonus. */
  lemma ScoreMinimalRecord(won: bool, history: seq<int>)
    ensures Score(Some(Record(Some(won), Some(history), None, None, None, None, None)))
      == (if won then 1000.0 else -1000.0) + (if history == [1, 1] then 500.0 else 0.0)
  {
  }

  /** Winning the match instead of losing it, all else equal, is worth
      exactly 2000. */
  lemma WinWorth(r: Record)
    requires r.fightHistory.Some?
    ensures Score(Some(r.(wonMatch := Some(true)))) == Score(Some(r.(wonMatch := Some(false)))) + 2000.0
  {
  }

  /** Each extra point of damage dealt adds 1.5; each extra point taken
      subtracts 2; each extra unit of average distance subtracts 0.5. */
  lemma ScoreSlopes(r: Record, dealt: real, taken: real, distance: real, delta: real)
    requires r.wonMatch.Some? && r.fightHistory.Some?
    ensures Score(Some(r.(damageDealt := Some(dealt + delta))))
      == Score(Some(r.(damageDealt := Some(dealt)))) + 1.5 * delta
    ensures Score(Some(r.(damageTaken := Some(taken + delta))))
      == Score(Some(r.(damageTaken := Some(taken)))) - 2.0 * delta
    ensures Score(Some(r.(averageDistance := Some(distance + delta))))
      == Score(Some(r.(averageDistance := Some(distance)))) - 0.5 * delta
  {
  }

  /** The results file the controller writes for a finished match. */
  function Encode(m: Controller.MatchResult): (r: Record)
    ensures r.wonMatch == Some(m.wonMatch) && r.fightHistory == Some(m.history)
    ensures r.damageDealt == Some(m.damageDealt as real) && r.damageTaken == Some(m.damageTaken as real)
    ensures r.healthBonus == Some(m.healthBonus as real) && r.timeBonus == Some(m.timeBonus as real)
    ensures r.averageDistance == Some(m.averageDistance)
  {
    Record(Some(m.wonMatch), Some(m.history), Some(m.damageDealt as real), Some(m.damageTaken as real),
           Some(m.healthBonus as real), Some(m.timeBonus as real), Some(m.averageDistance))
  }

  /** A results file the controller wrote never takes the sentinel or a
      default: its score is the five policies over the match's own figures. */
  lemma ScoreOfMatch(m: Controller.MatchResult)
    ensures Score(Some(Encode(m))) ==
      OutcomeTerm(m.wonMatch)
      + DamageTerm(m.damageDealt as real, m.damageTaken as real)
      + EfficiencyTerm(m.healthBonus as real, m.timeBonus as real)
      + CloseTerm(m.averageDistance)
      + FlawlessTerm(m.history)
  {
  }

  /** For a finished match, the flawless bonus is paid exactly when the bot
      won the first two rounds. */
  lemma FlawlessMeansTwoStraightWins(s: Controller.State)
    requires Controller.Inv(s) && s.phase == Controller.MatchOver
    ensures 2 <= |s.history|
    ensures FlawlessTerm(Controller.Finalize(s).history) == FlawlessReward
      <==> s.history[0] == 1 && s.history[1] == 1
  {
    Controller.HistoryShape(s);
    var h := s.history;
    if h[0] == 1 && h[1] == 1 {
      Controller.TwoWinsDecide(h);
      assert |h| == 2;
      assert h == [1, 1];
    }
  }
}
