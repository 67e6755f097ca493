/** The score formula of a game session and the ranges of the synthetic session
    generator (App.py, simular_partida). */
module Scoring {

  /** Bounds of the two random draws: ventas in [5, 50], errores in [0, 10]. */
  const SalesMin: int := 5
  const SalesMax: int := 50
  const ErrorsMin: int := 0
  const ErrorsMax: int := 10

  /** Points earned per sale and lost per error. */
  const PointsPerSale: int := 100
  const PenaltyPerError: int := 50

  /** The highest score a simulated session can reach. */
  const MaxSimulatedScore: int := SalesMax * PointsPerSale

  /** The value computed before the clamp to zero. */
  function RawScore(ventas: int, errores: int): int {
    ventas * PointsPerSale - errores * PenaltyPerError
  }

  /** The stored score: the raw value, floored at zero. The result is the
      maximum of 0 and the raw value, it is zero exactly when the penalty
      covers the reward, and it is always a multiple of the penalty. */
  function Score(ventas: int, errores: int): (p: int)
    ensures p >= 0 && p >= RawScore(ventas, errores)
    ensures p == 0 || p == RawScore(ventas, errores)
    ensures p == 0 <==> 2 * ventas <= errores
    ensures p % PenaltyPerError == 0
  {
    var raw := RawScore(ventas, errores);
    if raw < 0 then 0 else raw
  }

  /** Whether a pair of draws could come out of the generator. */
  predicate InSimRange(ventas: int, errores: int) {
    SalesMin <= ventas <= SalesMax && ErrorsMin <= errores <= ErrorsMax
  }

  /** The triple simular_partida returns. */
  datatype Play = Play(ventas: int, errores: int, puntaje: int)

  /** The session built from two draws of the generator. On this range the
      raw value is never negative, so the clamp never fires and the score
      lies in [0, 5000]. */
  function SimulatedPlay(ventas: int, errores: int): (p: Play)
    requires InSimRange(ventas, errores)
    ensures p.ventas == ventas && p.errores == errores
    ensures p.puntaje == ventas * 100 - errores * 50
    ensures 0 <= p.puntaje <= MaxSimulatedScore
  {
    Play(ventas, errores, Score(ventas, errores))
  }

  /** simular_partida with the random draws as a nondeterministic choice
      within the generator's ranges. */
  method SimulatePlay() returns (p: Play)
    ensures InSimRange(p.ventas, p.errores)
    ensures p.puntaje == Score(p.ventas, p.errores)
    ensures 0 <= p.puntaje <= MaxSimulatedScore
  {
    var ventas :| SalesMin <= ventas <= SalesMax;
    var errores :| ErrorsMin <= errores <= ErrorsMax;
    var puntaje := ventas * 100 - errores * 50;
    if puntaje < 0 {
      puntaje := 0;
    }
    p := Play(ventas, errores, puntaje);
  }

  /** More sales never lower the score and more errors never raise it. */
  lemma ScoreMonotone(v1: int, e1: int, v2: int, e2: int)
    requires v1 <= v2 && e2 <= e1
    ensures Score(v1, e1) <= Score(v2, e2)
  {
  }

  /** Both ends of the simulated range are reached: the worst draw scores 0
      and the best scores 5000. */
  lemma SimulatedRangeIsTight()
    ensures InSimRange(SalesMin, ErrorsMax) && Score(SalesMin, ErrorsMax) == 0
    ensures InSimRange(SalesMax, ErrorsMin) && Score(SalesMax, ErrorsMin) == MaxSimulatedScore
  {
  }

  /** Worked values of the formula, including a clamped one. */
  lemma ScoreExamples()
    ensures Score(0, 0) == 0
    ensures Score(10, 0) == 1000
    ensures Score(5, 20) == 0
    ensures Score(5, 9) == 50
  {
  }
}
