/** The score validator of the two vote handlers.

    A score reaches the bot as text and is converted with JavaScript's
    `Number(...)`; the conversion itself is not modelled, its possible
    results are. The check that follows is written with JavaScript's
    comparison operators, in which every comparison with NaN is false. */
module Scores {

  /** A JavaScript number as far as the range check can tell numbers apart. */
  datatype JsNumber = NaN | PosInfinity | NegInfinity | Finite(value: real)

  /** `n < c` on a JavaScript number and a finite constant. */
  predicate JsLess(n: JsNumber, c: real)
  {
    match n
    case NaN => false
    case PosInfinity => false
    case NegInfinity => true
    case Finite(x) => x < c
  }

  /** `n > c` on a JavaScript number and a finite constant. */
  predicate JsGreater(n: JsNumber, c: real)
  {
    match n
    case NaN => false
    case PosInfinity => true
    case NegInfinity => false
    case Finite(x) => x > c
  }

  /** The lowest and highest score a voter may give. */
  const MinScore: real := 0.0
  const MaxScore: real := 10.0

  /** The guard `isNaN(score) || score < 0 || score > 10` negated: true when
      the submitted score is accepted. Accepted means exactly: a finite number
      in the closed range [0, 10], fractions included. */
  predicate ScoreAccepted(n: JsNumber)
    ensures ScoreAccepted(n) <==> n.Finite? && MinScore <= n.value <= MaxScore
  {
    !(n.NaN? || JsLess(n, MinScore) || JsGreater(n, MaxScore))
  }
}
