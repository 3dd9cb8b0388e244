/** What both generators share: the difficulty tiers and the question record. */
module Questions {

  /** Lower-, middle- and higher-order thinking skills, in increasing difficulty. */
  datatype Tier = LOTS | MOTS | HOTS

  function Rank(t: Tier): nat
  {
    match t
    case LOTS => 0
    case MOTS => 1
    case HOTS => 2
  }

  /** The tier a difficulty roll selects (script.js:208-214 and 274-280). */
  function TierOf(roll: real): Tier
  {
    if roll < 0.4 then LOTS else if roll < 0.8 then MOTS else HOTS
  }

  /** A higher roll never selects an easier tier, and each tier owns one
      interval of rolls: [0, 0.4), [0.4, 0.8) and [0.8, 1). */
  lemma TierOfMonotone(r1: real, r2: real)
    requires r1 <= r2
    ensures Rank(TierOf(r1)) <= Rank(TierOf(r2))
    ensures TierOf(r1) == LOTS <==> r1 < 0.4
    ensures TierOf(r2) == HOTS <==> r2 >= 0.8
  {
  }

  /** The record a generator returns: its tier, the LaTeX to show
      (ending in `" = ?"`) and the expected answer. */
  datatype Question = Question(difficulty: Tier, latex: string, answer: real)
}
