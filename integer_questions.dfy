/** `generateIntegerQuestion` (script.js:204-239): roll a tier, then draw up
    to 20 candidate expressions over whole numbers and keep the first whose
    value is a whole number, and not negative for subtraction; after 20
    rejections return `1 + 1 = ?`. */
module IntegerQuestions {
  import opened Options
  import opened Random
  import opened Operators
  import opened Arith
  import opened Expression
  import opened Questions
  import opened Attempts

  /** What a tier fixes: the range of the operand count, the largest operand
      and whether a pair is parenthesised. */
  datatype TierParams = TierParams(tier: Tier, minCount: nat, maxCount: nat, maxVal: nat, useParens: bool)

  /** The tier table of script.js:208-214. */
  function IntegerParams(roll: real): (p: TierParams)
    ensures p.tier == TierOf(roll)
    ensures 2 <= p.minCount <= p.maxCount && 10 <= p.maxVal
    ensures p.useParens <==> p.tier != LOTS
  {
    if roll < 0.4 then TierParams(LOTS, 2, 3, 10, false)
    else if roll < 0.8 then TierParams(MOTS, 3, 4, 20, true)
    else TierParams(HOTS, 4, 6, 50, true)
  }

  /** The smallest operand: 2 for multiplication and division, 1 otherwise. */
  function MinOperand(op: Op): (m: nat)
    ensures 1 <= m <= 2
  {
    if op == Mul || op == Div then 2 else 1
  }

  /** The number of draws one candidate consumes: its operands, and the pair's
      position when it has one. */
  function Step(count: nat, useParens: bool): nat
  {
    if count != 2 && useParens then count + 1 else count
  }

  /** The draw at which candidate `j` starts when the tier roll is draw `k`. */
  function CandidateStart(k: nat, j: nat, p: TierParams, count: nat): nat
  {
    BlockStart(k + 2, j, Step(count, p.useParens))
  }

  /** One candidate: its operands and the position of its parenthesised pair. */
  datatype IntCandidate = IntCandidate(nums: seq<nat>, wrap: Option<nat>)

  /** The candidate the draws from `start` on produce. */
  function CandidateAt(op: Op, p: TierParams, count: nat, rand: Stream, start: nat): (c: IntCandidate)
    requires IsUniform(rand) && 2 <= count && 2 <= p.maxVal
    ensures |c.nums| == count && ValidWrap(count, c.wrap)
    ensures forall i :: 0 <= i < count ==> MinOperand(op) <= c.nums[i] <= p.maxVal
    ensures c.wrap.Some? <==> count != 2 && p.useParens
  {
    var nums := Draws(rand, start, count, MinOperand(op), p.maxVal);
    var wrap := if count == 2 || !p.useParens then None else Some(RandomInt(rand(start + count), 0, count - 2));
    IntCandidate(nums, wrap)
  }

  function Reals(nums: seq<nat>): (xs: seq<real>)
    ensures |xs| == |nums| && forall i :: 0 <= i < |nums| ==> xs[i] == nums[i] as real
  {
    seq(|nums|, i requires 0 <= i < |nums| => nums[i] as real)
  }

  /** The value of a candidate's expression, `None` when it is not finite. */
  function Value(op: Op, c: IntCandidate): Option<real>
  {
    if 1 <= |c.nums| && ValidWrap(|c.nums|, c.wrap) then Eval(op, Reals(c.nums), c.wrap) else None
  }

  /** The acceptance test of script.js:227-233: a finite whole number, and
      not negative under subtraction. */
  predicate Accepted(op: Op, c: IntCandidate)
  {
    var v := Value(op, c);
    v.Some? && IsInteger(v.value) && !(op == Sub && v.value < 0.0)
  }

  /** The question an accepted candidate becomes. */
  function QuestionOf(tier: Tier, op: Op, c: IntCandidate): Question
    requires Accepted(op, c)
  {
    Question(tier, Render(c.nums, c.wrap, LatexSym(op)) + " = ?", Value(op, c).value)
  }

  /** The question the candidate drawn from `start` on yields, if it is accepted. */
  function Attempt(op: Op, p: TierParams, count: nat, rand: Stream, start: nat): Option<Question>
    requires IsUniform(rand) && 2 <= count && 2 <= p.maxVal
  {
    var c := CandidateAt(op, p, count, rand, start);
    if Accepted(op, c) then Some(QuestionOf(p.tier, op, c)) else None
  }

  /** `attemptAt` maps every starting draw to what the candidate drawn there yields. */
  ghost predicate Implements(attemptAt: nat -> Option<Question>, op: Op, p: TierParams, count: nat, rand: Stream)
    requires IsUniform(rand) && 2 <= count && 2 <= p.maxVal
  {
    forall s {:trigger Attempt(op, p, count, rand, s)} :: attemptAt(s) == Attempt(op, p, count, rand, s)
  }

  /** The question returned once every candidate has been rejected. */
  const Fallback: Question := Question(LOTS, "1 + 1 = ?", 2.0)

  /** What every integer question satisfies: a whole-number answer, not
      negative under subtraction, shown as an expression followed by `" = ?"`. */
  predicate ValidIntegerQuestion(op: Op, q: Question)
  {
    && IsInteger(q.answer)
    && (op == Sub ==> q.answer >= 0.0)
    && |q.latex| >= 4 && q.latex[|q.latex| - 4..] == " = ?"
  }

  /** The operand loop of script.js:217-221: `count` calls
      `getRandomInt(min, maxVal)` from draw `start` on. */
  method DrawOperands(opType: string, count: nat, maxVal: nat, rand: Stream, start: nat)
    returns (numbers: seq<nat>)
    requires IsUniform(rand) && MinOperand(OpOf(opType)) <= maxVal
    ensures numbers == Draws(rand, start, count, MinOperand(OpOf(opType)), maxVal)
  {
    numbers := [];
    var i := 0;
    while i < count
      invariant 0 <= i <= count && |numbers| == i
      invariant forall t :: 0 <= t < i ==> numbers[t] == RandomInt(rand(start + t), MinOperand(OpOf(opType)), maxVal)
    {
      var min := if opType == "multiplication" || opType == "division" then 2 else 1;
      numbers := numbers + [RandomInt(rand(start + i), min, maxVal)];
      i := i + 1;
    }
  }

  /** One pass of the attempt loop (script.js:217-236): draw the operands from
      `start` on, build the expression, evaluate it and test it. The loop
      reads the outcome through `attemptAt`, which stands for `Attempt`. */
  method IntegerAttempt(opType: string, p: TierParams, count: nat, rand: Stream, start: nat,
                        ghost attemptAt: nat -> Option<Question>)
    returns (q: Option<Question>, next: nat)
    requires IsUniform(rand) && 2 <= count && 10 <= p.maxVal
    requires Implements(attemptAt, OpOf(opType), p, count, rand)
    ensures next == start + Step(count, p.useParens)
    ensures q == attemptAt(start)
  {
    var numbers := DrawOperands(opType, count, p.maxVal, rand, start);
    var res, wrap, after := BuildExpression(numbers, opType, p.useParens, rand, start + count);
    ghost var cand := IntCandidate(numbers, wrap);
    next := after;

    assert cand == CandidateAt(OpOf(opType), p, count, rand, start);
    var result := Eval(OpOf(opType), Reals(numbers), wrap);
    assert result == Value(OpOf(opType), cand);
    var isValid := true;
    if result.None? {
      isValid := false;
    } else {
      if !IsInteger(result.value) { isValid := false; }
      if opType == "subtraction" && result.value < 0.0 { isValid := false; }
    }
    assert isValid == Accepted(OpOf(opType), cand);
    q := if isValid then Some(Question(p.tier, res.view + " = ?", result.value)) else None;
    assert q == Attempt(OpOf(opType), p, count, rand, start);
  }

  /** The outcome of `generateIntegerQuestion` from draw `k` on, after
      examining `attempts` candidates: the tier roll at `k`, the operand count
      at `k + 1`, then candidates from `k + 2` on; every candidate but the
      last was rejected, the question is the last candidate's when it was
      accepted and the fallback after the full budget otherwise, and `next`
      is the first draw not read. */
  predicate IntegerOutcome(op: Op, rand: Stream, k: nat, q: Question, next: nat, attempts: nat)
    requires IsUniform(rand)
  {
    var p := IntegerParams(rand(k));
    var count := RandomInt(rand(k + 1), p.minCount, p.maxCount);
    && 1 <= attempts <= MaxAttempts
    && (forall j :: 0 <= j < attempts - 1 ==> Attempt(op, p, count, rand, CandidateStart(k, j, p, count)).None?)
    && (var found := Attempt(op, p, count, rand, CandidateStart(k, attempts - 1, p, count));
        && q == (if found.Some? then found.value else Fallback)
        && (found.None? ==> attempts == MaxAttempts))
    && next == CandidateStart(k, attempts, p, count)
  }

  /** The attempt loop of script.js:216-236 for tier parameters `p` and
      `count` operands, candidates starting at draw `k + 2`. */
  method AttemptLoop(opType: string, p: TierParams, count: nat, rand: Stream, k: nat,
                     ghost attemptAt: nat -> Option<Question>)
    returns (found: Option<Question>, next: nat, ghost attempts: nat)
    requires IsUniform(rand) && 2 <= count && 10 <= p.maxVal
    requires Implements(attemptAt, OpOf(opType), p, count, rand)
    ensures LoopOutcome(attemptAt, k + 2, Step(count, p.useParens), found, next, attempts)
  {
    ghost var step := Step(count, p.useParens);
    next := k + 2;
    var attempt := 0;
    while attempt < MaxAttempts
      invariant 0 <= attempt <= MaxAttempts
      invariant next == BlockStart(k + 2, attempt, step)
      invariant AllFail(attemptAt, k + 2, step, attempt)
    {
      var result, after := IntegerAttempt(opType, p, count, rand, next, attemptAt);
      BlockStartNext(k + 2, attempt, step);
      next := after;
      if result.Some? {
        found := result;
        attempts := attempt + 1;
        LoopFound(attemptAt, k + 2, step, attempt, found, next);
        return;
      }
      AllFailNext(attemptAt, k + 2, step, attempt);
      attempt := attempt + 1;
    }
    found := None;
    attempts := MaxAttempts;
    LoopExhausted(attemptAt, k + 2, step, next);
  }

  /** The loop's outcome, read through `attemptAt`, is the generator's. */
  lemma OutcomeOfLoop(op: Op, rand: Stream, k: nat, p: TierParams, count: nat, attemptAt: nat -> Option<Question>,
                      found: Option<Question>, next: nat, attempts: nat)
    requires IsUniform(rand)
    requires p == IntegerParams(rand(k)) && count == RandomInt(rand(k + 1), p.minCount, p.maxCount)
    requires Implements(attemptAt, op, p, count, rand)
    requires LoopOutcome(attemptAt, k + 2, Step(count, p.useParens), found, next, attempts)
    ensures IntegerOutcome(op, rand, k, if found.Some? then found.value else Fallback, next, attempts)
  {
    forall j | 0 <= j < attempts - 1
      ensures Attempt(op, p, count, rand, CandidateStart(k, j, p, count)).None?
    {
      AllFailAt(attemptAt, k + 2, Step(count, p.useParens), attempts - 1, j);
    }
    assert found == Attempt(op, p, count, rand, CandidateStart(k, attempts - 1, p, count));
  }

  /** `generateIntegerQuestion(opType)`, reading `Math.random()` from draw
      `k` on: the tier roll, the operand count, then each candidate's operands
      and pair position in turn. `attempts` counts the candidates examined. */
  method GenerateIntegerQuestion(opType: string, rand: Stream, k: nat)
    returns (q: Question, next: nat, ghost attempts: nat)
    requires IsUniform(rand)
    ensures IntegerOutcome(OpOf(opType), rand, k, q, next, attempts)
    ensures ValidIntegerQuestion(OpOf(opType), q)
  {
    var diffRoll := rand(k);
    var p := IntegerParams(diffRoll);
    var numCount := RandomInt(rand(k + 1), p.minCount, p.maxCount);
    ghost var attemptAt := (s: nat) =>
      if IsUniform(rand) && 2 <= numCount && 2 <= p.maxVal then Attempt(OpOf(opType), p, numCount, rand, s) else None;
    assert Implements(attemptAt, OpOf(opType), p, numCount, rand);
    var found;
    found, next, attempts := AttemptLoop(opType, p, numCount, rand, k, attemptAt);
    q := if found.Some? then found.value else Fallback;
    OutcomeOfLoop(OpOf(opType), rand, k, p, numCount, attemptAt, found, next, attempts);
    OutcomeIsValid(OpOf(opType), rand, k, q, next, attempts);
  }

  /** Every question the generator can return is valid: an accepted
      candidate's, or the fallback. */
  lemma OutcomeIsValid(op: Op, rand: Stream, k: nat, q: Question, next: nat, attempts: nat)
    requires IsUniform(rand)
    requires IntegerOutcome(op, rand, k, q, next, attempts)
    ensures ValidIntegerQuestion(op, q)
  {
    var p := IntegerParams(rand(k));
    var count := RandomInt(rand(k + 1), p.minCount, p.maxCount);
    var last := CandidateAt(op, p, count, rand, CandidateStart(k, attempts - 1, p, count));
    if Accepted(op, last) {
      AcceptedIsValid(p.tier, op, last);
    } else {
      FallbackIsValid(op);
    }
  }

  /** The fallback question is valid whatever the operation. */
  lemma FallbackIsValid(op: Op)
    ensures ValidIntegerQuestion(op, Fallback)
  {
    assert Fallback.latex[5..] == " = ?";
  }

  /** An accepted candidate makes a valid question. */
  lemma AcceptedIsValid(tier: Tier, op: Op, c: IntCandidate)
    requires Accepted(op, c)
    ensures ValidIntegerQuestion(op, QuestionOf(tier, op, c))
  {
    var latex := QuestionOf(tier, op, c).latex;
    assert latex[|latex| - 4..] == " = ?";
  }
}
