/** `generateFractionQuestion` (script.js:269-319): roll a tier, then draw up
    to 20 candidate sums, differences, products or quotients of two or three
    proper fractions and keep the first with a finite value, not negative for
    subtraction; after 20 rejections return `1/2 + 1/2`. */
module FractionQuestions {
  import opened Options
  import opened Text
  import opened Random
  import opened Operators
  import opened Arith
  import opened Expression
  import opened Questions
  import opened Attempts

  /** The denominators a fraction may have (script.js:272). */
  const Dens: seq<nat> := [2, 3, 4, 5, 6, 8, 10]

  /** A denominator: never zero. */
  type Den = d: nat | 0 < d witness 1

  /** A fraction `n/d`. */
  datatype Fraction = Fraction(n: nat, d: Den)

  /** The operand count of script.js:274-280: two on the easiest tier, three
      on the others. */
  function FractionCount(roll: real): (count: nat)
    ensures 2 <= count <= 3
    ensures count == 2 <==> TierOf(roll) == LOTS
  {
    if roll < 0.4 then 2 else 3
  }

  /** The fraction drawn at `pos`: a denominator picked from `Dens` by draw
      `pos`, then a numerator `getRandomInt(1, d - 1)` by draw `pos + 1`. */
  function FractionAt(rand: Stream, pos: nat): (f: Fraction)
    requires IsUniform(rand)
    ensures f.d in Dens && 1 <= f.n < f.d
  {
    var d := Dens[RandomInt(rand(pos), 0, |Dens| - 1)];
    Fraction(RandomInt(rand(pos + 1), 1, d - 1), d)
  }

  /** The `count` fractions of one candidate, drawn two draws each from `start` on. */
  function FractionsAt(rand: Stream, start: nat, count: nat): (fs: seq<Fraction>)
    requires IsUniform(rand)
    ensures |fs| == count
  {
    if count == 0 then [] else FractionsAt(rand, start, count - 1) + [FractionAt(rand, start + 2 * (count - 1))]
  }

  /** Fraction `i` of a candidate is the one drawn at `start + 2 * i`. */
  lemma {:induction false} FractionsAtIndex(rand: Stream, start: nat, count: nat, i: nat)
    requires IsUniform(rand) && i < count
    ensures FractionsAt(rand, start, count)[i] == FractionAt(rand, start + 2 * i)
  {
    if i < count - 1 {
      FractionsAtIndex(rand, start, count - 1, i);
    }
  }

  /** Every drawn fraction is a proper fraction strictly between 0 and 1. */
  lemma FractionInUnitInterval(rand: Stream, pos: nat)
    requires IsUniform(rand)
    ensures var f := FractionAt(rand, pos);
            0.0 < f.n as real / f.d as real < 1.0
  {
    var f := FractionAt(rand, pos);
    var x, y := f.n as real, f.d as real;
    assert x < y;
    assert x / y * y == x;
  }

  /** The LaTeX text of a fraction, `\frac{n}{d}`. */
  function FracView(f: Fraction): string
  {
    "\\frac{" + NatToString(f.n) + "}{" + NatToString(f.d) + "}"
  }

  /** The evaluated text of a fraction, `(n/d)`. */
  function FracLogic(f: Fraction): string
  {
    "(" + NatToString(f.n) + "/" + NatToString(f.d) + ")"
  }

  /** Reads a fraction back from its LaTeX text. */
  function ReadFracView(t: string): Option<Fraction>
  {
    if |t| < 6 || t[..6] != "\\frac{" then None
    else
      var pieces := Split(t[6..], '}');
      if |pieces| == 3 && |pieces[1]| >= 1 && pieces[1][0] == '{' && pieces[2] == ""
      then
        var d := ParseNat(pieces[1][1..]);
        if d == 0 then None else Some(Fraction(ParseNat(pieces[0]), d))
      else None
  }

  /** Reads a fraction back from its evaluated text. */
  function ReadFracLogic(t: string): Option<Fraction>
  {
    if |t| < 2 || t[0] != '(' || t[|t| - 1] != ')' then None
    else
      var pieces := Split(t[1..|t| - 1], '/');
      if |pieces| != 2 then None
      else
        var d := ParseNat(pieces[1]);
        if d == 0 then None else Some(Fraction(ParseNat(pieces[0]), d))
  }

  lemma DigitsHaveNo(x: nat, c: char)
    requires !IsDigit(c)
    ensures c !in NatToString(x)
  {
  }

  /** A fraction's LaTeX text reads back as that fraction. */
  lemma ReadFracViewBack(f: Fraction)
    ensures ReadFracView(FracView(f)) == Some(f)
  {
    var a, b := NatToString(f.n), NatToString(f.d);
    DigitsHaveNo(f.n, '}');
    DigitsHaveNo(f.d, '}');
    assert FracView(f)[..6] == "\\frac{";
    var body := FracView(f)[6..];
    assert body == a + ['}'] + (("{" + b) + ['}'] + "");
    SplitAfterPiece(a, '}', ("{" + b) + ['}'] + "");
    SplitAfterPiece("{" + b, '}', "");
    SplitWithoutSeparator("", '}');
    assert ("{" + b)[1..] == b;
    ParseNatToString(f.n);
    ParseNatToString(f.d);
  }

  /** A fraction's evaluated text reads back as that fraction. */
  lemma ReadFracLogicBack(f: Fraction)
    ensures ReadFracLogic(FracLogic(f)) == Some(f)
  {
    var a, b := NatToString(f.n), NatToString(f.d);
    DigitsHaveNo(f.n, '/');
    DigitsHaveNo(f.d, '/');
    var t := FracLogic(f);
    assert t[1..|t| - 1] == a + ['/'] + b;
    SplitAfterPiece(a, '/', b);
    SplitWithoutSeparator(b, '/');
    ParseNatToString(f.n);
    ParseNatToString(f.d);
  }

  /** The number of draws one candidate consumes. */
  function Step(count: nat): nat
  {
    2 * count
  }

  /** The draw at which candidate `j` starts when the tier roll is draw `k`. */
  function CandidateStart(k: nat, j: nat, count: nat): nat
  {
    BlockStart(k + 1, j, Step(count))
  }

  /** The fraction values of a candidate, in order. */
  function Values(fs: seq<Fraction>): (xs: seq<real>)
    ensures |xs| == |fs|
  {
    seq(|fs|, i requires 0 <= i < |fs| => fs[i].n as real / fs[i].d as real)
  }

  /** The LaTeX expression `\frac{a}{b} op \frac{c}{d} ...`. */
  function ViewString(fs: seq<Fraction>, op: Op): string
  {
    Join(seq(|fs|, i requires 0 <= i < |fs| => FracView(fs[i])), " " + LatexSym(op) + " ")
  }

  /** The evaluated expression `(a/b) op (c/d) ...`. */
  function LogicString(fs: seq<Fraction>, op: Op): string
  {
    Join(seq(|fs|, i requires 0 <= i < |fs| => FracLogic(fs[i])), " " + Sym(op) + " ")
  }

  /** The value of a candidate's expression: the fractions folded left to
      right; `None` when it is not finite. */
  function Value(op: Op, fs: seq<Fraction>): Option<real>
  {
    if 1 <= |fs| then Fold(op, Values(fs)) else None
  }

  /** The acceptance test of script.js:310-311: a finite value, not negative
      under subtraction. */
  predicate Accepted(op: Op, fs: seq<Fraction>)
  {
    var v := Value(op, fs);
    v.Some? && !(op == Sub && v.value < 0.0)
  }

  /** The question the candidate drawn from `start` on yields, if it is accepted. */
  function Attempt(op: Op, tier: Tier, count: nat, rand: Stream, start: nat): Option<Question>
    requires IsUniform(rand)
  {
    var fs := FractionsAt(rand, start, count);
    if Accepted(op, fs) then Some(Question(tier, ViewString(fs, op) + " = ?", Value(op, fs).value)) else None
  }

  /** `attemptAt` maps every starting draw to what the candidate drawn there yields. */
  ghost predicate Implements(attemptAt: nat -> Option<Question>, op: Op, tier: Tier, count: nat, rand: Stream)
    requires IsUniform(rand)
  {
    forall s {:trigger Attempt(op, tier, count, rand, s)} :: attemptAt(s) == Attempt(op, tier, count, rand, s)
  }

  /** The question returned once every candidate has been rejected. */
  const Fallback: Question := Question(LOTS, "\\frac{1}{2} + \\frac{1}{2} = ?", 1.0)

  /** What every fraction question satisfies: a positive answer, or one not
      negative under subtraction, shown as an expression followed by `" = ?"`. */
  predicate ValidFractionQuestion(op: Op, q: Question)
  {
    && (if op == Sub then q.answer >= 0.0 else q.answer > 0.0)
    && |q.latex| >= 4 && q.latex[|q.latex| - 4..] == " = ?"
  }

  /** The fraction loop of script.js:287-292: `count` fractions from draw
      `start` on, with the source's guard against a zero numerator. */
  method DrawFractions(count: nat, rand: Stream, start: nat) returns (fracParts: seq<Fraction>)
    requires IsUniform(rand)
    ensures fracParts == FractionsAt(rand, start, count)
  {
    fracParts := [];
    var i := 0;
    while i < count
      invariant 0 <= i <= count
      invariant fracParts == FractionsAt(rand, start, i)
    {
      var d := Dens[RandomInt(rand(start + 2 * i), 0, |Dens| - 1)];
      var n: int := RandomInt(rand(start + 2 * i + 1), 1, d - 1);
      assert 1 <= n;  // so the repair below never fires
      if n == 0 { n := 1; }
      fracParts := fracParts + [Fraction(n, d)];
      i := i + 1;
    }
  }

  /** Renders `count` fractions the way script.js:294-304 does: each as LaTeX
      and as an evaluable term, joined by the operator. */
  method RenderFractions(fracParts: seq<Fraction>, opType: string) returns (viewStr: string, logicStr: string)
    ensures viewStr == ViewString(fracParts, OpOf(opType))
    ensures logicStr == LogicString(fracParts, OpOf(opType))
  {
    var sym, latexSym := Symbols(opType);
    var views := seq(|fracParts|, i requires 0 <= i < |fracParts| => FracView(fracParts[i]));
    var logics := seq(|fracParts|, i requires 0 <= i < |fracParts| => FracLogic(fracParts[i]));
    viewStr := Join(views, " " + latexSym + " ");
    logicStr := Join(logics, " " + sym + " ");
  }

  /** One pass of the attempt loop (script.js:283-315): draw the fractions,
      render them, evaluate the expression and test it. The loop reads the
      outcome through `attemptAt`, which stands for `Attempt`. */
  method FractionAttempt(opType: string, tier: Tier, count: nat, rand: Stream, start: nat,
                         ghost attemptAt: nat -> Option<Question>)
    returns (q: Option<Question>, next: nat)
    requires IsUniform(rand) && 1 <= count
    requires Implements(attemptAt, OpOf(opType), tier, count, rand)
    ensures next == start + Step(count)
    ensures q == attemptAt(start)
  {
    var fracParts := DrawFractions(count, rand, start);
    next := start + 2 * count;
    var viewStr, logicStr := RenderFractions(fracParts, opType);
    var result := Value(OpOf(opType), fracParts);
    var isValid := true;
    if result.None? {
      isValid := false;
    } else if opType == "subtraction" && result.value < 0.0 {
      isValid := false;
    }
    assert isValid == Accepted(OpOf(opType), fracParts);
    q := if isValid then Some(Question(tier, viewStr + " = ?", result.value)) else None;
    assert q == Attempt(OpOf(opType), tier, count, rand, start);
  }

  /** The outcome of `generateFractionQuestion` from draw `k` on, after
      `attempts` candidates: the tier roll at `k`, then candidates of
      `2 * count` draws each from `k + 1` on; every candidate but the last
      was rejected, the question is the last candidate's when it was
      accepted and the fallback after the full budget otherwise, and `next`
      is the first draw not read. */
  predicate FractionOutcome(op: Op, rand: Stream, k: nat, q: Question, next: nat, attempts: nat)
    requires IsUniform(rand)
  {
    var tier, count := TierOf(rand(k)), FractionCount(rand(k));
    && 1 <= attempts <= MaxAttempts
    && (forall j :: 0 <= j < attempts - 1 ==> Attempt(op, tier, count, rand, CandidateStart(k, j, count)).None?)
    && (var found := Attempt(op, tier, count, rand, BlockStart(k + 1, attempts - 1, Step(count)));
        && q == (if found.Some? then found.value else Fallback)
        && (found.None? ==> attempts == MaxAttempts))
    && next == BlockStart(k + 1, attempts, Step(count))
  }

  /** The attempt loop of script.js:282-316, candidates starting at draw `k + 1`. */
  method AttemptLoop(opType: string, tier: Tier, count: nat, rand: Stream, k: nat,
                     ghost attemptAt: nat -> Option<Question>)
    returns (found: Option<Question>, next: nat, ghost attempts: nat)
    requires IsUniform(rand) && 1 <= count
    requires Implements(attemptAt, OpOf(opType), tier, count, rand)
    ensures LoopOutcome(attemptAt, k + 1, Step(count), found, next, attempts)
  {
    next := k + 1;
    var attempt := 0;
    while attempt < MaxAttempts
      invariant 0 <= attempt <= MaxAttempts
      invariant next == BlockStart(k + 1, attempt, Step(count))
      invariant AllFail(attemptAt, k + 1, Step(count), attempt)
    {
      var result, after := FractionAttempt(opType, tier, count, rand, next, attemptAt);
      BlockStartNext(k + 1, attempt, Step(count));
      next := after;
      if result.Some? {
        found := result;
        attempts := attempt + 1;
        LoopFound(attemptAt, k + 1, Step(count), attempt, found, next);
        return;
      }
      AllFailNext(attemptAt, k + 1, Step(count), attempt);
      attempt := attempt + 1;
    }
    found := None;
    attempts := MaxAttempts;
    LoopExhausted(attemptAt, k + 1, Step(count), next);
  }

  /** The loop's outcome, read through `attemptAt`, is the generator's. */
  lemma OutcomeOfLoop(op: Op, rand: Stream, k: nat, attemptAt: nat -> Option<Question>,
                      found: Option<Question>, next: nat, attempts: nat)
    requires IsUniform(rand)
    requires Implements(attemptAt, op, TierOf(rand(k)), FractionCount(rand(k)), rand)
    requires LoopOutcome(attemptAt, k + 1, Step(FractionCount(rand(k))), found, next, attempts)
    ensures FractionOutcome(op, rand, k, if found.Some? then found.value else Fallback, next, attempts)
  {
    var tier, count := TierOf(rand(k)), FractionCount(rand(k));
    forall j | 0 <= j < attempts - 1
      ensures Attempt(op, tier, count, rand, CandidateStart(k, j, count)).None?
    {
      AllFailAt(attemptAt, k + 1, Step(count), attempts - 1, j);
    }
    assert found == Attempt(op, tier, count, rand, BlockStart(k + 1, attempts - 1, Step(count)));
  }

  /** `generateFractionQuestion(opType)`, reading `Math.random()` from draw
      `k` on: the tier roll, then each candidate's fractions in turn. Under
      addition, multiplication and division the first candidate is always
      taken. */
  method GenerateFractionQuestion(opType: string, rand: Stream, k: nat)
    returns (q: Question, next: nat, ghost attempts: nat)
    requires IsUniform(rand)
    ensures FractionOutcome(OpOf(opType), rand, k, q, next, attempts)
    ensures OpOf(opType) != Sub ==> attempts == 1
    ensures ValidFractionQuestion(OpOf(opType), q)
  {
    var diffRoll := rand(k);
    var difficulty, count;
    if diffRoll < 0.4 {
      difficulty, count := LOTS, 2;
    } else if diffRoll < 0.8 {
      difficulty, count := MOTS, 3;
    } else {
      difficulty, count := HOTS, 3;
    }
    ghost var attemptAt := (s: nat) => if IsUniform(rand) then Attempt(OpOf(opType), difficulty, count, rand, s) else None;
    assert Implements(attemptAt, OpOf(opType), difficulty, count, rand);
    var found;
    found, next, attempts := AttemptLoop(opType, difficulty, count, rand, k, attemptAt);
    q := if found.Some? then found.value else Fallback;
    OutcomeOfLoop(OpOf(opType), rand, k, attemptAt, found, next, attempts);
    if OpOf(opType) != Sub {
      OutcomeFirstAccepted(OpOf(opType), rand, k, q, next, attempts);
    }
    OutcomeIsValid(OpOf(opType), rand, k, q, next, attempts);
  }

  /** Every candidate has a finite value, strictly positive unless the
      operation is subtraction: no fraction is zero, so no division by zero
      can occur and the Infinity/NaN check never fires. */
  lemma CandidateValue(op: Op, rand: Stream, start: nat, count: nat)
    requires IsUniform(rand) && 1 <= count
    ensures Value(op, FractionsAt(rand, start, count)).Some?
    ensures op != Sub ==> Value(op, FractionsAt(rand, start, count)).value > 0.0
  {
    var fs := FractionsAt(rand, start, count);
    var xs := Values(fs);
    forall j | 0 <= j < count ensures xs[j] > 0.0 {
      FractionsAtIndex(rand, start, count, j);
      FractionInUnitInterval(rand, start + 2 * j);
    }
    if op == Sub {
      FoldDefined(op, xs);
    } else {
      FoldPositive(op, xs);
    }
  }

  /** Under addition, multiplication and division no candidate is rejected. */
  lemma AlwaysAcceptedUnlessSub(op: Op, tier: Tier, count: nat, rand: Stream, start: nat)
    requires IsUniform(rand) && 1 <= count && op != Sub
    ensures Attempt(op, tier, count, rand, start).Some?
  {
    CandidateValue(op, rand, start, count);
  }

  /** Under subtraction a candidate is taken exactly when its value is not negative. */
  lemma SubAcceptedIff(tier: Tier, count: nat, rand: Stream, start: nat)
    requires IsUniform(rand) && 1 <= count
    ensures Value(Sub, FractionsAt(rand, start, count)).Some?
    ensures Attempt(Sub, tier, count, rand, start).Some?
            <==> Value(Sub, FractionsAt(rand, start, count)).value >= 0.0
  {
    CandidateValue(Sub, rand, start, count);
  }

  /** Outside subtraction the generator takes its first candidate. */
  lemma OutcomeFirstAccepted(op: Op, rand: Stream, k: nat, q: Question, next: nat, attempts: nat)
    requires IsUniform(rand)
    requires FractionOutcome(op, rand, k, q, next, attempts)
    requires op != Sub
    ensures attempts == 1
  {
    var tier, count := TierOf(rand(k)), FractionCount(rand(k));
    if attempts > 1 {
      AlwaysAcceptedUnlessSub(op, tier, count, rand, CandidateStart(k, 0, count));
      assert false;
    }
  }

  /** Every question the generator can return is valid. */
  lemma OutcomeIsValid(op: Op, rand: Stream, k: nat, q: Question, next: nat, attempts: nat)
    requires IsUniform(rand)
    requires FractionOutcome(op, rand, k, q, next, attempts)
    ensures ValidFractionQuestion(op, q)
  {
    var tier, count := TierOf(rand(k)), FractionCount(rand(k));
    var start := BlockStart(k + 1, attempts - 1, Step(count));
    if Attempt(op, tier, count, rand, start).Some? {
      CandidateValue(op, rand, start, count);
      var latex := q.latex;
      assert latex[|latex| - 4..] == " = ?";
    } else {
      FallbackIsValid(op);
    }
  }

  /** The fallback question is valid whatever the operation. */
  lemma FallbackIsValid(op: Op)
    ensures ValidFractionQuestion(op, Fallback)
  {
    var latex := Fallback.latex;
    assert latex[|latex| - 4..] == " = ?";
  }

  /** Exact arithmetic accepts `3/10 - 1/10 - 2/10` under subtraction, with
      answer 0; in binary floating point the same difference comes out
      slightly below zero and is rejected. */
  lemma ZeroDifferenceAccepted()
    ensures Value(Sub, [Fraction(3, 10), Fraction(1, 10), Fraction(2, 10)]) == Some(0.0)
    ensures Accepted(Sub, [Fraction(3, 10), Fraction(1, 10), Fraction(2, 10)])
  {
    var fs := [Fraction(3, 10), Fraction(1, 10), Fraction(2, 10)];
    assert Values(fs) == [0.3, 0.1, 0.2];
    assert Fold(Sub, [0.3, 0.1]) == Some(0.2);
    FoldSnoc(Sub, [0.3, 0.1], 0.2);
    assert [0.3, 0.1] + [0.2] == [0.3, 0.1, 0.2];
  }

  /** The LaTeX expression lists the candidate's fractions, each of which
      reads back as itself, separated by `count - 1` copies of the operator. */
  lemma ViewReadBack(fs: seq<Fraction>, op: Op)
    requires 1 <= |fs|
    ensures var tokens := Split(ViewString(fs, op), ' ');
            && |Evens(tokens)| == |fs|
            && (forall i :: 0 <= i < |fs| ==> ReadFracView(Evens(tokens)[i]) == Some(fs[i]))
            && Odds(tokens) == seq(|fs| - 1, _ => LatexSym(op))
  {
    var views := seq(|fs|, i requires 0 <= i < |fs| => FracView(fs[i]));
    forall i | 0 <= i < |fs| ensures ' ' !in views[i] {
      DigitsHaveNo(fs[i].n, ' ');
      DigitsHaveNo(fs[i].d, ' ');
    }
    SymbolsAreTokens(op, op);
    SpacedJoinReadBack(views, LatexSym(op));
    forall i | 0 <= i < |fs| ensures ReadFracView(views[i]) == Some(fs[i]) {
      ReadFracViewBack(fs[i]);
    }
  }

  /** Likewise for the evaluated expression. */
  lemma LogicReadBack(fs: seq<Fraction>, op: Op)
    requires 1 <= |fs|
    ensures var tokens := Split(LogicString(fs, op), ' ');
            && |Evens(tokens)| == |fs|
            && (forall i :: 0 <= i < |fs| ==> ReadFracLogic(Evens(tokens)[i]) == Some(fs[i]))
            && Odds(tokens) == seq(|fs| - 1, _ => Sym(op))
  {
    var logics := seq(|fs|, i requires 0 <= i < |fs| => FracLogic(fs[i]));
    forall i | 0 <= i < |fs| ensures ' ' !in logics[i] {
      DigitsHaveNo(fs[i].n, ' ');
      DigitsHaveNo(fs[i].d, ' ');
    }
    SymbolsAreTokens(op, op);
    SpacedJoinReadBack(logics, Sym(op));
    forall i | 0 <= i < |fs| ensures ReadFracLogic(logics[i]) == Some(fs[i]) {
      ReadFracLogicBack(fs[i]);
    }
  }
}
