/** The game session of script.js: the score, the lives and whether a game is
    running (script.js:1-9), and the transitions that start a game, ask the
    next question, check an answer, take a life and end the game. The page,
    the timer and the feedback messages are not part of this model. */
module Session {
  import opened Options
  import opened Text
  import opened Random
  import opened Operators
  import opened Arith
  import opened Questions
  import opened IntegerQuestions
  import opened FractionQuestions

  /** A JavaScript number as far as the answer check can tell numbers apart:
      a finite value, an infinity (of either sign) or NaN. */
  datatype Number = Finite(x: real) | Infinite | NaN

  /** JavaScript's `/` on such numbers. Zero over zero and infinity over
      infinity are NaN, a non-zero value over zero is infinite, a finite
      value over an infinity is zero. */
  function Divide(a: Number, b: Number): (r: Number)
    ensures a.Finite? && b.Finite? && b.x != 0.0 ==> r == Finite(a.x / b.x)
    ensures r.NaN? <==> a.NaN? || b.NaN? || (a.Infinite? && b.Infinite?)
                        || (a.Finite? && a.x == 0.0 && b.Finite? && b.x == 0.0)
    ensures r.Infinite? <==> (a.Infinite? && b.Finite?) || (a.Finite? && a.x != 0.0 && b.Finite? && b.x == 0.0)
  {
    match (a, b)
    case (NaN, _) => NaN
    case (_, NaN) => NaN
    case (Infinite, Infinite) => NaN
    case (Infinite, Finite(_)) => Infinite
    case (Finite(_), Infinite) => Finite(0.0)
    case (Finite(x), Finite(y)) =>
      if y != 0.0 then Finite(x / y) else if x == 0.0 then NaN else Infinite
  }

  /** `parseFractionInput` (script.js:160-168): a string holding exactly one
      `/` is read as a quotient of the two sides, anything else is handed to
      `parseFloat` whole. `parseFloat` itself is a parameter. */
  function ParseFractionInput(str: string, parseFloat: string -> Number): (v: Number)
  {
    if '/' in str && |Split(str, '/')| == 2 then
      var parts := Split(str, '/');
      Divide(parseFloat(parts[0]), parseFloat(parts[1]))
    else
      parseFloat(str)
  }

  /** The split in ParseFractionInput happens exactly when the input holds
      one `/`, and then reads the text before it over the text after it. */
  lemma ParseQuotient(a: string, b: string, parseFloat: string -> Number)
    requires '/' !in a && '/' !in b
    ensures ParseFractionInput(a + "/" + b, parseFloat) == Divide(parseFloat(a), parseFloat(b))
  {
    SplitAfterPiece(a, '/', b);
    SplitWithoutSeparator(b, '/');
    assert a + "/" + b == a + ['/'] + b;
    assert (a + "/" + b)[|a|] == '/';
  }

  /** An input without exactly one `/` is parsed whole. */
  lemma ParseWhole(str: string, parseFloat: string -> Number)
    requires Occurrences(str, '/') != 1
    ensures ParseFractionInput(str, parseFloat) == parseFloat(str)
  {
    SplitCount(str, '/');
  }

  /** The absolute value of a real. */
  function Abs(x: real): (y: real)
    ensures 0.0 <= y && (y == x || y == -x)
  {
    if x < 0.0 then -x else x
  }

  /** The answer test of script.js:150: within 0.001 of the correct answer.
      An infinity or NaN is never close to anything. */
  predicate IsCorrect(v: Number, answer: real)
  {
    v.Finite? && Abs(v.x - answer) < 0.001
  }

  /** A correct answer is a finite number within 0.001 of the answer on
      either side, and the exact answer is always correct. */
  lemma IsCorrectWithin(v: Number, answer: real)
    ensures IsCorrect(v, answer) <==> v.Finite? && answer - 0.001 < v.x < answer + 0.001
    ensures IsCorrect(Finite(answer), answer)
  {
  }

  /** What the answer to a question of the given chapter and operation always
      is: a whole number on the integer chapter, never negative under
      subtraction, and positive otherwise on the fraction chapter. */
  predicate AnswerFits(category: string, op: Op, answer: real)
  {
    if category == "integer" then IsInteger(answer) && (op == Sub ==> answer >= 0.0)
    else if op == Sub then answer >= 0.0 else answer > 0.0
  }

  /** `answer` is that of the question the generator of `category` produces
      for `operation` from the draws between `from` and `next`. */
  ghost predicate AskedBy(category: string, operation: string, rand: Stream, from: nat, next: nat, answer: real)
    requires IsUniform(rand)
  {
    if category == "integer" then
      exists q, n :: IntegerOutcome(OpOf(operation), rand, from, q, next, n) && answer == q.answer
    else
      exists q, n :: FractionOutcome(OpOf(operation), rand, from, q, next, n) && answer == q.answer
  }

  /** A question the chapter's generator produced is asked, and its answer fits. */
  lemma AskedOf(category: string, operation: string, rand: Stream, from: nat, q: Question, next: nat, n: nat)
    requires IsUniform(rand)
    requires category == "integer" ==> IntegerOutcome(OpOf(operation), rand, from, q, next, n)
    requires category != "integer" ==> FractionOutcome(OpOf(operation), rand, from, q, next, n)
    ensures AskedBy(category, operation, rand, from, next, q.answer)
    ensures AnswerFits(category, OpOf(operation), q.answer)
  {
    if category == "integer" {
      IntegerQuestions.OutcomeIsValid(OpOf(operation), rand, from, q, next, n);
    } else {
      FractionQuestions.OutcomeIsValid(OpOf(operation), rand, from, q, next, n);
    }
  }

  /** What `AskedBy` promises about the answer: it fits the chapter. */
  lemma AskedFits(category: string, operation: string, rand: Stream, from: nat, next: nat, answer: real)
    requires IsUniform(rand) && AskedBy(category, operation, rand, from, next, answer)
    ensures AnswerFits(category, OpOf(operation), answer)
  {
    var op := OpOf(operation);
    if category == "integer" {
      var q, n :| IntegerOutcome(op, rand, from, q, next, n) && answer == q.answer;
      IntegerQuestions.OutcomeIsValid(op, rand, from, q, next, n);
    } else {
      var q, n :| FractionOutcome(op, rand, from, q, next, n) && answer == q.answer;
      FractionQuestions.OutcomeIsValid(op, rand, from, q, next, n);
    }
  }

  /** The generator call of script.js:92-99: the integer generator on the
      integer chapter, the fraction generator on any other; the answer and
      the first unread draw. */
  method AskQuestion(category: string, operation: string, rand: Stream, from: nat)
    returns (answer: real, next: nat)
    requires IsUniform(rand)
    ensures AskedBy(category, operation, rand, from, next, answer)
    ensures AnswerFits(category, OpOf(operation), answer)
  {
    var q;
    ghost var attempts;
    if category == "integer" {
      q, next, attempts := GenerateIntegerQuestion(operation, rand, from);
    } else {
      q, next, attempts := GenerateFractionQuestion(operation, rand, from);
    }
    answer := q.answer;
    AskedOf(category, operation, rand, from, q, next, attempts);
  }

  /** The session: the game's global state. `Math.random()` is the stream
      `rand`, of which the draws from `cursor` on are still unread. */
  class Session {
    var rand: Stream
    var cursor: nat
    var category: string
    var operation: string
    var score: int
    var lives: int
    var active: bool
    var correctAnswer: real

    /** What holds at every point: the score is a non-negative multiple of
        10 and there are never more than 3 lives. */
    ghost predicate Consistent()
      reads this
    {
      && IsUniform(rand)
      && 0 <= score && score % 10 == 0
      && lives <= 3
    }

    /** The state every transition keeps: consistent, and a running game has
        at least one life. */
    ghost predicate Valid()
      reads this
    {
      Consistent() && (active ==> 1 <= lives)
    }

    /** The current answer belongs to the question the generator of the
        current chapter produced from the draws between `from` and `cursor`. */
    ghost predicate Asked(from: nat)
      reads this
      requires IsUniform(rand)
    {
      AskedBy(category, operation, rand, from, cursor, correctAnswer)
    }

    /** The initial state of script.js:1-9: the integer chapter, no
        operation, no score, 3 lives, no game running. */
    constructor(rand: Stream)
      requires IsUniform(rand)
      ensures Valid()
      ensures this.rand == rand && cursor == 0
      ensures category == "integer" && operation == ""
      ensures score == 0 && lives == 3 && !active && correctAnswer == 0.0
    {
      this.rand := rand;
      cursor := 0;
      category := "integer";
      operation := "";
      score := 0;
      lives := 3;
      active := false;
      correctAnswer := 0.0;
    }

    /** `selectChapter` (script.js:54-59): picks the chapter and nothing else. */
    method SelectChapter(category: string)
      requires Valid()
      modifies this
      ensures Valid()
      ensures this.category == category
      ensures rand == old(rand) && cursor == old(cursor) && operation == old(operation)
      ensures score == old(score) && lives == old(lives) && active == old(active)
      ensures correctAnswer == old(correctAnswer)
    {
      this.category := category;
    }

    /** `nextQuestion` (script.js:85-99): nothing while no game runs;
        otherwise a question from the chapter's generator, whose answer
        becomes the one to match. */
    method NextQuestion()
      requires Valid()
      modifies this
      ensures Valid()
      ensures !old(active) ==> unchanged(this)
      ensures old(active) ==>
                && rand == old(rand) && category == old(category) && operation == old(operation)
                && score == old(score) && lives == old(lives) && active
                && Asked(old(cursor))
                && AnswerFits(category, OpOf(operation), correctAnswer)
    {
      if !active {
        return;
      }
      correctAnswer, cursor := AskQuestion(category, operation, rand, cursor);
    }

    /** `startGame` (script.js:68-77): a fresh score, 3 lives, a running game,
        then the first question. */
    method StartGame(operation: string)
      requires Valid()
      modifies this
      ensures Valid()
      ensures this.operation == operation && score == 0 && lives == 3 && active
      ensures rand == old(rand) && category == old(category)
      ensures Asked(old(cursor)) && AnswerFits(category, OpOf(operation), correctAnswer)
    {
      this.operation := operation;
      score := 0;
      lives := 3;
      active := true;
      NextQuestion();
    }

    /** `endGame` (script.js:190-195): the game stops; the score stays. */
    method EndGame()
      requires Consistent()
      modifies this
      ensures Valid()
      ensures !active
      ensures rand == old(rand) && cursor == old(cursor) && category == old(category)
      ensures operation == old(operation) && score == old(score) && lives == old(lives)
      ensures correctAnswer == old(correctAnswer)
    {
      active := false;
    }

    /** `handleWrongAnswer` (script.js:170-182): one life fewer; with none
        left the game ends, otherwise the next question is scheduled, which
        `nextDue` reports (the caller then runs NextQuestion). Nothing else
        changes. */
    method HandleWrongAnswer() returns (nextDue: bool)
      requires Valid()
      modifies this
      ensures Valid()
      ensures lives == old(lives) - 1
      ensures nextDue <==> 0 < lives
      ensures active == (old(active) && 0 < lives)
      ensures rand == old(rand) && cursor == old(cursor) && category == old(category)
      ensures operation == old(operation) && score == old(score) && correctAnswer == old(correctAnswer)
    {
      lives := lives - 1;
      if lives <= 0 {
        EndGame();
        nextDue := false;
      } else {
        nextDue := true;
      }
    }

    /** `checkAnswer` (script.js:144-158) on the input box's text: blank input
        is ignored; a correct answer scores 10, a wrong one costs a life
        through HandleWrongAnswer. Either way the next question, if any, is
        only scheduled, and `nextDue` reports it. Like the source, it does
        not look at whether a game runs. */
    method CheckAnswer(input: string, parseFloat: string -> Number) returns (nextDue: bool)
      requires Valid()
      modifies this
      ensures Valid()
      ensures Trim(input) == [] ==> unchanged(this) && !nextDue
      ensures Trim(input) != [] && IsCorrect(ParseFractionInput(Trim(input), parseFloat), old(correctAnswer)) ==>
                score == old(score) + 10 && lives == old(lives) && active == old(active) && nextDue
      ensures Trim(input) != [] && !IsCorrect(ParseFractionInput(Trim(input), parseFloat), old(correctAnswer)) ==>
                && score == old(score) && lives == old(lives) - 1
                && active == (old(active) && 0 < lives)
                && (nextDue <==> 0 < lives)
      ensures rand == old(rand) && cursor == old(cursor) && category == old(category)
      ensures operation == old(operation) && correctAnswer == old(correctAnswer)
    {
      var rawInput := Trim(input);
      if rawInput == "" {
        return false;
      }
      var userVal := ParseFractionInput(rawInput, parseFloat);
      if IsCorrect(userVal, correctAnswer) {
        score := score + 10;
        nextDue := true;
      } else {
        nextDue := HandleWrongAnswer();
      }
    }

    /** `restartGame` (script.js:197-200): a new game with the same operation. */
    method RestartGame()
      requires Valid()
      modifies this
      ensures Valid()
      ensures operation == old(operation) && score == 0 && lives == 3 && active
      ensures rand == old(rand) && category == old(category)
      ensures Asked(old(cursor)) && AnswerFits(category, OpOf(operation), correctAnswer)
    {
      StartGame(operation);
    }
  }

  /** Three missed answers in a row end a freshly started game and keep its
      score, with each scheduled question asked in between. */
  method ThreeStrikes(s: Session)
    requires s.Valid() && s.active && s.lives == 3
    modifies s
    ensures s.Valid() && !s.active && s.lives == 0 && s.score == old(s.score)
  {
    var due := s.HandleWrongAnswer();
    if due {
      s.NextQuestion();
    }
    due := s.HandleWrongAnswer();
    if due {
      s.NextQuestion();
    }
    due := s.HandleWrongAnswer();
  }
}
