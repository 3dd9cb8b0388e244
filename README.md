# Daily-Study math quiz: question generators and game session

This project models the core of the quiz game in `script.js`, a browser app
that drills arithmetic on whole numbers ("Bab Bilangan") and on fractions
("Bab Pecahan"). The model covers four parts.

- **Expression builder.** `buildExpression` renders one list of operands
  twice. The evaluable string uses `+ - * /`. The LaTeX string uses
  `+ - \times \div`. When asked, it parenthesises one adjacent pair at the
  same place in both strings.
- **Integer generator.** `generateIntegerQuestion` rolls a difficulty tier
  (LOTS, MOTS or HOTS). It then draws up to 20 candidate expressions and
  keeps the first whose value is a whole number, and not negative under
  subtraction. If all 20 fail, it returns `1 + 1 = ?`.
- **Fraction generator.** `generateFractionQuestion` does the same with two
  or three proper fractions. It accepts any finite value, except a negative
  one under subtraction. Its fallback is `\frac{1}{2} + \frac{1}{2} = ?`.
- **Game session.** The score, the lives and whether a game is running, with
  the transitions `selectChapter`, `startGame`, `nextQuestion`,
  `checkAnswer`, `handleWrongAnswer`, `endGame` and `restartGame`.

How the model represents the source:

- **Randomness.** `Math.random()` is a stream `rand: nat -> real`, with every
  value in [0, 1). Each generator takes the index of the first unread draw
  and returns the index after the last draw it read. So the order in which
  the source consumes random numbers is part of every contract.
- **`getRandomInt(min, max)`.** Modelled exactly, as
  `floor(r * (max - min + 1)) + min` on reals.
- **Evaluation.** The source evaluates its own `logic` string with
  `new Function`. Here a typed evaluator works on exact reals: a left fold of
  the single operator, with at most one adjacent pair combined first. The
  read-back lemmas show that the rendered strings encode exactly that
  operand list, that grouping and that operator.
- **Generator modules.** Each generator is a method with the source's loops,
  specified against a function (`Attempt`) that gives what the candidate
  drawn at a given index yields. Both share one retry-loop specification
  (`Attempts`).
- **Session.** A class whose methods update its fields. `parseFloat` is a
  parameter.
- **Scheduled questions.** `checkAnswer` and `handleWrongAnswer` do not ask
  the next question themselves: they schedule `nextQuestion` with
  `setTimeout`. The model mirrors this. Each returns `nextDue`, and the
  caller runs `NextQuestion` when it is set.
- **Consequences the contracts expose.**
  - Until the scheduled question runs, the old answer is still the one
    checked, so it can be scored twice.
  - `checkAnswer` does not look at whether a game runs, so after the game
    ends the score and lives can still change.

The generators use these constants.

- The maximum operand is 10, 20 or 50 by tier.
- HOTS questions have 4 to 6 operands.
- The integer fallback is `1 + 1 = ?` with answer 2.
- Nothing bounds the size of the result.

## Model

| member | source | states |
|---|---|---|
| Operators.Sym | script.js:242-246 | the evaluable symbol: `+`, `-`, `*` and `/`; its properties are stated by Operators.SymbolsAreTokens |
| Operators.LatexSym | script.js:242-246 | the LaTeX symbol: `+`, `-`, `\times` and `\div`; its properties are stated by Operators.SymbolsAreTokens |
| Random.RandomInt | script.js:321-323 | `getRandomInt(lo, hi)` on a draw in [0, 1) lies in [lo, hi] |
| Random.RandomIntReaches | script.js:321-323 | every value of [lo, hi] is produced by some draw in [0, 1), so the range is exact |
| Random.Draws | script.js:218-221 | `n` successive `getRandomInt(lo, hi)` calls from draw `start` on: `n` values, value `i` taken from draw `start + i`, all in [lo, hi] |
| Random.BlockStartClosedForm | script.js:216-221 | candidate `j` of a retry loop starts `j` whole candidates after the first one's draw |
| Operators.OpOf | script.js:242-246 | `"subtraction"`, `"multiplication"` and `"division"` each select their operator, and only that name does; any other name means addition |
| Operators.SymbolsAreTokens | script.js:242-246 | every ASCII and LaTeX operator symbol is a non-empty token without spaces, and different operators have different symbols |
| Expression.Symbols | script.js:242-246 | the symbol pair it returns is the ASCII and the LaTeX symbol of the operator the name selects |
| Questions.TierOf | script.js:208-214 | the tier of a roll: LOTS below 0.4, MOTS below 0.8, HOTS otherwise; the fraction generator uses the same thresholds (script.js:274-280); its properties are stated by Questions.TierOfMonotone |
| Questions.TierOfMonotone | script.js:208-214 | a larger roll never gives an easier tier; LOTS exactly below 0.4, HOTS exactly from 0.8 on |
| Arith.Fold | script.js:226 | the value of a flat expression: operands combined left to right, `None` once a step divides by zero; the fraction strings are evaluated by this fold (script.js:307); its properties are stated by Arith.FoldSnoc and Arith.FoldDefined |
| Arith.Eval | script.js:226 | the value of an expression with at most one parenthesised pair: the pair is combined first, then the flat fold; its properties are stated by Arith.EvalDefined and Arith.ParensNeutral |
| Arith.Combine | script.js:226 | one operator step has a value except exactly for a division by zero |
| Arith.FoldSnoc | script.js:226 | the expression is evaluated left to right: one more operand is combined with the value so far |
| Arith.FoldDefined | script.js:226-231 | a left fold has a value when no divisor is zero |
| Arith.FoldPositive | script.js:307-311 | under addition, multiplication and division, positive operands give a positive value |
| Arith.EvalDefined | script.js:226-231 | with positive operands every grouping has a value, so the Infinity/NaN test never rejects an integer candidate |
| Arith.GroupedFold | script.js:255-260 | under addition and multiplication, combining an adjacent pair first gives the same left fold |
| Arith.ParensNeutral | script.js:255-260 | under addition and multiplication the parenthesised pair does not change the value |
| Expression.BuildExpression | script.js:241-267 | no pair with two operands or without the flag, otherwise the pair at `getRandomInt(0, n - 2)` of the next draw; the cursor moves by exactly the draws read; `logic` and `view` render the same operands with the same pair, one with the ASCII and one with the LaTeX symbol |
| Expression.Parenthesise | script.js:257-260 | in place: entry `i` gains a leading `(`, entry `i + 1` a trailing `)`, every other entry is unchanged |
| Expression.WrappedDigits | script.js:252-260 | parenthesising the copied operand texts yields exactly the parts of the rendering |
| Expression.PartShape | script.js:257-260 | part `k` is `(` + digits at the pair's start, digits + `)` at its end, plain digits elsewhere |
| Expression.ReadPart | script.js:257-260 | every part is a space-free token that reads back as its operand, opening exactly at the pair's start and closing exactly at its end |
| Expression.Render | script.js:263-266 | the parts joined by the symbol with one space on each side; its properties are stated by Expression.RenderReadBack and Expression.RenderTwo |
| Expression.RenderReadBack | script.js:263-266 | the rendered string reads back as the operand list with the pair marked, separated by `n - 1` copies of the symbol |
| Expression.RenderTwo | script.js:248-250 | two operands render as `a sym b`, without parentheses |
| IntegerQuestions.IntegerParams | script.js:208-214 | the tier is the roll's tier, at least two operands, a maximum of at least 10, parentheses exactly above LOTS |
| IntegerQuestions.MinOperand | script.js:219 | the smallest operand is 1 or 2, never 0 |
| IntegerQuestions.CandidateAt | script.js:217-223 | a candidate has `count` operands, each in [min, maxVal], and a pair exactly when it has more than two operands and the tier uses parentheses |
| IntegerQuestions.DrawOperands | script.js:217-221 | the operand loop returns the successive draws in [min, maxVal] from its first draw on |
| IntegerQuestions.Accepted | script.js:227-233 | a candidate is accepted when its value is finite, a whole number, and not negative under subtraction; its consequences are stated by IntegerQuestions.AcceptedIsValid and Arith.EvalDefined |
| IntegerQuestions.IntegerAttempt | script.js:217-236 | one pass reads exactly one candidate's draws and yields its question exactly when the candidate is accepted |
| IntegerQuestions.AttemptLoop | script.js:216-237 | at most 20 candidates; every one before the last was rejected; it stops at the first accepted one; it finds nothing only after all 20; the cursor ends after the last candidate read |
| IntegerQuestions.OutcomeOfLoop | script.js:216-238 | the loop's outcome is the generator's: the accepted question, or the fallback after 20 rejections |
| IntegerQuestions.GenerateIntegerQuestion | script.js:204-239 | the tier roll, the operand count and the candidates are read in the source's order; the question is the first accepted candidate's, or `1 + 1 = ?` with answer 2 after 20 rejections; it is always valid |
| IntegerQuestions.OutcomeIsValid | script.js:226-238 | every question the generator can return has a whole-number answer, non-negative under subtraction, and LaTeX ending in ` = ?` |
| IntegerQuestions.FallbackIsValid | script.js:238 | the fallback is `1 + 1 = ?` with answer 2, on LOTS, and it is valid for every operation |
| IntegerQuestions.AcceptedIsValid | script.js:227-234 | an accepted candidate's question is valid and shows its LaTeX rendering followed by ` = ?` |
| Attempts.AllFailAt | script.js:216-237 | in a run of failed attempts, every single attempt failed |
| Attempts.AllFailNext | script.js:216-236 | one more failed attempt extends the run of failures |
| Attempts.LoopFound | script.js:233-235 | a loop that stops at a successful attempt after earlier failures has the loop outcome |
| Attempts.LoopExhausted | script.js:216-238 | a loop that gives up after 20 failures has the loop outcome |
| FractionQuestions.FractionCount | script.js:274-280 | two fractions on LOTS, three on MOTS and HOTS |
| FractionQuestions.FractionAt | script.js:288-291 | the denominator is one of 2, 3, 4, 5, 6, 8, 10 and the numerator lies in [1, d - 1], so the zero repair never fires |
| FractionQuestions.FractionsAt | script.js:287-292 | a candidate has `count` fractions |
| FractionQuestions.FractionsAtIndex | script.js:287-292 | fraction `i` of a candidate comes from the draws at `start + 2i` and `start + 2i + 1` |
| FractionQuestions.FractionInUnitInterval | script.js:288-289 | every drawn fraction lies strictly between 0 and 1 |
| FractionQuestions.DrawFractions | script.js:287-292 | the fraction loop yields the candidate's fractions; the `n === 0` repair is shown dead |
| FractionQuestions.RenderFractions | script.js:294-304 | the LaTeX and evaluable strings are the `\frac{n}{d}` and `(n/d)` forms joined by the operator |
| FractionQuestions.ViewString | script.js:300-303 | the `\frac{n}{d}` forms joined by the LaTeX symbol; its properties are stated by FractionQuestions.ViewReadBack |
| FractionQuestions.LogicString | script.js:301-304 | the `(n/d)` forms joined by the evaluable symbol; its properties are stated by FractionQuestions.LogicReadBack |
| FractionQuestions.ReadFracViewBack | script.js:300 | `\frac{n}{d}` reads back as the fraction n/d |
| FractionQuestions.ReadFracLogicBack | script.js:301 | `(n/d)` reads back as the fraction n/d |
| FractionQuestions.ViewReadBack | script.js:300-303 | the LaTeX string lists the fractions in order, separated by `count - 1` LaTeX operator symbols |
| FractionQuestions.LogicReadBack | script.js:301-304 | the evaluable string lists the fractions in order, separated by `count - 1` ASCII operator symbols |
| FractionQuestions.FractionAttempt | script.js:283-316 | one pass reads exactly `2 * count` draws and yields the candidate's question exactly when it is accepted |
| FractionQuestions.AttemptLoop | script.js:282-317 | at most 20 candidates; every one before the last was rejected; it stops at the first accepted one; it finds nothing only after all 20 |
| FractionQuestions.OutcomeOfLoop | script.js:282-318 | the loop's outcome is the generator's: the accepted question, or the fallback after 20 rejections |
| FractionQuestions.GenerateFractionQuestion | script.js:269-319 | the tier roll, then each candidate's fractions in turn; the first accepted candidate's question, otherwise `\frac{1}{2} + \frac{1}{2} = ?` with answer 1; outside subtraction the first candidate is always taken; the question is always valid |
| FractionQuestions.CandidateValue | script.js:307-311 | every candidate has a finite value, since no fraction is zero and so no division is by zero; outside subtraction the value is positive |
| FractionQuestions.AlwaysAcceptedUnlessSub | script.js:310-315 | under addition, multiplication and division every candidate is accepted |
| FractionQuestions.Accepted | script.js:310-311 | a candidate is accepted when its value is finite and not negative under subtraction; its properties are stated by FractionQuestions.AlwaysAcceptedUnlessSub and FractionQuestions.SubAcceptedIff |
| FractionQuestions.SubAcceptedIff | script.js:310-311 | under subtraction a candidate is accepted exactly when its value is not negative |
| FractionQuestions.ZeroDifferenceAccepted | script.js:310-311 | `3/10 - 1/10 - 2/10` under subtraction has the exact value 0 and is accepted with answer 0 |
| FractionQuestions.OutcomeFirstAccepted | script.js:282-315 | outside subtraction the generator examines exactly one candidate |
| FractionQuestions.FallbackIsValid | script.js:318 | the fallback is `\frac{1}{2} + \frac{1}{2} = ?` with answer 1, on LOTS, and it is valid for every operation |
| FractionQuestions.OutcomeIsValid | script.js:307-318 | every question the generator can return has a positive answer, or a non-negative one under subtraction, and LaTeX ending in ` = ?` |
| Text.Trim | script.js:145 | the input without its leading and trailing whitespace; its properties are stated by Text.TrimEmpty |
| Text.TrimEmpty | script.js:145-146 | the trimmed input is empty exactly when every character of it is whitespace |
| Session.ParseFractionInput | script.js:160-168 | text with exactly one `/` is the quotient of its two parsed halves, any other text is parsed whole; stated by Session.ParseQuotient and Session.ParseWhole |
| Session.Divide | script.js:164 | JavaScript division: the exact quotient of finite numbers with a non-zero divisor, NaN exactly for NaN operands, 0/0 and infinity over infinity, an infinity exactly for an infinity over a finite number or a non-zero number over zero |
| Session.ParseQuotient | script.js:160-165 | text with exactly one `/` is read as the parsed text before it divided by the parsed text after it |
| Session.ParseWhole | script.js:160-168 | text without exactly one `/` is parsed whole |
| Session.IsCorrect | script.js:150 | an answer is correct when it is finite and strictly within 0.001 of the correct answer; stated by Session.IsCorrectWithin |
| Session.IsCorrectWithin | script.js:150 | an answer counts as correct exactly when it is finite and strictly within 0.001 of the correct answer; the exact answer always counts |
| Session.AskQuestion | script.js:92-99 | the integer generator on the integer chapter, the fraction generator on any other; the answer is that question's and fits the chapter |
| Session.AskedOf | script.js:92-99 | a question a chapter's generator produced is the one asked, and its answer fits the chapter |
| Session.AskedFits | script.js:92-99 | the answer to any asked question is a whole number on the integer chapter, never negative under subtraction, and positive otherwise |
| Session.Session.constructor | script.js:1-9 | the initial state: integer chapter, no operation, score 0, 3 lives, no game running |
| Session.Session.SelectChapter | script.js:54-59 | only the chapter changes |
| Session.Session.StartGame | script.js:68-77 | operation set, score 0, 3 lives, game running, and the first question asked from the current draw |
| Session.Session.NextQuestion | script.js:85-99 | without a running game nothing changes; otherwise the chapter's generator asks a question whose answer becomes the one to match, and nothing else changes |
| Session.Session.CheckAnswer | script.js:144-158 | blank input changes nothing; a correct answer adds exactly 10 and keeps lives and the running flag; a wrong one keeps the score, takes exactly one life and ends the game when none are left; a next question is due exactly after a correct answer or a wrong one that leaves a life |
| Session.Session.HandleWrongAnswer | script.js:170-182 | exactly one life fewer and the same score; the game stops exactly when no life is left; the next question is due exactly when one is |
| Session.Session.EndGame | script.js:190-195 | the game stops and nothing else changes; a valid state follows from any consistent one |
| Session.Session.RestartGame | script.js:197-200 | a new game with the same operation: score 0, 3 lives, running, first question asked |
| Session.ThreeStrikes | script.js:170-182 | three missed answers from a freshly started game end it with its score unchanged |

Every method of `Session.Session` keeps `Valid`. The score stays a
non-negative multiple of 10, lives never exceed 3, and a running game has at
least one life.

## Left out

- Theme handling, `localStorage`, view navigation, `goToMenu`, `selectHabit`,
  the HUD, feedback messages, the difficulty badge and MathJax typesetting
  (script.js:12-53, 61-64, 79-83, 101-114, 130-142, 184-188). These are browser
  plumbing with no effect on the game state.
- The countdown (`resetTimer`, `updateTimerUI`, `timeLeft`, `timerInterval`,
  script.js:117-137) is left out because it is driven by the browser's timer.
  - A timeout ends in `handleWrongAnswer(true)`, which the model covers:
    the flag only picks the feedback message.
  - The interval is never cleared on timeout, so it can fire again. That is
    timer behaviour and is not modelled.
- The `setTimeout` delays before `nextQuestion` (script.js:154, 180) are
  left out as timing. What remains is the `nextDue` result of
  CheckAnswer and HandleWrongAnswer: the question becomes due, and the
  caller asks it.
- JavaScript doubles are left out. Values are exact reals, so rounding in
  chained divisions, `Number.isInteger` on a rounded quotient and signed
  zeros are not modelled.
- Evaluation by `new Function` and its `try`/`catch` are left out. The
  strings are always well formed, and the evaluator stands in for the
  parse.
- `parseFloat` is a parameter. The model does not say how it reads a string.
- Session.Session.CheckAnswer: does not ask the next question itself. It reports it as due, because the source only schedules it.
- Session.Session.HandleWrongAnswer: likewise reports the next question as due instead of asking it.
- Expression.BuildExpression: requires at least two operands. Its only caller, the integer generator, always passes two to six operands (script.js:209-213), and the source's output for fewer is not modelled.
- IntegerQuestions.IntegerParams: states the tier, the parenthesis flag and lower bounds of the ranges, not each tier's exact operand range and maximum (2-3/10, 3-4/20, 4-6/50). Those stay as the function's definition.
- IntegerQuestions.MinOperand: states that the smallest operand is 1 or 2, not which operation gets which. That choice is the function's definition.
- FractionQuestions.SubAcceptedIff: holds of exact values, not of doubles. A difference that is exactly 0 can come out slightly negative in floating point and be rejected by the source, while the model accepts it with answer 0. FractionQuestions.ZeroDifferenceAccepted gives one such candidate: `(3/10) - (1/10) - (2/10)` evaluates to about -2.78e-17 in doubles.
