/** Exact evaluation of the quiz's expressions. The source builds a string and
    runs it with `new Function('return ' + logic)` (script.js:226, 307); here
    the same expression is evaluated over exact rationals. Every operator in one
    expression is the same, so the value is a left fold over the operands, with
    at most one adjacent pair combined first when it is parenthesised. */
module Arith {
  import opened Options
  import opened Operators

  /** One operator application on exact values; a division needs a non-zero divisor. */
  function Apply(op: Op, x: real, y: real): real
    requires op == Div ==> y != 0.0
  {
    match op
    case Add => x + y
    case Sub => x - y
    case Mul => x * y
    case Div => x / y
  }

  /** One JavaScript operator application; `None` stands for the non-finite
      results (Infinity, NaN) that only a division by zero produces here. */
  function Combine(op: Op, x: real, y: real): (r: Option<real>)
    ensures r.None? <==> op == Div && y == 0.0
  {
    if op == Div && y == 0.0 then None else Some(Apply(op, x, y))
  }

  /** `x0 op x1 op ... op xn`, evaluated left to right. */
  function Fold(op: Op, xs: seq<real>): Option<real>
    requires 1 <= |xs|
  {
    if |xs| == 1 then Some(xs[0])
    else match Fold(op, xs[..|xs| - 1])
      case None => None
      case Some(v) => Combine(op, v, xs[|xs| - 1])
  }

  /** Where a parenthesised pair may stand: at `i` and `i + 1`. */
  predicate ValidWrap(n: nat, wrap: Option<nat>)
  {
    wrap.Some? ==> wrap.value + 1 < n
  }

  /** The operands with the pair at `i`, `i + 1` replaced by its value `g`. */
  function Grouped(xs: seq<real>, i: nat, g: real): (ys: seq<real>)
    requires i + 1 < |xs|
    ensures |ys| == |xs| - 1
  {
    xs[..i] + [g] + xs[i + 2..]
  }

  /** The value of the expression: a left fold, with the pair at `wrap` combined first. */
  function Eval(op: Op, xs: seq<real>, wrap: Option<nat>): Option<real>
    requires 1 <= |xs| && ValidWrap(|xs|, wrap)
  {
    match wrap
    case None => Fold(op, xs)
    case Some(i) =>
      match Combine(op, xs[i], xs[i + 1])
      case None => None
      case Some(g) => Fold(op, Grouped(xs, i, g))
  }

  /** `Number.isInteger` on an exact value. */
  predicate IsInteger(v: real)
  {
    v == v.Floor as real
  }

  lemma FoldSnoc(op: Op, xs: seq<real>, z: real)
    requires 1 <= |xs|
    ensures Fold(op, xs + [z]) == match Fold(op, xs) case None => None case Some(v) => Combine(op, v, z)
  {
    assert (xs + [z])[..|xs|] == xs;
  }

  /** Only division can fail, and only by a zero divisor: with no zero after
      the first operand the fold has a value. */
  lemma {:induction false} FoldDefined(op: Op, xs: seq<real>)
    requires 1 <= |xs|
    requires op == Div ==> forall j :: 1 <= j < |xs| ==> xs[j] != 0.0
    ensures Fold(op, xs).Some?
  {
    if |xs| > 1 {
      FoldDefined(op, xs[..|xs| - 1]);
    }
  }

  /** Addition, multiplication and division of positive operands stay positive. */
  lemma {:induction false} FoldPositive(op: Op, xs: seq<real>)
    requires 1 <= |xs| && op != Sub
    requires forall j :: 0 <= j < |xs| ==> xs[j] > 0.0
    ensures Fold(op, xs).Some? && Fold(op, xs).value > 0.0
  {
    if |xs| > 1 {
      FoldPositive(op, xs[..|xs| - 1]);
      var v := Fold(op, xs[..|xs| - 1]).value;
      var z := xs[|xs| - 1];
      if op == Mul {
        assert v * z > 0.0;
      } else if op == Div {
        assert v / z > 0.0;
      }
    }
  }

  /** With every operand positive the expression always has a finite value,
      whatever the operator and the grouping: the Infinity/NaN check of the
      integer generator (script.js:231) never rejects a candidate. */
  lemma EvalDefined(op: Op, xs: seq<real>, wrap: Option<nat>)
    requires 1 <= |xs| && ValidWrap(|xs|, wrap)
    requires forall j :: 0 <= j < |xs| ==> xs[j] > 0.0
    ensures Eval(op, xs, wrap).Some?
  {
    match wrap
    case None =>
      FoldDefined(op, xs);
    case Some(i) =>
      var g := Combine(op, xs[i], xs[i + 1]).value;
      var ys := Grouped(xs, i, g);
      if op == Div {
        assert g > 0.0;
        forall j | 0 <= j < |ys| ensures ys[j] > 0.0 {
          if j > i { assert ys[j] == xs[j + 1]; }
        }
        FoldPositive(op, ys);
      } else {
        FoldDefined(op, ys);
      }
  }

  /** Addition and multiplication are associative, so parenthesising any
      adjacent pair leaves the value of the expression unchanged. */
  lemma ParensNeutral(op: Op, xs: seq<real>, i: nat)
    requires op == Add || op == Mul
    requires i + 1 < |xs|
    ensures Eval(op, xs, Some(i)) == Eval(op, xs, None)
  {
    GroupedFold(op, xs[..i], xs[i], xs[i + 1], xs[i + 2..]);
    assert xs == xs[..i] + [xs[i], xs[i + 1]] + xs[i + 2..];
  }

  lemma ApplyAssociative(op: Op, v: real, a: real, b: real)
    requires op == Add || op == Mul
    ensures Apply(op, v, Apply(op, a, b)) == Apply(op, Apply(op, v, a), b)
  {
    match op
    case Add =>
    case Mul =>
      assert v * (a * b) == (v * a) * b;
  }

  /** The base case of GroupedFold: the pair is at the end. */
  lemma GroupedFoldAtEnd(op: Op, pre: seq<real>, a: real, b: real)
    requires op == Add || op == Mul
    ensures Fold(op, pre + [Apply(op, a, b)]) == Fold(op, pre + [a, b])
  {
    var g := Apply(op, a, b);
    assert pre + [a, b] == (pre + [a]) + [b];
    FoldSnoc(op, pre + [a], b);
    if pre == [] {
      assert pre + [a] == [a];
      assert pre + [g] == [g];
    } else {
      FoldDefined(op, pre);
      FoldSnoc(op, pre, g);
      FoldSnoc(op, pre, a);
      var v := Fold(op, pre).value;
      ApplyAssociative(op, v, a, b);
    }
  }

  /** Combining the pair `a`, `b` first does not change an addition or a
      multiplication, wherever the pair stands. */
  lemma {:induction false} GroupedFold(op: Op, pre: seq<real>, a: real, b: real, post: seq<real>)
    requires op == Add || op == Mul
    ensures Fold(op, pre + [Apply(op, a, b)] + post) == Fold(op, pre + [a, b] + post)
  {
    var g := Apply(op, a, b);
    if post == [] {
      assert pre + [g] + post == pre + [g];
      assert pre + [a, b] + post == pre + [a, b];
      GroupedFoldAtEnd(op, pre, a, b);
    } else {
      var init := post[..|post| - 1];
      var z := post[|post| - 1];
      GroupedFold(op, pre, a, b, init);
      assert pre + [g] + post == (pre + [g] + init) + [z];
      assert pre + [a, b] + post == (pre + [a, b] + init) + [z];
      FoldSnoc(op, pre + [g] + init, z);
      FoldSnoc(op, pre + [a, b] + init, z);
    }
  }
}
