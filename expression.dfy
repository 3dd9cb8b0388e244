/** The expression builder `buildExpression` (script.js:241-267): the same
    operands rendered twice, once to be evaluated (`+ - * /`) and once to be
    shown in LaTeX (`+ - \times \div`), with at most one adjacent pair
    parenthesised at the same place in both. */
module Expression {
  import opened Options
  import opened Text
  import opened Random
  import opened Operators
  import opened Arith

  /** The two strings `buildExpression` returns. */
  datatype Rendering = Rendering(logic: string, view: string)

  /** The text of operand `k`: its digits, opened by `(` when the pair starts
      at `k` and closed by `)` when the pair ends at `k`. */
  function Part(x: nat, k: nat, wrap: Option<nat>): string
  {
    (if wrap == Some(k) then "(" else "")
    + NatToString(x)
    + (if wrap.Some? && k == wrap.value + 1 then ")" else "")
  }

  function Parts(nums: seq<nat>, wrap: Option<nat>): (parts: seq<string>)
    ensures |parts| == |nums|
  {
    seq(|nums|, k requires 0 <= k < |nums| => Part(nums[k], k, wrap))
  }

  /** The operands joined by `" " + sym + " "`. */
  function Render(nums: seq<nat>, wrap: Option<nat>, sym: string): string
  {
    Join(Parts(nums, wrap), " " + sym + " ")
  }

  /** One operand as read back from its token. */
  datatype Operand = Operand(value: nat, open: bool, close: bool)

  /** Reads an operand token: an optional `(`, digits, an optional `)`. */
  function ReadOperand(token: string): Operand
  {
    var open := |token| > 0 && token[0] == '(';
    var rest := if open then token[1..] else token;
    var close := |rest| > 0 && rest[|rest| - 1] == ')';
    Operand(ParseNat(if close then rest[..|rest| - 1] else rest), open, close)
  }

  /** The operands a rendered expression lists, in order: the tokens at even
      positions once the string is split at its spaces. */
  function ReadOperands(s: string): seq<Operand>
  {
    var tokens := Evens(Split(s, ' '));
    seq(|tokens|, k requires 0 <= k < |tokens| => ReadOperand(tokens[k]))
  }

  /** The operator tokens of a rendered expression: those at odd positions. */
  function ReadOperators(s: string): seq<string>
  {
    Odds(Split(s, ' '))
  }

  /** What an expression over `nums` grouped at `wrap` should list: every
      number in order, the pair's first operand opened and its second closed. */
  function Layout(nums: seq<nat>, wrap: Option<nat>): seq<Operand>
  {
    seq(|nums|, k requires 0 <= k < |nums| =>
      Operand(nums[k], wrap == Some(k), wrap.Some? && k == wrap.value + 1))
  }

  /** The three shapes an operand's text takes. */
  lemma PartShape(x: nat, k: nat, wrap: Option<nat>)
    ensures Part(x, k, wrap) == if wrap == Some(k) then "(" + NatToString(x)
                                else if wrap.Some? && k == wrap.value + 1 then NatToString(x) + ")"
                                else NatToString(x)
  {
    var d := NatToString(x);
    assert "" + d + "" == d && "(" + d + "" == "(" + d && "" + d + ")" == d + ")";
  }

  lemma ReadDigits(d: string)
    requires 1 <= |d| && forall i :: 0 <= i < |d| ==> IsDigit(d[i])
    ensures ReadOperand(d) == Operand(ParseNat(d), false, false)
    ensures ReadOperand("(" + d) == Operand(ParseNat(d), true, false)
    ensures ReadOperand(d + ")") == Operand(ParseNat(d), false, true)
  {
    assert !IsDigit(d[0]) ==> false;
    assert !IsDigit(d[|d| - 1]) ==> false;
    assert ("(" + d)[1..] == d;
    assert (d + ")")[0] == d[0];
    assert (d + ")")[..|d|] == d;
  }

  lemma ReadPart(x: nat, k: nat, wrap: Option<nat>)
    ensures ' ' !in Part(x, k, wrap)
    ensures ReadOperand(Part(x, k, wrap)) == Operand(x, wrap == Some(k), wrap.Some? && k == wrap.value + 1)
  {
    var d := NatToString(x);
    PartShape(x, k, wrap);
    ParseNatToString(x);
    ReadDigits(d);
    NoSpaceInDigits(d);
  }

  lemma NoSpaceInDigits(d: string)
    requires forall i :: 0 <= i < |d| ==> IsDigit(d[i])
    ensures ' ' !in d && ' ' !in "(" + d && ' ' !in d + ")"
  {
  }

  /** A rendered expression reads back as exactly what was rendered: the
      numbers in their order with the pair's parentheses where `wrap` puts
      them, separated by `|nums| - 1` copies of the operator. */
  lemma RenderReadBack(nums: seq<nat>, wrap: Option<nat>, sym: string)
    requires 1 <= |nums|
    requires |sym| >= 1 && ' ' !in sym
    ensures ReadOperands(Render(nums, wrap, sym)) == Layout(nums, wrap)
    ensures ReadOperators(Render(nums, wrap, sym)) == seq(|nums| - 1, _ => sym)
  {
    var parts := Parts(nums, wrap);
    forall k | 0 <= k < |parts| ensures ' ' !in parts[k] {
      ReadPart(nums[k], k, wrap);
    }
    SpacedJoinReadBack(parts, sym);
    forall k | 0 <= k < |nums|
      ensures ReadOperands(Render(nums, wrap, sym))[k] == Layout(nums, wrap)[k]
    {
      ReadPart(nums[k], k, wrap);
    }
  }

  /** The operator choice both generators open with (script.js:242-246 and
      294-298): addition unless the topic names another operation. */
  method Symbols(opType: string) returns (sym: string, latexSym: string)
    ensures sym == Sym(OpOf(opType)) && latexSym == LatexSym(OpOf(opType))
  {
    sym, latexSym := "+", "+";
    if opType == "subtraction" { sym, latexSym := "-", "-"; }
    if opType == "multiplication" { sym, latexSym := "*", "\\times"; }
    if opType == "division" { sym, latexSym := "/", "\\div"; }
  }

  /** `buildExpression(nums, opType, useParens)`, drawing the pair's position
      `getRandomInt(0, nums.length - 2)` from draw `k` when it needs one. The
      grouping is returned beside the strings; the evaluator reads it where
      the source parses the string again. */
  method BuildExpression(nums: seq<nat>, opType: string, useParens: bool, rand: Stream, k: nat)
    returns (res: Rendering, wrap: Option<nat>, next: nat)
    requires IsUniform(rand) && 2 <= |nums|
    ensures wrap == if |nums| == 2 || !useParens then None
                    else Some(RandomInt(rand(k), 0, |nums| - 2))
    ensures ValidWrap(|nums|, wrap)
    ensures next == if wrap.Some? then k + 1 else k
    ensures res.logic == Render(nums, wrap, Sym(OpOf(opType)))
    ensures res.view == Render(nums, wrap, LatexSym(OpOf(opType)))
  {
    var sym, latexSym := Symbols(opType);
    SymbolsAreTokens(OpOf(opType), OpOf(opType));

    if |nums| == 2 {
      var a, b := NatToString(nums[0]), NatToString(nums[1]);
      res := Rendering(a + " " + sym + " " + b, a + " " + latexSym + " " + b);
      wrap, next := None, k;
      RenderTwo(nums, sym);
      RenderTwo(nums, latexSym);
    } else {
      var logicParts := new string[|nums|](i requires 0 <= i < |nums| => NatToString(nums[i]));
      var viewParts := new string[|nums|](i requires 0 <= i < |nums| => NatToString(nums[i]));
      ghost var digits := logicParts[..];
      assert viewParts[..] == digits;
      wrap, next := None, k;
      if useParens {
        var wrapIdx := RandomInt(rand(k), 0, |nums| - 2);
        Parenthesise(viewParts, wrapIdx);
        Parenthesise(logicParts, wrapIdx);
        wrap, next := Some(wrapIdx), k + 1;
      }
      WrappedDigits(nums, wrap, digits);
      res := Rendering(Join(logicParts[..], " " + sym + " "), Join(viewParts[..], " " + latexSym + " "));
    }
  }

  /** The texts of the operands with the pair at `wrap` parenthesised. */
  function Wrapped(texts: seq<string>, wrap: Option<nat>): (r: seq<string>)
    requires wrap.Some? ==> wrap.value + 1 < |texts|
    ensures |r| == |texts|
  {
    match wrap
    case None => texts
    case Some(i) => texts[i := "(" + texts[i]][i + 1 := texts[i + 1] + ")"]
  }

  /** Opens the pair at `i` and closes it at `i + 1`, in place. */
  method Parenthesise(parts: array<string>, i: nat)
    requires i + 1 < parts.Length
    modifies parts
    ensures parts[..] == Wrapped(old(parts[..]), Some(i))
  {
    parts[i] := "(" + parts[i];
    parts[i + 1] := parts[i + 1] + ")";
  }

  /** Parenthesising the digit strings of `nums` at `wrap` gives the texts
      `Render` joins. */
  lemma WrappedDigits(nums: seq<nat>, wrap: Option<nat>, digits: seq<string>)
    requires ValidWrap(|nums|, wrap)
    requires |digits| == |nums| && forall i :: 0 <= i < |nums| ==> digits[i] == NatToString(nums[i])
    ensures Wrapped(digits, wrap) == Parts(nums, wrap)
  {
    var w := Wrapped(digits, wrap);
    forall i | 0 <= i < |nums| ensures w[i] == Parts(nums, wrap)[i] {
      PartShape(nums[i], i, wrap);
      if wrap.Some? {
        var j := wrap.value;
        assert w[i] == if i == j then "(" + digits[i] else if i == j + 1 then digits[i] + ")" else digits[i];
      }
    }
  }

  /** With two operands the rendering is `a sym b`. */
  lemma RenderTwo(nums: seq<nat>, sym: string)
    requires |nums| == 2
    ensures Render(nums, None, sym) == NatToString(nums[0]) + " " + sym + " " + NatToString(nums[1])
  {
    var a, b := NatToString(nums[0]), NatToString(nums[1]);
    PartShape(nums[0], 0, None);
    PartShape(nums[1], 1, None);
    var sep := " " + sym + " ";
    assert Parts(nums, None) == [a, b];
    assert [a, b][1..] == [b];
    assert Join([a, b], sep) == a + sep + b;
    assert a + sep + b == a + " " + sym + " " + b;
  }
}
