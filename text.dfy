/** The string operations the quiz relies on, as JavaScript defines them:
    number-to-text conversion (`${n}`), `Array.prototype.join`,
    `String.prototype.split` on one character and `String.prototype.trim`. */
module Text {

  predicate IsDigit(c: char)
  {
    '0' <= c <= '9'
  }

  function DigitChar(d: nat): (c: char)
    requires d < 10
    ensures IsDigit(c)
  {
    "0123456789"[d]
  }

  function DigitValue(c: char): nat
  {
    if IsDigit(c) then (c as int - '0' as int) as nat else 0
  }

  /** The decimal text of a non-negative integer, as `${n}` writes it. */
  function NatToString(n: nat): (s: string)
    ensures 1 <= |s|
    ensures forall i :: 0 <= i < |s| ==> IsDigit(s[i])
  {
    if n < 10 then [DigitChar(n)] else NatToString(n / 10) + [DigitChar(n % 10)]
  }

  /** Reads a string of decimal digits back as a number. */
  function ParseNat(s: string): nat
  {
    if s == [] then 0 else ParseNat(s[..|s| - 1]) * 10 + DigitValue(s[|s| - 1])
  }

  /** The decimal text of `n` reads back as `n`: the conversion loses nothing. */
  lemma {:induction false} ParseNatToString(n: nat)
    ensures ParseNat(NatToString(n)) == n
  {
    var s := NatToString(n);
    if n < 10 {
      assert s[..|s| - 1] == [];
    } else {
      ParseNatToString(n / 10);
      assert s[..|s| - 1] == NatToString(n / 10);
    }
  }

  /** `parts.join(sep)`. */
  function Join(parts: seq<string>, sep: string): string
  {
    if |parts| == 0 then ""
    else if |parts| == 1 then parts[0]
    else parts[0] + sep + Join(parts[1..], sep)
  }

  /** `s.split(c)`: the pieces between the occurrences of `c`. */
  function Split(s: string, c: char): (pieces: seq<string>)
    ensures 1 <= |pieces|
    ensures forall i :: 0 <= i < |pieces| ==> c !in pieces[i]
  {
    if s == [] then [""]
    else
      var rest := Split(s[1..], c);
      if s[0] == c then [""] + rest else [[s[0]] + rest[0]] + rest[1..]
  }

  /** The number of occurrences of `c` in `s`. */
  function Occurrences(s: string, c: char): nat
  {
    if s == [] then 0 else (if s[0] == c then 1 else 0) + Occurrences(s[1..], c)
  }

  /** Splitting yields one more piece than there are separators. */
  lemma {:induction false} SplitCount(s: string, c: char)
    ensures |Split(s, c)| == Occurrences(s, c) + 1
  {
    if s != [] {
      SplitCount(s[1..], c);
    }
  }

  /** A piece free of the separator splits off whole. */
  lemma {:induction false} SplitAfterPiece(x: string, c: char, y: string)
    requires c !in x
    ensures Split(x + [c] + y, c) == [x] + Split(y, c)
  {
    if x == [] {
      assert x + [c] + y == [c] + y;
      assert ([c] + y)[1..] == y;
    } else {
      SplitAfterPiece(x[1..], c, y);
      assert (x + [c] + y)[1..] == x[1..] + [c] + y;
      assert [x[0]] + x[1..] == x;
    }
  }

  /** A string free of the separator splits into itself. */
  lemma {:induction false} SplitWithoutSeparator(x: string, c: char)
    requires c !in x
    ensures Split(x, c) == [x]
  {
    if x != [] {
      SplitWithoutSeparator(x[1..], c);
      assert [x[0]] + x[1..] == x;
    }
  }

  /** Splitting a join recovers the parts, when no part holds the separator. */
  lemma {:induction false} SplitJoin(parts: seq<string>, c: char)
    requires 1 <= |parts|
    requires forall i :: 0 <= i < |parts| ==> c !in parts[i]
    ensures Split(Join(parts, [c]), c) == parts
  {
    if |parts| == 1 {
      SplitWithoutSeparator(parts[0], c);
    } else {
      SplitJoin(parts[1..], c);
      SplitAfterPiece(parts[0], c, Join(parts[1..], [c]));
    }
  }

  /** `[x0, sep, x1, sep, ..., x(n-1)]`: the tokens of a join, separators included. */
  function Interleave(parts: seq<string>, sep: string): (tokens: seq<string>)
    ensures |tokens| == if |parts| == 0 then 0 else 2 * |parts| - 1
  {
    if |parts| <= 1 then parts else [parts[0], sep] + Interleave(parts[1..], sep)
  }

  /** The tokens at even positions. */
  function Evens<T>(xs: seq<T>): seq<T>
  {
    if |xs| <= 1 then xs else [xs[0]] + Evens(xs[2..])
  }

  /** The tokens at odd positions. */
  function Odds<T>(xs: seq<T>): seq<T>
  {
    if |xs| <= 1 then [] else [xs[1]] + Odds(xs[2..])
  }

  /** Joining with `" " + sep + " "` is joining the interleaved tokens with one space. */
  lemma {:induction false} JoinSpaced(parts: seq<string>, sep: string)
    ensures Join(parts, " " + sep + " ") == Join(Interleave(parts, sep), " ")
  {
    if |parts| >= 2 {
      JoinSpaced(parts[1..], sep);
      var tokens := Interleave(parts, sep);
      assert tokens[1..][1..] == Interleave(parts[1..], sep);
    }
  }

  /** The even tokens are the parts and the odd ones the separators. */
  lemma {:induction false} InterleaveTokens(parts: seq<string>, sep: string)
    requires 1 <= |parts|
    ensures Evens(Interleave(parts, sep)) == parts
    ensures Odds(Interleave(parts, sep)) == seq(|parts| - 1, _ => sep)
  {
    if |parts| >= 2 {
      InterleaveTokens(parts[1..], sep);
      assert Interleave(parts, sep)[2..] == Interleave(parts[1..], sep);
    }
  }

  /** A string `parts.join(" " + sep + " ")` whose parts and separator hold no
      space reads back, token by token, as the parts alternating with `sep`. */
  lemma SpacedJoinReadBack(parts: seq<string>, sep: string)
    requires 1 <= |parts|
    requires forall i :: 0 <= i < |parts| ==> ' ' !in parts[i]
    requires ' ' !in sep
    ensures Evens(Split(Join(parts, " " + sep + " "), ' ')) == parts
    ensures Odds(Split(Join(parts, " " + sep + " "), ' ')) == seq(|parts| - 1, _ => sep)
  {
    var tokens := Interleave(parts, sep);
    JoinSpaced(parts, sep);
    InterleaveHasNo(parts, sep, ' ');
    SplitJoin(tokens, ' ');
    InterleaveTokens(parts, sep);
  }

  lemma {:induction false} InterleaveHasNo(parts: seq<string>, sep: string, c: char)
    requires forall i :: 0 <= i < |parts| ==> c !in parts[i]
    requires c !in sep
    ensures forall i :: 0 <= i < |Interleave(parts, sep)| ==> c !in Interleave(parts, sep)[i]
  {
    if |parts| >= 2 {
      InterleaveHasNo(parts[1..], sep, c);
    }
  }

  /** The characters `String.prototype.trim` removes: ECMAScript WhiteSpace
      (tab, vertical tab, form feed, space, no-break space, the byte order mark
      and the space separators of Unicode category Zs) and LineTerminator. */
  predicate IsWhitespace(c: char)
  {
    c == '\t' || c == '\n' || c == '\U{000B}' || c == '\U{000C}' || c == '\r' || c == ' '
    || c == '\U{00A0}' || c == '\U{1680}' || ('\U{2000}' <= c <= '\U{200A}')
    || c == '\U{2028}' || c == '\U{2029}' || c == '\U{202F}' || c == '\U{205F}'
    || c == '\U{3000}' || c == '\U{FEFF}'
  }

  /** Drops the longest all-whitespace prefix. */
  function TrimStart(s: string): (t: string)
    ensures |t| <= |s| && t == s[|s| - |t|..]
    ensures t == [] || !IsWhitespace(t[0])
    ensures forall i :: 0 <= i < |s| - |t| ==> IsWhitespace(s[i])
  {
    if s != [] && IsWhitespace(s[0]) then TrimStart(s[1..]) else s
  }

  /** Drops the longest all-whitespace suffix. */
  function TrimEnd(s: string): (t: string)
    ensures |t| <= |s| && t == s[..|t|]
    ensures t == [] || !IsWhitespace(t[|t| - 1])
    ensures forall i :: |t| <= i < |s| ==> IsWhitespace(s[i])
  {
    if s != [] && IsWhitespace(s[|s| - 1]) then TrimEnd(s[..|s| - 1]) else s
  }

  /** `s.trim()`. */
  function Trim(s: string): string
  {
    TrimEnd(TrimStart(s))
  }

  /** The trimmed input is empty exactly when the input is all whitespace. */
  lemma TrimEmpty(s: string)
    ensures Trim(s) == [] <==> forall i :: 0 <= i < |s| ==> IsWhitespace(s[i])
  {
    var t := TrimStart(s);
    if Trim(s) == [] {
    } else {
      var u := Trim(s);
      assert !IsWhitespace(u[0]);
      assert u[0] == s[|s| - |t|];
    }
  }
}
