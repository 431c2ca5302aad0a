/**
 What the whole reader makes of the notations that the printer never writes, told by the text alone: fractions,
 exponents, hexadecimal numbers, signs, long strings, formulas, keys of any kind, calls and functions. LuaTerms
 says how the reader goes about it; here each of these texts has the value that a reader of Lua expects, or the
 one that this reader gives instead.
 */
module LuaNotation {
  import opened LuaText
  import opened LuaTokens
  import opened LuaAtoms
  import LuaReader
  import opened LuaTerms
  import opened Options

  // --------------------------------------------------------------------------------
  // Decimals
  // --------------------------------------------------------------------------------

  predicate Digits(s: string) {
    s != "" && forall i :: 0 <= i < |s| ==> IsDigit(s[i])
  }

  /** r times 10^n. */
  function Shift(r: real, n: nat): real {
    if n == 0 then r else 10.0 * Shift(r, n - 1)
  }

  lemma ScaledNext(digits: nat, exponent: int)
    ensures Scaled(digits, exponent + 1) == 10.0 * Scaled(digits, exponent)
  {
  }

  lemma {:induction false} ScaledShifts(digits: nat, exponent: int, n: nat)
    ensures Scaled(digits, exponent + n) == Shift(Scaled(digits, exponent), n)
  {
    if n > 0 {
      ScaledShifts(digits, exponent, n - 1);
      ScaledNext(digits, exponent + n - 1);
    }
  }

  lemma {:induction false} ScaledGrows(x: nat, y: nat, n: nat)
    requires x < y
    ensures Scaled(x, 0 - n) < Scaled(y, 0 - n)
  {
    if n > 0 {
      ScaledGrows(x, y, n - 1);
    }
  }

  lemma {:induction false} ScaledTenfold(x: nat, n: nat)
    requires n > 0
    ensures Scaled(10 * x, 0 - n) == Scaled(x, 1 - n)
  {
    if n > 1 {
      ScaledTenfold(x, n - 1);
    } else {
      assert Scaled(10 * x, 0 - 1) == Scaled(10 * x, 0) / 10.0;
    }
  }

  /** Digits behind a dot come to less than one. */
  lemma {:induction false} Enclosed(a: string, b: string)
    requires Digits(a) && forall i :: 0 <= i < |b| ==> IsDigit(b[i])
    ensures LuaReader.AllDigits(a + b)
    ensures DecimalOf(a) as real <= Scaled(DecimalOf(a + b), 0 - |b|)
    ensures Scaled(DecimalOf(a + b) + 1, 0 - |b|) <= DecimalOf(a) as real + 1.0
  {
    if b == "" {
      assert a + b == a;
    } else {
      var n := |b| - 1;
      Enclosed(a, b[..n]);
      var x, y := DecimalOf(a + b[..n]), DecimalOf(a + b);
      assert (a + b)[..|a + b| - 1] == a + b[..n] && (a + b)[|a + b| - 1] == b[n];
      ScaledTenfold(x, n + 1);
      ScaledTenfold(x + 1, n + 1);
      if y > 10 * x {
        ScaledGrows(10 * x, y, n + 1);
      }
      if y + 1 < 10 * (x + 1) {
        ScaledGrows(y + 1, 10 * (x + 1), n + 1);
      }
    }
  }

  lemma NoOtherNumber(s: string, k: nat)
    requires 0 < k < |s| && !IsHexDigit(s[k]) && s[k] != 'x' && s[k] != 'X'
    ensures !IsHex(s) && !LuaReader.AllDigits(s)
  {
    assert !IsDigit(s[k]);
  }

  lemma {:induction false} RunsTo(a: string, tail: string)
    requires (forall i :: 0 <= i < |a| ==> IsDigit(a[i])) && (tail != "" ==> !IsDigit(tail[0]))
    ensures RunEnd(a + tail, 0, IsDigit) == |a| && (a + tail)[..|a|] == a && (a + tail)[|a|..] == tail
  {
    var s := a + tail;
    forall k | 0 <= k < |a| ensures IsDigit(s[k]) {
      assert s[k] == a[k];
    }
    assert tail != "" ==> s[|a|] == tail[0];
    RunAcross(s, 0, IsDigit, |a|);
  }

  lemma RunFrom(s: string, before: string, b: string, tail: string)
    requires s == before + (b + tail) && Digits(b) && (tail != "" ==> !IsDigit(tail[0]))
    ensures RunEnd(s, |before|, IsDigit) == |before| + |b|
    ensures s[|before|..|before| + |b|] == b && s[|before| + |b|..] == tail
  {
    var m := |before| + |b|;
    assert s[|before|..m] == b && s[m..] == tail;
    forall k | |before| <= k < m ensures IsDigit(s[k]) {
      assert s[k] == b[k - |before|];
    }
    assert tail != "" ==> s[m] == tail[0];
    RunAcross(s, |before|, IsDigit, m);
  }

  /** Digits, a dot, digits, and what follows. */
  function Decimals(a: string, b: string, tail: string): string {
    a + "." + (b + tail)
  }

  lemma MantissaIs(s: string, a: string, b: string, tail: string, digits: string)
    requires s == Decimals(a, b, tail) && digits == a + b
    requires Digits(a) && Digits(b) && (tail != "" ==> !IsDigit(tail[0]))
    ensures Mantissa(s) == (digits, |b|, tail) && Digits(digits)
    ensures !IsHex(s) && !LuaReader.AllDigits(s)
  {
    var rest := "." + (b + tail);
    assert s == a + rest;
    RunsTo(a, rest);
    assert s == (a + ".") + (b + tail);
    RunFrom(s, a + ".", b, tail);
    assert s[|a|] == '.' && |a + "."| == |a| + 1;
    NoOtherNumber(s, |a|);
  }

  lemma WholeMantissaIs(a: string, tail: string)
    requires Digits(a) && tail != "" && (tail[0] == 'e' || tail[0] == 'E')
    ensures Mantissa(a + tail) == (a, 0, tail)
    ensures !IsHex(a + tail) && !LuaReader.AllDigits(a + tail)
  {
    RunsTo(a, tail);
    var s := a + tail;
    assert s[|a|] == tail[0] && !IsDigit(s[|a|]) && s[0] == a[0];
    assert |a| > 1 ==> s[1] == a[1];
  }

  lemma FloatFrom(s: string, digits: string, places: nat, rest: string, exponent: int, r: real)
    requires Mantissa(s) == (digits, places, rest) && !IsHex(s) && !LuaReader.AllDigits(s)
    requires Digits(digits) && ExponentPart(rest) == Some(exponent) && r == Scaled(DecimalOf(digits), exponent - places)
    ensures NumberTerm(s) == Ok(Float(r))
  {
  }

  lemma WholeDecimalIs(s: string, a: string, tail: string, exponent: int)
    requires s == a + tail
    requires Digits(a) && tail != "" && (tail[0] == 'e' || tail[0] == 'E') && ExponentPart(tail) == Some(exponent)
    ensures LuaReader.AllDigits(a) && NumberTerm(s) == Ok(Float(Scaled(DecimalOf(a), exponent)))
  {
    WholeMantissaIs(a, tail);
    FloatFrom(s, a, 0, tail, exponent, Scaled(DecimalOf(a), exponent));
  }

  lemma FractionValue(a: string, b: string) returns (r: real)
    requires Digits(a) && Digits(b)
    ensures LuaReader.AllDigits(a + b) && r == Scaled(DecimalOf(a + b), 0 - |b|)
    ensures Shift(r, |b|) == DecimalOf(a + b) as real
    ensures DecimalOf(a) as real <= r < DecimalOf(a) as real + 1.0
  {
    Enclosed(a, b);
    var d := DecimalOf(a + b);
    r := Scaled(d, 0 - |b|);
    ScaledShifts(d, 0 - |b|, |b|);
    ScaledGrows(d, d + 1, |b|);
  }

  /** A fraction lies between its whole part and the next, and times ten for each digit behind the dot it is all the digits. */
  lemma FractionReads(a: string, b: string) returns (r: real)
    requires Digits(a) && Digits(b)
    ensures NumberTerm(a + "." + b) == Ok(Float(r))
    ensures LuaReader.AllDigits(a + b) && Shift(r, |b|) == DecimalOf(a + b) as real
    ensures DecimalOf(a) as real <= r < DecimalOf(a) as real + 1.0
  {
    var s, digits := a + "." + b, a + b;
    assert s == Decimals(a, b, "");
    MantissaIs(s, a, b, "", digits);
    r := FractionValue(a, b);
    FloatFrom(s, digits, |b|, "", 0, r);
  }

  // --------------------------------------------------------------------------------
  // Exponents
  // --------------------------------------------------------------------------------

  predicate IsSign(sign: string) {
    sign == "" || sign == "+" || sign == "-"
  }

  /** An exponent with its sign, as text and as a number. */
  function Exponent(e: char, sign: string, d: string): string {
    [e] + sign + d
  }

  function Signed(sign: string, n: nat): int {
    if sign == "-" then 0 - n else n
  }

  lemma ExponentIs(e: char, sign: string, d: string)
    requires (e == 'e' || e == 'E') && IsSign(sign) && Digits(d)
    ensures LuaReader.AllDigits(d)
    ensures var tail := Exponent(e, sign, d); tail[0] == e && ExponentPart(tail) == Some(Signed(sign, DecimalOf(d)))
  {
    var s := sign + d;
    assert Exponent(e, sign, d)[1..] == s;
    SignedIs(sign, d, s);
  }

  lemma SignedIs(sign: string, d: string, s: string)
    requires s == sign + d && IsSign(sign) && Digits(d)
    ensures LuaReader.AllDigits(d) && ExponentOf(s) == Some(Signed(sign, DecimalOf(d)))
  {
    if sign == "" {
      assert s == d;
    } else {
      assert s[0] == sign[0] && s[1..] == d;
    }
  }

  lemma RaisedValue(digits: nat, exponent: int, sign: string, n: nat) returns (v: real, r: real)
    ensures v == Scaled(digits, exponent) && r == Scaled(digits, Signed(sign, n) + exponent)
    ensures sign != "-" ==> r == Shift(v, n)
    ensures sign == "-" ==> Shift(r, n) == v
  {
    v, r := Scaled(digits, exponent), Scaled(digits, Signed(sign, n) + exponent);
    ScaledShifts(digits, if sign == "-" then exponent - n else exponent, n);
  }

  /** Two decimals with the same digits, one without and one with an exponent. */
  lemma SameMantissa(x: string, s: string, a: string, b: string, tail: string)
    requires x == a + "." + b && s == x + tail && Digits(a) && Digits(b) && tail != "" && !IsDigit(tail[0])
    ensures Mantissa(s) == (Mantissa(x).0, Mantissa(x).1, tail) && Mantissa(x).2 == "" && Digits(Mantissa(x).0)
    ensures !IsHex(x) && !LuaReader.AllDigits(x) && !IsHex(s) && !LuaReader.AllDigits(s)
  {
    assert x == Decimals(a, b, "") && s == Decimals(a, b, tail);
    MantissaIs(x, a, b, "", a + b);
    MantissaIs(s, a, b, tail, a + b);
  }

  lemma RaisedReads(x: string, s: string, digits: string, places: nat, tail: string, sign: string, n: nat)
    returns (v: real, r: real)
    requires Mantissa(x) == (digits, places, "") && Mantissa(s) == (digits, places, tail) && Digits(digits)
    requires !IsHex(x) && !LuaReader.AllDigits(x) && !IsHex(s) && !LuaReader.AllDigits(s)
    requires ExponentPart(tail) == Some(Signed(sign, n))
    ensures NumberTerm(x) == Ok(Float(v)) && NumberTerm(s) == Ok(Float(r))
    ensures sign != "-" ==> r == Shift(v, n)
    ensures sign == "-" ==> Shift(r, n) == v
  {
    v, r := RaisedValue(DecimalOf(digits), 0 - places, sign, n);
    FloatFrom(x, digits, places, "", 0, v);
    FloatFrom(s, digits, places, tail, Signed(sign, n), r);
  }

  /** An exponent n behind a number multiplies it by 10^n, and -n divides it. */
  lemma ExponentReads(x: string, s: string, a: string, b: string, e: char, sign: string, d: string) returns (v: real, r: real)
    requires x == a + "." + b && s == x + Exponent(e, sign, d)
    requires Digits(a) && Digits(b) && (e == 'e' || e == 'E') && IsSign(sign) && Digits(d)
    ensures NumberTerm(x) == Ok(Float(v)) && NumberTerm(s) == Ok(Float(r))
    ensures LuaReader.AllDigits(d)
    ensures sign != "-" ==> r == Shift(v, DecimalOf(d))
    ensures sign == "-" ==> Shift(r, DecimalOf(d)) == v
  {
    var tail := Exponent(e, sign, d);
    ExponentIs(e, sign, d);
    SameMantissa(x, s, a, b, tail);
    v, r := RaisedReads(x, s, Mantissa(x).0, Mantissa(x).1, tail, sign, DecimalOf(d));
  }

  /** The same without a fraction. */
  lemma WholeExponentReads(s: string, a: string, e: char, sign: string, d: string) returns (r: real)
    requires s == a + Exponent(e, sign, d)
    requires Digits(a) && (e == 'e' || e == 'E') && IsSign(sign) && Digits(d)
    ensures NumberTerm(s) == Ok(Float(r)) && LuaReader.AllDigits(d) && LuaReader.AllDigits(a)
    ensures sign != "-" ==> r == Shift(DecimalOf(a) as real, DecimalOf(d))
    ensures sign == "-" ==> Shift(r, DecimalOf(d)) == DecimalOf(a) as real
  {
    ExponentIs(e, sign, d);
    WholeDecimalIs(s, a, Exponent(e, sign, d), Signed(sign, DecimalOf(d)));
    var v;
    v, r := RaisedValue(DecimalOf(a), 0, sign, DecimalOf(d));
  }

  // --------------------------------------------------------------------------------
  // Hexadecimal and whole numbers
  // --------------------------------------------------------------------------------

  /** One hexadecimal digit, in small letters or large ones. */
  function HexChar(n: nat, large: bool): char
    requires n < 16
  {
    if n < 10 then "0123456789"[n] else if large then "ABCDEF"[n - 10] else "abcdef"[n - 10]
  }

  function Hexadecimal(n: nat, large: bool): string {
    if n < 16 then [HexChar(n, large)] else Hexadecimal(n / 16, large) + [HexChar(n % 16, large)]
  }

  lemma HexCharRead(n: nat, large: bool)
    requires n < 16
    ensures IsHexDigit(HexChar(n, large)) && HexDigit(HexChar(n, large)) == n
  {
  }

  lemma {:induction false} HexRead(n: nat, large: bool)
    ensures Hexadecimal(n, large) != "" && (forall i :: 0 <= i < |Hexadecimal(n, large)| ==> IsHexDigit(Hexadecimal(n, large)[i]))
    ensures HexOf(Hexadecimal(n, large)) == n
  {
    HexCharRead(n % 16, large);
    var h := Hexadecimal(n, large);
    if n < 16 {
      assert h[..0] == "" && HexOf("") == 0;
    } else {
      HexRead(n / 16, large);
      assert h[..|h| - 1] == Hexadecimal(n / 16, large);
    }
  }

  /** Every hexadecimal number is read as the number it writes. */
  lemma HexadecimalReads(n: nat, large: bool, x: char)
    requires x == 'x' || x == 'X'
    ensures NumberTerm("0" + [x] + Hexadecimal(n, large)) == Ok(Term.Int(n))
  {
    HexRead(n, large);
    var h := Hexadecimal(n, large);
    var s := "0" + [x] + h;
    assert s[2..] == h;
    forall i | 2 <= i < |s| ensures IsHexDigit(s[i]) {
      assert s[i] == h[i - 2];
    }
  }

  /** Whole numbers are read as such, but for a leading zero before anything else than zeros, which int refuses. */
  lemma WholeReads(s: string)
    requires Digits(s)
    ensures LuaReader.AllDigits(s)
    ensures NumberTerm(s) == if |s| > 1 && s[0] == '0' && DecimalOf(s) > 0 then Err(ValueError) else Ok(Term.Int(DecimalOf(s)))
  {
    assert |s| > 1 ==> IsDigit(s[1]);
  }

  // --------------------------------------------------------------------------------
  // Numbers in a text
  // --------------------------------------------------------------------------------

  /** A text that is one number is one token. */
  lemma NumberAlone(s: string)
    requires s != "" && IsDigit(s[0]) && NumberEnd(s) == |s|
    ensures Tokenize(s) == Ok([Token(Kind.Number, s)])
  {
    assert LongEnd(s, 0).None?;
    assert s + "" == s && Pattern()(s) == Some(Match(Kind.Number, |s|));
    TakeToken(Pattern(), Kind.Number, s, "");
    assert [Token(Kind.Number, s)] + [] == [Token(Kind.Number, s)];
  }

  lemma FractionAlone(a: string, b: string)
    requires Digits(a) && Digits(b)
    ensures Tokenize(a + "." + b) == Ok([Token(Kind.Number, a + "." + b)])
  {
    var s := a + "." + b;
    forall k | 0 <= k < |a| ensures IsDigit(s[k]) {
      assert s[k] == a[k];
    }
    forall k | |a| < k < |s| ensures IsDigit(s[k]) {
      assert s[k] == b[k - |a| - 1];
    }
    RunAcross(s, 1, IsDigit, |a|);
    RunAcross(s, |a| + 2, IsDigit, |s|);
    NumberAlone(s);
  }

  lemma HexadecimalAlone(n: nat, large: bool, x: char)
    requires x == 'x' || x == 'X'
    ensures var s := "0" + [x] + Hexadecimal(n, large); Tokenize(s) == Ok([Token(Kind.Number, s)])
  {
    HexRead(n, large);
    var h := Hexadecimal(n, large);
    var s := "0" + [x] + h;
    forall k | 2 <= k < |s| ensures IsHexDigit(s[k]) {
      assert s[k] == h[k - 2];
    }
    RunAcross(s, 3, IsHexDigit, |s|);
    NumberAlone(s);
  }

  lemma NumberIsPlain(src: Source, i: nat)
    requires i < |src.tokens| && src.tokens[i].kind.Number? && src.tokens[i].text != "" && IsDigit(src.tokens[i].text[0])
    ensures !src.Sees(i, "function")
    ensures PlainAt(src, i) == match NumberTerm(src.tokens[i].text) case Ok(v) => Ok((v, i + 1)) case Err(e) => Err(e)
  {
  }

  lemma TermStops(src: Source, i: nat, v: Term, j: nat)
    requires i < |src.tokens| && !src.Sees(i, "function") && PlainAt(src, i) == Ok((v, j)) && j == |src.tokens|
    ensures TermAt(src, i) == Ok((v, j))
  {
    assert !OperatesAt(src, j);
  }

  /** A number that is the last token has its value, */
  lemma LastNumberReads(src: Source, i: nat)
    requires i + 1 == |src.tokens| && src.tokens[i].kind.Number? && src.tokens[i].text != "" && IsDigit(src.tokens[i].text[0])
    ensures TermAt(src, i) == match NumberTerm(src.tokens[i].text) case Ok(v) => Ok((v, i + 1)) case Err(e) => Err(e)
  {
    NumberIsPlain(src, i);
    if NumberTerm(src.tokens[i].text).Ok? {
      TermStops(src, i, NumberTerm(src.tokens[i].text).value, i + 1);
    }
  }

  /** and a sign before it turns that round. */
  lemma SignedNumberReads(src: Source, number: Options.Result<Term, Fault>)
    requires |src.tokens| == 2 && src.tokens[0] == Token(Op, "-") && src.tokens[1].kind.Number?
    requires src.tokens[1].text != "" && IsDigit(src.tokens[1].text[0]) && number == NumberTerm(src.tokens[1].text)
    ensures TermAt(src, 0) == match number
                              case Ok(Int(i)) => Ok((Term.Int(0 - i), 2))
                              case Ok(Float(r)) => Ok((Float(0.0 - r), 2))
                              case Ok(Bool(b)) => Ok((Term.Int(if b then 0 - 1 else 0), 2))
                              case Ok(_) => Err(TypeError)
                              case Err(e) => Err(e)
  {
    LastNumberReads(src, 1);
    MinusReads(src);
  }

  lemma MinusReads(src: Source)
    requires |src.tokens| == 2 && src.tokens[0] == Token(Op, "-") && src.tokens[1].kind.Number?
    ensures TermAt(src, 1).Err? ==> TermAt(src, 0) == TermAt(src, 1)
    ensures TermAt(src, 1).Ok? ==>
              TermAt(src, 0) == match TermAt(src, 1).value.0
                                case Int(i) => Ok((Term.Int(0 - i), 2))
                                case Float(r) => Ok((Float(0.0 - r), 2))
                                case Bool(b) => Ok((Term.Int(if b then 0 - 1 else 0), 2))
                                case _ => Err(TypeError)
  {
    assert PlainAt(src, 0) == Minus(TermAt(src, 1));
    if PlainAt(src, 0).Ok? {
      TermStops(src, 0, PlainAt(src, 0).value.0, 2);
    }
  }

  // --------------------------------------------------------------------------------
  // Formulas
  // --------------------------------------------------------------------------------

  /** Two strings are joined by two dots; any other operator, or operand, makes a formula of the two sides in their order. */
  lemma FormulaReads(src: Source, i: nat, v: Term, j: nat, right: Term, k: nat)
    requires i <= |src.tokens| && !src.Sees(i, "function") && PlainAt(src, i) == Ok((v, j))
    requires j < |src.tokens| && src.tokens[j].text in {"..", "+", "-", "*", "/"}
    requires TermAt(src, j + 1) == Ok((right, k)) && (k < |src.tokens| ==> src.tokens[k].text !in {"..", "+", "-", "*", "/"})
    ensures TermAt(src, i)
         == Ok((if src.tokens[j].text == ".." && v.Str? && right.Str? then Term.Str(v.s + right.s)
                else Formula(v, src.tokens[j].text, right), k))
  {
    assert OperatesAt(src, j) && !OperatesAt(src, k);
    var joined := LuaTerms.Joined(v, src.tokens[j].text, right);
    assert ContinueAt(src, joined, k) == Ok((joined, k));
    assert ContinueAt(src, v, j) == ContinueAt(src, joined, k);
  }

  /** The right side takes all that follows, so that `a - b - c` is a formula of a and of `b - c`. */
  lemma RightToLeft(src: Source, a: Term, b: Term, c: Term)
    requires |src.tokens| == 5 && src.tokens[1].text == "-" && src.tokens[3].text == "-"
    requires !src.Sees(0, "function") && !src.Sees(2, "function") && !src.Sees(4, "function")
    requires PlainAt(src, 0) == Ok((a, 1)) && PlainAt(src, 2) == Ok((b, 3)) && PlainAt(src, 4) == Ok((c, 5))
    ensures TermAt(src, 0) == Ok((Formula(a, "-", Formula(b, "-", c)), 5))
  {
    FormulaReads(src, 2, b, 3, c, 5);
    FormulaReads(src, 0, a, 1, Formula(b, "-", c), 5);
  }

  // --------------------------------------------------------------------------------
  // Keys
  // --------------------------------------------------------------------------------

  /** Numbers are one key by value, truth values among them; code, formulas and references are keys of their own. */
  lemma KeysAlike(a: Term, b: Term)
    ensures a.Int? && b.Int? ==> (SameKey(a, b) <==> a.i == b.i)
    ensures a.Float? && b.Int? ==> (SameKey(a, b) <==> a.r == b.i as real)
    ensures a.Float? && b.Float? ==> (SameKey(a, b) <==> a.r == b.r)
    ensures a.Bool? && b.Int? ==> (SameKey(a, b) <==> b.i == if a.b then 1 else 0)
    ensures a.Str? && b.Str? ==> (SameKey(a, b) <==> a.s == b.s)
    ensures a.Str? && !b.Str? ==> !SameKey(a, b)
    ensures a.Nil? ==> (SameKey(a, b) <==> b.Nil?)
    ensures a.Ref? || a.Code? || a.Formula? || a.Table? ==> !SameKey(a, b)
    ensures SameKey(a, b) <==> SameKey(b, a)
  {
  }

  /** A table for a key is an error, but only behind its value. */
  lemma TableKeyFails(src: Source, i: nat, k: Term, j: nat)
    requires i < |src.tokens| && TermAt(src, i + 1) == Ok((k, j)) && k.Table? && j + 2 <= |src.tokens|
    requires src.tokens[j].text == "]" && src.tokens[j + 1].text == "="
    ensures KeyedAt(src, i) == match TermAt(src, j + 2) case Ok(_) => Err(TypeError) case Err(e) => Err(e)
  {
  }

  // --------------------------------------------------------------------------------
  // Long strings
  // --------------------------------------------------------------------------------

  predicate Level(eqs: string) {
    forall i :: 0 <= i < |eqs| ==> eqs[i] == '='
  }

  function Opening(eqs: string): string {
    "[" + eqs + "["
  }

  function Closing(eqs: string): string {
    "]" + eqs + "]"
  }

  lemma OpeningRuns(eqs: string, s: string)
    requires Level(eqs) && Opening(eqs) <= s
    ensures RunEnd(s, 1, c => c == '=') == |eqs| + 1 && s[0] == '[' && s[|eqs| + 1] == '[' && s[1..|eqs| + 1] == eqs
  {
    var open := Opening(eqs);
    forall k | 0 <= k < |open| ensures s[k] == open[k] {
      assert s[..|open|][k] == open[k];
    }
    RunAcross(s, 1, c => c == '=', |eqs| + 1);
  }

  /** A long string is what stands between its brackets, without a line feed right behind the first. */
  lemma LongBodyIs(eqs: string, body: string)
    requires Level(eqs)
    ensures LongBody(Opening(eqs) + body + Closing(eqs)) == if body != "" && body[0] == '\n' then body[1..] else body
  {
    var open, close := Opening(eqs), Closing(eqs);
    var s := open + body + close;
    assert s == open + (body + close);
    OpeningRuns(eqs, s);
    assert |open| == |close| == |eqs| + 2;
    assert s[|open|..|open| + |body|] == body;
    if body != "" {
      assert s[|open|] == body[0];
      assert s[|open| + 1..|open| + |body|] == body[1..];
    } else {
      assert s[|open|] == close[0];
    }
  }

  predicate ClosesAt(s: string, k: nat, close: string) {
    k + |close| <= |s| && s[k..k + |close|] == close
  }

  lemma {:induction false} CloseFound(s: string, i: nat, close: string, end: nat)
    requires close != "" && i + |close| <= end <= |s| && ClosesAt(s, end - |close|, close)
    requires forall k: nat :: i <= k < end - |close| ==> !ClosesAt(s, k, close)
    ensures CloseFrom(s, i, close) == Some(end)
    decreases end - i
  {
    if i + |close| < end {
      assert !ClosesAt(s, i, close);
      CloseFound(s, i + 1, close, end);
    }
  }

  lemma LongEndIs(s: string, eqs: string)
    requires Level(eqs) && Opening(eqs) <= s && |s| >= 2 * |eqs| + 4 && ClosesAt(s, |s| - |eqs| - 2, Closing(eqs))
    requires forall k: nat :: |eqs| + 2 <= k < |s| - |eqs| - 2 ==> !ClosesAt(s, k, Closing(eqs))
    ensures LongEnd(s, 0) == Some(|s|)
  {
    OpeningRuns(eqs, s);
    CloseFound(s, |eqs| + 2, Closing(eqs), |s|);
  }

  lemma LongStringAlone(s: string)
    requires s != "" && s[0] == '[' && LongEnd(s, 0) == Some(|s|)
    ensures Tokenize(s) == Ok([Token(LongString, s)])
  {
    assert s + "" == s && Pattern()(s) == Some(Match(LongString, |s|));
    TakeToken(Pattern(), LongString, s, "");
    assert [Token(LongString, s)] + [] == [Token(LongString, s)];
  }

  /** A text that is one long string, in which the closing bracket stands nowhere earlier, is one token, and is read as its body. */
  lemma LongStringReads(eqs: string, body: string, src: Source)
    requires Level(eqs) && src.text == Opening(eqs) + body + Closing(eqs) && Tokenize(src.text) == Ok(src.tokens)
    requires forall k: nat :: |eqs| + 2 <= k < |eqs| + 2 + |body| ==> !ClosesAt(src.text, k, Closing(eqs))
    ensures src.tokens == [Token(LongString, src.text)]
    ensures TermAt(src, 0) == Ok((Term.Str(if body != "" && body[0] == '\n' then body[1..] else body), 1))
  {
    var s := src.text;
    LongBodyIs(eqs, body);
    LongTextIs(s, eqs, body);
    LongEndIs(s, eqs);
    LongStringAlone(s);
    LongStringAt(src, s);
  }

  lemma LongTextIs(s: string, eqs: string, body: string)
    requires s == Opening(eqs) + body + Closing(eqs)
    ensures Opening(eqs) <= s && |s| == 2 * |eqs| + 4 + |body| && ClosesAt(s, |s| - |eqs| - 2, Closing(eqs)) && s[0] == '['
  {
    assert s[|s| - |eqs| - 2..|s|] == Closing(eqs);
    assert s[..|eqs| + 2] == Opening(eqs);
  }

  lemma LongStringAt(src: Source, s: string)
    requires src.tokens == [Token(LongString, s)] && s != "" && s[0] == '['
    ensures TermAt(src, 0) == Ok((Term.Str(LongBody(s)), 1))
  {
    assert !OperatesAt(src, 1);
  }
}
