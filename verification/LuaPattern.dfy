/**
 The regular expression of the tokenizer in harness/build_quest_log.py, alternative by alternative, by what it accepts:
 numbers and operators are the longest there are, a quoted literal ends at the first quote with an even number of
 backslashes before it, and a long bracket at the first bracket of its own level.
 */
module LuaPattern {
  import opened LuaText
  import opened LuaTokens
  import opened Options

  /** The characters from i up to j are all of a kind. */
  predicate All(s: string, i: nat, j: nat, p: char -> bool) {
    i <= j <= |s| && forall k :: i <= k < j ==> p(s[k])
  }

  /** A run goes on as far as it can. */
  lemma {:induction false} RunEndExactly(s: string, i: nat, p: char -> bool)
    requires i <= |s|
    ensures All(s, i, RunEnd(s, i, p), p)
    ensures RunEnd(s, i, p) < |s| ==> !p(s[RunEnd(s, i, p)])
    decreases |s| - i
  {
    if i < |s| && p(s[i]) {
      RunEndExactly(s, i + 1, p);
    }
  }

  // --------------------------------------------------------------------------------
  // Numbers
  // --------------------------------------------------------------------------------

  predicate Digits(s: string, i: nat, j: nat) {
    i < j && All(s, i, j, IsDigit)
  }

  predicate HexNumeral(s: string, n: nat) {
    3 <= n <= |s| && s[0] == '0' && (s[1] == 'x' || s[1] == 'X') && All(s, 2, n, IsHexDigit)
  }

  predicate Exponent(s: string, j: nat, n: nat) {
    && j < n <= |s| && (s[j] == 'e' || s[j] == 'E')
    && (Digits(s, j + 1, n) || (j + 1 < n && (s[j + 1] == '+' || s[j + 1] == '-') && Digits(s, j + 2, n)))
  }

  /** Digits up to i, a fraction up to j if it is further on, and an exponent up to n if that is further on still. */
  predicate DecimalNumeral(s: string, n: nat, i: nat, j: nat) {
    && i <= j <= n <= |s| && Digits(s, 0, i)
    && (j == i || (s[i] == '.' && Digits(s, i + 1, j)))
    && (n == j || Exponent(s, j, n))
  }

  /** The first n characters are a number. */
  ghost predicate Numeral(s: string, n: nat) {
    HexNumeral(s, n) || exists i: nat, j: nat :: DecimalNumeral(s, n, i, j)
  }

  lemma HexExactly(c: char)
    ensures IsHexDigit(c) <==> c in "0123456789abcdefABCDEF"
  {
  }

  /** The end of an exponent that opens at `point`, or `point` itself. */
  function ExponentEnd(s: string, point: nat): nat
    requires point <= |s|
  {
    if point < |s| && (s[point] == 'e' || s[point] == 'E') then
      var sign := if point + 1 < |s| && (s[point + 1] == '-' || s[point + 1] == '+') then point + 2 else point + 1;
      if sign < |s| && IsDigit(s[sign]) then RunEnd(s, sign + 1, IsDigit) else point
    else point
  }

  lemma ExponentIsLongest(s: string, point: nat)
    requires point <= |s|
    ensures ExponentEnd(s, point) == point || Exponent(s, point, ExponentEnd(s, point))
    ensures forall m: nat :: Exponent(s, point, m) ==> m <= ExponentEnd(s, point)
  {
    if point < |s| && (s[point] == 'e' || s[point] == 'E') {
      var sign := if point + 1 < |s| && (s[point + 1] == '-' || s[point + 1] == '+') then point + 2 else point + 1;
      if sign < |s| && IsDigit(s[sign]) {
        RunEndExactly(s, sign + 1, IsDigit);
      }
    }
  }

  /** Where the digits, the fraction and the exponent of a decimal number end, as the pattern takes them. */
  lemma DecimalTaken(s: string, whole: nat, point: nat)
    requires s != "" && IsDigit(s[0]) && whole == RunEnd(s, 1, IsDigit)
    requires point == if whole + 1 < |s| && s[whole] == '.' && IsDigit(s[whole + 1]) then RunEnd(s, whole + 2, IsDigit) else whole
    ensures DecimalNumeral(s, ExponentEnd(s, point), whole, point)
  {
    RunEndExactly(s, 1, IsDigit);
    if point > whole {
      RunEndExactly(s, whole + 2, IsDigit);
    }
    ExponentIsLongest(s, point);
  }

  /** Any other decimal number at the start has its digits and its fraction no further, and an exponent only there. */
  lemma DecimalWithin(s: string, whole: nat, point: nat, n: nat, i: nat, j: nat)
    requires whole <= point <= |s| && Digits(s, 0, whole) && (whole < |s| ==> !IsDigit(s[whole]))
    requires if whole + 1 < |s| && s[whole] == '.' && IsDigit(s[whole + 1])
             then Digits(s, whole + 1, point) && (point < |s| ==> !IsDigit(s[point])) else point == whole
    requires DecimalNumeral(s, n, i, j)
    ensures n <= point || Exponent(s, point, n)
  {
    assert i <= whole;
    if j > i {
      assert i == whole && IsDigit(s[i + 1]);
      assert j <= point;
    } else if n > j {
      assert i == whole;
    }
  }

  /** The prefix 0x leaves a decimal number nothing but its zero. */
  lemma HexIsLongest(s: string)
    requires |s| >= 3 && s[0] == '0' && (s[1] == 'x' || s[1] == 'X') && IsHexDigit(s[2])
    ensures HexNumeral(s, NumberEnd(s))
    ensures forall n: nat :: Numeral(s, n) ==> n <= NumberEnd(s)
  {
    RunEndExactly(s, 3, IsHexDigit);
    forall n: nat, i: nat, j: nat | DecimalNumeral(s, n, i, j) ensures n <= 1 {
      assert i == 1;
    }
  }

  lemma DecimalBound(s: string, whole: nat, point: nat, end: nat)
    requires s != "" && IsDigit(s[0]) && whole == RunEnd(s, 1, IsDigit)
    requires point == if whole + 1 < |s| && s[whole] == '.' && IsDigit(s[whole + 1]) then RunEnd(s, whole + 2, IsDigit) else whole
    requires point <= end && forall m: nat :: Exponent(s, point, m) ==> m <= end
    ensures forall n: nat, i: nat, j: nat :: DecimalNumeral(s, n, i, j) ==> n <= end
  {
    RunEndExactly(s, 1, IsDigit);
    if point > whole {
      RunEndExactly(s, whole + 2, IsDigit);
    }
    forall n: nat, i: nat, j: nat | DecimalNumeral(s, n, i, j) ensures n <= end {
      DecimalWithin(s, whole, point, n, i, j);
    }
  }

  lemma DecimalIsLongest(s: string)
    requires s != "" && IsDigit(s[0]) && !(|s| >= 3 && s[0] == '0' && (s[1] == 'x' || s[1] == 'X') && IsHexDigit(s[2]))
    ensures exists i: nat, j: nat :: DecimalNumeral(s, NumberEnd(s), i, j)
    ensures forall n: nat, i: nat, j: nat :: DecimalNumeral(s, n, i, j) ==> n <= NumberEnd(s)
  {
    var whole := RunEnd(s, 1, IsDigit);
    var point := if whole + 1 < |s| && s[whole] == '.' && IsDigit(s[whole + 1]) then RunEnd(s, whole + 2, IsDigit) else whole;
    DecimalTaken(s, whole, point);
    ExponentIsLongest(s, point);
    assert NumberEnd(s) == ExponentEnd(s, point);
    DecimalBound(s, whole, point, NumberEnd(s));
  }

  /** A number ends where the longest one does that stands there. */
  lemma NumberIsLongest(s: string)
    requires s != "" && IsDigit(s[0])
    ensures Numeral(s, NumberEnd(s))
    ensures forall n: nat :: Numeral(s, n) ==> n <= NumberEnd(s)
  {
    if |s| >= 3 && s[0] == '0' && (s[1] == 'x' || s[1] == 'X') && IsHexDigit(s[2]) {
      HexIsLongest(s);
    } else {
      DecimalIsLongest(s);
      assert forall n: nat :: !HexNumeral(s, n);
    }
  }

  // --------------------------------------------------------------------------------
  // Operators
  // --------------------------------------------------------------------------------

  predicate Operator(t: string) {
    || t in {"...", "..", "==", "~=", "<=", ">="}
    || t in {"{", "}", "[", "]", "=", ",", ";", ".", "(", ")", "+", "-", "*", "/", "%", "#", "<", ">", ":", "^"}
  }

  /** An operator is the longest one that stands there. */
  lemma OperatorIsLongest(s: string)
    requires s != ""
    ensures OperatorEnd(s) <= |s| && (OperatorEnd(s) > 0 ==> Operator(s[..OperatorEnd(s)]))
    ensures forall n :: OperatorEnd(s) < n <= |s| ==> !Operator(s[..n])
  {
    assert s[..1] == [s[0]];
    if |s| >= 2 {
      assert s[..2] == [s[0], s[1]];
    }
    if |s| >= 3 {
      assert s[..3] == [s[0], s[1], s[2]];
    }
  }

  // --------------------------------------------------------------------------------
  // Quoted literals
  // --------------------------------------------------------------------------------

  /** How many backslashes stand right before k, none of them before i. */
  function Slashes(s: string, i: nat, k: nat): nat
    requires i <= k <= |s|
  {
    if i < k && s[k - 1] == '\\' then 1 + Slashes(s, i, k - 1) else 0
  }

  lemma {:induction false} SlashesPast(s: string, i: nat, k: nat)
    requires i < k <= |s|
    ensures s[i] != '\\' ==> Slashes(s, i, k) == Slashes(s, i + 1, k)
    ensures s[i] == '\\' && i + 2 <= k ==> Slashes(s, i, k) % 2 == Slashes(s, i + 2, k) % 2
    decreases k
  {
    assert Slashes(s, i, i) == 0 && Slashes(s, i, i + 1) == if s[i] == '\\' then 1 else 0;
    if s[k - 1] == '\\' && i + 1 < k {
      SlashesPast(s, i, k - 1);
      if k == i + 2 {
        assert Slashes(s, k, k) == 0;
      }
    }
  }

  /** A quoted literal ends at its first quote behind an even number of backslashes. */
  lemma {:induction false} QuoteExactly(s: string, quote: char, i: nat)
    requires i <= |s| && quote != '\\'
    ensures match QuoteEnd(s, quote, i)
            case Some(end) =>
              && s[end - 1] == quote && Slashes(s, i, end - 1) % 2 == 0
              && forall k :: i <= k < end - 1 && s[k] == quote ==> Slashes(s, i, k) % 2 == 1
            case None => forall k :: i <= k < |s| && s[k] == quote ==> Slashes(s, i, k) % 2 == 1
    decreases |s| - i
  {
    if i < |s| {
      forall k | i < k <= |s| ensures s[i] != '\\' ==> Slashes(s, i, k) == Slashes(s, i + 1, k)
                              ensures s[i] == '\\' && i + 2 <= k ==> Slashes(s, i, k) % 2 == Slashes(s, i + 2, k) % 2 {
        SlashesPast(s, i, k);
      }
      if s[i] == '\\' {
        if i + 2 <= |s| {
          QuoteExactly(s, quote, i + 2);
          assert Slashes(s, i, i) == 0 && Slashes(s, i, i + 1) == 1;
        }
      } else if s[i] != quote {
        QuoteExactly(s, quote, i + 1);
      } else {
        assert Slashes(s, i, i) == 0;
      }
    }
  }

  // --------------------------------------------------------------------------------
  // Long brackets, comments and runs
  // --------------------------------------------------------------------------------

  /** `[`, as many equals signs as the level says, `[`. */
  predicate Opens(s: string, i: nat, level: nat) {
    i + level + 2 <= |s| && s[i] == '[' && s[i + 1 + level] == '[' && forall k :: i + 1 <= k < i + 1 + level ==> s[k] == '='
  }

  /** The same with closing brackets, up to `end` and not before `from`. */
  predicate Closes(s: string, from: nat, end: nat, level: nat) {
    && from + level + 2 <= end <= |s| && s[end - level - 2] == ']' && s[end - 1] == ']'
    && forall k :: end - level - 1 <= k < end - 1 ==> s[k] == '='
  }

  predicate LongBracket(s: string, i: nat, level: nat, end: nat) {
    Opens(s, i, level) && Closes(s, i + level + 2, end, level)
  }

  /** The closing bracket of a level as text. */
  ghost predicate CloseText(close: string, level: nat) {
    |close| == level + 2 && close[0] == ']' && close[level + 1] == ']' && forall k :: 1 <= k <= level ==> close[k] == '='
  }

  lemma ClosesThere(s: string, from: nat, close: string, level: nat)
    requires CloseText(close, level) && from + level + 2 <= |s|
    ensures s[from..from + level + 2] == close <==> Closes(s, from, from + level + 2, level)
  {
    var part := s[from..from + level + 2];
    assert part[0] == s[from] && part[level + 1] == s[from + level + 1];
    forall k | 1 <= k <= level ensures part[k] == s[from + k] {
    }
    if Closes(s, from, from + level + 2, level) {
      forall k | 0 <= k < |part| ensures part[k] == close[k] {
        if 1 <= k <= level {
          assert s[from + k] == '=';
        }
      }
    } else if part == close {
      forall k | from + 1 <= k < from + level + 1 ensures s[k] == '=' {
        assert part[k - from] == close[k - from];
      }
    }
  }

  lemma {:induction false} CloseIsFirst(s: string, from: nat, close: string, level: nat)
    requires from <= |s| && CloseText(close, level)
    ensures match CloseFrom(s, from, close)
            case Some(end) => Closes(s, from, end, level) && forall e: nat :: Closes(s, from, e, level) ==> end <= e
            case None => forall e: nat :: !Closes(s, from, e, level)
    decreases |s| - from
  {
    if from + |close| <= |s| {
      ClosesThere(s, from, close, level);
      if s[from..from + |close|] != close {
        CloseIsFirst(s, from + 1, close, level);
        forall e: nat | Closes(s, from, e, level) ensures Closes(s, from + 1, e, level) {
        }
      }
    }
  }

  lemma LevelRead(s: string, i: nat, level: nat)
    requires i < |s| && s[i] == '[' && level == RunEnd(s, i + 1, c => c == '=') - (i + 1)
    ensures Opens(s, i, level) <==> i + level + 1 < |s| && s[i + level + 1] == '['
    ensures forall other: nat :: Opens(s, i, other) ==> Opens(s, i, level) && other == level
  {
    var j := i + 1 + level;
    RunEndExactly(s, i + 1, c => c == '=');
    forall other: nat | Opens(s, i, other) ensures Opens(s, i, level) && other == level {
    }
  }

  lemma BracketIs(s: string, i: nat, level: nat, from: nat, end: Option<nat>)
    requires Opens(s, i, level) && from == i + level + 2 && forall other: nat :: Opens(s, i, other) ==> other == level
    requires match end
             case Some(n) => Closes(s, from, n, level) && forall e: nat :: Closes(s, from, e, level) ==> n <= e
             case None => forall e: nat :: !Closes(s, from, e, level)
    ensures match end
            case Some(n) => LongBracket(s, i, level, n) && forall l: nat, e: nat :: LongBracket(s, i, l, e) ==> n <= e
            case None => forall l: nat, e: nat :: !LongBracket(s, i, l, e)
  {
  }

  /** A long bracket opens with two brackets of one level and ends with the first closing ones of that level. */
  lemma LongExactly(s: string, i: nat)
    requires i <= |s|
    ensures match LongEnd(s, i)
            case Some(end) => (exists level: nat :: LongBracket(s, i, level, end))
                              && forall level: nat, e: nat :: LongBracket(s, i, level, e) ==> end <= e
            case None => forall level: nat, e: nat :: !LongBracket(s, i, level, e)
  {
    if i < |s| && s[i] == '[' {
      var j := RunEnd(s, i + 1, c => c == '=');
      LevelRead(s, i, j - (i + 1));
      if j < |s| && s[j] == '[' {
        LevelIsText(s, i, j);
        CloseIsFirst(s, j + 1, "]" + s[i + 1..j] + "]", j - (i + 1));
        BracketIs(s, i, j - (i + 1), j + 1, LongEnd(s, i));
      }
    }
  }

  lemma LevelIsText(s: string, i: nat, j: nat)
    requires i < j < |s| && j == RunEnd(s, i + 1, c => c == '=')
    ensures CloseText("]" + s[i + 1..j] + "]", j - (i + 1))
  {
    RunEndExactly(s, i + 1, c => c == '=');
  }

  /** A comment that is no long one goes up to the end of its line. */
  lemma CommentExactly(s: string)
    requires |s| >= 2 && LongEnd(s, 2).None?
    ensures var n := CommentMatch(s).length;
            2 <= n <= |s| && (forall k :: 2 <= k < n ==> s[k] != '\n') && (n < |s| ==> s[n] == '\n')
  {
    RunEndExactly(s, 2, c => c != '\n');
  }

  // --------------------------------------------------------------------------------
  // The alternatives together
  // --------------------------------------------------------------------------------

  /** At most one alternative matches, but for comments, which come before the operator `-`, and long strings, before `[`. */
  lemma KindExactly(s: string)
    requires s != ""
    ensures var m := MatchAt(s);
            var comment := |s| >= 2 && s[0] == '-' && s[1] == '-';
            var long := LongEnd(s, 0).Some?;
            && (IsSpace(s[0]) <==> m.Some? && m.value.kind.Space?)
            && (comment <==> m.Some? && m.value.kind.Comment?)
            && (long <==> m.Some? && m.value.kind.LongString?)
            && ((s[0] == '\"' || s[0] == '\'') && QuoteEnd(s, s[0], 1).Some? <==> m.Some? && m.value.kind.StringLit?)
            && (IsDigit(s[0]) <==> m.Some? && m.value.kind.Number?)
            && (IsNameStart(s[0]) <==> m.Some? && m.value.kind.Name?)
            && (OperatorEnd(s) > 0 && !comment && !long <==> m.Some? && m.value.kind.Op?)
  {
  }

  /** White space and names are the longest that stand there. */
  lemma RunsExactly(s: string)
    requires s != "" && MatchAt(s).Some?
    ensures var m := MatchAt(s).value;
            && (m.kind.Space? ==> All(s, 0, m.length, IsSpace) && (m.length < |s| ==> !IsSpace(s[m.length])))
            && (m.kind.Name? ==> IsIdentifier(s[..m.length]) && (m.length < |s| ==> !IsNameChar(s[m.length])))
  {
    RunEndExactly(s, 1, IsSpace);
    RunEndExactly(s, 1, IsNameChar);
  }
}
