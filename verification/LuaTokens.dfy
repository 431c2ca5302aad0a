/**
 The tokenizer of harness/build_quest_log.py. Its regular expression is a list of alternatives
 that are tried in order at every position: white space, comments, long strings, strings, numbers,
 names and operators. White space and comments are dropped. Text may be put together from atoms,
 and where each atom is matched as the token it is, the tokens of the text are those atoms.
 */
module LuaTokens {
  import opened LuaText
  import opened Options

  datatype Kind = Space | Comment | LongString | StringLit | Number | Name | Op

  datatype Token = Token(kind: Kind, text: string)

  datatype Match = Match(kind: Kind, length: nat)

  datatype Error = CannotTokenize(rest: string) | Unexpected | Unsupported

  // --------------------------------------------------------------------------------
  // The alternatives of the regular expression
  // --------------------------------------------------------------------------------

  function RunEnd(s: string, i: nat, p: char -> bool): (j: nat)
    requires i <= |s|
    ensures i <= j <= |s|
    decreases |s| - i
  {
    if i < |s| && p(s[i]) then RunEnd(s, i + 1, p) else i
  }

  /** Where a quoted literal ends, the opening quote lying before i. */
  function QuoteEnd(s: string, quote: char, i: nat): (end: Option<nat>)
    requires i <= |s|
    ensures end.Some? ==> i < end.value <= |s|
    decreases |s| - i
  {
    if i == |s| then None
    else if s[i] == '\\' then (if i + 2 <= |s| then QuoteEnd(s, quote, i + 2) else None)
    else if s[i] == quote then Some(i + 1)
    else QuoteEnd(s, quote, i + 1)
  }

  /** The end of a long bracket that opens at i: `[`, equals signs, `[`, up to the matching close. */
  function LongEnd(s: string, i: nat): (end: Option<nat>)
    requires i <= |s|
    ensures end.Some? ==> i < end.value <= |s|
  {
    if i == |s| || s[i] != '[' then None
    else
      var j := RunEnd(s, i + 1, c => c == '=');
      if j == |s| || s[j] != '[' then None else CloseFrom(s, j + 1, "]" + s[i + 1..j] + "]")
  }

  function CloseFrom(s: string, i: nat, close: string): (end: Option<nat>)
    requires i <= |s| && close != ""
    ensures end.Some? ==> i < end.value <= |s|
    decreases |s| - i
  {
    if i + |close| > |s| then None
    else if s[i..i + |close|] == close then Some(i + |close|)
    else CloseFrom(s, i + 1, close)
  }

  predicate IsHexDigit(c: char) {
    IsDigit(c) || 'a' <= c <= 'f' || 'A' <= c <= 'F'
  }

  /** Hexadecimal, or decimal with an optional fraction and exponent. */
  function NumberEnd(s: string): (n: nat)
    requires s != "" && IsDigit(s[0])
    ensures 0 < n <= |s|
  {
    if |s| >= 3 && s[0] == '0' && (s[1] == 'x' || s[1] == 'X') && IsHexDigit(s[2]) then RunEnd(s, 3, IsHexDigit)
    else
      var whole := RunEnd(s, 1, IsDigit);
      var point := if whole + 1 < |s| && s[whole] == '.' && IsDigit(s[whole + 1]) then RunEnd(s, whole + 2, IsDigit) else whole;
      if point < |s| && (s[point] == 'e' || s[point] == 'E') then
        var sign := if point + 1 < |s| && (s[point + 1] == '-' || s[point + 1] == '+') then point + 2 else point + 1;
        if sign < |s| && IsDigit(s[sign]) then RunEnd(s, sign + 1, IsDigit) else point
      else point
  }

  predicate IsOperator(c: char) {
    c in {'{', '}', '[', ']', '=', ',', ';', '.', '(', ')', '+', '-', '*', '/', '%', '#', '<', '>', ':', '^'}
  }

  /** The operators of two characters. */
  predicate IsPair(a: char, b: char) {
    (a == '.' && b == '.') || (b == '=' && (a == '=' || a == '~' || a == '<' || a == '>'))
  }

  function OperatorEnd(s: string): nat
    requires s != ""
  {
    if |s| >= 3 && s[0] == '.' && s[1] == '.' && s[2] == '.' then 3
    else if |s| >= 2 && IsPair(s[0], s[1]) then 2
    else if IsOperator(s[0]) then 1
    else 0
  }

  function CommentMatch(s: string): Match
    requires |s| >= 2
  {
    if LongEnd(s, 2).Some? then Match(Comment, LongEnd(s, 2).value)
    else Match(Comment, RunEnd(s, 2, c => c != '\n'))
  }

  /** The first alternative that matches at the start. */
  function MatchAt(s: string): (m: Option<Match>)
    requires s != ""
    ensures m.Some? ==> 0 < m.value.length <= |s|
  {
    if IsSpace(s[0]) then Some(Match(Space, RunEnd(s, 1, IsSpace)))
    else if |s| >= 2 && s[0] == '-' && s[1] == '-' then Some(CommentMatch(s))
    else if LongEnd(s, 0).Some? then Some(Match(LongString, LongEnd(s, 0).value))
    else if (s[0] == '"' || s[0] == '\'') && QuoteEnd(s, s[0], 1).Some? then
      Some(Match(StringLit, QuoteEnd(s, s[0], 1).value))
    else if IsDigit(s[0]) then Some(Match(Number, NumberEnd(s)))
    else if IsNameStart(s[0]) then Some(Match(Name, RunEnd(s, 1, IsNameChar)))
    else if OperatorEnd(s) > 0 then Some(Match(Op, OperatorEnd(s)))
    else None
  }

  type Matcher = string -> Option<Match>

  /** The regular expression as a value, so that proofs about the loop need not open it. */
  function Pattern(): Matcher {
    (s: string) => if s == "" then None else MatchAt(s)
  }

  /** One match after the other; an empty match, which the pattern never gives, would end it. */
  function Scan(at: Matcher, s: string): Result<seq<Token>, Error>
    decreases |s|
  {
    if s == "" then Ok([])
    else
      match at(s)
      case None => Err(CannotTokenize(s))
      case Some(m) =>
        if m.length == 0 || m.length > |s| then Err(CannotTokenize(s))
        else Then(Kept(m.kind, s[..m.length]), Scan(at, s[m.length..]))
  }

  function Tokenize(s: string): Result<seq<Token>, Error> {
    Scan(Pattern(), s)
  }

  /** Space and comments are dropped. */
  function Kept(kind: Kind, text: string): seq<Token> {
    if kind.Space? || kind.Comment? then [] else [Token(kind, text)]
  }

  function Then(tokens: seq<Token>, rest: Result<seq<Token>, Error>): Result<seq<Token>, Error> {
    match rest
    case Err(e) => Err(e)
    case Ok(more) => Ok(tokens + more)
  }

  /** Each token stands in the text where it starts, one behind the other. */
  ghost predicate Placed(text: string, tokens: seq<Token>, starts: seq<nat>) {
    && |starts| == |tokens|
    && (forall k :: 0 <= k < |tokens| ==>
          starts[k] + |tokens[k].text| <= |text| && text[starts[k]..starts[k] + |tokens[k].text|] == tokens[k].text)
    && (forall k :: 0 <= k < |tokens| - 1 ==> starts[k] + |tokens[k].text| <= starts[k + 1])
  }

  /** The same from the last token on, all of it before a position. */
  ghost predicate PlacedBefore(text: string, tokens: seq<Token>, starts: seq<nat>, position: nat)
    decreases |tokens|
  {
    if tokens == [] then starts == []
    else
      var last := |tokens| - 1;
      && |starts| == |tokens| && starts[last] + |tokens[last].text| <= position && position <= |text|
      && text[starts[last]..starts[last] + |tokens[last].text|] == tokens[last].text
      && PlacedBefore(text, tokens[..last], starts[..last], starts[last])
  }

  lemma {:induction false} PlacedAll(text: string, tokens: seq<Token>, starts: seq<nat>, position: nat)
    requires PlacedBefore(text, tokens, starts, position)
    ensures Placed(text, tokens, starts)
    decreases |tokens|
  {
    if tokens != [] {
      var last := |tokens| - 1;
      PlacedAll(text, tokens[..last], starts[..last], starts[last]);
      if |tokens| > 1 {
        assert tokens[..last][last - 1] == tokens[last - 1] && starts[..last][last - 1] == starts[last - 1];
      }
      forall k | 0 <= k < last
        ensures starts[k] + |tokens[k].text| <= |text| && text[starts[k]..starts[k] + |tokens[k].text|] == tokens[k].text
        ensures starts[k] + |tokens[k].text| <= starts[k + 1]
      {
        assert tokens[..last][k] == tokens[k] && starts[..last][k] == starts[k];
        if k + 1 < last {
          assert starts[..last][k + 1] == starts[k + 1];
        }
      }
    }
  }

  lemma PlacedLater(text: string, tokens: seq<Token>, starts: seq<nat>, position: nat, end: nat)
    requires PlacedBefore(text, tokens, starts, position) && position <= end <= |text|
    ensures PlacedBefore(text, tokens, starts, end)
  {
  }

  lemma PlacedNext(text: string, tokens: seq<Token>, starts: seq<nat>, position: nat, kind: Kind, end: nat)
    requires PlacedBefore(text, tokens, starts, position) && position < end <= |text|
    ensures PlacedBefore(text, tokens + [Token(kind, text[position..end])], starts + [position], end)
  {
    var all, begins := tokens + [Token(kind, text[position..end])], starts + [position];
    assert |starts| == |tokens|;
    assert all[..|tokens|] == tokens && begins[..|tokens|] == starts;
  }

  method Tokens(text: string) returns (result: Result<seq<Token>, Error>, starts: seq<nat>)
    ensures result == Tokenize(text) && (result.Ok? ==> Placed(text, result.value, starts))
  {
    result, starts := Loop(Pattern(), text);
  }

  /** The loop has come this far on its way to a result. */
  ghost predicate Reached(all: Result<seq<Token>, Error>, at: Matcher, text: string, tokens: seq<Token>, position: nat) {
    position <= |text| && all == Then(tokens, Scan(at, text[position..]))
  }

  lemma ReachedStart(at: Matcher, text: string)
    ensures Reached(Scan(at, text), at, text, [], 0)
  {
    ThenNone(Scan(at, text));
    assert text[0..] == text;
  }

  /** One match of the loop. */
  lemma ScanAt(at: Matcher, text: string, position: nat, m: Match)
    requires position < |text| && at(text[position..]) == Some(m) && 0 < m.length <= |text| - position
    ensures Scan(at, text[position..])
         == Then(Kept(m.kind, text[position..position + m.length]), Scan(at, text[position + m.length..]))
  {
    var rest := text[position..];
    assert rest[..m.length] == text[position..position + m.length] && rest[m.length..] == text[position + m.length..];
  }

  lemma Regrouped(all: Result<seq<Token>, Error>, tokens: seq<Token>, one: seq<Token>, now: Result<seq<Token>, Error>,
                  rest: Result<seq<Token>, Error>)
    requires all == Then(tokens, now) && now == Then(one, rest)
    ensures all == Then(tokens + one, rest)
  {
    ThenBoth(tokens, one, rest);
  }

  lemma ReachedNext(all: Result<seq<Token>, Error>, at: Matcher, text: string, tokens: seq<Token>, position: nat, m: Match)
    requires Reached(all, at, text, tokens, position) && position < |text|
    requires at(text[position..]) == Some(m) && 0 < m.length <= |text| - position
    ensures var end := position + m.length; Reached(all, at, text, tokens + Kept(m.kind, text[position..end]), end)
  {
    var end := position + m.length;
    ScanAt(at, text, position, m);
    Regrouped(all, tokens, Kept(m.kind, text[position..end]), Scan(at, text[position..]), Scan(at, text[end..]));
  }

  lemma ReachedFails(all: Result<seq<Token>, Error>, at: Matcher, text: string, tokens: seq<Token>, position: nat)
    requires Reached(all, at, text, tokens, position) && position < |text| && at(text[position..]).None?
    ensures all == Err(CannotTokenize(text[position..]))
  {
  }

  lemma ReachedEnd(all: Result<seq<Token>, Error>, at: Matcher, text: string, tokens: seq<Token>)
    requires Reached(all, at, text, tokens, |text|)
    ensures all == Ok(tokens)
  {
    assert text[|text|..] == "" && tokens + [] == tokens;
  }

  method Loop(at: Matcher, text: string) returns (result: Result<seq<Token>, Error>, starts: seq<nat>)
    requires forall s {:trigger at(s)} :: s != "" && at(s).Some? ==> 0 < at(s).value.length <= |s|
    ensures result == Scan(at, text) && (result.Ok? ==> Placed(text, result.value, starts))
  {
    ghost var all := Scan(at, text);
    ReachedStart(at, text);
    var tokens: seq<Token>, position: nat := [], 0;
    starts := [];
    while position < |text|
      invariant Reached(all, at, text, tokens, position)
      invariant PlacedBefore(text, tokens, starts, position)
    {
      var found := at(text[position..]);
      if found.None? {
        ReachedFails(all, at, text, tokens, position);
        return Err(CannotTokenize(text[position..])), [];
      }
      ReachedNext(all, at, text, tokens, position, found.value);
      tokens, starts, position := Append(text, tokens, starts, position, found.value);
    }
    ReachedEnd(all, at, text, tokens);
    PlacedAll(text, tokens, starts, position);
    return Ok(tokens), starts;
  }

  method Append(text: string, tokens: seq<Token>, starts: seq<nat>, position: nat, m: Match)
    returns (tokens': seq<Token>, starts': seq<nat>, end: nat)
    requires 0 < m.length && position + m.length <= |text| && PlacedBefore(text, tokens, starts, position)
    ensures end == position + m.length && tokens' == tokens + Kept(m.kind, text[position..end])
    ensures PlacedBefore(text, tokens', starts', end)
  {
    tokens', starts', end := tokens, starts, position + m.length;
    if m.kind.Space? || m.kind.Comment? {
      PlacedLater(text, tokens, starts, position, end);
      assert tokens + [] == tokens;
    } else {
      PlacedNext(text, tokens, starts, position, m.kind, end);
      tokens' := tokens + [Token(m.kind, text[position..end])];
      starts' := starts + [position];
    }
  }

  lemma ThenNone(rest: Result<seq<Token>, Error>)
    ensures Then([], rest) == rest
  {
    if rest.Ok? {
      assert [] + rest.value == rest.value;
    }
  }

  lemma ThenBoth(a: seq<Token>, b: seq<Token>, rest: Result<seq<Token>, Error>)
    ensures Then(a, Then(b, rest)) == Then(a + b, rest)
  {
    if rest.Ok? {
      assert a + (b + rest.value) == a + b + rest.value;
    }
  }

  // --------------------------------------------------------------------------------
  // Atoms: pieces of text that are a token, or space
  // --------------------------------------------------------------------------------

  /** A stray starts with a digit where it is not meant as a number, so what it is matched as is not known beforehand. */
  datatype Atom = Gap(text: string) | Tok(kind: Kind, text: string) | Stray(text: string)

  function Flatten(atoms: seq<Atom>): string {
    if atoms == [] then "" else atoms[0].text + Flatten(atoms[1..])
  }

  function TokensOf(atoms: seq<Atom>): seq<Token> {
    if atoms == [] then [] else Kept(KindOf(atoms[0]), atoms[0].text) + TokensOf(atoms[1..])
  }

  function KindOf(a: Atom): Kind {
    match a case Gap(_) => Space case Tok(kind, _) => kind case Stray(_) => Space
  }

  /** Before `rest`, the atom is matched as the token it is; a gap is white space only. */
  ghost predicate Stands(a: Atom, rest: string) {
    match a
    case Gap(text) => forall i :: 0 <= i < |text| ==> IsSpace(text[i])
    case Tok(kind, text) => text != "" && !kind.Space? && !kind.Comment? && Pattern()(text + rest) == Some(Match(kind, |text|))
    case Stray(text) => text != "" && IsDigit(text[0])
  }

  ghost predicate AllStand(atoms: seq<Atom>, rest: string) {
    atoms != [] ==> Stands(atoms[0], Flatten(atoms[1..]) + rest) && AllStand(atoms[1..], rest)
  }

  predicate HasStray(atoms: seq<Atom>) {
    atoms != [] && (atoms[0].Stray? || HasStray(atoms[1..]))
  }

  /** The tokens before the first stray. */
  function BeforeStray(atoms: seq<Atom>): seq<Token> {
    if atoms == [] || atoms[0].Stray? then []
    else Kept(KindOf(atoms[0]), atoms[0].text) + BeforeStray(atoms[1..])
  }

  lemma StrayFirst(a: seq<Token>, b: seq<Token>, c: seq<Token>)
    ensures a + (b + c) == (a + b) + c
  {
  }

  lemma {:induction false} StrayConcat(a: seq<Atom>, b: seq<Atom>)
    ensures HasStray(a + b) <==> HasStray(a) || HasStray(b)
    ensures BeforeStray(a + b) == if HasStray(a) then BeforeStray(a) else TokensOf(a) + BeforeStray(b)
  {
    if a == [] {
      assert a + b == b;
    } else {
      assert (a + b)[1..] == a[1..] + b;
      StrayConcat(a[1..], b);
      StrayFirst(Kept(KindOf(a[0]), a[0].text), TokensOf(a[1..]), BeforeStray(b));
    }
  }

  lemma {:induction false} FlattenConcat(a: seq<Atom>, b: seq<Atom>)
    ensures Flatten(a + b) == Flatten(a) + Flatten(b)
  {
    if a == [] {
      assert a + b == b;
    } else {
      assert (a + b)[1..] == a[1..] + b;
      FlattenConcat(a[1..], b);
    }
  }

  lemma {:induction false} TokensConcat(a: seq<Atom>, b: seq<Atom>)
    ensures TokensOf(a + b) == TokensOf(a) + TokensOf(b)
  {
    if a == [] {
      assert a + b == b;
    } else {
      assert (a + b)[1..] == a[1..] + b;
      TokensConcat(a[1..], b);
    }
  }

  lemma {:induction false} StandConcat(a: seq<Atom>, b: seq<Atom>, rest: string)
    requires AllStand(a, Flatten(b) + rest) && AllStand(b, rest)
    ensures AllStand(a + b, rest)
  {
    if a == [] {
      assert a + b == b;
    } else {
      assert (a + b)[1..] == a[1..] + b;
      FlattenConcat(a[1..], b);
      assert Flatten(a[1..]) + (Flatten(b) + rest) == Flatten(a[1..] + b) + rest;
      StandConcat(a[1..], b, rest);
    }
  }

  /** White space in front changes no token. */
  lemma SkipSpace(space: string, rest: string)
    requires forall i :: 0 <= i < |space| ==> IsSpace(space[i])
    ensures Tokenize(space + rest) == Tokenize(rest)
  {
    forall c, s | IsSpace(c) ensures Scan(Pattern(), [c] + s) == Scan(Pattern(), s) {
      SkipOne(c, s);
    }
    SkipAll(Pattern(), space, rest);
  }

  lemma {:induction false} SkipAll(at: Matcher, space: string, rest: string)
    requires forall i :: 0 <= i < |space| ==> IsSpace(space[i])
    requires forall c, s {:trigger Scan(at, [c] + s)} :: IsSpace(c) ==> Scan(at, [c] + s) == Scan(at, s)
    ensures Scan(at, space + rest) == Scan(at, rest)
  {
    if space == "" {
      assert space + rest == rest;
    } else {
      SkipFirst(at, space, rest);
      SkipAll(at, space[1..], rest);
    }
  }

  lemma SkipFirst(at: Matcher, space: string, rest: string)
    requires space != "" && IsSpace(space[0])
    requires forall c, s {:trigger Scan(at, [c] + s)} :: IsSpace(c) ==> Scan(at, [c] + s) == Scan(at, s)
    ensures Scan(at, space + rest) == Scan(at, space[1..] + rest)
  {
    var tail := space[1..] + rest;
    assert space + rest == [space[0]] + tail;
    assert Scan(at, [space[0]] + tail) == Scan(at, tail);
  }

  lemma SkipOne(c: char, s: string)
    requires IsSpace(c)
    ensures Tokenize([c] + s) == Tokenize(s)
  {
    var all := [c] + s;
    RunShift(c, s, 0);
    assert all[1..] == s;
    if s != "" && IsSpace(s[0]) {
      assert all[RunEnd(all, 1, IsSpace)..] == s[RunEnd(s, 1, IsSpace)..];
      ThenNone(Tokenize(s[RunEnd(s, 1, IsSpace)..]));
    } else {
      assert RunEnd(all, 1, IsSpace) == 1;
      ThenNone(Tokenize(s));
    }
  }

  lemma {:induction false} RunShift(c: char, s: string, i: nat)
    requires i <= |s|
    ensures RunEnd([c] + s, i + 1, IsSpace) == 1 + RunEnd(s, i, IsSpace)
    decreases |s| - i
  {
    if i < |s| {
      RunShift(c, s, i + 1);
    }
  }

  lemma TakeToken(at: Matcher, kind: Kind, text: string, tail: string)
    requires text != "" && at(text + tail) == Some(Match(kind, |text|))
    ensures Scan(at, text + tail) == Then(Kept(kind, text), Scan(at, tail))
  {
    assert (text + tail)[..|text|] == text && (text + tail)[|text|..] == tail;
  }

  /** Atoms that stand where they are give exactly their tokens. */
  lemma {:induction false} TokenizeAtoms(atoms: seq<Atom>, rest: string)
    requires AllStand(atoms, rest) && !HasStray(atoms)
    ensures Tokenize(Flatten(atoms) + rest) == Then(TokensOf(atoms), Tokenize(rest))
  {
    if atoms == [] {
      assert "" + rest == rest;
      ThenNone(Tokenize(rest));
    } else {
      var a, tail := atoms[0], Flatten(atoms[1..]) + rest;
      assert Flatten(atoms) + rest == a.text + tail;
      TokenizeAtoms(atoms[1..], rest);
      if a.Gap? {
        SkipSpace(a.text, tail);
        assert [] + TokensOf(atoms[1..]) == TokensOf(atoms[1..]);
      } else {
        TakeToken(Pattern(), a.kind, a.text, tail);
        ThenBoth([Token(a.kind, a.text)], TokensOf(atoms[1..]), Tokenize(rest));
      }
    }
  }

  lemma {:induction false} ScanFails(at: Matcher, s: string)
    ensures Scan(at, s).Err? ==> Scan(at, s).error.CannotTokenize?
    decreases |s|
  {
    if s != "" && at(s).Some? && 0 < at(s).value.length <= |s| {
      ScanFails(at, s[at(s).value.length..]);
    }
  }

  /** Text that starts with a digit gives a number first, if it is tokenized at all. */
  predicate StartsNumber(r: Result<seq<Token>, Error>) {
    r.Ok? ==> r.value != [] && r.value[0].kind.Number?
  }

  lemma DigitStarts(text: string)
    requires text != "" && IsDigit(text[0])
    ensures StartsNumber(Tokenize(text))
  {
    assert LongEnd(text, 0).None?;
    assert Pattern()(text) == Some(Match(Number, NumberEnd(text)));
    assert Kept(Number, text[..NumberEnd(text)])[0].kind == Number;
  }

  /** What the tokens are up to a stray, and that a number comes next. */
  ghost predicate Strays(r: Result<seq<Token>, Error>, before: seq<Token>) {
    r.Ok? ==> |r.value| > |before| && r.value[..|before|] == before && r.value[|before|].kind.Number?
  }

  lemma StraysThen(one: seq<Token>, before: seq<Token>, rest: Result<seq<Token>, Error>)
    requires Strays(rest, before)
    ensures Strays(Then(one, rest), one + before)
  {
    if rest.Ok? {
      var all := one + rest.value;
      assert all[|one + before|] == rest.value[|before|];
      assert all[..|one + before|] == one + before;
    }
  }

  /** Atoms that stand give their tokens up to the first stray, and a number there, or the text cannot be tokenized. */
  lemma {:induction false} TokenizeStray(atoms: seq<Atom>, rest: string)
    requires AllStand(atoms, rest) && HasStray(atoms)
    ensures Strays(Tokenize(Flatten(atoms) + rest), BeforeStray(atoms))
  {
    var a, tail := atoms[0], Flatten(atoms[1..]) + rest;
    assert Flatten(atoms) + rest == a.text + tail;
    match a
    case Stray(text) =>
      DigitStarts(text + tail);
      assert Tokenize(text + tail).Ok? ==> Tokenize(text + tail).value[..0] == [];
    case Gap(text) =>
      TokenizeStray(atoms[1..], rest);
      SkipSpace(text, tail);
      assert [] + BeforeStray(atoms[1..]) == BeforeStray(atoms[1..]);
    case Tok(kind, text) =>
      TokenizeStray(atoms[1..], rest);
      TakeToken(Pattern(), kind, text, tail);
      StraysThen([Token(kind, text)], BeforeStray(atoms[1..]), Tokenize(tail));
  }
}
