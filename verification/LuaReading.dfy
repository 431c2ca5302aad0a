/**
 What the reader makes of printed tables.

 The printer's layouts are taken apart as the reader meets them: a field with its key in plain or in
 brackets, an array part, a nested table in one line or in many. What comes back is the layout with
 its strings and keys as they come back, since a backslash before a z and a line feed behind an
 identifier get lost on the way, and the reader stops exactly behind it.
 */
module LuaReading {
  import opened LuaText
  import opened LuaTokens
  import opened LuaAtoms
  import opened LuaReader
  import opened Options

  const COMMA: Token := Token(Op, ",")
  const OPEN: Token := Token(Op, "{")
  const CLOSE: Token := Token(Op, "}")
  const LEFT: Token := Token(Op, "[")
  const RIGHT: Token := Token(Op, "]")
  const EQUALS: Token := Token(Op, "=")
  const MINUS: Token := Token(Op, "-")
  const DOT: Token := Token(Op, ".")

  /** What follows a printed value. */
  predicate Stops(more: seq<Token>) {
    more != [] ==> more[0] == COMMA || more[0] == CLOSE || more[0] == RIGHT
  }

  // --------------------------------------------------------------------------------
  // What comes back of strings and keys
  // --------------------------------------------------------------------------------

  function BackLeaf(v: Value): Value {
    match v
    case Str(s) => Str(ReadBack(s))
    case _ => v
  }

  /** A key that is an identifier, but for a line feed behind it, is printed bare and loses the line feed. */
  function BackKey(key: Key): Key {
    match key
    case IntKey(_) => key
    case StrKey(s) =>
      if IsIdentifier(s) then key
      else if TakenForIdentifier(s) then StrKey(s[..|s| - 1])
      else StrKey(ReadBack(s))
  }

  function BackDoc(doc: Doc): Doc
    decreases doc, 0
  {
    match doc
    case Leaf(v) => Leaf(BackLeaf(v))
    case Group(named, items) => Group(BackPairs(named), BackDocs(items))
  }

  function BackPairs(named: seq<Pair>): (pairs: seq<Pair>)
    ensures |pairs| == |named|
    decreases named, 0
  {
    if named == [] then [] else [BackPair(named[0])] + BackPairs(named[1..])
  }

  function BackPair(pair: Pair): Pair
    decreases pair, 0
  {
    Pair(BackKey(pair.key), BackDoc(pair.doc))
  }

  function BackDocs(items: seq<Doc>): (docs: seq<Doc>)
    ensures |docs| == |items|
    decreases items, 0
  {
    if items == [] then [] else [BackDoc(items[0])] + BackDocs(items[1..])
  }

  // --------------------------------------------------------------------------------
  // Leaves
  // --------------------------------------------------------------------------------

  lemma OneToken(kind: Kind, text: string)
    requires !kind.Space? && !kind.Comment?
    ensures TokensOf([Tok(kind, text)]) == [Token(kind, text)]
  {
    assert [Tok(kind, text)][1..] == [];
  }

  lemma PlainStops(tokens: seq<Token>, v: Value, more: seq<Token>)
    requires ReadPlain(tokens) == Ok((v, more)) && Stops(more)
    ensures ReadValue(tokens) == Ok((v, more))
  {
  }

  lemma NumberReads(n: nat, more: seq<Token>)
    requires Stops(more)
    ensures ReadValue([Token(Number, Decimal(n))] + more) == Ok((Int(n), more))
  {
    var tokens := [Token(Number, Decimal(n))] + more;
    DecimalRead(n);
    assert tokens[1..] == more;
    assert IsDigit(Decimal(n)[0]);
    assert NumberOf(Decimal(n)) == Ok(Int(n));
    PlainStops(tokens, Int(n), more);
  }

  lemma IntReads(i: int, more: seq<Token>)
    requires Stops(more)
    ensures ReadValue(TokensOf(IntAtoms(i)) + more) == Ok((Int(i), more))
  {
    if i < 0 {
      var number := Token(Number, Decimal(-i));
      NumberReads(-i, more);
      assert IntAtoms(i)[1..] == [Tok(Number, Decimal(-i))];
      OneToken(Number, Decimal(-i));
      var tokens := TokensOf(IntAtoms(i)) + more;
      assert tokens == [MINUS] + ([number] + more);
      assert tokens[1..] == [number] + more;
      PlainStops(tokens, Int(i), more);
    } else {
      NumberReads(i, more);
      OneToken(Number, Decimal(i));
    }
  }

  lemma StringReads(s: string, more: seq<Token>)
    requires Stops(more)
    ensures ReadValue([Token(StringLit, Quoted(s))] + more) == Ok((Str(ReadBack(s)), more))
  {
    var tokens := [Token(StringLit, Quoted(s))] + more;
    assert tokens[1..] == more;
    assert Quoted(s)[0] == '"';
    PlainStops(tokens, Str(ReadBack(s)), more);
  }

  lemma WordReads(word: string, v: Value, more: seq<Token>)
    requires Stops(more)
    requires (word == "nil" && v.Nil?) || (word == "true" && v == Bool(true)) || (word == "false" && v == Bool(false))
    ensures ReadValue([Token(Name, word)] + more) == Ok((v, more))
  {
    var tokens := [Token(Name, word)] + more;
    assert tokens[1..] == more;
    PlainStops(tokens, v, more);
  }

  function DotTokens(parts: seq<string>): seq<Token> {
    if parts == [] then [] else [DOT, Token(Name, parts[0])] + DotTokens(parts[1..])
  }

  lemma {:induction false} RefTokens(parts: seq<string>)
    requires parts != [] && forall i :: 0 <= i < |parts| ==> IsIdentifier(parts[i])
    ensures TokensOf(RefAtoms(parts)) == [Token(Name, parts[0])] + DotTokens(parts[1..])
  {
    assert IsNameStart(parts[0][0]);
    if |parts| == 1 {
      OneToken(Name, parts[0]);
    } else {
      var rest := parts[1..];
      RefTokens(rest);
      NameDot(parts[0], RefAtoms(rest));
      DotMoves(parts[0], rest[0], DotTokens(rest[1..]));
      assert RefAtoms(parts) == [Tok(Name, parts[0]), Operator('.')] + RefAtoms(rest);
      assert DotTokens(rest) == [DOT, Token(Name, rest[0])] + DotTokens(rest[1..]);
    }
  }

  lemma DotMoves(name: string, next: string, tail: seq<Token>)
    ensures [Token(Name, name), DOT] + ([Token(Name, next)] + tail) == [Token(Name, name)] + ([DOT, Token(Name, next)] + tail)
  {
  }

  lemma NameDot(name: string, tail: seq<Atom>)
    ensures TokensOf([Tok(Name, name), Operator('.')] + tail) == [Token(Name, name), DOT] + TokensOf(tail)
  {
    var head := [Tok(Name, name), Operator('.')];
    TokensConcat(head, tail);
    TokensConcat([Tok(Name, name)], [Operator('.')]);
    OneToken(Name, name);
    OneToken(Op, ".");
    assert head == [Tok(Name, name)] + [Operator('.')];
    assert TokensOf(head) == [Token(Name, name), DOT];
  }

  lemma {:induction false} DotsRead(parts: seq<string>, more: seq<Token>)
    requires Stops(more)
    ensures DottedParts(DotTokens(parts) + more) == (parts, more)
  {
    var tokens := DotTokens(parts) + more;
    if parts == [] {
      assert tokens == more;
    } else {
      DotsRead(parts[1..], more);
      assert tokens == [DOT, Token(Name, parts[0])] + (DotTokens(parts[1..]) + more);
      assert tokens[2..] == DotTokens(parts[1..]) + more;
      assert [parts[0]] + parts[1..] == parts;
    }
  }

  lemma RefReads(parts: seq<string>, more: seq<Token>)
    requires GoodRef(parts) && Stops(more)
    ensures ReadValue(TokensOf(RefAtoms(parts)) + more) == Ok((Ref(parts), more))
  {
    RefTokens(parts);
    var dots := DotTokens(parts[1..]);
    DotsRead(parts[1..], more);
    NameReads(parts, dots + more, more);
    TokensAssociate([Token(Name, parts[0])], dots, more);
  }

  lemma TokensAssociate(a: seq<Token>, b: seq<Token>, c: seq<Token>)
    ensures a + b + c == a + (b + c)
  {
  }

  lemma NameReads(parts: seq<string>, tail: seq<Token>, more: seq<Token>)
    requires GoodRef(parts) && Stops(more) && DottedParts(tail) == (parts[1..], more)
    ensures ReadValue([Token(Name, parts[0])] + tail) == Ok((Ref(parts), more))
  {
    var tokens := [Token(Name, parts[0])] + tail;
    assert tokens[1..] == tail;
    assert [parts[0]] + parts[1..] == parts;
    assert IsNameStart(parts[0][0]);
    assert ReadName(tokens) == Ok((Ref(parts), more));
    PlainStops(tokens, Ref(parts), more);
  }

  lemma LeafReads(v: Value, more: seq<Token>)
    requires GoodLeaf(v) && Stops(more)
    ensures ReadValue(TokensOf(LeafAtoms(v)) + more) == Ok((BackLeaf(v), more))
  {
    match v
    case Nil =>
      OneToken(Name, "nil");
      WordReads("nil", v, more);
    case Bool(b) =>
      OneToken(Name, if b then "true" else "false");
      WordReads(if b then "true" else "false", v, more);
    case Int(i) => IntReads(i, more);
    case Str(s) =>
      OneToken(StringLit, Quoted(s));
      StringReads(s, more);
    case Ref(parts) => RefReads(parts, more);
  }

  // --------------------------------------------------------------------------------
  // Tables
  // --------------------------------------------------------------------------------

  /** The value that reading a printed layout gives. */
  function Normal(doc: Doc): Value
    decreases doc, 0
  {
    match doc
    case Leaf(v) => v
    case Group(named, items) => Table(Positioned(StoreNamed([], named), NormalItems(items)))
  }

  function StoreNamed(fields: seq<Entry>, named: seq<Pair>): seq<Entry>
    decreases named, 0
  {
    if named == [] then fields else StoreNamed(StorePair(fields, named[0]), named[1..])
  }

  function StorePair(fields: seq<Entry>, pair: Pair): seq<Entry>
    decreases pair, 0
  {
    Store(fields, pair.key, Normal(pair.doc))
  }

  function NormalItems(items: seq<Doc>): seq<Value>
    decreases items, 0
  {
    if items == [] then [] else [Normal(items[0])] + NormalItems(items[1..])
  }

  // Steps of the table loop

  lemma FieldsClose(fields: seq<Entry>, items: seq<Value>, more: seq<Token>)
    ensures ReadFields([CLOSE] + more, fields, items) == Ok((Table(Positioned(fields, items)), more))
  {
    assert ([CLOSE] + more)[1..] == more;
  }

  lemma FieldsItem(tokens: seq<Token>, fields: seq<Entry>, items: seq<Value>, v: Value, rest: seq<Token>)
    requires tokens != [] && tokens[0] != CLOSE && tokens[0].text != "}" && tokens[0].text != "["
    requires tokens[0].kind.Name? ==> !TextAt(tokens, 1, "=")
    requires ReadValue(tokens) == Ok((v, rest))
    ensures ReadFields(tokens, fields, items) == ReadFields(Separated(rest), fields, items + [v])
  {
  }

  lemma FieldsNamed(name: string, tail: seq<Token>, fields: seq<Entry>, items: seq<Value>, v: Value, rest: seq<Token>)
    requires IsIdentifier(name) && ReadValue(tail) == Ok((v, rest))
    ensures ReadFields([Token(Name, name), EQUALS] + tail, fields, items)
         == ReadFields(Separated(rest), Store(fields, StrKey(name), v), items)
  {
    var tokens := [Token(Name, name), EQUALS] + tail;
    assert IsNameStart(name[0]);
    assert tokens[2..] == tail;
  }

  lemma FieldsKeyed(key: Key, keyValue: Value, inner: seq<Token>, tail: seq<Token>, fields: seq<Entry>, items: seq<Value>,
                    v: Value, rest: seq<Token>)
    requires KeyOf(keyValue) == Ok(key) && ReadValue(tail) == Ok((v, rest))
    requires ReadValue(inner + [RIGHT, EQUALS] + tail) == Ok((keyValue, [RIGHT, EQUALS] + tail))
    ensures ReadFields([LEFT] + inner + [RIGHT, EQUALS] + tail, fields, items)
         == ReadFields(Separated(rest), Store(fields, key, v), items)
  {
    var tokens := [LEFT] + inner + [RIGHT, EQUALS] + tail;
    assert tokens[1..] == inner + [RIGHT, EQUALS] + tail;
    assert ([RIGHT, EQUALS] + tail)[2..] == tail;
    assert ReadKeyed(tokens) == Ok((key, v, rest));
  }

  /** The tokens of a field before its value. */
  function KeyTokens(key: Key): seq<Token> {
    TokensOf(KeyAtoms(key)) + [EQUALS]
  }

  lemma FieldReads(key: Key, tail: seq<Token>, fields: seq<Entry>, items: seq<Value>, v: Value, rest: seq<Token>)
    requires ReadValue(tail) == Ok((v, rest))
    ensures ReadFields(KeyTokens(key) + tail, fields, items) == ReadFields(Separated(rest), Store(fields, BackKey(key), v), items)
  {
    match key
    case IntKey(i) =>
      IntReads(i, [RIGHT, EQUALS] + tail);
      BracketedReads(key, Int(i), IntAtoms(i), tail, fields, items, v, rest);
    case StrKey(s) =>
      if IsIdentifier(s) {
        OneToken(Name, s);
        FieldsNamed(s, tail, fields, items, v, rest);
        assert KeyTokens(key) == [Token(Name, s), EQUALS];
      } else if TakenForIdentifier(s) {
        NameLineTokens(s[..|s| - 1]);
        FieldsNamed(s[..|s| - 1], tail, fields, items, v, rest);
        assert KeyTokens(key) == [Token(Name, s[..|s| - 1]), EQUALS];
      } else {
        var q := [Tok(StringLit, Quoted(s))];
        StringReads(s, [RIGHT, EQUALS] + tail);
        OneToken(StringLit, Quoted(s));
        BracketedReads(BackKey(key), Str(ReadBack(s)), q, tail, fields, items, v, rest);
        assert [Operator('[')] + q + [Operator(']')] == KeyAtoms(key);
      }
  }

  lemma NameLineTokens(name: string)
    ensures TokensOf([Tok(Name, name), Gap("\n")]) == [Token(Name, name)]
  {
    assert [Tok(Name, name), Gap("\n")][1..] == [Gap("\n")] && [Gap("\n")][1..] == [];
    assert TokensOf([Gap("\n")]) == [];
  }

  lemma BracketedReads(key: Key, keyValue: Value, inner: seq<Atom>, tail: seq<Token>, fields: seq<Entry>,
                       items: seq<Value>, v: Value, rest: seq<Token>)
    requires KeyOf(keyValue) == Ok(key) && ReadValue(tail) == Ok((v, rest))
    requires ReadValue(TokensOf(inner) + ([RIGHT, EQUALS] + tail)) == Ok((keyValue, [RIGHT, EQUALS] + tail))
    ensures ReadFields(TokensOf([Operator('[')] + inner + [Operator(']')]) + [EQUALS] + tail, fields, items)
         == ReadFields(Separated(rest), Store(fields, key, v), items)
  {
    var ts := TokensOf(inner);
    BracketTokens(inner);
    assert ts + ([RIGHT, EQUALS] + tail) == ts + [RIGHT, EQUALS] + tail;
    FieldsKeyed(key, keyValue, ts, tail, fields, items, v, rest);
    assert [LEFT] + ts + [RIGHT] + [EQUALS] + tail == [LEFT] + ts + [RIGHT, EQUALS] + tail;
  }

  lemma BracketTokens(inner: seq<Atom>)
    ensures TokensOf([Operator('[')] + inner + [Operator(']')]) == [LEFT] + TokensOf(inner) + [RIGHT]
  {
    TokensConcat([Operator('[')] + inner, [Operator(']')]);
    TokensConcat([Operator('[')], inner);
    OneToken(Op, "[");
    OneToken(Op, "]");
  }

  // Parts of a table, one after the other

  /** The tokens of the parts with a comma behind each, the last one only where the layout puts it. */
  function PartTokens(parts: seq<seq<Atom>>, trailing: bool): seq<Token> {
    if parts == [] then []
    else TokensOf(parts[0]) + (if |parts| == 1 && !trailing then [] else [COMMA]) + PartTokens(parts[1..], trailing)
  }

  lemma CommaToken(space: string)
    ensures TokensOf([Operator(','), Gap(space)]) == [COMMA]
  {
    assert [Operator(','), Gap(space)][1..] == [Gap(space)] && [Gap(space)][1..] == [];
    assert TokensOf([Gap(space)]) == [];
  }

  lemma {:induction false} JoinTokens(parts: seq<seq<Atom>>)
    ensures TokensOf(JoinAtoms(parts)) == PartTokens(parts, false)
  {
    if |parts| == 1 {
      assert parts[1..] == [];
    } else if |parts| > 1 {
      JoinTokens(parts[1..]);
      TokensConcat(parts[0] + [Operator(','), Gap(" ")], JoinAtoms(parts[1..]));
      TokensConcat(parts[0], [Operator(','), Gap(" ")]);
      CommaToken(" ");
    }
  }

  lemma {:induction false} LineTokens(parts: seq<seq<Atom>>, indent: string)
    ensures TokensOf(LineAtoms(parts, indent)) == PartTokens(parts, true)
  {
    if parts != [] {
      LineTokens(parts[1..], indent);
      TokensConcat([Gap(indent)] + parts[0] + [Operator(','), Gap("\n")], LineAtoms(parts[1..], indent));
      TokensConcat([Gap(indent)] + parts[0], [Operator(','), Gap("\n")]);
      GapFirst(indent, parts[0]);
      CommaToken("\n");
    }
  }

  lemma GapFirst(space: string, atoms: seq<Atom>)
    ensures TokensOf([Gap(space)] + atoms) == TokensOf(atoms)
  {
    assert ([Gap(space)] + atoms)[1..] == atoms;
    assert [] + TokensOf(atoms) == TokensOf(atoms);
  }

  lemma EnclosedTokens(space: string, inner: seq<Atom>, last: string)
    ensures TokensOf([Operator('{'), Gap(space)] + inner + [Gap(last), Operator('}')]) == [OPEN] + TokensOf(inner) + [CLOSE]
  {
    TokensConcat([Operator('{'), Gap(space)] + inner, [Gap(last), Operator('}')]);
    TokensConcat([Operator('{'), Gap(space)], inner);
    TokensConcat([Operator('{')], [Gap(space)]);
    assert [Operator('{'), Gap(space)] == [Operator('{')] + [Gap(space)];
    assert [Gap(last), Operator('}')] == [Gap(last)] + [Operator('}')];
    GapFirst(space, []);
    assert [Gap(space)] + [] == [Gap(space)];
    GapFirst(last, [Operator('}')]);
    OneToken(Op, "{");
    OneToken(Op, "}");
  }

  lemma BracedTokens(parts: seq<seq<Atom>>, oneLine: bool, depth: nat)
    ensures TokensOf(BracedAtoms(parts, oneLine, depth)) == [OPEN] + PartTokens(parts, !oneLine) + [CLOSE]
  {
    if oneLine {
      JoinTokens(parts);
      EnclosedTokens(" ", JoinAtoms(parts), " ");
    } else {
      LineTokens(parts, Tabs(depth + 1));
      EnclosedTokens("\n", LineAtoms(parts, Tabs(depth + 1)), Tabs(depth));
    }
  }

  /** What follows the part whose value was just read: a comma that is skipped, or the closing brace. */
  lemma SeparatorSkipped(last: bool, trailing: bool, tail: seq<Token>)
    requires last && !trailing ==> tail != [] && tail[0] == CLOSE
    ensures Stops((if last && !trailing then [] else [COMMA]) + tail)
    ensures Separated((if last && !trailing then [] else [COMMA]) + tail) == tail
  {
    if last && !trailing {
      assert [] + tail == tail;
    } else {
      assert ([COMMA] + tail)[1..] == tail;
    }
  }

  lemma PairTokens(pair: Pair, depth: nat)
    ensures TokensOf(PairAtoms(pair, depth)) == KeyTokens(pair.key) + TokensOf(DocAtoms(pair.doc, depth))
  {
    var equals := [Gap(" "), Operator('='), Gap(" ")];
    TokensConcat(KeyAtoms(pair.key) + equals, DocAtoms(pair.doc, depth));
    TokensConcat(KeyAtoms(pair.key), equals);
    assert equals == [Gap(" ")] + ([Operator('=')] + [Gap(" ")]);
    GapFirst(" ", [Operator('=')] + [Gap(" ")]);
    TokensConcat([Operator('=')], [Gap(" ")]);
    GapFirst(" ", []);
    assert [Gap(" ")] + [] == [Gap(" ")];
    OneToken(Op, "=");
    assert TokensOf(equals) == [EQUALS];
  }

  /** A printed value never looks like the start of a field, or the end of the table. */
  ghost predicate StartsItem(tokens: seq<Token>) {
    && tokens != [] && tokens[0].text != "}" && tokens[0].text != "["
    && (tokens[0].kind.Name? ==> !TextAt(tokens, 1, "="))
  }

  lemma LeafStarts(v: Value, more: seq<Token>)
    requires GoodLeaf(v) && Stops(more)
    ensures StartsItem(TokensOf(LeafAtoms(v)) + more)
  {
    match v
    case Nil => OneToken(Name, "nil");
    case Bool(b) => OneToken(Name, if b then "true" else "false");
    case Int(i) =>
      assert IsDigit(Decimal(if i < 0 then -i else i)[0]);
      OneToken(Number, Decimal(if i < 0 then -i else i));
      assert i < 0 ==> IntAtoms(i)[1..] == [Tok(Number, Decimal(-i))];
    case Str(s) =>
      OneToken(StringLit, Quoted(s));
      assert Quoted(s)[0] == '"';
    case Ref(parts) =>
      RefTokens(parts);
      assert IsNameStart(parts[0][0]);
  }

  lemma DocStarts(doc: Doc, depth: nat, more: seq<Token>)
    requires GoodDoc(doc) && Stops(more)
    ensures StartsItem(TokensOf(DocAtoms(doc, depth)) + more)
  {
    match doc
    case Leaf(v) => LeafStarts(v, more);
    case Group(_, _) =>
      var atoms := DocAtoms(doc, depth);
      assert atoms[0] == Operator('{');
      assert TokensOf(atoms)[0] == OPEN;
  }

  lemma TableReads(inside: seq<Token>, v: Value, more: seq<Token>)
    requires ReadFields(inside, [], []) == Ok((v, more)) && Stops(more)
    ensures ReadValue([OPEN] + inside) == Ok((v, more))
  {
    assert ([OPEN] + inside)[1..] == inside;
    PlainStops([OPEN] + inside, v, more);
  }

  lemma {:induction false} PartTokensConcat(a: seq<seq<Atom>>, b: seq<seq<Atom>>, trailing: bool)
    ensures PartTokens(a + b, trailing) == PartTokens(a, trailing || b != []) + PartTokens(b, trailing)
  {
    if a == [] {
      assert a + b == b;
    } else {
      assert (a + b)[1..] == a[1..] + b;
      PartTokensConcat(a[1..], b, trailing);
    }
  }

  lemma {:induction false} DocReads(doc: Doc, depth: nat, more: seq<Token>)
    requires GoodDoc(doc) && Stops(more)
    ensures ReadValue(TokensOf(DocAtoms(doc, depth)) + more) == Ok((Normal(BackDoc(doc)), more))
    decreases doc, 0
  {
    match doc
    case Leaf(v) => LeafReads(v, more);
    case Group(named, items) =>
      if named == [] && items == [] {
        EmptyReads(more);
      } else {
        var oneLine := OneLine(NamedTexts(named, depth + 1) + ArrayTexts(items, depth + 1), Flat(doc), depth);
        var first, second := NamedAtoms(named, depth + 1), ItemAtoms(items, depth + 1);
        var tail := PartTokens(second, !oneLine) + ([CLOSE] + more);
        ItemsRead(items, depth + 1, !oneLine, StoreNamed([], BackPairs(named)), [], more);
        NamedRead(named, depth + 1, !oneLine || second != [], tail, [], []);
        assert [] + NormalItems(BackDocs(items)) == NormalItems(BackDocs(items));
        TableReads(PartTokens(first, !oneLine || second != []) + tail, Normal(BackDoc(doc)), more);
        GroupTokens(first, second, oneLine, depth, more);
      }
  }

  lemma EmptyReads(more: seq<Token>)
    requires Stops(more)
    ensures ReadValue(TokensOf([Operator('{'), Operator('}')]) + more) == Ok((Table([]), more))
  {
    OneToken(Op, "}");
    assert [Operator('{'), Operator('}')][1..] == [Operator('}')];
    FieldsClose([], [], more);
    TableReads([CLOSE] + more, Table([]), more);
    assert TokensOf([Operator('{'), Operator('}')]) + more == [OPEN] + ([CLOSE] + more);
  }

  lemma GroupTokens(first: seq<seq<Atom>>, second: seq<seq<Atom>>, oneLine: bool, depth: nat, more: seq<Token>)
    ensures TokensOf(BracedAtoms(first + second, oneLine, depth)) + more
         == [OPEN] + (PartTokens(first, !oneLine || second != []) + (PartTokens(second, !oneLine) + ([CLOSE] + more)))
  {
    BracedTokens(first + second, oneLine, depth);
    PartTokensConcat(first, second, !oneLine);
    EnclosedAssociates(PartTokens(first, !oneLine || second != []), PartTokens(second, !oneLine), more);
  }

  lemma EnclosedAssociates(a: seq<Token>, b: seq<Token>, more: seq<Token>)
    ensures [OPEN] + (a + b) + [CLOSE] + more == [OPEN] + (a + (b + ([CLOSE] + more)))
  {
  }

  lemma {:induction false} NamedRead(named: seq<Pair>, depth: nat, trailing: bool, tail: seq<Token>, fields: seq<Entry>,
                                     values: seq<Value>)
    requires forall i :: 0 <= i < |named| ==> GoodPair(named[i])
    requires !trailing ==> tail != [] && tail[0] == CLOSE
    ensures ReadFields(PartTokens(NamedAtoms(named, depth), trailing) + tail, fields, values)
         == ReadFields(tail, StoreNamed(fields, BackPairs(named)), values)
    decreases named, 0
  {
    if named == [] {
      assert [] + tail == tail;
    } else {
      var last := |named| == 1;
      var comma: seq<Token> := if last && !trailing then [] else [COMMA];
      var rest := PartTokens(NamedAtoms(named[1..], depth), trailing) + tail;
      assert last ==> rest == tail;
      SeparatorSkipped(last, trailing, rest);
      PairReads(named[0], depth, comma + rest, fields, values);
      NamedRead(named[1..], depth, trailing, tail, StorePair(fields, BackPair(named[0])), values);
      assert BackPairs(named)[1..] == BackPairs(named[1..]);
      NamedSplit(named, depth, trailing, tail);
    }
  }

  lemma NamedSplit(named: seq<Pair>, depth: nat, trailing: bool, tail: seq<Token>)
    requires named != []
    ensures PartTokens(NamedAtoms(named, depth), trailing) + tail
         == TokensOf(PairAtoms(named[0], depth))
            + ((if |named| == 1 && !trailing then [] else [COMMA]) + (PartTokens(NamedAtoms(named[1..], depth), trailing) + tail))
  {
    assert NamedAtoms(named, depth)[1..] == NamedAtoms(named[1..], depth);
  }

  lemma {:induction false} PairReads(pair: Pair, depth: nat, more: seq<Token>, fields: seq<Entry>, values: seq<Value>)
    requires GoodPair(pair) && Stops(more)
    ensures ReadFields(TokensOf(PairAtoms(pair, depth)) + more, fields, values)
         == ReadFields(Separated(more), StorePair(fields, BackPair(pair)), values)
    decreases pair, 0
  {
    var doc := TokensOf(DocAtoms(pair.doc, depth));
    DocReads(pair.doc, depth, more);
    FieldReads(pair.key, doc + more, fields, values, Normal(BackDoc(pair.doc)), more);
    PairTokens(pair, depth);
    TokensAssociate(KeyTokens(pair.key), doc, more);
  }

  lemma {:induction false} ItemsRead(items: seq<Doc>, depth: nat, trailing: bool, fields: seq<Entry>, values: seq<Value>,
                                     more: seq<Token>)
    requires forall i :: 0 <= i < |items| ==> GoodDoc(items[i])
    ensures ReadFields(PartTokens(ItemAtoms(items, depth), trailing) + ([CLOSE] + more), fields, values)
         == Ok((Table(Positioned(fields, values + NormalItems(BackDocs(items)))), more))
    decreases items, 0
  {
    if items == [] {
      NoItems(depth, trailing, fields, values, more);
    } else {
      var last := |items| == 1;
      var comma: seq<Token> := if last && !trailing then [] else [COMMA];
      var rest := PartTokens(ItemAtoms(items[1..], depth), trailing) + ([CLOSE] + more);
      assert last ==> rest == [CLOSE] + more;
      SeparatorSkipped(last, trailing, rest);
      ItemReads(items[0], depth, comma + rest, fields, values);
      ItemsRead(items[1..], depth, trailing, fields, values + [Normal(BackDoc(items[0]))], more);
      assert BackDocs(items)[1..] == BackDocs(items[1..]);
      MoreItems(values, BackDocs(items));
      ItemsSplit(items, depth, trailing, [CLOSE] + more);
    }
  }

  lemma NoItems(depth: nat, trailing: bool, fields: seq<Entry>, values: seq<Value>, more: seq<Token>)
    ensures ReadFields(PartTokens(ItemAtoms([], depth), trailing) + ([CLOSE] + more), fields, values)
         == Ok((Table(Positioned(fields, values + NormalItems([]))), more))
  {
    FieldsClose(fields, values, more);
    assert [] + ([CLOSE] + more) == [CLOSE] + more && values + [] == values;
  }

  lemma MoreItems(values: seq<Value>, items: seq<Doc>)
    requires items != []
    ensures values + [Normal(items[0])] + NormalItems(items[1..]) == values + NormalItems(items)
  {
  }

  lemma {:induction false} ItemReads(item: Doc, depth: nat, more: seq<Token>, fields: seq<Entry>, values: seq<Value>)
    requires GoodDoc(item) && Stops(more)
    ensures ReadFields(TokensOf(DocAtoms(item, depth)) + more, fields, values)
         == ReadFields(Separated(more), fields, values + [Normal(BackDoc(item))])
    decreases item, 1
  {
    DocReads(item, depth, more);
    DocStarts(item, depth, more);
    FieldsItem(TokensOf(DocAtoms(item, depth)) + more, fields, values, Normal(BackDoc(item)), more);
  }

  lemma ItemsSplit(items: seq<Doc>, depth: nat, trailing: bool, tail: seq<Token>)
    requires items != []
    ensures PartTokens(ItemAtoms(items, depth), trailing) + tail
         == TokensOf(DocAtoms(items[0], depth))
            + ((if |items| == 1 && !trailing then [] else [COMMA]) + (PartTokens(ItemAtoms(items[1..], depth), trailing) + tail))
  {
    assert ItemAtoms(items, depth)[1..] == ItemAtoms(items[1..], depth);
  }

  /** Reading what was printed gives the printed layout's value, its strings as they come back, in whichever layout. */
  lemma PrintedReads(doc: Doc, depth: nat)
    requires GoodDoc(doc)
    ensures Read(DocText(doc, depth)) == Ok((Normal(BackDoc(doc)), []))
  {
    GoodIsLoose(doc);
    LooseIsGood(doc);
    PrintedTokens(doc, depth);
    DocReads(doc, depth, []);
    assert TokensOf(DocAtoms(doc, depth)) + [] == TokensOf(DocAtoms(doc, depth));
  }
}
