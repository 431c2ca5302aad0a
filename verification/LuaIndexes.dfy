/**
 References with an index. The reader takes `a[1]` for a reference and the printer writes it `a.1`, which
 the reader does not take for one: wherever such a reference stands in a printed layout, be it deep inside
 tables, reading stops at its dot or fails there. Where there is none, the layout is read to its end. The
 tokens up to the first such reference are known, and the next one is some number; that is all that is said
 about what the tokenizer makes of the text behind, since a digit there may join with what follows it.
 */
module LuaIndexes {
  import opened LuaText
  import opened LuaTokens
  import opened LuaAtoms
  import opened LuaReader
  import opened LuaReading
  import opened Options

  // --------------------------------------------------------------------------------
  // Where reading stops
  // --------------------------------------------------------------------------------

  /** Reading fails on something unexpected, or stops before a dot. */
  predicate Jams(r: Parsed) {
    match r
    case Ok((_, rest)) => rest != [] && rest[0] == DOT
    case Err(e) => e == Unexpected
  }

  predicate NumberFirst(tokens: seq<Token>) {
    tokens != [] && tokens[0].kind.Number?
  }

  /** The tokens behind a name, up to the first index. */
  function DotsBefore(parts: seq<string>): seq<Token> {
    if parts == [] then []
    else if IsIndex(parts[0]) then [DOT]
    else [DOT, Token(Name, parts[0])] + DotsBefore(parts[1..])
  }

  predicate NamesAndIndices(parts: seq<string>) {
    forall i :: 0 <= i < |parts| ==> IsIdentifier(parts[i]) || IsIndex(parts[i])
  }

  lemma HeadStray(parts: seq<string>)
    requires |parts| > 1 && NamesAndIndices(parts) && IsIdentifier(parts[0])
    ensures BeforeStray(RefAtoms(parts)) == [Token(Name, parts[0]), DOT] + BeforeStray(RefAtoms(parts[1..]))
  {
    var head := [Tok(Name, parts[0]), Operator('.')];
    assert IsNameStart(parts[0][0]);
    assert RefAtoms(parts) == head + RefAtoms(parts[1..]);
    NoStrays(head);
    StrayConcat(head, RefAtoms(parts[1..]));
    NameDot(parts[0], []);
    assert head + [] == head && TokensOf([]) == [];
    assert [Token(Name, parts[0]), DOT] + [] == [Token(Name, parts[0]), DOT];
  }

  lemma {:induction false} RefBefore(parts: seq<string>)
    requires parts != [] && NamesAndIndices(parts) && IsIdentifier(parts[0]) && HasIndex(parts[1..])
    ensures BeforeStray(RefAtoms(parts)) == [Token(Name, parts[0])] + DotsBefore(parts[1..])
  {
    var rest := parts[1..];
    HeadStray(parts);
    if IsIndex(rest[0]) {
      assert RefAtoms(rest)[0] == Stray(rest[0]);
      assert [Token(Name, parts[0]), DOT] + [] == [Token(Name, parts[0])] + [DOT];
    } else {
      var i :| 0 <= i < |rest| && IsIndex(rest[i]);
      assert IsIndex(rest[1..][i - 1]);
      RefBefore(rest);
      DotMoves(parts[0], rest[0], DotsBefore(rest[1..]));
    }
  }

  lemma {:induction false} DotsJam(parts: seq<string>, ts: seq<Token>)
    requires NamesAndIndices(parts) && HasIndex(parts) && NumberFirst(ts)
    ensures var rest := DottedParts(DotsBefore(parts) + ts).1; rest != [] && rest[0] == DOT
  {
    var tokens := DotsBefore(parts) + ts;
    if IsIndex(parts[0]) {
      assert tokens == [DOT] + ts && tokens[1] == ts[0];
    } else {
      var i :| 0 <= i < |parts| && IsIndex(parts[i]);
      assert IsIndex(parts[1..][i - 1]);
      DotsJam(parts[1..], ts);
      assert tokens == [DOT, Token(Name, parts[0])] + (DotsBefore(parts[1..]) + ts);
      assert tokens[2..] == DotsBefore(parts[1..]) + ts;
    }
  }

  lemma NameJams(name: string, tail: seq<Token>)
    requires IsIdentifier(name) && !Reserved(name)
    requires var rest := DottedParts(tail).1; rest != [] && rest[0] == DOT
    ensures Jams(ReadValue([Token(Name, name)] + tail))
  {
    var tokens := [Token(Name, name)] + tail;
    assert tokens[1..] == tail;
    assert IsNameStart(name[0]);
    assert ReadPlain(tokens) == ReadName(tokens);
  }

  lemma RefJams(parts: seq<string>, ts: seq<Token>)
    requires IsRef(parts) && HasIndex(parts) && NumberFirst(ts)
    ensures Jams(ReadValue(BeforeStray(RefAtoms(parts)) + ts))
    ensures var tokens := BeforeStray(RefAtoms(parts)) + ts;
            |tokens| > 1 && tokens[0] == Token(Name, parts[0]) && tokens[1] == DOT
  {
    IndexBehind(parts);
    var dots := DotsBefore(parts[1..]);
    RefBefore(parts);
    DotsJam(parts[1..], ts);
    NameJams(parts[0], dots + ts);
    TokensAssociate([Token(Name, parts[0])], dots, ts);
    assert dots[0] == DOT;
  }

  lemma IndexBehind(parts: seq<string>)
    requires IsRef(parts) && HasIndex(parts)
    ensures HasIndex(parts[1..]) && NamesAndIndices(parts[1..])
  {
    var i :| 0 <= i < |parts| && IsIndex(parts[i]);
    assert IsNameStart(parts[0][0]);
    assert IsIndex(parts[1..][i - 1]);
  }

  // Tables

  /** The parts of a table up to the first stray, with a comma behind each whole one. */
  function PartsBefore(parts: seq<seq<Atom>>): seq<Token> {
    if parts == [] then []
    else if HasStray(parts[0]) then BeforeStray(parts[0])
    else TokensOf(parts[0]) + ([COMMA] + PartsBefore(parts[1..]))
  }

  lemma {:induction false} JoinBefore(parts: seq<seq<Atom>>)
    requires AnyStray(parts)
    ensures BeforeStray(JoinAtoms(parts)) == PartsBefore(parts)
  {
    if |parts| == 1 {
      assert parts[1..] == [];
    } else {
      var comma := [Operator(','), Gap(" ")];
      assert JoinAtoms(parts) == parts[0] + (comma + JoinAtoms(parts[1..]));
      StrayConcat(parts[0], comma + JoinAtoms(parts[1..]));
      if !HasStray(parts[0]) {
        JoinBefore(parts[1..]);
        CommaBefore(" ", JoinAtoms(parts[1..]));
      }
    }
  }

  lemma CommaBefore(space: string, tail: seq<Atom>)
    ensures BeforeStray([Operator(','), Gap(space)] + tail) == [COMMA] + BeforeStray(tail)
  {
    NoStrays([Operator(','), Gap(space)]);
    StrayConcat([Operator(','), Gap(space)], tail);
    CommaToken(space);
  }

  lemma GapBefore(space: string, tail: seq<Atom>)
    ensures BeforeStray([Gap(space)] + tail) == BeforeStray(tail)
  {
    assert ([Gap(space)] + tail)[1..] == tail;
    assert [] + BeforeStray(tail) == BeforeStray(tail);
  }

  lemma {:induction false} LineBefore(parts: seq<seq<Atom>>, indent: string)
    requires AnyStray(parts)
    ensures BeforeStray(LineAtoms(parts, indent)) == PartsBefore(parts)
  {
    var comma := [Operator(','), Gap("\n")];
    var tail := comma + LineAtoms(parts[1..], indent);
    assert LineAtoms(parts, indent) == [Gap(indent)] + (parts[0] + tail);
    GapBefore(indent, parts[0] + tail);
    StrayConcat(parts[0], tail);
    if !HasStray(parts[0]) {
      LineBefore(parts[1..], indent);
      CommaBefore("\n", LineAtoms(parts[1..], indent));
    }
  }

  lemma EnclosedBefore(space: string, inner: seq<Atom>, last: string)
    requires HasStray(inner)
    ensures BeforeStray([Operator('{'), Gap(space)] + inner + [Gap(last), Operator('}')]) == [OPEN] + BeforeStray(inner)
  {
    var all := [Operator('{')] + ([Gap(space)] + (inner + [Gap(last), Operator('}')]));
    assert all == [Operator('{'), Gap(space)] + inner + [Gap(last), Operator('}')];
    StrayConcat(inner, [Gap(last), Operator('}')]);
    GapBefore(space, inner + [Gap(last), Operator('}')]);
    assert all[1..] == [Gap(space)] + (inner + [Gap(last), Operator('}')]);
  }

  lemma BracedBefore(parts: seq<seq<Atom>>, oneLine: bool, depth: nat)
    requires AnyStray(parts)
    ensures BeforeStray(BracedAtoms(parts, oneLine, depth)) == [OPEN] + PartsBefore(parts)
  {
    if oneLine {
      JoinStray(parts);
      JoinBefore(parts);
      EnclosedBefore(" ", JoinAtoms(parts), " ");
    } else {
      LineStray(parts, Tabs(depth + 1));
      LineBefore(parts, Tabs(depth + 1));
      EnclosedBefore("\n", LineAtoms(parts, Tabs(depth + 1)), Tabs(depth));
    }
  }

  /** No field or item starts with a dot. */
  lemma DotFails(tokens: seq<Token>, fields: seq<Entry>, items: seq<Value>)
    requires tokens != [] && tokens[0] == DOT
    ensures ReadFields(Separated(tokens), fields, items) == Err(Unexpected)
  {
    assert ReadPlain(tokens) == Err(Unexpected);
    assert ReadValue(tokens) == Err(Unexpected);
  }

  lemma NamedFails(name: string, tail: seq<Token>, fields: seq<Entry>, items: seq<Value>)
    requires IsIdentifier(name) && ReadValue(tail) == Err(Unexpected)
    ensures ReadFields([Token(Name, name), EQUALS] + tail, fields, items) == Err(Unexpected)
  {
    var tokens := [Token(Name, name), EQUALS] + tail;
    assert IsNameStart(name[0]);
    assert tokens[2..] == tail;
  }

  lemma KeyedFails(inner: seq<Token>, keyValue: Value, tail: seq<Token>, fields: seq<Entry>, items: seq<Value>)
    requires ReadValue(tail) == Err(Unexpected)
    requires ReadValue(inner + [RIGHT, EQUALS] + tail) == Ok((keyValue, [RIGHT, EQUALS] + tail))
    ensures ReadFields([LEFT] + inner + [RIGHT, EQUALS] + tail, fields, items) == Err(Unexpected)
  {
    var tokens := [LEFT] + inner + [RIGHT, EQUALS] + tail;
    assert tokens[1..] == inner + [RIGHT, EQUALS] + tail;
    assert ([RIGHT, EQUALS] + tail)[2..] == tail;
    assert ReadKeyed(tokens) == Err(Unexpected);
  }

  lemma BracketedFails(inner: seq<Atom>, keyValue: Value, tail: seq<Token>, fields: seq<Entry>, items: seq<Value>)
    requires ReadValue(tail) == Err(Unexpected)
    requires ReadValue(TokensOf(inner) + ([RIGHT, EQUALS] + tail)) == Ok((keyValue, [RIGHT, EQUALS] + tail))
    ensures ReadFields(TokensOf([Operator('[')] + inner + [Operator(']')]) + [EQUALS] + tail, fields, items) == Err(Unexpected)
  {
    var ts := TokensOf(inner);
    BracketTokens(inner);
    assert ts + ([RIGHT, EQUALS] + tail) == ts + [RIGHT, EQUALS] + tail;
    KeyedFails(ts, keyValue, tail, fields, items);
    assert [LEFT] + ts + [RIGHT] + [EQUALS] + tail == [LEFT] + ts + [RIGHT, EQUALS] + tail;
  }

  lemma FieldFails(key: Key, tail: seq<Token>, fields: seq<Entry>, items: seq<Value>)
    requires ReadValue(tail) == Err(Unexpected)
    ensures ReadFields(KeyTokens(key) + tail, fields, items) == Err(Unexpected)
  {
    match key
    case IntKey(i) =>
      IntReads(i, [RIGHT, EQUALS] + tail);
      BracketedFails(IntAtoms(i), Int(i), tail, fields, items);
    case StrKey(s) =>
      if IsIdentifier(s) {
        OneToken(Name, s);
        NamedFails(s, tail, fields, items);
        assert KeyTokens(key) == [Token(Name, s), EQUALS];
      } else if TakenForIdentifier(s) {
        NameLineTokens(s[..|s| - 1]);
        NamedFails(s[..|s| - 1], tail, fields, items);
        assert KeyTokens(key) == [Token(Name, s[..|s| - 1]), EQUALS];
      } else {
        var q := [Tok(StringLit, Quoted(s))];
        StringReads(s, [RIGHT, EQUALS] + tail);
        OneToken(StringLit, Quoted(s));
        BracketedFails(q, Str(ReadBack(s)), tail, fields, items);
        assert [Operator('[')] + q + [Operator(']')] == KeyAtoms(key);
      }
  }

  /** A field whose value jams makes the table fail. */
  lemma FieldJams(key: Key, tail: seq<Token>, fields: seq<Entry>, items: seq<Value>)
    requires Jams(ReadValue(tail))
    ensures ReadFields(KeyTokens(key) + tail, fields, items) == Err(Unexpected)
  {
    match ReadValue(tail)
    case Err(_) => FieldFails(key, tail, fields, items);
    case Ok((v, rest)) =>
      FieldReads(key, tail, fields, items, v, rest);
      DotFails(rest, Store(fields, BackKey(key), v), items);
  }

  lemma ItemJams(tokens: seq<Token>, fields: seq<Entry>, items: seq<Value>)
    requires Jams(ReadValue(tokens)) && StartsItem(tokens)
    ensures ReadFields(tokens, fields, items) == Err(Unexpected)
  {
    match ReadValue(tokens)
    case Err(_) =>
    case Ok((v, rest)) =>
      FieldsItem(tokens, fields, items, v, rest);
      DotFails(rest, fields, items + [v]);
  }

  lemma TableJams(parts: seq<seq<Atom>>, oneLine: bool, depth: nat, ts: seq<Token>)
    requires AnyStray(parts) && ReadFields(PartsBefore(parts) + ts, [], []) == Err(Unexpected)
    ensures var tokens := BeforeStray(BracedAtoms(parts, oneLine, depth)) + ts;
            ReadValue(tokens) == Err(Unexpected) && StartsItem(tokens)
  {
    BracedBefore(parts, oneLine, depth);
    TokensAssociate([OPEN], PartsBefore(parts), ts);
    assert ([OPEN] + (PartsBefore(parts) + ts))[1..] == PartsBefore(parts) + ts;
  }

  lemma PairBefore(pair: Pair, depth: nat)
    requires Indexed(pair.doc)
    ensures BeforeStray(PairAtoms(pair, depth)) == KeyTokens(pair.key) + BeforeStray(DocAtoms(pair.doc, depth))
  {
    var head := KeyAtoms(pair.key) + [Gap(" "), Operator('='), Gap(" ")];
    KeyStray(pair.key);
    NoStrays([Gap(" "), Operator('='), Gap(" ")]);
    StrayConcat(KeyAtoms(pair.key), [Gap(" "), Operator('='), Gap(" ")]);
    StrayConcat(head, DocAtoms(pair.doc, depth));
    PairTokens(pair, depth);
    TokensConcat(head, DocAtoms(pair.doc, depth));
    SameHead(TokensOf(head), KeyTokens(pair.key), TokensOf(DocAtoms(pair.doc, depth)));
  }

  lemma SameHead(a: seq<Token>, b: seq<Token>, c: seq<Token>)
    requires a + c == b + c
    ensures a == b
  {
    assert |a| == |b|;
    assert (a + c)[..|a|] == a && (b + c)[..|b|] == b;
  }

  lemma LeafJams(parts: seq<string>, ts: seq<Token>)
    requires IsRef(parts) && HasIndex(parts) && NumberFirst(ts)
    ensures Jams(ReadValue(BeforeStray(RefAtoms(parts)) + ts)) && StartsItem(BeforeStray(RefAtoms(parts)) + ts)
  {
    RefJams(parts, ts);
    assert IsNameStart(parts[0][0]);
  }

  /** Wherever the reference with an index stands, the tokens up to it do not read to the end. */
  lemma {:induction false} DocJams(doc: Doc, depth: nat, ts: seq<Token>)
    requires LooseDoc(doc) && Indexed(doc) && NumberFirst(ts)
    ensures Jams(ReadValue(BeforeStray(DocAtoms(doc, depth)) + ts))
    ensures StartsItem(BeforeStray(DocAtoms(doc, depth)) + ts)
    decreases doc, 0
  {
    match doc
    case Leaf(v) =>
      LeafJams(v.parts, ts);
    case Group(named, items) =>
      var parts := NamedAtoms(named, depth + 1) + ItemAtoms(items, depth + 1);
      NamedStray(named, depth + 1);
      ItemsStray(items, depth + 1);
      AnyStrayConcat(NamedAtoms(named, depth + 1), ItemAtoms(items, depth + 1));
      if AnyStray(ItemAtoms(items, depth + 1)) {
        ItemsJam(items, depth + 1, ts, StoreNamed([], BackPairs(named)), []);
      }
      NamedJam(named, items, depth + 1, ts, [], []);
      TableJams(parts, OneLine(NamedTexts(named, depth + 1) + ArrayTexts(items, depth + 1), Flat(doc), depth), depth, ts);
  }

  lemma WholePart(part: seq<Token>, rest: seq<Token>, ts: seq<Token>)
    ensures part + ([COMMA] + rest) + ts == part + ([COMMA] + (rest + ts))
    ensures Stops([COMMA] + (rest + ts)) && Separated([COMMA] + (rest + ts)) == rest + ts
  {
    assert ([COMMA] + (rest + ts))[1..] == rest + ts;
  }

  lemma {:induction false} NamedJam(named: seq<Pair>, items: seq<Doc>, depth: nat, ts: seq<Token>, fields: seq<Entry>,
                                    values: seq<Value>)
    requires (forall i :: 0 <= i < |named| ==> LoosePair(named[i])) && (forall i :: 0 <= i < |items| ==> LooseDoc(items[i]))
    requires AnyStray(NamedAtoms(named, depth) + ItemAtoms(items, depth)) && NumberFirst(ts)
    requires AnyStray(ItemAtoms(items, depth)) ==>
               ReadFields(PartsBefore(ItemAtoms(items, depth)) + ts, StoreNamed(fields, BackPairs(named)), values) == Err(Unexpected)
    ensures ReadFields(PartsBefore(NamedAtoms(named, depth) + ItemAtoms(items, depth)) + ts, fields, values) == Err(Unexpected)
    decreases named, 1
  {
    if named == [] {
      assert NamedAtoms(named, depth) + ItemAtoms(items, depth) == ItemAtoms(items, depth);
      assert AnyStray(ItemAtoms(items, depth));
    } else {
      var parts := NamedAtoms(named, depth) + ItemAtoms(items, depth);
      assert NamedAtoms(named, depth)[1..] == NamedAtoms(named[1..], depth);
      assert parts[0] == PairAtoms(named[0], depth) && parts[1..] == NamedAtoms(named[1..], depth) + ItemAtoms(items, depth);
      PairStray(named[0], depth);
      if PairIndexed(named[0]) {
        PairJams(named[0], depth, ts, fields, values);
      } else {
        var rest := PartsBefore(parts[1..]);
        LoosePairIsGood(named[0]);
        WholePart(TokensOf(parts[0]), rest, ts);
        PairReads(named[0], depth, [COMMA] + (rest + ts), fields, values);
        assert BackPairs(named)[1..] == BackPairs(named[1..]);
        NamedJam(named[1..], items, depth, ts, StorePair(fields, BackPair(named[0])), values);
      }
    }
  }

  lemma {:induction false} PairJams(pair: Pair, depth: nat, ts: seq<Token>, fields: seq<Entry>, values: seq<Value>)
    requires LoosePair(pair) && PairIndexed(pair) && NumberFirst(ts)
    ensures ReadFields(BeforeStray(PairAtoms(pair, depth)) + ts, fields, values) == Err(Unexpected)
    decreases pair, 0
  {
    var doc := BeforeStray(DocAtoms(pair.doc, depth));
    DocJams(pair.doc, depth, ts);
    PairBefore(pair, depth);
    FieldJams(pair.key, doc + ts, fields, values);
    TokensAssociate(KeyTokens(pair.key), doc, ts);
  }

  lemma {:induction false} ItemsJam(items: seq<Doc>, depth: nat, ts: seq<Token>, fields: seq<Entry>, values: seq<Value>)
    requires (forall i :: 0 <= i < |items| ==> LooseDoc(items[i])) && AnyStray(ItemAtoms(items, depth)) && NumberFirst(ts)
    ensures ReadFields(PartsBefore(ItemAtoms(items, depth)) + ts, fields, values) == Err(Unexpected)
    decreases items, 1
  {
    var parts := ItemAtoms(items, depth);
    assert parts[1..] == ItemAtoms(items[1..], depth);
    DocStray(items[0], depth);
    if Indexed(items[0]) {
      DocJams(items[0], depth, ts);
      ItemJams(BeforeStray(parts[0]) + ts, fields, values);
    } else {
      var rest := PartsBefore(parts[1..]);
      LooseIsGood(items[0]);
      WholePart(TokensOf(parts[0]), rest, ts);
      ItemReads(items[0], depth, [COMMA] + (rest + ts), fields, values);
      ItemsJam(items[1..], depth, ts, fields, values + [Normal(BackDoc(items[0]))]);
    }
  }

  /** A printed layout is read to its end if and only if none of its references has an index; reading never meets what the data reader leaves out. */
  lemma PrintedReadsExactly(doc: Doc, depth: nat)
    requires LooseDoc(doc)
    ensures var r := Read(DocText(doc, depth)); r.Ok? && r.value.1 == [] <==> !Indexed(doc)
    ensures Read(DocText(doc, depth)).Err? ==> !Read(DocText(doc, depth)).error.Unsupported?
  {
    LooseIsGood(doc);
    ScanFails(Pattern(), DocText(doc, depth));
    if Indexed(doc) {
      PrintedStrays(doc, depth);
      var r := Tokenize(DocText(doc, depth));
      if r.Ok? {
        var before := BeforeStray(DocAtoms(doc, depth));
        DocJams(doc, depth, r.value[|before|..]);
        assert before + r.value[|before|..] == r.value;
      }
    } else {
      PrintedReads(doc, depth);
    }
  }
}
