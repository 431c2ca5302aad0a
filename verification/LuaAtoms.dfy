/**
 Printed text, piece by piece. Whatever the printer writes, in one line or in many, is a row of
 atoms: white space, or the text of one token. The atoms put together are the printed text, and
 each of them stands as one token wherever the printer puts it, because of the character that
 follows it there. So the tokenizer gives exactly the printed tokens back, and the reader need
 not know how the text was laid out.
 */
module LuaAtoms {
  import opened LuaText
  import opened LuaTokens
  import opened Options

  // --------------------------------------------------------------------------------
  // Single tokens
  // --------------------------------------------------------------------------------

  lemma {:induction false} RunAcross(s: string, i: nat, p: char -> bool, n: nat)
    requires i <= n <= |s| && (forall k :: i <= k < n ==> p(s[k])) && (n < |s| ==> !p(s[n]))
    ensures RunEnd(s, i, p) == n
    decreases n - i
  {
    if i < n {
      RunAcross(s, i + 1, p, n);
    }
  }

  lemma NameStands(name: string, rest: string)
    requires IsIdentifier(name) && (rest != "" ==> !IsNameChar(rest[0]))
    ensures Stands(Tok(Name, name), rest)
  {
    var s := name + rest;
    assert s[0] == name[0] && (rest != "" ==> s[|name|] == rest[0]);
    forall k | 0 <= k < |name| ensures IsNameChar(s[k]) {
      assert s[k] == name[k];
    }
    RunAcross(s, 1, IsNameChar, |name|);
  }

  predicate EndsNumber(rest: string) {
    rest != "" ==> !IsDigit(rest[0]) && rest[0] !in ".eExX"
  }

  lemma NumberStands(n: nat, rest: string)
    requires EndsNumber(rest)
    ensures Stands(Tok(Number, Decimal(n)), rest)
  {
    var d := Decimal(n);
    var s := d + rest;
    assert s[0] == d[0] && (rest != "" ==> s[|d|] == rest[0]);
    forall k | 0 <= k < |d| ensures IsDigit(s[k]) {
      assert s[k] == d[k];
    }
    RunAcross(s, 1, IsDigit, |d|);
    assert |s| >= 2 ==> s[1] != 'x' && s[1] != 'X';
  }

  lemma {:induction false} QuoteThrough(before: string, s: string, rest: string)
    ensures QuoteEnd(before + Escaped(s) + "\"" + rest, '"', |before|) == Some(|before| + |Escaped(s)| + 1)
    decreases |s|
  {
    var all := before + Escaped(s) + "\"" + rest;
    if s == "" {
      assert all[|before|] == '"';
    } else {
      var e := Escape(s[0]);
      assert all == (before + e) + Escaped(s[1..]) + "\"" + rest;
      QuoteThrough(before + e, s[1..], rest);
      assert all[|before|] == e[0];
    }
  }

  lemma StringStands(s: string, rest: string)
    ensures Stands(Tok(StringLit, Quoted(s)), rest)
  {
    var all := Quoted(s) + rest;
    assert all == "\"" + Escaped(s) + "\"" + rest;
    QuoteThrough("\"", s, rest);
  }

  /** When an operator of one character is not taken for the start of something longer. */
  predicate EndsOperator(c: char, rest: string) {
    match c
    case '-' => rest != "" ==> rest[0] != '-'
    case '[' => rest != "" ==> rest[0] != '[' && rest[0] != '='
    case '=' => rest != "" ==> rest[0] != '='
    case '.' => rest != "" ==> rest[0] != '.'
    case _ => c in {'{', '}', ']', ','}
  }

  lemma NoLongBracket(c: char, rest: string)
    requires EndsOperator(c, rest)
    ensures LongEnd([c] + rest, 0).None?
  {
    if c == '[' && rest != "" {
      assert RunEnd([c] + rest, 1, x => x == '=') == 1;
    }
  }

  lemma OperatorStands(c: char, rest: string)
    requires EndsOperator(c, rest)
    ensures Stands(Tok(Op, [c]), rest)
  {
    NoLongBracket(c, rest);
    assert ([c] + rest)[0] == c;
    assert rest != "" ==> ([c] + rest)[1] == rest[0];
    assert OperatorEnd([c] + rest) == 1;
  }

  // --------------------------------------------------------------------------------
  // Printed values as atoms
  // --------------------------------------------------------------------------------

  predicate Reserved(s: string) {
    s == "true" || s == "false" || s == "nil" || s == "function"
  }

  /** A part that was a number in brackets. */
  predicate IsIndex(part: string) {
    part != "" && IsDigit(part[0])
  }

  /** What a reference can be: an unreserved name, and behind it names and numbers. */
  predicate IsRef(parts: seq<string>) {
    parts != [] && !Reserved(parts[0]) && IsIdentifier(parts[0])
    && forall i :: 0 <= i < |parts| ==> IsIdentifier(parts[i]) || IsIndex(parts[i])
  }

  predicate HasIndex(parts: seq<string>) {
    exists i :: 0 <= i < |parts| && IsIndex(parts[i])
  }

  /** A dotted name that does not read as something else. */
  predicate GoodRef(parts: seq<string>) {
    parts != [] && !Reserved(parts[0]) && forall i :: 0 <= i < |parts| ==> IsIdentifier(parts[i])
  }

  predicate LooseLeaf(v: Value) {
    match v
    case Ref(parts) => IsRef(parts)
    case Table(_) => false
    case _ => true
  }

  /** Leaves are no tables, and their references what references can be. */
  predicate LooseDoc(doc: Doc) {
    match doc
    case Leaf(v) => LooseLeaf(v)
    case Group(named, items) =>
      && (forall i :: 0 <= i < |named| ==> LoosePair(named[i]))
      && (forall i :: 0 <= i < |items| ==> LooseDoc(items[i]))
  }

  predicate LoosePair(pair: Pair) {
    LooseDoc(pair.doc)
  }

  /** Some reference in it has an index. */
  predicate Indexed(doc: Doc) {
    match doc
    case Leaf(v) => v.Ref? && HasIndex(v.parts)
    case Group(named, items) =>
      || (exists i :: 0 <= i < |named| && PairIndexed(named[i]))
      || (exists i :: 0 <= i < |items| && Indexed(items[i]))
  }

  predicate PairIndexed(pair: Pair) {
    Indexed(pair.doc)
  }

  /** Without an index, a document is good. */
  lemma {:induction false} LooseIsGood(doc: Doc)
    requires LooseDoc(doc)
    ensures GoodDoc(doc) <==> !Indexed(doc)
    decreases doc, 0
  {
    match doc
    case Leaf(v) =>
      if v.Ref? {
        forall i | 0 <= i < |v.parts| ensures !(IsIdentifier(v.parts[i]) && IsIndex(v.parts[i])) {
        }
      }
    case Group(named, items) =>
      forall i | 0 <= i < |named| ensures GoodPair(named[i]) <==> !PairIndexed(named[i]) {
        assert LoosePair(named[i]);
        LoosePairIsGood(named[i]);
      }
      forall i | 0 <= i < |items| ensures GoodDoc(items[i]) <==> !Indexed(items[i]) {
        LooseIsGood(items[i]);
      }
  }

  lemma {:induction false} LoosePairIsGood(pair: Pair)
    requires LoosePair(pair)
    ensures GoodPair(pair) <==> !PairIndexed(pair)
    decreases pair, 0
  {
    LooseIsGood(pair.doc);
  }

  lemma {:induction false} GoodIsLoose(doc: Doc)
    requires GoodDoc(doc)
    ensures LooseDoc(doc)
    decreases doc, 0
  {
    if doc.Group? {
      forall i | 0 <= i < |doc.named| ensures LoosePair(doc.named[i]) {
        GoodPairIsLoose(doc.named[i]);
      }
      forall i | 0 <= i < |doc.items| ensures LooseDoc(doc.items[i]) {
        GoodIsLoose(doc.items[i]);
      }
    }
  }

  lemma {:induction false} GoodPairIsLoose(pair: Pair)
    requires GoodPair(pair)
    ensures LoosePair(pair)
    decreases pair, 0
  {
    GoodIsLoose(pair.doc);
  }

  predicate GoodLeaf(v: Value) {
    match v
    case Ref(parts) => GoodRef(parts)
    case Table(_) => false
    case _ => true
  }

  /** Leaves are no tables, and their references dotted names. */
  predicate GoodDoc(doc: Doc) {
    match doc
    case Leaf(v) => GoodLeaf(v)
    case Group(named, items) =>
      && (forall i :: 0 <= i < |named| ==> GoodPair(named[i]))
      && (forall i :: 0 <= i < |items| ==> GoodDoc(items[i]))
  }

  predicate GoodPair(pair: Pair) {
    GoodDoc(pair.doc)
  }

  function Operator(c: char): Atom {
    Tok(Op, [c])
  }

  function IntAtoms(i: int): seq<Atom> {
    if i < 0 then [Operator('-'), Tok(Number, Decimal(-i))] else [Tok(Number, Decimal(i))]
  }

  function PartAtom(part: string): Atom {
    if IsIndex(part) then Stray(part) else Tok(Name, part)
  }

  function RefAtoms(parts: seq<string>): seq<Atom> {
    if parts == [] then []
    else if |parts| == 1 then [PartAtom(parts[0])]
    else [PartAtom(parts[0]), Operator('.')] + RefAtoms(parts[1..])
  }

  function LeafAtoms(v: Value): seq<Atom> {
    match v
    case Nil => [Tok(Name, "nil")]
    case Bool(b) => [Tok(Name, if b then "true" else "false")]
    case Int(i) => IntAtoms(i)
    case Str(s) => [Tok(StringLit, Quoted(s))]
    case Ref(parts) => RefAtoms(parts)
    case Table(_) => [Operator('{'), Operator('}')]
  }

  function KeyAtoms(key: Key): seq<Atom> {
    match key
    case IntKey(i) => [Operator('[')] + IntAtoms(i) + [Operator(']')]
    case StrKey(s) =>
      if IsIdentifier(s) then [Tok(Name, s)]
      else if TakenForIdentifier(s) then [Tok(Name, s[..|s| - 1]), Gap("\n")]
      else [Operator('['), Tok(StringLit, Quoted(s)), Operator(']')]
  }

  function DocAtoms(doc: Doc, depth: nat): seq<Atom>
    decreases doc, 0
  {
    match doc
    case Leaf(v) => LeafAtoms(v)
    case Group(named, items) =>
      if named == [] && items == [] then [Operator('{'), Operator('}')]
      else
        BracedAtoms(NamedAtoms(named, depth + 1) + ItemAtoms(items, depth + 1),
                    OneLine(NamedTexts(named, depth + 1) + ArrayTexts(items, depth + 1), Flat(doc), depth), depth)
  }

  function NamedAtoms(named: seq<Pair>, depth: nat): (parts: seq<seq<Atom>>)
    ensures |parts| == |named|
    decreases named, 0
  {
    if named == [] then [] else [PairAtoms(named[0], depth)] + NamedAtoms(named[1..], depth)
  }

  function PairAtoms(pair: Pair, depth: nat): seq<Atom>
    decreases pair, 0
  {
    KeyAtoms(pair.key) + [Gap(" "), Operator('='), Gap(" ")] + DocAtoms(pair.doc, depth)
  }

  function ItemAtoms(items: seq<Doc>, depth: nat): (parts: seq<seq<Atom>>)
    ensures |parts| == |items|
    decreases items, 0
  {
    if items == [] then [] else [DocAtoms(items[0], depth)] + ItemAtoms(items[1..], depth)
  }

  /** Whether Braced chooses the one-line layout. */
  predicate OneLine(parts: seq<string>, flat: bool, depth: nat) {
    flat && depth > 0 && |Single(parts)| <= 160
  }

  function JoinAtoms(parts: seq<seq<Atom>>): seq<Atom> {
    if parts == [] then []
    else if |parts| == 1 then parts[0]
    else parts[0] + [Operator(','), Gap(" ")] + JoinAtoms(parts[1..])
  }

  function LineAtoms(parts: seq<seq<Atom>>, indent: string): seq<Atom> {
    if parts == [] then []
    else [Gap(indent)] + parts[0] + [Operator(','), Gap("\n")] + LineAtoms(parts[1..], indent)
  }

  function BracedAtoms(parts: seq<seq<Atom>>, oneLine: bool, depth: nat): seq<Atom> {
    if oneLine then [Operator('{'), Gap(" ")] + JoinAtoms(parts) + [Gap(" "), Operator('}')]
    else [Operator('{'), Gap("\n")] + LineAtoms(parts, Tabs(depth + 1)) + [Gap(Tabs(depth)), Operator('}')]
  }

  // The atoms make up the text

  lemma FlattenOne(a: Atom)
    ensures Flatten([a]) == a.text
  {
    assert [a][1..] == [];
    assert a.text + "" == a.text;
  }

  lemma FlattenTwo(a: Atom, b: Atom)
    ensures Flatten([a, b]) == a.text + b.text
  {
    FlattenConcat([a], [b]);
    FlattenOne(a);
    FlattenOne(b);
    assert [a] + [b] == [a, b];
  }

  lemma IntFlatten(i: int)
    ensures Flatten(IntAtoms(i)) == IntText(i)
  {
    if i < 0 {
      FlattenTwo(Operator('-'), Tok(Number, Decimal(-i)));
    } else {
      FlattenOne(Tok(Number, Decimal(i)));
    }
  }

  lemma {:induction false} RefFlatten(parts: seq<string>)
    ensures Flatten(RefAtoms(parts)) == Join(parts, ".")
  {
    if |parts| == 1 {
      FlattenOne(PartAtom(parts[0]));
    } else if |parts| > 1 {
      RefFlatten(parts[1..]);
      FlattenTwo(PartAtom(parts[0]), Operator('.'));
      FlattenConcat([PartAtom(parts[0]), Operator('.')], RefAtoms(parts[1..]));
    }
  }

  lemma LeafFlatten(v: Value)
    ensures Flatten(LeafAtoms(v)) == LeafText(v)
  {
    match v
    case Nil => FlattenOne(Tok(Name, "nil"));
    case Bool(b) => FlattenOne(Tok(Name, if b then "true" else "false"));
    case Int(i) => IntFlatten(i);
    case Str(s) => FlattenOne(Tok(StringLit, Quoted(s)));
    case Ref(parts) => RefFlatten(parts);
    case Table(_) => FlattenTwo(Operator('{'), Operator('}'));
  }

  lemma KeyFlatten(key: Key)
    ensures Flatten(KeyAtoms(key)) == KeyText(key)
  {
    match key
    case IntKey(i) =>
      FlattenConcat([Operator('[')] + IntAtoms(i), [Operator(']')]);
      FlattenConcat([Operator('[')], IntAtoms(i));
      FlattenOne(Operator('['));
      FlattenOne(Operator(']'));
      IntFlatten(i);
    case StrKey(s) =>
      if IsIdentifier(s) {
        FlattenOne(Tok(Name, s));
      } else if TakenForIdentifier(s) {
        FlattenTwo(Tok(Name, s[..|s| - 1]), Gap("\n"));
        assert s == s[..|s| - 1] + "\n";
      } else {
        var q := Tok(StringLit, Quoted(s));
        assert [Operator('['), q, Operator(']')] == [Operator('['), q] + [Operator(']')];
        FlattenConcat([Operator('['), q], [Operator(']')]);
        FlattenTwo(Operator('['), q);
        FlattenOne(Operator(']'));
      }
  }

  function Texts(parts: seq<seq<Atom>>): seq<string> {
    if parts == [] then [] else [Flatten(parts[0])] + Texts(parts[1..])
  }

  lemma {:induction false} TextsConcat(a: seq<seq<Atom>>, b: seq<seq<Atom>>)
    ensures Texts(a + b) == Texts(a) + Texts(b)
  {
    if a == [] {
      assert a + b == b;
    } else {
      assert (a + b)[1..] == a[1..] + b;
      TextsConcat(a[1..], b);
    }
  }

  lemma {:induction false} JoinFlatten(parts: seq<seq<Atom>>)
    ensures Flatten(JoinAtoms(parts)) == Join(Texts(parts), ", ")
  {
    if |parts| == 1 {
      assert parts[1..] == [];
      assert Texts(parts) == [Flatten(parts[0])];
    } else if |parts| > 1 {
      JoinFlatten(parts[1..]);
      FlattenConcat(parts[0] + [Operator(','), Gap(" ")], JoinAtoms(parts[1..]));
      FlattenConcat(parts[0], [Operator(','), Gap(" ")]);
      FlattenTwo(Operator(','), Gap(" "));
      assert Texts(parts)[1..] == Texts(parts[1..]);
      assert |Texts(parts)| > 1;
    }
  }

  lemma {:induction false} LineFlatten(parts: seq<seq<Atom>>, indent: string)
    ensures Flatten(LineAtoms(parts, indent)) == Lines(Texts(parts), indent)
  {
    if parts != [] {
      LineFlatten(parts[1..], indent);
      FlattenConcat([Gap(indent)] + parts[0] + [Operator(','), Gap("\n")], LineAtoms(parts[1..], indent));
      FlattenConcat([Gap(indent)] + parts[0], [Operator(','), Gap("\n")]);
      FlattenConcat([Gap(indent)], parts[0]);
      FlattenOne(Gap(indent));
      FlattenTwo(Operator(','), Gap("\n"));
      assert Texts(parts)[1..] == Texts(parts[1..]);
    }
  }

  lemma SingleFlatten(parts: seq<seq<Atom>>)
    ensures Flatten([Operator('{'), Gap(" ")] + JoinAtoms(parts) + [Gap(" "), Operator('}')]) == Single(Texts(parts))
  {
    FlattenConcat([Operator('{'), Gap(" ")] + JoinAtoms(parts), [Gap(" "), Operator('}')]);
    FlattenConcat([Operator('{'), Gap(" ")], JoinAtoms(parts));
    FlattenTwo(Operator('{'), Gap(" "));
    FlattenTwo(Gap(" "), Operator('}'));
    JoinFlatten(parts);
  }

  lemma LinesFlatten(parts: seq<seq<Atom>>, inner: string, outer: string)
    ensures Flatten([Operator('{'), Gap("\n")] + LineAtoms(parts, inner) + [Gap(outer), Operator('}')])
         == "{\n" + Lines(Texts(parts), inner) + outer + "}"
  {
    FlattenConcat([Operator('{'), Gap("\n")] + LineAtoms(parts, inner), [Gap(outer), Operator('}')]);
    FlattenConcat([Operator('{'), Gap("\n")], LineAtoms(parts, inner));
    FlattenTwo(Operator('{'), Gap("\n"));
    FlattenTwo(Gap(outer), Operator('}'));
    LineFlatten(parts, inner);
  }

  lemma BracedFlatten(parts: seq<seq<Atom>>, flat: bool, depth: nat)
    ensures Flatten(BracedAtoms(parts, OneLine(Texts(parts), flat, depth), depth)) == Braced(Texts(parts), flat, depth)
  {
    if OneLine(Texts(parts), flat, depth) {
      SingleFlatten(parts);
    } else {
      LinesFlatten(parts, Tabs(depth + 1), Tabs(depth));
    }
  }

  lemma {:induction false} DocFlatten(doc: Doc, depth: nat)
    ensures Flatten(DocAtoms(doc, depth)) == DocText(doc, depth)
    decreases doc, 0
  {
    match doc
    case Leaf(v) => LeafFlatten(v);
    case Group(named, items) =>
      if named == [] && items == [] {
        FlattenTwo(Operator('{'), Operator('}'));
      } else {
        NamedFlatten(named, depth + 1);
        ItemsFlatten(items, depth + 1);
        TextsConcat(NamedAtoms(named, depth + 1), ItemAtoms(items, depth + 1));
        BracedFlatten(NamedAtoms(named, depth + 1) + ItemAtoms(items, depth + 1), Flat(doc), depth);
      }
  }

  lemma {:induction false} NamedFlatten(named: seq<Pair>, depth: nat)
    ensures Texts(NamedAtoms(named, depth)) == NamedTexts(named, depth)
    decreases named, 0
  {
    if named != [] {
      PairFlatten(named[0], depth);
      NamedFlatten(named[1..], depth);
      assert NamedAtoms(named, depth)[1..] == NamedAtoms(named[1..], depth);
    }
  }

  lemma {:induction false} PairFlatten(pair: Pair, depth: nat)
    ensures Flatten(PairAtoms(pair, depth)) == PairText(pair, depth)
    decreases pair, 0
  {
    var middle := [Gap(" "), Operator('='), Gap(" ")];
    KeyFlatten(pair.key);
    DocFlatten(pair.doc, depth);
    FlattenConcat(KeyAtoms(pair.key) + middle, DocAtoms(pair.doc, depth));
    FlattenConcat(KeyAtoms(pair.key), middle);
    FlattenTwo(Gap(" "), Operator('='));
    FlattenConcat([Gap(" "), Operator('=')], [Gap(" ")]);
    FlattenOne(Gap(" "));
    assert middle == [Gap(" "), Operator('=')] + [Gap(" ")];
    assert Flatten(middle) == " = ";
  }

  lemma {:induction false} ItemsFlatten(items: seq<Doc>, depth: nat)
    ensures Texts(ItemAtoms(items, depth)) == ArrayTexts(items, depth)
    decreases items, 0
  {
    if items != [] {
      DocFlatten(items[0], depth);
      ItemsFlatten(items[1..], depth);
      assert ItemAtoms(items, depth)[1..] == ItemAtoms(items[1..], depth);
    }
  }

  // --------------------------------------------------------------------------------
  // Every atom stands
  // --------------------------------------------------------------------------------

  /** What comes after a printed value. */
  predicate Ends(rest: string) {
    rest != "" ==> rest[0] in ", \n]"
  }

  lemma OneStands(a: Atom, rest: string)
    requires Stands(a, rest)
    ensures AllStand([a], rest)
  {
    assert [a][1..] == [];
    assert "" + rest == rest;
  }

  lemma ConsStands(a: Atom, atoms: seq<Atom>, rest: string)
    requires Stands(a, Flatten(atoms) + rest) && AllStand(atoms, rest)
    ensures AllStand([a] + atoms, rest)
  {
    assert ([a] + atoms)[1..] == atoms;
  }

  lemma IntStands(i: int, rest: string)
    requires Ends(rest)
    ensures AllStand(IntAtoms(i), rest)
  {
    var d := Decimal(if i < 0 then -i else i);
    NumberStands(if i < 0 then -i else i, rest);
    OneStands(Tok(Number, d), rest);
    if i < 0 {
      FlattenOne(Tok(Number, d));
      assert (d + rest)[0] == d[0];
      OperatorStands('-', d + rest);
      ConsStands(Operator('-'), [Tok(Number, d)], rest);
      assert IntAtoms(i) == [Operator('-')] + [Tok(Number, d)];
    }
  }

  lemma {:induction false} RefStands(parts: seq<string>, rest: string)
    requires Ends(rest) && forall i :: 0 <= i < |parts| ==> IsIdentifier(parts[i]) || IsIndex(parts[i])
    ensures AllStand(RefAtoms(parts), rest)
  {
    if |parts| == 1 {
      PartStandsAlone(parts[0], rest);
      OneStands(PartAtom(parts[0]), rest);
    } else if |parts| > 1 {
      RefStands(parts[1..], rest);
      RefFlatten(parts[1..]);
      assert IsIdentifier(parts[1]) || IsIndex(parts[1]);
      assert Join(parts[1..], ".")[0] == parts[1][0];
      DottedStands(parts[0], RefAtoms(parts[1..]), rest);
      assert RefAtoms(parts) == [PartAtom(parts[0]), Operator('.')] + RefAtoms(parts[1..]);
    }
  }

  lemma PartStandsAlone(part: string, rest: string)
    requires (IsIdentifier(part) || IsIndex(part)) && (rest != "" ==> !IsNameChar(rest[0]))
    ensures Stands(PartAtom(part), rest)
  {
    if !IsIndex(part) {
      NameStands(part, rest);
    }
  }

  lemma DottedStands(part: string, tail: seq<Atom>, rest: string)
    requires (IsIdentifier(part) || IsIndex(part)) && AllStand(tail, rest)
    requires Flatten(tail) != "" && Flatten(tail)[0] != '.'
    ensures AllStand([PartAtom(part), Operator('.')] + tail, rest)
  {
    OperatorFirst('.', tail, rest);
    var dotted := [Operator('.')] + tail;
    assert (Flatten(dotted) + rest)[0] == '.' by {
      FlattenConcat([Operator('.')], tail);
      FlattenOne(Operator('.'));
    }
    PartStandsAlone(part, Flatten(dotted) + rest);
    ConsStands(PartAtom(part), dotted, rest);
    assert [PartAtom(part)] + dotted == [PartAtom(part), Operator('.')] + tail;
  }

  lemma OperatorFirst(c: char, tail: seq<Atom>, rest: string)
    requires EndsOperator(c, Flatten(tail) + rest) && AllStand(tail, rest)
    ensures AllStand([Operator(c)] + tail, rest)
  {
    OperatorStands(c, Flatten(tail) + rest);
    ConsStands(Operator(c), tail, rest);
  }

  lemma NameFirst(name: string, tail: seq<Atom>, rest: string)
    requires IsIdentifier(name) && AllStand(tail, rest)
    requires Flatten(tail) + rest != "" ==> !IsNameChar((Flatten(tail) + rest)[0])
    ensures AllStand([Tok(Name, name)] + tail, rest)
  {
    NameStands(name, Flatten(tail) + rest);
    ConsStands(Tok(Name, name), tail, rest);
  }

  lemma LeafStands(v: Value, rest: string)
    requires LooseLeaf(v) && Ends(rest)
    ensures AllStand(LeafAtoms(v), rest)
  {
    match v
    case Nil =>
      NameStands("nil", rest);
      OneStands(Tok(Name, "nil"), rest);
    case Bool(b) =>
      NameStands(if b then "true" else "false", rest);
      OneStands(Tok(Name, if b then "true" else "false"), rest);
    case Int(i) => IntStands(i, rest);
    case Str(s) =>
      StringStands(s, rest);
      OneStands(Tok(StringLit, Quoted(s)), rest);
    case Ref(parts) => RefStands(parts, rest);
  }

  lemma BracketStands(inner: seq<Atom>, rest: string)
    requires AllStand(inner, "]" + rest) && EndsOperator('[', Flatten(inner) + "]" + rest)
    ensures AllStand([Operator('[')] + inner + [Operator(']')], rest)
  {
    OperatorStands(']', rest);
    OneStands(Operator(']'), rest);
    FlattenOne(Operator(']'));
    StandConcat(inner, [Operator(']')], rest);
    FlattenConcat(inner, [Operator(']')]);
    OperatorStands('[', Flatten(inner) + "]" + rest);
    ConsStands(Operator('['), inner + [Operator(']')], rest);
    assert [Operator('[')] + (inner + [Operator(']')]) == [Operator('[')] + inner + [Operator(']')];
  }

  lemma NameThenLine(name: string, rest: string)
    requires IsIdentifier(name)
    ensures AllStand([Tok(Name, name), Gap("\n")], rest)
  {
    OneStands(Gap("\n"), rest);
    FlattenOne(Gap("\n"));
    NameFirst(name, [Gap("\n")], rest);
    assert [Tok(Name, name)] + [Gap("\n")] == [Tok(Name, name), Gap("\n")];
  }

  lemma KeyStands(key: Key, rest: string)
    requires Ends(rest)
    ensures AllStand(KeyAtoms(key), rest)
  {
    match key
    case IntKey(i) =>
      IntStands(i, "]" + rest);
      IntFlatten(i);
      assert (IntText(i) + "]" + rest)[0] == IntText(i)[0];
      BracketStands(IntAtoms(i), rest);
    case StrKey(s) =>
      if IsIdentifier(s) {
        NameStands(s, rest);
        OneStands(Tok(Name, s), rest);
      } else if TakenForIdentifier(s) {
        NameThenLine(s[..|s| - 1], rest);
      } else {
        var q := Tok(StringLit, Quoted(s));
        StringStands(s, "]" + rest);
        OneStands(q, "]" + rest);
        FlattenOne(q);
        assert (Quoted(s) + "]" + rest)[0] == '"';
        BracketStands([q], rest);
        assert [Operator('[')] + [q] + [Operator(']')] == KeyAtoms(key);
      }
  }

  lemma GapStands(text: string, rest: string)
    requires forall i :: 0 <= i < |text| ==> IsSpace(text[i])
    ensures AllStand([Gap(text)], rest)
  {
    OneStands(Gap(text), rest);
  }

  /** The equals sign between a key and its value. */
  lemma EqualsStands(rest: string)
    ensures AllStand([Gap(" "), Operator('='), Gap(" ")], rest)
    ensures Flatten([Gap(" "), Operator('='), Gap(" ")]) == " = "
  {
    GapStands(" ", rest);
    FlattenOne(Gap(" "));
    OperatorStands('=', " " + rest);
    ConsStands(Operator('='), [Gap(" ")], rest);
    FlattenTwo(Operator('='), Gap(" "));
    assert [Operator('='), Gap(" ")] == [Operator('=')] + [Gap(" ")];
    ConsStands(Gap(" "), [Operator('='), Gap(" ")], rest);
    FlattenConcat([Gap(" ")], [Operator('='), Gap(" ")]);
    assert [Gap(" "), Operator('='), Gap(" ")] == [Gap(" ")] + [Operator('='), Gap(" ")];
  }

  /** A part of a table stands before whatever comes after a value. */
  ghost predicate PartStands(part: seq<Atom>) {
    forall rest :: Ends(rest) ==> AllStand(part, rest)
  }

  ghost predicate PartsStand(parts: seq<seq<Atom>>) {
    forall i :: 0 <= i < |parts| ==> PartStands(parts[i])
  }

  /** A comma and white space. */
  lemma CommaStands(space: string, rest: string)
    requires forall i :: 0 <= i < |space| ==> IsSpace(space[i])
    ensures AllStand([Operator(','), Gap(space)], rest) && Flatten([Operator(','), Gap(space)]) == "," + space
  {
    GapStands(space, rest);
    FlattenOne(Gap(space));
    OperatorStands(',', space + rest);
    ConsStands(Operator(','), [Gap(space)], rest);
    FlattenTwo(Operator(','), Gap(space));
    assert [Operator(','), Gap(space)] == [Operator(',')] + [Gap(space)];
  }

  lemma PartThenStands(part: seq<Atom>, space: string, tail: seq<Atom>, rest: string)
    requires PartStands(part) && AllStand(tail, rest) && forall i :: 0 <= i < |space| ==> IsSpace(space[i])
    ensures AllStand(part + [Operator(','), Gap(space)] + tail, rest)
  {
    var comma := [Operator(','), Gap(space)];
    CommaStands(space, Flatten(tail) + rest);
    StandConcat(comma, tail, rest);
    FlattenConcat(comma, tail);
    assert (Flatten(comma + tail) + rest)[0] == ',';
    StandConcat(part, comma + tail, rest);
    assert part + (comma + tail) == part + comma + tail;
  }

  lemma {:induction false} JoinStands(parts: seq<seq<Atom>>, rest: string)
    requires PartsStand(parts) && Ends(rest)
    ensures AllStand(JoinAtoms(parts), rest)
  {
    if |parts| == 1 {
      assert PartStands(parts[0]);
    } else if |parts| > 1 {
      forall i | 0 <= i < |parts| - 1 ensures PartStands(parts[1..][i]) {
        assert PartStands(parts[i + 1]);
      }
      JoinStands(parts[1..], rest);
      PartThenStands(parts[0], " ", JoinAtoms(parts[1..]), rest);
    }
  }

  lemma LineThenStands(indent: string, part: seq<Atom>, tail: seq<Atom>, rest: string)
    requires PartStands(part) && AllStand(tail, rest) && forall i :: 0 <= i < |indent| ==> IsSpace(indent[i])
    ensures AllStand([Gap(indent)] + part + [Operator(','), Gap("\n")] + tail, rest)
  {
    PartThenStands(part, "\n", tail, rest);
    var line := part + [Operator(','), Gap("\n")] + tail;
    ConsStands(Gap(indent), line, rest);
    assert [Gap(indent)] + line == [Gap(indent)] + part + [Operator(','), Gap("\n")] + tail;
  }

  lemma {:induction false} LineStands(parts: seq<seq<Atom>>, indent: string, rest: string)
    requires PartsStand(parts) && forall i :: 0 <= i < |indent| ==> IsSpace(indent[i])
    ensures AllStand(LineAtoms(parts, indent), rest)
  {
    if parts != [] {
      forall i | 0 <= i < |parts| - 1 ensures PartStands(parts[1..][i]) {
        assert PartStands(parts[i + 1]);
      }
      LineStands(parts[1..], indent, rest);
      LineThenStands(indent, parts[0], LineAtoms(parts[1..], indent), rest);
    }
  }

  lemma EnclosedStands(space: string, inner: seq<Atom>, last: string, rest: string)
    requires (forall i :: 0 <= i < |space| ==> IsSpace(space[i])) && forall i :: 0 <= i < |last| ==> IsSpace(last[i])
    requires AllStand(inner, last + "}" + rest)
    ensures AllStand([Operator('{'), Gap(space)] + inner + [Gap(last), Operator('}')], rest)
  {
    var close := [Gap(last), Operator('}')];
    OperatorStands('}', rest);
    OneStands(Operator('}'), rest);
    FlattenOne(Operator('}'));
    ConsStands(Gap(last), [Operator('}')], rest);
    assert close == [Gap(last)] + [Operator('}')];
    FlattenTwo(Gap(last), Operator('}'));
    StandConcat(inner, close, rest);
    GapStands(space, Flatten(inner + close) + rest);
    StandConcat([Gap(space)], inner + close, rest);
    OperatorStands('{', Flatten([Gap(space)] + (inner + close)) + rest);
    ConsStands(Operator('{'), [Gap(space)] + (inner + close), rest);
    assert [Operator('{')] + ([Gap(space)] + (inner + close)) == [Operator('{'), Gap(space)] + inner + close;
  }

  lemma BracedStands(parts: seq<seq<Atom>>, oneLine: bool, depth: nat, rest: string)
    requires PartsStand(parts)
    ensures AllStand(BracedAtoms(parts, oneLine, depth), rest)
  {
    if oneLine {
      JoinStands(parts, " " + "}" + rest);
      EnclosedStands(" ", JoinAtoms(parts), " ", rest);
    } else {
      LineStands(parts, Tabs(depth + 1), Tabs(depth) + "}" + rest);
      EnclosedStands("\n", LineAtoms(parts, Tabs(depth + 1)), Tabs(depth), rest);
    }
  }

  lemma EmptyStands(rest: string)
    ensures AllStand([Operator('{'), Operator('}')], rest)
  {
    OperatorStands('}', rest);
    OneStands(Operator('}'), rest);
    OperatorStands('{', Flatten([Operator('}')]) + rest);
    ConsStands(Operator('{'), [Operator('}')], rest);
    assert [Operator('{')] + [Operator('}')] == [Operator('{'), Operator('}')];
  }

  lemma {:induction false} DocStands(doc: Doc, depth: nat, rest: string)
    requires LooseDoc(doc) && Ends(rest)
    ensures AllStand(DocAtoms(doc, depth), rest)
    decreases doc, 0
  {
    match doc
    case Leaf(v) => LeafStands(v, rest);
    case Group(named, items) =>
      if named == [] && items == [] {
        EmptyStands(rest);
      } else {
        NamedStand(named, depth + 1);
        ItemsStand(items, depth + 1);
        var parts := NamedAtoms(named, depth + 1) + ItemAtoms(items, depth + 1);
        BracedStands(parts, OneLine(NamedTexts(named, depth + 1) + ArrayTexts(items, depth + 1), Flat(doc), depth), depth, rest);
      }
  }

  lemma {:induction false} NamedStand(named: seq<Pair>, depth: nat)
    requires forall i :: 0 <= i < |named| ==> LoosePair(named[i])
    ensures PartsStand(NamedAtoms(named, depth))
    decreases named, 0
  {
    if named != [] {
      NamedStand(named[1..], depth);
      forall rest | Ends(rest) ensures AllStand(PairAtoms(named[0], depth), rest) {
        PairStands(named[0], depth, rest);
      }
      assert PartStands(PairAtoms(named[0], depth));
    }
  }

  lemma FieldStands(key: Key, doc: seq<Atom>, rest: string)
    requires AllStand(doc, rest)
    ensures AllStand(KeyAtoms(key) + [Gap(" "), Operator('='), Gap(" ")] + doc, rest)
  {
    var equals := [Gap(" "), Operator('='), Gap(" ")];
    EqualsStands(Flatten(doc) + rest);
    StandConcat(equals, doc, rest);
    FlattenConcat(equals, doc);
    var after := Flatten(equals + doc) + rest;
    assert after[0] == " = "[0];
    KeyStands(key, after);
    StandConcat(KeyAtoms(key), equals + doc, rest);
    assert KeyAtoms(key) + (equals + doc) == KeyAtoms(key) + equals + doc;
  }

  lemma {:induction false} PairStands(pair: Pair, depth: nat, rest: string)
    requires LoosePair(pair) && Ends(rest)
    ensures AllStand(PairAtoms(pair, depth), rest)
    decreases pair, 0
  {
    DocStands(pair.doc, depth, rest);
    FieldStands(pair.key, DocAtoms(pair.doc, depth), rest);
  }

  lemma {:induction false} ItemsStand(items: seq<Doc>, depth: nat)
    requires forall i :: 0 <= i < |items| ==> LooseDoc(items[i])
    ensures PartsStand(ItemAtoms(items, depth))
    decreases items, 0
  {
    if items != [] {
      ItemsStand(items[1..], depth);
      forall rest | Ends(rest) ensures AllStand(DocAtoms(items[0], depth), rest) {
        DocStands(items[0], depth, rest);
      }
      assert PartStands(DocAtoms(items[0], depth));
    }
  }

  // --------------------------------------------------------------------------------
  // Strays: the indices of references
  // --------------------------------------------------------------------------------

  lemma {:induction false} RefStray(parts: seq<string>)
    ensures HasStray(RefAtoms(parts)) <==> HasIndex(parts)
  {
    if |parts| == 1 {
      assert [PartAtom(parts[0])][1..] == [];
    } else if |parts| > 1 {
      RefStray(parts[1..]);
      StrayConcat([PartAtom(parts[0]), Operator('.')], RefAtoms(parts[1..]));
      assert [PartAtom(parts[0]), Operator('.')][1..] == [Operator('.')] && [Operator('.')][1..] == [];
      if HasIndex(parts[1..]) {
        var i :| 0 <= i < |parts| - 1 && IsIndex(parts[1..][i]);
        assert IsIndex(parts[i + 1]);
      }
      if HasIndex(parts) && !IsIndex(parts[0]) {
        var i :| 0 <= i < |parts| && IsIndex(parts[i]);
        assert IsIndex(parts[1..][i - 1]);
      }
    }
  }

  lemma NoStrays(atoms: seq<Atom>)
    requires |atoms| <= 3 && forall i :: 0 <= i < |atoms| ==> !atoms[i].Stray?
    ensures !HasStray(atoms)
  {
    if |atoms| > 1 {
      assert atoms[1..][0] == atoms[1];
    }
    if |atoms| > 2 {
      assert atoms[1..][1..][0] == atoms[2];
    }
  }

  lemma KeyStray(key: Key)
    ensures !HasStray(KeyAtoms(key))
  {
    if key.IntKey? {
      NoStrays([Operator('[')]);
      NoStrays(IntAtoms(key.i));
      NoStrays([Operator(']')]);
      StrayConcat([Operator('[')], IntAtoms(key.i));
      StrayConcat([Operator('[')] + IntAtoms(key.i), [Operator(']')]);
    } else {
      NoStrays(KeyAtoms(key));
    }
  }

  lemma LeafStray(v: Value)
    ensures HasStray(LeafAtoms(v)) <==> v.Ref? && HasIndex(v.parts)
  {
    if v.Ref? {
      RefStray(v.parts);
    } else {
      NoStrays(LeafAtoms(v));
    }
  }

  predicate AnyStray(parts: seq<seq<Atom>>) {
    parts != [] && (HasStray(parts[0]) || AnyStray(parts[1..]))
  }

  lemma {:induction false} AnyStrayConcat(a: seq<seq<Atom>>, b: seq<seq<Atom>>)
    ensures AnyStray(a + b) <==> AnyStray(a) || AnyStray(b)
  {
    if a == [] {
      assert a + b == b;
    } else {
      assert (a + b)[1..] == a[1..] + b;
      AnyStrayConcat(a[1..], b);
    }
  }

  lemma {:induction false} JoinStray(parts: seq<seq<Atom>>)
    ensures HasStray(JoinAtoms(parts)) <==> AnyStray(parts)
  {
    if |parts| == 1 {
      assert parts[1..] == [];
    } else if |parts| > 1 {
      var comma := [Operator(','), Gap(" ")];
      JoinStray(parts[1..]);
      NoStrays(comma);
      StrayConcat(parts[0], comma);
      StrayConcat(parts[0] + comma, JoinAtoms(parts[1..]));
    }
  }

  lemma {:induction false} LineStray(parts: seq<seq<Atom>>, indent: string)
    ensures HasStray(LineAtoms(parts, indent)) <==> AnyStray(parts)
  {
    if parts != [] {
      var comma := [Operator(','), Gap("\n")];
      LineStray(parts[1..], indent);
      NoStrays([Gap(indent)]);
      NoStrays(comma);
      StrayConcat([Gap(indent)], parts[0]);
      StrayConcat([Gap(indent)] + parts[0], comma);
      StrayConcat([Gap(indent)] + parts[0] + comma, LineAtoms(parts[1..], indent));
    }
  }

  lemma EnclosedStray(space: string, inner: seq<Atom>, last: string)
    ensures HasStray([Operator('{'), Gap(space)] + inner + [Gap(last), Operator('}')]) <==> HasStray(inner)
  {
    NoStrays([Operator('{'), Gap(space)]);
    NoStrays([Gap(last), Operator('}')]);
    StrayConcat([Operator('{'), Gap(space)], inner);
    StrayConcat([Operator('{'), Gap(space)] + inner, [Gap(last), Operator('}')]);
  }

  lemma BracedStray(parts: seq<seq<Atom>>, oneLine: bool, depth: nat)
    ensures HasStray(BracedAtoms(parts, oneLine, depth)) <==> AnyStray(parts)
  {
    if oneLine {
      JoinStray(parts);
      EnclosedStray(" ", JoinAtoms(parts), " ");
    } else {
      LineStray(parts, Tabs(depth + 1));
      EnclosedStray("\n", LineAtoms(parts, Tabs(depth + 1)), Tabs(depth));
    }
  }

  /** The strays in a printed layout are the indices in its references. */
  lemma {:induction false} DocStray(doc: Doc, depth: nat)
    ensures HasStray(DocAtoms(doc, depth)) <==> Indexed(doc)
    decreases doc, 0
  {
    match doc
    case Leaf(v) => LeafStray(v);
    case Group(named, items) =>
      if named == [] && items == [] {
        NoStrays([Operator('{'), Operator('}')]);
      } else {
        NamedStray(named, depth + 1);
        ItemsStray(items, depth + 1);
        AnyStrayConcat(NamedAtoms(named, depth + 1), ItemAtoms(items, depth + 1));
        BracedStray(NamedAtoms(named, depth + 1) + ItemAtoms(items, depth + 1),
                    OneLine(NamedTexts(named, depth + 1) + ArrayTexts(items, depth + 1), Flat(doc), depth), depth);
      }
  }

  lemma {:induction false} PairStray(pair: Pair, depth: nat)
    ensures HasStray(PairAtoms(pair, depth)) <==> PairIndexed(pair)
    decreases pair, 0
  {
    var equals := [Gap(" "), Operator('='), Gap(" ")];
    DocStray(pair.doc, depth);
    KeyStray(pair.key);
    NoStrays(equals);
    StrayConcat(KeyAtoms(pair.key), equals);
    StrayConcat(KeyAtoms(pair.key) + equals, DocAtoms(pair.doc, depth));
  }

  lemma {:induction false} NamedStray(named: seq<Pair>, depth: nat)
    ensures AnyStray(NamedAtoms(named, depth)) <==> exists i :: 0 <= i < |named| && PairIndexed(named[i])
    decreases named, 0
  {
    if named != [] {
      PairStray(named[0], depth);
      NamedStray(named[1..], depth);
      assert NamedAtoms(named, depth)[1..] == NamedAtoms(named[1..], depth);
      if i :| 0 <= i < |named| - 1 && PairIndexed(named[1..][i]) {
        assert PairIndexed(named[i + 1]);
      }
      if i :| 0 < i < |named| && PairIndexed(named[i]) {
        assert PairIndexed(named[1..][i - 1]);
      }
    }
  }

  lemma {:induction false} ItemsStray(items: seq<Doc>, depth: nat)
    ensures AnyStray(ItemAtoms(items, depth)) <==> exists i :: 0 <= i < |items| && Indexed(items[i])
    decreases items, 0
  {
    if items != [] {
      DocStray(items[0], depth);
      ItemsStray(items[1..], depth);
      assert ItemAtoms(items, depth)[1..] == ItemAtoms(items[1..], depth);
      if i :| 0 <= i < |items| - 1 && Indexed(items[1..][i]) {
        assert Indexed(items[i + 1]);
      }
      if i :| 0 < i < |items| && Indexed(items[i]) {
        assert Indexed(items[1..][i - 1]);
      }
    }
  }

  // --------------------------------------------------------------------------------
  // Printed text
  // --------------------------------------------------------------------------------

  /** Whatever the layout, printed text without indices is tokenized into exactly the printed tokens. */
  lemma PrintedTokens(doc: Doc, depth: nat)
    requires LooseDoc(doc) && !Indexed(doc)
    ensures Tokenize(DocText(doc, depth)) == Ok(TokensOf(DocAtoms(doc, depth)))
  {
    DocStands(doc, depth, "");
    DocFlatten(doc, depth);
    DocStray(doc, depth);
    TokenizeAtoms(DocAtoms(doc, depth), "");
    assert DocText(doc, depth) + "" == DocText(doc, depth);
    assert TokensOf(DocAtoms(doc, depth)) + [] == TokensOf(DocAtoms(doc, depth));
  }

  /** With one, into the printed tokens up to it and a number there, if at all. */
  lemma PrintedStrays(doc: Doc, depth: nat)
    requires LooseDoc(doc) && Indexed(doc)
    ensures Strays(Tokenize(DocText(doc, depth)), BeforeStray(DocAtoms(doc, depth)))
  {
    DocStands(doc, depth, "");
    DocFlatten(doc, depth);
    DocStray(doc, depth);
    TokenizeStray(DocAtoms(doc, depth), "");
    assert DocText(doc, depth) + "" == DocText(doc, depth);
  }
}
