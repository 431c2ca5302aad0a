/**
 What the reader can give: whatever the text, dicts with one entry for each key, and references made of an
 unreserved name with names and numbers behind it. So the round trip speaks of every value that was read,
 and says which of them can be printed and read again.
 */
module LuaClosure {
  import opened LuaText
  import opened LuaTokens
  import opened LuaAtoms
  import opened LuaReader
  import opened LuaReading
  import opened LuaIndexes
  import opened LuaRoundTrip
  import LuaTerms
  import opened Options

  // --------------------------------------------------------------------------------
  // Tokens
  // --------------------------------------------------------------------------------

  /** Names are identifiers, and numbers start with a digit. */
  predicate WellToken(t: Token) {
    (t.kind.Name? ==> IsIdentifier(t.text)) && (t.kind.Number? ==> IsIndex(t.text))
  }

  predicate Well(tokens: seq<Token>) {
    forall i :: 0 <= i < |tokens| ==> WellToken(tokens[i])
  }

  lemma {:induction false} RunEndAll(s: string, i: nat, p: char -> bool)
    requires i <= |s|
    ensures forall k :: i <= k < RunEnd(s, i, p) ==> p(s[k])
    decreases |s| - i
  {
    if i < |s| && p(s[i]) {
      RunEndAll(s, i + 1, p);
    }
  }

  lemma MatchWell(s: string)
    requires s != "" && MatchAt(s).Some?
    ensures Well(Kept(MatchAt(s).value.kind, s[..MatchAt(s).value.length]))
  {
    var m := MatchAt(s).value;
    if m.kind.Name? {
      RunEndAll(s, 1, IsNameChar);
    }
  }

  lemma WellConcat(a: seq<Token>, b: seq<Token>)
    requires Well(a) && Well(b)
    ensures Well(a + b)
  {
  }

  lemma {:induction false} ScanWell(at: Matcher, s: string)
    requires forall t {:trigger at(t)} :: t != "" && at(t).Some? && 0 < at(t).value.length <= |t| ==>
               Well(Kept(at(t).value.kind, t[..at(t).value.length]))
    ensures Scan(at, s).Ok? ==> Well(Scan(at, s).value)
    decreases |s|
  {
    if s != "" && at(s).Some? && 0 < at(s).value.length <= |s| {
      var m := at(s).value;
      ScanWell(at, s[m.length..]);
      if Scan(at, s[m.length..]).Ok? {
        WellConcat(Kept(m.kind, s[..m.length]), Scan(at, s[m.length..]).value);
      }
    }
  }

  lemma TokenizeWell(text: string)
    ensures Tokenize(text).Ok? ==> Well(Tokenize(text).value)
  {
    forall t | t != "" && Pattern()(t).Some? && 0 < Pattern()(t).value.length <= |t|
      ensures Well(Kept(Pattern()(t).value.kind, t[..Pattern()(t).value.length]))
    {
      MatchWell(t);
    }
    ScanWell(Pattern(), text);
  }

  // --------------------------------------------------------------------------------
  // Values
  // --------------------------------------------------------------------------------

  predicate Fits(v: Value) {
    IsDict(v) && Refs(v)
  }

  predicate EntriesFit(fields: seq<Entry>) {
    KeysDistinct(fields) && forall i :: 0 <= i < |fields| ==> Fits(fields[i].value)
  }

  predicate AllFit(items: seq<Value>) {
    forall i :: 0 <= i < |items| ==> Fits(items[i])
  }

  predicate Gives(r: Parsed) {
    r.Ok? ==> Fits(r.value.0) && Well(r.value.1)
  }

  lemma TableFits(fields: seq<Entry>)
    requires EntriesFit(fields)
    ensures Fits(Table(fields))
  {
    forall i | 0 <= i < |fields| ensures EntryIsDict(fields[i]) && EntryRefs(fields[i]) {
      assert Fits(fields[i].value);
    }
  }

  lemma {:induction false} StoreFits(fields: seq<Entry>, key: Key, v: Value)
    requires EntriesFit(fields) && Fits(v)
    ensures EntriesFit(Store(fields, key, v))
    ensures forall k :: Has(Store(fields, key, v), k) ==> k == key || Has(fields, k)
  {
    if fields == [] {
    } else if fields[0].key == key {
      var stored := [Entry(key, v)] + fields[1..];
      assert Store(fields, key, v) == stored;
      forall k | Has(stored, k) ensures k == key || Has(fields, k) {
        var i :| 0 <= i < |stored| && stored[i].key == k;
        assert fields[i].key == stored[i].key;
      }
    } else {
      StoreFits(fields[1..], key, v);
      FirstStays(fields[0], fields[1..], Store(fields[1..], key, v), key);
      assert fields == [fields[0]] + fields[1..];
    }
  }

  lemma FirstStays(first: Entry, before: seq<Entry>, after: seq<Entry>, key: Key)
    requires EntriesFit([first] + before) && EntriesFit(after) && first.key != key
    requires forall k :: Has(after, k) ==> k == key || Has(before, k)
    ensures EntriesFit([first] + after)
    ensures forall k :: Has([first] + after, k) ==> k == key || Has([first] + before, k)
  {
    var was, all := [first] + before, [first] + after;
    forall j | 0 <= j < |after| ensures after[j].key != first.key {
      assert Has(after, after[j].key);
      if Has(before, after[j].key) {
        var i :| 0 <= i < |before| && before[i].key == after[j].key;
        assert was[0].key != was[i + 1].key;
      }
    }
    assert Fits(was[0].value);
    forall k | Has(all, k) ensures k == key || Has(was, k) {
      var i :| 0 <= i < |all| && all[i].key == k;
      if i == 0 {
        assert was[0].key == k;
      } else {
        assert Has(after, k);
        if k != key {
          var j :| 0 <= j < |before| && before[j].key == k;
          assert was[j + 1].key == k;
        }
      }
    }
  }

  lemma SetDefaultFits(fields: seq<Entry>, key: Key, v: Value)
    requires EntriesFit(fields) && Fits(v)
    ensures EntriesFit(SetDefault(fields, key, v))
  {
    if !Has(fields, key) {
      forall i | 0 <= i < |fields| ensures fields[i].key != key {
      }
    }
  }

  lemma {:induction false} PositionedFits(fields: seq<Entry>, items: seq<Value>)
    requires EntriesFit(fields) && AllFit(items)
    ensures EntriesFit(Positioned(fields, items))
  {
    if items != [] {
      PositionedFits(fields, items[..|items| - 1]);
      SetDefaultFits(Positioned(fields, items[..|items| - 1]), IntKey(|items|), items[|items| - 1]);
    }
  }

  // --------------------------------------------------------------------------------
  // Reading
  // --------------------------------------------------------------------------------

  lemma {:induction false} DotsGive(tokens: seq<Token>)
    requires Well(tokens)
    ensures NamesAndIndices(DottedParts(tokens).0) && Well(DottedParts(tokens).1)
    decreases |tokens|
  {
    if (TextAt(tokens, 0, ".") || TextAt(tokens, 0, ":")) && KindAt(tokens, 1, Name) {
      DotsGive(tokens[2..]);
      PartBefore(tokens[1].text, DottedParts(tokens[2..]).0);
    } else if TextAt(tokens, 0, "[") && KindAt(tokens, 1, Number) && TextAt(tokens, 2, "]") {
      DotsGive(tokens[3..]);
      PartBefore(tokens[1].text, DottedParts(tokens[3..]).0);
    }
  }

  lemma PartBefore(part: string, parts: seq<string>)
    requires (IsIdentifier(part) || IsIndex(part)) && NamesAndIndices(parts)
    ensures NamesAndIndices([part] + parts)
  {
  }

  lemma NameGives(tokens: seq<Token>)
    requires Well(tokens) && tokens != [] && tokens[0].kind.Name? && !Reserved(tokens[0].text)
    ensures Gives(ReadName(tokens))
  {
    DotsGive(tokens[1..]);
    PartBefore(tokens[0].text, DottedParts(tokens[1..]).0);
  }

  lemma {:induction false} PlainGives(tokens: seq<Token>)
    requires Well(tokens)
    ensures Gives(ReadPlain(tokens))
    decreases |tokens|, 0
  {
    if tokens != [] {
      var t, rest := tokens[0], tokens[1..];
      if t.text == "{" {
        FieldsGive(rest, [], []);
      } else if t.text == "-" && KindAt(tokens, 1, Number) {
        ValueGives(rest);
      } else if t.kind.Name? && !Reserved(t.text) {
        NameGives(tokens);
      }
    }
  }

  /** Over every row of tokens, what is read is a value that fits. */
  lemma {:induction false} ValueGives(tokens: seq<Token>)
    requires Well(tokens)
    ensures Gives(ReadValue(tokens))
    decreases |tokens|, 1
  {
    PlainGives(tokens);
    if ReadPlain(tokens).Ok? {
      ContinueGives(ReadPlain(tokens).value.0, ReadPlain(tokens).value.1);
    }
  }

  lemma {:induction false} ContinueGives(v: Value, tokens: seq<Token>)
    requires Fits(v) && Well(tokens)
    ensures Gives(Continue(v, tokens))
    decreases |tokens|, 0
  {
    if Operates(tokens) {
      ValueGives(tokens[1..]);
      var r := ReadValue(tokens[1..]);
      if r.Ok? && tokens[0].text == ".." && v.Str? && r.value.0.Str? {
        ContinueGives(Str(v.s + r.value.0.s), r.value.1);
      }
    }
  }

  lemma {:induction false} EntryGives(tokens: seq<Token>)
    requires Well(tokens) && tokens != []
    ensures ReadEntry(tokens).Ok? ==> Fits(ReadEntry(tokens).value.1) && Well(ReadEntry(tokens).value.2)
    decreases |tokens|, 3
  {
    if tokens[0].text == "[" {
      ValueGives(tokens[1..]);
      var k := ReadValue(tokens[1..]);
      if k.Ok? && TextAt(k.value.1, 0, "]") && TextAt(k.value.1, 1, "=") {
        ValueGives(k.value.1[2..]);
      }
    } else if tokens[0].kind.Name? && TextAt(tokens, 1, "=") {
      ValueGives(tokens[2..]);
    } else {
      ValueGives(tokens);
    }
  }

  lemma {:induction false} FieldsGive(tokens: seq<Token>, fields: seq<Entry>, items: seq<Value>)
    requires Well(tokens) && EntriesFit(fields) && AllFit(items)
    ensures Gives(ReadFields(tokens, fields, items))
    decreases |tokens|, 4
  {
    if tokens == [] {
    } else if tokens[0].text == "}" {
      PositionedFits(fields, items);
      TableFits(Positioned(fields, items));
    } else {
      EntryGives(tokens);
      match ReadEntry(tokens)
      case Err(_) =>
      case Ok((Some(key), v, rest)) =>
        StoreFits(fields, key, v);
        FieldsGive(Separated(rest), Store(fields, key, v), items);
      case Ok((None, v, rest)) =>
        FieldsGive(Separated(rest), fields, items + [v]);
    }
  }

  /** Whatever the text, a value that is read fits the round trip. */
  lemma ReadFits(text: string)
    requires Read(text).Ok?
    ensures IsDict(Read(text).value.0) && Refs(Read(text).value.0)
  {
    TokenizeWell(text);
    ValueGives(Tokenize(text).value);
  }

  /** So reading, printing and reading again gets through, and to the same value, exactly under the conditions of the round trip. */
  lemma ReadTwice(text: string)
    requires Read(text).Ok?
    ensures var v := Read(text).value.0;
            && (ReadThrough(Lua(v)) <==> !IndexIn(v))
            && (ReadThrough(Lua(v)) && MeaningOf(Read(Lua(v)).value.0) == MeaningOf(v)
                <==> !IndexIn(v) && Gapless(v) && Survives(v))
  {
    ReadFits(text);
    RoundTrip(Read(text).value.0);
  }

  /** The whole reader gets through printed text exactly where the data reader does, and to the same value. */
  lemma WholeReader(v: Value, src: LuaTerms.Source)
    requires IsDict(v) && Refs(v) && Tokenize(Lua(v)) == Ok(src.tokens)
    ensures var r := LuaTerms.TermAt(src, 0);
            && (r.Ok? && r.value.1 == |src.tokens| <==> !IndexIn(v))
            && (!IndexIn(v) ==> Read(Lua(v)).Ok? && r.value.0 == LuaTerms.Embed(Read(Lua(v)).value.0))
  {
    RoundTrip(v);
    LooseLaidOut(v);
    PrintedReadsExactly(DocOf(v), 0);
    LuaTerms.TermAgrees(src, 0);
    assert src.tokens[0..] == src.tokens && Read(Lua(v)) == ReadValue(src.tokens);
  }

  /** A name with a number in brackets is read as a reference, but what is printed for it is not. */
  lemma IndexReadOnce(name: string, n: nat)
    requires IsIdentifier(name) && !Reserved(name)
    ensures var v := Ref([name, Decimal(n)]);
            && Read(name + "[" + Decimal(n) + "]") == Ok((v, []))
            && Lua(v) == name + "." + Decimal(n) && !ReadThrough(Lua(v))
  {
    var v := Ref([name, Decimal(n)]);
    IndexTokens(name, n);
    IndexReads(name, Decimal(n));
    assert IsIndex(v.parts[1]) && Refs(v) && IndexIn(v);
    RoundTrip(v);
    assert v.parts[1..] == [Decimal(n)];
    assert Join(v.parts, ".") == name + "." + Join([Decimal(n)], ".");
  }

  lemma IndexReads(name: string, index: string)
    requires IsIdentifier(name) && !Reserved(name)
    ensures ReadValue([Token(Name, name), LEFT, Token(Number, index), RIGHT]) == Ok((Ref([name, index]), []))
  {
    var tokens := [Token(Name, name), LEFT, Token(Number, index), RIGHT];
    var tail := tokens[1..];
    assert tail == [LEFT, Token(Number, index), RIGHT] && tail[3..] == [];
    assert DottedParts([]) == ([], []);
    assert [index] + [] == [index] && DottedParts(tail) == ([index], []);
    assert [name] + [index] == [name, index];
    assert IsNameStart(name[0]);
    assert ReadName(tokens) == Ok((Ref([name, index]), []));
    PlainStops(tokens, Ref([name, index]), []);
  }

  lemma IndexTokens(name: string, n: nat)
    requires IsIdentifier(name)
    ensures Tokenize(name + "[" + Decimal(n) + "]") == Ok([Token(Name, name), LEFT, Token(Number, Decimal(n)), RIGHT])
  {
    var inner := [Tok(Number, Decimal(n))];
    var bracket := [Operator('[')] + inner + [Operator(']')];
    var atoms := [Tok(Name, name)] + bracket;
    BracketAtoms(n);
    NameFirst(name, bracket, "");
    FlattenConcat([Tok(Name, name)], bracket);
    FlattenOne(Tok(Name, name));
    assert Flatten(atoms) + "" == name + "[" + Decimal(n) + "]";
    NoStrays([Tok(Name, name)]);
    NoStrays(bracket);
    StrayConcat([Tok(Name, name)], bracket);
    TokenizeAtoms(atoms, "");
    TokensConcat([Tok(Name, name)], bracket);
    OneToken(Name, name);
    BracketTokens(inner);
    OneToken(Number, Decimal(n));
    assert TokensOf(atoms) + [] == [Token(Name, name), LEFT, Token(Number, Decimal(n)), RIGHT];
  }

  lemma BracketAtoms(n: nat)
    ensures var bracket := [Operator('[')] + [Tok(Number, Decimal(n))] + [Operator(']')];
            AllStand(bracket, "") && Flatten(bracket) == "[" + Decimal(n) + "]"
  {
    var inner := [Tok(Number, Decimal(n))];
    NumberStands(n, "]" + "");
    OneStands(inner[0], "]" + "");
    FlattenOne(inner[0]);
    assert (Decimal(n) + "]" + "")[0] == Decimal(n)[0];
    BracketStands(inner, "");
    FlattenConcat([Operator('[')] + inner, [Operator(']')]);
    FlattenConcat([Operator('[')], inner);
    FlattenOne(Operator('['));
    FlattenOne(Operator(']'));
  }
}
