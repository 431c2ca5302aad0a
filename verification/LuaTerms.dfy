/**
 The whole recursive descent reader of harness/build_quest_log.py: besides data it reads numbers in every
 notation, keeps functions and calls as the source text that they span, and formulas as what they join.
 Keys may be of any kind but tables. An endless loop of the source is an answer here.
 */
module LuaTerms {
  import opened LuaText
  import opened LuaTokens
  import opened LuaAtoms
  import opened LuaReader
  import opened Options

  /** What the reader makes of a value; Code is source text kept as it is, and Formula an operator between two values. */
  datatype Term =
    | Nil
    | Bool(b: bool)
    | Int(i: int)
    | Float(r: real)
    | Str(s: string)
    | Ref(parts: seq<string>)
    | Table(fields: seq<Field>)
    | Code(text: string)
    | Formula(left: Term, operator: string, right: Term)

  datatype Field = Field(key: Term, value: Term)

  /** A failed expectation, an operation that a value does not have, and a loop that takes tokens behind the end for ever. */
  datatype Fault = ValueError | TypeError | Endless

  type Result = Options.Result<(Term, nat), Fault>

  /** The text with its tokens and where each of them starts. */
  datatype Source = Source(text: string, tokens: seq<Token>, starts: seq<nat>) {
    ghost predicate Valid() {
      Placed(text, tokens, starts)
    }

    predicate Sees(k: nat, t: string) {
      k < |tokens| && tokens[k].text == t
    }

    predicate SeesKind(k: nat, kind: Kind) {
      k < |tokens| && tokens[k].kind == kind
    }
  }

  lemma {:induction false} StartsRise(src: Source, i: nat, j: nat)
    requires src.Valid() && i <= j < |src.tokens|
    ensures src.starts[i] <= src.starts[j]
  {
    if i < j {
      StartsRise(src, i, j - 1);
    }
  }

  /** Where a token ends in the text. */
  function EndOf(src: Source, k: nat): nat
    requires k < |src.tokens|
  {
    (if k < |src.starts| then src.starts[k] else 0) + |src.tokens[k].text|
  }

  /** The source text from one token to another, spaces and comments included. */
  function Between(src: Source, i: nat, j: nat): string
    requires i < j <= |src.tokens|
  {
    if i < |src.starts| && src.starts[i] <= EndOf(src, j - 1) <= |src.text|
    then src.text[src.starts[i]..EndOf(src, j - 1)] else ""
  }

  /** In a text with its tokens that is what it says. */
  lemma BetweenIs(src: Source, i: nat, j: nat)
    requires src.Valid() && i < j <= |src.tokens|
    ensures src.starts[i] <= EndOf(src, j - 1) <= |src.text|
    ensures Between(src, i, j) == src.text[src.starts[i]..EndOf(src, j - 1)]
  {
    StartsRise(src, i, j - 1);
  }

  // --------------------------------------------------------------------------------
  // Numbers
  // --------------------------------------------------------------------------------

  function HexDigit(c: char): nat
    requires IsHexDigit(c)
  {
    if IsDigit(c) then c as int - '0' as int
    else if 'a' <= c <= 'f' then c as int - 'a' as int + 10
    else c as int - 'A' as int + 10
  }

  function HexOf(s: string): nat
    requires forall i :: 0 <= i < |s| ==> IsHexDigit(s[i])
  {
    if s == "" then 0
    else
      assert IsHexDigit(s[|s| - 1]);
      16 * HexOf(s[..|s| - 1]) + HexDigit(s[|s| - 1])
  }

  predicate IsHex(s: string) {
    |s| >= 3 && s[0] == '0' && (s[1] == 'x' || s[1] == 'X') && forall i :: 2 <= i < |s| ==> IsHexDigit(s[i])
  }

  /** The digits times a power of ten. */
  function Scaled(digits: nat, exponent: int): real
    decreases if exponent < 0 then -exponent else exponent
  {
    if exponent > 0 then 10.0 * Scaled(digits, exponent - 1)
    else if exponent < 0 then Scaled(digits, exponent + 1) / 10.0
    else digits as real
  }

  /** The exponent behind the letter. */
  function ExponentOf(s: string): Option<int> {
    if s == "" then None
    else
      var digits := if s[0] == '+' || s[0] == '-' then s[1..] else s;
      if digits == "" || !AllDigits(digits) then None
      else
        var n: int := DecimalOf(digits);
        Some(if s[0] == '-' then -n else n)
  }

  /** The digits before and behind the dot, how many are behind it, and what follows. */
  function Mantissa(s: string): (string, nat, string) {
    var whole := RunEnd(s, 0, IsDigit);
    if whole == |s| || s[whole] != '.' then (s[..whole], 0, s[whole..])
    else
      var point := RunEnd(s, whole + 1, IsDigit);
      (s[..whole] + s[whole + 1..point], point - whole - 1, s[point..])
  }

  function ExponentPart(s: string): Option<int> {
    if s == "" then Some(0)
    else if s[0] == 'e' || s[0] == 'E' then ExponentOf(s[1..])
    else None
  }

  /** The exact value of a decimal with a fraction or an exponent. */
  function FloatOf(s: string): Option<real> {
    var (digits, places, rest) := Mantissa(s);
    if digits == "" || !AllDigits(digits) then None
    else
      match ExponentPart(rest)
      case None => None
      case Some(e) => Some(Scaled(DecimalOf(digits), e - places))
  }

  /** int(token, 0), which refuses leading zeros, for digits and hexadecimal; float(token) for the rest. */
  function NumberTerm(s: string): Options.Result<Term, Fault> {
    if IsHex(s) then Ok(Term.Int(HexOf(s[2..])))
    else if AllDigits(s) then
      if |s| > 1 && s[0] == '0' && DecimalOf(s) != 0 then Err(ValueError) else Ok(Term.Int(DecimalOf(s)))
    else
      match FloatOf(s)
      case Some(r) => Ok(Float(r))
      case None => Err(ValueError)
  }

  // --------------------------------------------------------------------------------
  // Dicts
  // --------------------------------------------------------------------------------

  /** Truth values count as numbers. */
  function Number(t: Term): Option<real> {
    match t
    case Bool(b) => Some(if b then 1.0 else 0.0)
    case Int(i) => Some(i as real)
    case Float(r) => Some(r)
    case _ => None
  }

  /** Equal as keys: numbers by value, strings by content; references and code are objects of their own. */
  predicate SameKey(a: Term, b: Term) {
    || (a.Nil? && b.Nil?)
    || (a.Str? && b.Str? && a.s == b.s)
    || (Number(a).Some? && Number(a) == Number(b))
  }

  predicate HasKey(fields: seq<Field>, key: Term) {
    exists i :: 0 <= i < |fields| && SameKey(fields[i].key, key)
  }

  /** The first key of several equal ones stays, the last value counts. */
  function Put(fields: seq<Field>, key: Term, v: Term): seq<Field> {
    if fields == [] then [Field(key, v)]
    else if SameKey(fields[0].key, key) then [Field(fields[0].key, v)] + fields[1..]
    else [fields[0]] + Put(fields[1..], key, v)
  }

  function PutDefault(fields: seq<Field>, key: Term, v: Term): seq<Field> {
    if HasKey(fields, key) then fields else fields + [Field(key, v)]
  }

  function Numbered(fields: seq<Field>, items: seq<Term>): seq<Field> {
    if items == [] then fields
    else PutDefault(Numbered(fields, items[..|items| - 1]), Term.Int(|items|), items[|items| - 1])
  }

  // --------------------------------------------------------------------------------
  // Functions and calls
  // --------------------------------------------------------------------------------

  function DoEnd(src: Source, i: nat): (r: Option<nat>)
    requires i <= |src.tokens|
    ensures r.Some? ==> i < r.value <= |src.tokens|
    decreases |src.tokens| - i
  {
    if i == |src.tokens| then None
    else if src.tokens[i].text == "do" then Some(i + 1)
    else DoEnd(src, i + 1)
  }

  predicate OpensBlock(t: Token) {
    t.kind.Name? && t.text in {"function", "if", "do", "while", "for"}
  }

  predicate ClosesBlock(t: Token) {
    t.kind.Name? && (t.text == "end" || t.text == "until")
  }

  /** Behind the end that closes the outermost block. */
  function BodyEnd(src: Source, i: nat, depth: int): (r: Option<nat>)
    requires i <= |src.tokens|
    ensures r.Some? ==> i < r.value <= |src.tokens|
    decreases |src.tokens| - i
  {
    if i == |src.tokens| then None
    else
      var t := src.tokens[i];
      if OpensBlock(t) then
        if t.text == "for" || t.text == "while" then
          match DoEnd(src, i + 1)
          case None => None
          case Some(j) => BodyEnd(src, j, depth + 1)
        else BodyEnd(src, i + 1, depth + 1)
      else if t.kind.Name? && t.text == "repeat" then BodyEnd(src, i + 1, depth + 1)
      else if ClosesBlock(t) then
        if depth == 1 then Some(i + 1) else BodyEnd(src, i + 1, depth - 1)
      else BodyEnd(src, i + 1, depth)
  }

  predicate OpensArgumentsAt(src: Source, i: nat) {
    src.Sees(i, "(") || src.Sees(i, "{") || src.SeesKind(i, StringLit) || src.SeesKind(i, LongString)
  }

  /** Behind the bracket that matches, counting brackets of the one kind only. */
  function CloseEnd(src: Source, i: nat, opener: string, closer: string, depth: int): (r: Option<nat>)
    requires i <= |src.tokens|
    ensures r.Some? ==> i < r.value <= |src.tokens|
    decreases |src.tokens| - i
  {
    if i == |src.tokens| then None
    else if src.tokens[i].text == opener then CloseEnd(src, i + 1, opener, closer, depth + 1)
    else if src.tokens[i].text == closer then
      if depth == 1 then Some(i + 1) else CloseEnd(src, i + 1, opener, closer, depth - 1)
    else CloseEnd(src, i + 1, opener, closer, depth)
  }

  function ArgumentsEnd(src: Source, i: nat): (r: Option<nat>)
    requires i < |src.tokens|
    ensures r.Some? ==> i < r.value <= |src.tokens|
  {
    if src.tokens[i].text == "(" then CloseEnd(src, i, "(", ")", 0)
    else if src.tokens[i].text == "{" then CloseEnd(src, i, "{", "}", 0)
    else Some(i + 1)
  }

  predicate SeesMember(src: Source, i: nat) {
    (src.Sees(i, ".") || src.Sees(i, ":")) && src.SeesKind(i + 1, Name)
  }

  /** Calls on what a call returned: where reading goes on, and where the text kept ends, which is before a last member without arguments. */
  function Chain(src: Source, i: nat, end: nat): (r: Option<(nat, nat)>)
    requires end <= i <= |src.tokens|
    ensures r.Some? ==> end <= r.value.1 <= r.value.0 && i <= r.value.0 <= |src.tokens|
    decreases |src.tokens| - i
  {
    if !SeesMember(src, i) then Some((i, end))
    else if !OpensArgumentsAt(src, i + 2) then Some((i + 2, end))
    else
      match ArgumentsEnd(src, i + 2)
      case None => None
      case Some(j) => Chain(src, j, j)
  }

  function CallAt(src: Source, start: nat, i: nat): (r: Result)
    requires start < i < |src.tokens|
    ensures r.Ok? ==> i < r.value.1 <= |src.tokens|
  {
    match ArgumentsEnd(src, i)
    case None => Err(Endless)
    case Some(j) =>
      match Chain(src, j, j)
      case None => Err(Endless)
      case Some((next, end)) => Ok((Code(Between(src, start, end)), next))
  }

  // --------------------------------------------------------------------------------
  // The grammar
  // --------------------------------------------------------------------------------

  function PartsAt(src: Source, i: nat): (r: (seq<string>, nat))
    requires i <= |src.tokens|
    ensures i <= r.1 <= |src.tokens|
    decreases |src.tokens| - i
  {
    if SeesMember(src, i) then
      var (parts, j) := PartsAt(src, i + 2);
      ([src.tokens[i + 1].text] + parts, j)
    else if src.Sees(i, "[") && src.SeesKind(i + 1, Kind.Number) && src.Sees(i + 2, "]") then
      var (parts, j) := PartsAt(src, i + 3);
      ([src.tokens[i + 1].text] + parts, j)
    else ([], i)
  }

  function NameAt(src: Source, i: nat): (r: Result)
    requires i < |src.tokens|
    ensures r.Ok? ==> i < r.value.1 <= |src.tokens|
  {
    var (parts, j) := PartsAt(src, i + 1);
    if OpensArgumentsAt(src, j) then CallAt(src, i, j) else Ok((Term.Ref([src.tokens[i].text] + parts), j))
  }

  function Minus(r: Result): Result {
    match r
    case Ok((Int(i), next)) => Ok((Term.Int(-i), next))
    case Ok((Float(f), next)) => Ok((Float(-f), next))
    case Ok((Bool(b), next)) => Ok((Term.Int(if b then -1 else 0), next))
    case Ok(_) => Err(TypeError)
    case Err(e) => Err(e)
  }

  /** A long string without its brackets, and without a line feed right behind the opening one. */
  function LongBody(s: string): string {
    var open := RunEnd(s, if s == "" then 0 else 1, c => c == '=');
    if s == "" || s[0] != '[' || open == |s| || s[open] != '[' then s
    else
      var begin := if open + 1 < |s| && s[open + 1] == '\n' then open + 2 else open + 1;
      var end := |s| - (open + 1);
      if begin <= end then s[begin..end] else ""
  }

  /** A value without what may continue it. */
  function PlainAt(src: Source, i: nat): (r: Result)
    requires i <= |src.tokens|
    ensures r.Ok? ==> i < r.value.1 <= |src.tokens|
    decreases |src.tokens| - i, 0
  {
    if i == |src.tokens| then Err(ValueError)
    else
      var t := src.tokens[i];
      if t.text == "{" then FieldsAt(src, i + 1, [], [])
      else if t.kind.StringLit? then Ok((Term.Str(Unquote(t.text)), i + 1))
      else if t.kind.LongString? then Ok((Term.Str(LongBody(t.text)), i + 1))
      else if t.kind.Number? then
        (match NumberTerm(t.text) case Ok(v) => Ok((v, i + 1)) case Err(e) => Err(e))
      else if t.text == "true" then Ok((Term.Bool(true), i + 1))
      else if t.text == "false" then Ok((Term.Bool(false), i + 1))
      else if t.text == "nil" then Ok((Term.Nil, i + 1))
      else if t.text == "-" && src.SeesKind(i + 1, Kind.Number) then Minus(TermAt(src, i + 1))
      else if t.kind.Name? then NameAt(src, i)
      else Err(ValueError)
  }

  /** A function is handed back as it is; anything else may be continued by an operator. */
  function TermAt(src: Source, i: nat): (r: Result)
    requires i <= |src.tokens|
    ensures r.Ok? ==> i < r.value.1 <= |src.tokens|
    decreases |src.tokens| - i, 1
  {
    if src.Sees(i, "function") then
      match BodyEnd(src, i, 0)
      case None => Err(Endless)
      case Some(j) => Ok((Code(Between(src, i, j)), j))
    else
      match PlainAt(src, i)
      case Err(e) => Err(e)
      case Ok((v, j)) => ContinueAt(src, v, j)
  }

  predicate OperatesAt(src: Source, i: nat) {
    i < |src.tokens| && src.tokens[i].text in {"..", "+", "-", "*", "/"}
  }

  function Joined(left: Term, operator: string, right: Term): Term {
    if operator == ".." && left.Str? && right.Str? then Term.Str(left.s + right.s) else Formula(left, operator, right)
  }

  function ContinueAt(src: Source, v: Term, i: nat): (r: Result)
    requires i <= |src.tokens|
    ensures r.Ok? ==> i <= r.value.1 <= |src.tokens|
    decreases |src.tokens| - i, 0
  {
    if !OperatesAt(src, i) then Ok((v, i))
    else
      match TermAt(src, i + 1)
      case Err(e) => Err(e)
      case Ok((right, j)) => ContinueAt(src, Joined(v, src.tokens[i].text, right), j)
  }

  function SeparatedAt(src: Source, i: nat): (j: nat)
    requires i <= |src.tokens|
    ensures i <= j <= |src.tokens|
  {
    if src.Sees(i, ",") || src.Sees(i, ";") then i + 1 else i
  }

  /** `[key] = value`; a table cannot be a key, which shows only behind the value. */
  function KeyedAt(src: Source, i: nat): (r: Options.Result<(Term, Term, nat), Fault>)
    requires i < |src.tokens|
    ensures r.Ok? ==> i < r.value.2 <= |src.tokens|
    decreases |src.tokens| - i, 2
  {
    match TermAt(src, i + 1)
    case Err(e) => Err(e)
    case Ok((k, j)) =>
      if !(src.Sees(j, "]") && src.Sees(j + 1, "=")) then Err(ValueError)
      else
        match TermAt(src, j + 2)
        case Err(e) => Err(e)
        case Ok((v, next)) => if k.Table? then Err(TypeError) else Ok((k, v, next))
  }

  /** One entry of a table: with a key, or for the array part. */
  function EntryAt(src: Source, i: nat): (r: Options.Result<(Option<Term>, Term, nat), Fault>)
    requires i < |src.tokens|
    ensures r.Ok? ==> i < r.value.2 <= |src.tokens|
    decreases |src.tokens| - i, 3
  {
    if src.tokens[i].text == "[" then
      (match KeyedAt(src, i) case Err(e) => Err(e) case Ok((k, v, j)) => Ok((Some(k), v, j)))
    else if src.tokens[i].kind.Name? && src.Sees(i + 1, "=") then
      (match TermAt(src, i + 2) case Err(e) => Err(e) case Ok((v, j)) => Ok((Some(Term.Str(src.tokens[i].text)), v, j)))
    else
      (match TermAt(src, i) case Err(e) => Err(e) case Ok((v, j)) => Ok((None, v, j)))
  }

  function FieldsAt(src: Source, i: nat, fields: seq<Field>, items: seq<Term>): (r: Result)
    requires i <= |src.tokens|
    ensures r.Ok? ==> i < r.value.1 <= |src.tokens|
    decreases |src.tokens| - i, 4
  {
    if i == |src.tokens| then Err(ValueError)
    else if src.tokens[i].text == "}" then Ok((Term.Table(Numbered(fields, items)), i + 1))
    else
      match EntryAt(src, i)
      case Err(e) => Err(e)
      case Ok((Some(k), v, j)) => FieldsAt(src, SeparatedAt(src, j), Put(fields, k, v), items)
      case Ok((None, v, j)) => FieldsAt(src, SeparatedAt(src, j), fields, items + [v])
  }

  // --------------------------------------------------------------------------------
  // The reader on data
  // --------------------------------------------------------------------------------

  /** A data value among the terms. */
  function Embed(v: Value): Term
    decreases v, 0
  {
    match v
    case Nil => Term.Nil
    case Bool(b) => Term.Bool(b)
    case Int(i) => Term.Int(i)
    case Str(s) => Term.Str(s)
    case Ref(parts) => Term.Ref(parts)
    case Table(entries) => Term.Table(EmbedAll(entries))
  }

  function EmbedAll(entries: seq<Entry>): (fields: seq<Field>)
    ensures |fields| == |entries|
    decreases entries, 0
  {
    if entries == [] then [] else [EmbedEntry(entries[0])] + EmbedAll(entries[1..])
  }

  function EmbedEntry(e: Entry): Field
    decreases e, 0
  {
    Field(EmbedKey(e.key), Embed(e.value))
  }

  function EmbedKey(key: Key): Term {
    match key
    case IntKey(i) => Term.Int(i)
    case StrKey(s) => Term.Str(s)
  }

  function EmbedItems(items: seq<Value>): seq<Term> {
    seq(|items|, i requires 0 <= i < |items| => Embed(items[i]))
  }

  lemma {:induction false} EmbedAt(entries: seq<Entry>, i: nat)
    requires i < |entries|
    ensures EmbedAll(entries)[i] == EmbedEntry(entries[i])
  {
    if i > 0 {
      EmbedAt(entries[1..], i - 1);
    }
  }

  lemma SameKeyExact(a: Key, b: Key)
    ensures SameKey(EmbedKey(a), EmbedKey(b)) <==> a == b
  {
    if a.IntKey? && b.IntKey? {
      assert a.i as real == b.i as real <==> a.i == b.i;
    }
  }

  lemma {:induction false} EmbedPut(fields: seq<Entry>, key: Key, v: Value)
    ensures EmbedAll(Store(fields, key, v)) == Put(EmbedAll(fields), EmbedKey(key), Embed(v))
  {
    if fields == [] {
      assert [Entry(key, v)][1..] == [];
    } else {
      SameKeyExact(fields[0].key, key);
      EmbedPut(fields[1..], key, v);
      assert EmbedAll(fields)[1..] == EmbedAll(fields[1..]);
      if fields[0].key == key {
        assert ([Entry(key, v)] + fields[1..])[1..] == fields[1..];
      } else {
        assert ([fields[0]] + Store(fields[1..], key, v))[1..] == Store(fields[1..], key, v);
      }
    }
  }

  lemma {:induction false} EmbedLast(fields: seq<Entry>, e: Entry)
    ensures EmbedAll(fields + [e]) == EmbedAll(fields) + [EmbedEntry(e)]
  {
    if fields == [] {
      assert fields + [e] == [e] && [e][1..] == [];
    } else {
      assert (fields + [e])[1..] == fields[1..] + [e];
      EmbedLast(fields[1..], e);
    }
  }

  lemma EmbedPutDefault(fields: seq<Entry>, key: Key, v: Value)
    ensures EmbedAll(SetDefault(fields, key, v)) == PutDefault(EmbedAll(fields), EmbedKey(key), Embed(v))
  {
    forall i | 0 <= i < |fields| ensures SameKey(EmbedAll(fields)[i].key, EmbedKey(key)) <==> fields[i].key == key {
      EmbedAt(fields, i);
      SameKeyExact(fields[i].key, key);
    }
    if Has(fields, key) {
      var i :| 0 <= i < |fields| && fields[i].key == key;
      assert SameKey(EmbedAll(fields)[i].key, EmbedKey(key));
    } else {
      EmbedLast(fields, Entry(key, v));
    }
  }

  lemma {:induction false} EmbedNumbered(fields: seq<Entry>, items: seq<Value>)
    ensures EmbedAll(Positioned(fields, items)) == Numbered(EmbedAll(fields), EmbedItems(items))
  {
    if items != [] {
      var n := |items| - 1;
      EmbedNumbered(fields, items[..n]);
      EmbedPutDefault(Positioned(fields, items[..n]), IntKey(|items|), items[n]);
      assert EmbedItems(items)[..n] == EmbedItems(items[..n]);
    }
  }

  /** Where reading data succeeds, reading terms gives the same and stops at the same token; where it fails on what it knows, so does the other. */
  predicate Agree(src: Source, parsed: Parsed, r: Result) {
    match parsed
    case Ok((v, rest)) =>
      r.Ok? && r.value.0 == Embed(v) && r.value.1 <= |src.tokens| && rest == src.tokens[r.value.1..]
    case Err(e) => e.Unsupported? || r == Err(ValueError)
  }

  lemma TailAt(src: Source, i: nat)
    requires i < |src.tokens|
    ensures src.tokens[i..] != [] && src.tokens[i..][0] == src.tokens[i] && src.tokens[i..][1..] == src.tokens[i + 1..]
    ensures i + 2 <= |src.tokens| ==> src.tokens[i..][2..] == src.tokens[i + 2..]
    ensures i + 3 <= |src.tokens| ==> src.tokens[i..][3..] == src.tokens[i + 3..]
  {
  }

  lemma SeesAt(src: Source, i: nat, k: nat, text: string, kind: Kind)
    requires i <= |src.tokens|
    ensures TextAt(src.tokens[i..], k, text) <==> src.Sees(i + k, text)
    ensures KindAt(src.tokens[i..], k, kind) <==> src.SeesKind(i + k, kind)
  {
  }

  lemma {:induction false} PartsAgree(src: Source, i: nat)
    requires i <= |src.tokens|
    ensures DottedParts(src.tokens[i..]) == (PartsAt(src, i).0, src.tokens[PartsAt(src, i).1..])
    decreases |src.tokens| - i
  {
    SeesAt(src, i, 0, ".", Name);
    SeesAt(src, i, 0, ":", Name);
    SeesAt(src, i, 0, "[", Name);
    SeesAt(src, i, 1, "]", Name);
    SeesAt(src, i, 1, "]", Kind.Number);
    SeesAt(src, i, 2, "]", Name);
    if SeesMember(src, i) {
      TailAt(src, i);
      PartsAgree(src, i + 2);
    } else if src.Sees(i, "[") && src.SeesKind(i + 1, Kind.Number) && src.Sees(i + 2, "]") {
      TailAt(src, i);
      PartsAgree(src, i + 3);
    }
  }

  lemma NamesAgree(src: Source, i: nat)
    requires i < |src.tokens|
    ensures Agree(src, ReadName(src.tokens[i..]), NameAt(src, i))
  {
    TailAt(src, i);
    PartsAgree(src, i + 1);
    var j := PartsAt(src, i + 1).1;
    if j < |src.tokens| {
      TailAt(src, j);
    }
  }

  lemma NumbersAgree(s: string)
    ensures match NumberOf(s)
            case Ok(v) => NumberTerm(s) == Ok(Embed(v))
            case Err(e) => e.Unsupported? || NumberTerm(s) == Err(ValueError)
  {
    assert AllDigits(s) && |s| >= 2 ==> IsDigit(s[1]);
  }

  /** Everything that is one token. */
  lemma LeafAgrees(src: Source, i: nat)
    requires i < |src.tokens|
    requires var t := src.tokens[i]; t.text != "{" && t.text != "function" && !(t.text == "-" && src.SeesKind(i + 1, Kind.Number))
    requires src.tokens[i].kind.Name? ==> src.tokens[i].text in {"true", "false", "nil"}
    ensures Agree(src, ReadPlain(src.tokens[i..]), PlainAt(src, i))
  {
    TailAt(src, i);
    SeesAt(src, i, 1, "", Kind.Number);
    if src.tokens[i].kind.Number? {
      NumbersAgree(src.tokens[i].text);
    }
  }

  lemma {:induction false} PlainAgrees(src: Source, i: nat)
    requires i <= |src.tokens|
    ensures !src.Sees(i, "function") ==> Agree(src, ReadPlain(src.tokens[i..]), PlainAt(src, i))
    decreases |src.tokens| - i, 0
  {
    if i < |src.tokens| && src.tokens[i].text != "function" {
      var t := src.tokens[i];
      if t.text == "{" {
        TailAt(src, i);
        FieldsAgree(src, i + 1, [], []);
        assert EmbedItems([]) == [];
      } else if t.text == "-" && src.SeesKind(i + 1, Kind.Number) {
        TailAt(src, i);
        SeesAt(src, i, 1, "", Kind.Number);
        TermAgrees(src, i + 1);
        MinusAgrees(src, i);
      } else if t.kind.Name? && t.text !in {"true", "false", "nil"} {
        TailAt(src, i);
        SeesAt(src, i, 1, "", Kind.Number);
        NamesAgree(src, i);
      } else {
        LeafAgrees(src, i);
      }
    }
  }

  lemma MinusAgrees(src: Source, i: nat)
    requires i < |src.tokens| && Agree(src, ReadValue(src.tokens[i + 1..]), TermAt(src, i + 1))
    ensures Agree(src, Negated(ReadValue(src.tokens[i + 1..])), Minus(TermAt(src, i + 1)))
  {
  }

  /** At every token. */
  lemma {:induction false} TermAgrees(src: Source, i: nat)
    requires i <= |src.tokens|
    ensures Agree(src, ReadValue(src.tokens[i..]), TermAt(src, i))
    decreases |src.tokens| - i, 1
  {
    if src.Sees(i, "function") {
      TailAt(src, i);
    } else {
      PlainAgrees(src, i);
      match ReadPlain(src.tokens[i..])
      case Err(_) =>
      case Ok((v, _)) => ContinueAgrees(src, v, PlainAt(src, i).value.1);
    }
  }

  lemma {:induction false} ContinueAgrees(src: Source, v: Value, i: nat)
    requires i <= |src.tokens|
    ensures Agree(src, Continue(v, src.tokens[i..]), ContinueAt(src, Embed(v), i))
    decreases |src.tokens| - i, 0
  {
    if OperatesAt(src, i) {
      TailAt(src, i);
      TermAgrees(src, i + 1);
      match ReadValue(src.tokens[i + 1..])
      case Err(_) =>
      case Ok((right, _)) =>
        if src.tokens[i].text == ".." && v.Str? && right.Str? {
          ContinueAgrees(src, Value.Str(v.s + right.s), TermAt(src, i + 1).value.1);
        }
    }
  }

  lemma SeparatedAgrees(src: Source, i: nat)
    requires i <= |src.tokens|
    ensures Separated(src.tokens[i..]) == src.tokens[SeparatedAt(src, i)..]
  {
    SeesAt(src, i, 0, ",", Name);
    SeesAt(src, i, 0, ";", Name);
    if i < |src.tokens| {
      TailAt(src, i);
    }
  }

  /** The same of an entry. */
  predicate EntriesAgree(src: Source, parsed: Options.Result<(Option<Key>, Value, seq<Token>), Error>,
                         r: Options.Result<(Option<Term>, Term, nat), Fault>)
  {
    match parsed
    case Ok((key, v, rest)) =>
      && r.Ok? && r.value.0 == (if key.None? then None else Some(EmbedKey(key.value))) && r.value.1 == Embed(v)
      && r.value.2 <= |src.tokens| && rest == src.tokens[r.value.2..]
    case Err(e) => e.Unsupported? || r == Err(ValueError)
  }

  lemma {:induction false} KeyedAgrees(src: Source, i: nat)
    requires i < |src.tokens|
    ensures match ReadKeyed(src.tokens[i..])
            case Ok((key, v, rest)) =>
              && KeyedAt(src, i).Ok? && KeyedAt(src, i).value.0 == EmbedKey(key) && KeyedAt(src, i).value.1 == Embed(v)
              && rest == src.tokens[KeyedAt(src, i).value.2..]
            case Err(e) => e.Unsupported? || KeyedAt(src, i) == Err(ValueError)
    decreases |src.tokens| - i, 2
  {
    TailAt(src, i);
    TermAgrees(src, i + 1);
    match ReadValue(src.tokens[i + 1..])
    case Err(_) =>
    case Ok((k, _)) =>
      var j := TermAt(src, i + 1).value.1;
      SeesAt(src, j, 0, "]", Name);
      SeesAt(src, j, 1, "=", Name);
      if src.Sees(j, "]") && src.Sees(j + 1, "=") {
        TailAt(src, j);
        TermAgrees(src, j + 2);
      }
  }

  lemma {:induction false} EntryAgrees(src: Source, i: nat)
    requires i < |src.tokens|
    ensures EntriesAgree(src, ReadEntry(src.tokens[i..]), EntryAt(src, i))
    decreases |src.tokens| - i, 3
  {
    TailAt(src, i);
    SeesAt(src, i, 1, "=", Name);
    if src.tokens[i].text == "[" {
      KeyedAgrees(src, i);
    } else if src.tokens[i].kind.Name? && src.Sees(i + 1, "=") {
      TermAgrees(src, i + 2);
    } else {
      TermAgrees(src, i);
    }
  }

  lemma {:induction false} FieldsAgree(src: Source, i: nat, fields: seq<Entry>, items: seq<Value>)
    requires i <= |src.tokens|
    ensures Agree(src, ReadFields(src.tokens[i..], fields, items), FieldsAt(src, i, EmbedAll(fields), EmbedItems(items)))
    decreases |src.tokens| - i, 4
  {
    if i < |src.tokens| {
      TailAt(src, i);
      if src.tokens[i].text == "}" {
        EmbedNumbered(fields, items);
      } else {
        EntryAgrees(src, i);
        match ReadEntry(src.tokens[i..])
        case Err(_) =>
        case Ok((key, v, _)) =>
          var j := EntryAt(src, i).value.2;
          SeparatedAgrees(src, j);
          match key
          case Some(k) =>
            EmbedPut(fields, k, v);
            FieldsAgree(src, SeparatedAt(src, j), Store(fields, k, v), items);
          case None =>
            assert EmbedItems(items + [v]) == EmbedItems(items) + [Embed(v)];
            FieldsAgree(src, SeparatedAt(src, j), fields, items + [v]);
      }
    }
  }

  // --------------------------------------------------------------------------------
  // What the code does with code
  // --------------------------------------------------------------------------------

  /** How many more of the one bracket than of the other there are from i up to j. */
  function Balance(src: Source, i: nat, j: nat, opener: string, closer: string): int
    requires i <= j <= |src.tokens|
    decreases j - i
  {
    if i == j then 0
    else
      (if src.tokens[i].text == opener then 1 else if src.tokens[i].text == closer then -1 else 0)
      + Balance(src, i + 1, j, opener, closer)
  }

  /** A closing bracket right before j brings the depth back to zero. */
  predicate Closes(src: Source, i: nat, j: nat, opener: string, closer: string, depth: int) {
    i < j <= |src.tokens| && src.tokens[j - 1].text == closer && depth + Balance(src, i, j, opener, closer) == 0
  }

  /** Taking arguments never ends if and only if no closing bracket brings the depth back to zero, and ends at the first that does. */
  lemma {:induction false} CloseExactly(src: Source, i: nat, opener: string, closer: string, depth: int)
    requires i <= |src.tokens| && opener != closer
    ensures match CloseEnd(src, i, opener, closer, depth)
            case None => forall j: nat :: !Closes(src, i, j, opener, closer, depth)
            case Some(end) => Closes(src, i, end, opener, closer, depth)
                              && forall j: nat :: j < end ==> !Closes(src, i, j, opener, closer, depth)
    decreases |src.tokens| - i
  {
    if i < |src.tokens| {
      var t := src.tokens[i].text;
      var step := if t == opener then 1 else if t == closer then -1 else 0;
      CloseExactly(src, i + 1, opener, closer, depth + step);
      assert Balance(src, i + 1, i + 1, opener, closer) == 0;
      forall j | i + 1 < j <= |src.tokens|
        ensures Closes(src, i, j, opener, closer, depth) <==> Closes(src, i + 1, j, opener, closer, depth + step)
      {
      }
      assert Closes(src, i, i + 1, opener, closer, depth) <==> t == closer && depth == 1;
      forall j: nat ensures Closes(src, i, j, opener, closer, depth)
                       <==> (j == i + 1 && t == closer && depth == 1) || Closes(src, i + 1, j, opener, closer, depth + step)
      {
      }
    }
  }

  /** A member without arguments behind a call is taken, and its text is not kept. */
  lemma MemberLost(src: Source, f: string, x: string)
    requires !Reserved(f)
    requires src.tokens == [Token(Name, f), Token(Op, "("), Token(Op, ")"), Token(Op, "."), Token(Name, x)]
    requires f !in {"{", "-"}
    ensures TermAt(src, 0) == Ok((Code(Between(src, 0, 3)), 5))
  {
    assert CloseEnd(src, 2, "(", ")", 1) == Some(3);
    assert ArgumentsEnd(src, 1) == Some(3);
    assert Chain(src, 3, 3) == Some((5, 3));
    assert PartsAt(src, 1) == ([], 1);
    assert NameAt(src, 0) == Ok((Code(Between(src, 0, 3)), 5));
  }

  // --------------------------------------------------------------------------------
  // The parser
  // --------------------------------------------------------------------------------

  lemma PartMoves(parts: seq<string>, part: string, rest: seq<string>)
    ensures parts + ([part] + rest) == (parts + [part]) + rest
  {
  }

  class Parser {
    const src: Source
    var index: nat

    /** On a text that was tokenized. */
    constructor (text: string, tokens: seq<Token>, starts: seq<nat>)
      requires Placed(text, tokens, starts)
      ensures src == Source(text, tokens, starts) && src.Valid() && index == 0
    {
      src, index := Source(text, tokens, starts), 0;
    }

    /** A method that reads what `result` says. */
    ghost predicate Reads(result: Result, r: Options.Result<Term, Fault>)
      reads this
    {
      match result
      case Err(e) => r == Err(e)
      case Ok((v, next)) => r == Ok(v) && index == next
    }

    method SkipToDo() returns (found: bool)
      requires index <= |src.tokens|
      modifies this
      ensures old(index) <= index
      ensures match DoEnd(src, old(index)) case None => !found case Some(j) => found && index == j
    {
      while index < |src.tokens| && src.tokens[index].text != "do"
        invariant old(index) <= index <= |src.tokens| && DoEnd(src, old(index)) == DoEnd(src, index)
      {
        index := index + 1;
      }
      if index == |src.tokens| {
        return false;
      }
      index := index + 1;
      return true;
    }

    method Function() returns (r: Options.Result<Term, Fault>)
      requires index < |src.tokens|
      modifies this
      ensures old(index) <= index
      ensures match BodyEnd(src, old(index), 0)
              case None => r == Err(Endless)
              case Some(j) => r == Ok(Code(Between(src, old(index), j))) && index == j
    {
      var start, depth: int := index, 0;
      while index < |src.tokens|
        invariant start <= index <= |src.tokens| && BodyEnd(src, start, 0) == BodyEnd(src, index, depth)
        decreases |src.tokens| - index
      {
        var t := src.tokens[index];
        index := index + 1;
        if OpensBlock(t) {
          if t.text == "for" || t.text == "while" {
            var found := SkipToDo();
            if !found {
              return Err(Endless);
            }
          }
          depth := depth + 1;
        } else if t.kind.Name? && t.text == "repeat" {
          depth := depth + 1;
        } else if ClosesBlock(t) {
          depth := depth - 1;
          if depth == 0 {
            return Ok(Code(Between(src, start, index)));
          }
        }
      }
      return Err(Endless);
    }

    method Value() returns (r: Options.Result<Term, Fault>)
      requires index <= |src.tokens|
      modifies this
      ensures old(index) <= index && (r.Ok? ==> index <= |src.tokens|) && Reads(TermAt(src, old(index)), r)
      decreases |src.tokens| - index, 1
    {
      ghost var all := TermAt(src, index);
      if src.Sees(index, "function") {
        r := Function();
        return;
      }
      r := Plain();
      if r.Err? {
        return;
      }
      while index < |src.tokens| && src.tokens[index].text in {"..", "+", "-", "*", "/"}
        invariant old(index) < index <= |src.tokens| && r.Ok?
        invariant all == ContinueAt(src, r.value, index)
        decreases |src.tokens| - index
      {
        var operator := src.tokens[index].text;
        index := index + 1;
        var right := Value();
        if right.Err? {
          return right;
        }
        r := Ok(Joined(r.value, operator, right.value));
      }
    }

    method Plain() returns (r: Options.Result<Term, Fault>)
      requires index <= |src.tokens|
      modifies this
      ensures old(index) <= index && (r.Ok? ==> index <= |src.tokens|) && Reads(PlainAt(src, old(index)), r)
      decreases |src.tokens| - index, 0
    {
      if index == |src.tokens| {
        return Err(ValueError);
      }
      var t := src.tokens[index];
      if t.text == "{" {
        index := index + 1;
        r := Fields();
        return;
      }
      if t.kind.StringLit? || t.kind.LongString? {
        index := index + 1;
        return Ok(Term.Str(if t.kind.StringLit? then Unquote(t.text) else LongBody(t.text)));
      }
      if t.kind.Number? {
        index := index + 1;
        return NumberTerm(t.text);
      }
      if t.text == "true" || t.text == "false" || t.text == "nil" {
        index := index + 1;
        return Ok(if t.text == "nil" then Term.Nil else Term.Bool(t.text == "true"));
      }
      if t.text == "-" && src.SeesKind(index + 1, Kind.Number) {
        index := index + 1;
        r := Value();
        if r.Ok? {
          match r.value
          case Int(i) => r := Ok(Term.Int(-i));
          case Float(f) => r := Ok(Float(-f));
          case Bool(b) => r := Ok(Term.Int(if b then -1 else 0));
          case _ => r := Err(TypeError);
        }
        return;
      }
      if t.kind.Name? {
        r := DottedName();
        return;
      }
      return Err(ValueError);
    }

    method DottedName() returns (r: Options.Result<Term, Fault>)
      requires index < |src.tokens|
      modifies this
      ensures old(index) <= index && (r.Ok? ==> index <= |src.tokens|) && Reads(NameAt(src, old(index)), r)
    {
      ghost var start := index;
      var from := index;
      var parts := [src.tokens[index].text];
      index := index + 1;
      ghost var all := PartsAt(src, index);
      while ((src.Sees(index, ".") || src.Sees(index, ":")) && src.SeesKind(index + 1, Name))
            || (src.Sees(index, "[") && src.SeesKind(index + 1, Kind.Number) && src.Sees(index + 2, "]"))
        invariant start < index <= |src.tokens| && parts != []
        invariant PartsAt(src, index).1 == all.1
        invariant parts + PartsAt(src, index).0 == [src.tokens[start].text] + all.0
        decreases |src.tokens| - index
      {
        ghost var rest := PartsAt(src, index);
        var part := src.tokens[index + 1].text;
        index := if src.tokens[index].text == "[" then index + 3 else index + 2;
        PartMoves(parts, part, PartsAt(src, index).0);
        parts := parts + [part];
      }
      assert parts + [] == parts;
      if OpensArgumentsAt(src, index) {
        r := Call(from);
      } else {
        r := Ok(Term.Ref(parts));
      }
    }

    method Call(start: nat) returns (r: Options.Result<Term, Fault>)
      requires start < index < |src.tokens|
      modifies this
      ensures old(index) <= index && (r.Ok? ==> index <= |src.tokens|) && Reads(CallAt(src, start, old(index)), r)
    {
      ghost var at := index;
      var closed := Arguments();
      if !closed {
        return Err(Endless);
      }
      var end := index;
      ghost var all := Chain(src, index, index);
      while SeesMember(src, index)
        invariant at < end == index <= |src.tokens| && Chain(src, index, end) == all
        decreases |src.tokens| - index
      {
        index := index + 2;
        if !OpensArgumentsAt(src, index) {
          break;
        }
        closed := Arguments();
        if !closed {
          return Err(Endless);
        }
        end := index;
      }
      return Ok(Code(Between(src, start, end)));
    }

    /** Takes one call's arguments. */
    method Arguments() returns (closed: bool)
      requires index < |src.tokens|
      modifies this
      ensures old(index) <= index
      ensures match ArgumentsEnd(src, old(index)) case None => !closed case Some(j) => closed && index == j
    {
      var opener := src.tokens[index].text;
      if opener != "(" && opener != "{" {
        index := index + 1;
        return true;
      }
      var closer := if opener == "(" then ")" else "}";
      var depth: int := 0;
      while index < |src.tokens|
        invariant old(index) <= index <= |src.tokens|
        invariant CloseEnd(src, old(index), opener, closer, 0) == CloseEnd(src, index, opener, closer, depth)
        decreases |src.tokens| - index
      {
        var t := src.tokens[index].text;
        index := index + 1;
        if t == opener {
          depth := depth + 1;
        } else if t == closer {
          depth := depth - 1;
          if depth == 0 {
            return true;
          }
        }
      }
      return false;
    }

    /** table, behind its opening brace. */
    method Fields() returns (r: Options.Result<Term, Fault>)
      requires index <= |src.tokens|
      modifies this
      ensures old(index) <= index && (r.Ok? ==> index <= |src.tokens|) && Reads(FieldsAt(src, old(index), [], []), r)
      decreases |src.tokens| - index, 4
    {
      var fields: seq<Field>, items: seq<Term> := [], [];
      ghost var all := FieldsAt(src, index, [], []);
      while index < |src.tokens| && src.tokens[index].text != "}"
        invariant old(index) <= index <= |src.tokens|
        invariant all == FieldsAt(src, index, fields, items)
        decreases |src.tokens| - index
      {
        var entry := TableEntry();
        if entry.Err? {
          return Err(entry.error);
        }
        if entry.value.0.Some? {
          fields := Put(fields, entry.value.0.value, entry.value.1);
        } else {
          items := items + [entry.value.1];
        }
        if src.Sees(index, ",") || src.Sees(index, ";") {
          index := index + 1;
        }
      }
      if index == |src.tokens| {
        return Err(ValueError);
      }
      index := index + 1;
      return Ok(Term.Table(Numbered(fields, items)));
    }

    method TableEntry() returns (r: Options.Result<(Option<Term>, Term), Fault>)
      requires index < |src.tokens|
      modifies this
      ensures old(index) <= index
      ensures match EntryAt(src, old(index))
              case Err(e) => r == Err(e)
              case Ok((key, v, j)) => r == Ok((key, v)) && index == j
      decreases |src.tokens| - index, 3
    {
      if src.tokens[index].text == "[" {
        var keyed := Keyed();
        return if keyed.Err? then Err(keyed.error) else Ok((Some(keyed.value.0), keyed.value.1));
      }
      if src.SeesKind(index, Name) && src.Sees(index + 1, "=") {
        var key := src.tokens[index].text;
        index := index + 2;
        var v := Value();
        return if v.Err? then Err(v.error) else Ok((Some(Term.Str(key)), v.value));
      }
      var v := Value();
      return if v.Err? then Err(v.error) else Ok((None, v.value));
    }

    method Keyed() returns (r: Options.Result<(Term, Term), Fault>)
      requires index < |src.tokens|
      modifies this
      ensures old(index) <= index
      ensures match KeyedAt(src, old(index))
              case Err(e) => r == Err(e)
              case Ok((key, v, j)) => r == Ok((key, v)) && index == j
      decreases |src.tokens| - index, 2
    {
      index := index + 1;
      var k := Value();
      if k.Err? {
        return Err(k.error);
      }
      if !(src.Sees(index, "]") && src.Sees(index + 1, "=")) {
        return Err(ValueError);
      }
      index := index + 2;
      var v := Value();
      if v.Err? {
        return Err(v.error);
      }
      if k.value.Table? {
        return Err(TypeError);
      }
      return Ok((k.value, v.value));
    }
  }
}
