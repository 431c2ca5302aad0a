/**
 The recursive descent reader of harness/build_quest_log.py, on data: literals, dotted names,
 nested tables and joined strings. Functions, calls and arithmetic, which the reader keeps as
 source text, end the reading here.

 The functions read a value, a table's fields or a name off a row of tokens and hand back the
 rest. LuaTerms has the whole reader, with its methods, and shows that it reads the same on data.
 */
module LuaReader {
  import opened LuaText
  import opened LuaTokens
  import opened Options

  type Parsed = Result<(Value, seq<Token>), Error>

  predicate TextAt(tokens: seq<Token>, k: nat, text: string) {
    k < |tokens| && tokens[k].text == text
  }

  predicate KindAt(tokens: seq<Token>, k: nat, kind: Kind) {
    k < |tokens| && tokens[k].kind == kind
  }

  predicate AllDigits(s: string) {
    forall i :: 0 <= i < |s| ==> IsDigit(s[i])
  }

  /** int(token, 0) refuses leading zeros; hexadecimal numbers and fractions are not modelled. */
  function NumberOf(text: string): Result<Value, Error> {
    if !AllDigits(text) then Err(Unsupported)
    else if |text| > 1 && text[0] == '0' && DecimalOf(text) != 0 then Err(Unexpected)
    else Ok(Int(DecimalOf(text)))
  }

  // --------------------------------------------------------------------------------
  // Dicts
  // --------------------------------------------------------------------------------

  function Store(fields: seq<Entry>, key: Key, v: Value): seq<Entry> {
    if fields == [] then [Entry(key, v)]
    else if fields[0].key == key then [Entry(key, v)] + fields[1..]
    else [fields[0]] + Store(fields[1..], key, v)
  }

  predicate Has(fields: seq<Entry>, key: Key) {
    exists i :: 0 <= i < |fields| && fields[i].key == key
  }

  function SetDefault(fields: seq<Entry>, key: Key, v: Value): seq<Entry> {
    if Has(fields, key) then fields else fields + [Entry(key, v)]
  }

  /** The array part gets the positions from 1 that no field has taken. */
  function Positioned(fields: seq<Entry>, items: seq<Value>): seq<Entry> {
    if items == [] then fields
    else SetDefault(Positioned(fields, items[..|items| - 1]), IntKey(|items|), items[|items| - 1])
  }

  function KeyOf(v: Value): Result<Key, Error> {
    match v
    case Int(i) => Ok(IntKey(i))
    case Str(s) => Ok(StrKey(s))
    case _ => Err(Unsupported)
  }

  // --------------------------------------------------------------------------------
  // The grammar
  // --------------------------------------------------------------------------------

  predicate Operates(tokens: seq<Token>) {
    tokens != [] && tokens[0].text in {"..", "+", "-", "*", "/"}
  }

  predicate OpensArguments(tokens: seq<Token>) {
    tokens != [] && (tokens[0].text == "(" || tokens[0].text == "{" || tokens[0].kind.StringLit? || tokens[0].kind.LongString?)
  }

  /** The rest of a dotted name; an index in brackets counts as a part. */
  function DottedParts(tokens: seq<Token>): (r: (seq<string>, seq<Token>))
    ensures |r.1| <= |tokens|
    decreases |tokens|
  {
    if (TextAt(tokens, 0, ".") || TextAt(tokens, 0, ":")) && KindAt(tokens, 1, Name) then
      var (parts, rest) := DottedParts(tokens[2..]);
      ([tokens[1].text] + parts, rest)
    else if TextAt(tokens, 0, "[") && KindAt(tokens, 1, Number) && TextAt(tokens, 2, "]") then
      var (parts, rest) := DottedParts(tokens[3..]);
      ([tokens[1].text] + parts, rest)
    else ([], tokens)
  }

  function ReadName(tokens: seq<Token>): (r: Parsed)
    requires tokens != []
    ensures r.Ok? ==> |r.value.1| < |tokens|
  {
    var (parts, rest) := DottedParts(tokens[1..]);
    if OpensArguments(rest) then Err(Unsupported) else Ok((Ref([tokens[0].text] + parts), rest))
  }

  function Negated(r: Parsed): Parsed {
    match r
    case Ok((Int(i), rest)) => Ok((Int(-i), rest))
    case Ok(_) => Err(Unsupported)
    case Err(e) => Err(e)
  }

  /** A value without what may continue it. */
  function ReadPlain(tokens: seq<Token>): (r: Parsed)
    ensures r.Ok? ==> |r.value.1| < |tokens|
    decreases |tokens|, 0
  {
    if tokens == [] then Err(Unexpected)
    else
      var t, rest := tokens[0], tokens[1..];
      if t.text == "{" then ReadFields(rest, [], [])
      else if t.text == "function" then Err(Unsupported)
      else if t.kind.StringLit? then Ok((Str(Unquote(t.text)), rest))
      else if t.kind.LongString? then Err(Unsupported)
      else if t.kind.Number? then
        (match NumberOf(t.text) case Ok(v) => Ok((v, rest)) case Err(e) => Err(e))
      else if t.text == "true" then Ok((Bool(true), rest))
      else if t.text == "false" then Ok((Bool(false), rest))
      else if t.text == "nil" then Ok((Nil, rest))
      else if t.text == "-" && KindAt(tokens, 1, Number) then Negated(ReadValue(rest))
      else if t.kind.Name? then ReadName(tokens)
      else Err(Unexpected)
  }

  function ReadValue(tokens: seq<Token>): (r: Parsed)
    ensures r.Ok? ==> |r.value.1| < |tokens|
    decreases |tokens|, 1
  {
    match ReadPlain(tokens)
    case Err(e) => Err(e)
    case Ok((v, rest)) => Continue(v, rest)
  }

  /** Strings are joined; other operators would keep source text. */
  function Continue(v: Value, tokens: seq<Token>): (r: Parsed)
    ensures r.Ok? ==> |r.value.1| <= |tokens|
    decreases |tokens|, 0
  {
    if !Operates(tokens) then Ok((v, tokens))
    else
      match ReadValue(tokens[1..])
      case Err(e) => Err(e)
      case Ok((right, rest)) =>
        if tokens[0].text == ".." && v.Str? && right.Str? then Continue(Str(v.s + right.s), rest) else Err(Unsupported)
  }

  /** One separator, if there is one. */
  function Separated(tokens: seq<Token>): (rest: seq<Token>)
    ensures |rest| <= |tokens|
  {
    if TextAt(tokens, 0, ",") || TextAt(tokens, 0, ";") then tokens[1..] else tokens
  }

  /** `[key] = value`. */
  function ReadKeyed(tokens: seq<Token>): (r: Result<(Key, Value, seq<Token>), Error>)
    requires tokens != []
    ensures r.Ok? ==> |r.value.2| < |tokens|
    decreases |tokens|, 2
  {
    match ReadValue(tokens[1..])
    case Err(e) => Err(e)
    case Ok((k, rest)) =>
      if !(TextAt(rest, 0, "]") && TextAt(rest, 1, "=")) then Err(Unexpected)
      else
        match ReadValue(rest[2..])
        case Err(e) => Err(e)
        case Ok((v, more)) => (match KeyOf(k) case Err(e) => Err(e) case Ok(key) => Ok((key, v, more)))
  }

  /** One entry of a table: with a key, or for the array part. */
  function ReadEntry(tokens: seq<Token>): (r: Result<(Option<Key>, Value, seq<Token>), Error>)
    requires tokens != []
    ensures r.Ok? ==> |r.value.2| < |tokens|
    decreases |tokens|, 3
  {
    if tokens[0].text == "[" then
      (match ReadKeyed(tokens) case Err(e) => Err(e) case Ok((key, v, rest)) => Ok((Some(key), v, rest)))
    else if tokens[0].kind.Name? && TextAt(tokens, 1, "=") then
      (match ReadValue(tokens[2..]) case Err(e) => Err(e) case Ok((v, rest)) => Ok((Some(StrKey(tokens[0].text)), v, rest)))
    else
      (match ReadValue(tokens) case Err(e) => Err(e) case Ok((v, rest)) => Ok((None, v, rest)))
  }

  /** The entries of a table up to its closing brace. */
  function ReadFields(tokens: seq<Token>, fields: seq<Entry>, items: seq<Value>): (r: Parsed)
    ensures r.Ok? ==> |r.value.1| < |tokens|
    decreases |tokens|, 4
  {
    if tokens == [] then Err(Unexpected)
    else if tokens[0].text == "}" then Ok((Table(Positioned(fields, items)), tokens[1..]))
    else
      match ReadEntry(tokens)
      case Err(e) => Err(e)
      case Ok((Some(key), v, rest)) => ReadFields(Separated(rest), Store(fields, key, v), items)
      case Ok((None, v, rest)) => ReadFields(Separated(rest), fields, items + [v])
  }

  /** Tokenise, then read one value. */
  function Read(text: string): Parsed {
    match Tokenize(text)
    case Err(e) => Err(e)
    case Ok(tokens) => ReadValue(tokens)
  }
}
