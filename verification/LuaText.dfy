/**
 The Lua tables of the porting tools as text: `lua` in harness/build_canary_monsters.py prints
 a nested value, and the tokenizer of harness/build_quest_log.py takes such text apart.

 Here are the values, how they are laid out as text, and what single numbers and strings look
 like in print and unquoted; strings come back but for a backslash right before a z.
 */
module LuaText {
  import opened Options

  /** Python's parsed values; a reference is a dotted name, and a table a dict in insertion order. */
  datatype Value =
    | Nil
    | Bool(b: bool)
    | Int(i: int)
    | Str(s: string)
    | Ref(parts: seq<string>)
    | Table(entries: seq<Entry>)

  datatype Key = IntKey(i: int) | StrKey(s: string)

  datatype Entry = Entry(key: Key, value: Value)

  // --------------------------------------------------------------------------------
  // Characters
  // --------------------------------------------------------------------------------

  predicate IsDigit(c: char) {
    '0' <= c <= '9'
  }

  predicate IsNameStart(c: char) {
    'A' <= c <= 'Z' || 'a' <= c <= 'z' || c == '_'
  }

  predicate IsNameChar(c: char) {
    IsNameStart(c) || IsDigit(c)
  }

  predicate IsSpace(c: char) {
    c == ' ' || '\t' <= c <= '\r'
  }

  /** The characters one by one. */
  lemma CharsExactly(c: char)
    ensures IsDigit(c) <==> c in "0123456789"
    ensures IsSpace(c) <==> c in [' ', '\t', '\n', '\U{000B}', '\U{000C}', '\r']
    ensures IsNameStart(c) <==> c in "ABCDEFGHIJKLMNOPQRSTUVWXYZ" || c in "abcdefghijklmnopqrstuvwxyz" || c == '_'
    ensures IsNameChar(c) <==> IsNameStart(c) || c in "0123456789"
  {
  }

  predicate IsIdentifier(s: string) {
    s != "" && IsNameStart(s[0]) && forall i :: 0 <= i < |s| ==> IsNameChar(s[i])
  }

  /** The regular expression of the printer ends in `$`, which also matches before a last line feed. */
  predicate TakenForIdentifier(s: string) {
    IsIdentifier(s) || (s != "" && s[|s| - 1] == '\n' && IsIdentifier(s[..|s| - 1]))
  }

  // --------------------------------------------------------------------------------
  // Numbers and strings
  // --------------------------------------------------------------------------------

  function Digit(d: nat): char
    requires d < 10
  {
    '0' + d as char
  }

  function Decimal(n: nat): (s: string)
    ensures s != "" && forall i :: 0 <= i < |s| ==> IsDigit(s[i])
  {
    if n < 10 then [Digit(n)] else Decimal(n / 10) + [Digit(n % 10)]
  }

  function DecimalOf(s: string): nat
    requires forall i :: 0 <= i < |s| ==> IsDigit(s[i])
  {
    if s == "" then 0
    else
      assert IsDigit(s[|s| - 1]);
      10 * DecimalOf(s[..|s| - 1]) + (s[|s| - 1] as int - '0' as int)
  }

  lemma {:induction false} DecimalRead(n: nat)
    ensures DecimalOf(Decimal(n)) == n
    ensures n > 0 ==> Decimal(n)[0] != '0'
    ensures n == 0 ==> Decimal(n) == "0"
  {
    if n >= 10 {
      DecimalRead(n / 10);
      assert Decimal(n)[..|Decimal(n)| - 1] == Decimal(n / 10);
    } else {
      assert Decimal(n)[..0] == "";
    }
  }

  function Escape(c: char): string {
    if c == '\\' then "\\\\" else if c == '"' then "\\\"" else if c == '\n' then "\\n" else [c]
  }

  function Escaped(s: string): string {
    if s == "" then "" else Escape(s[0]) + Escaped(s[1..])
  }

  function Quoted(s: string): string {
    "\"" + Escaped(s) + "\""
  }

  // Reading a string back

  /** Where the run of white space from i on ends. */
  function SpaceEnd(s: string, i: nat): (j: nat)
    requires i <= |s|
    ensures i <= j <= |s|
    decreases |s| - i
  {
    if i < |s| && IsSpace(s[i]) then SpaceEnd(s, i + 1) else i
  }

  /** Every `\z` goes, with the white space behind it. */
  function DropZ(s: string): string
    decreases |s|
  {
    if s == "" then ""
    else if |s| >= 2 && s[0] == '\\' && s[1] == 'z' then DropZ(s[SpaceEnd(s, 2)..])
    else [s[0]] + DropZ(s[1..])
  }

  function Unescape(c: char): char {
    if c == 'n' then '\n' else if c == 't' then '\t' else c
  }

  /** A backslash and the character behind it stand for one; a line feed is no such character. */
  function Unescaped(s: string): string
    decreases |s|
  {
    if s == "" then ""
    else if |s| >= 2 && s[0] == '\\' && s[1] != '\n' then [Unescape(s[1])] + Unescaped(s[2..])
    else [s[0]] + Unescaped(s[1..])
  }

  function Unquote(literal: string): string {
    if |literal| < 2 then "" else Unescaped(DropZ(literal[1..|literal| - 1]))
  }

  /** A backslash right before a z, which the printer doubles and the reader then takes for `\z`. */
  predicate HasSlashZ(s: string) {
    exists i :: 0 <= i < |s| - 1 && s[i] == '\\' && s[i + 1] == 'z'
  }

  lemma {:induction false} UnescapedEscaped(s: string)
    ensures Unescaped(Escaped(s)) == s
  {
    if s != "" {
      var e, tail := Escape(s[0]), Escaped(s[1..]);
      assert (e + tail)[|e|..] == tail;
      UnescapedEscaped(s[1..]);
    }
  }

  lemma {:induction false} DropZKeeps(s: string)
    requires !HasSlashZ(s)
    ensures DropZ(Escaped(s)) == Escaped(s)
  {
    if s != "" {
      var e, tail := Escape(s[0]), Escaped(s[1..]);
      forall i | 0 <= i < |s| - 2 && s[1..][i] == '\\' ensures s[1..][i + 1] != 'z' {
        assert s[i + 1] == '\\';
      }
      DropZKeeps(s[1..]);
      EscapedStart(s[1..]);
      DropZPast(e, tail);
    }
  }

  lemma DropZPast(e: string, tail: string)
    requires DropZ(tail) == tail
    requires (|e| == 1 && e[0] != '\\') || (|e| == 2 && e[0] == '\\' && e[1] != 'z')
    requires |e| == 2 && e[1] == '\\' && tail != "" ==> tail[0] != 'z'
    ensures DropZ(e + tail) == e + tail
  {
    var s := e + tail;
    if |e| == 2 {
      assert s[1..] == [e[1]] + tail && s[1..][1..] == tail;
    } else {
      assert s[1..] == tail;
    }
  }

  /** Escaped text starts with a z only if the text does. */
  lemma EscapedStart(s: string)
    ensures Escaped(s) != "" && Escaped(s)[0] == 'z' <==> s != "" && s[0] == 'z'
  {
  }

  // How many z a string has; reading a dropped one back never makes up for it

  function CountZ(s: string): nat {
    if s == "" then 0 else (if s[0] == 'z' then 1 else 0) + CountZ(s[1..])
  }

  lemma {:induction false} CountZConcat(a: string, b: string)
    ensures CountZ(a + b) == CountZ(a) + CountZ(b)
  {
    if a == "" {
      assert a + b == b;
    } else {
      assert (a + b)[1..] == a[1..] + b;
      CountZConcat(a[1..], b);
    }
  }

  lemma {:induction false} UnescapedCountZ(s: string)
    ensures CountZ(Unescaped(s)) <= CountZ(s)
    decreases |s|
  {
    if |s| >= 2 && s[0] == '\\' && s[1] != '\n' {
      UnescapedCountZ(s[2..]);
      assert s[1..][1..] == s[2..];
      assert ([Unescape(s[1])] + Unescaped(s[2..]))[1..] == Unescaped(s[2..]);
    } else if s != "" {
      UnescapedCountZ(s[1..]);
      assert ([s[0]] + Unescaped(s[1..]))[1..] == Unescaped(s[1..]);
    }
  }

  lemma {:induction false} EscapedCountZ(s: string)
    ensures CountZ(Escaped(s)) == CountZ(s)
  {
    if s != "" {
      EscapedCountZ(s[1..]);
      CountZConcat(Escape(s[0]), Escaped(s[1..]));
      assert CountZ(Escape(s[0])) == if s[0] == 'z' then 1 else 0;
    }
  }

  lemma {:induction false} DropZCountZ(s: string)
    ensures CountZ(DropZ(s)) <= CountZ(s)
    ensures HasSlashZ(s) ==> CountZ(DropZ(s)) < CountZ(s)
    decreases |s|
  {
    if |s| >= 2 && s[0] == '\\' && s[1] == 'z' {
      var k := SpaceEnd(s, 2);
      DropZCountZ(s[k..]);
      SuffixCountZ(s[2..], k - 2);
      assert s[2..][k - 2..] == s[k..] && s[1..][1..] == s[2..];
    } else if s != "" {
      DropZCountZ(s[1..]);
      assert ([s[0]] + DropZ(s[1..]))[1..] == DropZ(s[1..]);
      if HasSlashZ(s) {
        var i :| 0 <= i < |s| - 1 && s[i] == '\\' && s[i + 1] == 'z';
        assert s[1..][i - 1] == '\\' && s[1..][i] == 'z';
      }
    }
  }

  lemma {:induction false} SuffixCountZ(s: string, k: nat)
    requires k <= |s|
    ensures CountZ(s[k..]) <= CountZ(s)
  {
    if k > 0 {
      SuffixCountZ(s[1..], k - 1);
      assert s[1..][k - 1..] == s[k..];
    }
  }

  /** A doubled backslash before a z is still a backslash before a z. */
  lemma {:induction false} EscapedHasSlashZ(s: string)
    requires HasSlashZ(s)
    ensures HasSlashZ(Escaped(s))
  {
    var e, tail := Escape(s[0]), Escaped(s[1..]);
    assert Escaped(s) == e + tail;
    var i :| 0 <= i < |s| - 1 && s[i] == '\\' && s[i + 1] == 'z';
    if i == 0 {
      EscapedStart(s[1..]);
      assert (e + tail)[1] == '\\' && (e + tail)[2] == 'z';
    } else {
      assert s[1..][i - 1] == '\\' && s[1..][i] == 'z';
      EscapedHasSlashZ(s[1..]);
      var j :| 0 <= j < |tail| - 1 && tail[j] == '\\' && tail[j + 1] == 'z';
      assert (e + tail)[|e| + j] == '\\' && (e + tail)[|e| + j + 1] == 'z';
    }
  }

  /** What is read back of a printed string. */
  function ReadBack(s: string): string {
    Unquote(Quoted(s))
  }

  lemma QuotedInside(s: string)
    ensures ReadBack(s) == Unescaped(DropZ(Escaped(s)))
  {
    assert Quoted(s)[1..|Quoted(s)| - 1] == Escaped(s);
  }

  /** With a backslash right before a z some z is lost. */
  lemma SlashZLost(s: string)
    requires HasSlashZ(s)
    ensures CountZ(ReadBack(s)) < CountZ(s)
  {
    QuotedInside(s);
    EscapedHasSlashZ(s);
    DropZCountZ(Escaped(s));
    EscapedCountZ(s);
    UnescapedCountZ(DropZ(Escaped(s)));
  }

  /** A printed string is read back exactly when it has no backslash right before a z. */
  lemma StringRoundTrip(s: string)
    ensures ReadBack(s) == s <==> !HasSlashZ(s)
  {
    if HasSlashZ(s) {
      SlashZLost(s);
    } else {
      QuotedInside(s);
      DropZKeeps(s);
      UnescapedEscaped(s);
    }
  }

  // --------------------------------------------------------------------------------
  // What is printed of a table: named fields first, then the array part
  // --------------------------------------------------------------------------------

  /** A value laid out for printing; a leaf is never a table. */
  datatype Doc = Leaf(value: Value) | Group(named: seq<Pair>, items: seq<Doc>)

  datatype Pair = Pair(key: Key, doc: Doc)

  function DocOf(v: Value): Doc {
    match v
    case Table(entries) => SplitOf(PairsOf(entries))
    case _ => Leaf(v)
  }

  function PairsOf(entries: seq<Entry>): (pairs: seq<Pair>)
    ensures |pairs| == |entries|
  {
    if entries == [] then []
    else [PairOf(entries[0])] + PairsOf(entries[1..])
  }

  function PairOf(entry: Entry): Pair {
    Pair(entry.key, DocOf(entry.value))
  }

  function Find(pairs: seq<Pair>, key: Key): Option<Doc> {
    if pairs == [] then None
    else if pairs[|pairs| - 1].key == key then Some(pairs[|pairs| - 1].doc)
    else Find(pairs[..|pairs| - 1], key)
  }

  /** The values at the positions 1 to n, those that are there. */
  function ArrayOf(pairs: seq<Pair>, n: nat): seq<Doc> {
    if n == 0 then []
    else ArrayOf(pairs, n - 1) + (match Find(pairs, IntKey(n)) case Some(doc) => [doc] case None => [])
  }

  /** The fields but for the positions 1 to k. */
  function NamedOf(pairs: seq<Pair>, k: nat): seq<Pair> {
    if pairs == [] then []
    else
      var last := pairs[|pairs| - 1];
      NamedOf(pairs[..|pairs| - 1], k) + (if last.key.IntKey? && 1 <= last.key.i <= k then [] else [last])
  }

  function SplitOf(pairs: seq<Pair>): Doc {
    var items := ArrayOf(pairs, |pairs|);
    Group(NamedOf(pairs, |items|), items)
  }

  // --------------------------------------------------------------------------------
  // The printer
  // --------------------------------------------------------------------------------

  function Join(parts: seq<string>, separator: string): string {
    if parts == [] then ""
    else if |parts| == 1 then parts[0]
    else parts[0] + separator + Join(parts[1..], separator)
  }

  function Tabs(n: nat): string {
    seq(n, _ => '\t')
  }

  function IntText(i: int): string {
    if i < 0 then "-" + Decimal(-i) else Decimal(i)
  }

  function LeafText(v: Value): string {
    match v
    case Nil => "nil"
    case Bool(b) => if b then "true" else "false"
    case Int(i) => IntText(i)
    case Str(s) => Quoted(s)
    case Ref(parts) => Join(parts, ".")
    case Table(_) => "{}"
  }

  function KeyText(key: Key): string {
    match key
    case IntKey(i) => "[" + IntText(i) + "]"
    case StrKey(s) => if TakenForIdentifier(s) then s else "[" + Quoted(s) + "]"
  }

  function DocText(doc: Doc, depth: nat): string
    decreases doc, 0
  {
    match doc
    case Leaf(v) => LeafText(v)
    case Group(named, items) =>
      if named == [] && items == [] then "{}"
      else Braced(NamedTexts(named, depth + 1) + ArrayTexts(items, depth + 1), Flat(doc), depth)
  }

  function NamedTexts(named: seq<Pair>, depth: nat): seq<string>
    decreases named, 0
  {
    if named == [] then []
    else [PairText(named[0], depth)] + NamedTexts(named[1..], depth)
  }

  function PairText(pair: Pair, depth: nat): string
    decreases pair, 0
  {
    KeyText(pair.key) + " = " + DocText(pair.doc, depth)
  }

  function ArrayTexts(items: seq<Doc>, depth: nat): seq<string>
    decreases items, 0
  {
    if items == [] then [] else [DocText(items[0], depth)] + ArrayTexts(items[1..], depth)
  }

  /** No table inside. */
  predicate Flat(doc: Doc) {
    doc.Group? && (forall i :: 0 <= i < |doc.named| ==> doc.named[i].doc.Leaf?)
    && (forall i :: 0 <= i < |doc.items| ==> doc.items[i].Leaf?)
  }

  function Single(parts: seq<string>): string {
    "{ " + Join(parts, ", ") + " }"
  }

  function Lines(parts: seq<string>, indent: string): string {
    if parts == [] then "" else indent + parts[0] + ",\n" + Lines(parts[1..], indent)
  }

  /** On one line if there is no table inside, it is not the outermost, and 160 characters hold it. */
  function Braced(parts: seq<string>, flat: bool, depth: nat): string {
    if flat && depth > 0 && |Single(parts)| <= 160 then Single(parts)
    else "{\n" + Lines(parts, Tabs(depth + 1)) + Tabs(depth) + "}"
  }

  /** `lua`. */
  function Lua(v: Value): string {
    DocText(DocOf(v), 0)
  }

  // --------------------------------------------------------------------------------
  // The layout, piece by piece
  // --------------------------------------------------------------------------------

  /** A list grows by a separator and the next part. */
  lemma {:induction false} JoinGrows(parts: seq<string>, last: string, separator: string)
    requires parts != []
    ensures Join([last], separator) == last
    ensures Join(parts + [last], separator) == Join(parts, separator) + separator + last
  {
    if |parts| == 1 {
      assert (parts + [last])[1..] == [last];
    } else {
      JoinGrows(parts[1..], last, separator);
      assert (parts + [last])[1..] == parts[1..] + [last];
    }
  }

  /** Each line has its indentation, a part and a comma. */
  lemma {:induction false} LinesGrow(parts: seq<string>, last: string, indent: string)
    ensures Lines([], indent) == ""
    ensures Lines(parts + [last], indent) == Lines(parts, indent) + indent + last + ",\n"
  {
    if parts == [] {
      assert parts + [last] == [last] && [last][1..] == [];
    } else {
      LinesGrow(parts[1..], last, indent);
      assert (parts + [last])[1..] == parts[1..] + [last];
    }
  }

  lemma {:induction false} NamedPartTexts(named: seq<Pair>, depth: nat)
    ensures |NamedTexts(named, depth)| == |named|
    ensures forall i :: 0 <= i < |named| ==>
              NamedTexts(named, depth)[i] == KeyText(named[i].key) + " = " + DocText(named[i].doc, depth)
  {
    if named != [] {
      NamedPartTexts(named[1..], depth);
      assert NamedTexts(named, depth) == [PairText(named[0], depth)] + NamedTexts(named[1..], depth);
    }
  }

  lemma {:induction false} ItemPartTexts(items: seq<Doc>, depth: nat)
    ensures |ArrayTexts(items, depth)| == |items|
    ensures forall i :: 0 <= i < |items| ==> ArrayTexts(items, depth)[i] == DocText(items[i], depth)
  {
    if items != [] {
      ItemPartTexts(items[1..], depth);
      assert ArrayTexts(items, depth) == [DocText(items[0], depth)] + ArrayTexts(items[1..], depth);
    }
  }

  /**
   A table is printed in braces: empty, or on one line if it stands inside of another, has no table in it and 160
   characters hold it, or else with a line for each field and item, one tab deeper than the braces.
   */
  lemma LayoutExactly(named: seq<Pair>, items: seq<Doc>, depth: nat)
    ensures named == [] && items == [] ==> DocText(Group(named, items), depth) == "{}"
    ensures named != [] || items != [] ==>
              var parts := NamedTexts(named, depth + 1) + ArrayTexts(items, depth + 1);
              var one := "{ " + Join(parts, ", ") + " }";
              DocText(Group(named, items), depth)
              == if depth > 0 && |one| <= 160 && (forall i :: 0 <= i < |named| ==> !named[i].doc.Group?)
                    && (forall i :: 0 <= i < |items| ==> !items[i].Group?)
                 then one
                 else "{\n" + Lines(parts, Tabs(depth + 1)) + Tabs(depth) + "}"
    ensures |Tabs(depth)| == depth && forall i :: 0 <= i < depth ==> Tabs(depth)[i] == '\t'
  {
    var parts := NamedTexts(named, depth + 1) + ArrayTexts(items, depth + 1);
    assert Single(parts) == "{ " + Join(parts, ", ") + " }";
  }

  /** An identifier for a key is printed plainly, and any other in brackets. */
  lemma KeyExactly(key: Key)
    ensures match key
            case StrKey(s) => KeyText(key) == if IsIdentifier(s) || (s != "" && s[|s| - 1] == '\n' && IsIdentifier(s[..|s| - 1])) then s
                                              else "[\"" + Escaped(s) + "\"]"
            case IntKey(i) => KeyText(key) == if i < 0 then "[-" + Decimal(0 - i) + "]" else "[" + Decimal(i) + "]"
  {
    if key.StrKey? {
      assert "[" + ("\"" + Escaped(key.s) + "\"") + "]" == "[\"" + Escaped(key.s) + "\"]";
    } else if key.i < 0 {
      assert "[" + ("-" + Decimal(-key.i)) + "]" == "[-" + Decimal(0 - key.i) + "]";
    }
  }

  /** Behind a backslash, n and t stand for a line feed and a tab, a line feed for itself with the backslash, and anything else for itself. */
  lemma EscapesRead(c: char)
    ensures Unescaped(['\\', c]) == if c == 'n' then "\n" else if c == 't' then "\t" else if c == '\n' then "\\\n" else [c]
    ensures Unescaped("\\") == "\\"
  {
    var s := ['\\', c];
    assert s[2..] == "" && s[1..] == [c] && [c][1..] == "";
    assert c == '\n' ==> Unescaped([c]) == [c];
  }
}
