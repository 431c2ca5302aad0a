/**
 The OTBM byte stream: a tree of nodes, each a start marker, a type byte, its escaped
 properties, its children and an end marker.  escape and unescape are those of
 harness/build_canary_map.py; harness/otbm_set_aid.py repeats the same escaping.
 */
module Otbm {
  import opened Bytes
  import opened Options

  const NODE_START: Byte := 0xFE
  const NODE_END: Byte := 0xFF
  const ESCAPE: Byte := 0xFD

  const OTBM_MAP_DATA: Byte := 2
  const OTBM_TILE_AREA: Byte := 4
  const OTBM_TILE: Byte := 5
  const OTBM_ITEM: Byte := 6
  const OTBM_HOUSETILE: Byte := 14
  const OTBM_TILE_ZONE: Byte := 19

  /** The exceptions the tools raise: an index past the end, a short struct, a bad value. */
  datatype Error = IndexError | StructError | ValueError

  datatype Pos = Pos(x: nat, y: nat, z: nat)

  datatype Node = Node(kind: Byte, props: seq<Byte>, children: seq<Node>)

  predicate IsMarker(b: Byte) {
    b == ESCAPE || b == NODE_START || b == NODE_END
  }

  function EscapeByte(b: Byte): seq<Byte> {
    if IsMarker(b) then [ESCAPE, b] else [b]
  }

  function Escape(data: seq<Byte>): seq<Byte> {
    if data == [] then [] else EscapeByte(data[0]) + Escape(data[1..])
  }

  function Unescape(segment: seq<Byte>): Result<seq<Byte>, Error> {
    if segment == [] then Ok([])
    else if segment[0] != ESCAPE then PrependAll([segment[0]], Unescape(segment[1..]))
    else if |segment| == 1 then Err(IndexError)
    else PrependAll([segment[1]], Unescape(segment[2..]))
  }

  function PrependAll(bs: seq<Byte>, r: Result<seq<Byte>, Error>): Result<seq<Byte>, Error> {
    match r
    case Ok(data) => Ok(bs + data)
    case Err(e) => Err(e)
  }

  /** A node's bytes up to its first child or its end. */
  function Opening(n: Node): seq<Byte> {
    [NODE_START, n.kind] + Escape(n.props)
  }

  /** The bytes of one node. */
  function Serialize(n: Node): (s: seq<Byte>)
    ensures |s| >= 3 && s[0] == NODE_START && s[1] == n.kind
    decreases n, 1
  {
    Opening(n) + (SerializeAll(n.children) + [NODE_END])
  }

  function SerializeAll(ns: seq<Node>): (s: seq<Byte>)
    ensures ns != [] ==> |s| >= 3 && s[0] == NODE_START
    decreases ns, 0
  {
    if ns == [] then [] else Serialize(ns[0]) + SerializeAll(ns[1..])
  }

  method EscapeData(data: seq<Byte>) returns (escaped: seq<Byte>)
    ensures escaped == Escape(data)
  {
    if forall i :: 0 <= i < |data| ==> !IsMarker(data[i]) {
      EscapePlain(data);
      return data;
    }
    escaped := [];
    for i := 0 to |data|
      invariant escaped + Escape(data[i..]) == Escape(data)
    {
      if IsMarker(data[i]) {
        escaped := escaped + [ESCAPE];
      }
      escaped := escaped + [data[i]];
    }
  }

  method UnescapeSegment(segment: seq<Byte>) returns (r: Result<seq<Byte>, Error>)
    ensures r == Unescape(segment)
  {
    if ESCAPE !in segment {
      UnescapePlain(segment);
      return Ok(segment);
    }
    var out := [];
    var index := 0;
    PrependNothing(Unescape(segment));
    while index < |segment|
      invariant 0 <= index <= |segment|
      invariant Unescape(segment) == PrependAll(out, Unescape(segment[index..]))
    {
      ghost var rest := segment[index..];
      var byte := segment[index];
      if byte == ESCAPE {
        index := index + 1;
        if index >= |segment| {
          return Err(IndexError);
        }
        byte := segment[index];
        assert rest[2..] == segment[index + 1..];
      }
      PrependTwice(out, [byte], Unescape(segment[index + 1..]));
      out := out + [byte];
      index := index + 1;
    }
    assert out + [] == out;
    return Ok(out);
  }

  lemma PrependNothing(r: Result<seq<Byte>, Error>)
    ensures PrependAll([], r) == r
  {
    if r.Ok? {
      assert [] + r.value == r.value;
    }
  }

  lemma PrependTwice(a: seq<Byte>, b: seq<Byte>, r: Result<seq<Byte>, Error>)
    ensures PrependAll(a, PrependAll(b, r)) == PrependAll(a + b, r)
  {
    if r.Ok? {
      assert a + (b + r.value) == (a + b) + r.value;
    }
  }

  lemma {:induction false} EscapePlain(data: seq<Byte>)
    requires forall i :: 0 <= i < |data| ==> !IsMarker(data[i])
    ensures Escape(data) == data
  {
    if data != [] {
      EscapePlain(data[1..]);
    }
  }

  lemma {:induction false} UnescapePlain(segment: seq<Byte>)
    requires ESCAPE !in segment
    ensures Unescape(segment) == Ok(segment)
  {
    if segment != [] {
      UnescapePlain(segment[1..]);
      assert [segment[0]] + segment[1..] == segment;
    }
  }

  lemma {:induction false} EscapeConcat(a: seq<Byte>, b: seq<Byte>)
    ensures Escape(a + b) == Escape(a) + Escape(b)
  {
    if a == [] {
      assert a + b == b;
    } else {
      EscapeConcat(a[1..], b);
      assert (a + b)[0] == a[0] && (a + b)[1..] == a[1..] + b;
      ConcatAssociates(EscapeByte(a[0]), Escape(a[1..]), Escape(b));
    }
  }

  /** unescape undoes escape on every byte string. */
  lemma {:induction false} UnescapeEscape(data: seq<Byte>)
    ensures Unescape(Escape(data)) == Ok(data)
  {
    if data != [] {
      UnescapeEscape(data[1..]);
      assert [data[0]] + data[1..] == data;
      assert Escape(data)[|EscapeByte(data[0])|..] == Escape(data[1..]);
    }
  }

  /** A reader that steps over each escape byte and its successor meets no marker in escaped data. */
  predicate Shielded(s: seq<Byte>) {
    if s == [] then true
    else if s[0] == ESCAPE then |s| >= 2 && Shielded(s[2..])
    else !IsMarker(s[0]) && Shielded(s[1..])
  }

  lemma {:induction false} EscapeShields(data: seq<Byte>)
    ensures Shielded(Escape(data))
  {
    if data != [] {
      EscapeShields(data[1..]);
      assert Escape(data)[|EscapeByte(data[0])|..] == Escape(data[1..]);
    }
  }

  lemma ConcatAssociates(x: seq<Byte>, y: seq<Byte>, z: seq<Byte>)
    ensures x + (y + z) == (x + y) + z
  {
  }

  lemma {:induction false} SerializeAllConcat(a: seq<Node>, b: seq<Node>)
    ensures SerializeAll(a + b) == SerializeAll(a) + SerializeAll(b)
  {
    if a == [] {
      assert a + b == b;
    } else {
      SerializeAllConcat(a[1..], b);
      assert (a + b)[0] == a[0] && (a + b)[1..] == a[1..] + b;
      ConcatAssociates(Serialize(a[0]), SerializeAll(a[1..]), SerializeAll(b));
    }
  }

  // --------------------------------------------------------------------------------
  // Where the parts of a node lie in a file
  // --------------------------------------------------------------------------------

  predicate At(raw: seq<Byte>, at: nat, s: seq<Byte>) {
    at + |s| <= |raw| && raw[at..at + |s|] == s
  }

  predicate MarkerAt(raw: seq<Byte>, at: nat) {
    at < |raw| && (raw[at] == NODE_START || raw[at] == NODE_END)
  }

  lemma AtSplit(raw: seq<Byte>, at: nat, a: seq<Byte>, b: seq<Byte>)
    requires At(raw, at, a + b)
    ensures At(raw, at, a) && At(raw, at + |a|, b)
  {
    assert raw[at..at + |a|] == (a + b)[..|a|] == a;
    assert raw[at + |a|..at + |a| + |b|] == (a + b)[|a|..] == b;
  }

  lemma NodeLayout(raw: seq<Byte>, at: nat, n: Node)
    requires At(raw, at, Serialize(n))
    ensures var j := at + |Opening(n)|;
            && At(raw, at, Opening(n))
            && At(raw, j, SerializeAll(n.children))
            && MarkerAt(raw, j)
            && At(raw, j + |SerializeAll(n.children)|, [NODE_END])
    ensures |Serialize(n)| == |Opening(n)| + |SerializeAll(n.children)| + 1
  {
    var kids := SerializeAll(n.children);
    var body := kids + [NODE_END];
    AtSplit(raw, at, Opening(n), body);
    var j := at + |Opening(n)|;
    AtSplit(raw, j, kids, [NODE_END]);
    assert raw[j] == raw[j..j + |body|][0] == body[0];
  }

  lemma OpeningLayout(raw: seq<Byte>, at: nat, n: Node)
    requires At(raw, at, Opening(n))
    ensures raw[at] == NODE_START && raw[at + 1] == n.kind && At(raw, at + 2, Escape(n.props))
  {
    AtSplit(raw, at, [NODE_START, n.kind], Escape(n.props));
    assert raw[at] == raw[at..at + 2][0] && raw[at + 1] == raw[at..at + 2][1];
  }

  lemma ByteAt(raw: seq<Byte>, at: nat, b: Byte)
    requires At(raw, at, [b])
    ensures raw[at] == b
  {
    assert raw[at] == raw[at..at + 1][0];
  }
}
