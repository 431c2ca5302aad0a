/**
 harness/otbm_ids.py: a scanner that reports the items of a map with their action and
 unique ids.  It shares no code with the converter: it reads a node's properties by
 looking ahead, and keeps its own stack.
 */
module MapIds {
  import opened Bytes
  import opened Options
  import opened Otbm

  const ATTR_ACTION_ID: Byte := 4
  const ATTR_UNIQUE_ID: Byte := 5

  /** How an attribute is skipped: a length-prefixed string or a fixed width. */
  datatype Width = Str | Fixed(bytes: nat)

  const ATTR_SIZES: map<Byte, Width> := map[
    1 := Str, 2 := Str, 3 := Fixed(4), 4 := Fixed(2), 5 := Fixed(2), 6 := Str, 7 := Str, 8 := Fixed(5),
    9 := Fixed(2), 10 := Fixed(2), 11 := Str, 12 := Fixed(1), 13 := Str, 14 := Fixed(1), 15 := Fixed(1),
    16 := Fixed(4), 17 := Fixed(1), 18 := Fixed(4), 19 := Str, 20 := Fixed(4), 21 := Fixed(4), 22 := Fixed(2)
  ]

  /** The ids a node carries. */
  datatype Ids = Ids(action: Option<U16>, unique: Option<U16>)

  function Drop(s: seq<Byte>, n: nat): seq<Byte> {
    if n <= |s| then s[n..] else []
  }

  /** The ids after reading the remaining attributes; a later attribute overrides an earlier one. */
  function Attributes(data: seq<Byte>, ids: Ids): Result<Ids, Error>
    decreases |data|
  {
    if data == [] then Ok(ids)
    else if data[0] !in ATTR_SIZES then Err(ValueError)
    else if data[0] == ATTR_ACTION_ID then
      if |data| < 3 then Err(StructError) else Attributes(data[3..], ids.(action := Some(U16At(data, 1))))
    else if data[0] == ATTR_UNIQUE_ID then
      if |data| < 3 then Err(StructError) else Attributes(data[3..], ids.(unique := Some(U16At(data, 1))))
    else
      match ATTR_SIZES[data[0]]
      case Str => if |data| < 3 then Err(StructError) else Attributes(Drop(data, 3 + U16At(data, 1)), ids)
      case Fixed(n) => Attributes(Drop(data, 1 + n), ids)
  }

  /** A node's property bytes, already unescaped, with a read position that may run past the end. */
  class Props {
    const data: seq<Byte>
    var pos: nat

    constructor (data: seq<Byte>)
      ensures this.data == data && pos == 0
    {
      this.data := data;
      pos := 0;
    }

    function Rest(): seq<Byte>
      reads this
    {
      Drop(data, pos)
    }

    method U8() returns (r: Result<Byte, Error>)
      modifies this
      ensures if |old(Rest())| < 1 then r == Err(IndexError) && pos == old(pos)
              else r == Ok(old(Rest())[0]) && pos == old(pos) + 1 && Rest() == old(Rest())[1..]
    {
      if pos >= |data| {
        return Err(IndexError);
      }
      r := Ok(data[pos]);
      pos := pos + 1;
    }

    method ReadU16() returns (r: Result<U16, Error>)
      modifies this
      ensures if |old(Rest())| < 2 then r == Err(StructError) && pos == old(pos)
              else r == Ok(U16At(old(Rest()), 0)) && pos == old(pos) + 2 && Rest() == old(Rest())[2..]
    {
      if pos + 2 > |data| {
        return Err(StructError);
      }
      r := Ok(U16At(data, pos));
      pos := pos + 2;
    }

    method Skip(n: nat)
      modifies this
      ensures pos == old(pos) + n && Rest() == Drop(old(Rest()), n)
    {
      pos := pos + n;
    }
  }

  /** One attribute taken off the front: its key byte first, then its value. */
  lemma AttributeRead(data: seq<Byte>, ids: Ids)
    requires data != [] && data[0] in ATTR_SIZES
    ensures var rest, short := data[1..], |data| < 3;
            match data[0] {
              case ATTR_ACTION_ID =>
                Attributes(data, ids) == if short then Err(StructError) else Attributes(rest[2..], ids.(action := Some(U16At(rest, 0))))
              case ATTR_UNIQUE_ID =>
                Attributes(data, ids) == if short then Err(StructError) else Attributes(rest[2..], ids.(unique := Some(U16At(rest, 0))))
              case key =>
                match ATTR_SIZES[key] {
                  case Str => Attributes(data, ids) == if short then Err(StructError) else Attributes(Drop(rest[2..], U16At(rest, 0)), ids)
                  case Fixed(n) => Attributes(data, ids) == Attributes(Drop(rest, n), ids)
                }
            }
  {
    if |data| >= 3 {
      assert data[1..][2..] == data[3..] && U16At(data[1..], 0) == U16At(data, 1);
      assert Drop(data[3..], U16At(data, 1)) == Drop(data, 3 + U16At(data, 1));
    }
    if ATTR_SIZES[data[0]].Fixed? {
      assert Drop(data[1..], ATTR_SIZES[data[0]].bytes) == Drop(data, 1 + ATTR_SIZES[data[0]].bytes);
    }
  }

  method ParseAttributes(props: Props) returns (r: Result<Ids, Error>)
    modifies props
    ensures r == Attributes(old(props.Rest()), Ids(None, None))
  {
    var actionId, uniqueId := None, None;
    while props.pos < |props.data|
      invariant Attributes(old(props.Rest()), Ids(None, None)) == Attributes(props.Rest(), Ids(actionId, uniqueId))
      decreases |props.data| - props.pos
    {
      ghost var before := props.Rest();
      if before[0] in ATTR_SIZES {
        AttributeRead(before, Ids(actionId, uniqueId));
      }
      var attr := props.U8();
      if attr.value !in ATTR_SIZES {
        return Err(ValueError);
      }
      if attr.value == ATTR_ACTION_ID {
        var id := props.ReadU16();
        if id.Err? {
          return Err(StructError);
        }
        actionId := Some(id.value);
      } else if attr.value == ATTR_UNIQUE_ID {
        var id := props.ReadU16();
        if id.Err? {
          return Err(StructError);
        }
        uniqueId := Some(id.value);
      } else if ATTR_SIZES[attr.value].Str? {
        var length := props.ReadU16();
        if length.Err? {
          return Err(StructError);
        }
        props.Skip(length.value);
      } else {
        props.Skip(ATTR_SIZES[attr.value].bytes);
      }
    }
    return Ok(Ids(actionId, uniqueId));
  }

  /** A reported line: where, which item (None for the tile itself), and its ids. */
  datatype Row = Row(at: Pos, item: Option<U16>, ids: Ids)

  /** What the scan carries from node to node. */
  datatype Seen = Seen(area: Pos, tile: Option<Pos>, rows: seq<Row>, warnings: nat)

  /** An id of zero counts as none. */
  predicate Identified(ids: Ids) {
    (ids.action.Some? && ids.action.value != 0) || (ids.unique.Some? && ids.unique.value != 0)
  }

  predicate IsTile(kind: Byte) {
    kind == OTBM_TILE || kind == OTBM_HOUSETILE
  }

  function Warn(seen: Seen): Seen {
    seen.(warnings := seen.warnings + 1)
  }

  /** What one node's own properties add to the report; anything unreadable is a warning and no row. */
  function Visit(everything: bool, kind: Byte, props: seq<Byte>, seen: Seen): Seen {
    if kind == OTBM_TILE_AREA then
      if |props| < 5 then Warn(seen)
      else seen.(area := Pos(U16At(props, 0), U16At(props, 2), props[4]), tile := None)
    else if IsTile(kind) then
      if |props| < 2 then Warn(seen) else
      var tile := Pos(seen.area.x + props[0], seen.area.y + props[1], seen.area.z);
      var onTile := seen.(tile := Some(tile));
      if kind == OTBM_HOUSETILE && |props| < 6 then Warn(onTile) else
      match Attributes(props[if kind == OTBM_HOUSETILE then 6 else 2..], Ids(None, None))
      case Err(_) => Warn(onTile)
      case Ok(ids) => if Identified(ids) then onTile.(rows := seen.rows + [Row(tile, None, ids)]) else onTile
    else if kind == OTBM_ITEM && seen.tile.Some? then
      if |props| < 2 then Warn(seen) else
      match Attributes(props[2..], Ids(None, None))
      case Err(_) => Warn(seen)
      case Ok(ids) =>
        if everything || Identified(ids) then
          seen.(rows := seen.rows + [Row(seen.tile.value, Some(U16At(props, 0)), ids)])
        else seen
    else seen
  }

  /**
   A node that cannot be read (an area shorter than its five bytes, a tile without its offsets or its house, an item
   without its id, or bad attributes) gives one warning and no row; any other gives a row or nothing, and no warning.
   */
  lemma WarnedExactly(everything: bool, kind: Byte, props: seq<Byte>, seen: Seen)
    ensures var after := Visit(everything, kind, props, seen);
            var head := if kind == 14 then 6 else 2;
            var unreadable :=
              || (kind == 4 && |props| < 5)
              || ((kind == 5 || kind == 14 || (kind == 6 && seen.tile.Some?))
                  && (|props| < head || Attributes(props[head..], Ids(None, None)).Err?));
            if unreadable then after.warnings == seen.warnings + 1 && after.rows == seen.rows
            else after.warnings == seen.warnings && seen.rows <= after.rows && |after.rows| <= |seen.rows| + 1
  {
  }

  function Leave(kind: Byte, seen: Seen): Seen {
    if IsTile(kind) then seen.(tile := None) else seen
  }

  // --------------------------------------------------------------------------------
  // The scan over the bytes
  // --------------------------------------------------------------------------------

  /** A node's unescaped properties and where they end. */
  datatype Block = Block(props: seq<Byte>, end: nat)

  /** Property bytes run until an unescaped marker, or the end of the file. */
  function ReadBlock(data: seq<Byte>, pos: nat): (r: Result<Block, Error>)
    requires pos <= |data|
    ensures r.Ok? ==> pos <= r.value.end <= |data|
    decreases |data| - pos
  {
    if pos == |data| || data[pos] == NODE_START || data[pos] == NODE_END then Ok(Block([], pos))
    else if data[pos] != ESCAPE then Grow([data[pos]], ReadBlock(data, pos + 1))
    else if pos + 1 >= |data| then Err(IndexError)
    else Grow([data[pos + 1]], ReadBlock(data, pos + 2))
  }

  function Grow(bytes: seq<Byte>, r: Result<Block, Error>): (r': Result<Block, Error>)
    ensures r.Ok? ==> r'.Ok? && r'.value.end == r.value.end
    ensures r.Err? ==> r' == r
  {
    match r
    case Ok(b) => Ok(Block(bytes + b.props, b.end))
    case Err(e) => Err(e)
  }

  /** The effect of entering and leaving nodes, left open. */
  type Visitor = (Byte, seq<Byte>, Seen) -> Seen

  function Scan(visit: Visitor, data: seq<Byte>, pos: nat, stack: seq<Byte>, seen: Seen): Result<Seen, Error>
    decreases |data| - pos
  {
    if pos >= |data| then Ok(seen)
    else if data[pos] == NODE_START then
      if pos + 1 >= |data| then Err(IndexError) else
      match ReadBlock(data, pos + 2)
      case Err(e) => Err(e)
      case Ok(b) => Scan(visit, data, b.end, stack + [data[pos + 1]], visit(data[pos + 1], b.props, seen))
    else if data[pos] == NODE_END && stack != [] then
      Scan(visit, data, pos + 1, stack[..|stack| - 1], Leave(stack[|stack| - 1], seen))
    else Scan(visit, data, pos + 1, stack, seen)
  }

  function ItemVisitor(everything: bool): Visitor {
    (kind: Byte, props: seq<Byte>, seen: Seen) => Visit(everything, kind, props, seen)
  }

  const NOTHING_SEEN := Seen(Pos(0, 0, 0), None, [], 0)

  method VisitNode(everything: bool, kind: Byte, raw: seq<Byte>, seen: Seen) returns (seen': Seen)
    ensures seen' == Visit(everything, kind, raw, seen)
  {
    var props := new Props(raw);
    seen' := seen;
    if kind == OTBM_TILE_AREA {
      var x := props.ReadU16();
      var y := props.ReadU16();
      var z := props.U8();
      if x.Err? || y.Err? || z.Err? {
        return Warn(seen);
      }
      return seen.(area := Pos(x.value, y.value, z.value), tile := None);
    } else if IsTile(kind) {
      var dx := props.U8();
      var dy := props.U8();
      if dx.Err? || dy.Err? {
        return Warn(seen);
      }
      var tile := Pos(seen.area.x + dx.value, seen.area.y + dy.value, seen.area.z);
      seen' := seen.(tile := Some(tile));
      if kind == OTBM_HOUSETILE {
        if props.pos + 4 > |raw| {
          return Warn(seen');
        }
        props.Skip(4);
      }
      assert props.Rest() == raw[props.pos..];
      var ids := ParseAttributes(props);
      if ids.Err? {
        return Warn(seen');
      }
      if Identified(ids.value) {
        seen' := seen'.(rows := seen.rows + [Row(tile, None, ids.value)]);
      }
    } else if kind == OTBM_ITEM && seen.tile.Some? {
      var itemId := props.ReadU16();
      if itemId.Err? {
        return Warn(seen);
      }
      var ids := ParseAttributes(props);
      if ids.Err? {
        return Warn(seen);
      }
      if everything || Identified(ids.value) {
        seen' := seen.(rows := seen.rows + [Row(seen.tile.value, Some(itemId.value), ids.value)]);
      }
    }
  }

  /** walk: the whole scan, as the source writes it. */
  method Walk(data: seq<Byte>, everything: bool) returns (r: Result<Seen, Error>)
    ensures r == Scan(ItemVisitor(everything), data, 4, [], NOTHING_SEEN)
  {
    var pos := 4;
    var stack: seq<Byte> := [];
    var seen := NOTHING_SEEN;
    while pos < |data|
      invariant Scan(ItemVisitor(everything), data, 4, [], NOTHING_SEEN)
             == Scan(ItemVisitor(everything), data, pos, stack, seen)
      decreases |data| - pos
    {
      var byte := data[pos];
      if byte == NODE_START {
        ghost var node := pos;
        pos := pos + 1;
        if pos >= |data| {
          return Err(IndexError);
        }
        var kind := data[pos];
        pos := pos + 1;
        var raw := [];
        GrowNothing(ReadBlock(data, pos));
        while pos < |data| && data[pos] != NODE_START && data[pos] != NODE_END
          invariant node + 2 <= pos <= |data|
          invariant ReadBlock(data, node + 2) == Grow(raw, ReadBlock(data, pos))
        {
          var b := data[pos];
          if b == ESCAPE {
            if pos + 1 >= |data| {
              return Err(IndexError);
            }
            GrowTwice(raw, [data[pos + 1]], ReadBlock(data, pos + 2));
            raw := raw + [data[pos + 1]];
            pos := pos + 2;
          } else {
            GrowTwice(raw, [b], ReadBlock(data, pos + 1));
            raw := raw + [b];
            pos := pos + 1;
          }
        }
        assert raw + [] == raw;
        seen := VisitNode(everything, kind, raw, seen);
        stack := stack + [kind];
      } else {
        if byte == NODE_END && stack != [] {
          var popped := stack[|stack| - 1];
          stack := stack[..|stack| - 1];
          if IsTile(popped) {
            seen := seen.(tile := None);
          }
        }
        pos := pos + 1;
      }
    }
    return Ok(seen);
  }

  lemma GrowNothing(r: Result<Block, Error>)
    ensures Grow([], r) == r
  {
    if r.Ok? {
      assert [] + r.value.props == r.value.props;
    }
  }

  lemma GrowTwice(a: seq<Byte>, b: seq<Byte>, r: Result<Block, Error>)
    ensures Grow(a, Grow(b, r)) == Grow(a + b, r)
  {
    if r.Ok? {
      assert a + (b + r.value.props) == (a + b) + r.value.props;
    }
  }

  // --------------------------------------------------------------------------------
  // The tree
  // --------------------------------------------------------------------------------

  function WalkNode(visit: Visitor, n: Node, seen: Seen): Seen
    decreases n, 1
  {
    Leave(n.kind, WalkNodes(visit, n.children, visit(n.kind, n.props, seen)))
  }

  function WalkNodes(visit: Visitor, ns: seq<Node>, seen: Seen): Seen
    decreases ns, 0
  {
    if ns == [] then seen else WalkNodes(visit, ns[1..], WalkNode(visit, ns[0], seen))
  }

  /** The rest of the scan from a position, a stack and a report, with its definition out of sight. */
  type Scanner = (nat, seq<Byte>, Seen) -> Result<Seen, Error>

  ghost predicate Scans(scan: Scanner, visit: Visitor, data: seq<Byte>) {
    forall at: nat, stack: seq<Byte>, seen: Seen {:trigger Scan(visit, data, at, stack, seen)} ::
      scan(at, stack, seen) == Scan(visit, data, at, stack, seen)
  }

  lemma {:induction false} ReadEscaped(data: seq<Byte>, at: nat, props: seq<Byte>)
    requires At(data, at, Escape(props)) && MarkerAt(data, at + |Escape(props)|)
    ensures ReadBlock(data, at) == Ok(Block(props, at + |Escape(props)|))
    decreases |props|
  {
    if props != [] {
      var first := EscapeByte(props[0]);
      AtSplit(data, at, first, Escape(props[1..]));
      assert data[at] == data[at..at + |first|][0] && (|first| == 2 ==> data[at + 1] == data[at..at + |first|][1]);
      ReadEscaped(data, at + |first|, props[1..]);
      assert [props[0]] + props[1..] == props;
    }
  }

  lemma ScanEnter(scan: Scanner, visit: Visitor, data: seq<Byte>, at: nat, n: Node, stack: seq<Byte>, seen: Seen)
    requires Scans(scan, visit, data) && At(data, at, Opening(n)) && MarkerAt(data, at + |Opening(n)|)
    ensures scan(at, stack, seen) == scan(at + |Opening(n)|, stack + [n.kind], visit(n.kind, n.props, seen))
  {
    OpeningLayout(data, at, n);
    ReadEscaped(data, at + 2, n.props);
    assert Scan(visit, data, at, stack, seen)
        == Scan(visit, data, at + |Opening(n)|, stack + [n.kind], visit(n.kind, n.props, seen));
  }

  lemma ScanClose(scan: Scanner, visit: Visitor, data: seq<Byte>, k: nat, stack: seq<Byte>, kind: Byte, seen: Seen)
    requires Scans(scan, visit, data) && At(data, k, [NODE_END])
    ensures scan(k, stack + [kind], seen) == scan(k + 1, stack, Leave(kind, seen))
  {
    ByteAt(data, k, NODE_END);
    assert (stack + [kind])[..|stack|] == stack;
    assert Scan(visit, data, k, stack + [kind], seen) == Scan(visit, data, k + 1, stack, Leave(kind, seen));
  }

  lemma {:induction false} ScanNode(scan: Scanner, visit: Visitor, data: seq<Byte>, at: nat, n: Node, stack: seq<Byte>, seen: Seen)
    requires Scans(scan, visit, data) && At(data, at, Serialize(n))
    ensures scan(at, stack, seen) == scan(at + |Serialize(n)|, stack, WalkNode(visit, n, seen))
    decreases n, 1
  {
    NodeLayout(data, at, n);
    var j := at + |Opening(n)|;
    var inside := visit(n.kind, n.props, seen);
    ScanEnter(scan, visit, data, at, n, stack, seen);
    ScanNodes(scan, visit, data, j, n.children, stack + [n.kind], inside);
    ScanClose(scan, visit, data, j + |SerializeAll(n.children)|, stack, n.kind, WalkNodes(visit, n.children, inside));
  }

  lemma {:induction false} ScanNodes(scan: Scanner, visit: Visitor, data: seq<Byte>, at: nat, ns: seq<Node>, stack: seq<Byte>, seen: Seen)
    requires Scans(scan, visit, data) && At(data, at, SerializeAll(ns))
    ensures scan(at, stack, seen) == scan(at + |SerializeAll(ns)|, stack, WalkNodes(visit, ns, seen))
    decreases ns, 0
  {
    if ns != [] {
      AtSplit(data, at, Serialize(ns[0]), SerializeAll(ns[1..]));
      ScanNode(scan, visit, data, at, ns[0], stack, seen);
      ScanNodes(scan, visit, data, at + |Serialize(ns[0])|, ns[1..], stack, WalkNode(visit, ns[0], seen));
    }
  }

  /** The scan of a map file is the walk of its tree. */
  lemma ScanIsWalk(visit: Visitor, header: seq<Byte>, root: Node)
    requires |header| == 4
    ensures Scan(visit, header + Serialize(root), 4, [], NOTHING_SEEN) == Ok(WalkNodes(visit, [root], NOTHING_SEEN))
  {
    var data := header + Serialize(root);
    var scan: Scanner := (at: nat, stack: seq<Byte>, seen: Seen) => Scan(visit, data, at, stack, seen);
    assert SerializeAll([root]) == Serialize(root) + SerializeAll([]) == Serialize(root);
    assert data[4..] == Serialize(root);
    ScanNodes(scan, visit, data, 4, [root], [], NOTHING_SEEN);
    var seen := WalkNodes(visit, [root], NOTHING_SEEN);
    assert scan(4, [], NOTHING_SEEN) == Scan(visit, data, 4, [], NOTHING_SEEN);
    assert scan(|data|, [], seen) == Scan(visit, data, |data|, [], seen);
  }
}
