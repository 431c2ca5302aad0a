/**
 harness/otbm_set_aid.py: give one item of a map an action id by inserting three escaped
 bytes, and what the independent scanner of harness/otbm_ids.py then reports.
 */
module MapSetAid {
  import opened Bytes
  import opened Options
  import opened Otbm
  import opened MapIds

  // --------------------------------------------------------------------------------
  // Finding the item in the bytes
  // --------------------------------------------------------------------------------

  /** Reads `count` unescaped bytes: the values and where the raw bytes end. */
  function Decode(data: seq<Byte>, pos: nat, count: nat): (r: Result<Block, Error>)
    ensures r.Ok? ==> |r.value.props| == count && pos <= r.value.end <= |data|
    decreases count
  {
    if count == 0 then (if pos <= |data| then Ok(Block([], pos)) else Err(IndexError))
    else if pos >= |data| then Err(IndexError)
    else if data[pos] == ESCAPE then
      if pos + 1 >= |data| then Err(IndexError) else Grow([data[pos + 1]], Decode(data, pos + 2, count - 1))
    else if data[pos] == NODE_START || data[pos] == NODE_END then Err(ValueError)
    else Grow([data[pos]], Decode(data, pos + 1, count - 1))
  }

  method DecodeFrom(data: seq<Byte>, start: nat, count: nat) returns (r: Result<Block, Error>)
    requires start <= |data|
    ensures r == Decode(data, start, count)
  {
    var values := [];
    var pos := start;
    GrowNothing(Decode(data, start, count));
    while |values| < count
      invariant start <= pos <= |data| && |values| <= count
      invariant Decode(data, start, count) == Grow(values, Decode(data, pos, count - |values|))
    {
      if pos >= |data| {
        return Err(IndexError);
      }
      var byte := data[pos];
      if byte == ESCAPE {
        if pos + 1 >= |data| {
          return Err(IndexError);
        }
        GrowTwice(values, [data[pos + 1]], Decode(data, pos + 2, count - |values| - 1));
        values := values + [data[pos + 1]];
        pos := pos + 2;
        continue;
      }
      if byte == NODE_START || byte == NODE_END {
        return Err(ValueError);
      }
      GrowTwice(values, [byte], Decode(data, pos + 1, count - |values| - 1));
      values := values + [byte];
      pos := pos + 1;
    }
    assert values + [] == values;
    return Ok(Block(values, pos));
  }

  /** What the search carries along: the area, the last tile, and where matching item ids end. */
  datatype Search = Search(area: Pos, tile: Option<Pos>, matches: seq<nat>)

  /** The item looked for. */
  datatype Target = Target(at: Pos, item: U16)

  /** How many property bytes of a node the search reads. */
  function Needed(target: Target, kind: Byte, s: Search): nat {
    if kind == OTBM_TILE_AREA then 5
    else if IsTile(kind) || (kind == OTBM_ITEM && s.tile == Some(target.at)) then 2
    else 0
  }

  /** The search's view of one node, given the bytes it needs and where they end. */
  function Judge(target: Target, kind: Byte, s: Search, b: Block): Search
    requires |b.props| == Needed(target, kind, s)
  {
    if kind == OTBM_TILE_AREA then
      s.(area := Pos(U16At(b.props, 0), U16At(b.props, 2), b.props[4]), tile := None)
    else if IsTile(kind) then
      s.(tile := Some(Pos(s.area.x + b.props[0], s.area.y + b.props[1], s.area.z)))
    else if kind == OTBM_ITEM && s.tile == Some(target.at) && U16At(b.props, 0) == target.item then
      s.(matches := s.matches + [b.end])
    else s
  }

  function Look(target: Target, data: seq<Byte>, kind: Byte, props: nat, s: Search): Result<Search, Error> {
    if Needed(target, kind, s) == 0 then Ok(s) else Seen(target, kind, s, Decode(data, props, Needed(target, kind, s)))
  }

  function Seen(target: Target, kind: Byte, s: Search, r: Result<Block, Error>): Result<Search, Error>
    requires r.Ok? ==> |r.value.props| == Needed(target, kind, s)
  {
    match r
    case Err(e) => Err(e)
    case Ok(b) => Ok(Judge(target, kind, s, b))
  }

  function Find(target: Target, data: seq<Byte>, pos: nat, s: Search): Result<Search, Error>
    decreases |data| - pos
  {
    if pos >= |data| then Ok(s)
    else if data[pos] == NODE_START then
      if pos + 1 >= |data| then Err(IndexError) else
      match Look(target, data, data[pos + 1], pos + 2, s)
      case Err(e) => Err(e)
      case Ok(s') => Find(target, data, pos + 2, s')
    else if data[pos] == ESCAPE then Find(target, data, pos + 2, s)
    else Find(target, data, pos + 1, s)
  }

  const NOTHING_FOUND := Search(Pos(0, 0, 0), None, [])

  /** find_item_node: the whole search, as the source writes it. */
  method FindItemNode(data: seq<Byte>, target: Target) returns (r: Result<seq<nat>, Error>)
    ensures match Find(target, data, 4, NOTHING_FOUND)
            case Err(e) => r == Err(e)
            case Ok(s) => r == Ok(s.matches)
  {
    var pos := 4;
    var s := NOTHING_FOUND;
    while pos < |data|
      invariant Find(target, data, 4, NOTHING_FOUND) == Find(target, data, pos, s)
      decreases |data| - pos
    {
      var byte := data[pos];
      if byte == NODE_START {
        if pos + 1 >= |data| {
          return Err(IndexError);
        }
        var kind := data[pos + 1];
        var propsStart := pos + 2;
        if kind == OTBM_TILE_AREA {
          var values := DecodeFrom(data, propsStart, 5);
          if values.Err? {
            return Err(values.error);
          }
          var v := values.value.props;
          s := s.(area := Pos(U16At(v, 0), U16At(v, 2), v[4]), tile := None);
        } else if IsTile(kind) {
          var values := DecodeFrom(data, propsStart, 2);
          if values.Err? {
            return Err(values.error);
          }
          var v := values.value.props;
          s := s.(tile := Some(Pos(s.area.x + v[0], s.area.y + v[1], s.area.z)));
        } else if kind == OTBM_ITEM && s.tile == Some(target.at) {
          var values := DecodeFrom(data, propsStart, 2);
          if values.Err? {
            return Err(values.error);
          }
          if U16At(values.value.props, 0) == target.item {
            s := s.(matches := s.matches + [values.value.end]);
          }
        }
        pos := propsStart;
        continue;
      }
      if byte == ESCAPE {
        pos := pos + 2;
        continue;
      }
      pos := pos + 1;
    }
    return Ok(s.matches);
  }

  /** How the tool ends: it writes a map, finds nothing, will not choose, or fails. */
  datatype Outcome = Written(data: seq<Byte>) | NoMatch | Ambiguous | Failed(error: Error)

  function ActionAttribute(aid: U16): seq<Byte> {
    [ATTR_ACTION_ID] + Le16(aid)
  }

  /** data[at:at] = bytes */
  function Splice(data: seq<Byte>, at: nat, bytes: seq<Byte>): seq<Byte> {
    var k := if at <= |data| then at else |data|;
    data[..k] + bytes + data[k..]
  }

  function Outcomes(data: seq<Byte>, target: Target, aid: U16): Outcome {
    match Find(target, data, 4, NOTHING_FOUND)
    case Err(e) => Failed(e)
    case Ok(s) =>
      if s.matches == [] then NoMatch
      else if |s.matches| > 1 then Ambiguous
      else Written(Splice(data, s.matches[0], Escape(ActionAttribute(aid))))
  }

  method SetActionId(data: seq<Byte>, target: Target, aid: U16) returns (outcome: Outcome)
    ensures outcome == Outcomes(data, target, aid)
  {
    var matches := FindItemNode(data, target);
    if matches.Err? {
      return Failed(matches.error);
    }
    if matches.value == [] {
      return NoMatch;
    }
    if |matches.value| > 1 {
      return Ambiguous;
    }
    var attribute := EscapeData(ActionAttribute(aid));
    return Written(Splice(data, matches.value[0], attribute));
  }

  // --------------------------------------------------------------------------------
  // Finding the item in the tree
  // --------------------------------------------------------------------------------

  /** Where the search stands. */
  datatype Place = Place(area: Pos, tile: Option<Pos>)

  /** The place after a node's own properties; None where the tool gives up on them. */
  function Arrive(target: Target, n: Node, p: Place): Option<Place> {
    if n.kind == OTBM_TILE_AREA then
      if |n.props| < 5 then None else Some(Place(Pos(U16At(n.props, 0), U16At(n.props, 2), n.props[4]), None))
    else if IsTile(n.kind) then
      if |n.props| < 2 then None
      else Some(p.(tile := Some(Pos(p.area.x + n.props[0], p.area.y + n.props[1], p.area.z))))
    else if n.kind == OTBM_ITEM && p.tile == Some(target.at) && |n.props| < 2 then None
    else Some(p)
  }

  predicate Hit(target: Target, n: Node, p: Place) {
    n.kind == OTBM_ITEM && p.tile == Some(target.at) && |n.props| >= 2 && U16At(n.props, 0) == target.item
  }

  function WithAction(n: Node, aid: U16): Node
    requires |n.props| >= 2
  {
    n.(props := n.props[..2] + ActionAttribute(aid) + n.props[2..])
  }

  /** The tree with the attribute on every hit, where in its bytes each hit's item id ends, and the place reached. */
  datatype Marked = Marked(nodes: seq<Node>, offsets: seq<nat>, place: Place)

  function Shift(base: nat, offsets: seq<nat>): seq<nat> {
    seq(|offsets|, i requires 0 <= i < |offsets| => base + offsets[i])
  }

  function IdEnd(n: Node): nat
    requires |n.props| >= 2
  {
    2 + |Escape(n.props[..2])|
  }

  function MarkNode(target: Target, aid: U16, n: Node, p: Place): Option<Marked>
    decreases n, 1
  {
    match Arrive(target, n, p)
    case None => None
    case Some(p') => Around(target, aid, n, p, MarkNodes(target, aid, n.children, p'))
  }

  function Around(target: Target, aid: U16, n: Node, p: Place, kids: Option<Marked>): Option<Marked> {
    match kids
    case None => None
    case Some(m) =>
      var n' := n.(children := m.nodes);
      var below := Shift(|Opening(n)|, m.offsets);
      if Hit(target, n, p) then Some(Marked([WithAction(n', aid)], [IdEnd(n)] + below, m.place))
      else Some(Marked([n'], below, m.place))
  }

  function MarkNodes(target: Target, aid: U16, ns: seq<Node>, p: Place): Option<Marked>
    decreases ns, 0
  {
    if ns == [] then Some(Marked([], [], p)) else
    match MarkNode(target, aid, ns[0], p)
    case None => None
    case Some(first) => After(|Serialize(ns[0])|, first, MarkNodes(target, aid, ns[1..], first.place))
  }

  function After(length: nat, first: Marked, rest: Option<Marked>): Option<Marked> {
    match rest
    case None => None
    case Some(m) => Some(Marked(first.nodes + m.nodes, first.offsets + Shift(length, m.offsets), m.place))
  }

  /** Decoding escaped properties gives their first bytes. */
  lemma {:induction false} DecodeEscaped(data: seq<Byte>, at: nat, props: seq<Byte>, count: nat)
    requires At(data, at, Escape(props)) && count <= |props|
    ensures Decode(data, at, count) == Ok(Block(props[..count], at + |Escape(props[..count])|))
    decreases count
  {
    if count > 0 {
      var rest, first := props[1..], EscapeByte(props[0]);
      AtSplit(data, at, first, Escape(rest));
      DecodeEscaped(data, at + |first|, rest, count - 1);
      DecodeStep(data, at, props[0], count);
      EscapePrefix(props, count);
      GrowOne(props[0], rest[..count - 1], props[..count],
              Decode(data, at + |first|, count - 1), at + |Escape(props[..count])|);
    }
  }

  lemma EscapePrefix(props: seq<Byte>, count: nat)
    requires 0 < count <= |props|
    ensures props[..count] == [props[0]] + props[1..][..count - 1]
    ensures Escape(props[..count]) == EscapeByte(props[0]) + Escape(props[1..][..count - 1])
  {
    assert props[..count][1..] == props[1..][..count - 1];
  }

  lemma GrowOne(b: Byte, rest: seq<Byte>, all: seq<Byte>, r: Result<Block, Error>, end: nat)
    requires all == [b] + rest && r == Ok(Block(rest, end))
    ensures Grow([b], r) == Ok(Block(all, end))
  {
  }

  /** Decoding more bytes than there are fails at the marker that follows. */
  lemma {:induction false} DecodeShort(data: seq<Byte>, at: nat, props: seq<Byte>, count: nat)
    requires At(data, at, Escape(props)) && MarkerAt(data, at + |Escape(props)|) && count > |props|
    ensures Decode(data, at, count) == Err(ValueError)
    decreases count
  {
    if props != [] {
      AtSplit(data, at, EscapeByte(props[0]), Escape(props[1..]));
      DecodeShort(data, at + |EscapeByte(props[0])|, props[1..], count - 1);
      DecodeStep(data, at, props[0], count);
    }
  }

  lemma DecodeStep(data: seq<Byte>, at: nat, b: Byte, count: nat)
    requires At(data, at, EscapeByte(b)) && count > 0
    ensures Decode(data, at, count) == Grow([b], Decode(data, at + |EscapeByte(b)|, count - 1))
  {
    assert data[at] == data[at..at + |EscapeByte(b)|][0];
    if IsMarker(b) {
      assert data[at + 1] == data[at..at + 2][1];
    }
  }

  /** The rest of the search from a position and a state, with its definition out of sight. */
  type Searcher = (nat, Search) -> Result<Search, Error>

  ghost predicate Searches(find: Searcher, target: Target, data: seq<Byte>) {
    forall at: nat, s: Search {:trigger Find(target, data, at, s)} :: find(at, s) == Find(target, data, at, s)
  }

  lemma {:induction false} FindEscaped(target: Target, data: seq<Byte>, at: nat, s: seq<Byte>, search: Search)
    requires At(data, at, s) && Shielded(s)
    ensures Find(target, data, at, search) == Find(target, data, at + |s|, search)
    decreases |s|
  {
    if s != [] {
      var k := if s[0] == ESCAPE then 2 else 1;
      assert data[at] == s[0];
      AtSplit(data, at, s[..k], s[k..]);
      FindEscaped(target, data, at + k, s[k..], search);
    }
  }

  /** The search's look at a node sees exactly the node's properties. */
  lemma LookAtNode(target: Target, data: seq<Byte>, at: nat, n: Node, s: Search)
    requires At(data, at + 2, Escape(n.props)) && MarkerAt(data, at + 2 + |Escape(n.props)|)
    ensures var p := Place(s.area, s.tile);
            var look := Look(target, data, n.kind, at + 2, s);
            && (Arrive(target, n, p).None? ==> look.Err?)
            && (Arrive(target, n, p).Some? ==> look == Ok(Looked(target, at, n, s, Arrive(target, n, p).value)))
  {
    var count := Needed(target, n.kind, s);
    if count <= |n.props| {
      DecodeEscaped(data, at + 2, n.props, count);
    } else {
      DecodeShort(data, at + 2, n.props, count);
    }
    SeenNode(target, at, n, s, Decode(data, at + 2, count));
  }

  lemma SeenNode(target: Target, at: nat, n: Node, s: Search, r: Result<Block, Error>)
    requires var count := Needed(target, n.kind, s);
             && (count <= |n.props| ==> r == Ok(Block(n.props[..count], at + 2 + |Escape(n.props[..count])|)))
             && (count > |n.props| ==> r == Err(ValueError))
    ensures var count := Needed(target, n.kind, s);
            var arrived := Arrive(target, n, Place(s.area, s.tile));
            && (arrived.None? <==> count > |n.props|)
            && (count == 0 ==> arrived.Some? && Looked(target, at, n, s, arrived.value) == s)
            && (arrived.Some? ==> Seen(target, n.kind, s, r) == Ok(Looked(target, at, n, s, arrived.value)))
  {
    assert s.matches + [] == s.matches;
  }

  function Looked(target: Target, at: nat, n: Node, s: Search, p': Place): Search {
    var here := if Hit(target, n, Place(s.area, s.tile)) then [at + 2 + |Escape(n.props[..2])|] else [];
    Search(p'.area, p'.tile, s.matches + here)
  }

  /** The search after some nodes have been looked through. */
  function Passed(s: Search, at: nat, m: Marked): Search {
    Search(m.place.area, m.place.tile, s.matches + Shift(at, m.offsets))
  }

  /** The search resumed after a stretch of nodes, or given up inside it. */
  ghost predicate Resumes(find: Searcher, at: nat, to: nat, s: Search, m: Option<Marked>) {
    match m
    case None => find(at, s).Err?
    case Some(marked) => find(at, s) == find(to, Passed(s, at, marked))
  }

  lemma FindEnter(find: Searcher, target: Target, data: seq<Byte>, at: nat, n: Node, s: Search)
    requires Searches(find, target, data)
    requires At(data, at, Opening(n)) && MarkerAt(data, at + |Opening(n)|)
    ensures var arrived := Arrive(target, n, Place(s.area, s.tile));
            && (arrived.None? ==> find(at, s).Err?)
            && (arrived.Some? ==> find(at, s) == find(at + |Opening(n)|, Looked(target, at, n, s, arrived.value)))
  {
    OpeningLayout(data, at, n);
    LookAtNode(target, data, at, n, s);
    var arrived := Arrive(target, n, Place(s.area, s.tile));
    if arrived.Some? {
      var s' := Looked(target, at, n, s, arrived.value);
      assert Find(target, data, at, s) == Find(target, data, at + 2, s');
      EscapeShields(n.props);
      FindEscaped(target, data, at + 2, Escape(n.props), s');
    } else {
      assert Find(target, data, at, s).Err?;
    }
  }

  lemma FindClose(find: Searcher, target: Target, data: seq<Byte>, k: nat, s: Search)
    requires Searches(find, target, data) && At(data, k, [NODE_END])
    ensures find(k, s) == find(k + 1, s)
  {
    ByteAt(data, k, NODE_END);
    assert Find(target, data, k, s) == Find(target, data, k + 1, s);
  }

  lemma {:induction false} FindNode(find: Searcher, target: Target, aid: U16, data: seq<Byte>, at: nat, n: Node, s: Search)
    requires Searches(find, target, data) && At(data, at, Serialize(n))
    ensures Resumes(find, at, at + |Serialize(n)|, s, MarkNode(target, aid, n, Place(s.area, s.tile)))
    decreases n, 1
  {
    var p := Place(s.area, s.tile);
    NodeLayout(data, at, n);
    FindEnter(find, target, data, at, n, s);
    var arrived := Arrive(target, n, p);
    if arrived.Some? {
      var s' := Looked(target, at, n, s, arrived.value);
      var j := at + |Opening(n)|;
      FindNodes(find, target, aid, data, j, n.children, s');
      var kids := MarkNodes(target, aid, n.children, arrived.value);
      if kids.Some? {
        FindClose(find, target, data, j + |SerializeAll(n.children)|, Passed(s', j, kids.value));
        PassedAround(target, aid, at, n, s, arrived.value, kids.value);
      }
    }
  }

  lemma PassedAround(target: Target, aid: U16, at: nat, n: Node, s: Search, p': Place, kids: Marked)
    ensures Passed(Looked(target, at, n, s, p'), at + |Opening(n)|, kids)
         == Passed(s, at, Around(target, aid, n, Place(s.area, s.tile), Some(kids)).value)
  {
  }

  lemma {:induction false} FindNodes(find: Searcher, target: Target, aid: U16, data: seq<Byte>, at: nat, ns: seq<Node>, s: Search)
    requires Searches(find, target, data) && At(data, at, SerializeAll(ns))
    ensures Resumes(find, at, at + |SerializeAll(ns)|, s, MarkNodes(target, aid, ns, Place(s.area, s.tile)))
    decreases ns, 0
  {
    if ns == [] {
      assert Passed(s, at, Marked([], [], Place(s.area, s.tile))) == s;
    } else {
      var mid := at + |Serialize(ns[0])|;
      AtSplit(data, at, Serialize(ns[0]), SerializeAll(ns[1..]));
      FindNode(find, target, aid, data, at, ns[0], s);
      var first := MarkNode(target, aid, ns[0], Place(s.area, s.tile));
      if first.Some? {
        FindNodes(find, target, aid, data, mid, ns[1..], Passed(s, at, first.value));
        var rest := MarkNodes(target, aid, ns[1..], first.value.place);
        if rest.Some? {
          PassedTwice(s, at, |Serialize(ns[0])|, first.value, rest.value);
        }
      }
    }
  }

  lemma PassedTwice(s: Search, at: nat, length: nat, first: Marked, rest: Marked)
    ensures Passed(Passed(s, at, first), at + length, rest) == Passed(s, at, After(length, first, Some(rest)).value)
  {
  }

  lemma SpliceLeft(a: seq<Byte>, b: seq<Byte>, at: nat, x: seq<Byte>)
    requires at <= |a|
    ensures Splice(a + b, at, x) == Splice(a, at, x) + b
  {
  }

  lemma SpliceRight(a: seq<Byte>, b: seq<Byte>, at: nat, x: seq<Byte>)
    requires at <= |b|
    ensures Splice(a + b, |a| + at, x) == a + Splice(b, at, x)
  {
  }

  /** Inserting the escaped attribute after the item id is the serialisation of the node that has it. */
  lemma SpliceNode(n: Node, aid: U16)
    requires |n.props| >= 2
    ensures Serialize(WithAction(n, aid))
         == Splice(Serialize(n), 2 + |Escape(n.props[..2])|, Escape(ActionAttribute(aid)))
  {
    var id, rest, attr := n.props[..2], n.props[2..], ActionAttribute(aid);
    assert n.props == id + rest;
    EscapeConcat(id, rest);
    EscapeConcat(id + attr, rest);
    EscapeConcat(id, attr);
    var kids := SerializeAll(n.children) + [NODE_END];
    SpliceLeft(Opening(n), kids, 2 + |Escape(id)|, Escape(attr));
    SpliceRight([NODE_START, n.kind], Escape(n.props), |Escape(id)|, Escape(attr));
    SpliceRight(Escape(id), Escape(rest), 0, Escape(attr));
    assert Splice(Escape(rest), 0, Escape(attr)) == Escape(attr) + Escape(rest);
    ConcatAssociates(Escape(id), Escape(attr), Escape(rest));
  }

  /** Without a hit nothing changes; with one, inserting the attribute at its offset gives the marked tree. */
  ghost predicate Spliced(bytes: seq<Byte>, bytes': seq<Byte>, offsets: seq<nat>, attribute: seq<Byte>) {
    && (offsets == [] ==> bytes' == bytes)
    && (|offsets| == 1 ==> offsets[0] <= |bytes| && bytes' == Splice(bytes, offsets[0], attribute))
  }

  lemma SplicedConcat(a: seq<Byte>, a': seq<Byte>, i: seq<nat>, b: seq<Byte>, b': seq<Byte>, j: seq<nat>, x: seq<Byte>)
    requires Spliced(a, a', i, x) && Spliced(b, b', j, x)
    ensures Spliced(a + b, a' + b', i + Shift(|a|, j), x)
  {
    if |i| == 1 && j == [] {
      SpliceLeft(a, b, i[0], x);
    } else if i == [] && |j| == 1 {
      SpliceRight(a, b, j[0], x);
    }
  }

  lemma {:induction false} MarkNodeSplices(target: Target, aid: U16, n: Node, p: Place)
    requires MarkNode(target, aid, n, p).Some?
    ensures var m := MarkNode(target, aid, n, p).value;
            Spliced(Serialize(n), SerializeAll(m.nodes), m.offsets, Escape(ActionAttribute(aid)))
    decreases n, 1
  {
    var p' := Arrive(target, n, p).value;
    MarkNodesSplices(target, aid, n.children, p');
    var kids := MarkNodes(target, aid, n.children, p').value;
    AroundSplices(target, aid, n, p, kids);
  }

  lemma AroundSplices(target: Target, aid: U16, n: Node, p: Place, kids: Marked)
    requires Spliced(SerializeAll(n.children), SerializeAll(kids.nodes), kids.offsets, Escape(ActionAttribute(aid)))
    ensures var m := Around(target, aid, n, p, Some(kids)).value;
            Spliced(Serialize(n), SerializeAll(m.nodes), m.offsets, Escape(ActionAttribute(aid)))
  {
    var attribute := Escape(ActionAttribute(aid));
    var n' := n.(children := kids.nodes);
    var end := [NODE_END];
    SplicedConcat(SerializeAll(n.children), SerializeAll(kids.nodes), kids.offsets, end, end, [], attribute);
    assert kids.offsets + Shift(|SerializeAll(n.children)|, []) == kids.offsets;
    SplicedConcat(Opening(n), Opening(n), [], SerializeAll(n.children) + end, SerializeAll(kids.nodes) + end, kids.offsets, attribute);
    assert [] + Shift(|Opening(n)|, kids.offsets) == Shift(|Opening(n)|, kids.offsets);
    assert Spliced(Serialize(n), Serialize(n'), Shift(|Opening(n)|, kids.offsets), attribute);
    SerializeOne(n');
    if Hit(target, n, p) {
      SpliceNode(n', aid);
      SerializeOne(WithAction(n', aid));
      if kids.offsets == [] {
        assert Serialize(n') == Serialize(n);
        assert [IdEnd(n)] + Shift(|Opening(n)|, kids.offsets) == [IdEnd(n)];
        IdInside(n);
      }
    }
  }

  lemma IdInside(n: Node)
    requires |n.props| >= 2
    ensures IdEnd(n) <= |Serialize(n)|
  {
    assert n.props == n.props[..2] + n.props[2..];
    EscapeConcat(n.props[..2], n.props[2..]);
  }

  lemma SerializeOne(n: Node)
    ensures SerializeAll([n]) == Serialize(n)
  {
    assert SerializeAll([n]) == Serialize(n) + SerializeAll([]);
  }

  lemma {:induction false} MarkNodesSplices(target: Target, aid: U16, ns: seq<Node>, p: Place)
    ensures var m := MarkNodes(target, aid, ns, p);
            m.Some? ==> Spliced(SerializeAll(ns), SerializeAll(m.value.nodes), m.value.offsets, Escape(ActionAttribute(aid)))
    decreases ns, 0
  {
    var m := MarkNodes(target, aid, ns, p);
    if ns != [] && m.Some? {
      MarkNodeSplices(target, aid, ns[0], p);
      var first := MarkNode(target, aid, ns[0], p).value;
      MarkNodesSplices(target, aid, ns[1..], first.place);
      var rest := MarkNodes(target, aid, ns[1..], first.place).value;
      SerializeAllConcat(first.nodes, rest.nodes);
      SplicedConcat(Serialize(ns[0]), SerializeAll(first.nodes), first.offsets,
                    SerializeAll(ns[1..]), SerializeAll(rest.nodes), rest.offsets, Escape(ActionAttribute(aid)));
    }
  }
}
