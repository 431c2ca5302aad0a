/**
 Setting an action id with harness/otbm_set_aid.py and reading the map back with
 harness/otbm_ids.py: what changes in the tree, and what in the report.
 */
module MapReport {
  import opened Bytes
  import opened Options
  import opened Otbm
  import opened MapIds
  import opened MapSetAid

  /** How the tool ends, said of the tree instead of the bytes. */
  function TreeOutcome(header: seq<Byte>, root: Node, target: Target, aid: U16): Option<Outcome> {
    match MarkNodes(target, aid, [root], Place(Pos(0, 0, 0), None))
    case None => None
    case Some(m) =>
      if m.offsets == [] then Some(NoMatch)
      else if |m.offsets| > 1 then Some(Ambiguous)
      else Some(Written(header + SerializeAll(m.nodes)))
  }

  /**
   The tool fails exactly where a tree node's needed bytes are missing; otherwise it finds as many
   matches as the tree has hits, and for one hit writes the serialised tree with the attribute on it.
   */
  lemma SetActionIdOnTree(header: seq<Byte>, root: Node, target: Target, aid: U16)
    requires |header| == 4
    ensures match TreeOutcome(header, root, target, aid)
            case None => Outcomes(header + Serialize(root), target, aid).Failed?
            case Some(outcome) => Outcomes(header + Serialize(root), target, aid) == outcome
  {
    var data := header + Serialize(root);
    var find: Searcher := (at: nat, s: Search) => Find(target, data, at, s);
    var start := Place(Pos(0, 0, 0), None);
    SerializeOne(root);
    assert data[4..] == Serialize(root);
    FindNodes(find, target, aid, data, 4, [root], NOTHING_FOUND);
    assert find(4, NOTHING_FOUND) == Find(target, data, 4, NOTHING_FOUND);
    var m := MarkNodes(target, aid, [root], start);
    if m.Some? {
      var after := Passed(NOTHING_FOUND, 4, m.value);
      assert find(|data|, after) == Find(target, data, |data|, after);
      assert after.matches == Shift(4, m.value.offsets);
      if |m.value.offsets| == 1 {
        MarkNodesSplices(target, aid, [root], start);
        SpliceRight(header, Serialize(root), m.value.offsets[0], Escape(ActionAttribute(aid)));
      }
    }
  }

  // --------------------------------------------------------------------------------
  // The report
  // --------------------------------------------------------------------------------

  /** The inserted attribute comes first, so an action id the item already had overrides it. */
  function EditRow(target: Target, aid: U16, row: Row): Row {
    if row.at == target.at && row.item == Some(target.item) && row.ids.action.None?
    then row.(ids := row.ids.(action := Some(aid))) else row
  }

  function EditRows(target: Target, aid: U16, rows: seq<Row>): seq<Row> {
    seq(|rows|, i requires 0 <= i < |rows| => EditRow(target, aid, rows[i]))
  }

  lemma {:induction false} AttributesKeepAction(data: seq<Byte>, ids: Ids)
    requires ids.action.Some?
    ensures var r := Attributes(data, ids); r.Ok? ==> r.value.action.Some?
    decreases |data|
  {
    if Attributes(data, ids).Ok? && data != [] {
      if data[0] == ATTR_ACTION_ID {
        AttributesKeepAction(data[3..], ids.(action := Some(U16At(data, 1))));
      } else if data[0] == ATTR_UNIQUE_ID {
        AttributesKeepAction(data[3..], ids.(unique := Some(U16At(data, 1))));
      } else {
        match ATTR_SIZES[data[0]]
        case Str => AttributesKeepAction(Drop(data, 3 + U16At(data, 1)), ids);
        case Fixed(n) => AttributesKeepAction(Drop(data, 1 + n), ids);
      }
    }
  }

  /** What an id given in advance does to a reading of attributes. */
  lemma {:induction false} AttributesDefault(data: seq<Byte>, ids: Ids, aid: U16)
    requires ids.action.None?
    ensures var r, r' := Attributes(data, ids), Attributes(data, ids.(action := Some(aid)));
            && (r.Err? ==> r'.Err?)
            && (r.Ok? ==> r' == Ok(if r.value.action.None? then r.value.(action := Some(aid)) else r.value))
    decreases |data|
  {
    if data == [] || data[0] !in ATTR_SIZES {
    } else if data[0] == ATTR_ACTION_ID {
      if |data| >= 3 {
        AttributesKeepAction(data[3..], ids.(action := Some(U16At(data, 1))));
      }
    } else if data[0] == ATTR_UNIQUE_ID {
      if |data| >= 3 {
        AttributesDefault(data[3..], ids.(unique := Some(U16At(data, 1))), aid);
      }
    } else {
      match ATTR_SIZES[data[0]]
      case Str =>
        if |data| >= 3 {
          AttributesDefault(Drop(data, 3 + U16At(data, 1)), ids, aid);
        }
      case Fixed(n) => AttributesDefault(Drop(data, 1 + n), ids, aid);
    }
  }

  /** The attributes of an item after the insertion. */
  lemma AttributesInserted(rest: seq<Byte>, aid: U16)
    ensures Attributes(ActionAttribute(aid) + rest, Ids(None, None)) == Attributes(rest, Ids(Some(aid), None))
  {
    var data := ActionAttribute(aid) + rest;
    assert data[0] == ATTR_ACTION_ID && data[1] == Le16(aid)[0] && data[2] == Le16(aid)[1];
    assert data[3..] == rest && U16At(data, 1) == U16At(Le16(aid), 0);
  }

  /** The two scans side by side: same place and warnings, edited rows. */
  ghost predicate Mirrors(target: Target, aid: U16, p: Place, seen: Seen, seen': Seen) {
    && seen' == seen.(rows := EditRows(target, aid, seen.rows))
    && seen.area == p.area
    && (seen.tile.Some? ==> seen.tile == p.tile)
  }

  lemma EditRowsAppend(target: Target, aid: U16, rows: seq<Row>, row: Row)
    ensures EditRows(target, aid, rows + [row]) == EditRows(target, aid, rows) + [EditRow(target, aid, row)]
  {
  }

  /** The properties the two scans see at one node. */
  function MarkedProps(target: Target, aid: U16, n: Node, p: Place): seq<Byte> {
    if Hit(target, n, p) then Inserted(n.props, aid) else n.props
  }

  lemma VisitMirrors(target: Target, aid: U16, n: Node, p: Place, seen: Seen, seen': Seen)
    requires Mirrors(target, aid, p, seen, seen') && Arrive(target, n, p).Some?
    ensures Mirrors(target, aid, Arrive(target, n, p).value,
                    Visit(true, n.kind, n.props, seen), Visit(true, n.kind, MarkedProps(target, aid, n, p), seen'))
  {
    if n.kind == OTBM_ITEM && seen.tile.Some? {
      VisitItemMirrors(target, aid, n, p, seen, seen');
    } else if IsTile(n.kind) {
      VisitTileMirrors(target, aid, n, p, seen, seen');
    }
  }

  lemma VisitTileMirrors(target: Target, aid: U16, n: Node, p: Place, seen: Seen, seen': Seen)
    requires Mirrors(target, aid, p, seen, seen') && Arrive(target, n, p).Some? && IsTile(n.kind)
    ensures Mirrors(target, aid, Arrive(target, n, p).value,
                    Visit(true, n.kind, n.props, seen), Visit(true, n.kind, n.props, seen'))
  {
    var house := n.kind == OTBM_HOUSETILE;
    if !house || |n.props| >= 6 {
      var ids := Attributes(n.props[if house then 6 else 2..], Ids(None, None));
      if ids.Ok? {
        var tile := Pos(seen.area.x + n.props[0], seen.area.y + n.props[1], seen.area.z);
        EditRowsAppend(target, aid, seen.rows, Row(tile, None, ids.value));
      }
    }
  }

  lemma VisitItemMirrors(target: Target, aid: U16, n: Node, p: Place, seen: Seen, seen': Seen)
    requires Mirrors(target, aid, p, seen, seen') && Arrive(target, n, p).Some?
    requires n.kind == OTBM_ITEM && seen.tile.Some?
    ensures Mirrors(target, aid, p,
                    Visit(true, n.kind, n.props, seen), Visit(true, n.kind, MarkedProps(target, aid, n, p), seen'))
  {
    if |n.props| >= 2 {
      var rest := n.props[2..];
      var ids := Attributes(rest, Ids(None, None));
      if ids.Ok? {
        EditRowsAppend(target, aid, seen.rows, Row(seen.tile.value, Some(U16At(n.props, 0)), ids.value));
      }
      if Hit(target, n, p) {
        var props' := MarkedProps(target, aid, n, p);
        assert props'[2..] == ActionAttribute(aid) + rest && U16At(props', 0) == U16At(n.props, 0);
        AttributesInserted(rest, aid);
        AttributesDefault(rest, Ids(None, None), aid);
      }
    }
  }

  lemma {:induction false} WalkNodeMirrors(target: Target, aid: U16, n: Node, p: Place, seen: Seen, seen': Seen)
    requires Mirrors(target, aid, p, seen, seen') && MarkNode(target, aid, n, p).Some?
    ensures var m := MarkNode(target, aid, n, p).value;
            Mirrors(target, aid, m.place,
                    WalkNode(ItemVisitor(true), n, seen), WalkNodes(ItemVisitor(true), m.nodes, seen'))
    decreases n, 1
  {
    var visit := ItemVisitor(true);
    var p' := Arrive(target, n, p).value;
    var kids := MarkNodes(target, aid, n.children, p').value;
    VisitMirrors(target, aid, n, p, seen, seen');
    var n' := Node(n.kind, MarkedProps(target, aid, n, p), kids.nodes);
    WalkNodesMirrors(target, aid, n.children, p', visit(n.kind, n.props, seen), visit(n'.kind, n'.props, seen'));
    assert MarkNode(target, aid, n, p).value.nodes == [n'];
    assert WalkNodes(visit, [n'], seen') == WalkNode(visit, n', seen');
  }

  lemma {:induction false} WalkNodesMirrors(target: Target, aid: U16, ns: seq<Node>, p: Place, seen: Seen, seen': Seen)
    requires Mirrors(target, aid, p, seen, seen') && MarkNodes(target, aid, ns, p).Some?
    ensures var m := MarkNodes(target, aid, ns, p).value;
            Mirrors(target, aid, m.place,
                    WalkNodes(ItemVisitor(true), ns, seen), WalkNodes(ItemVisitor(true), m.nodes, seen'))
    decreases ns, 0
  {
    if ns != [] {
      var visit := ItemVisitor(true);
      var first := MarkNode(target, aid, ns[0], p).value;
      WalkNodeMirrors(target, aid, ns[0], p, seen, seen');
      WalkNodesMirrors(target, aid, ns[1..], first.place, WalkNode(visit, ns[0], seen), WalkNodes(visit, first.nodes, seen'));
      WalkNodesConcat(visit, first.nodes, MarkNodes(target, aid, ns[1..], first.place).value.nodes, seen');
    }
  }

  lemma {:induction false} WalkNodesConcat(visit: Visitor, a: seq<Node>, b: seq<Node>, seen: Seen)
    ensures WalkNodes(visit, a + b, seen) == WalkNodes(visit, b, WalkNodes(visit, a, seen))
  {
    if a == [] {
      assert a + b == b;
    } else {
      WalkNodesConcat(visit, a[1..], b, WalkNode(visit, a[0], seen));
      assert (a + b)[0] == a[0] && (a + b)[1..] == a[1..] + b;
    }
  }

  // --------------------------------------------------------------------------------
  // The matches of the tree, and which of them the scanner reports
  // --------------------------------------------------------------------------------

  /** A matching item: its properties, and whether it lies in the tile node that it is taken to lie in. */
  datatype Match = Match(props: seq<Byte>, inside: bool)

  /** The matches in file order, the place reached, and whether its tile node is still open. */
  datatype Hits = Hits(found: seq<Match>, place: Place, inside: bool)

  const START := Place(Pos(0, 0, 0), None)

  function Onward(target: Target, n: Node, p: Place): Place {
    if Arrive(target, n, p).Some? then Arrive(target, n, p).value else p
  }

  /** The search keeps a tile until the next one; the scanner forgets it where its node ends, and at the next area. */
  function Entered(kind: Byte, inside: bool): bool {
    IsTile(kind) || (kind != OTBM_TILE_AREA && inside)
  }

  function HitsOf(target: Target, n: Node, p: Place, inside: bool): Hits
    decreases n, 1
  {
    var below := HitsIn(target, n.children, Onward(target, n, p), Entered(n.kind, inside));
    Hits((if Hit(target, n, p) then [Match(n.props, inside)] else []) + below.found, below.place,
         !IsTile(n.kind) && below.inside)
  }

  function HitsIn(target: Target, ns: seq<Node>, p: Place, inside: bool): Hits
    decreases ns, 0
  {
    if ns == [] then Hits([], p, inside)
    else
      var first := HitsOf(target, ns[0], p, inside);
      var rest := HitsIn(target, ns[1..], first.place, first.inside);
      Hits(first.found + rest.found, rest.place, rest.inside)
  }

  function Inserted(props: seq<Byte>, aid: U16): seq<Byte> {
    if |props| < 2 then props else props[..2] + ActionAttribute(aid) + props[2..]
  }

  // What the tool changes in the tree

  datatype Edit = Edit(before: seq<Byte>, after: seq<Byte>)

  /** The nodes whose properties differ, in file order; None if the trees differ in anything else. */
  function Changes(ns: seq<Node>, ns': seq<Node>): Option<seq<Edit>>
    decreases ns, 0
  {
    if |ns| != |ns'| then None
    else if ns == [] then Some([])
    else Both(ChangesOf(ns[0], ns'[0]), Changes(ns[1..], ns'[1..]))
  }

  function ChangesOf(n: Node, n': Node): Option<seq<Edit>>
    decreases n, 1
  {
    if n.kind != n'.kind then None
    else Both(Some(if n.props == n'.props then [] else [Edit(n.props, n'.props)]), Changes(n.children, n'.children))
  }

  function Both(a: Option<seq<Edit>>, b: Option<seq<Edit>>): Option<seq<Edit>> {
    if a.Some? && b.Some? then Some(a.value + b.value) else None
  }

  function EditsOf(found: seq<Match>, aid: U16): seq<Edit> {
    seq(|found|, i requires 0 <= i < |found| => Edit(found[i].props, Inserted(found[i].props, aid)))
  }

  lemma EditsConcat(a: seq<Match>, b: seq<Match>, aid: U16)
    ensures EditsOf(a + b, aid) == EditsOf(a, aid) + EditsOf(b, aid)
  {
  }

  /** The marked tree differs from the tree in the matches alone, and has an offset for each. */
  lemma {:induction false} MarkNodeChanges(target: Target, aid: U16, n: Node, p: Place, inside: bool)
    requires MarkNode(target, aid, n, p).Some?
    ensures var m, h := MarkNode(target, aid, n, p).value, HitsOf(target, n, p, inside);
            && |m.nodes| == 1 && |m.offsets| == |h.found| && m.place == h.place
            && ChangesOf(n, m.nodes[0]) == Some(EditsOf(h.found, aid))
    decreases n, 1
  {
    var p' := Arrive(target, n, p).value;
    MarkNodesChange(target, aid, n.children, p', Entered(n.kind, inside));
    var below := HitsIn(target, n.children, p', Entered(n.kind, inside)).found;
    var kids := MarkNodes(target, aid, n.children, p').value;
    assert MarkNode(target, aid, n, p).value.nodes[0] == Node(n.kind, MarkedProps(target, aid, n, p), kids.nodes);
    if Hit(target, n, p) {
      assert |Inserted(n.props, aid)| != |n.props|;
      EditsConcat([Match(n.props, inside)], below, aid);
      assert EditsOf([Match(n.props, inside)], aid) == [Edit(n.props, Inserted(n.props, aid))];
    } else {
      assert [] + below == below && [] + EditsOf(below, aid) == EditsOf(below, aid);
    }
  }

  lemma {:induction false} MarkNodesChange(target: Target, aid: U16, ns: seq<Node>, p: Place, inside: bool)
    requires MarkNodes(target, aid, ns, p).Some?
    ensures var m, h := MarkNodes(target, aid, ns, p).value, HitsIn(target, ns, p, inside);
            && |m.nodes| == |ns| && |m.offsets| == |h.found| && m.place == h.place
            && Changes(ns, m.nodes) == Some(EditsOf(h.found, aid))
    decreases ns, 0
  {
    if ns == [] {
      assert EditsOf([], aid) == [];
    } else {
      MarkNodeChanges(target, aid, ns[0], p, inside);
      var first := HitsOf(target, ns[0], p, inside);
      MarkNodesChange(target, aid, ns[1..], first.place, first.inside);
      var rest := HitsIn(target, ns[1..], first.place, first.inside);
      EditsConcat(first.found, rest.found, aid);
      var m := MarkNodes(target, aid, ns, p).value;
      assert m.nodes[0] == MarkNode(target, aid, ns[0], p).value.nodes[0];
      assert m.nodes[1..] == MarkNodes(target, aid, ns[1..], first.place).value.nodes;
    }
  }

  // What the scanner reports of the target

  predicate IsTarget(target: Target, row: Row) {
    row.at == target.at && row.item == Some(target.item)
  }

  function TargetRows(target: Target, rows: seq<Row>): seq<Row> {
    if rows == [] then []
    else
      var before, last := TargetRows(target, rows[..|rows| - 1]), rows[|rows| - 1];
      if IsTarget(target, last) then before + [last] else before
  }

  /** A match is reported if it lies inside its tile node and its attributes can be read. */
  predicate IsReported(m: Match) {
    m.inside && |m.props| >= 2 && Attributes(m.props[2..], Ids(None, None)).Ok?
  }

  function Reported(target: Target, found: seq<Match>): seq<Row> {
    if found == [] then []
    else
      var before, last := Reported(target, found[..|found| - 1]), found[|found| - 1];
      if IsReported(last)
      then before + [Row(target.at, Some(target.item), Attributes(last.props[2..], Ids(None, None)).value)] else before
  }

  lemma {:induction false} ReportedConcat(target: Target, a: seq<Match>, b: seq<Match>)
    ensures Reported(target, a + b) == Reported(target, a) + Reported(target, b)
  {
    if b == [] {
      assert a + b == a;
    } else {
      var n := |b| - 1;
      ReportedConcat(target, a, b[..n]);
      assert (a + b)[..|a + b| - 1] == a + b[..n];
    }
  }

  lemma TargetRowsAppend(target: Target, rows: seq<Row>, row: Row)
    ensures TargetRows(target, rows + [row])
         == if IsTarget(target, row) then TargetRows(target, rows) + [row] else TargetRows(target, rows)
  {
    assert (rows + [row])[..|rows|] == rows;
  }

  /** The scan stands where the search stands, and has a tile exactly while its node is open. */
  ghost predicate Follows(p: Place, inside: bool, seen: Seen) {
    seen.area == p.area && (inside <==> seen.tile.Some?) && (inside ==> seen.tile == p.tile)
  }

  lemma VisitReports(target: Target, n: Node, p: Place, inside: bool, seen: Seen)
    requires Follows(p, inside, seen) && Arrive(target, n, p).Some?
    ensures var seen' := Visit(true, n.kind, n.props, seen);
            && Follows(Arrive(target, n, p).value, Entered(n.kind, inside), seen')
            && TargetRows(target, seen'.rows)
            == TargetRows(target, seen.rows) + Reported(target, if Hit(target, n, p) then [Match(n.props, inside)] else [])
  {
    if n.kind == OTBM_ITEM {
      ItemReports(target, n, p, inside, seen);
    } else {
      TileReports(target, n, seen);
      assert TargetRows(target, seen.rows) + [] == TargetRows(target, seen.rows);
    }
  }

  /** A tile's own row is no item's. */
  lemma TileReports(target: Target, n: Node, seen: Seen)
    requires n.kind != OTBM_ITEM
    ensures TargetRows(target, Visit(true, n.kind, n.props, seen).rows) == TargetRows(target, seen.rows)
  {
    var rows := Visit(true, n.kind, n.props, seen).rows;
    if |rows| > |seen.rows| {
      TargetRowsAppend(target, seen.rows, rows[|seen.rows|]);
      assert rows == seen.rows + [rows[|seen.rows|]];
    }
  }

  lemma ItemReports(target: Target, n: Node, p: Place, inside: bool, seen: Seen)
    requires Follows(p, inside, seen) && Arrive(target, n, p).Some? && n.kind == OTBM_ITEM
    ensures TargetRows(target, Visit(true, n.kind, n.props, seen).rows)
         == TargetRows(target, seen.rows) + Reported(target, if Hit(target, n, p) then [Match(n.props, inside)] else [])
  {
    assert TargetRows(target, seen.rows) + [] == TargetRows(target, seen.rows);
    if seen.tile.Some? && |n.props| >= 2 && Attributes(n.props[2..], Ids(None, None)).Ok? {
      TargetRowsAppend(target, seen.rows,
                       Row(seen.tile.value, Some(U16At(n.props, 0)), Attributes(n.props[2..], Ids(None, None)).value));
    }
    if Hit(target, n, p) {
      ReportedOne(target, Match(n.props, inside));
    }
  }

  lemma ReportedOne(target: Target, m: Match)
    ensures Reported(target, [m])
         == if IsReported(m) then [Row(target.at, Some(target.item), Attributes(m.props[2..], Ids(None, None)).value)] else []
  {
    assert [m][..0] == [];
  }

  lemma {:induction false} WalkNodeReports(target: Target, aid: U16, n: Node, p: Place, inside: bool, seen: Seen)
    requires Follows(p, inside, seen) && MarkNode(target, aid, n, p).Some?
    ensures var seen', h := WalkNode(ItemVisitor(true), n, seen), HitsOf(target, n, p, inside);
            && Follows(h.place, h.inside, seen')
            && TargetRows(target, seen'.rows) == TargetRows(target, seen.rows) + Reported(target, h.found)
    decreases n, 1
  {
    var p' := Arrive(target, n, p).value;
    var own := if Hit(target, n, p) then [Match(n.props, inside)] else [];
    VisitReports(target, n, p, inside, seen);
    var entered := Visit(true, n.kind, n.props, seen);
    WalkNodesReport(target, aid, n.children, p', Entered(n.kind, inside), entered);
    var below := HitsIn(target, n.children, p', Entered(n.kind, inside)).found;
    ReportedConcat(target, own, below);
    RowsAssociate(TargetRows(target, seen.rows), Reported(target, own), Reported(target, below));
  }

  lemma {:induction false} WalkNodesReport(target: Target, aid: U16, ns: seq<Node>, p: Place, inside: bool, seen: Seen)
    requires Follows(p, inside, seen) && MarkNodes(target, aid, ns, p).Some?
    ensures var seen', h := WalkNodes(ItemVisitor(true), ns, seen), HitsIn(target, ns, p, inside);
            && Follows(h.place, h.inside, seen')
            && TargetRows(target, seen'.rows) == TargetRows(target, seen.rows) + Reported(target, h.found)
    decreases ns, 0
  {
    if ns == [] {
      assert TargetRows(target, seen.rows) + [] == TargetRows(target, seen.rows);
    } else {
      var first := HitsOf(target, ns[0], p, inside);
      MarkNodeChanges(target, aid, ns[0], p, inside);
      WalkNodeReports(target, aid, ns[0], p, inside, seen);
      WalkNodesReport(target, aid, ns[1..], first.place, first.inside, WalkNode(ItemVisitor(true), ns[0], seen));
      var rest := HitsIn(target, ns[1..], first.place, first.inside);
      ReportedConcat(target, first.found, rest.found);
      RowsAssociate(TargetRows(target, seen.rows), Reported(target, first.found), Reported(target, rest.found));
    }
  }

  lemma RowsAssociate(a: seq<Row>, b: seq<Row>, c: seq<Row>)
    ensures a + b + c == a + (b + c)
  {
  }

  lemma {:induction false} TargetRowsEdited(target: Target, aid: U16, rows: seq<Row>)
    ensures TargetRows(target, EditRows(target, aid, rows)) == EditRows(target, aid, TargetRows(target, rows))
  {
    if rows != [] {
      var n := |rows| - 1;
      TargetRowsEdited(target, aid, rows[..n]);
      assert EditRows(target, aid, rows)[..n] == EditRows(target, aid, rows[..n]);
      if IsTarget(target, rows[n]) {
        EditRowsAppend(target, aid, TargetRows(target, rows[..n]), rows[n]);
      }
    }
  }

  /** Two rows of the target are two among its rows. */
  lemma {:induction false} TwoTargetRows(target: Target, rows: seq<Row>, j: nat, k: nat)
    requires j < k < |rows| && IsTarget(target, rows[j]) && IsTarget(target, rows[k])
    ensures |TargetRows(target, rows)| >= 2
  {
    var n := |rows| - 1;
    if k < n {
      TwoTargetRows(target, rows[..n], j, k);
    } else {
      OneTargetRow(target, rows[..n], j);
    }
  }

  lemma {:induction false} OneTargetRow(target: Target, rows: seq<Row>, j: nat)
    requires j < |rows| && IsTarget(target, rows[j])
    ensures |TargetRows(target, rows)| >= 1
  {
    if j < |rows| - 1 {
      OneTargetRow(target, rows[..|rows| - 1], j);
    }
  }

  // --------------------------------------------------------------------------------
  // The tool's promise
  // --------------------------------------------------------------------------------

  /** The rows that the scanner reports of a whole map. */
  function ReportOf(data: seq<Byte>): Result<Seen, Error> {
    Scan(ItemVisitor(true), data, 4, [], NOTHING_SEEN)
  }

  /**
   Whenever the tool writes a map, there is exactly one match; the written tree differs from the old
   one in that node alone, which has the attribute behind its item id.
   */
  lemma OneNodeEdited(header: seq<Byte>, root: Node, target: Target, aid: U16)
    requires |header| == 4
    requires Outcomes(header + Serialize(root), target, aid).Written?
    ensures var found := HitsIn(target, [root], START, false).found;
            |found| == 1 && |found[0].props| >= 2
            && exists root' ::
                 && Outcomes(header + Serialize(root), target, aid) == Written(header + Serialize(root'))
                 && Changes([root], [root']) == Some([Edit(found[0].props, Inserted(found[0].props, aid))])
  {
    SetActionIdOnTree(header, root, target, aid);
    var m := MarkNodes(target, aid, [root], START).value;
    var found := HitsIn(target, [root], START, false).found;
    MarkNodesChange(target, aid, [root], START, false);
    FoundLong(target, [root], START, false);
    assert found == [found[0]] && found[1..] == [];
    assert EditsOf(found, aid) == [Edit(found[0].props, Inserted(found[0].props, aid))];
    var root' := m.nodes[0];
    assert m.nodes == [root'];
    SerializeOne(root');
  }

  lemma {:induction false} FoundLongIn(target: Target, n: Node, p: Place, inside: bool)
    ensures forall i :: 0 <= i < |HitsOf(target, n, p, inside).found| ==> |HitsOf(target, n, p, inside).found[i].props| >= 2
    decreases n, 1
  {
    FoundLong(target, n.children, Onward(target, n, p), Entered(n.kind, inside));
  }

  lemma {:induction false} FoundLong(target: Target, ns: seq<Node>, p: Place, inside: bool)
    ensures forall i :: 0 <= i < |HitsIn(target, ns, p, inside).found| ==> |HitsIn(target, ns, p, inside).found[i].props| >= 2
    decreases ns, 0
  {
    if ns != [] {
      var first := HitsOf(target, ns[0], p, inside);
      FoundLongIn(target, ns[0], p, inside);
      FoundLong(target, ns[1..], first.place, first.inside);
    }
  }

  /** The two reports: the same rows in the same order, but for the edit, and the same warnings. */
  lemma ReportEdited(header: seq<Byte>, root: Node, target: Target, aid: U16)
    requires |header| == 4
    requires Outcomes(header + Serialize(root), target, aid).Written?
    ensures var data := header + Serialize(root);
            var before, after := ReportOf(data), ReportOf(Outcomes(data, target, aid).data);
            && before.Ok? && after.Ok?
            && after.value.rows == EditRows(target, aid, before.value.rows)
            && after.value.warnings == before.value.warnings
            && TargetRows(target, before.value.rows) == Reported(target, HitsIn(target, [root], START, false).found)
  {
    SetActionIdOnTree(header, root, target, aid);
    var visit := ItemVisitor(true);
    var m := MarkNodes(target, aid, [root], START).value;
    MarkNodesChange(target, aid, [root], START, false);
    var root' := m.nodes[0];
    assert m.nodes == [root'];
    SerializeOne(root');
    ScanIsWalk(visit, header, root);
    ScanIsWalk(visit, header, root');
    WalkNodesMirrors(target, aid, [root], START, NOTHING_SEEN, NOTHING_SEEN);
    WalkNodesReport(target, aid, [root], START, false, NOTHING_SEEN);
    assert [] + Reported(target, HitsIn(target, [root], START, false).found)
        == Reported(target, HitsIn(target, [root], START, false).found);
  }

  /**
   Whenever the tool writes a map, the scanner reports as many rows as before, and at most one of them
   differs. The target has a row, and then one, if and only if the match lies inside a tile node that is
   still open and its attributes can be read; that row reports the id if and only if it had none, and
   is otherwise as it was.
   */
  lemma SetActionIdReported(header: seq<Byte>, root: Node, target: Target, aid: U16)
    requires |header| == 4
    requires Outcomes(header + Serialize(root), target, aid).Written?
    ensures var data := header + Serialize(root);
            var before, after := ReportOf(data), ReportOf(Outcomes(data, target, aid).data);
            var found := HitsIn(target, [root], START, false).found;
            && before.Ok? && after.Ok? && |found| == 1
            && |before.value.rows| == |after.value.rows| && before.value.warnings == after.value.warnings
            && (forall k :: 0 <= k < |before.value.rows| && !IsTarget(target, before.value.rows[k]) ==>
                  after.value.rows[k] == before.value.rows[k])
            && (forall j, k :: 0 <= j < k < |before.value.rows| ==>
                  after.value.rows[j] == before.value.rows[j] || after.value.rows[k] == before.value.rows[k])
            && |TargetRows(target, before.value.rows)| == (if IsReported(found[0]) then 1 else 0)
            && |TargetRows(target, after.value.rows)| == |TargetRows(target, before.value.rows)|
            && (IsReported(found[0]) ==>
                  var row, row' := TargetRows(target, before.value.rows)[0], TargetRows(target, after.value.rows)[0];
                  && row.ids == Attributes(found[0].props[2..], Ids(None, None)).value
                  && row' == if row.ids.action.None? then row.(ids := row.ids.(action := Some(aid))) else row)
  {
    OneNodeEdited(header, root, target, aid);
    ReportEdited(header, root, target, aid);
    var data := header + Serialize(root);
    var rows := ReportOf(data).value.rows;
    var found := HitsIn(target, [root], START, false).found;
    assert found == [found[0]];
    ReportedOne(target, found[0]);
    TargetRowsEdited(target, aid, rows);
    forall j, k | 0 <= j < k < |rows|
      ensures EditRows(target, aid, rows)[j] == rows[j] || EditRows(target, aid, rows)[k] == rows[k]
    {
      if IsTarget(target, rows[j]) && IsTarget(target, rows[k]) {
        TwoTargetRows(target, rows, j, k);
      }
    }
  }

  // Where the promise is kept by the tool and not by the report

  /** A tile with one item, inside its node or behind it; the target is that item's tile and id. */
  function Sample(inside: bool, props: seq<Byte>): Node {
    var item := Node(OTBM_ITEM, props, []);
    var tile := Node(OTBM_TILE, [0, 0], if inside then [item] else []);
    Node(0, [], [Node(OTBM_TILE_AREA, [0, 0, 0, 0, 7], if inside then [tile] else [tile, item])])
  }

  const SAMPLE_TARGET := Target(Pos(0, 0, 7), 1)

  lemma OnlyNode(target: Target, aid: U16, n: Node, p: Place, inside: bool)
    ensures MarkNodes(target, aid, [n], p).Some? <==> MarkNode(target, aid, n, p).Some?
    ensures HitsIn(target, [n], p, inside) == HitsOf(target, n, p, inside)
  {
    assert [n][1..] == [];
    var h := HitsOf(target, n, p, inside);
    assert h.found + [] == h.found;
  }

  lemma ChildlessNode(target: Target, aid: U16, n: Node, p: Place, inside: bool)
    requires n.children == [] && Arrive(target, n, p).Some?
    ensures MarkNode(target, aid, n, p).Some?
    ensures HitsOf(target, n, p, inside)
         == Hits(if Hit(target, n, p) then [Match(n.props, inside)] else [], Arrive(target, n, p).value,
                 !IsTile(n.kind) && Entered(n.kind, inside))
  {
    assert HitsIn(target, [], Arrive(target, n, p).value, Entered(n.kind, inside)).found == [];
    assert MarkNodes(target, aid, [], Arrive(target, n, p).value).Some?;
  }

  /** The places of the search in the sample: in the area, and on the tile. */
  const IN_AREA := Place(Pos(0, 0, 7), None)
  const ON_TILE := Place(Pos(0, 0, 7), Some(Pos(0, 0, 7)))

  lemma SampleItem(aid: U16, inside: bool, props: seq<Byte>)
    requires |props| >= 2 && U16At(props, 0) == 1
    ensures var item := Node(OTBM_ITEM, props, []);
            && MarkNodes(SAMPLE_TARGET, aid, [item], ON_TILE).Some?
            && HitsIn(SAMPLE_TARGET, [item], ON_TILE, inside).found == [Match(props, inside)]
  {
    var item := Node(OTBM_ITEM, props, []);
    ChildlessNode(SAMPLE_TARGET, aid, item, ON_TILE, inside);
    OnlyNode(SAMPLE_TARGET, aid, item, ON_TILE, inside);
  }

  lemma SampleInside(aid: U16, props: seq<Byte>)
    requires |props| >= 2 && U16At(props, 0) == 1
    ensures var tile := Node(OTBM_TILE, [0, 0], [Node(OTBM_ITEM, props, [])]);
            && MarkNodes(SAMPLE_TARGET, aid, [tile], IN_AREA).Some?
            && HitsIn(SAMPLE_TARGET, [tile], IN_AREA, false).found == [Match(props, true)]
  {
    var tile := Node(OTBM_TILE, [0, 0], [Node(OTBM_ITEM, props, [])]);
    SampleItem(aid, true, props);
    assert Arrive(SAMPLE_TARGET, tile, IN_AREA) == Some(ON_TILE);
    assert HitsOf(SAMPLE_TARGET, tile, IN_AREA, false).found == [] + [Match(props, true)];
    OnlyNode(SAMPLE_TARGET, aid, tile, IN_AREA, false);
  }

  lemma SampleBehind(aid: U16, props: seq<Byte>)
    requires |props| >= 2 && U16At(props, 0) == 1
    ensures var nodes := [Node(OTBM_TILE, [0, 0], []), Node(OTBM_ITEM, props, [])];
            && MarkNodes(SAMPLE_TARGET, aid, nodes, IN_AREA).Some?
            && HitsIn(SAMPLE_TARGET, nodes, IN_AREA, false).found == [Match(props, false)]
  {
    var tile, item := Node(OTBM_TILE, [0, 0], []), Node(OTBM_ITEM, props, []);
    ChildlessNode(SAMPLE_TARGET, aid, tile, IN_AREA, false);
    assert Arrive(SAMPLE_TARGET, tile, IN_AREA) == Some(ON_TILE);
    SampleItem(aid, false, props);
    MarkNodesChange(SAMPLE_TARGET, aid, [tile], IN_AREA, false);
    MarkNodeChanges(SAMPLE_TARGET, aid, tile, IN_AREA, false);
    assert [tile, item][1..] == [item];
    assert HitsIn(SAMPLE_TARGET, [tile, item], IN_AREA, false).found == [] + [Match(props, false)];
  }

  /** The tool writes the sample map with its one match. */
  lemma SampleWritten(header: seq<Byte>, aid: U16, inside: bool, props: seq<Byte>)
    requires |header| == 4 && |props| >= 2 && U16At(props, 0) == 1
    ensures Outcomes(header + Serialize(Sample(inside, props)), SAMPLE_TARGET, aid).Written?
    ensures HitsIn(SAMPLE_TARGET, [Sample(inside, props)], START, false).found == [Match(props, inside)]
  {
    var target, root := SAMPLE_TARGET, Sample(inside, props);
    var area := root.children[0];
    if inside {
      SampleInside(aid, props);
    } else {
      SampleBehind(aid, props);
    }
    assert Arrive(target, area, START) == Some(IN_AREA);
    assert HitsOf(target, area, START, false).found == [] + [Match(props, inside)];
    assert MarkNode(target, aid, area, START).Some?;
    OnlyNode(target, aid, area, START, false);
    assert Arrive(target, root, START) == Some(START) && root.children == [area];
    assert HitsOf(target, root, START, false).found == [] + [Match(props, inside)];
    assert MarkNode(target, aid, root, START).Some?;
    OnlyNode(target, aid, root, START, false);
    MarkNodesChange(target, aid, [root], START, false);
    SetActionIdOnTree(header, root, target, aid);
  }

  /** An item that follows a closed tile is edited, and the report shows neither it nor the id. */
  lemma ItemBehindTile(header: seq<Byte>, aid: U16)
    requires |header| == 4
    ensures var data := header + Serialize(Sample(false, [1, 0]));
            && Outcomes(data, SAMPLE_TARGET, aid).Written?
            && ReportOf(Outcomes(data, SAMPLE_TARGET, aid).data).Ok?
            && TargetRows(SAMPLE_TARGET, ReportOf(Outcomes(data, SAMPLE_TARGET, aid).data).value.rows) == []
  {
    SampleWritten(header, aid, false, [1, 0]);
    SetActionIdReported(header, Sample(false, [1, 0]), SAMPLE_TARGET, aid);
  }

  lemma NotReported()
    ensures !IsReported(Match([1, 0, 99], true))
  {
    assert [1, 0, 99][2..] == [99] && 99 !in ATTR_SIZES;
  }

  /** So is an item whose attributes the scanner does not know. */
  lemma UnreadableItem(header: seq<Byte>, aid: U16)
    requires |header| == 4
    ensures var data := header + Serialize(Sample(true, [1, 0, 99]));
            && Outcomes(data, SAMPLE_TARGET, aid).Written?
            && ReportOf(Outcomes(data, SAMPLE_TARGET, aid).data).Ok?
            && TargetRows(SAMPLE_TARGET, ReportOf(Outcomes(data, SAMPLE_TARGET, aid).data).value.rows) == []
  {
    SampleWritten(header, aid, true, [1, 0, 99]);
    NotReported();
    SetActionIdReported(header, Sample(true, [1, 0, 99]), SAMPLE_TARGET, aid);
  }

  /** An id that is missing, or zero. */
  predicate NoId(id: Option<U16>) {
    id == None || id == Some(0)
  }

  /** The default report is the full one without the items that carry no id. */
  function Shown(rows: seq<Row>): seq<Row> {
    if rows == [] then []
    else if !NoId(rows[|rows| - 1].ids.action) || !NoId(rows[|rows| - 1].ids.unique) then Shown(rows[..|rows| - 1]) + [rows[|rows| - 1]]
    else Shown(rows[..|rows| - 1])
  }

  ghost predicate ShowsLess(seen: Seen, seen': Seen) {
    seen' == seen.(rows := Shown(seen.rows))
  }

  lemma ShownMore(rows: seq<Row>, row: Row)
    ensures Shown(rows + [row]) == Shown(rows) + if NoId(row.ids.action) && NoId(row.ids.unique) then [] else [row]
  {
    var more := rows + [row];
    assert more[..|more| - 1] == rows && more[|more| - 1] == row;
  }

  lemma VisitShows(kind: Byte, props: seq<Byte>, seen: Seen)
    ensures ShowsLess(Visit(true, kind, props, seen), Visit(false, kind, props, seen.(rows := Shown(seen.rows))))
  {
    var after := Visit(true, kind, props, seen).rows;
    if |after| > |seen.rows| {
      var row := after[|after| - 1];
      assert after == seen.rows + [row];
      ShownMore(seen.rows, row);
    }
  }

  lemma {:induction false} WalkNodeShows(n: Node, seen: Seen)
    ensures ShowsLess(WalkNode(ItemVisitor(true), n, seen), WalkNode(ItemVisitor(false), n, seen.(rows := Shown(seen.rows))))
    decreases n, 1
  {
    VisitShows(n.kind, n.props, seen);
    WalkShows(n.children, Visit(true, n.kind, n.props, seen));
  }

  lemma {:induction false} WalkShows(ns: seq<Node>, seen: Seen)
    ensures ShowsLess(WalkNodes(ItemVisitor(true), ns, seen), WalkNodes(ItemVisitor(false), ns, seen.(rows := Shown(seen.rows))))
    decreases ns, 0
  {
    if ns != [] {
      WalkNodeShows(ns[0], seen);
      WalkShows(ns[1..], WalkNode(ItemVisitor(true), ns[0], seen));
    }
  }
}
