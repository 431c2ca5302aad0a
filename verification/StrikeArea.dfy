/**
 The struck area of src/combat.cpp: the offsets of an area matrix, the positions they give
 around the centre, and the filtering of those positions that Combat::execute gathers from.
 */
module StrikeArea {
  import opened Numbers
  import opened Options
  import AreaStrike
  import Chunks

  type Position = Chunks.Position

  /** Coordinates are 16-bit words. */
  const WORD: nat := 0x1_0000

  // --------------------------------------------------------------------------------
  // The matrix and its offsets
  // --------------------------------------------------------------------------------

  datatype Cell = Cell(row: nat, col: nat)

  datatype Matrix = Matrix(rows: seq<seq<bool>>, cols: nat, center: Cell) {
    predicate Rectangular() {
      forall r :: 0 <= r < |rows| ==> |rows[r]| == cols
    }

    predicate Has(c: Cell) {
      c.row < |rows| && c.col < |rows[c.row]| && rows[c.row][c.col]
    }
  }

  predicate Once<T(==)>(s: seq<T>) {
    forall i, j :: 0 <= i < j < |s| ==> s[i] != s[j]
  }

  function RowCells(row: seq<bool>, r: nat): seq<Cell> {
    if row == [] then []
    else RowCells(row[..|row| - 1], r) + (if row[|row| - 1] then [Cell(r, |row| - 1)] else [])
  }

  /** The set cells, row by row. */
  function CellsOf(rows: seq<seq<bool>>): seq<Cell> {
    if rows == [] then []
    else CellsOf(rows[..|rows| - 1]) + RowCells(rows[|rows| - 1], |rows| - 1)
  }

  lemma OnceMore<T>(s: seq<T>, x: T)
    requires Once(s) && x !in s
    ensures Once(s + [x])
  {
  }

  lemma {:induction false} RowCellsExact(row: seq<bool>, r: nat)
    ensures forall c :: c in RowCells(row, r) <==> c.row == r && c.col < |row| && row[c.col]
  {
    if row != [] {
      RowCellsExact(row[..|row| - 1], r);
    }
  }

  lemma {:induction false} RowCellsOnce(row: seq<bool>, r: nat)
    ensures Once(RowCells(row, r))
  {
    if row != [] {
      var n := |row| - 1;
      RowCellsOnce(row[..n], r);
      RowCellsExact(row[..n], r);
      if row[n] {
        OnceMore(RowCells(row[..n], r), Cell(r, n));
      }
    }
  }

  /** Each set cell is listed once, and nothing else is. */
  lemma {:induction false} CellsExact(rows: seq<seq<bool>>)
    ensures Once(CellsOf(rows))
    ensures forall c :: c in CellsOf(rows) <==> c.row < |rows| && c.col < |rows[c.row]| && rows[c.row][c.col]
  {
    if rows != [] {
      CellsExact(rows[..|rows| - 1]);
      RowCellsExact(rows[|rows| - 1], |rows| - 1);
      RowCellsOnce(rows[|rows| - 1], |rows| - 1);
    }
  }

  /** A cast to a signed 16-bit word. */
  function Int16(v: int): int {
    (v + 0x8000) % WORD - 0x8000
  }

  function Spread(m: Matrix, c: Cell): int {
    Int16(c.col - m.center.col)
  }

  function Forward(m: Matrix, c: Cell): int {
    Int16(c.row - m.center.row)
  }

  /** Offsets are columns and rows from the matrix's centre, as far as a signed 16-bit word goes. */
  lemma OffsetsExactly(m: Matrix, c: Cell)
    ensures -32768 <= c.col - m.center.col < 32768 ==> Spread(m, c) == c.col - m.center.col
    ensures -32768 <= c.row - m.center.row < 32768 ==> Forward(m, c) == c.row - m.center.row
    ensures -32768 <= Spread(m, c) < 32768 && -32768 <= Forward(m, c) < 32768
  {
  }

  /** The two lists hold the offsets of these cells. */
  predicate AreOffsets(m: Matrix, cells: seq<Cell>, spreads: seq<int>, forwards: seq<int>) {
    && |spreads| == |forwards| == |cells|
    && (forall k :: 0 <= k < |cells| ==> spreads[k] == Spread(m, cells[k]) && forwards[k] == Forward(m, cells[k]))
  }

  /** The largest distance of any offset, or zero. */
  ghost predicate IsExtent(extent: nat, spreads: seq<int>, forwards: seq<int>)
    requires |spreads| == |forwards|
  {
    && (forall k :: 0 <= k < |spreads| ==> Abs(spreads[k]) <= extent && Abs(forwards[k]) <= extent)
    && (extent == 0 || exists k :: 0 <= k < |spreads| && (Abs(spreads[k]) == extent || Abs(forwards[k]) == extent))
  }

  lemma NextExtent(extent: nat, spreads: seq<int>, forwards: seq<int>, spread: int, forward: int)
    requires |spreads| == |forwards| && IsExtent(extent, spreads, forwards)
    ensures IsExtent(Max(extent, Max(Abs(spread), Abs(forward))), spreads + [spread], forwards + [forward])
  {
    var spreads', forwards' := spreads + [spread], forwards + [forward];
    assert spreads'[|spreads|] == spread && forwards'[|spreads|] == forward;
    if extent != 0 {
      var k :| 0 <= k < |spreads| && (Abs(spreads[k]) == extent || Abs(forwards[k]) == extent);
      assert spreads'[k] == spreads[k] && forwards'[k] == forwards[k];
    }
  }

  lemma NextOffset(m: Matrix, cells: seq<Cell>, spreads: seq<int>, forwards: seq<int>, c: Cell)
    requires AreOffsets(m, cells, spreads, forwards)
    ensures AreOffsets(m, cells + [c], spreads + [Spread(m, c)], forwards + [Forward(m, c)])
  {
  }

  /** The cells listed before column `col` of a row, all rows above it included. */
  function CellsBefore(rows: seq<seq<bool>>, row: nat, col: nat): seq<Cell>
    requires row < |rows| && col <= |rows[row]|
  {
    CellsOf(rows[..row]) + RowCells(rows[row][..col], row)
  }

  lemma NextCell(rows: seq<seq<bool>>, row: nat, col: nat)
    requires row < |rows| && col < |rows[row]|
    ensures CellsBefore(rows, row, col + 1)
            == if rows[row][col] then CellsBefore(rows, row, col) + [Cell(row, col)] else CellsBefore(rows, row, col)
  {
    assert rows[row][..col + 1][..col] == rows[row][..col];
    var before, cells := CellsOf(rows[..row]), RowCells(rows[row][..col], row);
    if rows[row][col] {
      assert before + (cells + [Cell(row, col)]) == (before + cells) + [Cell(row, col)];
    } else {
      assert cells + [] == cells;
    }
  }

  lemma NextRow(rows: seq<seq<bool>>, row: nat)
    requires row < |rows|
    ensures CellsBefore(rows, row, 0) == CellsOf(rows[..row])
    ensures CellsBefore(rows, row, |rows[row]|) == CellsOf(rows[..row + 1])
  {
    assert rows[row][..|rows[row]|] == rows[row] && rows[..row + 1][..row] == rows[..row];
  }

  ghost predicate Collected(m: Matrix, cells: seq<Cell>, spreads: seq<int>, forwards: seq<int>, extent: nat) {
    AreOffsets(m, cells, spreads, forwards) && IsExtent(extent, spreads, forwards)
  }

  method AddCell(m: Matrix, ghost cells: seq<Cell>, c: Cell, spreads: seq<int>, forwards: seq<int>, extent: nat)
    returns (spreads': seq<int>, forwards': seq<int>, extent': nat)
    requires Collected(m, cells, spreads, forwards, extent)
    ensures Collected(m, cells + [c], spreads', forwards', extent')
  {
    var spread, forward := Spread(m, c), Forward(m, c);
    spreads', forwards' := spreads + [spread], forwards + [forward];
    extent' := Max(extent, Max(Abs(spread), Abs(forward)));
    NextOffset(m, cells, spreads, forwards, c);
    NextExtent(extent, spreads, forwards, spread, forward);
  }

  method AddRow(m: Matrix, row: nat, spreads: seq<int>, forwards: seq<int>, extent: nat)
    returns (spreads': seq<int>, forwards': seq<int>, extent': nat)
    requires m.Rectangular() && row < |m.rows| && Collected(m, CellsBefore(m.rows, row, 0), spreads, forwards, extent)
    ensures Collected(m, CellsBefore(m.rows, row, m.cols), spreads', forwards', extent')
  {
    spreads', forwards', extent' := spreads, forwards, extent;
    ghost var cells := CellsBefore(m.rows, row, 0);
    for col := 0 to m.cols
      invariant cells == CellsBefore(m.rows, row, col)
      invariant Collected(m, cells, spreads', forwards', extent')
    {
      NextCell(m.rows, row, col);
      if m.rows[row][col] {
        spreads', forwards', extent' := AddCell(m, cells, Cell(row, col), spreads', forwards', extent');
        cells := cells + [Cell(row, col)];
      }
    }
  }

  method CreateDamageLocations(m: Matrix) returns (spreads: seq<int>, forwards: seq<int>, extent: nat)
    requires m.Rectangular()
    ensures AreOffsets(m, CellsOf(m.rows), spreads, forwards) && IsExtent(extent, spreads, forwards)
  {
    spreads, forwards, extent := [], [], 0;
    for row := 0 to |m.rows|
      invariant Collected(m, CellsOf(m.rows[..row]), spreads, forwards, extent)
    {
      NextRow(m.rows, row);
      spreads, forwards, extent := AddRow(m, row, spreads, forwards, extent);
    }
    assert m.rows[..|m.rows|] == m.rows;
  }

  // --------------------------------------------------------------------------------
  // The positions around the centre
  // --------------------------------------------------------------------------------

  datatype Spot = Spot(x: nat, y: nat)

  /** Where a cell of the matrix falls on the map, around the edge if need be. */
  function SpotOf(m: Matrix, base: Position, c: Cell): Spot {
    Spot((base.x + c.col - m.center.col) % WORD, (base.y + c.row - m.center.row) % WORD)
  }

  /** A spot is as far from the centre as its cell is from the matrix's, up to whole turns around the map of 65536 columns and rows. */
  lemma SpotExactly(m: Matrix, base: Position, c: Cell) returns (turnsX: int, turnsY: int)
    ensures var s := SpotOf(m, base, c);
            && s.x < 65536 && s.x - base.x == c.col - m.center.col + 65536 * turnsX
            && s.y < 65536 && s.y - base.y == c.row - m.center.row + 65536 * turnsY
  {
    var x, y := base.x + c.col - m.center.col, base.y + c.row - m.center.row;
    turnsX, turnsY := -(x / 65536), -(y / 65536);
    assert x == 65536 * (x / 65536) + x % 65536 && y == 65536 * (y / 65536) + y % 65536;
  }

  function SpotsOf(m: Matrix, base: Position, cells: seq<Cell>): seq<Spot> {
    seq(|cells|, k requires 0 <= k < |cells| => SpotOf(m, base, cells[k]))
  }

  /** Narrowing an offset to a word does not change where it leads. */
  lemma WrapOnce(v: int, d: int)
    ensures (v + Int16(d)) % WORD == (v + d) % WORD
  {
    var q := (d + 0x8000) / WORD;
    assert Int16(d) == d - q * WORD;
    ModShift(v + d, -q);
  }

  lemma ModShift(v: int, q: int)
    ensures (v + q * WORD) % WORD == v % WORD
  {
  }

  /** The scalar loop of gen_positions, in place of its vector forms. */
  method GenPositions(ghost m: Matrix, ghost cells: seq<Cell>, spreads: seq<int>, forwards: seq<int>, base: Position)
    returns (spots: seq<Spot>)
    requires AreOffsets(m, cells, spreads, forwards)
    ensures spots == SpotsOf(m, base, cells)
  {
    spots := [];
    for k := 0 to |spreads|
      invariant spots == SpotsOf(m, base, cells)[..k]
    {
      WrapOnce(base.x, cells[k].col - m.center.col);
      WrapOnce(base.y, cells[k].row - m.center.row);
      spots := spots + [Spot((base.x + spreads[k]) % WORD, (base.y + forwards[k]) % WORD)];
    }
  }

  /** Cells whose coordinates agree as words fall on the same spot. */
  predicate Alias(c: Cell, d: Cell) {
    c.row % WORD == d.row % WORD && c.col % WORD == d.col % WORD
  }

  ghost predicate NoAlias(m: Matrix) {
    forall c, d :: m.Has(c) && m.Has(d) && Alias(c, d) ==> c == d
  }

  lemma SameWord(v: int, a: nat, b: nat)
    ensures (v + a) % WORD == (v + b) % WORD <==> a % WORD == b % WORD
  {
    var p, q := (v + a) / WORD, (v + b) / WORD;
    assert v + a == p * WORD + (v + a) % WORD && v + b == q * WORD + (v + b) % WORD;
    if (v + a) % WORD == (v + b) % WORD {
      ModShift(b, p - q);
    }
    if a % WORD == b % WORD {
      ModShift(v + b, a / WORD - b / WORD);
    }
  }

  lemma SameSpot(m: Matrix, base: Position, c: Cell, d: Cell)
    ensures SpotOf(m, base, c) == SpotOf(m, base, d) <==> Alias(c, d)
  {
    SameWord(base.x - m.center.col, c.col, d.col);
    SameWord(base.y - m.center.row, c.row, d.row);
  }

  /** No spot comes twice, around any centre, if and only if no two set cells agree as words in both coordinates. */
  lemma SpotsOnce(m: Matrix, base: Position)
    ensures Once(SpotsOf(m, base, CellsOf(m.rows))) <==> NoAlias(m)
  {
    var cells := CellsOf(m.rows);
    var spots := SpotsOf(m, base, cells);
    CellsExact(m.rows);
    if Once(spots) {
      forall c, d | m.Has(c) && m.Has(d) && Alias(c, d) ensures c == d {
        assert c in cells && d in cells;
        var i, j :| 0 <= i < |cells| && 0 <= j < |cells| && cells[i] == c && cells[j] == d;
        SameSpot(m, base, c, d);
        assert spots[i] == spots[j];
      }
    }
    if NoAlias(m) {
      forall i, j | 0 <= i < j < |spots| ensures spots[i] != spots[j] {
        assert cells[i] in cells && cells[j] in cells;
        SameSpot(m, base, cells[i], cells[j]);
      }
    }
  }

  /** So no matrix that fits on the map strikes a spot twice. */
  lemma FitsNoAlias(m: Matrix)
    requires m.Rectangular() && |m.rows| <= 65536 && m.cols <= 65536
    ensures NoAlias(m)
  {
  }

  // --------------------------------------------------------------------------------
  // The area
  // --------------------------------------------------------------------------------

  /** What the filter reads of a tile, beside the tile itself. */
  datatype MapTile = MapTile(tile: AreaStrike.Tile, hasGround: bool, flags: set<nat>)

  datatype Terrain = Terrain(tileAt: Position -> Option<MapTile>, protected: Position -> bool, clear: (Position, Position) -> bool)

  datatype Rules = Rules(hasArea: bool, multiLevel: bool, ignoreGround: bool, floorRange: nat, reject: set<nat>,
                         rejectProtection: bool, ignoreBarriers: bool)

  /** getTileInChunk: there is no tile beyond the last layer. */
  function TileAt(terrain: Terrain, p: Position): Option<MapTile> {
    if p.z >= Chunks.MAX_LAYERS then None else terrain.tileAt(p)
  }

  /** try_emit, on a tile that exists. */
  predicate Emits(terrain: Terrain, rules: Rules, center: Position, p: Position) {
    && TileAt(terrain, p).Some?
    && TileAt(terrain, p).value.flags !! rules.reject
    && !(rules.rejectProtection && terrain.protected(p))
    && (rules.ignoreBarriers || terrain.clear(center, p))
  }

  function Passing(terrain: Terrain, rules: Rules, center: Position): Position -> bool {
    (p: Position) => Emits(terrain, rules, center, p)
  }

  function Keep(s: seq<Position>, emits: Position -> bool): seq<Position> {
    if s == [] then []
    else Keep(s[..|s| - 1], emits) + (if emits(s[|s| - 1]) then [s[|s| - 1]] else [])
  }

  function OnFloor(spots: seq<Spot>, z: nat): seq<Position> {
    seq(|spots|, k requires 0 <= k < |spots| => Chunks.Position(spots[k].x, spots[k].y, z))
  }

  /** Floor by floor, so many levels from minZ on. */
  function OnFloors(spots: seq<Spot>, minZ: nat, levels: nat): seq<Position> {
    if levels == 0 then [] else OnFloors(spots, minZ, levels - 1) + OnFloor(spots, minZ + levels - 1)
  }

  predicate Grounded(terrain: Terrain, p: Position) {
    TileAt(terrain, p).Some? && TileAt(terrain, p).value.hasGround
  }

  /** The uppermost floor with ground, below which nothing is struck. */
  function FirstGround(terrain: Terrain, spot: Spot, minZ: nat, levels: nat): Option<nat>
    decreases levels
  {
    if levels == 0 then None
    else if Grounded(terrain, Chunks.Position(spot.x, spot.y, minZ)) then Some(minZ)
    else FirstGround(terrain, spot, minZ + 1, levels - 1)
  }

  function OnGround(terrain: Terrain, spots: seq<Spot>, minZ: nat, levels: nat): seq<Position> {
    if spots == [] then []
    else
      var spot := spots[|spots| - 1];
      OnGround(terrain, spots[..|spots| - 1], minZ, levels)
      + (match FirstGround(terrain, spot, minZ, levels)
         case None => []
         case Some(z) => [Chunks.Position(spot.x, spot.y, z)])
  }

  function MinZ(rules: Rules, caster: Position): nat {
    if rules.ignoreGround && rules.floorRange < caster.z then caster.z - rules.floorRange
    else if rules.ignoreGround then 0
    else caster.z
  }

  /** How many floors there are from minZ down to the range's end or the last layer. */
  function Levels(rules: Rules, caster: Position): (levels: nat)
    requires caster.z < Chunks.MAX_LAYERS
    ensures MinZ(rules, caster) + levels <= Chunks.MAX_LAYERS
  {
    var maxZ := if caster.z + rules.floorRange < Chunks.MAX_LAYERS then caster.z + rules.floorRange else Chunks.MAX_LAYERS - 1;
    maxZ + 1 - MinZ(rules, caster)
  }

  /** Where the loops look, in their order. */
  function Candidates(terrain: Terrain, rules: Rules, caster: Position, center: Position, spots: seq<Spot>): seq<Position>
    requires caster.z < Chunks.MAX_LAYERS
  {
    if !rules.hasArea then [center]
    else if !rules.multiLevel then OnFloor(spots, center.z)
    else if rules.ignoreGround then OnFloors(spots, MinZ(rules, caster), Levels(rules, caster))
    else OnGround(terrain, spots, MinZ(rules, caster), Levels(rules, caster))
  }

  function Area(terrain: Terrain, rules: Rules, caster: Position, center: Position, spots: seq<Spot>): seq<Position>
    requires caster.z < Chunks.MAX_LAYERS
  {
    Keep(Candidates(terrain, rules, caster, center, spots), Passing(terrain, rules, center))
  }

  // --------------------------------------------------------------------------------
  // What is in the area, and that it is in it once
  // --------------------------------------------------------------------------------

  lemma {:induction false} KeepExact(s: seq<Position>, emits: Position -> bool)
    ensures forall p :: p in Keep(s, emits) <==> p in s && emits(p)
    ensures Once(s) ==> Once(Keep(s, emits))
  {
    if s != [] {
      KeepExact(s[..|s| - 1], emits);
      assert s == s[..|s| - 1] + [s[|s| - 1]];
    }
  }

  lemma OnFloorExact(spots: seq<Spot>, z: nat)
    ensures forall p :: p in OnFloor(spots, z) <==> Spot(p.x, p.y) in spots && p.z == z
    ensures Once(spots) ==> Once(OnFloor(spots, z))
  {
    forall p: Position | Spot(p.x, p.y) in spots && p.z == z ensures p in OnFloor(spots, z) {
      var k :| 0 <= k < |spots| && spots[k] == Spot(p.x, p.y);
      assert OnFloor(spots, z)[k] == p;
    }
  }

  lemma {:induction false} OnFloorsExact(spots: seq<Spot>, minZ: nat, levels: nat)
    ensures forall p :: p in OnFloors(spots, minZ, levels) <==> Spot(p.x, p.y) in spots && minZ <= p.z < minZ + levels
    ensures Once(spots) ==> Once(OnFloors(spots, minZ, levels))
  {
    if levels > 0 {
      OnFloorsExact(spots, minZ, levels - 1);
      OnFloorExact(spots, minZ + levels - 1);
    }
  }

  /** The floor found has ground, and none above it does. */
  ghost predicate IsFirstGround(terrain: Terrain, spot: Spot, minZ: nat, levels: nat, z: nat) {
    && minZ <= z < minZ + levels && Grounded(terrain, Chunks.Position(spot.x, spot.y, z))
    && (forall y: nat :: minZ <= y < z ==> !Grounded(terrain, Chunks.Position(spot.x, spot.y, y)))
  }

  lemma {:induction false} FirstGroundExact(terrain: Terrain, spot: Spot, minZ: nat, levels: nat)
    ensures forall z: nat :: (FirstGround(terrain, spot, minZ, levels) == Some(z)
                         <==> IsFirstGround(terrain, spot, minZ, levels, z))
    decreases levels
  {
    if levels > 0 {
      FirstGroundExact(terrain, spot, minZ + 1, levels - 1);
    }
  }

  lemma {:induction false} OnGroundExact(terrain: Terrain, spots: seq<Spot>, minZ: nat, levels: nat)
    ensures forall p :: (p in OnGround(terrain, spots, minZ, levels)
                         <==> Spot(p.x, p.y) in spots && IsFirstGround(terrain, Spot(p.x, p.y), minZ, levels, p.z))
    ensures Once(spots) ==> Once(OnGround(terrain, spots, minZ, levels))
  {
    if spots != [] {
      var n := |spots| - 1;
      OnGroundExact(terrain, spots[..n], minZ, levels);
      FirstGroundExact(terrain, spots[n], minZ, levels);
      assert spots == spots[..n] + [spots[n]];
    }
  }

  /**
   Where the strike may reach: the centre, its floor, every floor in range of the caster's, or the first ground from the
   caster's floor downwards. There are sixteen floors.
   */
  ghost predicate Reaches(terrain: Terrain, rules: Rules, caster: Position, center: Position, spots: seq<Spot>, p: Position) {
    if !rules.hasArea then p == center
    else
      && Spot(p.x, p.y) in spots
      && (rules.multiLevel ==> p.z <= caster.z + rules.floorRange && p.z < 16)
      && (if !rules.multiLevel then p.z == center.z
          else if rules.ignoreGround then caster.z - rules.floorRange <= p.z
          else caster.z <= p.z && HasGround(terrain, p)
               && forall z: nat :: caster.z <= z < p.z ==> !HasGround(terrain, Chunks.Position(p.x, p.y, z)))
  }

  predicate HasGround(terrain: Terrain, p: Position) {
    p.z < 16 && terrain.tileAt(p).Some? && terrain.tileAt(p).value.hasGround
  }

  /** What passes the filter: a tile without a rejected flag, not protected where that matters, and in sight where barriers do. */
  predicate Passes(terrain: Terrain, rules: Rules, center: Position, p: Position) {
    && p.z < 16 && terrain.tileAt(p).Some?
    && (forall flag :: flag in terrain.tileAt(p).value.flags ==> flag !in rules.reject)
    && (rules.rejectProtection ==> !terrain.protected(p))
    && (!rules.ignoreBarriers ==> terrain.clear(center, p))
  }

  /** The area holds exactly the positions in reach that pass the filter, all on the map, and each once if each spot comes once. */
  lemma AreaExact(terrain: Terrain, rules: Rules, caster: Position, center: Position, spots: seq<Spot>)
    requires caster.z < Chunks.MAX_LAYERS
    ensures var area := Area(terrain, rules, caster, center, spots);
            && (forall p :: p in area <==> Reaches(terrain, rules, caster, center, spots, p) && Passes(terrain, rules, center, p))
            && AreaStrike.OnMap(area) && (Once(spots) ==> AreaStrike.Distinct(area))
  {
    KeepExact(Candidates(terrain, rules, caster, center, spots), Passing(terrain, rules, center));
    var minZ, levels := MinZ(rules, caster), Levels(rules, caster);
    if rules.hasArea {
      if !rules.multiLevel {
        OnFloorExact(spots, center.z);
      } else if rules.ignoreGround {
        OnFloorsExact(spots, minZ, levels);
      } else {
        OnGroundExact(terrain, spots, minZ, levels);
      }
    }
    var area := Area(terrain, rules, caster, center, spots);
    forall i | 0 <= i < |area| ensures area[i].z < Chunks.MAX_LAYERS {
      assert area[i] in area;
    }
  }

  // --------------------------------------------------------------------------------
  // buildValidatedArea
  // --------------------------------------------------------------------------------

  /** The tiles at these positions. */
  predicate AreTiles(terrain: Terrain, positions: seq<Position>, tiles: seq<AreaStrike.Tile>) {
    && |positions| == |tiles|
    && (forall i :: 0 <= i < |positions| ==>
          TileAt(terrain, positions[i]).Some? && TileAt(terrain, positions[i]).value.tile == tiles[i])
  }

  /** The buffers after one more candidate. */
  method TryEmit(terrain: Terrain, rules: Rules, center: Position, p: Position, positions: seq<Position>,
                 tiles: seq<AreaStrike.Tile>) returns (positions': seq<Position>, tiles': seq<AreaStrike.Tile>)
    requires AreTiles(terrain, positions, tiles)
    ensures AreTiles(terrain, positions', tiles')
    ensures positions' == if Emits(terrain, rules, center, p) then positions + [p] else positions
  {
    positions', tiles' := positions, tiles;
    var tile := TileAt(terrain, p);
    if tile.None? || !(tile.value.flags !! rules.reject) {
      return;
    }
    if rules.rejectProtection && terrain.protected(p) {
      return;
    }
    if !rules.ignoreBarriers && !terrain.clear(center, p) {
      return;
    }
    positions', tiles' := positions + [p], tiles + [tile.value.tile];
  }

  lemma KeepOne(s: seq<Position>, p: Position, emits: Position -> bool)
    ensures Keep(s + [p], emits) == Keep(s, emits) + (if emits(p) then [p] else [])
  {
    assert (s + [p])[..|s|] == s;
  }

  lemma NextSpot(before: seq<Position>, spots: seq<Spot>, z: nat, k: nat, emits: Position -> bool)
    requires k < |spots|
    ensures var p := Chunks.Position(spots[k].x, spots[k].y, z);
            Keep(before + OnFloor(spots, z)[..k + 1], emits)
            == Keep(before + OnFloor(spots, z)[..k], emits) + (if emits(p) then [p] else [])
  {
    var p := Chunks.Position(spots[k].x, spots[k].y, z);
    assert before + OnFloor(spots, z)[..k + 1] == (before + OnFloor(spots, z)[..k]) + [p];
    KeepOne(before + OnFloor(spots, z)[..k], p, emits);
  }

  method EmitFloor(terrain: Terrain, rules: Rules, center: Position, spots: seq<Spot>, z: nat, ghost before: seq<Position>,
                   positions: seq<Position>, tiles: seq<AreaStrike.Tile>)
    returns (positions': seq<Position>, tiles': seq<AreaStrike.Tile>)
    requires AreTiles(terrain, positions, tiles) && positions == Keep(before, Passing(terrain, rules, center))
    ensures AreTiles(terrain, positions', tiles')
    ensures positions' == Keep(before + OnFloor(spots, z), Passing(terrain, rules, center))
  {
    positions', tiles' := positions, tiles;
    assert before + OnFloor(spots, z)[..0] == before;
    for k := 0 to |spots|
      invariant AreTiles(terrain, positions', tiles')
      invariant positions' == Keep(before + OnFloor(spots, z)[..k], Passing(terrain, rules, center))
    {
      var p := Chunks.Position(spots[k].x, spots[k].y, z);
      NextSpot(before, spots, z, k, Passing(terrain, rules, center));
      positions', tiles' := TryEmit(terrain, rules, center, p, positions', tiles');
    }
    assert OnFloor(spots, z)[..|spots|] == OnFloor(spots, z);
  }

  method FindGround(terrain: Terrain, spot: Spot, minZ: nat, levels: nat) returns (found: Option<nat>)
    ensures found == FirstGround(terrain, spot, minZ, levels)
  {
    for z := minZ to minZ + levels
      invariant FirstGround(terrain, spot, minZ, levels) == FirstGround(terrain, spot, z, minZ + levels - z)
    {
      if Grounded(terrain, Chunks.Position(spot.x, spot.y, z)) {
        return Some(z);
      }
    }
    return None;
  }

  method EmitGround(terrain: Terrain, rules: Rules, center: Position, spots: seq<Spot>, minZ: nat, levels: nat)
    returns (positions: seq<Position>, tiles: seq<AreaStrike.Tile>)
    ensures AreTiles(terrain, positions, tiles)
    ensures positions == Keep(OnGround(terrain, spots, minZ, levels), Passing(terrain, rules, center))
  {
    positions, tiles := [], [];
    for k := 0 to |spots|
      invariant AreTiles(terrain, positions, tiles)
      invariant positions == Keep(OnGround(terrain, spots[..k], minZ, levels), Passing(terrain, rules, center))
    {
      assert spots[..k + 1][..k] == spots[..k];
      var z := FindGround(terrain, spots[k], minZ, levels);
      ghost var above := OnGround(terrain, spots[..k], minZ, levels);
      assert above + [] == above;
      if z.Some? {
        var p := Chunks.Position(spots[k].x, spots[k].y, z.value);
        KeepOne(above, p, Passing(terrain, rules, center));
        positions, tiles := TryEmit(terrain, rules, center, p, positions, tiles);
      }
    }
    assert spots[..|spots|] == spots;
  }

  method BuildValidatedArea(terrain: Terrain, rules: Rules, caster: Position, center: Position, ghost m: Matrix,
                            ghost cells: seq<Cell>, spreads: seq<int>, forwards: seq<int>)
    returns (positions: seq<Position>, tiles: seq<AreaStrike.Tile>)
    requires caster.z < Chunks.MAX_LAYERS && AreOffsets(m, cells, spreads, forwards)
    ensures positions == Area(terrain, rules, caster, center, SpotsOf(m, center, cells))
    ensures AreTiles(terrain, positions, tiles)
  {
    positions, tiles := [], [];
    if !rules.hasArea {
      KeepOne([], center, Passing(terrain, rules, center));
      positions, tiles := TryEmit(terrain, rules, center, center, positions, tiles);
      return;
    }
    var spots := GenPositions(m, cells, spreads, forwards, center);
    if !rules.multiLevel {
      positions, tiles := EmitFloor(terrain, rules, center, spots, center.z, [], positions, tiles);
      assert [] + OnFloor(spots, center.z) == OnFloor(spots, center.z);
      return;
    }
    var minZ, levels := MinZ(rules, caster), Levels(rules, caster);
    if !rules.ignoreGround {
      positions, tiles := EmitGround(terrain, rules, center, spots, minZ, levels);
      return;
    }
    for z := 0 to levels
      invariant AreTiles(terrain, positions, tiles)
      invariant positions == Keep(OnFloors(spots, minZ, z), Passing(terrain, rules, center))
    {
      positions, tiles := EmitFloor(terrain, rules, center, spots, minZ + z, OnFloors(spots, minZ, z), positions, tiles);
    }
  }

  // --------------------------------------------------------------------------------
  // The whole strike
  // --------------------------------------------------------------------------------

  /** Every tile holds exactly the creatures that its chunk files at its position. */
  ghost predicate Filed(terrain: Terrain, world: map<AreaStrike.Coord, AreaStrike.ChunkView>) {
    forall p, b :: TileAt(terrain, p).Some? ==>
      multiset(TileAt(terrain, p).value.tile.List())[b]
      == if b.position == p then multiset(AreaStrike.FiledNear(world, b))[b] else 0
  }

  /** The positions that are struck: the area's first ones. */
  function Taken(area: seq<Position>): seq<Position> {
    if |area| < AreaStrike.MAX_TILES then area else area[..AreaStrike.MAX_TILES]
  }

  lemma TakenAgrees(terrain: Terrain, world: map<AreaStrike.Coord, AreaStrike.ChunkView>, area: seq<Position>,
                    tiles: seq<AreaStrike.Tile>, n: nat)
    requires AreTiles(terrain, area, tiles) && Filed(terrain, world) && n <= |area|
    ensures AreaStrike.Agrees(world, area[..n], tiles[..n])
  {
  }

  /** A top target stands on the tile of some struck position. */
  predicate TopOn(terrain: Terrain, config: AreaStrike.Config, who: AreaStrike.Caster, struck: seq<Position>,
                  b: AreaStrike.Being)
  {
    exists i :: 0 <= i < |struck| && TileAt(terrain, struck[i]).Some?
                && AreaStrike.TopTarget(config, who, TileAt(terrain, struck[i]).value.tile, b)
  }

  lemma TopOnTiles(terrain: Terrain, config: AreaStrike.Config, who: AreaStrike.Caster, area: seq<Position>,
                   tiles: seq<AreaStrike.Tile>, n: nat, b: AreaStrike.Being)
    requires AreTiles(terrain, area, tiles) && n <= |area|
    ensures TopOn(terrain, config, who, area[..n], b)
            <==> exists i :: 0 <= i < n && AreaStrike.TopTarget(config, who, tiles[i], b)
  {
    if i :| 0 <= i < n && AreaStrike.TopTarget(config, who, tiles[i], b) {
      assert TileAt(terrain, area[..n][i]).value.tile == tiles[i];
    }
  }

  /**
   Area and gathering together: on a map whose tiles and chunks agree, with a matrix that wraps no two
   cells onto each other, a strike finds everyone on its first tiles whom its flags mean, and no one twice.
   */
  method Strike(terrain: Terrain, world: map<AreaStrike.Coord, AreaStrike.ChunkView>, rules: Rules,
                config: AreaStrike.Config, who: AreaStrike.Caster, caster: Position, center: Position, m: Matrix)
    returns (targets: seq<AreaStrike.Being>)
    requires m.Rectangular() && caster.z < Chunks.MAX_LAYERS && AreaStrike.Readable(world)
    ensures var struck := Taken(Area(terrain, rules, caster, center, SpotsOf(m, center, CellsOf(m.rows))));
            !config.topTargetOnly && NoAlias(m) && AreaStrike.WellFormedWorld(world) && Filed(terrain, world) ==> forall b ::
              multiset(targets)[b]
              == if AreaStrike.Means(config, who, b) && b.position in struck
                 then multiset(AreaStrike.FiledNear(world, b))[b] else 0
    ensures var struck := Taken(Area(terrain, rules, caster, center, SpotsOf(m, center, CellsOf(m.rows))));
            config.topTargetOnly ==> forall b :: b in targets <==> TopOn(terrain, config, who, struck, b)
  {
    var spreads, forwards, _ := CreateDamageLocations(m);
    var positions, tiles := BuildValidatedArea(terrain, rules, caster, center, m, CellsOf(m.rows), spreads, forwards);
    AreaExact(terrain, rules, caster, center, SpotsOf(m, center, CellsOf(m.rows)));
    SpotsOnce(m, center);
    ghost var n := if |tiles| < AreaStrike.MAX_TILES then |tiles| else AreaStrike.MAX_TILES;
    assert positions[..n] == Taken(positions);
    targets := AreaStrike.Gather(config, who, world, positions, tiles);
    forall b | config.topTargetOnly ensures b in targets <==> TopOn(terrain, config, who, Taken(positions), b) {
      TopOnTiles(terrain, config, who, positions, tiles, n, b);
    }
    if !config.topTargetOnly && NoAlias(m) && AreaStrike.WellFormedWorld(world) && Filed(terrain, world) {
      TakenAgrees(terrain, world, positions, tiles, n);
    }
  }
}
