/**
 src/chunkgrid.cpp: the directory from chunk coordinates to chunk handles, dense inside the
 reserved rectangle and a hash map outside it, with a link from every chunk to the chunks
 south and east of it.
 */
module ChunkGrids {
  import opened Options

  /** MaxDenseCells in src/chunkgrid.cpp, Floor::Bits and Floor::Mask in src/floorpool.h. */
  const MAX_DENSE_CELLS: nat := 4_000_000
  const FLOOR_SIZE: nat := 8
  const FLOOR_MASK: nat := 7

  datatype Coord = Coord(x: int, y: int) {
    function North(): Coord { Coord(x, y - 1) }
    function South(): Coord { Coord(x, y + 1) }
    function West(): Coord { Coord(x - 1, y) }
    function East(): Coord { Coord(x + 1, y) }
  }

  /** The neighbour fields of a chunk. */
  datatype Links = Links(south: Option<nat>, east: Option<nat>)

  // --------------------------------------------------------------------------------
  // The directory a grid stands for: coordinates in the order their chunks were made
  // --------------------------------------------------------------------------------

  /** The handle of a coordinate is its place in the order of creation. */
  function Lookup(created: seq<Coord>, c: Coord): Option<nat> {
    if created == [] then None
    else if created[|created| - 1] == c then Some(|created| - 1)
    else Lookup(created[..|created| - 1], c)
  }

  predicate Distinct(created: seq<Coord>) {
    forall i, j :: 0 <= i < j < |created| ==> created[i] != created[j]
  }

  function Extend(created: seq<Coord>, c: Coord): seq<Coord> {
    if c in created then created else created + [c]
  }

  /** Handles and coordinates determine each other. */
  lemma {:induction false} LookupExact(created: seq<Coord>, c: Coord, k: nat)
    requires Distinct(created)
    ensures Lookup(created, c) == Some(k) <==> k < |created| && created[k] == c
    ensures Lookup(created, c).None? <==> c !in created
  {
    if created != [] {
      var before := created[..|created| - 1];
      assert created == before + [created[|created| - 1]];
      LookupExact(before, c, k);
    }
  }

  lemma LookupExtend(created: seq<Coord>, c: Coord, d: Coord)
    requires c !in created
    ensures Lookup(created + [c], d) == if d == c then Some(|created|) else Lookup(created, d)
  {
    assert (created + [c])[..|created|] == created;
  }

  function ExtendAll(created: seq<Coord>, requests: seq<Coord>): seq<Coord>
    decreases |requests|
  {
    if requests == [] then created else ExtendAll(Extend(created, requests[0]), requests[1..])
  }

  /** Over any run of requests a handle, once given, keeps its meaning. */
  lemma {:induction false} HandlesStable(created: seq<Coord>, requests: seq<Coord>, c: Coord)
    requires Distinct(created)
    ensures Distinct(ExtendAll(created, requests)) && created <= ExtendAll(created, requests)
    ensures c in created ==> Lookup(ExtendAll(created, requests), c) == Lookup(created, c)
    ensures c in ExtendAll(created, requests) <==> c in created || c in requests
    decreases |requests|
  {
    if requests != [] {
      var next := Extend(created, requests[0]);
      if requests[0] !in created {
        LookupExtend(created, requests[0], c);
      }
      HandlesStable(next, requests[1..], c);
      assert requests == [requests[0]] + requests[1..];
    }
  }

  /** Every chunk points at its existing southern and eastern neighbours. */
  ghost predicate Linked(created: seq<Coord>, slots: seq<Links>) {
    && |slots| == |created|
    && forall k :: 0 <= k < |created| ==> slots[k] == LinksOf(created, created[k])
  }

  function LinksOf(created: seq<Coord>, c: Coord): Links {
    Links(Lookup(created, c.South()), Lookup(created, c.East()))
  }

  /** One chunk's southern neighbour is another exactly if it is a chunk further down the map, and the eastern one further right. */
  lemma LinkedExactly(created: seq<Coord>, slots: seq<Links>, i: nat, j: nat)
    requires Distinct(created) && Linked(created, slots) && i < |created| && j < |created|
    ensures slots[i].south == Some(j) <==> created[j].x == created[i].x && created[j].y == created[i].y + 1
    ensures slots[i].east == Some(j) <==> created[j].x == created[i].x + 1 && created[j].y == created[i].y
    ensures slots[i].south.None? <==> Coord(created[i].x, created[i].y + 1) !in created
    ensures slots[i].east.None? <==> Coord(created[i].x + 1, created[i].y) !in created
  {
    LookupExact(created, created[i].South(), j);
    LookupExact(created, created[i].East(), j);
  }

  // --------------------------------------------------------------------------------
  // The dense part
  // --------------------------------------------------------------------------------

  predicate InRange(wide: int, high: int, c: Coord) {
    0 <= c.x < wide && 0 <= c.y < high
  }

  function CellOf(wide: int, c: Coord): int {
    c.y * wide + c.x
  }

  /** The cell numbering of a grid that many chunks wide. */
  function Cells(wide: int): Coord -> int {
    (c: Coord) => CellOf(wide, c)
  }

  /** Inside the range the numbering stays within the cells, and no two coordinates share one. */
  ghost predicate Indexes(cell: Coord -> int, wide: int, high: int, cells: nat) {
    && (forall c :: InRange(wide, high, c) ==> 0 <= cell(c) < cells)
    && (forall c, d :: InRange(wide, high, c) && InRange(wide, high, d) && cell(c) == cell(d) ==> c == d)
  }

  lemma CellsIndex(wide: int, high: int)
    requires 0 <= wide && 0 <= high
    ensures 0 <= wide * high && Indexes(Cells(wide), wide, high, wide * high)
  {
    forall c | InRange(wide, high, c) ensures 0 <= Cells(wide)(c) < wide * high {
      CellInGrid(wide, high, c);
    }
    forall c, d | InRange(wide, high, c) && InRange(wide, high, d) && Cells(wide)(c) == Cells(wide)(d) ensures c == d {
      RowsOrdered(wide, c, d);
      RowsOrdered(wide, d, c);
    }
  }

  lemma CellInGrid(wide: int, high: int, c: Coord)
    requires InRange(wide, high, c)
    ensures 0 <= CellOf(wide, c) < wide * high
  {
    RowAfter(c.y, high, wide);
  }

  lemma RowsOrdered(wide: int, c: Coord, d: Coord)
    requires 0 <= c.x < wide && 0 <= d.x < wide
    requires 0 <= c.y && 0 <= d.y
    ensures c.y < d.y ==> CellOf(wide, c) < CellOf(wide, d)
  {
    if c.y < d.y {
      RowAfter(c.y, d.y, wide);
    }
  }

  lemma {:induction false} RowAfter(y: nat, z: nat, wide: nat)
    requires y < z
    ensures y * wide + wide <= z * wide && 0 <= y * wide
  {
    if y + 1 < z {
      RowAfter(y, z - 1, wide);
    }
  }

  function Find(dense: seq<Option<nat>>, cell: Coord -> int, wide: int, high: int, overflow: map<Coord, nat>, c: Coord)
    : Option<nat>
    requires InRange(wide, high, c) ==> 0 <= cell(c) < |dense|
  {
    if InRange(wide, high, c) then dense[cell(c)]
    else if c in overflow then Some(overflow[c])
    else None
  }

  /** The two tables together answer like the directory. */
  ghost predicate Tells(dense: seq<Option<nat>>, cell: Coord -> int, wide: int, high: int, overflow: map<Coord, nat>,
                        created: seq<Coord>)
  {
    && Indexes(cell, wide, high, |dense|)
    && (forall c :: Find(dense, cell, wide, high, overflow, c) == Lookup(created, c))
    && (forall c :: c in overflow ==> !InRange(wide, high, c))
  }

  lemma FileDense(dense: seq<Option<nat>>, cell: Coord -> int, wide: int, high: int, overflow: map<Coord, nat>,
                  created: seq<Coord>, coord: Coord)
    requires Tells(dense, cell, wide, high, overflow, created) && coord !in created && InRange(wide, high, coord)
    ensures Tells(dense[cell(coord) := Some(|created|)], cell, wide, high, overflow, created + [coord])
  {
    var dense' := dense[cell(coord) := Some(|created|)];
    forall c ensures Find(dense', cell, wide, high, overflow, c) == Lookup(created + [coord], c) {
      LookupExtend(created, coord, c);
      assert Find(dense, cell, wide, high, overflow, c) == Lookup(created, c);
    }
  }

  lemma FileOverflow(dense: seq<Option<nat>>, cell: Coord -> int, wide: int, high: int, overflow: map<Coord, nat>,
                     created: seq<Coord>, coord: Coord)
    requires Tells(dense, cell, wide, high, overflow, created) && coord !in created && !InRange(wide, high, coord)
    ensures Tells(dense, cell, wide, high, overflow[coord := |created|], created + [coord])
  {
    forall c ensures Find(dense, cell, wide, high, overflow[coord := |created|], c) == Lookup(created + [coord], c) {
      LookupExtend(created, coord, c);
      assert Find(dense, cell, wide, high, overflow, c) == Lookup(created, c);
    }
  }

  /** A new, empty dense part keeps the directory exactly when no chunk lies in the old or the new range. */
  lemma Resized(dense: seq<Option<nat>>, cell: Coord -> int, wide: int, high: int, overflow: map<Coord, nat>,
                created: seq<Coord>, dense': seq<Option<nat>>, cell': Coord -> int, wide': int, high': int)
    requires Tells(dense, cell, wide, high, overflow, created) && Distinct(created) && Indexes(cell', wide', high', |dense'|)
    requires forall i :: 0 <= i < |dense'| ==> dense'[i] == None
    ensures Tells(dense', cell', wide', high', overflow, created) <==>
            forall c :: c in created ==> !InRange(wide, high, c) && !InRange(wide', high', c)
  {
    forall c
      ensures Find(dense', cell', wide', high', overflow, c) == Lookup(created, c) <==>
              (c in created ==> !InRange(wide, high, c) && !InRange(wide', high', c))
      ensures c in overflow ==> c in created
    {
      LookupExact(created, c, 0);
      assert Find(dense, cell, wide, high, overflow, c) == Lookup(created, c);
    }
  }

  /** The size in chunks of a map side given in tiles: (side + Mask) >> Bits. */
  function ChunksAcross(side: nat): nat {
    (side + FLOOR_MASK) / FLOOR_SIZE
  }

  /** Exactly enough chunks: every tile is covered, and none would do with one chunk less. */
  lemma ChunksAcrossCovers(side: nat)
    ensures forall x :: 0 <= x < side ==> 0 <= x / 8 < ChunksAcross(side)
    ensures side > 0 ==> (side - 1) / 8 == ChunksAcross(side) - 1
  {
  }

  class ChunkGrid {
    var denseGrid: seq<Option<nat>>
    var wide: int
    var high: int
    var overflow: map<Coord, nat>
    var slots: seq<Links>
    ghost var created: seq<Coord>

    ghost predicate Filed()
      reads this
    {
      0 <= wide && 0 <= high && Distinct(created) && |denseGrid| == wide * high && Tells(denseGrid, Cells(wide), wide, high, overflow, created)
    }

    ghost predicate Valid()
      reads this
    {
      Filed() && Linked(created, slots)
    }

    constructor ()
      ensures Valid() && created == [] && wide == 0 && high == 0
    {
      denseGrid, overflow, slots := [], map[], [];
      wide, high := 0, 0;
      created := [];
    }

    method FindChunk(c: Coord) returns (handle: Option<nat>)
      requires Filed()
      ensures handle == Lookup(created, c)
    {
      assert Find(denseGrid, Cells(wide), wide, high, overflow, c) == Lookup(created, c);
      if InRange(wide, high, c) {
        handle := denseGrid[CellOf(wide, c)];
      } else if c !in overflow {
        handle := None;
      } else {
        handle := Some(overflow[c]);
      }
    }

    /**
     Sizes the dense part. It forgets every chunk filed in the old dense part and hides every
     chunk that lies in the new one, so the directory survives exactly when there is no such chunk.
     */
    method Reserve(mapWidth: nat, mapHeight: nat) returns (ghost resized: bool)
      requires Valid()
      modifies this`denseGrid, this`wide, this`high
      ensures resized <==> 0 < ChunksAcross(mapWidth) * ChunksAcross(mapHeight) <= MAX_DENSE_CELLS
      ensures !resized ==> Valid() && wide == old(wide) && high == old(high) && denseGrid == old(denseGrid)
      ensures resized ==> wide == ChunksAcross(mapWidth) && high == ChunksAcross(mapHeight)
      ensures resized ==>
                (Valid() <==> forall c :: c in created ==>
                                !(0 <= c.x < old(wide) && 0 <= c.y < old(high)) && !(0 <= c.x < wide && 0 <= c.y < high))
    {
      var chunksWide := ChunksAcross(mapWidth);
      var chunksHigh := ChunksAcross(mapHeight);
      var cellCount := chunksWide * chunksHigh;
      resized := 0 < cellCount <= MAX_DENSE_CELLS;
      if cellCount == 0 || cellCount > MAX_DENSE_CELLS {
        return;
      }
      var cells := seq(cellCount, _ => None);
      CellsIndex(chunksWide, chunksHigh);
      Resized(denseGrid, Cells(wide), wide, high, overflow, created, cells, Cells(chunksWide), chunksWide, chunksHigh);
      wide := chunksWide;
      high := chunksHigh;
      denseGrid := cells;
    }

    /** The handle of the chunk at `coord`, made and linked first where there is none. */
    method GetOrCreateChunk(coord: Coord) returns (handle: nat)
      requires Valid()
      modifies this
      ensures Valid() && created == Extend(old(created), coord)
      ensures Lookup(created, coord) == Some(handle)
    {
      var existing := FindChunk(coord);
      LookupExact(created, coord, if existing.Some? then existing.value else 0);
      if existing.Some? {
        return existing.value;
      }
      handle := |slots|;
      slots := slots + [Links(None, None)];
      LookupExtend(created, coord, coord);
      File(coord, handle);
      assert slots[..handle] == old(slots) && created[..handle] == old(created);
      LinkNeighbors(handle, coord);
    }

    /** Enters the new handle in the part of the directory that covers its coordinate. */
    method File(coord: Coord, handle: nat)
      requires Filed() && coord !in created && handle == |created|
      modifies this`denseGrid, this`overflow, this`created
      ensures Filed() && created == old(created) + [coord]
    {
      if InRange(wide, high, coord) {
        FileDense(denseGrid, Cells(wide), wide, high, overflow, created, coord);
        denseGrid := denseGrid[CellOf(wide, coord) := Some(handle)];
      } else {
        FileOverflow(denseGrid, Cells(wide), wide, high, overflow, created, coord);
        overflow := overflow[coord := handle];
      }
      created := created + [coord];
    }

    /** Links the newest chunk, all others being linked but for it. */
    method LinkNeighbors(handle: nat, coord: Coord)
      requires Filed() && created != [] && handle == |created| - 1 && created[handle] == coord
      requires |slots| == |created| && Linked(created[..handle], slots[..handle]) && slots[handle] == Links(None, None)
      modifies this`slots
      ensures Linked(created, slots)
    {
      ghost var links := slots;
      LinkNorthSouth(handle, coord);
      LinkWestEast(handle, coord);
      forall k | 0 <= k < handle ensures slots[k] == LinksOf(created, created[k]) {
        NewNeighbor(created, k);
        assert links[..handle][k] == LinksOf(created[..handle], created[..handle][k]);
      }
      LookupExact(created, coord.North(), handle);
      LookupExact(created, coord.West(), handle);
    }

    method LinkNorthSouth(handle: nat, coord: Coord)
      requires Filed() && handle < |created| == |slots| && created[handle] == coord && slots[handle].south == None
      modifies this`slots
      ensures |slots| == |old(slots)|
      ensures forall k :: 0 <= k < |slots| ==> slots[k].east == old(slots)[k].east
      ensures forall k :: 0 <= k < |slots| ==>
                slots[k].south == if Lookup(created, coord.North()) == Some(k) then Some(handle)
                                  else if k == handle then Lookup(created, coord.South())
                                  else old(slots)[k].south
    {
      var north := FindChunk(coord.North());
      LookupExact(created, coord.North(), if north.Some? then north.value else 0);
      if north.Some? {
        slots := slots[north.value := slots[north.value].(south := Some(handle))];
      }
      var south := FindChunk(coord.South());
      if south.Some? {
        slots := slots[handle := slots[handle].(south := south)];
      }
    }

    method LinkWestEast(handle: nat, coord: Coord)
      requires Filed() && handle < |created| == |slots| && created[handle] == coord && slots[handle].east == None
      modifies this`slots
      ensures |slots| == |old(slots)|
      ensures forall k :: 0 <= k < |slots| ==> slots[k].south == old(slots)[k].south
      ensures forall k :: 0 <= k < |slots| ==>
                slots[k].east == if Lookup(created, coord.West()) == Some(k) then Some(handle)
                                 else if k == handle then Lookup(created, coord.East())
                                 else old(slots)[k].east
    {
      var west := FindChunk(coord.West());
      LookupExact(created, coord.West(), if west.Some? then west.value else 0);
      if west.Some? {
        slots := slots[west.value := slots[west.value].(east := Some(handle))];
      }
      var east := FindChunk(coord.East());
      if east.Some? {
        slots := slots[handle := slots[handle].(east := east)];
      }
    }
  }

  /** What the newest chunk changes in the links of an older one. */
  lemma NewNeighbor(created: seq<Coord>, k: nat)
    requires Distinct(created) && k < |created| - 1
    ensures var n := |created| - 1;
            var was, now := LinksOf(created[..n], created[k]), LinksOf(created, created[k]);
            && now.south == (if Lookup(created, created[n].North()) == Some(k) then Some(n) else was.south)
            && now.east == (if Lookup(created, created[n].West()) == Some(k) then Some(n) else was.east)
  {
    var n := |created| - 1;
    assert created == created[..n] + [created[n]];
    LookupExtend(created[..n], created[n], created[k].South());
    LookupExtend(created[..n], created[n], created[k].East());
    LookupExact(created, created[n].North(), k);
    LookupExact(created, created[n].West(), k);
  }
}
