/** The gathering of Combat::execute, src/combat.cpp: struck tiles in buckets, one for each chunk, and the plain loop. */
module AreaStrike {
  import opened Options
  import Chunks
  import ChunkGrids

  type Position = Chunks.Position
  type Coord = ChunkGrids.Coord

  const MAX_TILES: nat := 256

  datatype Being = Being(id: nat, kind: Chunks.Kind, position: Position)

  /** getCreatures may give no list at all; `top` is getTopCreature. */
  datatype Tile = Tile(creatures: Option<seq<Being>>, top: Option<nat>, casterStandsHere: bool) {
    function List(): seq<Being> {
      if creatures.None? then [] else creatures.value
    }
  }

  /** The arrays of one chunk, as the gathering reads them. */
  datatype ChunkView = ChunkView(beings: seq<Being>, xs: seq<nat>, ys: seq<nat>, zs: seq<nat>, players: nat, monsters: nat)

  datatype Scene = Scene(positions: seq<Position>, tiles: seq<Tile>, world: map<Coord, ChunkView>)

  datatype Config = Config(aggressive: bool, topTargetOnly: bool, selfOnly: bool, friendlyParty: bool, enemyParty: bool,
                           fraggedOnly: bool)

  /** What the strike asks of the rest of the server: who may be targeted, who is a partner, who carries a skull. */
  datatype Caster = Caster(id: nat, isPlayer: bool, valid: set<nat>, partners: set<nat>, skulled: set<nat>)

  // --------------------------------------------------------------------------------
  // Who may be struck
  // --------------------------------------------------------------------------------

  predicate IsStrikeable(config: Config, caster: Caster, b: Being, top: Option<nat>, onCasterTile: bool) {
    if config.topTargetOnly && (if onCasterTile then b.id != caster.id else Some(b.id) != top) then false
    else if config.selfOnly && b.id != caster.id then false
    else if config.fraggedOnly && !b.kind.Player? then false
    else if config.aggressive && ((!config.selfOnly && b.id == caster.id) || b.kind.Npc? || b.id !in caster.valid) then false
    else PassesParty(config, caster, b)
  }

  predicate PassesParty(config: Config, caster: Caster, b: Being) {
    if config.friendlyParty && b.id != caster.id && !caster.isPlayer then true
    else if config.friendlyParty && b.id != caster.id && (!b.kind.Player? || b.id !in caster.partners) then false
    else if config.enemyParty && b.id == caster.id then false
    else if config.enemyParty && caster.isPlayer && b.kind.Player? && b.id in caster.partners then false
    else config.fraggedOnly ==> b.kind.Player? && b.id in caster.skulled
  }

  /** The test of the bucketed branch, which knows neither a top creature nor the caster's tile. */
  function Strike(config: Config, caster: Caster): Being -> bool {
    (b: Being) => IsStrikeable(config, caster, b, None, false)
  }

  // --------------------------------------------------------------------------------
  // Whom the flags mean, each flag by itself
  // --------------------------------------------------------------------------------

  /** A strike meant for friends by a caster without a party: everyone but the caster is a friend, and nothing more is asked. */
  predicate Outsider(config: Config, caster: Caster, b: Being) {
    config.friendlyParty && !caster.isPlayer && b.id != caster.id
  }

  predicate IsPartner(caster: Caster, b: Being) {
    b.kind == Chunks.Player && b.id in caster.partners
  }

  /** Whom a strike means, top targets aside. */
  predicate Means(config: Config, caster: Caster, b: Being) {
    && (config.selfOnly ==> b.id == caster.id)
    && (config.aggressive ==> b.kind != Chunks.Npc && b.id in caster.valid && (b.id == caster.id ==> config.selfOnly))
    && (config.fraggedOnly ==> b.kind == Chunks.Player)
    && (Outsider(config, caster, b)
        || ((config.friendlyParty ==> b.id == caster.id || IsPartner(caster, b))
            && (config.enemyParty ==> b.id != caster.id && !(caster.isPlayer && IsPartner(caster, b)))
            && (config.fraggedOnly ==> b.id in caster.skulled)))
  }

  /** A top target is the caster on the caster's tile, and the tile's top creature elsewhere. */
  lemma StrikeableExactly(config: Config, caster: Caster, b: Being, top: Option<nat>, onCasterTile: bool)
    ensures IsStrikeable(config, caster, b, top, onCasterTile)
            <==> Means(config, caster, b)
                 && (config.topTargetOnly ==> if onCasterTile then b.id == caster.id else top == Some(b.id))
  {
  }

  /** Without flags everyone is meant. */
  lemma NoFlags(config: Config, caster: Caster, b: Being)
    requires !config.selfOnly && !config.aggressive && !config.fraggedOnly && !config.friendlyParty && !config.enemyParty
    ensures Means(config, caster, b)
  {
  }

  /** A player's strike at enemies spares the caster and the partners, and no one else whom the other flags allow. */
  lemma EnemyParty(config: Config, caster: Caster, b: Being)
    requires config.enemyParty && caster.isPlayer
    ensures Means(config, caster, b)
            <==> b.id != caster.id && !(b.kind.Player? && b.id in caster.partners) && Means(config.(enemyParty := false), caster, b)
  {
  }

  /** A player's strike for friends means the caster and the partners only. */
  lemma FriendlyParty(config: Config, caster: Caster, b: Being)
    requires config.friendlyParty && caster.isPlayer
    ensures Means(config, caster, b)
            <==> (b.id == caster.id || (b.kind.Player? && b.id in caster.partners)) && Means(config.(friendlyParty := false), caster, b)
  {
  }

  /** One by a monster means everyone else regardless of enemies and skulls, and the caster as without the flag. */
  lemma FriendlyMonster(config: Config, caster: Caster, b: Being)
    requires config.friendlyParty && !caster.isPlayer
    ensures b.id == caster.id ==> (Means(config, caster, b) <==> Means(config.(friendlyParty := false), caster, b))
    ensures b.id != caster.id ==>
              (Means(config, caster, b) <==>
               (config.fraggedOnly ==> b.kind.Player?)
               && Means(config.(friendlyParty := false, enemyParty := false, fraggedOnly := false), caster, b))
  {
  }

  /** A monster's strike at enemies spares the monster only. */
  lemma EnemyMonster(config: Config, caster: Caster, b: Being)
    requires config.enemyParty && !caster.isPlayer && !config.friendlyParty
    ensures Means(config, caster, b) <==> b.id != caster.id && Means(config.(enemyParty := false), caster, b)
  {
  }

  /** A strike at one's self; without the flag an aggressive one spares the caster. */
  lemma SelfOnly(config: Config, caster: Caster, b: Being)
    requires config.selfOnly
    ensures Means(config, caster, b)
            <==> b.id == caster.id
                 && (config.aggressive ==> !b.kind.Npc? && b.id in caster.valid)
                 && Means(config.(selfOnly := false, aggressive := false), caster, b)
  {
  }

  lemma Aggressive(config: Config, caster: Caster, b: Being)
    requires config.aggressive && !config.selfOnly
    ensures Means(config, caster, b)
            <==> b.id != caster.id && (b.kind.Player? || b.kind.Monster?) && b.id in caster.valid
                 && Means(config.(aggressive := false), caster, b)
  {
  }

  /** A strike at the fragged means players with a skull, and any player for a monster's friends. */
  lemma FraggedOnly(config: Config, caster: Caster, b: Being)
    requires config.fraggedOnly
    ensures Means(config, caster, b)
            <==> b.kind.Player? && (b.id in caster.skulled || (config.friendlyParty && !caster.isPlayer && b.id != caster.id))
                 && Means(config.(fraggedOnly := false), caster, b)
  {
  }

  function Filter(s: seq<Being>, strike: Being -> bool): seq<Being> {
    if s == [] then []
    else Filter(s[..|s| - 1], strike) + (if strike(s[|s| - 1]) then [s[|s| - 1]] else [])
  }

  /** f tells how often b occurs. */
  ghost predicate Counts(f: seq<Being> -> nat, b: Being) {
    && f([]) == 0
    && (forall x {:trigger f([x])} :: f([x]) == if x == b then 1 else 0)
    && (forall s, t {:trigger f(s + t)} :: f(s + t) == f(s) + f(t))
  }

  ghost function Counter(b: Being): (f: seq<Being> -> nat)
    ensures Counts(f, b) && forall s {:trigger f(s)} :: f(s) == multiset(s)[b]
  {
    (s: seq<Being>) => multiset(s)[b]
  }

  lemma {:induction false} FilterCount(f: seq<Being> -> nat, b: Being, s: seq<Being>, strike: Being -> bool)
    requires Counts(f, b)
    ensures f(Filter(s, strike)) == if strike(b) then f(s) else 0
  {
    if s != [] {
      FilterCount(f, b, s[..|s| - 1], strike);
      assert s == s[..|s| - 1] + [s[|s| - 1]];
    }
  }

  // --------------------------------------------------------------------------------
  // The plain loop: tile by tile
  // --------------------------------------------------------------------------------

  function TileByTile(tiles: seq<Tile>, strike: Being -> bool): seq<Being> {
    if tiles == [] then []
    else TileByTile(tiles[..|tiles| - 1], strike) + Filter(tiles[|tiles| - 1].List(), strike)
  }

  function TopOfEach(config: Config, caster: Caster, tiles: seq<Tile>): seq<Being> {
    if tiles == [] then []
    else
      var tile := tiles[|tiles| - 1];
      TopOfEach(config, caster, tiles[..|tiles| - 1])
      + Filter(tile.List(), b => IsStrikeable(config, caster, b, tile.top, tile.casterStandsHere))
  }

  lemma {:induction false} FilterExact(s: seq<Being>, strike: Being -> bool)
    ensures forall b :: b in Filter(s, strike) <==> b in s && strike(b)
  {
    if s != [] {
      FilterExact(s[..|s| - 1], strike);
      assert s == s[..|s| - 1] + [s[|s| - 1]];
    }
  }

  /** A creature that a tile lists as a top target whom the flags mean. */
  predicate TopTarget(config: Config, caster: Caster, tile: Tile, b: Being) {
    && tile.creatures.Some? && b in tile.creatures.value && Means(config, caster, b)
    && (if tile.casterStandsHere then b.id == caster.id else tile.top == Some(b.id))
  }

  /** Top targets are gathered tile by tile, and no one else. */
  lemma {:induction false} TopsExactly(config: Config, caster: Caster, tiles: seq<Tile>)
    requires config.topTargetOnly
    ensures forall b :: b in TopOfEach(config, caster, tiles) <==>
              exists i :: 0 <= i < |tiles| && TopTarget(config, caster, tiles[i], b)
  {
    if tiles != [] {
      var n := |tiles| - 1;
      var tile := tiles[n];
      TopsExactly(config, caster, tiles[..n]);
      FilterExact(tile.List(), b => IsStrikeable(config, caster, b, tile.top, tile.casterStandsHere));
      forall b ensures b in TopOfEach(config, caster, tiles) <==>
                         exists i :: 0 <= i < |tiles| && TopTarget(config, caster, tiles[i], b)
      {
        StrikeableExactly(config, caster, b, tile.top, tile.casterStandsHere);
        TopsLast(config, caster, tiles, b);
      }
    }
  }

  lemma TopsLast(config: Config, caster: Caster, tiles: seq<Tile>, b: Being)
    requires tiles != []
    ensures var n := |tiles| - 1;
            (exists i :: 0 <= i < |tiles| && TopTarget(config, caster, tiles[i], b))
            <==> TopTarget(config, caster, tiles[n], b) || exists i :: 0 <= i < n && TopTarget(config, caster, tiles[..n][i], b)
  {
    var n := |tiles| - 1;
    if i :| 0 <= i < n && TopTarget(config, caster, tiles[i], b) {
      assert TopTarget(config, caster, tiles[..n][i], b);
    }
  }

  // --------------------------------------------------------------------------------
  // Buckets
  // --------------------------------------------------------------------------------

  /** ToChunkCoord. */
  function CoordOf(p: Position): Coord {
    ChunkGrids.Coord(p.x / ChunkGrids.FLOOR_SIZE, p.y / ChunkGrids.FLOOR_SIZE)
  }

  /** The tile's bit in the mask of its floor: x & Mask and y & Mask are the remainders by 8. */
  function BitOf(x: nat, y: nat): nat {
    (y % ChunkGrids.FLOOR_SIZE) * ChunkGrids.FLOOR_SIZE + x % ChunkGrids.FLOOR_SIZE
  }

  /** A chunk is the square of eight by eight tiles that its coordinates say, and the bits go along its rows. */
  lemma PlaceInChunk(p: Position)
    ensures var c := CoordOf(p);
            && 0 <= p.x - 8 * c.x < 8 && 0 <= p.y - 8 * c.y < 8
            && BitOf(p.x, p.y) == 8 * (p.y - 8 * c.y) + (p.x - 8 * c.x)
  {
  }

  /** Within a chunk the bit tells the tile, and 64 bits are enough. */
  lemma BitTellsTile(p: Position, q: Position)
    requires CoordOf(p) == CoordOf(q) && BitOf(p.x, p.y) == BitOf(q.x, q.y)
    ensures p.x == q.x && p.y == q.y && BitOf(p.x, p.y) < 64
  {
    assert p.x == (p.x / 8) * 8 + p.x % 8 && q.x == (q.x / 8) * 8 + q.x % 8;
    assert p.y == (p.y / 8) * 8 + p.y % 8 && q.y == (q.y / 8) * 8 + q.y % 8;
  }

  /** The chunk of each position, if the grid has one. */
  function ChunkAt(world: map<Coord, ChunkView>, p: Position): Option<Coord> {
    if CoordOf(p) in world then Some(CoordOf(p)) else None
  }

  function ChunksOf(world: map<Coord, ChunkView>, positions: seq<Position>): seq<Option<Coord>> {
    seq(|positions|, i requires 0 <= i < |positions| => ChunkAt(world, positions[i]))
  }

  /** The set bits of one 64-bit mask per floor. */
  datatype Bucket = Bucket(chunk: Coord, tileCount: nat, mask: seq<set<nat>>) {
    predicate Shows(x: nat, y: nat, z: nat) {
      z < |mask| && BitOf(x, y) in mask[z]
    }
  }

  function NewBucket(chunk: Coord): Bucket {
    Bucket(chunk, 0, seq(Chunks.MAX_LAYERS, _ => {}))
  }

  function AddTile(b: Bucket, p: Position): (b': Bucket)
    requires p.z < |b.mask|
    ensures |b'.mask| == |b.mask|
  {
    Bucket(b.chunk, b.tileCount + 1, b.mask[p.z := b.mask[p.z] + {BitOf(p.x, p.y)}])
  }

  predicate OnMap(positions: seq<Position>) {
    forall i :: 0 <= i < |positions| ==> positions[i].z < Chunks.MAX_LAYERS
  }

  /** The bucket that the positions fill for one chunk. */
  function BucketOf(chunk: Coord, world: map<Coord, ChunkView>, positions: seq<Position>): (b: Bucket)
    requires OnMap(positions)
    ensures b.chunk == chunk && |b.mask| == Chunks.MAX_LAYERS
  {
    if positions == [] then NewBucket(chunk)
    else
      var before := BucketOf(chunk, world, positions[..|positions| - 1]);
      var p := positions[|positions| - 1];
      if ChunkAt(world, p) == Some(chunk) then AddTile(before, p) else before
  }

  /** The positions over one chunk. */
  function Over(chunk: Coord, positions: seq<Position>): set<nat> {
    set i | 0 <= i < |positions| && CoordOf(positions[i]) == chunk
  }

  /** The count is that of the struck positions of the chunk, repeated ones included. */
  lemma {:induction false} TileCountExact(chunk: Coord, world: map<Coord, ChunkView>, positions: seq<Position>)
    requires OnMap(positions) && chunk in world
    ensures BucketOf(chunk, world, positions).tileCount == |Over(chunk, positions)|
  {
    if positions != [] {
      var n := |positions| - 1;
      TileCountExact(chunk, world, positions[..n]);
      assert Over(chunk, positions[..n]) == Over(chunk, positions) - {n};
    }
  }

  /** Some position of this chunk is p. */
  ghost predicate Struck(chunk: Coord, world: map<Coord, ChunkView>, positions: seq<Position>, p: Position) {
    p in positions && ChunkAt(world, p) == Some(chunk)
  }

  /** Within its chunk the mask shows exactly the struck tiles. */
  lemma {:induction false} MaskExact(chunk: Coord, world: map<Coord, ChunkView>, positions: seq<Position>, p: Position)
    requires OnMap(positions) && CoordOf(p) == chunk && chunk in world
    ensures BucketOf(chunk, world, positions).Shows(p.x, p.y, p.z) <==> Struck(chunk, world, positions, p)
  {
    if positions != [] {
      var last := positions[|positions| - 1];
      MaskExact(chunk, world, positions[..|positions| - 1], p);
      assert positions == positions[..|positions| - 1] + [last];
      if ChunkAt(world, last) == Some(chunk) && last.z == p.z && BitOf(last.x, last.y) == BitOf(p.x, p.y) {
        BitTellsTile(last, p);
      }
    }
  }

  // --------------------------------------------------------------------------------
  // One bucket, served in either way
  // --------------------------------------------------------------------------------

  /** A chunk lists its creatures at their positions, players before monsters before NPCs. */
  predicate WellFormed(chunk: Coord, view: ChunkView) {
    && Located(view)
    && (forall k :: 0 <= k < |view.beings| ==> CoordOf(view.beings[k].position) == chunk)
    && Chunks.Partition(Kinds(view.beings), view.players, view.monsters)
  }

  predicate Located(view: ChunkView) {
    && |view.xs| == |view.ys| == |view.zs| == |view.beings|
    && (forall k :: 0 <= k < |view.beings| ==>
          view.beings[k].position == Chunks.Position(view.xs[k], view.ys[k], view.zs[k]))
  }

  function Kinds(beings: seq<Being>): seq<Chunks.Kind> {
    seq(|beings|, k requires 0 <= k < |beings| => beings[k].kind)
  }

  /** The lengths that the scan reads by. */
  predicate Parallel(view: ChunkView) {
    |view.xs| == |view.ys| == |view.zs| == |view.beings|
  }

  /** How many creatures a scan looks at: players and monsters only, for an aggressive strike. */
  function ScanLength(aggressive: bool, view: ChunkView): nat {
    if aggressive then view.players + view.monsters else |view.beings|
  }

  function Scan(view: ChunkView, bucket: Bucket, strike: Being -> bool, k: nat): seq<Being>
    requires Parallel(view) && k <= |view.beings|
  {
    if k == 0 then []
    else
      Scan(view, bucket, strike, k - 1)
      + (if bucket.Shows(view.xs[k - 1], view.ys[k - 1], view.zs[k - 1]) && strike(view.beings[k - 1])
         then [view.beings[k - 1]] else [])
  }

  function Walk(chunks: seq<Option<Coord>>, tiles: seq<Tile>, chunk: Coord, strike: Being -> bool): seq<Being>
    requires |chunks| == |tiles|
  {
    if tiles == [] then []
    else
      var n := |tiles| - 1;
      Walk(chunks[..n], tiles[..n], chunk, strike)
      + (if chunks[n] == Some(chunk) then Filter(tiles[n].List(), strike) else [])
  }

  lemma {:induction false} ScanCount(f: seq<Being> -> nat, b: Being, view: ChunkView, bucket: Bucket,
                                     strike: Being -> bool, k: nat)
    requires Counts(f, b) && Located(view) && k <= |view.beings|
    ensures f(Scan(view, bucket, strike, k)) ==
            if strike(b) && bucket.Shows(b.position.x, b.position.y, b.position.z) then f(view.beings[..k]) else 0
  {
    if k > 0 {
      ScanCount(f, b, view, bucket, strike, k - 1);
      assert view.beings[..k] == view.beings[..k - 1] + [view.beings[k - 1]];
    }
  }

  lemma {:induction false} Absent(f: seq<Being> -> nat, b: Being, s: seq<Being>)
    requires Counts(f, b) && b !in s
    ensures f(s) == 0
  {
    if s != [] {
      Absent(f, b, s[..|s| - 1]);
      assert s == s[..|s| - 1] + [s[|s| - 1]];
    }
  }

  /** Beyond the players and monsters there are only NPCs. */
  lemma PrefixCount(f: seq<Being> -> nat, b: Being, chunk: Coord, view: ChunkView, aggressive: bool)
    requires Counts(f, b) && WellFormed(chunk, view) && (aggressive ==> !b.kind.Npc?)
    ensures f(view.beings[..ScanLength(aggressive, view)]) == f(view.beings)
  {
    var k := ScanLength(aggressive, view);
    assert view.beings == view.beings[..k] + view.beings[k..];
    forall j | k <= j < |view.beings| ensures view.beings[j] != b {
      assert Kinds(view.beings)[j].Npc?;
    }
    Absent(f, b, view.beings[k..]);
  }

  // --------------------------------------------------------------------------------
  // What both must find
  // --------------------------------------------------------------------------------

  predicate Distinct(positions: seq<Position>) {
    forall i, j :: 0 <= i < j < |positions| ==> positions[i] != positions[j]
  }

  ghost predicate WellFormedWorld(world: map<Coord, ChunkView>) {
    forall c :: c in world ==> WellFormed(c, world[c])
  }

  /** The creatures that the chunk over b's position files. */
  function FiledNear(world: map<Coord, ChunkView>, b: Being): seq<Being> {
    if CoordOf(b.position) in world then world[CoordOf(b.position)].beings else []
  }

  /** Each struck tile holds exactly the creatures that its chunk files at its position. */
  ghost predicate Agrees(world: map<Coord, ChunkView>, positions: seq<Position>, tiles: seq<Tile>) {
    && |positions| == |tiles|
    && (forall i, b :: 0 <= i < |positions| ==>
          multiset(tiles[i].List())[b] == if b.position == positions[i] then multiset(FiledNear(world, b))[b] else 0)
  }

  /** The same for one creature. */
  ghost predicate AgreesOn(f: seq<Being> -> nat, b: Being, world: map<Coord, ChunkView>, positions: seq<Position>,
                           tiles: seq<Tile>)
  {
    && |positions| == |tiles|
    && (forall i :: 0 <= i < |positions| ==>
          f(tiles[i].List()) == if b.position == positions[i] then f(FiledNear(world, b)) else 0)
  }

  /** Every strikeable creature on a struck tile, as often as its chunk files it. */
  function Due(f: seq<Being> -> nat, b: Being, world: map<Coord, ChunkView>, positions: seq<Position>,
               strike: Being -> bool): nat
  {
    if strike(b) && b.position in positions then f(FiledNear(world, b)) else 0
  }

  lemma DueStep(f: seq<Being> -> nat, b: Being, world: map<Coord, ChunkView>, positions: seq<Position>, strike: Being -> bool)
    requires positions != [] && Distinct(positions)
    ensures Due(f, b, world, positions, strike)
         == Due(f, b, world, positions[..|positions| - 1], strike)
            + (if strike(b) && b.position == positions[|positions| - 1] then f(FiledNear(world, b)) else 0)
  {
    assert positions == positions[..|positions| - 1] + [positions[|positions| - 1]];
  }

  lemma {:induction false} TileByTileCount(f: seq<Being> -> nat, b: Being, world: map<Coord, ChunkView>,
                                           positions: seq<Position>, tiles: seq<Tile>, strike: Being -> bool)
    requires Counts(f, b) && AgreesOn(f, b, world, positions, tiles) && Distinct(positions)
    ensures f(TileByTile(tiles, strike)) == Due(f, b, world, positions, strike)
  {
    if tiles != [] {
      var n := |tiles| - 1;
      TileByTileCount(f, b, world, positions[..n], tiles[..n], strike);
      FilterCount(f, b, tiles[n].List(), strike);
      DueStep(f, b, world, positions, strike);
    }
  }

  /** What a gathering must find: each creature meant on a struck tile, as often as its chunk files it. */
  lemma PlainFinds(world: map<Coord, ChunkView>, positions: seq<Position>, tiles: seq<Tile>, config: Config, caster: Caster)
    requires Agrees(world, positions, tiles) && Distinct(positions) && !config.topTargetOnly
    ensures forall b :: multiset(TileByTile(tiles, Strike(config, caster)))[b]
                        == if Means(config, caster, b) && b.position in positions then multiset(FiledNear(world, b))[b] else 0
  {
    forall b ensures multiset(TileByTile(tiles, Strike(config, caster)))[b]
                     == if Means(config, caster, b) && b.position in positions then multiset(FiledNear(world, b))[b] else 0
    {
      StrikeableExactly(config, caster, b, None, false);
      TileByTileCount(Counter(b), b, world, positions, tiles, Strike(config, caster));
    }
  }

  lemma WalkStep(chunks: seq<Option<Coord>>, tiles: seq<Tile>, chunk: Coord, strike: Being -> bool,
                 at: Option<Coord>, tile: Tile)
    requires |chunks| == |tiles|
    ensures Walk(chunks + [at], tiles + [tile], chunk, strike)
         == Walk(chunks, tiles, chunk, strike) + (if at == Some(chunk) then Filter(tile.List(), strike) else [])
  {
    assert (chunks + [at])[..|tiles|] == chunks && (tiles + [tile])[..|tiles|] == tiles;
  }

  /** One more position and its tile. */
  lemma WalkLast(world: map<Coord, ChunkView>, positions: seq<Position>, tiles: seq<Tile>, chunk: Coord, strike: Being -> bool)
    requires |positions| == |tiles| && tiles != []
    ensures var n := |tiles| - 1;
            Walk(ChunksOf(world, positions), tiles, chunk, strike)
            == Walk(ChunksOf(world, positions[..n]), tiles[..n], chunk, strike)
               + (if ChunkAt(world, positions[n]) == Some(chunk) then Filter(tiles[n].List(), strike) else [])
  {
    var n := |tiles| - 1;
    WalkStep(ChunksOf(world, positions[..n]), tiles[..n], chunk, strike, ChunkAt(world, positions[n]), tiles[n]);
    assert ChunksOf(world, positions) == ChunksOf(world, positions[..n]) + [ChunkAt(world, positions[n])];
    assert tiles == tiles[..n] + [tiles[n]];
  }

  lemma {:induction false} WalkCount(f: seq<Being> -> nat, b: Being, world: map<Coord, ChunkView>,
                                     positions: seq<Position>, tiles: seq<Tile>, chunk: Coord, strike: Being -> bool)
    requires Counts(f, b) && AgreesOn(f, b, world, positions, tiles) && Distinct(positions)
    ensures f(Walk(ChunksOf(world, positions), tiles, chunk, strike)) ==
            if CoordOf(b.position) == chunk then Due(f, b, world, positions, strike) else 0
  {
    if tiles != [] {
      var n := |tiles| - 1;
      WalkCount(f, b, world, positions[..n], tiles[..n], chunk, strike);
      FilterCount(f, b, tiles[n].List(), strike);
      DueStep(f, b, world, positions, strike);
      WalkLast(world, positions, tiles, chunk, strike);
    }
  }

  /** The scan finds the same: the mask shows the struck tiles, and the creatures it skips are not strikeable. */
  lemma ScanFinds(f: seq<Being> -> nat, b: Being, world: map<Coord, ChunkView>, positions: seq<Position>, chunk: Coord,
                  aggressive: bool, strike: Being -> bool)
    requires Counts(f, b) && WellFormedWorld(world) && OnMap(positions) && chunk in world
    requires aggressive && strike(b) ==> !b.kind.Npc?
    ensures ScanLength(aggressive, world[chunk]) <= |world[chunk].beings|
    ensures f(Scan(world[chunk], BucketOf(chunk, world, positions), strike, ScanLength(aggressive, world[chunk]))) ==
            if CoordOf(b.position) == chunk then Due(f, b, world, positions, strike) else 0
  {
    var view, bucket, k := world[chunk], BucketOf(chunk, world, positions), ScanLength(aggressive, world[chunk]);
    assert WellFormed(chunk, view);
    ScanCount(f, b, view, bucket, strike, k);
    if CoordOf(b.position) != chunk {
      Absent(f, b, view.beings[..k]);
    } else if strike(b) {
      MaskExact(chunk, world, positions, b.position);
      PrefixCount(f, b, chunk, view, aggressive);
    }
  }

  // --------------------------------------------------------------------------------
  // All buckets
  // --------------------------------------------------------------------------------

  /** What the scan loop may index by. */
  predicate Readable(world: map<Coord, ChunkView>) {
    forall c :: c in world ==> Parallel(world[c]) && world[c].players + world[c].monsters <= |world[c].beings|
  }

  /** Whichever way is the shorter one. */
  function Serve(world: map<Coord, ChunkView>, positions: seq<Position>, tiles: seq<Tile>, aggressive: bool,
                 strike: Being -> bool, bucket: Bucket): seq<Being>
    requires Readable(world) && |positions| == |tiles| && bucket.chunk in world
  {
    var view := world[bucket.chunk];
    if ScanLength(aggressive, view) < bucket.tileCount
    then Scan(view, bucket, strike, ScanLength(aggressive, view))
    else Walk(ChunksOf(world, positions), tiles, bucket.chunk, strike)
  }

  function ServeAll(serve: Bucket -> seq<Being>, buckets: seq<Bucket>): seq<Being> {
    if buckets == [] then []
    else ServeAll(serve, buckets[..|buckets| - 1]) + serve(buckets[|buckets| - 1])
  }

  /** One bucket's share of the targets, as a function of the bucket. */
  function Serving(world: map<Coord, ChunkView>, positions: seq<Position>, tiles: seq<Tile>, config: Config,
                   caster: Caster): Bucket -> seq<Being>
    requires Readable(world) && |positions| == |tiles|
  {
    (bucket: Bucket) =>
      if bucket.chunk in world
      then Serve(world, positions, tiles, config.aggressive, Strike(config, caster), bucket) else []
  }

  /** The filled buckets: one for each chunk under a struck position, in any order. */
  ghost predicate BucketsFor(buckets: seq<Bucket>, world: map<Coord, ChunkView>, positions: seq<Position>)
    requires OnMap(positions)
  {
    && (forall j :: 0 <= j < |buckets| ==>
          buckets[j].chunk in world && buckets[j] == BucketOf(buckets[j].chunk, world, positions))
    && (forall j, k :: 0 <= j < k < |buckets| ==> buckets[j].chunk != buckets[k].chunk)
    && (forall i :: 0 <= i < |positions| && CoordOf(positions[i]) in world ==> Covers(buckets, CoordOf(positions[i])))
  }

  ghost predicate Covers(buckets: seq<Bucket>, chunk: Coord) {
    exists j :: 0 <= j < |buckets| && buckets[j].chunk == chunk
  }

  /** Each bucket yields the due creatures of its own chunk, so all of them together yield them once. */
  lemma {:induction false} ServeAllCount(f: seq<Being> -> nat, b: Being, serve: Bucket -> seq<Being>, buckets: seq<Bucket>, due: nat)
    requires Counts(f, b)
    requires forall j :: 0 <= j < |buckets| ==>
               f(serve(buckets[j])) == if CoordOf(b.position) == buckets[j].chunk then due else 0
    requires forall j, k :: 0 <= j < k < |buckets| ==> buckets[j].chunk != buckets[k].chunk
    ensures f(ServeAll(serve, buckets)) == if Covers(buckets, CoordOf(b.position)) then due else 0
  {
    if buckets != [] {
      var n := |buckets| - 1;
      ServeAllCount(f, b, serve, buckets[..n], due);
      CoversLast(buckets, CoordOf(b.position));
    }
  }

  lemma CoversLast(buckets: seq<Bucket>, chunk: Coord)
    requires buckets != []
    ensures var n := |buckets| - 1;
            Covers(buckets, chunk) <==> Covers(buckets[..n], chunk) || buckets[n].chunk == chunk
  {
    var n := |buckets| - 1;
    if j :| 0 <= j < n && buckets[j].chunk == chunk {
      assert buckets[..n][j].chunk == chunk;
    }
  }

  /**
   The bucketed gathering yields what the plain loop yields, whichever way each bucket goes:
   for distinct positions and chunks that are partitioned and agree with their tiles.
   */
  lemma GatheredIsPlain(world: map<Coord, ChunkView>, positions: seq<Position>, tiles: seq<Tile>, config: Config,
                        caster: Caster, buckets: seq<Bucket>, serve: Bucket -> seq<Being>)
    requires OnMap(positions) && Distinct(positions) && Readable(world) && WellFormedWorld(world)
    requires Agrees(world, positions, tiles) && BucketsFor(buckets, world, positions)
    requires forall j :: 0 <= j < |buckets| ==>
               serve(buckets[j]) == Serve(world, positions, tiles, config.aggressive, Strike(config, caster), buckets[j])
    ensures multiset(ServeAll(serve, buckets)) == multiset(TileByTile(tiles, Strike(config, caster)))
  {
    forall b ensures multiset(ServeAll(serve, buckets))[b] == multiset(TileByTile(tiles, Strike(config, caster)))[b] {
      CountsAgree(Counter(b), b, world, positions, tiles, config.aggressive, Strike(config, caster), buckets, serve);
    }
  }

  lemma CountsAgree(f: seq<Being> -> nat, b: Being, world: map<Coord, ChunkView>, positions: seq<Position>,
                    tiles: seq<Tile>, aggressive: bool, strike: Being -> bool, buckets: seq<Bucket>,
                    serve: Bucket -> seq<Being>)
    requires Counts(f, b) && AgreesOn(f, b, world, positions, tiles)
    requires OnMap(positions) && Distinct(positions) && Readable(world) && WellFormedWorld(world)
    requires BucketsFor(buckets, world, positions)
    requires aggressive && strike(b) ==> !b.kind.Npc?
    requires forall j :: 0 <= j < |buckets| ==>
               serve(buckets[j]) == Serve(world, positions, tiles, aggressive, strike, buckets[j])
    ensures f(ServeAll(serve, buckets)) == f(TileByTile(tiles, strike))
  {
    var due := Due(f, b, world, positions, strike);
    forall j | 0 <= j < |buckets|
      ensures f(serve(buckets[j])) == if CoordOf(b.position) == buckets[j].chunk then due else 0
    {
      ScanFinds(f, b, world, positions, buckets[j].chunk, aggressive, strike);
      WalkCount(f, b, world, positions, tiles, buckets[j].chunk, strike);
    }
    ServeAllCount(f, b, serve, buckets, due);
    TileByTileCount(f, b, world, positions, tiles, strike);
  }

  // --------------------------------------------------------------------------------
  // The loops
  // --------------------------------------------------------------------------------

  method FindBucket(buckets: seq<Bucket>, chunk: Coord) returns (k: nat)
    ensures k <= |buckets| && (k < |buckets| ==> buckets[k].chunk == chunk)
    ensures k == |buckets| ==> !Covers(buckets, chunk)
  {
    k := 0;
    while k < |buckets|
      invariant k <= |buckets|
      invariant forall j :: 0 <= j < k ==> buckets[j].chunk != chunk
    {
      if buckets[k].chunk == chunk {
        return;
      }
      k := k + 1;
    }
  }

  /** Fills the buckets, one position at a time. */
  method FillBuckets(world: map<Coord, ChunkView>, positions: seq<Position>)
    returns (buckets: seq<Bucket>, chunks: seq<Option<Coord>>)
    requires OnMap(positions)
    ensures BucketsFor(buckets, world, positions) && chunks == ChunksOf(world, positions)
  {
    buckets, chunks := [], [];
    var i := 0;
    while i < |positions|
      invariant i <= |positions| && chunks == ChunksOf(world, positions[..i])
      invariant BucketsFor(buckets, world, positions[..i])
    {
      var chunk := ChunkAt(world, positions[i]);
      chunks := chunks + [chunk];
      if chunk.Some? {
        var k := FindBucket(buckets, chunk.value);
        if k == |buckets| {
          Uncovered(buckets, world, positions[..i], chunk.value);
          buckets := buckets + [NewBucket(chunk.value)];
        }
        NextPosition(buckets, k, world, positions, i);
        buckets := buckets[k := AddTile(buckets[k], positions[i])];
      } else {
        NoChunk(buckets, world, positions, i);
      }
      i := i + 1;
    }
    assert positions[..i] == positions;
  }

  lemma {:induction false} Uncovered(buckets: seq<Bucket>, world: map<Coord, ChunkView>, positions: seq<Position>, chunk: Coord)
    requires OnMap(positions) && BucketsFor(buckets, world, positions) && !Covers(buckets, chunk) && chunk in world
    ensures BucketsFor(buckets + [NewBucket(chunk)], world, positions)
  {
    forall i | 0 <= i < |positions| ensures ChunkAt(world, positions[i]) != Some(chunk) {
    }
    Empty(chunk, world, positions);
    CoversMore(buckets, buckets + [NewBucket(chunk)]);
    forall j | 0 <= j < |buckets| ensures buckets[j].chunk != chunk {
    }
  }

  lemma {:induction false} Empty(chunk: Coord, world: map<Coord, ChunkView>, positions: seq<Position>)
    requires OnMap(positions) && forall i :: 0 <= i < |positions| ==> ChunkAt(world, positions[i]) != Some(chunk)
    ensures BucketOf(chunk, world, positions) == NewBucket(chunk)
  {
    if positions != [] {
      Empty(chunk, world, positions[..|positions| - 1]);
    }
  }

  /** Buckets with the same chunks cover the same. */
  lemma CoversMore(buckets: seq<Bucket>, buckets': seq<Bucket>)
    requires |buckets| <= |buckets'| && forall j :: 0 <= j < |buckets| ==> buckets[j].chunk == buckets'[j].chunk
    ensures forall c :: Covers(buckets, c) ==> Covers(buckets', c)
  {
    forall c | Covers(buckets, c) ensures Covers(buckets', c) {
      var j :| 0 <= j < |buckets| && buckets[j].chunk == c;
      assert buckets'[j].chunk == c;
    }
  }

  lemma NextPosition(buckets: seq<Bucket>, k: nat, world: map<Coord, ChunkView>, positions: seq<Position>, i: nat)
    requires OnMap(positions) && i < |positions| && BucketsFor(buckets, world, positions[..i])
    requires k < |buckets| && ChunkAt(world, positions[i]) == Some(buckets[k].chunk)
    ensures BucketsFor(buckets[k := AddTile(buckets[k], positions[i])], world, positions[..i + 1])
  {
    var buckets' := buckets[k := AddTile(buckets[k], positions[i])];
    assert positions[..i + 1][..i] == positions[..i];
    CoversMore(buckets, buckets');
    assert buckets'[k].chunk == CoordOf(positions[i]);
    forall l | 0 <= l < i + 1 && CoordOf(positions[l]) in world ensures Covers(buckets', CoordOf(positions[l])) {
      if l < i {
        assert positions[..i][l] == positions[l];
      }
    }
  }

  lemma NoChunk(buckets: seq<Bucket>, world: map<Coord, ChunkView>, positions: seq<Position>, i: nat)
    requires OnMap(positions) && i < |positions| && BucketsFor(buckets, world, positions[..i])
    requires ChunkAt(world, positions[i]) == None
    ensures BucketsFor(buckets, world, positions[..i + 1])
  {
    assert positions[..i + 1][..i] == positions[..i];
    forall l | 0 <= l < i + 1 && CoordOf(positions[l]) in world ensures Covers(buckets, CoordOf(positions[l])) {
      assert positions[..i][l] == positions[l];
    }
  }

  method ScanBucket(view: ChunkView, bucket: Bucket, strike: Being -> bool, length: nat) returns (found: seq<Being>)
    requires Parallel(view) && length <= |view.beings|
    ensures found == Scan(view, bucket, strike, length)
  {
    found := [];
    for k := 0 to length
      invariant found == Scan(view, bucket, strike, k)
    {
      if bucket.Shows(view.xs[k], view.ys[k], view.zs[k]) && strike(view.beings[k]) {
        found := found + [view.beings[k]];
      }
    }
  }

  method StrikeTile(list: seq<Being>, strike: Being -> bool) returns (found: seq<Being>)
    ensures found == Filter(list, strike)
  {
    found := [];
    for k := 0 to |list|
      invariant found == Filter(list[..k], strike)
    {
      assert list[..k + 1][..k] == list[..k];
      if strike(list[k]) {
        found := found + [list[k]];
      }
    }
    assert list[..|list|] == list;
  }

  method WalkBucket(chunks: seq<Option<Coord>>, tiles: seq<Tile>, chunk: Coord, strike: Being -> bool)
    returns (found: seq<Being>)
    requires |chunks| == |tiles|
    ensures found == Walk(chunks, tiles, chunk, strike)
  {
    found := [];
    for i := 0 to |tiles|
      invariant found == Walk(chunks[..i], tiles[..i], chunk, strike)
    {
      assert chunks[..i + 1][..i] == chunks[..i] && tiles[..i + 1][..i] == tiles[..i];
      if chunks[i] == Some(chunk) && tiles[i].creatures.Some? {
        var struck := StrikeTile(tiles[i].creatures.value, strike);
        found := found + struck;
      }
    }
    assert chunks[..|tiles|] == chunks && tiles[..|tiles|] == tiles;
  }

  /** The plain branch, for a strike at the top creatures only. */
  method GatherTops(config: Config, caster: Caster, tiles: seq<Tile>) returns (targets: seq<Being>)
    ensures targets == TopOfEach(config, caster, tiles)
  {
    targets := [];
    for i := 0 to |tiles|
      invariant targets == TopOfEach(config, caster, tiles[..i])
    {
      assert tiles[..i + 1][..i] == tiles[..i];
      if tiles[i].creatures.Some? {
        var tile := tiles[i];
        var struck := StrikeTile(tile.creatures.value,
                                 b => IsStrikeable(config, caster, b, tile.top, tile.casterStandsHere));
        targets := targets + struck;
      }
    }
    assert tiles[..|tiles|] == tiles;
  }

  method GatherBuckets(config: Config, caster: Caster, world: map<Coord, ChunkView>, positions: seq<Position>,
                       tiles: seq<Tile>) returns (targets: seq<Being>)
    requires Readable(world) && OnMap(positions) && |positions| == |tiles|
    ensures exists buckets :: BucketsFor(buckets, world, positions)
                              && targets == ServeAll(Serving(world, positions, tiles, config, caster), buckets)
    ensures Distinct(positions) && WellFormedWorld(world) && Agrees(world, positions, tiles) ==>
              multiset(targets) == multiset(TileByTile(tiles, Strike(config, caster)))
  {
    var strike := Strike(config, caster);
    var buckets, chunks := FillBuckets(world, positions);
    ghost var serve := Serving(world, positions, tiles, config, caster);
    targets := [];
    for j := 0 to |buckets|
      invariant targets == ServeAll(serve, buckets[..j])
    {
      assert buckets[..j + 1][..j] == buckets[..j];
      var view := world[buckets[j].chunk];
      var length := ScanLength(config.aggressive, view);
      var found;
      if length < buckets[j].tileCount {
        found := ScanBucket(view, buckets[j], strike, length);
      } else {
        found := WalkBucket(chunks, tiles, buckets[j].chunk, strike);
      }
      targets := targets + found;
    }
    assert buckets[..|buckets|] == buckets;
    if Distinct(positions) && WellFormedWorld(world) && Agrees(world, positions, tiles) {
      GatheredIsPlain(world, positions, tiles, config, caster, buckets, serve);
    }
  }

  /**
   The first 256 tiles are struck, the rest is ignored. Who is gathered from them is exactly whom the flags mean, as often
   as the chunks file them, and for a strike at top targets who is one on some tile.
   */
  method Gather(config: Config, caster: Caster, world: map<Coord, ChunkView>, positions: seq<Position>,
                tiles: seq<Tile>) returns (targets: seq<Being>)
    requires Readable(world) && OnMap(positions) && |positions| == |tiles|
    ensures var n := if |tiles| < 256 then |tiles| else 256;
            && (config.topTargetOnly ==>
                  targets == TopOfEach(config, caster, tiles[..n])
                  && forall b :: b in targets <==> exists i :: 0 <= i < n && TopTarget(config, caster, tiles[i], b))
            && (!config.topTargetOnly && Distinct(positions[..n]) && WellFormedWorld(world)
                && Agrees(world, positions[..n], tiles[..n]) ==>
                  && multiset(targets) == multiset(TileByTile(tiles[..n], Strike(config, caster)))
                  && forall b :: multiset(targets)[b]
                       == if Means(config, caster, b) && b.position in positions[..n] then multiset(FiledNear(world, b))[b] else 0)
  {
    var n := if |tiles| < MAX_TILES then |tiles| else MAX_TILES;
    if config.topTargetOnly {
      targets := GatherTops(config, caster, tiles[..n]);
      TopsExactly(config, caster, tiles[..n]);
    } else {
      targets := GatherBuckets(config, caster, world, positions[..n], tiles[..n]);
      if Distinct(positions[..n]) && WellFormedWorld(world) && Agrees(world, positions[..n], tiles[..n]) {
        PlainFinds(world, positions[..n], tiles[..n], config, caster);
      }
    }
  }

  // --------------------------------------------------------------------------------
  // The chunks that the strike reads
  // --------------------------------------------------------------------------------

  /** What the strike sees of a chunk, its creatures told apart by `id`. */
  ghost function ViewOf(chunk: Chunks.Chunk, id: Chunks.Creature -> nat): ChunkView
    reads chunk, chunk.creatures
  {
    var cs := chunk.creatures;
    ChunkView(seq(|cs|, k requires 0 <= k < |cs| reads cs => Being(id(cs[k]), cs[k].kind, cs[k].position)),
              chunk.xs, chunk.ys, chunk.zs, chunk.playerCount, chunk.monsterCount)
  }

  /** A valid chunk whose rows hold its creatures' positions is what the strike relies on. */
  lemma ValidChunkServes(chunk: Chunks.Chunk, id: Chunks.Creature -> nat, coord: Coord)
    requires chunk.Valid() && chunk.Located()
    requires forall k :: 0 <= k < |chunk.creatures| ==> CoordOf(chunk.creatures[k].position) == coord
    ensures WellFormed(coord, ViewOf(chunk, id)) && Readable(map[coord := ViewOf(chunk, id)])
  {
    var view := ViewOf(chunk, id);
    assert Kinds(view.beings) == chunk.Kinds();
  }

  // --------------------------------------------------------------------------------
  // Exactly when the bucketed gathering is the plain loop
  // --------------------------------------------------------------------------------

  /** On every well-formed world with tiles to match, every strike gathers the plain loop's targets at these positions. */
  ghost predicate AlwaysPlain(positions: seq<Position>)
    requires OnMap(positions)
  {
    forall world, tiles, config, caster, buckets ::
      Readable(world) && WellFormedWorld(world) && Agrees(world, positions, tiles)
      && BucketsFor(buckets, world, positions) ==>
        multiset(ServeAll(Serving(world, positions, tiles, config, caster), buckets))
        == multiset(TileByTile(tiles, Strike(config, caster)))
  }

  /** A world with one player in it, and its tiles at the given positions. */
  function Lone(b: Being): map<Coord, ChunkView> {
    map[CoordOf(b.position) := ChunkView([b], [b.position.x], [b.position.y], [b.position.z], 1, 0)]
  }

  function LoneTiles(b: Being, positions: seq<Position>): seq<Tile> {
    seq(|positions|, i requires 0 <= i < |positions| =>
      Tile(if positions[i] == b.position then Some([b]) else None, None, false))
  }

  lemma LoneFits(b: Being, positions: seq<Position>)
    requires b.kind.Player?
    ensures Readable(Lone(b)) && WellFormedWorld(Lone(b)) && Agrees(Lone(b), positions, LoneTiles(b, positions))
  {
  }

  /** How often p is struck. */
  function Times(positions: seq<Position>, p: Position): nat {
    if positions == [] then 0
    else Times(positions[..|positions| - 1], p) + (if positions[|positions| - 1] == p then 1 else 0)
  }

  lemma {:induction false} Repeated(positions: seq<Position>, i: nat, j: nat)
    requires i <= j < |positions| && positions[i] == positions[j]
    ensures Times(positions, positions[j]) >= if i < j then 2 else 1
  {
    var n := |positions| - 1;
    if j < n {
      Repeated(positions[..n], i, j);
    } else if i < j {
      Repeated(positions[..n], i, i);
    }
  }

  lemma {:induction false} TileCount(chunk: Coord, world: map<Coord, ChunkView>, positions: seq<Position>, p: Position)
    requires OnMap(positions) && ChunkAt(world, p) == Some(chunk)
    ensures BucketOf(chunk, world, positions).tileCount >= Times(positions, p)
  {
    if positions != [] {
      TileCount(chunk, world, positions[..|positions| - 1], p);
    }
  }

  lemma {:induction false} LonePlain(f: seq<Being> -> nat, b: Being, positions: seq<Position>, strike: Being -> bool)
    requires Counts(f, b) && strike(b)
    ensures f(TileByTile(LoneTiles(b, positions), strike)) == Times(positions, b.position)
  {
    if positions != [] {
      var n := |positions| - 1;
      var tiles := LoneTiles(b, positions);
      LonePlain(f, b, positions[..n], strike);
      assert tiles[..n] == LoneTiles(b, positions[..n]);
      FilterCount(f, b, tiles[n].List(), strike);
    }
  }

  lemma LoneBucket(b: Being, positions: seq<Position>)
    requires OnMap(positions)
    ensures BucketsFor([BucketOf(CoordOf(b.position), Lone(b), positions)], Lone(b), positions)
  {
    assert [BucketOf(CoordOf(b.position), Lone(b), positions)][0].chunk == CoordOf(b.position);
  }

  /** The one bucket is scanned, and the scan lists the player once. */
  lemma LoneScanned(f: seq<Being> -> nat, b: Being, positions: seq<Position>, strike: Being -> bool)
    requires Counts(f, b) && OnMap(positions) && Times(positions, b.position) >= 2
    requires b.kind.Player? && Readable(Lone(b))
    ensures f(Serve(Lone(b), positions, LoneTiles(b, positions), false, strike,
                    BucketOf(CoordOf(b.position), Lone(b), positions))) <= 1
  {
    var view := Lone(b)[CoordOf(b.position)];
    TileCount(CoordOf(b.position), Lone(b), positions, b.position);
    ScanCount(f, b, view, BucketOf(CoordOf(b.position), Lone(b), positions), strike, 1);
    assert view.beings[..1] == [b];
  }

  lemma ServeOne(serve: Bucket -> seq<Being>, bucket: Bucket)
    ensures ServeAll(serve, [bucket]) == serve(bucket)
  {
    assert [bucket][..0] == [] && ServeAll(serve, []) == [];
  }

  /** A position struck twice: its chunk is scanned and yields the player once, the plain loop yields it each time. */
  lemma RepeatedDiffers(b: Being, positions: seq<Position>, config: Config, caster: Caster)
    requires OnMap(positions) && b.kind.Player? && Times(positions, b.position) >= 2
    requires !config.aggressive && Strike(config, caster)(b) && Readable(Lone(b))
    ensures var buckets := [BucketOf(CoordOf(b.position), Lone(b), positions)];
            var tiles := LoneTiles(b, positions);
            multiset(ServeAll(Serving(Lone(b), positions, tiles, config, caster), buckets))
            != multiset(TileByTile(tiles, Strike(config, caster)))
  {
    var f := Counter(b);
    LonePlain(f, b, positions, Strike(config, caster));
    LoneScanned(f, b, positions, Strike(config, caster));
    ServeOne(Serving(Lone(b), positions, LoneTiles(b, positions), config, caster),
             BucketOf(CoordOf(b.position), Lone(b), positions));
  }

  /** The bucketed gathering is the plain loop on every well-formed world if and only if no position is struck twice. */
  lemma PlainExactly(positions: seq<Position>)
    requires OnMap(positions)
    ensures AlwaysPlain(positions) <==> Distinct(positions)
  {
    if Distinct(positions) {
      forall world, tiles, config, caster, buckets |
        Readable(world) && WellFormedWorld(world) && Agrees(world, positions, tiles)
        && BucketsFor(buckets, world, positions)
        ensures multiset(ServeAll(Serving(world, positions, tiles, config, caster), buckets))
                == multiset(TileByTile(tiles, Strike(config, caster)))
      {
        GatheredIsPlain(world, positions, tiles, config, caster, buckets, Serving(world, positions, tiles, config, caster));
      }
    } else {
      var i, j :| 0 <= i < j < |positions| && positions[i] == positions[j];
      var b := Being(0, Chunks.Player, positions[j]);
      Repeated(positions, i, j);
      LoneFits(b, positions);
      LoneBucket(b, positions);
      RepeatedDiffers(b, positions, Config(false, false, false, false, false, false), Caster(1, true, {}, {}, {}));
    }
  }

  // --------------------------------------------------------------------------------
  // Exactly when an aggressive scan is complete
  // --------------------------------------------------------------------------------

  predicate SparesNpcs(strike: Being -> bool, view: ChunkView) {
    forall k :: 0 <= k < |view.beings| && view.beings[k].kind.Npc? ==> !strike(view.beings[k])
  }

  lemma {:induction false} ScanStops(view: ChunkView, bucket: Bucket, strike: Being -> bool, from: nat, k: nat)
    requires Parallel(view) && from <= k <= |view.beings|
    requires SparesNpcs(strike, view) && forall j :: from <= j < k ==> view.beings[j].kind.Npc?
    ensures Scan(view, bucket, strike, k) == Scan(view, bucket, strike, from)
  {
    if from < k {
      ScanStops(view, bucket, strike, from, k - 1);
    }
  }

  /** The mask of one struck tile. */
  function OneTile(p: Position): Bucket {
    Bucket(CoordOf(p), 1, seq(p.z + 1, _ => {BitOf(p.x, p.y)}))
  }

  lemma Skipped(f: seq<Being> -> nat, view: ChunkView, bucket: Bucket, strike: Being -> bool, from: nat, k: nat)
    requires from <= k < |view.beings| && Counts(f, view.beings[k]) && Located(view) && strike(view.beings[k])
    requires var p := view.beings[k].position; bucket.Shows(p.x, p.y, p.z)
    ensures f(Scan(view, bucket, strike, from)) < f(Scan(view, bucket, strike, |view.beings|))
  {
    var b := view.beings[k];
    ScanCount(f, b, view, bucket, strike, from);
    ScanCount(f, b, view, bucket, strike, |view.beings|);
    var before, after := view.beings[from..k], view.beings[k + 1..];
    assert view.beings[..|view.beings|] == view.beings[..from] + (before + ([b] + after));
  }

  function Only(b: Being): Being -> bool {
    (x: Being) => x == b
  }

  /** Whether every strike that spares NPCs finds behind the players and monsters nothing more. */
  ghost predicate ScansAll(view: ChunkView)
    requires Parallel(view) && view.players + view.monsters <= |view.beings|
  {
    forall bucket, strike :: SparesNpcs(strike, view) ==>
      Scan(view, bucket, strike, ScanLength(true, view)) == Scan(view, bucket, strike, |view.beings|)
  }

  /** An aggressive scan misses no one, whatever is struck, if and only if only NPCs stand behind the players and monsters. */
  lemma ScansAllExactly(view: ChunkView)
    requires Located(view) && view.players + view.monsters <= |view.beings|
    ensures ScansAll(view) <==>
            forall k :: view.players + view.monsters <= k < |view.beings| ==> view.beings[k].kind.Npc?
  {
    var from := view.players + view.monsters;
    if forall k :: from <= k < |view.beings| ==> view.beings[k].kind.Npc? {
      forall bucket, strike | SparesNpcs(strike, view)
        ensures Scan(view, bucket, strike, from) == Scan(view, bucket, strike, |view.beings|)
      {
        ScanStops(view, bucket, strike, from, |view.beings|);
      }
    } else {
      var k :| from <= k < |view.beings| && !view.beings[k].kind.Npc?;
      var b := view.beings[k];
      Skipped(Counter(b), view, OneTile(b.position), Only(b), from, k);
      assert SparesNpcs(Only(b), view);
    }
  }

  /** Adding a player to a chunk with monsters and NPCs moves a monster behind the NPCs, out of the scan's reach. */
  lemma PlayerHidesMonster(kinds: seq<Chunks.Kind>, players: nat, monsters: nat, view: ChunkView)
    requires Chunks.Partition(kinds, players, monsters) && monsters > 0 && players + monsters < |kinds|
    requires Located(view) && view.players == players + 1 && view.monsters == monsters
    requires Kinds(view.beings) == Chunks.Place(kinds, Chunks.SlotFor(Chunks.Player, players, monsters, |kinds|), Chunks.Player)
    ensures view.players + view.monsters <= |view.beings| && !ScansAll(view)
  {
    assert Kinds(view.beings)[|kinds|] == Chunks.Monster;
    ScansAllExactly(view);
  }
}
