/**
 The payload rewrites of harness/build_canary_map.py: what the converter makes of the
 properties of one node.  The methods of Converter are the source's loops; the functions
 say what they compute, and MapTransform says what that means for the map.
 */
module MapConvert {
  import opened Bytes
  import opened Numbers
  import opened Options
  import opened Otbm

  const ATTR_TILE_FLAGS: Byte := 3
  const ATTR_ITEM: Byte := 9
  const ATTR_EXT_SPAWN_FILE: Byte := 11
  const ATTR_EXT_HOUSE_FILE: Byte := 13
  const ATTR_EXT_SPAWN_NPC_FILE: Byte := 23
  const ATTR_EXT_ZONE_FILE: Byte := 24

  datatype Config = Config(translation: map<U16, nat>, spawnName: seq<Byte>, houseName: seq<Byte>)

  /** A row of the zone sidecar. */
  datatype Zone = Zone(id: U16, at: Pos)

  /** What the converter reports besides the map. */
  datatype Log = Log(items: nat, missing: map<U16, nat>, zones: seq<Zone>)

  // --------------------------------------------------------------------------------
  // Payloads
  // --------------------------------------------------------------------------------

  function Look(cfg: Config, id: U16, log: Log): Log {
    if id in cfg.translation then log.(items := log.items + 1)
    else log.(missing := log.missing[id := (if id in log.missing then log.missing[id] else 0) + 1])
  }

  function LookAll(cfg: Config, ids: seq<U16>, log: Log): Log {
    if ids == [] then log else LookAll(cfg, ids[1..], Look(cfg, ids[0], log))
  }

  function PackId(server: nat): Result<seq<Byte>, Error> {
    if server < 0x1_0000 then Ok(Le16(server)) else Err(StructError)
  }

  function RootProps(props: seq<Byte>): seq<Byte> {
    Le32(2) + props[Min(4, |props|)..]
  }

  /** The new value of a map attribute; None drops the attribute. */
  function MapValue(cfg: Config, attribute: Byte, value: seq<Byte>): Option<seq<Byte>> {
    if attribute == ATTR_EXT_SPAWN_FILE then Some(cfg.spawnName)
    else if attribute == ATTR_EXT_HOUSE_FILE then Some(cfg.houseName)
    else if attribute == ATTR_EXT_SPAWN_NPC_FILE || attribute == ATTR_EXT_ZONE_FILE then None
    else Some(value)
  }

  /** One attribute in the file: its length prefix is the length of the value. */
  function PrintEntry(attribute: Byte, value: seq<Byte>): seq<Byte>
    requires |value| < 0x1_0000
  {
    var length: U16 := |value|;
    [attribute] + Le16(length) + value
  }

  function MapDataProps(cfg: Config, props: seq<Byte>): Result<seq<Byte>, Error> {
    if props == [] then Ok([])
    else if |props| < 3 then Err(StructError)
    else
      var next := Min(3 + U16At(props, 1), |props|);
      PrependEntry(props[0], MapValue(cfg, props[0], props[3..next]), MapDataProps(cfg, props[next..]))
  }

  function PrependEntry(attribute: Byte, value: Option<seq<Byte>>, rest: Result<seq<Byte>, Error>): Result<seq<Byte>, Error> {
    match value
    case None => rest
    case Some(bytes) => if |bytes| >= 0x1_0000 then Err(StructError) else PrependAll(PrintEntry(attribute, bytes), rest)
  }

  /** The rewrite of what is left of the map data at an index, with its definition out of sight. */
  type Reader = nat -> Result<seq<Byte>, Error>

  ghost predicate Reads(read: Reader, cfg: Config, props: seq<Byte>) {
    forall i: nat {:trigger MapDataProps(cfg, props[i..])} :: i <= |props| ==> read(i) == MapDataProps(cfg, props[i..])
  }

  lemma ReadEnd(read: Reader, cfg: Config, props: seq<Byte>)
    requires Reads(read, cfg, props)
    ensures read(|props|) == Ok([])
  {
    assert MapDataProps(cfg, props[|props|..]) == Ok([]);
  }

  /** Where an attribute's value ends, cut short by the end of the bytes. */
  function ValueEnd(props: seq<Byte>, index: nat): nat
    requires index + 3 <= |props|
  {
    Min(index + 3 + U16At(props, index + 1), |props|)
  }

  lemma FirstEntry(cfg: Config, props: seq<Byte>, attribute: Byte, value: seq<Byte>, rest: seq<Byte>)
    requires |props| >= 3 && attribute == props[0]
    requires var next := ValueEnd(props, 0); value == props[3..next] && rest == props[next..]
    ensures MapDataProps(cfg, props) == PrependEntry(attribute, MapValue(cfg, attribute, value), MapDataProps(cfg, rest))
  {
  }

  lemma RestAt(props: seq<Byte>, index: nat)
    requires index + 3 <= |props|
    ensures var rest := props[index..];
            && rest[0] == props[index] && rest[3..ValueEnd(rest, 0)] == props[index + 3..ValueEnd(props, index)]
            && rest[ValueEnd(rest, 0)..] == props[ValueEnd(props, index)..]
  {
    assert U16At(props[index..], 1) == U16At(props, index + 1);
  }

  lemma EntryAt(cfg: Config, props: seq<Byte>, index: nat)
    requires index + 3 <= |props|
    ensures var next := ValueEnd(props, index);
            MapDataProps(cfg, props[index..])
            == PrependEntry(props[index], MapValue(cfg, props[index], props[index + 3..next]), MapDataProps(cfg, props[next..]))
  {
    var next := ValueEnd(props, index);
    RestAt(props, index);
    FirstEntry(cfg, props[index..], props[index], props[index + 3..next], props[next..]);
  }

  /** One attribute of the map data, read where it stands. */
  lemma ReadEntry(read: Reader, cfg: Config, props: seq<Byte>, index: nat)
    requires index < |props| && Reads(read, cfg, props)
    ensures index + 3 > |props| ==> read(index) == Err(StructError)
    ensures index + 3 <= |props| ==>
              var next := Min(index + 3 + U16At(props, index + 1), |props|);
              read(index) == PrependEntry(props[index], MapValue(cfg, props[index], props[index + 3..next]), read(next))
  {
    assert read(index) == MapDataProps(cfg, props[index..]);
    if index + 3 <= |props| {
      EntryAt(cfg, props, index);
    }
  }

  /** The bytes of a tile's attributes after translation, and the ids looked up on the way. */
  datatype TileOut = TileOut(bytes: seq<Byte>, ids: seq<U16>)

  function PrependTile(bytes: seq<Byte>, ids: seq<U16>, r: Result<TileOut, Error>): Result<TileOut, Error> {
    match r
    case Ok(t) => Ok(TileOut(bytes + t.bytes, ids + t.ids))
    case Err(e) => Err(e)
  }

  function TileAttributes(cfg: Config, props: seq<Byte>): Result<TileOut, Error> {
    if props == [] then Ok(TileOut([], []))
    else if props[0] == ATTR_TILE_FLAGS then
      var next := Min(5, |props|);
      PrependTile(props[..next], [], TileAttributes(cfg, props[next..]))
    else if props[0] != ATTR_ITEM then Err(ValueError)
    else if |props| < 3 then Err(StructError)
    else
      var id := U16At(props, 1);
      if id !in cfg.translation then PrependTile([], [id], TileAttributes(cfg, props[3..]))
      else
        match PackId(cfg.translation[id])
        case Err(e) => Err(e)
        case Ok(server) => PrependTile([ATTR_ITEM] + server, [id], TileAttributes(cfg, props[3..]))
  }

  function TileHeader(house: bool): nat {
    if house then 6 else 2
  }

  function TileProps(cfg: Config, props: seq<Byte>, house: bool): Result<TileOut, Error> {
    var offset := Min(TileHeader(house), |props|);
    PrependTile(props[..offset], [], TileAttributes(cfg, props[offset..]))
  }

  class Converter {
    const cfg: Config
    var items: nat
    var missing: map<U16, nat>
    var zones: seq<Zone>

    constructor (cfg: Config)
      ensures this.cfg == cfg && Logged() == Log(0, map[], [])
    {
      this.cfg := cfg;
      items, missing, zones := 0, map[], [];
    }

    function Logged(): Log
      reads this
    {
      Log(items, missing, zones)
    }

    method ItemId(appearance: U16) returns (server: Option<nat>)
      modifies this
      ensures Logged() == Look(cfg, appearance, old(Logged()))
      ensures server == if appearance in cfg.translation then Some(cfg.translation[appearance]) else None
    {
      if appearance !in cfg.translation {
        missing := missing[appearance := (if appearance in missing then missing[appearance] else 0) + 1];
        return None;
      }
      items := items + 1;
      return Some(cfg.translation[appearance]);
    }

    method Renamed(attribute: Byte, value: seq<Byte>) returns (kept: Option<seq<Byte>>)
      ensures kept == MapValue(cfg, attribute, value)
    {
      if attribute == ATTR_EXT_SPAWN_FILE {
        return Some(cfg.spawnName);
      } else if attribute == ATTR_EXT_HOUSE_FILE {
        return Some(cfg.houseName);
      } else if attribute == ATTR_EXT_SPAWN_NPC_FILE || attribute == ATTR_EXT_ZONE_FILE {
        return None;
      }
      return Some(value);
    }

    method MapData(props: seq<Byte>) returns (r: Result<seq<Byte>, Error>)
      ensures r == MapDataProps(cfg, props)
    {
      ghost var read := (i: nat) => MapDataProps(cfg, props[Min(i, |props|)..]);
      r := MapDataFrom(props, read);
      assert props[0..] == props;
    }

    method MapDataFrom(props: seq<Byte>, ghost read: Reader) returns (r: Result<seq<Byte>, Error>)
      requires Reads(read, cfg, props)
      ensures r == read(0)
    {
      var out := [];
      var index := 0;
      PrependNothing(read(0));
      while index < |props|
        invariant 0 <= index <= |props|
        invariant read(0) == PrependAll(out, read(index))
      {
        ReadEntry(read, cfg, props, index);
        var attribute := props[index];
        if index + 3 > |props| {
          return Err(StructError);
        }
        var length := U16At(props, index + 1);
        var next := Min(index + 3 + length as int, |props|);
        var value := Renamed(attribute, props[index + 3..next]);
        index := next;
        if value.None? {
          continue;
        }
        if |value.value| >= 0x1_0000 {
          return Err(StructError);
        }
        var entry := PrintEntry(attribute, value.value);
        PrependTwice(out, entry, read(index));
        out := out + entry;
      }
      ReadEnd(read, cfg, props);
      assert out + [] == out;
      return Ok(out);
    }

    method Tile(props: seq<Byte>, house: bool) returns (r: Result<seq<Byte>, Error>)
      modifies this
      ensures match TileProps(cfg, props, house)
              case Err(e) => r == Err(e)
              case Ok(t) => r == Ok(t.bytes) && Logged() == LookAll(cfg, t.ids, old(Logged()))
    {
      var offset := Min(TileHeader(house), |props|);
      var out := props[..offset];
      var index := offset;
      ghost var ids: seq<U16> := [];
      while index < |props|
        invariant offset <= index <= |props|
        invariant TileProps(cfg, props, house) == PrependTile(out, ids, TileAttributes(cfg, props[index..]))
        invariant Logged() == LookAll(cfg, ids, old(Logged()))
      {
        ghost var rest := props[index..];
        var attribute := props[index];
        if attribute == ATTR_TILE_FLAGS {
          var next := Min(index + 5, |props|);
          assert rest[..Min(5, |rest|)] == props[index..next] && rest[Min(5, |rest|)..] == props[next..];
          PrependTileTwice(out, props[index..next], ids, [], TileAttributes(cfg, props[next..]));
          out := out + props[index..next];
          assert ids + [] == ids;
          index := next;
        } else if attribute == ATTR_ITEM {
          if index + 3 > |props| {
            return Err(StructError);
          }
          assert rest[3..] == props[index + 3..];
          var appearance := U16At(props, index + 1);
          LookAppend(cfg, ids, appearance, old(Logged()));
          var server := ItemId(appearance);
          ghost var before := out;
          ghost var added := [];
          if server.Some? {
            if server.value >= 0x1_0000 {
              return Err(StructError);
            }
            added := [ATTR_ITEM] + Le16(server.value);
            out := out + ([ATTR_ITEM] + Le16(server.value));
          }
          assert TileAttributes(cfg, rest) == PrependTile(added, [appearance], TileAttributes(cfg, props[index + 3..]));
          PrependTileTwice(before, added, ids, [appearance], TileAttributes(cfg, props[index + 3..]));
          assert out == before + added;
          ids := ids + [appearance];
          index := index + 3;
        } else {
          return Err(ValueError);
        }
      }
      assert out + [] == out && ids + [] == ids;
      return Ok(out);
    }
  }

  lemma PrependTileTwice(a: seq<Byte>, b: seq<Byte>, i: seq<U16>, j: seq<U16>, r: Result<TileOut, Error>)
    ensures PrependTile(a, i, PrependTile(b, j, r)) == PrependTile(a + b, i + j, r)
  {
    if r.Ok? {
      assert a + (b + r.value.bytes) == (a + b) + r.value.bytes;
      assert i + (j + r.value.ids) == (i + j) + r.value.ids;
    }
  }

  lemma {:induction false} LookAppend(cfg: Config, ids: seq<U16>, id: U16, log: Log)
    ensures LookAll(cfg, ids + [id], log) == Look(cfg, id, LookAll(cfg, ids, log))
  {
    if ids == [] {
      assert ids + [id] == [id];
    } else {
      LookAppend(cfg, ids[1..], id, Look(cfg, ids[0], log));
      assert (ids + [id])[0] == ids[0] && (ids + [id])[1..] == ids[1..] + [id];
    }
  }
}
