/**
 What the map conversion means: a rewrite of the node tree that knows nothing of the
 pass over the bytes, and the theorem that the pass computes it.
 */
module MapTransform {
  import opened Bytes
  import opened Numbers
  import opened Options
  import opened Otbm
  import opened MapConvert
  import opened MapStream

  /** A node survives unless it is a zone node or an item with no server id. */
  predicate Kept(cfg: Config, isRoot: bool, n: Node) {
    n.kind != OTBM_TILE_ZONE && (isRoot || n.kind != OTBM_ITEM || |n.props| < 2 || U16At(n.props, 0) in cfg.translation)
  }

  /** A surviving node's own properties: can the converter read them, and what do they become? */
  function NewProps(cfg: Config, isRoot: bool, n: Node): Option<seq<Byte>> {
    if isRoot then Some(RootProps(n.props))
    else if n.kind == OTBM_MAP_DATA then
      if MapDataProps(cfg, n.props).Ok? then Some(MapDataProps(cfg, n.props).value) else None
    else if n.kind == OTBM_TILE_AREA then
      if |n.props| >= 5 then Some(n.props) else None
    else if n.kind == OTBM_TILE || n.kind == OTBM_HOUSETILE then
      var tile := TileProps(cfg, n.props, n.kind == OTBM_HOUSETILE);
      if |n.props| >= 2 && tile.Ok? then Some(tile.value.bytes) else None
    else if n.kind == OTBM_ITEM then
      if |n.props| >= 2 && U16At(n.props, 0) in cfg.translation && cfg.translation[U16At(n.props, 0)] < 0x1_0000
      then Some(Le16(cfg.translation[U16At(n.props, 0)]) + n.props[2..]) else None
    else Some(n.props)
  }

  /** The tree-level conversion: lost nodes go with their whole subtrees, every other node stays in its place. */
  function Transform(cfg: Config, isRoot: bool, ns: seq<Node>): seq<Node>
    decreases ns
  {
    if ns == [] then [] else
    var n := ns[0];
    (if Kept(cfg, isRoot, n) && NewProps(cfg, isRoot, n).Some?
     then [Node(n.kind, NewProps(cfg, isRoot, n).value, Transform(cfg, false, n.children))] else [])
    + Transform(cfg, isRoot, ns[1..])
  }

  predicate ZonesReadable(props: seq<Byte>) {
    |props| >= 2 && |props| >= 2 + 2 * U16At(props, 0)
  }

  predicate SetsTile(dropped: bool, isRoot: bool, n: Node) {
    !dropped && !isRoot && (n.kind == OTBM_TILE || n.kind == OTBM_HOUSETILE)
  }

  /**
   Whether the conversion of some nodes succeeds; Some(b) if it does, b telling whether a tile
   has been seen by the end.  Zone nodes are read even below a dropped node, once there is a tile.
   */
  function Reads(cfg: Config, isRoot: bool, inDropped: bool, ns: seq<Node>, tileSeen: bool): Option<bool>
    decreases ns
  {
    if ns == [] then Some(tileSeen) else
    var n := ns[0];
    var dropped := inDropped || n.kind == OTBM_TILE_ZONE;
    if dropped && n.kind == OTBM_TILE_ZONE && tileSeen && !ZonesReadable(n.props) then None
    else if !dropped && !isRoot && n.kind == OTBM_ITEM && |n.props| < 2 then None
    else if !dropped && Kept(cfg, isRoot, n) && NewProps(cfg, isRoot, n).None? then None
    else
      var seen := tileSeen || SetsTile(dropped, isRoot, n);
      match Reads(cfg, false, dropped || !Kept(cfg, isRoot, n), n.children, seen)
      case None => None
      case Some(after) => Reads(cfg, isRoot, inDropped, ns[1..], after)
  }

  lemma CanaryHonoursDrops(cfg: Config)
    ensures HonoursDrops(CanaryRule(cfg))
  {
  }

  /** One node's properties, by the converter's rule and by the tree's. */
  lemma RuleOfNode(cfg: Config, isRoot: bool, dropped: bool, n: Node, env: Env)
    requires n.kind == OTBM_TILE_ZONE ==> dropped
    ensures var p := CanaryRule(cfg)(isRoot, dropped, n.kind, n.props, env);
            && (p.Ok? <==>
                  if dropped then n.kind == OTBM_TILE_ZONE && env.tile.Some? ==> ZonesReadable(n.props)
                  else if !isRoot && n.kind == OTBM_ITEM && |n.props| < 2 then false
                  else !Kept(cfg, isRoot, n) || NewProps(cfg, isRoot, n).Some?)
            && (p.Ok? ==> p.value.props == if dropped || !Kept(cfg, isRoot, n) then None else NewProps(cfg, isRoot, n))
            && (p.Ok? ==> (p.value.env.tile.Some? <==> env.tile.Some? || SetsTile(dropped, isRoot, n)))
  {
  }

  /** The rewrite threaded through the pass succeeds exactly when Reads does, and then keeps what Transform keeps. */
  lemma {:induction false} RewriteIsTransform(cfg: Config, isRoot: bool, inDropped: bool, ns: seq<Node>, env: Env)
    ensures var r := RewriteAll(CanaryRule(cfg), isRoot, inDropped, ns, env);
            var ok := Reads(cfg, isRoot, inDropped, ns, env.tile.Some?);
            && (r.Ok? <==> ok.Some?)
            && (r.Ok? ==> ok.value == r.value.env.tile.Some?)
            && (r.Ok? ==> r.value.nodes == if inDropped then [] else Transform(cfg, isRoot, ns))
    decreases ns
  {
    if ns != [] {
      var n := ns[0];
      var dropped := inDropped || n.kind == OTBM_TILE_ZONE;
      RuleOfNode(cfg, isRoot, dropped, n, env);
      var p := CanaryRule(cfg)(isRoot, dropped, n.kind, n.props, env);
      if p.Ok? {
        RewriteIsTransform(cfg, false, dropped || !Kept(cfg, isRoot, n), n.children, p.value.env);
        var kids := RewriteAll(CanaryRule(cfg), false, p.value.props.None?, n.children, p.value.env);
        if kids.Ok? {
          RewriteIsTransform(cfg, isRoot, inDropped, ns[1..], kids.value.env);
        }
      }
    }
  }

  /** The pass over the bytes of a tree is the rewrite of the tree. */
  lemma RunIsRewrite(cfg: Config, header: seq<Byte>, root: Node, log: Log)
    requires |header| == 4
    ensures var raw := header + Serialize(root);
            var r := Run(CanaryRule(cfg), raw, 4, Start(raw, log));
            match RewriteAll(CanaryRule(cfg), true, false, [root], Start(raw, log).env)
            case Err(e) => r == Err(e)
            case Ok(w) => r.Ok? && r.value.out == header + SerializeAll(w.nodes) && r.value.env == w.env
  {
    var raw := header + Serialize(root);
    var st := Start(raw, log);
    assert SerializeAll([root]) == Serialize(root) + SerializeAll([]) == Serialize(root);
    assert raw[4..] == Serialize(root);
    CanaryHonoursDrops(cfg);
    var run: Pass := (at: nat, s: Scan) => Run(CanaryRule(cfg), raw, at, s);
    RunNodes(run, CanaryRule(cfg), raw, 4, [root], true, false, st);
    assert st.out == header;
  }

  /**
   The conversion of a map file is the serialisation of the converted tree; it fails exactly
   when some payload cannot be read.
   */
  lemma ConvertIsTransform(cfg: Config, header: seq<Byte>, root: Node, log: Log)
    requires |header| == 4
    ensures var raw := header + Serialize(root);
            var r := Run(CanaryRule(cfg), raw, 4, Start(raw, log));
            && (r.Ok? <==> Reads(cfg, true, false, [root], false).Some?)
            && (r.Ok? ==> r.value.out == header + SerializeAll(Transform(cfg, true, [root])))
  {
    RunIsRewrite(cfg, header, root, log);
    RewriteIsTransform(cfg, true, false, [root], Start(header + Serialize(root), log).env);
  }

  // --------------------------------------------------------------------------------
  // What the converted tree contains
  // --------------------------------------------------------------------------------

  /** No zone node, and every item node carries a server id of the table. */
  ghost predicate Converted(cfg: Config, isRoot: bool, ns: seq<Node>)
    decreases ns
  {
    forall n :: n in ns ==>
      && n.kind != OTBM_TILE_ZONE
      && (!isRoot && n.kind == OTBM_ITEM ==> |n.props| >= 2 && U16At(n.props, 0) in cfg.translation.Values)
      && (isRoot ==> |n.props| >= 4 && U32At(n.props, 0) == 2)
      && Converted(cfg, false, n.children)
  }

  lemma {:induction false} TransformConverts(cfg: Config, isRoot: bool, ns: seq<Node>)
    ensures Converted(cfg, isRoot, Transform(cfg, isRoot, ns))
    decreases ns
  {
    if ns != [] {
      var n := ns[0];
      TransformConverts(cfg, isRoot, ns[1..]);
      TransformConverts(cfg, false, n.children);
      if Kept(cfg, isRoot, n) && NewProps(cfg, isRoot, n).Some? {
        var props := NewProps(cfg, isRoot, n).value;
        if isRoot {
          assert props[..4] == Le32(2);
          assert U32At(props, 0) == U32At(props[..4], 0);
        } else if n.kind == OTBM_ITEM {
          var server := cfg.translation[U16At(n.props, 0)];
          assert props[..2] == Le16(server);
          assert U16At(props, 0) == server;
        }
      }
    }
  }

  /** A tile attribute as the format defines it. */
  datatype TileAttr = Flags(raw: seq<Byte>) | Inline(id: nat)

  function ParseTile(props: seq<Byte>): Option<seq<TileAttr>>
  {
    if props == [] then Some([])
    else if props[0] == 3 then
      var next := Min(5, |props|);
      match ParseTile(props[next..])
      case None => None
      case Some(rest) => Some([Flags(props[..next])] + rest)
    else if props[0] == 9 && |props| >= 3 then
      match ParseTile(props[3..])
      case None => None
      case Some(rest) => Some([Inline(U16At(props, 1))] + rest)
    else None
  }

  function TranslateAttrs(translation: map<U16, nat>, attrs: seq<TileAttr>): seq<TileAttr> {
    if attrs == [] then []
    else if attrs[0].Flags? then [attrs[0]] + TranslateAttrs(translation, attrs[1..])
    else if attrs[0].id in translation then [Inline(translation[attrs[0].id])] + TranslateAttrs(translation, attrs[1..])
    else TranslateAttrs(translation, attrs[1..])
  }

  function InlineIds(attrs: seq<TileAttr>): seq<nat> {
    if attrs == [] then []
    else if attrs[0].Inline? then [attrs[0].id] + InlineIds(attrs[1..])
    else InlineIds(attrs[1..])
  }

  /** Server ids the format has room for. */
  predicate Packable(translation: map<U16, nat>, attrs: seq<TileAttr>) {
    forall i :: 0 <= i < |attrs| ==>
      attrs[i].Inline? && attrs[i].id in translation ==> translation[attrs[i].id] < 0x1_0000
  }

  /** The rewritten attributes of a tile, read again. */
  ghost predicate TileTranslated(cfg: Config, props: seq<Byte>) {
    var r := TileAttributes(cfg, props);
    var attrs := ParseTile(props);
    && (r.Ok? <==> attrs.Some? && Packable(cfg.translation, attrs.value))
    && (r.Ok? ==>
          && ParseTile(r.value.bytes) == Some(TranslateAttrs(cfg.translation, attrs.value))
          && r.value.ids == InlineIds(attrs.value))
  }

  /** Reading the rewritten tile attributes gives the attributes that were there, translated, in their order. */
  lemma {:induction false} TileAttributesTranslate(cfg: Config, props: seq<Byte>)
    ensures TileTranslated(cfg, props)
    decreases |props|
  {
    if props != [] {
      if props[0] == ATTR_TILE_FLAGS {
        TileAttributesTranslate(cfg, props[Min(5, |props|)..]);
        TranslatedFlags(cfg, props);
      } else if props[0] == ATTR_ITEM && |props| >= 3 {
        TileAttributesTranslate(cfg, props[3..]);
        TranslatedItem(cfg, props);
      }
    }
  }

  /**
   The properties of a tile start with two bytes of coordinates, behind which a house tile has four for its house.
   They stay, and what is behind them is translated.
   */
  lemma TilePropsTranslate(cfg: Config, props: seq<Byte>, house: bool)
    ensures var header := if house then 6 else 2;
            var r := TileProps(cfg, props, house);
            if |props| < header then r.Ok? && r.value.bytes == props
            else
              && (r.Ok? <==> ParseTile(props[header..]).Some? && Packable(cfg.translation, ParseTile(props[header..]).value))
              && (r.Ok? ==>
                    && |r.value.bytes| >= header && r.value.bytes[..header] == props[..header]
                    && ParseTile(r.value.bytes[header..])
                       == Some(TranslateAttrs(cfg.translation, ParseTile(props[header..]).value)))
  {
    var header := if house then 6 else 2;
    if |props| < header {
      assert props[..|props|] == props && props[|props|..] == [];
      assert props + [] == props;
    } else {
      TileAttributesTranslate(cfg, props[header..]);
      var attributes := TileAttributes(cfg, props[header..]);
      if attributes.Ok? {
        assert (props[..header] + attributes.value.bytes)[header..] == attributes.value.bytes;
      }
    }
  }

  /** Of the map's header only the version changes. */
  lemma RootPropsExactly(props: seq<Byte>)
    ensures RootProps(props) == [2, 0, 0, 0] + (if |props| < 4 then [] else props[4..])
  {
    assert Le32(2) == [2, 0, 0, 0];
    assert |props| < 4 ==> props[|props|..] == [];
  }

  lemma TranslatedFlags(cfg: Config, props: seq<Byte>)
    requires props != [] && props[0] == ATTR_TILE_FLAGS && TileTranslated(cfg, props[Min(5, |props|)..])
    ensures TileTranslated(cfg, props)
  {
    var next := Min(5, |props|);
    var rest, tail := TileAttributes(cfg, props[next..]), ParseTile(props[next..]);
    if tail.Some? {
      PackableCons(cfg.translation, Flags(props[..next]), tail.value);
    }
    if rest.Ok? {
      var bytes := props[..next] + rest.value.bytes;
      if |props| < 5 {
        assert bytes == props && rest.value.bytes == [];
      } else {
        assert bytes[..5] == props[..5] && bytes[5..] == rest.value.bytes;
      }
      assert [] + rest.value.ids == rest.value.ids;
    }
  }

  lemma TranslatedItem(cfg: Config, props: seq<Byte>)
    requires |props| >= 3 && props[0] == ATTR_ITEM && TileTranslated(cfg, props[3..])
    ensures TileTranslated(cfg, props)
  {
    var id := U16At(props, 1);
    var rest, tail := TileAttributes(cfg, props[3..]), ParseTile(props[3..]);
    if tail.Some? {
      PackableCons(cfg.translation, Inline(id), tail.value);
      assert ([Inline(id)] + tail.value)[1..] == tail.value;
    }
    if rest.Ok? {
      if id in cfg.translation {
        if cfg.translation[id] < 0x1_0000 {
          var bytes := [ATTR_ITEM] + Le16(cfg.translation[id]) + rest.value.bytes;
          assert bytes[3..] == rest.value.bytes && U16At(bytes, 1) == U16At(Le16(cfg.translation[id]), 0);
        }
      } else {
        assert [] + rest.value.bytes == rest.value.bytes;
      }
    }
  }

  lemma PackableCons(translation: map<U16, nat>, a: TileAttr, rest: seq<TileAttr>)
    ensures Packable(translation, [a] + rest) <==> Packable(translation, [a]) && Packable(translation, rest)
  {
    assert forall i :: 0 <= i < |rest| ==> rest[i] == ([a] + rest)[i + 1];
    assert ([a] + rest)[0] == a;
  }

  datatype Entry = Entry(attribute: Byte, value: seq<Byte>)

  function ParseEntries(props: seq<Byte>): Option<seq<Entry>> {
    if props == [] then Some([])
    else if |props| < 3 then None
    else
      var next := Min(3 + U16At(props, 1), |props|);
      match ParseEntries(props[next..])
      case None => None
      case Some(rest) => Some([Entry(props[0], props[3..next])] + rest)
  }

  /** All attributes but the NPC file, 23, and the zone file, 24. */
  function Survivors(entries: seq<Entry>): seq<Entry> {
    if entries == [] then []
    else (if entries[0].attribute == 23 || entries[0].attribute == 24 then [] else [entries[0]]) + Survivors(entries[1..])
  }

  /** Of two attributes, the new one has the spawn file's name if it is 11, the house file's if it is 13, and else the old value. */
  predicate Renames(cfg: Config, old': Entry, new': Entry) {
    && new'.attribute == old'.attribute
    && (new'.attribute == 11 ==> new'.value == cfg.spawnName)
    && (new'.attribute == 13 ==> new'.value == cfg.houseName)
    && (new'.attribute != 11 && new'.attribute != 13 ==> new'.value == old'.value)
  }

  predicate AllRenamed(cfg: Config, old': seq<Entry>, new': seq<Entry>) {
    |old'| == |new'| && forall i :: 0 <= i < |old'| ==> Renames(cfg, old'[i], new'[i])
  }

  /** Whether a name that is to be written fits its length prefix. */
  predicate NamesFit(cfg: Config, entries: seq<Entry>) {
    forall i :: 0 <= i < |entries| ==>
      && (entries[i].attribute == 11 ==> |cfg.spawnName| < 0x1_0000)
      && (entries[i].attribute == 13 ==> |cfg.houseName| < 0x1_0000)
  }

  lemma RenamedMore(cfg: Config, old': Entry, new': Entry, olds: seq<Entry>, news: seq<Entry>)
    requires Renames(cfg, old', new') && AllRenamed(cfg, olds, news)
    ensures AllRenamed(cfg, [old'] + olds, [new'] + news)
  {
  }

  lemma NamesFitMore(cfg: Config, first: Entry, rest: seq<Entry>)
    ensures NamesFit(cfg, [first] + rest) <==> NamesFit(cfg, [first]) && NamesFit(cfg, rest)
  {
    var all := [first] + rest;
    assert all[0] == first == [first][0];
    forall i | 0 <= i < |rest| ensures all[i + 1] == rest[i] {
    }
    if NamesFit(cfg, [first]) && NamesFit(cfg, rest) {
      forall i | 0 <= i < |all|
        ensures (all[i].attribute == 11 ==> |cfg.spawnName| < 0x1_0000) && (all[i].attribute == 13 ==> |cfg.houseName| < 0x1_0000)
      {
        assert i > 0 ==> all[i] == rest[i - 1];
      }
    }
  }

  /**
   The map attributes are rewritten if and only if they can be read and the names fit. Then the surviving ones are
   there in their order, 11 with the spawn file's name, 13 with the house file's, and all others as they were.
   */
  lemma {:induction false} MapDataRewrites(cfg: Config, props: seq<Byte>)
    ensures MapDataProps(cfg, props).Ok? <==> ParseEntries(props).Some? && NamesFit(cfg, ParseEntries(props).value)
    ensures var r := MapDataProps(cfg, props);
            r.Ok? ==> ParseEntries(r.value).Some? && AllRenamed(cfg, Survivors(ParseEntries(props).value), ParseEntries(r.value).value)
    decreases |props|
  {
    if |props| >= 3 {
      var next := Min(3 + U16At(props, 1), |props|);
      var first := Entry(props[0], props[3..next]);
      MapDataRewrites(cfg, props[next..]);
      var rest := ParseEntries(props[next..]);
      var tail := MapDataProps(cfg, props[next..]);
      if rest.Some? {
        NamesFitMore(cfg, first, rest.value);
        assert ([first] + rest.value)[1..] == rest.value;
      }
      if tail.Ok? {
        EntryRewrites(cfg, first, rest.value, tail.value);
      }
    }
  }

  lemma EntryRewrites(cfg: Config, first: Entry, rest: seq<Entry>, tail: seq<Byte>)
    requires |first.value| < 0x1_0000 && ParseEntries(tail).Some? && AllRenamed(cfg, Survivors(rest), ParseEntries(tail).value)
    ensures var r := PrependEntry(first.attribute, MapValue(cfg, first.attribute, first.value), Ok(tail));
            && (r.Ok? <==> NamesFit(cfg, [first]))
            && (r.Ok? ==> ParseEntries(r.value).Some?
                          && AllRenamed(cfg, Survivors([first] + rest), ParseEntries(r.value).value))
  {
    var value := MapValue(cfg, first.attribute, first.value);
    assert ([first] + rest)[1..] == rest;
    assert [first][0] == first;
    if value.None? {
      assert [] + Survivors(rest) == Survivors(rest);
    } else if |value.value| < 0x1_0000 {
      PrintedEntry(first.attribute, value.value, tail);
      RenamedMore(cfg, first, Entry(first.attribute, value.value), Survivors(rest), ParseEntries(tail).value);
    }
  }

  lemma PrintedEntry(attribute: Byte, value: seq<Byte>, rest: seq<Byte>)
    requires |value| < 0x1_0000 && ParseEntries(rest).Some?
    ensures ParseEntries(PrintEntry(attribute, value) + rest) == Some([Entry(attribute, value)] + ParseEntries(rest).value)
  {
    var bytes := PrintEntry(attribute, value) + rest;
    assert bytes[1] == Le16(|value|)[0] && bytes[2] == Le16(|value|)[1];
    assert U16At(bytes, 1) == U16At(Le16(|value|), 0);
    assert bytes[3..3 + |value|] == value && bytes[3 + |value|..] == rest;
  }

  // --------------------------------------------------------------------------------
  // The report
  // --------------------------------------------------------------------------------

  function Misses(log: Log, id: U16): nat {
    if id in log.missing then log.missing[id] else 0
  }

  /** Every id looked up is counted once: as a translated item, or among the misses of that id. */
  lemma {:induction false} LookAllCounts(cfg: Config, ids: seq<U16>, log: Log, id: U16)
    ensures var log' := LookAll(cfg, ids, log);
            && Misses(log', id) == Misses(log, id) + (if id in cfg.translation then 0 else multiset(ids)[id])
            && log'.items == log.items + |Known(cfg, ids)|
            && log'.zones == log.zones
  {
    if ids != [] {
      LookAllCounts(cfg, ids[1..], Look(cfg, ids[0], log), id);
      assert multiset(ids) == multiset{ids[0]} + multiset(ids[1..]) by { assert ids == [ids[0]] + ids[1..]; }
    }
  }

  function Known(cfg: Config, ids: seq<U16>): seq<U16> {
    if ids == [] then []
    else if ids[0] in cfg.translation then [ids[0]] + Known(cfg, ids[1..])
    else Known(cfg, ids[1..])
  }
}
