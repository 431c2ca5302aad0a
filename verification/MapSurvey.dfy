/** What the map conversion reports: the ids it looked up and the zones it moved to the sidecar, told from the tree. */
module MapSurvey {
  import opened Bytes
  import opened Options
  import opened Otbm
  import opened MapConvert
  import opened MapStream
  import opened MapTransform

  /** Where the last area began and the last tile stood, in file order. */
  datatype Cursor = Cursor(area: Pos, tile: Option<Pos>)

  /** Ids looked up and zones found in some nodes, in file order, and the cursor behind them. */
  datatype Survey = Survey(cursor: Cursor, ids: seq<U16>, zones: seq<Zone>)

  /** Dropped nodes and the root move nothing. */
  function Arrive(isRoot: bool, dropped: bool, n: Node, at: Cursor): Cursor {
    if isRoot || dropped then at
    else if n.kind == OTBM_TILE_AREA && |n.props| >= 5 then
      at.(area := Pos(U16At(n.props, 0), U16At(n.props, 2), n.props[4]))
    else if (n.kind == OTBM_TILE || n.kind == OTBM_HOUSETILE) && |n.props| >= 2 then
      at.(tile := Some(Pos(at.area.x + n.props[0], at.area.y + n.props[1], at.area.z)))
    else at
  }

  /** The ids in a node's own properties: a tile's inline items, or the item's own. */
  function IdsOf(cfg: Config, isRoot: bool, dropped: bool, n: Node): seq<U16> {
    if isRoot || dropped then []
    else if n.kind == OTBM_TILE || n.kind == OTBM_HOUSETILE then
      match TileProps(cfg, n.props, n.kind == OTBM_HOUSETILE)
      case Ok(t) => t.ids
      case Err(_) => []
    else if n.kind == OTBM_ITEM && |n.props| >= 2 then [U16At(n.props, 0)]
    else []
  }

  /** A zone node gives its zones the position of the last tile, and is read wherever it stands. */
  function ZonesOf(n: Node, at: Cursor): seq<Zone> {
    if n.kind == OTBM_TILE_ZONE && at.tile.Some? && ZonesReadable(n.props)
    then ReadZones(n.props, U16At(n.props, 0), at.tile.value) else []
  }

  function SurveyAll(cfg: Config, isRoot: bool, inDropped: bool, ns: seq<Node>, at: Cursor): Survey
    decreases ns
  {
    if ns == [] then Survey(at, [], []) else
    var n := ns[0];
    var dropped := inDropped || n.kind == OTBM_TILE_ZONE;
    var below := SurveyAll(cfg, false, dropped || !Kept(cfg, isRoot, n), n.children, Arrive(isRoot, dropped, n, at));
    var rest := SurveyAll(cfg, isRoot, inDropped, ns[1..], below.cursor);
    Survey(rest.cursor, IdsOf(cfg, isRoot, dropped, n) + (below.ids + rest.ids), ZonesOf(n, at) + (below.zones + rest.zones))
  }

  /** The log after so many look-ups and zones. */
  function Logged(cfg: Config, ids: seq<U16>, zones: seq<Zone>, log: Log): Log {
    LookAll(cfg, ids, log).(zones := log.zones + zones)
  }

  lemma {:induction false} LookAllConcat(cfg: Config, a: seq<U16>, b: seq<U16>, log: Log)
    ensures LookAll(cfg, a + b, log) == LookAll(cfg, b, LookAll(cfg, a, log))
  {
    if a == [] {
      assert a + b == b;
    } else {
      LookAllConcat(cfg, a[1..], b, Look(cfg, a[0], log));
      assert (a + b)[1..] == a[1..] + b;
    }
  }

  /** Looking up neither reads nor writes the zones. */
  lemma {:induction false} LookAllApart(cfg: Config, ids: seq<U16>, log: Log, zones: seq<Zone>)
    ensures LookAll(cfg, ids, log.(zones := zones)) == LookAll(cfg, ids, log).(zones := zones)
    ensures LookAll(cfg, ids, log).zones == log.zones
  {
    if ids != [] {
      LookAllApart(cfg, ids[1..], Look(cfg, ids[0], log), zones);
    }
  }

  lemma LoggedTwice(cfg: Config, ids: seq<U16>, zones: seq<Zone>, more: seq<U16>, moreZones: seq<Zone>, log: Log)
    ensures Logged(cfg, more, moreZones, Logged(cfg, ids, zones, log)) == Logged(cfg, ids + more, zones + moreZones, log)
  {
    LookAllConcat(cfg, ids, more, log);
    LookAllApart(cfg, more, LookAll(cfg, ids, log), log.zones + zones);
    assert (log.zones + zones) + moreZones == log.zones + (zones + moreZones);
  }

  /** The environment of the pass, taken apart. */
  function EnvOf(cfg: Config, s: Survey, log: Log): Env {
    Env(s.cursor.area, s.cursor.tile, Logged(cfg, s.ids, s.zones, log))
  }

  lemma LoggedNothing(cfg: Config, log: Log)
    ensures Logged(cfg, [], [], log) == log
  {
    assert log.zones + [] == log.zones;
  }

  /** What one node's own properties do to the environment. */
  lemma RuleReports(cfg: Config, isRoot: bool, dropped: bool, n: Node, env: Env)
    requires n.kind == OTBM_TILE_ZONE ==> dropped
    ensures var p := CanaryRule(cfg)(isRoot, dropped, n.kind, n.props, env);
            var at := Cursor(env.area, env.tile);
            p.Ok? ==> p.value.env == EnvOf(cfg, Survey(Arrive(isRoot, dropped, n, at), IdsOf(cfg, isRoot, dropped, n), ZonesOf(n, at)), env.log)
  {
    LoggedNothing(cfg, env.log);
    var ids := IdsOf(cfg, isRoot, dropped, n);
    LookAllApart(cfg, ids, env.log, env.log.zones);
    assert env.log.zones + [] == env.log.zones;
    if n.kind == OTBM_ITEM && |n.props| >= 2 {
      assert LookAll(cfg, [U16At(n.props, 0)], env.log) == LookAll(cfg, [], Look(cfg, U16At(n.props, 0), env.log));
    }
  }

  lemma Composed(cfg: Config, own: Survey, below: Survey, rest: Survey, log: Log)
    ensures Logged(cfg, rest.ids, rest.zones, Logged(cfg, below.ids, below.zones, Logged(cfg, own.ids, own.zones, log)))
         == Logged(cfg, own.ids + (below.ids + rest.ids), own.zones + (below.zones + rest.zones), log)
  {
    LoggedTwice(cfg, below.ids, below.zones, rest.ids, rest.zones, Logged(cfg, own.ids, own.zones, log));
    LoggedTwice(cfg, own.ids, own.zones, below.ids + rest.ids, below.zones + rest.zones, log);
  }

  /** The environment that the rewrite threads through the tree is the survey of the tree. */
  lemma {:induction false} RewriteReports(cfg: Config, isRoot: bool, inDropped: bool, ns: seq<Node>, env: Env)
    ensures var r := RewriteAll(CanaryRule(cfg), isRoot, inDropped, ns, env);
            r.Ok? ==> r.value.env == EnvOf(cfg, SurveyAll(cfg, isRoot, inDropped, ns, Cursor(env.area, env.tile)), env.log)
    decreases ns
  {
    if ns == [] {
      LoggedNothing(cfg, env.log);
    } else {
      var n := ns[0];
      var dropped := inDropped || n.kind == OTBM_TILE_ZONE;
      RuleOfNode(cfg, isRoot, dropped, n, env);
      RuleReports(cfg, isRoot, dropped, n, env);
      var p := CanaryRule(cfg)(isRoot, dropped, n.kind, n.props, env);
      if p.Ok? {
        RewriteReports(cfg, false, dropped || !Kept(cfg, isRoot, n), n.children, p.value.env);
        var kids := RewriteAll(CanaryRule(cfg), false, p.value.props.None?, n.children, p.value.env);
        if kids.Ok? {
          RewriteReports(cfg, isRoot, inDropped, ns[1..], kids.value.env);
          SurveyStep(cfg, isRoot, inDropped, ns, env, p.value.env, kids.value.env);
        }
      }
    }
  }

  /** A node's own report, its children's and its later siblings', put together. */
  lemma SurveyStep(cfg: Config, isRoot: bool, inDropped: bool, ns: seq<Node>, env: Env, env1: Env, env2: Env)
    requires ns != []
    requires var n, at := ns[0], Cursor(env.area, env.tile);
             var dropped := inDropped || n.kind == OTBM_TILE_ZONE;
             && env1 == EnvOf(cfg, Survey(Arrive(isRoot, dropped, n, at), IdsOf(cfg, isRoot, dropped, n), ZonesOf(n, at)), env.log)
             && env2 == EnvOf(cfg, SurveyAll(cfg, false, dropped || !Kept(cfg, isRoot, n), n.children,
                                             Cursor(env1.area, env1.tile)), env1.log)
    ensures EnvOf(cfg, SurveyAll(cfg, isRoot, inDropped, ns[1..], Cursor(env2.area, env2.tile)), env2.log)
         == EnvOf(cfg, SurveyAll(cfg, isRoot, inDropped, ns, Cursor(env.area, env.tile)), env.log)
  {
    var n, at := ns[0], Cursor(env.area, env.tile);
    var dropped := inDropped || n.kind == OTBM_TILE_ZONE;
    var own := Survey(Arrive(isRoot, dropped, n, at), IdsOf(cfg, isRoot, dropped, n), ZonesOf(n, at));
    var below := SurveyAll(cfg, false, dropped || !Kept(cfg, isRoot, n), n.children, own.cursor);
    var rest := SurveyAll(cfg, isRoot, inDropped, ns[1..], below.cursor);
    Composed(cfg, own, below, rest, env.log);
  }

  /**
   Converting a map file logs each zone of each readable zone node behind a tile, in file order, at the
   position of the last tile; and it counts each id it looked up, as known or as missing.
   */
  lemma ConvertReports(cfg: Config, header: seq<Byte>, root: Node, log: Log)
    requires |header| == 4
    ensures var raw := header + Serialize(root);
            var r := Run(CanaryRule(cfg), raw, 4, Start(raw, log));
            var s := SurveyAll(cfg, true, false, [root], Cursor(Pos(0, 0, 0), None));
            r.Ok? ==>
              && r.value.env.log.zones == log.zones + s.zones
              && r.value.env.log.items == log.items + |Known(cfg, s.ids)|
              && forall id :: Misses(r.value.env.log, id)
                              == Misses(log, id) + (if id in cfg.translation then 0 else multiset(s.ids)[id])
  {
    var raw := header + Serialize(root);
    var st := Start(raw, log);
    var s := SurveyAll(cfg, true, false, [root], Cursor(Pos(0, 0, 0), None));
    RunIsRewrite(cfg, header, root, log);
    RewriteReports(cfg, true, false, [root], st.env);
    forall id ensures Misses(Logged(cfg, s.ids, s.zones, log), id)
                      == Misses(log, id) + (if id in cfg.translation then 0 else multiset(s.ids)[id])
    {
      LookAllCounts(cfg, s.ids, log, id);
    }
    LookAllCounts(cfg, s.ids, log, 0);
  }
}
