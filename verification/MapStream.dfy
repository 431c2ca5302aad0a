/**
 `convert` of harness/build_canary_map.py: one pass over the bytes, with a stack of
 open nodes, against the tree the bytes stand for.
 */
module MapStream {
  import opened Bytes
  import opened Numbers
  import opened Options
  import opened Otbm
  import opened MapConvert

  /** What the pass carries from node to node. */
  datatype Env = Env(area: Pos, tile: Option<Pos>, log: Log)

  /** An open node: its type, whether its properties are still unread, whether it is dropped, where its output began. */
  datatype Open = Open(kind: Byte, pending: bool, dropped: bool, mark: nat)

  datatype Scan = Scan(out: seq<Byte>, stack: seq<Open>, env: Env, pendingStart: nat)

  /** What becomes of a node's properties: None when the node is not written. */
  datatype Payload = Payload(props: Option<seq<Byte>>, env: Env)

  function ReadZones(props: seq<Byte>, count: nat, at: Pos): seq<Zone>
    requires 2 + 2 * count <= |props|
  {
    seq(count, i requires 0 <= i < count => Zone(U16At(props, 2 + 2 * i), at))
  }

  function DroppedPayload(kind: Byte, props: seq<Byte>, env: Env): Result<Payload, Error> {
    if kind != OTBM_TILE_ZONE || env.tile.None? then Ok(Payload(None, env))
    else if |props| < 2 then Err(StructError)
    else if |props| < 2 + 2 * U16At(props, 0) then Err(StructError)
    else
      var zones := ReadZones(props, U16At(props, 0), env.tile.value);
      Ok(Payload(None, env.(log := env.log.(zones := env.log.zones + zones))))
  }

  function KeptPayload(cfg: Config, isRoot: bool, kind: Byte, props: seq<Byte>, env: Env): Result<Payload, Error> {
    if isRoot then Ok(Payload(Some(RootProps(props)), env))
    else if kind == OTBM_MAP_DATA then
      (match MapDataProps(cfg, props)
       case Err(e) => Err(e)
       case Ok(out) => Ok(Payload(Some(out), env)))
    else if kind == OTBM_TILE_AREA then
      if |props| < 5 then Err(StructError)
      else Ok(Payload(Some(props), env.(area := Pos(U16At(props, 0), U16At(props, 2), props[4]))))
    else if kind == OTBM_TILE || kind == OTBM_HOUSETILE then
      if |props| < 2 then Err(IndexError) else
      var tile := Some(Pos(env.area.x + props[0], env.area.y + props[1], env.area.z));
      (match TileProps(cfg, props, kind == OTBM_HOUSETILE)
       case Err(e) => Err(e)
       case Ok(t) => Ok(Payload(Some(t.bytes), env.(tile := tile, log := LookAll(cfg, t.ids, env.log)))))
    else if kind == OTBM_ITEM then
      if |props| < 2 then Err(StructError) else
      var id := U16At(props, 0);
      var env' := env.(log := Look(cfg, id, env.log));
      if id !in cfg.translation then Ok(Payload(None, env'))
      else
        (match PackId(cfg.translation[id])
         case Err(e) => Err(e)
         case Ok(server) => Ok(Payload(Some(server + props[2..]), env')))
    else Ok(Payload(Some(props), env))
  }

  function PayloadOf(cfg: Config, isRoot: bool, dropped: bool, kind: Byte, props: seq<Byte>, env: Env): Result<Payload, Error> {
    if dropped then DroppedPayload(kind, props, env) else KeptPayload(cfg, isRoot, kind, props, env)
  }

  /** The rule for one node's properties: is it a root, is it dropped, its type, its properties, the environment. */
  type Rule = (bool, bool, Byte, seq<Byte>, Env) -> Result<Payload, Error>

  function CanaryRule(cfg: Config): Rule {
    (isRoot: bool, dropped: bool, kind: Byte, props: seq<Byte>, env: Env) =>
      PayloadOf(cfg, isRoot, dropped, kind, props, env)
  }

  /** Dropped nodes are never written. */
  ghost predicate HonoursDrops(rule: Rule) {
    forall isRoot, kind, props, env :: rule(isRoot, true, kind, props, env).Ok? ==>
      rule(isRoot, true, kind, props, env).value.props.None?
  }

  // --------------------------------------------------------------------------------
  // The pass over the bytes
  // --------------------------------------------------------------------------------

  function Top(stack: seq<Open>): Open
    requires stack != []
  {
    stack[|stack| - 1]
  }

  function Below(stack: seq<Open>): seq<Open>
    requires stack != []
  {
    stack[..|stack| - 1]
  }

  predicate Pending(st: Scan) {
    st.stack != [] && Top(st.stack).pending
  }

  function Slice(raw: seq<Byte>, from: nat, to: nat): seq<Byte>
    requires to <= |raw|
  {
    if from <= to then raw[from..to] else []
  }

  /** out[mark:] = b"" */
  function Truncate(out: seq<Byte>, mark: nat): seq<Byte> {
    out[..Min(mark, |out|)]
  }

  /** The innermost open node with its properties written out, or discarded together with its start. */
  function Settled(st: Scan, p: Payload): (st': Scan)
    requires st.stack != []
    ensures |st'.stack| == |st.stack| && !Pending(st')
  {
    var node := Top(st.stack);
    match p.props
    case Some(props) =>
      Scan(st.out + Escape(props), Below(st.stack) + [node.(pending := false)], p.env, st.pendingStart)
    case None =>
      Scan(if node.dropped then st.out else Truncate(st.out, node.mark),
           Below(st.stack) + [node.(pending := false, dropped := true)], p.env, st.pendingStart)
  }

  /** Reads the properties of the innermost open node, if that is still to be done. */
  function Flush(rule: Rule, raw: seq<Byte>, at: nat, st: Scan): (r: Result<Scan, Error>)
    requires at <= |raw|
    ensures r.Ok? ==> |r.value.stack| == |st.stack| && !Pending(r.value)
  {
    if !Pending(st) then Ok(st) else
    var node := Top(st.stack);
    match Unescape(Slice(raw, st.pendingStart, at))
    case Err(e) => Err(e)
    case Ok(props) =>
      match rule(|st.stack| == 1, node.dropped, node.kind, props, st.env)
      case Err(e) => Err(e)
      case Ok(p) => Ok(Settled(st, p))
  }

  predicate InDropped(stack: seq<Open>) {
    stack != [] && Top(stack).dropped
  }

  function OpenNode(st: Scan, kind: Byte, start: nat): Scan {
    var dropped := InDropped(st.stack) || kind == OTBM_TILE_ZONE;
    Scan(if dropped then st.out else st.out + [NODE_START, kind],
         st.stack + [Open(kind, true, dropped, |st.out|)], st.env, start)
  }

  function CloseNode(st: Scan, after: nat): Scan
    requires st.stack != []
  {
    var rest := Below(st.stack);
    Scan(if Top(st.stack).dropped then st.out else st.out + [NODE_END],
         if rest == [] then [] else Below(rest) + [Top(rest).(pending := false)], st.env, after)
  }

  /** The rest of the pass, from the byte at `at`, which no escape byte shields. */
  function Run(rule: Rule, raw: seq<Byte>, at: nat, st: Scan): Result<Scan, Error>
    decreases |raw| - at
  {
    if at >= |raw| then Ok(st)
    else if !IsMarker(raw[at]) then Run(rule, raw, at + 1, st)
    else if raw[at] == ESCAPE then Run(rule, raw, at + 2, st)
    else
      match Flush(rule, raw, at, st)
      case Err(e) => Err(e)
      case Ok(st') =>
        if raw[at] == NODE_START then
          if at + 1 >= |raw| then Err(IndexError)
          else Run(rule, raw, at + 2, OpenNode(st', raw[at + 1], at + 2))
        else if st'.stack == [] then Err(IndexError)
        else Run(rule, raw, at + 1, CloseNode(st', at + 1))
  }

  function Start(raw: seq<Byte>, log: Log): Scan {
    Scan(raw[..Min(4, |raw|)], [], Env(Pos(0, 0, 0), None, log), 0)
  }

  /** The properties of one kept or dropped node, by the converter's own methods. */
  method ConvertPayload(converter: Converter, isRoot: bool, dropped: bool, kind: Byte, props: seq<Byte>,
        area: Pos, tile: Option<Pos>)
    returns (r: Result<Option<seq<Byte>>, Error>, area': Pos, tile': Option<Pos>)
    modifies converter
    ensures match PayloadOf(converter.cfg, isRoot, dropped, kind, props, Env(area, tile, old(converter.Logged())))
            case Err(e) => r == Err(e)
            case Ok(p) => r == Ok(p.props) && p.env == Env(area', tile', converter.Logged())
  {
    area', tile' := area, tile;
    if dropped {
      if kind == OTBM_TILE_ZONE && tile.Some? {
        if |props| < 2 || |props| < 2 + 2 * U16At(props, 0) {
          return Err(StructError), area', tile';
        }
        converter.zones := converter.zones + ReadZones(props, U16At(props, 0), tile.value);
      }
      return Ok(None), area', tile';
    }
    if isRoot {
      return Ok(Some(RootProps(props))), area', tile';
    }
    if kind == OTBM_MAP_DATA {
      var out := converter.MapData(props);
      r := if out.Ok? then Ok(Some(out.value)) else Err(out.error);
    } else if kind == OTBM_TILE_AREA {
      if |props| < 5 {
        return Err(StructError), area', tile';
      }
      area' := Pos(U16At(props, 0), U16At(props, 2), props[4]);
      r := Ok(Some(props));
    } else if kind == OTBM_TILE || kind == OTBM_HOUSETILE {
      if |props| < 2 {
        return Err(IndexError), area', tile';
      }
      tile' := Some(Pos(area.x + props[0], area.y + props[1], area.z));
      var out := converter.Tile(props, kind == OTBM_HOUSETILE);
      r := if out.Ok? then Ok(Some(out.value)) else Err(out.error);
    } else if kind == OTBM_ITEM {
      if |props| < 2 {
        return Err(StructError), area', tile';
      }
      var server := converter.ItemId(U16At(props, 0));
      if server.None? {
        return Ok(None), area', tile';
      }
      if server.value >= 0x1_0000 {
        return Err(StructError), area', tile';
      }
      r := Ok(Some(Le16(server.value) + props[2..]));
    } else {
      r := Ok(Some(props));
    }
  }

  /** The first marker after a node's type: its properties are complete and are written out or discarded. */
  method Settle(converter: Converter, raw: seq<Byte>, at: nat, pendingStart: nat, out: seq<Byte>, stack: seq<Open>,
        area: Pos, tile: Option<Pos>)
    returns (r: Result<(), Error>, out': seq<Byte>, stack': seq<Open>, area': Pos, tile': Option<Pos>)
    requires at <= |raw| && stack != [] && Top(stack).pending
    modifies converter
    ensures match Flush(CanaryRule(converter.cfg), raw, at, Scan(out, stack, Env(area, tile, old(converter.Logged())), pendingStart))
            case Err(e) => r == Err(e)
            case Ok(st) => r.Ok? && st == Scan(out', stack', Env(area', tile', converter.Logged()), pendingStart)
  {
    out', stack', area', tile' := out, stack, area, tile;
    var node := Top(stack);
    var props := UnescapeSegment(Slice(raw, pendingStart, at));
    if props.Err? {
      r := Err(props.error);
      return;
    }
    var converted;
    converted, area', tile' := ConvertPayload(converter, |stack| == 1, node.dropped, node.kind, props.value, area, tile);
    if converted.Err? {
      r := Err(converted.error);
      return;
    }
    r := Ok(());
    if converted.value.Some? {
      var escaped := EscapeData(converted.value.value);
      out' := out + escaped;
      stack' := Below(stack) + [node.(pending := false)];
    } else {
      if !node.dropped {
        out' := Truncate(out, node.mark);
      }
      stack' := Below(stack) + [node.(pending := false, dropped := true)];
    }
  }

  /** The rest of the pass from a position and a state, with its definition out of sight. */
  type Pass = (nat, Scan) -> Result<Scan, Error>

  ghost predicate Passes(run: Pass, rule: Rule, raw: seq<Byte>) {
    forall at: nat, st: Scan {:trigger Run(rule, raw, at, st)} :: run(at, st) == Run(rule, raw, at, st)
  }

  /** The pass at the end, over a plain byte and over an escape. */
  lemma RunOver(run: Pass, rule: Rule, raw: seq<Byte>, at: nat, st: Scan)
    requires Passes(run, rule, raw)
    ensures at >= |raw| ==> run(at, st) == Ok(st)
    ensures at < |raw| && !IsMarker(raw[at]) ==> run(at, st) == run(at + 1, st)
    ensures at < |raw| && raw[at] == ESCAPE ==> run(at, st) == run(at + 2, st)
  {
    assert run(at, st) == Run(rule, raw, at, st);
    assert run(at + 1, st) == Run(rule, raw, at + 1, st) && run(at + 2, st) == Run(rule, raw, at + 2, st);
  }

  /** The pass at a node's start and at its end, once the properties before it are settled. */
  lemma RunMarker(run: Pass, rule: Rule, raw: seq<Byte>, at: nat, st: Scan)
    requires Passes(run, rule, raw) && MarkerAt(raw, at) && !Pending(st)
    ensures raw[at] == NODE_START ==>
              run(at, st) == if at + 1 >= |raw| then Err(IndexError) else run(at + 2, OpenNode(st, raw[at + 1], at + 2))
    ensures raw[at] == NODE_END ==>
              run(at, st) == if st.stack == [] then Err(IndexError) else run(at + 1, CloseNode(st, at + 1))
  {
    assert run(at, st) == Run(rule, raw, at, st);
    if raw[at] == NODE_START && at + 1 < |raw| {
      var st' := OpenNode(st, raw[at + 1], at + 2);
      assert run(at + 2, st') == Run(rule, raw, at + 2, st');
    }
    if raw[at] == NODE_END && st.stack != [] {
      var st' := CloseNode(st, at + 1);
      assert run(at + 1, st') == Run(rule, raw, at + 1, st');
    }
  }

  /** The pass at a marker that finds the properties before it still unread. */
  lemma RunPending(run: Pass, rule: Rule, raw: seq<Byte>, at: nat, st: Scan)
    requires Passes(run, rule, raw) && MarkerAt(raw, at)
    ensures match Flush(rule, raw, at, st)
            case Err(e) => run(at, st) == Err(e)
            case Ok(st') => run(at, st) == run(at, st')
  {
    if Flush(rule, raw, at, st).Ok? {
      RunFlush(run, rule, raw, at, st, Flush(rule, raw, at, st).value);
    } else {
      RunFlushFails(run, rule, raw, at, st, Flush(rule, raw, at, st).error);
    }
  }

  /** Settles the innermost open node if its properties are still unread; the pass goes on as before. */
  method SettlePending(converter: Converter, raw: seq<Byte>, at: nat, pendingStart: nat, out: seq<Byte>, stack: seq<Open>,
        area: Pos, tile: Option<Pos>, ghost run: Pass)
    returns (r: Result<(), Error>, out': seq<Byte>, stack': seq<Open>, area': Pos, tile': Option<Pos>)
    requires MarkerAt(raw, at) && Passes(run, CanaryRule(converter.cfg), raw)
    modifies converter
    ensures var st := Scan(out, stack, Env(area, tile, old(converter.Logged())), pendingStart);
            var st' := Scan(out', stack', Env(area', tile', converter.Logged()), pendingStart);
            match r
            case Err(e) => run(at, st) == Err(e)
            case Ok(_) => run(at, st) == run(at, st') && !Pending(st')
  {
    RunPending(run, CanaryRule(converter.cfg), raw, at, Scan(out, stack, Env(area, tile, converter.Logged()), pendingStart));
    if stack != [] && Top(stack).pending {
      r, out', stack', area', tile' := Settle(converter, raw, at, pendingStart, out, stack, area, tile);
    } else {
      r, out', stack', area', tile' := Ok(()), out, stack, area, tile;
    }
  }

  /** convert: the whole pass over a map. */
  method Convert(raw: seq<Byte>, converter: Converter) returns (r: Result<seq<Byte>, Error>)
    modifies converter
    ensures match Run(CanaryRule(converter.cfg), raw, 4, Start(raw, old(converter.Logged())))
            case Err(e) => r == Err(e)
            case Ok(st) => r == Ok(st.out) && converter.Logged() == st.env.log
  {
    ghost var rule := CanaryRule(converter.cfg);
    ghost var run := (at: nat, st: Scan) => Run(rule, raw, at, st);
    r := ConvertLoop(raw, converter, run);
  }

  /** The loop of convert, as the source writes it. */
  method ConvertLoop(raw: seq<Byte>, converter: Converter, ghost run: Pass) returns (r: Result<seq<Byte>, Error>)
    requires Passes(run, CanaryRule(converter.cfg), raw)
    modifies converter
    ensures match run(4, Start(raw, old(converter.Logged())))
            case Err(e) => r == Err(e)
            case Ok(st) => r == Ok(st.out) && converter.Logged() == st.env.log
  {
    ghost var rule := CanaryRule(converter.cfg);
    var out := raw[..Min(4, |raw|)];
    var stack: seq<Open> := [];
    var area := Pos(0, 0, 0);
    var tilePosition: Option<Pos> := None;
    var position := 4;
    var pendingStart := 0;
    var at := 4;
    while at < |raw|
      invariant 4 <= at && 4 <= position <= at + 1
      invariant run(4, Start(raw, old(converter.Logged())))
             == run(if position <= at then at else position,
                    Scan(out, stack, Env(area, tilePosition, converter.Logged()), pendingStart))
      decreases |raw| - at
    {
      RunOver(run, rule, raw, at, Scan(out, stack, Env(area, tilePosition, converter.Logged()), pendingStart));
      // only marker bytes are matched, and the byte after an escape is not one of them
      if !IsMarker(raw[at]) || at < position {
        at := at + 1;
        continue;
      }
      var byte := raw[at];
      if byte == ESCAPE {
        position := at + 2;
        at := at + 1;
        continue;
      }
      var settled;
      settled, out, stack, area, tilePosition :=
        SettlePending(converter, raw, at, pendingStart, out, stack, area, tilePosition, run);
      if settled.Err? {
        return Err(settled.error);
      }
      RunMarker(run, rule, raw, at, Scan(out, stack, Env(area, tilePosition, converter.Logged()), pendingStart));
      if byte == NODE_START {
        if at + 1 >= |raw| {
          return Err(IndexError);
        }
        var kind := raw[at + 1];
        var dropped := (stack != [] && Top(stack).dropped) || kind == OTBM_TILE_ZONE;
        stack := stack + [Open(kind, true, dropped, |out|)];
        if !dropped {
          out := out + [NODE_START, kind];
        }
        pendingStart := at + 2;
        position := at + 2;
      } else {
        if stack == [] {
          return Err(IndexError);
        }
        var node := Top(stack);
        stack := Below(stack);
        if !node.dropped {
          out := out + [NODE_END];
        }
        position := at + 1;
        pendingStart := position;
        if stack != [] {
          stack := Below(stack) + [Top(stack).(pending := false)];
        }
      }
      at := at + 1;
    }
    RunOver(run, rule, raw, if position <= at then at else position,
            Scan(out, stack, Env(area, tilePosition, converter.Logged()), pendingStart));
    return Ok(out);
  }

  // --------------------------------------------------------------------------------
  // The tree
  // --------------------------------------------------------------------------------

  /** The rewritten nodes, with the pass's environment threaded through them in file order. */
  datatype Rewritten = Rewritten(nodes: seq<Node>, env: Env)

  function Rewrite(rule: Rule, isRoot: bool, inDropped: bool, n: Node, env: Env): Result<Rewritten, Error>
    decreases n, 1
  {
    var dropped := inDropped || n.kind == OTBM_TILE_ZONE;
    match rule(isRoot, dropped, n.kind, n.props, env)
    case Err(e) => Err(e)
    case Ok(p) =>
      Around(n.kind, p.props, RewriteAll(rule, false, p.props.None?, n.children, p.env))
  }

  function Around(kind: Byte, props: Option<seq<Byte>>, kids: Result<Rewritten, Error>): Result<Rewritten, Error> {
    match kids
    case Err(e) => Err(e)
    case Ok(r) => Ok(Rewritten(WrittenNode(kind, props, r.nodes), r.env))
  }

  function WrittenNode(kind: Byte, props: Option<seq<Byte>>, children: seq<Node>): seq<Node> {
    match props
    case None => []
    case Some(bytes) => [Node(kind, bytes, children)]
  }

  function RewriteAll(rule: Rule, isRoot: bool, inDropped: bool, ns: seq<Node>, env: Env): Result<Rewritten, Error>
    decreases ns, 0
  {
    if ns == [] then Ok(Rewritten([], env)) else
    match Rewrite(rule, isRoot, inDropped, ns[0], env)
    case Err(e) => Err(e)
    case Ok(first) => After(first, RewriteAll(rule, isRoot, inDropped, ns[1..], first.env))
  }

  function After(first: Rewritten, rest: Result<Rewritten, Error>): Result<Rewritten, Error> {
    match rest
    case Err(e) => Err(e)
    case Ok(r) => Ok(Rewritten(first.nodes + r.nodes, r.env))
  }

  /** Escaped properties are stepped over without touching the state. */
  lemma {:induction false} RunEscaped(rule: Rule, raw: seq<Byte>, at: nat, s: seq<Byte>, st: Scan)
    requires At(raw, at, s) && Shielded(s)
    ensures Run(rule, raw, at, st) == Run(rule, raw, at + |s|, st)
    decreases |s|
  {
    if s != [] {
      var k := if s[0] == ESCAPE then 2 else 1;
      assert raw[at] == s[0];
      AtSplit(raw, at, s[..k], s[k..]);
      RunEscaped(rule, raw, at + k, s[k..], st);
    }
  }

  /** The state after a node's own properties have been dealt with. */
  function EnterNode(st: Scan, kind: Byte, p: Payload, start: nat): Scan {
    Scan(if p.props.None? then st.out else st.out + ([NODE_START, kind] + Escape(p.props.value)),
         st.stack + [Open(kind, false, p.props.None?, |st.out|)], p.env, start)
  }

  /** The state after some nodes have been rewritten. */
  function Wrote(st: Scan, r: Rewritten, start: nat): Scan {
    Scan(st.out + SerializeAll(r.nodes), st.stack, r.env, start)
  }

  /** The rest of the pass after a stretch of bytes whose nodes are rewritten to `r`. */
  function Resume(run: Pass, to: nat, st: Scan, r: Result<Rewritten, Error>, start: nat): Result<Scan, Error> {
    match r
    case Err(e) => Err(e)
    case Ok(rewritten) => run(to, Wrote(st, rewritten, start))
  }

  function Entering(run: Pass, j: nat, st: Scan, kind: Byte, p: Result<Payload, Error>, start: nat): Result<Scan, Error> {
    match p
    case Err(e) => Err(e)
    case Ok(payload) => run(j, EnterNode(st, kind, payload, start))
  }

  /** From a node's start marker to the marker that ends its properties. */
  lemma RunEnter(run: Pass, rule: Rule, raw: seq<Byte>, at: nat, n: Node, st: Scan, p: Result<Payload, Error>)
    requires HonoursDrops(rule) && Passes(run, rule, raw)
    requires At(raw, at, Opening(n)) && MarkerAt(raw, at + |Opening(n)|) && !Pending(st)
    requires p == rule(st.stack == [], InDropped(st.stack) || n.kind == OTBM_TILE_ZONE, n.kind, n.props, st.env)
    ensures run(at, st) == Entering(run, at + |Opening(n)|, st, n.kind, p, at + 2)
  {
    var j := at + |Opening(n)|;
    var st1 := OpenNode(st, n.kind, at + 2);
    OpeningLayout(raw, at, n);
    RunOpen(run, rule, raw, at, n.kind, st);
    EscapeShields(n.props);
    RunEscaped(rule, raw, at + 2, Escape(n.props), st1);
    assert run(at + 2, st1) == run(j, st1);
    FlushOpened(rule, raw, at + 2, j, st, n, p);
    if p.Ok? {
      RunFlush(run, rule, raw, j, st1, EnterNode(st, n.kind, p.value, at + 2));
    } else {
      RunFlushFails(run, rule, raw, j, st1, p.error);
    }
  }

  lemma RunOpen(run: Pass, rule: Rule, raw: seq<Byte>, at: nat, kind: Byte, st: Scan)
    requires Passes(run, rule, raw)
    requires at + 1 < |raw| && raw[at] == NODE_START && raw[at + 1] == kind && !Pending(st)
    ensures run(at, st) == run(at + 2, OpenNode(st, kind, at + 2))
  {
    assert Run(rule, raw, at, st) == Run(rule, raw, at + 2, OpenNode(st, kind, at + 2));
  }

  /** At a marker, reading the pending properties first changes nothing. */
  lemma RunFlush(run: Pass, rule: Rule, raw: seq<Byte>, at: nat, st: Scan, st': Scan)
    requires Passes(run, rule, raw) && MarkerAt(raw, at) && Flush(rule, raw, at, st) == Ok(st')
    ensures run(at, st) == run(at, st')
  {
    assert !Pending(st');
    assert Flush(rule, raw, at, st') == Ok(st');
    assert Run(rule, raw, at, st) == Run(rule, raw, at, st');
  }

  lemma RunFlushFails(run: Pass, rule: Rule, raw: seq<Byte>, at: nat, st: Scan, e: Error)
    requires Passes(run, rule, raw) && MarkerAt(raw, at) && Flush(rule, raw, at, st) == Err(e)
    ensures run(at, st) == Err(e)
  {
    assert Run(rule, raw, at, st) == Err(e);
  }

  /** What Flush makes of a node that was opened a moment ago. */
  lemma FlushOpened(rule: Rule, raw: seq<Byte>, start: nat, j: nat, st: Scan, n: Node, p: Result<Payload, Error>)
    requires HonoursDrops(rule)
    requires start <= j <= |raw| && raw[start..j] == Escape(n.props)
    requires p == rule(st.stack == [], InDropped(st.stack) || n.kind == OTBM_TILE_ZONE, n.kind, n.props, st.env)
    ensures Flush(rule, raw, j, OpenNode(st, n.kind, start)) ==
            match p {
              case Err(e) => Err(e)
              case Ok(payload) => Ok(EnterNode(st, n.kind, payload, start))
            }
  {
    UnescapeEscape(n.props);
    if p.Ok? {
      SettledOpened(st, n.kind, start, p.value);
    }
  }

  lemma SettledOpened(st: Scan, kind: Byte, start: nat, p: Payload)
    requires InDropped(st.stack) || kind == OTBM_TILE_ZONE ==> p.props.None?
    ensures Settled(OpenNode(st, kind, start), p) == EnterNode(st, kind, p, start)
  {
    var st1 := OpenNode(st, kind, start);
    assert Below(st1.stack) == st.stack;
    if p.props.None? {
      assert Truncate(st.out + [NODE_START, kind], |st.out|) == st.out;
    } else {
      assert (st.out + [NODE_START, kind]) + Escape(p.props.value)
          == st.out + ([NODE_START, kind] + Escape(p.props.value));
    }
  }

  lemma {:induction false} DroppedWritesNothing(rule: Rule, isRoot: bool, ns: seq<Node>, env: Env)
    requires HonoursDrops(rule)
    ensures var r := RewriteAll(rule, isRoot, true, ns, env); r.Ok? ==> r.value.nodes == []
  {
    if ns != [] {
      var first := Rewrite(rule, isRoot, true, ns[0], env);
      if first.Ok? {
        DroppedWritesNothing(rule, isRoot, ns[1..], first.value.env);
      }
    }
  }

  /** The pass over one node's bytes does to output and environment what the tree rewrite says. */
  lemma {:induction false} RunNode(run: Pass, rule: Rule, raw: seq<Byte>, at: nat, n: Node, isRoot: bool, inDropped: bool, st: Scan)
    requires HonoursDrops(rule) && Passes(run, rule, raw) && At(raw, at, Serialize(n)) && !Pending(st)
    requires isRoot == (st.stack == []) && inDropped == InDropped(st.stack)
    ensures var to := at + |Serialize(n)|;
            run(at, st) == Resume(run, to, st, Rewrite(rule, isRoot, inDropped, n, st.env), to)
    decreases n, 1
  {
    var j, to := at + |Opening(n)|, at + |Serialize(n)|;
    var p := rule(isRoot, inDropped || n.kind == OTBM_TILE_ZONE, n.kind, n.props, st.env);
    assert run(at, st) == Entering(run, j, st, n.kind, p, at + 2) by {
      NodeLayout(raw, at, n);
      RunEnter(run, rule, raw, at, n, st, p);
    }
    if p.Ok? {
      var kids := RewriteAll(rule, false, p.value.props.None?, n.children, p.value.env);
      assert run(j, EnterNode(st, n.kind, p.value, at + 2)) == Resume(run, to, st, Around(n.kind, p.value.props, kids), to) by {
        NodeLayout(raw, at, n);
        RunBody(run, rule, raw, j, n, st, p.value, at + 2);
      }
    }
    RewriteEnters(run, rule, isRoot, inDropped, n, st, p, j, at + 2, to);
  }

  /** What is left of a pass that has entered a node, as the tree rewrite puts it. */
  lemma RewriteEnters(run: Pass, rule: Rule, isRoot: bool, inDropped: bool, n: Node, st: Scan,
        p: Result<Payload, Error>, j: nat, start: nat, to: nat)
    requires p == rule(isRoot, inDropped || n.kind == OTBM_TILE_ZONE, n.kind, n.props, st.env)
    requires p.Ok? ==>
               run(j, EnterNode(st, n.kind, p.value, start)) ==
               Resume(run, to, st, Around(n.kind, p.value.props, RewriteAll(rule, false, p.value.props.None?, n.children, p.value.env)), to)
    ensures Entering(run, j, st, n.kind, p, start) == Resume(run, to, st, Rewrite(rule, isRoot, inDropped, n, st.env), to)
  {
  }

  /** From the end of a node's properties to the end of the node. */
  lemma {:induction false} RunBody(run: Pass, rule: Rule, raw: seq<Byte>, j: nat, n: Node, st: Scan, p: Payload, start: nat)
    requires HonoursDrops(rule) && Passes(run, rule, raw) && !Pending(st)
    requires At(raw, j, SerializeAll(n.children)) && At(raw, j + |SerializeAll(n.children)|, [NODE_END])
    ensures var to := j + |SerializeAll(n.children)| + 1;
            run(j, EnterNode(st, n.kind, p, start)) ==
            Resume(run, to, st, Around(n.kind, p.props, RewriteAll(rule, false, p.props.None?, n.children, p.env)), to)
    decreases n, 0
  {
    var k := j + |SerializeAll(n.children)|;
    var st2 := EnterNode(st, n.kind, p, start);
    RunNodes(run, rule, raw, j, n.children, false, p.props.None?, st2);
    var kids := RewriteAll(rule, false, p.props.None?, n.children, p.env);
    if kids.Ok? {
      if p.props.None? {
        DroppedWritesNothing(rule, false, n.children, p.env);
      }
      var start' := if n.children == [] then start else k;
      CloseWrote(st, n.kind, p, start, kids.value, start', k + 1);
      RunClose(run, rule, raw, k, Wrote(st2, kids.value, start'));
    }
  }

  lemma RunClose(run: Pass, rule: Rule, raw: seq<Byte>, k: nat, st: Scan)
    requires Passes(run, rule, raw) && At(raw, k, [NODE_END]) && !Pending(st) && st.stack != []
    ensures run(k, st) == run(k + 1, CloseNode(st, k + 1))
  {
    ByteAt(raw, k, NODE_END);
    assert Run(rule, raw, k, st) == Run(rule, raw, k + 1, CloseNode(st, k + 1));
  }

  /** Children written inside an entered node, and its end marker, are the node written. */
  lemma CloseWrote(st: Scan, kind: Byte, p: Payload, start: nat, kids: Rewritten, start': nat, after: nat)
    requires !Pending(st) && (p.props.None? ==> kids.nodes == [])
    ensures CloseNode(Wrote(EnterNode(st, kind, p, start), kids, start'), after)
         == Wrote(st, Rewritten(WrittenNode(kind, p.props, kids.nodes), kids.env), after)
  {
    var st3 := Wrote(EnterNode(st, kind, p, start), kids, start');
    assert Below(st3.stack) == st.stack;
    if st.stack != [] {
      assert Top(st.stack).(pending := false) == Top(st.stack);
      assert Below(st.stack) + [Top(st.stack)] == st.stack;
    }
    match p.props
    case None =>
      assert SerializeAll(kids.nodes) == [] && SerializeAll(WrittenNode(kind, p.props, kids.nodes)) == [];
      assert st3.out == st.out && st.out + [] == st.out;
    case Some(props) =>
      SerializedOne(st.out, Node(kind, props, kids.nodes));
  }

  lemma SerializedOne(out: seq<Byte>, n: Node)
    ensures ((out + Opening(n)) + SerializeAll(n.children)) + [NODE_END] == out + SerializeAll([n])
  {
    assert SerializeAll([n]) == Serialize(n) + SerializeAll([]);
  }

  lemma NodesLayout(raw: seq<Byte>, at: nat, ns: seq<Node>)
    requires ns != [] && At(raw, at, SerializeAll(ns))
    ensures var mid := at + |Serialize(ns[0])|;
            && At(raw, at, Serialize(ns[0])) && At(raw, mid, SerializeAll(ns[1..]))
            && mid + |SerializeAll(ns[1..])| == at + |SerializeAll(ns)|
  {
    AtSplit(raw, at, Serialize(ns[0]), SerializeAll(ns[1..]));
  }

  lemma WroteNothing(st: Scan)
    ensures Wrote(st, Rewritten([], st.env), st.pendingStart) == st
  {
    assert st.out + [] == st.out;
  }

  lemma {:induction false} RunNodes(run: Pass, rule: Rule, raw: seq<Byte>, at: nat, ns: seq<Node>, isRoot: bool, inDropped: bool, st: Scan)
    requires HonoursDrops(rule) && Passes(run, rule, raw) && At(raw, at, SerializeAll(ns)) && !Pending(st)
    requires isRoot == (st.stack == []) && inDropped == InDropped(st.stack)
    ensures var to := at + |SerializeAll(ns)|;
            run(at, st) == Resume(run, to, st, RewriteAll(rule, isRoot, inDropped, ns, st.env),
                                  if ns == [] then st.pendingStart else to)
    decreases ns, 0
  {
    if ns == [] {
      WroteNothing(st);
    } else {
      var mid := at + |Serialize(ns[0])|;
      NodesLayout(raw, at, ns);
      RunNode(run, rule, raw, at, ns[0], isRoot, inDropped, st);
      var first := Rewrite(rule, isRoot, inDropped, ns[0], st.env);
      if first.Ok? {
        RunNodes(run, rule, raw, mid, ns[1..], isRoot, inDropped, Wrote(st, first.value, mid));
      }
      RewriteSplits(run, rule, ns, isRoot, inDropped, st, first, mid, at + |SerializeAll(ns)|);
    }
  }

  /** What is left of a pass that has rewritten the first node of several. */
  lemma RewriteSplits(run: Pass, rule: Rule, ns: seq<Node>, isRoot: bool, inDropped: bool, st: Scan,
        first: Result<Rewritten, Error>, mid: nat, to: nat)
    requires ns != [] && first == Rewrite(rule, isRoot, inDropped, ns[0], st.env)
    requires first.Ok? ==>
               run(mid, Wrote(st, first.value, mid)) ==
               Resume(run, to, Wrote(st, first.value, mid), RewriteAll(rule, isRoot, inDropped, ns[1..], first.value.env), to)
    ensures Resume(run, mid, st, first, mid) == Resume(run, to, st, RewriteAll(rule, isRoot, inDropped, ns, st.env), to)
  {
    if first.Ok? {
      ResumeAfter(run, to, st, first.value, mid, RewriteAll(rule, isRoot, inDropped, ns[1..], first.value.env));
    }
  }

  lemma ResumeAfter(run: Pass, to: nat, st: Scan, first: Rewritten, mid: nat, rest: Result<Rewritten, Error>)
    ensures Resume(run, to, Wrote(st, first, mid), rest, to) == Resume(run, to, st, After(first, rest), to)
  {
    if rest.Ok? {
      SerializeAllConcat(first.nodes, rest.value.nodes);
      ConcatAssociates(st.out, SerializeAll(first.nodes), SerializeAll(rest.value.nodes));
    }
  }
}
