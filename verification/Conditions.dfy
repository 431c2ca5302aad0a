/**
 The life of conditions on a creature in src/creature.cpp: they are added, removed by hand and
 executed, and starting, merging or executing one may itself add and remove any others.
 */
module Conditions {
  import opened Options

  datatype Kind = Paralyze | Haste | Other(code: nat)

  /** What tells conditions apart when one is added. */
  datatype Key = Key(kind: Kind, id: nat, subId: nat)

  /** Calls of executeCondition, of endCondition, and of a live condition's own addCondition. */
  datatype Event = Ran(handle: nat) | Ended(handle: nat) | Merged(handle: nat)

  /** What the code asks of a creature at some time: its walk delay, the kinds it suppresses, the conditions that have not run out. */
  datatype Moment = Moment(walkDelay: int, suppressed: set<Kind>, running: set<nat>)

  /**
   Changes to the list. An added condition is started, or merged into a live one, and either may change
   the list first, by the script; the walk delay moves on meanwhile, so the two looks at the creature are
   two moments.
   */
  datatype Op =
    | Add(key: Option<Key>, force: bool, script: seq<Op>, starts: bool, entry: Moment, settled: Moment)
    | RemoveKind(kind: Kind, id: Option<nat>, force: bool, walkDelay: int)
    | RemoveOne(handle: nat, force: bool, walkDelay: int)

  /** What executing a condition does: changes to the list, and whether it is still active. */
  datatype Act = Act(script: seq<Op>, stillActive: bool)

  /**
   A creature's conditions, numbered in the order in which they were pushed: the live list, the flags, the
   calls made, the delayed conditions and the deferred removals that the scheduler has been handed.
   */
  datatype State = State(monster: bool, conditions: seq<nat>, keys: map<nat, Key>, removed: set<nat>, next: nat,
                         log: seq<Event>, postponed: seq<Key>, deferred: seq<Kind>)

  function Fresh(monster: bool): State {
    State(monster, [], map[], {}, 0, [], [], [])
  }

  // --------------------------------------------------------------------------------
  // Lists of handles
  // --------------------------------------------------------------------------------

  predicate Rising(s: seq<nat>) {
    forall i, j :: 0 <= i < j < |s| ==> s[i] < s[j]
  }

  /** Without the entry at k. */
  function Without(s: seq<nat>, k: nat): seq<nat>
    requires k < |s|
  {
    s[..k] + s[k + 1..]
  }

  function Keep(s: seq<nat>, keep: nat -> bool): seq<nat> {
    if s == [] then []
    else Keep(s[..|s| - 1], keep) + (if keep(s[|s| - 1]) then [s[|s| - 1]] else [])
  }

  function Not(p: nat -> bool): nat -> bool {
    (h: nat) => !p(h)
  }

  function Is(h: nat): nat -> bool {
    (g: nat) => g == h
  }

  lemma RisingMore(s: seq<nat>, h: nat)
    requires Rising(s) && forall g :: g in s ==> g < h
    ensures Rising(s + [h])
  {
    forall i | 0 <= i < |s| ensures s[i] < h {
      assert s[i] in s;
    }
  }

  lemma {:induction false} KeepExact(s: seq<nat>, keep: nat -> bool)
    ensures forall h :: h in Keep(s, keep) <==> h in s && keep(h)
    ensures Rising(s) ==> Rising(Keep(s, keep))
  {
    if s != [] {
      var n := |s| - 1;
      KeepExact(s[..n], keep);
      assert s == s[..n] + [s[n]];
      if Rising(s) && keep(s[n]) {
        RisingMore(Keep(s[..n], keep), s[n]);
      }
    }
  }

  lemma KeepMore(s: seq<nat>, h: nat, keep: nat -> bool)
    ensures Keep(s + [h], keep) == if keep(h) then Keep(s, keep) + [h] else Keep(s, keep)
  {
    assert (s + [h])[..|s|] == s;
    assert Keep(s, keep) + [] == Keep(s, keep);
  }

  lemma {:induction false} KeepAll(s: seq<nat>, keep: nat -> bool)
    requires forall h :: h in s ==> keep(h)
    ensures Keep(s, keep) == s
  {
    if s != [] {
      var n := |s| - 1;
      assert s == s[..n] + [s[n]];
      KeepAll(s[..n], keep);
    }
  }

  lemma {:induction false} KeepConcat(a: seq<nat>, b: seq<nat>, keep: nat -> bool)
    ensures Keep(a + b, keep) == Keep(a, keep) + Keep(b, keep)
  {
    if b == [] {
      assert a + b == a;
    } else {
      var n := |b| - 1;
      KeepConcat(a, b[..n], keep);
      assert a + b == (a + b[..n]) + [b[n]];
      KeepMore(a + b[..n], b[n], keep);
    }
  }

  /** In a list without repetitions an entry goes by its position or by its handle. */
  lemma WithoutIsKeep(s: seq<nat>, k: nat)
    requires k < |s| && Rising(s)
    ensures Without(s, k) == Keep(s, Not(Is(s[k])))
  {
    var keep := Not(Is(s[k]));
    KeepAll(s[..k], keep);
    KeepAll(s[k + 1..], keep);
    KeepConcat(s[..k] + [s[k]], s[k + 1..], keep);
    KeepMore(s[..k], s[k], keep);
    assert s == (s[..k] + [s[k]]) + s[k + 1..];
  }

  function HandlesOf(s: seq<nat>): set<nat> {
    set h | h in s
  }

  function Ends(s: seq<nat>): seq<Event> {
    seq(|s|, i requires 0 <= i < |s| => Ended(s[i]))
  }

  /** The runs recorded in a stretch of history. */
  function Runs(log: seq<Event>): seq<nat> {
    if log == [] then []
    else
      var last := log[|log| - 1];
      Runs(log[..|log| - 1]) + (if last.Ran? then [last.handle] else [])
  }

  lemma RunsMore(log: seq<Event>, e: Event)
    ensures Runs(log + [e]) == if e.Ran? then Runs(log) + [e.handle] else Runs(log)
  {
    assert (log + [e])[..|log|] == log;
    assert Runs(log) + [] == Runs(log);
  }

  lemma {:induction false} RunsEnds(log: seq<Event>, s: seq<nat>)
    ensures Runs(log + Ends(s)) == Runs(log)
  {
    if s == [] {
      assert log + Ends(s) == log;
    } else {
      var n := |s| - 1;
      RunsEnds(log, s[..n]);
      assert log + Ends(s) == (log + Ends(s[..n])) + [Ended(s[n])];
      RunsMore(log + Ends(s[..n]), Ended(s[n]));
    }
  }

  // --------------------------------------------------------------------------------
  // What each change does
  // --------------------------------------------------------------------------------

  /** The flag, the list and the call of endCondition for some live conditions, in the list's order. */
  function Drop(s: State, gone: nat -> bool): State {
    var ended := Keep(s.conditions, gone);
    s.(conditions := Keep(s.conditions, Not(gone)), removed := s.removed + HandlesOf(ended), log := s.log + Ends(ended))
  }

  function Matching(keys: map<nat, Key>, kind: Kind, id: Option<nat>): nat -> bool {
    (h: nat) => h in keys && keys[h].kind == kind && (id.Some? ==> keys[h].id == id.value)
  }

  /** A paralysis is not removed while the creature is in its step, unless by force. */
  predicate Deferred(kind: Kind, force: bool, walkDelay: int) {
    !force && kind.Paralyze? && walkDelay > 0
  }

  function KindRemoved(s: State, kind: Kind, id: Option<nat>, force: bool, walkDelay: int): State {
    var gone := Matching(s.keys, kind, id);
    if Keep(s.conditions, gone) == [] then s
    else if Deferred(kind, force, walkDelay) then s.(deferred := s.deferred + [kind])
    else Drop(s, gone)
  }

  function OneRemoved(s: State, h: nat, force: bool, walkDelay: int): State {
    if h !in s.conditions || h !in s.keys then s
    else if Deferred(s.keys[h].kind, force, walkDelay) then s.(deferred := s.deferred + [s.keys[h].kind])
    else Drop(s, Is(h))
  }

  /** The first live condition of a key. */
  function FirstOf(conditions: seq<nat>, keys: map<nat, Key>, key: Key): Option<nat> {
    if conditions == [] then None
    else if conditions[0] in keys && keys[conditions[0]] == key then Some(conditions[0])
    else FirstOf(conditions[1..], keys, key)
  }

  /** hasCondition: a live one with sub-id zero, not run out, of a kind that is not suppressed. */
  predicate Has(s: State, kind: Kind, m: Moment) {
    kind !in m.suppressed
    && exists h :: h in s.conditions && h in s.keys && s.keys[h].kind == kind && s.keys[h].subId == 0 && h in m.running
  }

  function Opposite(kind: Kind): Option<Kind> {
    match kind
    case Paralyze => Some(Haste)
    case Haste => Some(Paralyze)
    case Other(_) => None
  }

  function Push(s: State, key: Key): State {
    s.(conditions := s.conditions + [s.next], keys := s.keys[s.next := key], next := s.next + 1)
  }

  /** onAddCondition, which monsters override: haste and paralysis drive each other out. */
  function Settle(s: State, kind: Kind, m: Moment): State {
    if s.monster || Opposite(kind).None? || !Has(s, Opposite(kind).value, m) then s
    else KindRemoved(s, Opposite(kind).value, None, false, m.walkDelay)
  }

  /** Haste waits for a paralysed creature to end its step. */
  predicate Delayed(s: State, key: Key, force: bool, m: Moment) {
    !force && key.kind.Haste? && Has(s, Paralyze, m) && m.walkDelay > 0
  }

  function Apply(op: Op, s: State): State
    decreases op, 1
  {
    match op
    case RemoveKind(kind, id, force, walkDelay) => KindRemoved(s, kind, id, force, walkDelay)
    case RemoveOne(h, force, walkDelay) => OneRemoved(s, h, force, walkDelay)
    case Add(None, _, _, _, _, _) => s
    case Add(Some(key), force, script, starts, entry, settled) =>
      if Delayed(s, key, force, entry) then s.(postponed := s.postponed + [key])
      else
        match FirstOf(s.conditions, s.keys, key)
        case Some(h) => ApplyAll(script, s.(log := s.log + [Merged(h)]))
        case None =>
          var started := ApplyAll(script, s);
          if starts then Settle(Push(started, key), key.kind, settled) else started
  }

  function ApplyAll(script: seq<Op>, s: State): State
    decreases script, 0
  {
    if script == [] then s else ApplyAll(script[1..], Apply(script[0], s))
  }

  /** The turn of one condition of a pass. */
  function Served(s: State, h: nat, act: Act): State {
    if h in s.removed then s
    else
      var ran := ApplyAll(act.script, s.(log := s.log + [Ran(h)]));
      if act.stillActive || h in ran.removed || h !in ran.conditions then ran else Drop(ran, Is(h))
  }

  function Pass(s: State, snapshot: seq<nat>, acts: nat -> Act): State {
    if snapshot == [] then s
    else
      var n := |snapshot| - 1;
      Served(Pass(s, snapshot[..n], acts), snapshot[n], acts(snapshot[n]))
  }

  // --------------------------------------------------------------------------------
  // What every change keeps
  // --------------------------------------------------------------------------------

  /** The list against the flags: a pushed condition is live, in order, or has its flag set. */
  ghost predicate Listed(s: State) {
    && Rising(s.conditions)
    && (forall h :: h in s.keys ==> h < s.next)
    && (forall h :: h in s.conditions ==> h in s.keys && h !in s.removed)
    && (forall h :: h in s.keys && h !in s.conditions ==> h in s.removed)
    && (forall h :: h in s.removed ==> h in s.keys)
  }

  /** A condition has ended exactly if its flag is set, it ends once, and nothing of it is called after that. */
  ghost predicate Logged(log: seq<Event>, removed: set<nat>) {
    && (forall i, j :: 0 <= i < j < |log| && log[i].Ended? ==> log[j].handle != log[i].handle)
    && (forall h :: h in removed <==> Ended(h) in log)
  }

  ghost predicate Sound(s: State) {
    Listed(s) && Logged(s.log, s.removed)
  }

  /** The state only moves on: flags stay set, history stays, and what is new is numbered behind the old. */
  ghost predicate Onward(s: State, t: State) {
    && s.next <= t.next && s.removed <= t.removed && s.log <= t.log && s.monster == t.monster
    && (forall h :: h in s.keys ==> h in t.keys && t.keys[h] == s.keys[h])
    && (forall h :: h in t.conditions && h < s.next ==> h in s.conditions)
  }

  /** Changes to the list keep all of it, and run nothing. */
  ghost predicate Steady(s: State, t: State) {
    Sound(t) && Onward(s, t) && Runs(t.log) == Runs(s.log)
  }

  lemma SteadyTrans(s: State, t: State, u: State)
    requires Steady(s, t) && Steady(t, u)
    ensures Steady(s, u)
  {
  }

  lemma DropListed(s: State, gone: nat -> bool)
    requires Listed(s)
    ensures Listed(Drop(s, gone)) && Onward(s, Drop(s, gone))
  {
    KeepExact(s.conditions, gone);
    KeepExact(s.conditions, Not(gone));
  }

  /** Ending live conditions, each once, keeps the history exact. */
  lemma EndLogged(log: seq<Event>, removed: set<nat>, ended: seq<nat>)
    requires Logged(log, removed) && Rising(ended) && forall h :: h in ended ==> h !in removed
    ensures Logged(log + Ends(ended), removed + HandlesOf(ended))
  {
    var log' := log + Ends(ended);
    forall i, j | 0 <= i < j < |log'| && log'[i].Ended? ensures log'[j].handle != log'[i].handle {
      if i < |log| {
        assert Ended(log[i].handle) in log;
        assert j >= |log| ==> ended[j - |log|] in ended;
      }
    }
    forall h | h in ended ensures Ended(h) in log' {
      var i :| 0 <= i < |ended| && ended[i] == h;
      assert log'[|log| + i] == Ended(h);
    }
  }

  lemma CallLogged(log: seq<Event>, removed: set<nat>, call: Event)
    requires Logged(log, removed) && !call.Ended? && call.handle !in removed
    ensures Logged(log + [call], removed)
  {
    forall i | 0 <= i < |log| && log[i].Ended? ensures log[i].handle != call.handle {
      assert Ended(log[i].handle) in log;
    }
  }

  /** A condition's flag is set exactly when it leaves the list. */
  lemma DropValid(s: State, gone: nat -> bool)
    requires Sound(s)
    ensures Steady(s, Drop(s, gone))
  {
    DropListed(s, gone);
    KeepExact(s.conditions, gone);
    EndLogged(s.log, s.removed, Keep(s.conditions, gone));
    RunsEnds(s.log, Keep(s.conditions, gone));
  }

  lemma PushValid(s: State, key: Key)
    requires Sound(s)
    ensures Steady(s, Push(s, key))
  {
    forall h ensures h in Push(s, key).conditions <==> h in s.conditions || h == s.next {
      if h == s.next {
        assert Push(s, key).conditions[|s.conditions|] == h;
      }
    }
    RisingMore(s.conditions, s.next);
  }

  lemma MergeValid(s: State, h: nat)
    requires Sound(s) && h in s.conditions
    ensures Steady(s, s.(log := s.log + [Merged(h)]))
  {
    CallLogged(s.log, s.removed, Merged(h));
    RunsMore(s.log, Merged(h));
  }

  lemma KindRemovedValid(s: State, kind: Kind, id: Option<nat>, force: bool, walkDelay: int)
    requires Sound(s)
    ensures Steady(s, KindRemoved(s, kind, id, force, walkDelay))
  {
    DropValid(s, Matching(s.keys, kind, id));
  }

  lemma {:induction false} FirstOfExact(conditions: seq<nat>, keys: map<nat, Key>, key: Key)
    ensures match FirstOf(conditions, keys, key)
            case Some(h) => h in conditions && h in keys && keys[h] == key
            case None => forall h :: h in conditions && h in keys ==> keys[h] != key
  {
    if conditions != [] {
      FirstOfExact(conditions[1..], keys, key);
      assert conditions == [conditions[0]] + conditions[1..];
    }
  }

  lemma SettledValid(s: State, key: Key, m: Moment)
    requires Sound(s)
    ensures Steady(s, Settle(Push(s, key), key.kind, m))
  {
    PushValid(s, key);
    if Opposite(key.kind).Some? {
      KindRemovedValid(Push(s, key), Opposite(key.kind).value, None, false, m.walkDelay);
      SteadyTrans(s, Push(s, key), KindRemoved(Push(s, key), Opposite(key.kind).value, None, false, m.walkDelay));
    }
  }

  lemma {:induction false} ApplyValid(op: Op, s: State)
    requires Sound(s)
    ensures Steady(s, Apply(op, s))
    decreases op, 1
  {
    match op
    case RemoveKind(kind, id, force, walkDelay) => KindRemovedValid(s, kind, id, force, walkDelay);
    case RemoveOne(h, _, _) => DropValid(s, Is(h));
    case Add(None, _, _, _, _, _) =>
    case Add(Some(key), force, script, starts, entry, settled) =>
      if !Delayed(s, key, force, entry) {
        FirstOfExact(s.conditions, s.keys, key);
        match FirstOf(s.conditions, s.keys, key)
        case Some(h) =>
          var merging := s.(log := s.log + [Merged(h)]);
          MergeValid(s, h);
          ApplyAllValid(script, merging);
          SteadyTrans(s, merging, ApplyAll(script, merging));
        case None =>
          var started := ApplyAll(script, s);
          ApplyAllValid(script, s);
          SettledValid(started, key, settled);
          SteadyTrans(s, started, Settle(Push(started, key), key.kind, settled));
      }
  }

  /** Whatever a script does, list, flags and history stay exact, and it runs nothing. */
  lemma {:induction false} ApplyAllValid(script: seq<Op>, s: State)
    requires Sound(s)
    ensures Steady(s, ApplyAll(script, s))
    decreases script, 0
  {
    if script != [] {
      ApplyValid(script[0], s);
      ApplyAllValid(script[1..], Apply(script[0], s));
      SteadyTrans(s, Apply(script[0], s), ApplyAll(script, s));
    }
  }

  // --------------------------------------------------------------------------------
  // Which conditions a removal and an addition concern, by their keys
  // --------------------------------------------------------------------------------

  /** Nothing but the list, the flags and the history differs, and the history by the ends of what left. */
  ghost predicate Removes(s: State, t: State, ended: seq<nat>) {
    && t == s.(conditions := t.conditions, removed := t.removed, log := s.log + Ends(ended))
    && Rising(t.conditions) && Rising(ended)
    && (forall h :: h in ended <==> h in s.conditions && h !in t.conditions)
    && (forall h :: h in t.conditions ==> h in s.conditions)
    && (forall h :: h in t.removed <==> h in s.removed || h in ended)
  }

  lemma DropRemoves(s: State, gone: nat -> bool)
    requires Listed(s)
    ensures Removes(s, Drop(s, gone), Keep(s.conditions, gone))
    ensures forall h :: h in Drop(s, gone).conditions <==> h in s.conditions && !gone(h)
  {
    KeepExact(s.conditions, gone);
    KeepExact(s.conditions, Not(gone));
  }

  /** A live condition of a type, and of an id if one is given. */
  predicate Concerned(s: State, kind: Kind, id: Option<nat>, h: nat) {
    h in s.conditions && h in s.keys && s.keys[h].kind == kind && (id.None? || s.keys[h].id == id.value)
  }

  lemma NoneConcerned(s: State, gone: nat -> bool)
    requires Listed(s) && Keep(s.conditions, gone) == []
    ensures Drop(s, gone) == s && forall h :: h in s.conditions ==> !gone(h)
  {
    NoneKept(s.conditions, gone);
    KeepExact(s.conditions, gone);
    assert s.log + Ends([]) == s.log;
    assert s.removed + HandlesOf([]) == s.removed;
    forall h | h in s.conditions ensures !gone(h) {
      assert h !in Keep(s.conditions, gone);
    }
  }

  lemma SomeConcerned(s: State, gone: nat -> bool)
    requires Keep(s.conditions, gone) != []
    ensures exists h :: h in s.conditions && gone(h)
  {
    KeepExact(s.conditions, gone);
    var h := Keep(s.conditions, gone)[0];
    assert h in Keep(s.conditions, gone);
  }

  lemma ConcernedIsMatching(s: State, kind: Kind, id: Option<nat>)
    requires Listed(s)
    ensures forall h :: h in s.conditions ==> (Matching(s.keys, kind, id)(h) <==> Concerned(s, kind, id, h))
  {
  }

  /**
   A removal by type, with or without an id, takes exactly the live conditions of that type, and of that id if one is
   given, and ends each once, in the list's order; nothing else changes.
   */
  lemma KindRemovedExactly(s: State, kind: Kind, id: Option<nat>, force: bool, walkDelay: int)
    returns (ended: seq<nat>)
    requires Sound(s) && (force || kind != Paralyze || walkDelay <= 0)
    ensures var t := KindRemoved(s, kind, id, force, walkDelay);
            && Removes(s, t, ended)
            && (forall h :: h in t.conditions <==>
                  h in s.conditions && !(s.keys[h].kind == kind && (id.None? || s.keys[h].id == id.value)))
  {
    var gone := Matching(s.keys, kind, id);
    ended := Keep(s.conditions, gone);
    ConcernedIsMatching(s, kind, id);
    DropRemoves(s, gone);
    if ended == [] {
      NoneConcerned(s, gone);
    }
  }

  /** In its step, a creature keeps its paralyses unless forced, and the scheduler is told once if there is one. */
  lemma ParalysisDeferredExactly(s: State, id: Option<nat>, walkDelay: int)
    requires Sound(s) && walkDelay > 0
    ensures KindRemoved(s, Paralyze, id, false, walkDelay)
         == if exists h :: Concerned(s, Paralyze, id, h) then s.(deferred := s.deferred + [Paralyze]) else s
  {
    var gone := Matching(s.keys, Paralyze, id);
    ConcernedIsMatching(s, Paralyze, id);
    if Keep(s.conditions, gone) == [] {
      NoneConcerned(s, gone);
    } else {
      SomeConcerned(s, gone);
      var h :| h in s.conditions && gone(h);
      assert Concerned(s, Paralyze, id, h);
    }
  }

  /** A removal of one condition takes that one if it is live, and puts a paralysis off in the same way. */
  lemma OneRemovedExactly(s: State, h: nat, force: bool, walkDelay: int)
    requires Sound(s)
    ensures var t := OneRemoved(s, h, force, walkDelay);
            if h !in s.conditions then t == s
            else if !force && s.keys[h].kind == Paralyze && walkDelay > 0 then t == s.(deferred := s.deferred + [Paralyze])
            else Removes(s, t, [h])
  {
    if h in s.conditions {
      KeepExact(s.conditions, Is(h));
      RisingOne(Keep(s.conditions, Is(h)), h);
      DropRemoves(s, Is(h));
    }
  }

  lemma {:induction false} FirstOfLeast(conditions: seq<nat>, keys: map<nat, Key>, h: nat)
    requires Rising(conditions) && h in conditions && h in keys
    requires forall g :: g in conditions && g < h && g in keys ==> keys[g] != keys[h]
    ensures FirstOf(conditions, keys, keys[h]) == Some(h)
  {
    var g := conditions[0];
    if g != h {
      var i :| 0 <= i < |conditions| && conditions[i] == h;
      assert conditions[1..][i - 1] == h;
      FirstOfLeast(conditions[1..], keys, h);
    }
  }

  /** A condition whose key is live is merged into the oldest one of that key, and the list itself stays. */
  lemma AddedMerges(s: State, key: Key, force: bool, starts: bool, m: Moment, h: nat)
    requires Sound(s) && (force || key.kind != Haste || m.walkDelay <= 0 || !Has(s, Paralyze, m))
    requires h in s.conditions && s.keys[h] == key && forall g :: g in s.conditions && g < h ==> s.keys[g] != key
    ensures Apply(Add(Some(key), force, [], starts, m, m), s) == s.(log := s.log + [Merged(h)])
  {
    FirstOfLeast(s.conditions, s.keys, h);
  }

  /** A haste waits for the step of a creature that is seen to be paralysed; one that does not start is gone. */
  lemma AddedWaits(s: State, key: Key, force: bool, m: Moment)
    requires Sound(s) && forall h :: h in s.conditions ==> s.keys[h] != key
    ensures Apply(Add(Some(key), force, [], false, m, m), s)
         == if !force && key.kind == Haste && m.walkDelay > 0 && Has(s, Paralyze, m)
            then s.(postponed := s.postponed + [key]) else s
  {
    FirstOfExact(s.conditions, s.keys, key);
  }

  /** hasCondition sees what was added exactly if its sub-id is zero, it has not run out and its kind is not suppressed. */
  lemma AddedIsSeen(s: State, key: Key, m: Moment, look: Moment)
    requires Sound(s) && key.kind.Other? && forall h :: h in s.conditions ==> s.keys[h].kind != key.kind
    ensures Has(Apply(Add(Some(key), false, [], true, m, m), s), key.kind, look)
            <==> key.subId == 0 && s.next in look.running && key.kind !in look.suppressed
    ensures !Has(s, key.kind, look)
  {
    FirstOfExact(s.conditions, s.keys, key);
    PushedList(s, key);
    assert s.next in Push(s, key).conditions;
  }

  // --------------------------------------------------------------------------------
  // Haste and paralysis
  // --------------------------------------------------------------------------------

  predicate Live(s: State, kind: Kind) {
    exists h :: h in s.conditions && h in s.keys && s.keys[h].kind == kind
  }

  predicate Both(s: State) {
    Live(s, Haste) && Live(s, Paralyze)
  }

  /** Settling a new condition drives the opposite kind out. */
  predicate Clears(s: State, kind: Kind, m: Moment) {
    && !s.monster && Opposite(kind).Some? && Has(s, Opposite(kind).value, m)
    && !Deferred(Opposite(kind).value, false, m.walkDelay)
  }

  lemma KindRemovedLive(s: State, kind: Kind, id: Option<nat>, force: bool, walkDelay: int, k: Kind)
    ensures Live(KindRemoved(s, kind, id, force, walkDelay), k) ==> Live(s, k)
    ensures id.None? ==>
              (Live(KindRemoved(s, kind, id, force, walkDelay), k)
               <==> Live(s, k) && (k == kind ==> Deferred(kind, force, walkDelay)))
  {
    var t, gone := KindRemoved(s, kind, id, force, walkDelay), Matching(s.keys, kind, id);
    KeepExact(s.conditions, gone);
    KeepExact(s.conditions, Not(gone));
    if Live(s, k) {
      var h :| h in s.conditions && h in s.keys && s.keys[h].kind == k;
      assert id.None? ==> (gone(h) <==> k == kind);
      assert gone(h) ==> h in Keep(s.conditions, gone);
    }
  }

  lemma SettleLive(s: State, kind: Kind, m: Moment, k: Kind)
    ensures Live(Settle(s, kind, m), k) <==> Live(s, k) && !(Clears(s, kind, m) && Opposite(kind) == Some(k))
  {
    if Opposite(kind).Some? && Has(s, Opposite(kind).value, m) {
      KindRemovedLive(s, Opposite(kind).value, None, false, m.walkDelay, k);
    }
  }

  lemma PushLive(s: State, key: Key, k: Kind)
    requires Listed(s)
    ensures Live(Push(s, key), k) <==> Live(s, k) || k == key.kind
  {
    var t := Push(s, key);
    assert t.conditions[|s.conditions|] == s.next;
    forall h ensures h in t.conditions <==> h in s.conditions || h == s.next {
    }
    forall h | h in s.conditions ensures h in t.keys && t.keys[h] == s.keys[h] {
    }
    if Live(s, k) {
      var h :| h in s.conditions && h in s.keys && s.keys[h].kind == k;
      assert h in t.conditions;
    }
    assert t.conditions[|s.conditions|] in t.conditions;
  }

  /** The condition is started, and joins the list if it does start. */
  predicate Joins(op: Op, s: State) {
    op.Add? && op.key.Some? && !Delayed(s, op.key.value, op.force, op.entry)
    && FirstOf(s.conditions, s.keys, op.key.value).None? && op.starts
  }

  /** It joins beside a live condition of the opposite kind, and does not drive it out. */
  predicate Slips(op: Op, s: State) {
    Joins(op, s)
    && var started := ApplyAll(op.script, s);
       var kind := op.key.value.kind;
       Opposite(kind).Some? && Live(started, Opposite(kind).value)
       && !Clears(Push(started, op.key.value), kind, op.settled)
  }

  /** A condition that joins leaves both kinds live exactly if it slips by, or they were before it joined and it is neither. */
  lemma JoinBoth(op: Op, s: State)
    requires Sound(s) && Joins(op, s) && !Both(ApplyAll(op.script, s))
    ensures Both(Apply(op, s)) <==> Slips(op, s)
  {
    var started, key := ApplyAll(op.script, s), op.key.value;
    ApplyAllValid(op.script, s);
    PushLive(started, key, Haste);
    PushLive(started, key, Paralyze);
    SettleLive(Push(started, key), key.kind, op.settled, Haste);
    SettleLive(Push(started, key), key.kind, op.settled, Paralyze);
  }

  /** Some state during a script, or behind it, has both. */
  predicate EverBoth(script: seq<Op>, s: State)
    decreases script, 0
  {
    Both(s) || (script != [] && (BothIn(script[0], s) || EverBoth(script[1..], Apply(script[0], s))))
  }

  predicate BothIn(op: Op, s: State)
    decreases op, 1
  {
    match op
    case Add(Some(key), force, script, _, entry, _) =>
      !Delayed(s, key, force, entry)
      && (match FirstOf(s.conditions, s.keys, key)
          case Some(h) => EverBoth(script, s.(log := s.log + [Merged(h)]))
          case None => EverBoth(script, s))
    case _ => false
  }

  /** Some condition added by a script, or by what adding it brings about, slips by. */
  predicate EverSlips(script: seq<Op>, s: State)
    decreases script, 0
  {
    script != [] && (SlipsIn(script[0], s) || EverSlips(script[1..], Apply(script[0], s)))
  }

  predicate SlipsIn(op: Op, s: State)
    decreases op, 1
  {
    Slips(op, s)
    || (match op
        case Add(Some(key), force, script, _, entry, _) =>
          !Delayed(s, key, force, entry)
          && (match FirstOf(s.conditions, s.keys, key)
              case Some(h) => EverSlips(script, s.(log := s.log + [Merged(h)]))
              case None => EverSlips(script, s))
        case _ => false)
  }

  lemma {:induction false} EverBothEnds(script: seq<Op>, s: State)
    requires Both(ApplyAll(script, s))
    ensures EverBoth(script, s)
    decreases script
  {
    if script != [] {
      EverBothEnds(script[1..], Apply(script[0], s));
    }
  }

  lemma RemovalLive(op: Op, s: State, k: Kind)
    requires !op.Add?
    ensures Live(Apply(op, s), k) ==> Live(s, k)
  {
    match op
    case RemoveKind(kind, id, force, walkDelay) => KindRemovedLive(s, kind, id, force, walkDelay, k);
    case RemoveOne(h, _, _) => KeepExact(s.conditions, Not(Is(h)));
  }

  lemma {:induction false} OpBothExactly(op: Op, s: State)
    requires Sound(s) && !Both(s)
    ensures BothIn(op, s) || Both(Apply(op, s)) <==> SlipsIn(op, s)
    decreases op, 1
  {
    match op
    case RemoveKind(_, _, _, _) =>
      RemovalLive(op, s, Haste);
      RemovalLive(op, s, Paralyze);
    case RemoveOne(_, _, _) =>
      RemovalLive(op, s, Haste);
      RemovalLive(op, s, Paralyze);
    case Add(None, _, _, _, _, _) =>
    case Add(Some(key), force, script, starts, entry, settled) =>
      if !Delayed(s, key, force, entry) {
        FirstOfExact(s.conditions, s.keys, key);
        match FirstOf(s.conditions, s.keys, key)
        case Some(h) =>
          var merging := s.(log := s.log + [Merged(h)]);
          MergeValid(s, h);
          BothExactly(script, merging);
          if Both(ApplyAll(script, merging)) {
            EverBothEnds(script, merging);
          }
        case None =>
          BothExactly(script, s);
          if Both(ApplyAll(script, s)) {
            EverBothEnds(script, s);
          } else if starts {
            JoinBoth(op, s);
          }
      }
  }

  /** Over every script from a creature without both: haste and paralysis are ever live together if and only if one slips by. */
  lemma {:induction false} BothExactly(script: seq<Op>, s: State)
    requires Sound(s) && !Both(s)
    ensures EverBoth(script, s) <==> EverSlips(script, s)
    decreases script, 0
  {
    if script != [] {
      OpBothExactly(script[0], s);
      if !Both(Apply(script[0], s)) {
        ApplyValid(script[0], s);
        BothExactly(script[1..], Apply(script[0], s));
      }
    }
  }

  /** Without a script, and with one look at the creature: what a caller can tell beforehand. */
  lemma AddedBoth(s: State, key: Key, force: bool, starts: bool, m: Moment)
    requires Sound(s) && !Both(s)
    ensures Both(Apply(Add(Some(key), force, [], starts, m, m), s)) <==>
            && starts && FirstOf(s.conditions, s.keys, key).None?
            && match key.kind
               case Haste => Live(s, Paralyze)
                             && (!Has(s, Paralyze, m) || (force && m.walkDelay > 0) || (s.monster && (force || m.walkDelay <= 0)))
               case Paralyze => Live(s, Haste) && (!Has(s, Haste, m) || s.monster)
               case Other(_) => false
  {
    var op := Add(Some(key), force, [], starts, m, m);
    assert ApplyAll([], s) == s;
    if Opposite(key.kind).Some? {
      PushHas(s, key, Opposite(key.kind).value, m);
    }
    if Joins(op, s) {
      JoinBoth(op, s);
    } else {
      FirstOfExact(s.conditions, s.keys, key);
      if !Delayed(s, key, force, m) && FirstOf(s.conditions, s.keys, key).Some? {
        assert ApplyAll([], s.(log := s.log + [Merged(FirstOf(s.conditions, s.keys, key).value)])).conditions == s.conditions;
      }
    }
  }

  lemma PushHas(s: State, key: Key, kind: Kind, m: Moment)
    requires Listed(s) && kind != key.kind
    ensures Has(Push(s, key), kind, m) <==> Has(s, kind, m)
  {
    var t := Push(s, key);
    forall h | h in s.conditions ensures h in t.conditions && h in t.keys && t.keys[h] == s.keys[h] {
    }
    assert t.keys[s.next].kind != kind;
  }

  /** A handle of the kind that the new condition drives out. */
  predicate DrivenOut(s: State, kind: Kind, m: Moment, h: nat) {
    Clears(s, kind, m) && h in s.keys && s.keys[h].kind == Opposite(kind).value
  }

  lemma SettledList(s: State, kind: Kind, m: Moment)
    requires Listed(s)
    ensures var t := Settle(s, kind, m);
            && t.keys == s.keys && t.next == s.next
            && (forall h :: h in t.conditions <==> h in s.conditions && !DrivenOut(s, kind, m, h))
            && (forall h :: h in t.removed <==> h in s.removed || (h in s.conditions && DrivenOut(s, kind, m, h)))
  {
    if Clears(s, kind, m) {
      var gone := Matching(s.keys, Opposite(kind).value, None);
      KeepExact(s.conditions, gone);
      KeepExact(s.conditions, Not(gone));
    }
  }

  lemma PushedList(s: State, key: Key)
    ensures forall h :: h in Push(s, key).conditions <==> h in s.conditions || h == s.next
  {
    assert Push(s, key).conditions[|s.conditions|] == s.next;
  }

  lemma JoinedList(s: State, key: Key, m: Moment)
    requires Sound(s)
    ensures var t := Settle(Push(s, key), key.kind, m);
            && t.keys == s.keys[s.next := key] && t.next == s.next + 1
            && (forall h :: h in t.conditions <==>
                  (h in s.conditions || h == s.next) && !DrivenOut(Push(s, key), key.kind, m, h))
            && (forall h :: h in t.removed <==> h in s.removed || (h in s.conditions && h !in t.conditions))
  {
    PushValid(s, key);
    PushedList(s, key);
    SettledList(Push(s, key), key.kind, m);
  }

  /** The list behind an addition: what starting left, and the new condition, without the kind that it drives out. */
  lemma AddedList(op: Op, s: State)
    requires Sound(s) && Joins(op, s)
    ensures var started, t, key := ApplyAll(op.script, s), Apply(op, s), op.key.value;
            && t.keys == started.keys[started.next := key] && t.next == started.next + 1
            && (forall h :: h in t.conditions <==>
                  (h in started.conditions || h == started.next)
                  && !DrivenOut(Push(started, key), key.kind, op.settled, h))
            && (forall h :: h in t.removed <==> h in started.removed || (h in started.conditions && h !in t.conditions))
  {
    ApplyAllValid(op.script, s);
    JoinedList(ApplyAll(op.script, s), op.key.value, op.settled);
  }

  // --------------------------------------------------------------------------------
  // One condition of each key
  // --------------------------------------------------------------------------------

  ghost predicate OneEach(s: State) {
    forall g, h :: g in s.conditions && h in s.conditions && g in s.keys && h in s.keys && s.keys[g] == s.keys[h] ==> g == h
  }

  /** A condition that joins stays the only one of its key exactly if its start has not left one behind. */
  lemma JoinOneEach(op: Op, s: State)
    requires Sound(s) && Joins(op, s) && OneEach(ApplyAll(op.script, s))
    ensures var started := ApplyAll(op.script, s);
            OneEach(Apply(op, s)) <==> FirstOf(started.conditions, started.keys, op.key.value).None?
  {
    var started, t, key := ApplyAll(op.script, s), Apply(op, s), op.key.value;
    ApplyAllValid(op.script, s);
    AddedList(op, s);
    FirstOfExact(started.conditions, started.keys, key);
    match FirstOf(started.conditions, started.keys, key)
    case Some(h) => assert h in t.conditions && started.next in t.conditions && t.keys[h] == t.keys[started.next];
    case None =>
  }

  /** The keys that a script adds, in whatever depth. */
  function Adds(script: seq<Op>): set<Key> {
    if script == [] then {}
    else
      (match script[0]
       case Add(key, _, inner, _, _, _) => (if key.Some? then {key.value} else {}) + Adds(inner)
       case _ => {})
      + Adds(script[1..])
  }

  /** No condition's start or merge adds another of its own key. */
  predicate NoneAddsItself(script: seq<Op>) {
    script != [] ==>
      && NoneAddsItself(script[1..])
      && (match script[0]
          case Add(key, _, inner, _, _, _) => NoneAddsItself(inner) && (key.Some? ==> key.value !in Adds(inner))
          case _ => true)
  }

  ghost predicate NoneOf(s: State, key: Key) {
    forall h :: h in s.conditions && h in s.keys ==> s.keys[h] != key
  }

  lemma RemovalNone(op: Op, s: State, key: Key)
    requires !op.Add? && NoneOf(s, key)
    ensures NoneOf(Apply(op, s), key)
  {
    match op
    case RemoveKind(kind, id, _, _) => KeepExact(s.conditions, Not(Matching(s.keys, kind, id)));
    case RemoveOne(h, _, _) => KeepExact(s.conditions, Not(Is(h)));
  }

  lemma {:induction false} OpAddsNone(op: Op, s: State, key: Key)
    requires Sound(s) && NoneOf(s, key) && (op.Add? ==> op.key != Some(key) && key !in Adds(op.script))
    ensures NoneOf(Apply(op, s), key)
    decreases op, 1
  {
    match op
    case RemoveKind(_, _, _, _) => RemovalNone(op, s, key);
    case RemoveOne(_, _, _) => RemovalNone(op, s, key);
    case Add(None, _, _, _, _, _) =>
    case Add(Some(own), force, script, starts, entry, settled) =>
      if !Delayed(s, own, force, entry) {
        FirstOfExact(s.conditions, s.keys, own);
        match FirstOf(s.conditions, s.keys, own)
        case Some(h) =>
          MergeValid(s, h);
          AddsNone(script, s.(log := s.log + [Merged(h)]), key);
        case None =>
          AddsNone(script, s, key);
          if starts {
            AddedList(op, s);
            ApplyAllValid(script, s);
          }
      }
  }

  lemma {:induction false} AddsNone(script: seq<Op>, s: State, key: Key)
    requires Sound(s) && NoneOf(s, key) && key !in Adds(script)
    ensures NoneOf(ApplyAll(script, s), key)
    decreases script, 0
  {
    if script != [] {
      OpAddsNone(script[0], s, key);
      ApplyValid(script[0], s);
      AddsNone(script[1..], Apply(script[0], s), key);
    }
  }

  lemma RemovalOneEach(op: Op, s: State)
    requires !op.Add? && OneEach(s)
    ensures OneEach(Apply(op, s))
  {
    match op
    case RemoveKind(kind, id, _, _) => KeepExact(s.conditions, Not(Matching(s.keys, kind, id)));
    case RemoveOne(h, _, _) => KeepExact(s.conditions, Not(Is(h)));
  }

  lemma {:induction false} OpOneEach(op: Op, s: State)
    requires Sound(s) && OneEach(s)
    requires op.Add? ==> NoneAddsItself(op.script) && (op.key.Some? ==> op.key.value !in Adds(op.script))
    ensures OneEach(Apply(op, s))
    decreases op, 1
  {
    match op
    case RemoveKind(_, _, _, _) => RemovalOneEach(op, s);
    case RemoveOne(_, _, _) => RemovalOneEach(op, s);
    case Add(None, _, _, _, _, _) =>
    case Add(Some(key), force, script, starts, entry, settled) =>
      if !Delayed(s, key, force, entry) {
        FirstOfExact(s.conditions, s.keys, key);
        match FirstOf(s.conditions, s.keys, key)
        case Some(h) =>
          MergeValid(s, h);
          KeepsOneEach(script, s.(log := s.log + [Merged(h)]));
        case None =>
          KeepsOneEach(script, s);
          if starts {
            AddsNone(script, s, key);
            var started := ApplyAll(script, s);
            FirstOfExact(started.conditions, started.keys, key);
            JoinOneEach(op, s);
          }
      }
  }

  /** Over every script in which no start adds its own key, a key keeps to one live condition. */
  lemma {:induction false} KeepsOneEach(script: seq<Op>, s: State)
    requires Sound(s) && OneEach(s) && NoneAddsItself(script)
    ensures OneEach(ApplyAll(script, s))
    decreases script, 0
  {
    if script != [] {
      OpOneEach(script[0], s);
      ApplyValid(script[0], s);
      KeepsOneEach(script[1..], Apply(script[0], s));
    }
  }

  /** A start that adds its own key puts two of them on the list. */
  lemma AddsItselfTwice(key: Key, m: Moment)
    requires key.kind.Other?
    ensures var t := Apply(Add(Some(key), false, [Add(Some(key), false, [], true, m, m)], true, m, m), Fresh(false));
            t.conditions == [0, 1] && t.keys == map[0 := key, 1 := key] && !OneEach(t)
  {
    var inner := Add(Some(key), false, [], true, m, m);
    var s := Fresh(false);
    assert ApplyAll([], s) == s;
    assert Apply(inner, s) == Push(s, key);
    assert [inner][1..] == [];
    assert ApplyAll([inner], s) == Push(s, key);
    assert Apply(Add(Some(key), false, [inner], true, m, m), s) == Push(Push(s, key), key);
    assert 0 in [0, 1] && 1 in [0, 1];
  }

  // --------------------------------------------------------------------------------
  // A pass
  // --------------------------------------------------------------------------------

  function StillActive(acts: nat -> Act): nat -> bool {
    (h: nat) => acts(h).stillActive
  }

  /** No condition touches the list. */
  ghost predicate Plain(acts: nat -> Act) {
    forall h :: acts(h).script == []
  }

  lemma RanValid(s: State, h: nat)
    requires Sound(s) && h in s.keys && h !in s.removed
    ensures var t := s.(log := s.log + [Ran(h)]);
            Sound(t) && Onward(s, t) && Runs(t.log) == Runs(s.log) + [h]
  {
    CallLogged(s.log, s.removed, Ran(h));
    RunsMore(s.log, Ran(h));
  }

  /** One turn: skipped if the flag is set, run once otherwise, and ended if inactive and still listed. */
  lemma TurnServes(s: State, h: nat, act: Act)
    requires Sound(s) && h in s.keys
    ensures var t := Served(s, h, act);
            && Sound(t) && Onward(s, t)
            && Runs(t.log) == (if h in s.removed then Runs(s.log) else Runs(s.log) + [h])
            && (h !in s.removed && !act.stillActive ==> h in t.removed)
  {
    if h !in s.removed {
      var running := s.(log := s.log + [Ran(h)]);
      RanValid(s, h);
      ApplyAllValid(act.script, running);
      RanEnds(ApplyAll(act.script, running), h);
    }
  }

  lemma RanEnds(ran: State, h: nat)
    requires Sound(ran) && h in ran.keys
    ensures Steady(ran, Drop(ran, Is(h))) && Steady(ran, ran)
    ensures h in ran.conditions ==> h in Drop(ran, Is(h)).removed
    ensures h !in ran.conditions ==> h in ran.removed
  {
    DropValid(ran, Is(h));
    KeepExact(ran.conditions, Is(h));
  }

  /** Which conditions of the snapshot run. */
  function RanOf(s: State, snapshot: seq<nat>, acts: nat -> Act): seq<nat> {
    if snapshot == [] then []
    else
      var n := |snapshot| - 1;
      var before := RanOf(s, snapshot[..n], acts);
      if snapshot[n] in Pass(s, snapshot[..n], acts).removed then before else before + [snapshot[n]]
  }

  /** The account of a pass over a part of the snapshot. */
  ghost predicate Account(s: State, t: State, done: seq<nat>, ran: seq<nat>, active: nat -> bool) {
    && Sound(t) && Onward(s, t) && Runs(t.log) == Runs(s.log) + ran && Rising(ran)
    && (forall h :: h in ran ==> h in done)
    && (forall h :: h in done && h !in ran ==> h in t.removed)
    && (forall h :: h in ran && !active(h) ==> h in t.removed)
  }

  lemma ServedNext(s: State, t: State, done: seq<nat>, ran: seq<nat>, active: nat -> bool, h: nat, act: Act)
    requires Account(s, t, done, ran, active) && Rising(done + [h]) && h in t.keys && active(h) == act.stillActive
    ensures Account(s, Served(t, h, act), done + [h], if h in t.removed then ran else ran + [h], active)
  {
    TurnServes(t, h, act);
    RanRises(done, h, ran);
    Regroup(Runs(s.log), ran, [h]);
    OnwardTrans(s, t, Served(t, h, act));
    AccountNext(done, ran, t.removed, Served(t, h, act).removed, active, h);
  }

  lemma OnwardTrans(s: State, t: State, u: State)
    requires Onward(s, t) && Onward(t, u)
    ensures Onward(s, u)
  {
  }

  /** What one turn adds to the account: h has run or was removed, and is removed if inactive. */
  lemma AccountNext(done: seq<nat>, ran: seq<nat>, removed: set<nat>, removed': set<nat>, active: nat -> bool, h: nat)
    requires removed <= removed' && (forall g :: g in ran ==> g in done)
    requires forall g :: g in done && g !in ran ==> g in removed
    requires forall g :: g in ran && !active(g) ==> g in removed
    requires h !in removed && !active(h) ==> h in removed'
    ensures var ran' := if h in removed then ran else ran + [h];
            && (forall g :: g in ran' ==> g in done + [h])
            && (forall g :: g in done + [h] && g !in ran' ==> g in removed')
            && (forall g :: g in ran' && !active(g) ==> g in removed')
  {
    forall g ensures g in done + [h] <==> g in done || g == h {
    }
    forall g ensures g in ran + [h] <==> g in ran || g == h {
    }
  }

  /**
   Whatever the executed conditions do to the list, each condition of the snapshot runs once, in order, unless
   it was removed before its turn, and one that is no longer active is gone in the end.
   */
  lemma {:induction false} PassServes(s: State, snapshot: seq<nat>, acts: nat -> Act)
    requires Sound(s) && Rising(snapshot) && forall h :: h in snapshot ==> h in s.keys
    ensures Account(s, Pass(s, snapshot, acts), snapshot, RanOf(s, snapshot, acts), StillActive(acts))
  {
    if snapshot == [] {
      assert Runs(s.log) + [] == Runs(s.log);
    } else {
      var n := |snapshot| - 1;
      assert snapshot == snapshot[..n] + [snapshot[n]];
      PassServes(s, snapshot[..n], acts);
      ServedNext(s, Pass(s, snapshot[..n], acts), snapshot[..n], RanOf(s, snapshot[..n], acts), StillActive(acts),
                 snapshot[n], acts(snapshot[n]));
    }
  }

  lemma StillKnown(s: State, done: seq<nat>, acts: nat -> Act, h: nat)
    requires Sound(s) && Rising(done) && (forall g :: g in done ==> g in s.keys) && h in s.keys
    ensures h in Pass(s, done, acts).keys
  {
    PassServes(s, done, acts);
  }

  lemma RanRises(done: seq<nat>, h: nat, ran: seq<nat>)
    requires Rising(done + [h]) && Rising(ran) && forall g :: g in ran ==> g in done
    ensures Rising(ran + [h])
  {
    forall g | g in ran ensures g < h {
      var j :| 0 <= j < |done| && done[j] == g;
      assert (done + [h])[j] < (done + [h])[|done|];
    }
    RisingMore(ran, h);
  }

  lemma Regroup(a: seq<nat>, b: seq<nat>, c: seq<nat>)
    ensures a + b + c == a + (b + c)
  {
  }

  /** Everything so far has run, and the list lacks what became inactive. */
  ghost predicate AllServed(t: State, done: seq<nat>, rest: seq<nat>, ran: seq<nat>, active: nat -> bool) {
    ran == done && t.conditions == Keep(done, active) + rest
  }

  lemma PlainNext(t: State, done: seq<nat>, h: nat, rest: seq<nat>, ran: seq<nat>, active: nat -> bool, act: Act)
    requires Sound(t) && AllServed(t, done, [h] + rest, ran, active) && act == Act([], active(h))
    ensures h !in t.removed && AllServed(Served(t, h, act), done + [h], rest, ran + [h], active)
  {
    assert t.conditions[|Keep(done, active)|] == h;
    assert h in t.conditions;
    var running := t.(log := t.log + [Ran(h)]);
    assert ApplyAll([], running) == running;
    KeepNext(done, h, rest, active, t.conditions);
  }

  /** Without interference everything runs, and the list loses exactly what became inactive. */
  lemma {:induction false} PassPlain(s: State, acts: nat -> Act, n: nat)
    requires Sound(s) && Plain(acts) && n <= |s.conditions|
    ensures var done := s.conditions[..n];
            AllServed(Pass(s, done, acts), done, s.conditions[n..], RanOf(s, done, acts), StillActive(acts))
  {
    if n == 0 {
      assert s.conditions[0..] == s.conditions && [] + s.conditions == s.conditions;
    } else {
      var done, h, rest := s.conditions[..n - 1], s.conditions[n - 1], s.conditions[n..];
      assert s.conditions[..n] == done + [h] && s.conditions[n - 1..] == [h] + rest;
      PassPlain(s, acts, n - 1);
      PassServes(s, done, acts);
      PlainNext(Pass(s, done, acts), done, h, rest, RanOf(s, done, acts), StillActive(acts), acts(h));
      PassMore(s, done, h, acts);
    }
  }

  lemma PassMore(s: State, done: seq<nat>, h: nat, acts: nat -> Act)
    ensures Pass(s, done + [h], acts) == Served(Pass(s, done, acts), h, acts(h))
    ensures RanOf(s, done + [h], acts)
         == if h in Pass(s, done, acts).removed then RanOf(s, done, acts) else RanOf(s, done, acts) + [h]
  {
    assert (done + [h])[..|done|] == done;
  }

  lemma WithoutMiddle(a: seq<nat>, h: nat, b: seq<nat>)
    ensures (a + ([h] + b))[|a|] == h && Without(a + ([h] + b), |a|) == a + b
  {
  }

  lemma KeepNext(done: seq<nat>, h: nat, rest: seq<nat>, active: nat -> bool, conditions: seq<nat>)
    requires conditions == Keep(done, active) + ([h] + rest) && Rising(conditions)
    ensures (if active(h) then conditions else Keep(conditions, Not(Is(h)))) == Keep(done + [h], active) + rest
  {
    KeepMore(done, h, active);
    if active(h) {
      Regroup(Keep(done, active), [h], rest);
    } else {
      WithoutMiddle(Keep(done, active), h, rest);
      WithoutIsKeep(conditions, |Keep(done, active)|);
    }
  }

  predicate PassBoth(s: State, snapshot: seq<nat>, acts: nat -> Act) {
    snapshot != []
    && var n := |snapshot| - 1;
       var before := Pass(s, snapshot[..n], acts);
       PassBoth(s, snapshot[..n], acts)
       || (snapshot[n] !in before.removed
           && EverBoth(acts(snapshot[n]).script, before.(log := before.log + [Ran(snapshot[n])])))
  }

  predicate PassSlips(s: State, snapshot: seq<nat>, acts: nat -> Act) {
    snapshot != []
    && var n := |snapshot| - 1;
       var before := Pass(s, snapshot[..n], acts);
       PassSlips(s, snapshot[..n], acts)
       || (snapshot[n] !in before.removed
           && EverSlips(acts(snapshot[n]).script, before.(log := before.log + [Ran(snapshot[n])])))
  }

  lemma ServedBoth(s: State, h: nat, act: Act)
    requires Both(Served(s, h, act)) && !Both(s)
    ensures h !in s.removed && EverBoth(act.script, s.(log := s.log + [Ran(h)]))
  {
    var ran := ApplyAll(act.script, s.(log := s.log + [Ran(h)]));
    KeepExact(ran.conditions, Not(Is(h)));
    assert Both(ran);
    EverBothEnds(act.script, s.(log := s.log + [Ran(h)]));
  }

  lemma ServedBothExactly(s: State, h: nat, act: Act)
    requires Sound(s) && !Both(s) && h in s.keys
    ensures var running := s.(log := s.log + [Ran(h)]);
            h !in s.removed ==> (EverBoth(act.script, running) <==> EverSlips(act.script, running))
    ensures Both(Served(s, h, act)) ==> h !in s.removed && EverBoth(act.script, s.(log := s.log + [Ran(h)]))
  {
    if h !in s.removed {
      RanValid(s, h);
      BothExactly(act.script, s.(log := s.log + [Ran(h)]));
    }
    if Both(Served(s, h, act)) {
      ServedBoth(s, h, act);
    }
  }

  /** The same over every pass: haste and paralysis are ever live together if and only if one slips by. */
  lemma {:induction false} PassBothExactly(s: State, snapshot: seq<nat>, acts: nat -> Act)
    requires Sound(s) && !Both(s) && Rising(snapshot) && forall h :: h in snapshot ==> h in s.keys
    ensures PassBoth(s, snapshot, acts) <==> PassSlips(s, snapshot, acts)
    ensures Both(Pass(s, snapshot, acts)) ==> PassBoth(s, snapshot, acts)
  {
    if snapshot != [] {
      var n := |snapshot| - 1;
      var before := Pass(s, snapshot[..n], acts);
      PassBothExactly(s, snapshot[..n], acts);
      PassServes(s, snapshot[..n], acts);
      assert snapshot[n] in snapshot;
      if !Both(before) {
        ServedBothExactly(before, snapshot[n], acts(snapshot[n]));
      }
    }
  }

  // --------------------------------------------------------------------------------
  // The creature
  // --------------------------------------------------------------------------------

  /** markRemoved, erase and endCondition for the k-th live condition. */
  function EndedAt(s: State, k: nat): State
    requires k < |s.conditions|
  {
    var h := s.conditions[k];
    s.(conditions := Without(s.conditions, k), removed := s.removed + {h}, log := s.log + [Ended(h)])
  }

  lemma EndedIsDrop(s: State, k: nat)
    requires Sound(s) && k < |s.conditions|
    ensures EndedAt(s, k) == Drop(s, Is(s.conditions[k]))
  {
    var h := s.conditions[k];
    WithoutIsKeep(s.conditions, k);
    OnlyOne(s.conditions, k);
    assert HandlesOf([h]) == {h} && Ends([h]) == [Ended(h)];
  }

  lemma OnlyOne(s: seq<nat>, k: nat)
    requires Rising(s) && k < |s|
    ensures Keep(s, Is(s[k])) == [s[k]]
  {
    KeepExact(s, Is(s[k]));
    RisingOne(Keep(s, Is(s[k])), s[k]);
  }

  lemma RisingOne(s: seq<nat>, h: nat)
    requires Rising(s) && h in s && forall g :: g in s ==> g == h
    ensures s == [h]
  {
    assert |s| <= 1 || s[0] < s[1];
    forall i | 0 <= i < |s| ensures s[i] == h {
      assert s[i] in s;
    }
  }

  /** A removal by kind that has looked at the first j conditions. */
  function Partly(s: State, gone: nat -> bool, j: nat): State
    requires j <= |s.conditions|
  {
    var ended := Keep(s.conditions[..j], gone);
    s.(conditions := Keep(s.conditions[..j], Not(gone)) + s.conditions[j..], removed := s.removed + HandlesOf(ended),
       log := s.log + Ends(ended))
  }

  lemma PartlyEnds(s: State, gone: nat -> bool)
    ensures Partly(s, gone, 0) == s && Partly(s, gone, |s.conditions|) == Drop(s, gone)
  {
    var n := |s.conditions|;
    assert s.conditions[..n] == s.conditions && s.conditions[..0] == [] && s.conditions[0..] == s.conditions;
    assert [] + s.conditions == s.conditions && Keep(s.conditions, Not(gone)) + s.conditions[n..] == Keep(s.conditions, Not(gone));
    assert HandlesOf([]) == {} && s.removed + {} == s.removed;
    assert Ends([]) == [] && s.log + [] == s.log;
  }

  lemma EndsMore(s: State, ended: seq<nat>, h: nat)
    ensures s.removed + HandlesOf(ended + [h]) == (s.removed + HandlesOf(ended)) + {h}
    ensures s.log + Ends(ended + [h]) == (s.log + Ends(ended)) + [Ended(h)]
  {
    assert HandlesOf(ended + [h]) == HandlesOf(ended) + {h};
    assert Ends(ended + [h]) == Ends(ended) + [Ended(h)];
  }

  lemma PartlyNext(s: State, gone: nat -> bool, j: nat)
    requires j < |s.conditions|
    ensures var it := |Keep(s.conditions[..j], Not(gone))|;
            var part := Partly(s, gone, j);
            && it < |part.conditions| && part.conditions[it] == s.conditions[j]
            && |Keep(s.conditions[..j + 1], Not(gone))| == (if gone(s.conditions[j]) then it else it + 1)
            && Partly(s, gone, j + 1) == if gone(s.conditions[j]) then EndedAt(part, it) else part
  {
    var done, h, rest := s.conditions[..j], s.conditions[j], s.conditions[j + 1..];
    assert s.conditions[..j + 1] == done + [h] && s.conditions[j..] == [h] + rest;
    KeepMore(done, h, gone);
    KeepMore(done, h, Not(gone));
    WithoutMiddle(Keep(done, Not(gone)), h, rest);
    if gone(h) {
      EndsMore(s, Keep(done, gone), h);
    } else {
      Regroup(Keep(done, Not(gone)), [h], rest);
    }
  }

  lemma SomeKept(s: seq<nat>, keep: nat -> bool, j: nat)
    requires j < |s| && keep(s[j])
    ensures Keep(s, keep) != []
  {
    KeepExact(s, keep);
    assert s[j] in s;
  }

  lemma NoneKept(s: seq<nat>, gone: nat -> bool)
    requires Keep(s, gone) == []
    ensures Keep(s, Not(gone)) == s
  {
    KeepExact(s, gone);
    KeepAll(s, Not(gone));
  }

  lemma PartlyNone(s: State, gone: nat -> bool, j: nat)
    requires j <= |s.conditions| && Keep(s.conditions[..j], gone) == []
    ensures Partly(s, gone, j) == s
  {
    NoneKept(s.conditions[..j], gone);
    assert s.conditions[..j] + s.conditions[j..] == s.conditions;
    assert HandlesOf([]) == {} && s.removed + {} == s.removed;
    assert Ends([]) == [] && s.log + [] == s.log;
  }

  /** The loop of a removal by kind: j conditions looked at, the next one at `it`, none ended if they are not to be. */
  ghost predicate Swept(s: State, now: State, gone: nat -> bool, defers: bool, j: nat, it: nat) {
    && j <= |s.conditions| && now == Partly(s, gone, j) && it == |Keep(s.conditions[..j], Not(gone))|
    && (defers ==> Keep(s.conditions[..j], gone) == [])
  }

  /** The same with its definition out of sight. */
  type Sweeper = (State, nat, nat) -> bool

  ghost predicate Sweeps(swept: Sweeper, s: State, gone: nat -> bool, defers: bool) {
    forall now, j, it {:trigger Swept(s, now, gone, defers, j, it)} :: swept(now, j, it) <==> Swept(s, now, gone, defers, j, it)
  }

  lemma SweptStart(swept: Sweeper, s: State, gone: nat -> bool, defers: bool)
    requires Sweeps(swept, s, gone, defers)
    ensures swept(s, 0, 0)
  {
    PartlyEnds(s, gone);
    assert s.conditions[..0] == [];
    assert Swept(s, s, gone, defers, 0, 0);
  }

  lemma SweptNext(swept: Sweeper, s: State, now: State, gone: nat -> bool, defers: bool, j: nat, it: nat)
    requires Sweeps(swept, s, gone, defers) && swept(now, j, it) && it < |now.conditions|
    ensures j < |s.conditions| && now.keys == s.keys
    ensures gone(now.conditions[it]) && defers ==> now == s && Keep(s.conditions, gone) != []
    ensures gone(now.conditions[it]) && !defers ==> swept(EndedAt(now, it), j + 1, it)
    ensures !gone(now.conditions[it]) ==> swept(now, j + 1, it + 1)
  {
    assert Swept(s, now, gone, defers, j, it);
    assert |now.conditions| == it + |s.conditions[j..]|;
    PartlyNext(s, gone, j);
    KeepMore(s.conditions[..j], s.conditions[j], gone);
    assert s.conditions[..j + 1] == s.conditions[..j] + [s.conditions[j]];
    if !gone(s.conditions[j]) {
      assert Swept(s, now, gone, defers, j + 1, it + 1);
    } else if defers {
      PartlyNone(s, gone, j);
      SomeKept(s.conditions, gone, j);
    } else {
      assert Swept(s, EndedAt(now, it), gone, defers, j + 1, it);
    }
  }

  /** One look of the loop: past the condition, or ending it, or handing the removal to the scheduler. */
  function Looked(s: State, kind: Kind, id: Option<nat>, defers: bool, it: nat): (State, nat, bool)
    requires it < |s.conditions|
  {
    if !Matching(s.keys, kind, id)(s.conditions[it]) then (s, it + 1, false)
    else if defers then (s.(deferred := s.deferred + [kind]), it, true)
    else (EndedAt(s, it), it, false)
  }

  lemma SweptLook(swept: Sweeper, s: State, now: State, kind: Kind, id: Option<nat>, force: bool, walkDelay: int, j: nat, it: nat)
    requires Sweeps(swept, s, Matching(s.keys, kind, id), Deferred(kind, force, walkDelay))
    requires swept(now, j, it) && it < |now.conditions|
    ensures var (next, it', deferring) := Looked(now, kind, id, Deferred(kind, force, walkDelay), it);
            if deferring then next == KindRemoved(s, kind, id, force, walkDelay)
            else j < |s.conditions| && swept(next, j + 1, it')
  {
    SweptNext(swept, s, now, Matching(s.keys, kind, id), Deferred(kind, force, walkDelay), j, it);
  }

  lemma SweptEnd(swept: Sweeper, s: State, now: State, kind: Kind, id: Option<nat>, force: bool, walkDelay: int, j: nat, it: nat)
    requires Sweeps(swept, s, Matching(s.keys, kind, id), Deferred(kind, force, walkDelay))
    requires swept(now, j, it) && it >= |now.conditions|
    ensures now == KindRemoved(s, kind, id, force, walkDelay)
  {
    var gone, defers := Matching(s.keys, kind, id), Deferred(kind, force, walkDelay);
    assert Swept(s, now, gone, defers, j, it);
    assert |now.conditions| == it + |s.conditions[j..]|;
    assert s.conditions[..j] == s.conditions;
    PartlyEnds(s, gone);
    if Keep(s.conditions, gone) == [] {
      PartlyNone(s, gone, j);
    }
  }

  class Creature {
    const monster: bool
    /** The live list; conditions are numbered in the order in which they were pushed. */
    var conditions: seq<nat>
    var keys: map<nat, Key>
    /** The conditions whose removed flag is set. */
    var removed: set<nat>
    var next: nat
    ghost var log: seq<Event>
    /** What the scheduler has been handed: delayed conditions to add again, kinds to remove by force. */
    ghost var postponed: seq<Key>
    ghost var deferred: seq<Kind>

    ghost function Now(): State
      reads this
    {
      State(monster, conditions, keys, removed, next, log, postponed, deferred)
    }

    ghost predicate Valid()
      reads this
    {
      Sound(Now())
    }

    constructor (monster: bool)
      ensures Valid() && Now() == Fresh(monster)
    {
      this.monster := monster;
      conditions, keys, removed, next, log, postponed, deferred := [], map[], {}, 0, [], [], [];
    }

    // ------------------------------------------------------------------------------
    // Removing
    // ------------------------------------------------------------------------------

    /** markRemoved, erase and endCondition, as every removal path does them. */
    method End(k: nat)
      requires Valid() && k < |conditions|
      modifies this`conditions, this`removed, this`log
      ensures Valid() && Now() == EndedAt(old(Now()), k) == Drop(old(Now()), Is(old(conditions)[k]))
    {
      EndedIsDrop(Now(), k);
      DropValid(Now(), Is(conditions[k]));
      var cond := conditions[k];
      removed := removed + {cond};
      conditions := conditions[..k] + conditions[k + 1..];
      log := log + [Ended(cond)];
    }

    /** Both overloads by type, with and without an id: all matching ones, or none while a paralysis is deferred. */
    method RemoveKindCondition(kind: Kind, id: Option<nat>, force: bool, walkDelay: int)
      requires Valid()
      modifies this`conditions, this`removed, this`log, this`deferred
      ensures Valid() && Now() == KindRemoved(old(Now()), kind, id, force, walkDelay)
      ensures force || kind != Paralyze || walkDelay <= 0 ==>
                forall h :: h in conditions <==>
                  h in old(conditions) && !(keys[h].kind == kind && (id.None? || keys[h].id == id.value))
      ensures !force && kind == Paralyze && walkDelay > 0 ==> conditions == old(conditions) && removed == old(removed)
    {
      KindRemovedValid(Now(), kind, id, force, walkDelay);
      if force || kind != Paralyze || walkDelay <= 0 {
        var _ := KindRemovedExactly(Now(), kind, id, force, walkDelay);
      }
      Sweep(kind, id, force, walkDelay);
    }

    method Sweep(kind: Kind, id: Option<nat>, force: bool, walkDelay: int)
      requires Valid()
      modifies this`conditions, this`removed, this`log, this`deferred
      ensures Now() == KindRemoved(old(Now()), kind, id, force, walkDelay)
    {
      ghost var s := Now();
      ghost var gone, defers := Matching(keys, kind, id), Deferred(kind, force, walkDelay);
      ghost var swept: Sweeper := (now: State, j: nat, it: nat) => Swept(s, now, gone, defers, j, it);
      SweptStart(swept, s, gone, defers);
      ghost var j: nat := 0;
      var it: nat, deferring := 0, false;
      while it < |conditions| && !deferring
        invariant Valid() && Sweeps(swept, s, gone, defers)
        invariant if deferring then Now() == KindRemoved(s, kind, id, force, walkDelay) else swept(Now(), j, it)
        decreases !deferring, |s.conditions| - j
      {
        SweptLook(swept, s, Now(), kind, id, force, walkDelay, j, it);
        j := j + 1;
        it, deferring := LookAt(it, kind, id, force, walkDelay);
      }
      if !deferring {
        SweptEnd(swept, s, Now(), kind, id, force, walkDelay, j, it);
      }
    }

    method LookAt(it: nat, kind: Kind, id: Option<nat>, force: bool, walkDelay: int) returns (it': nat, deferring: bool)
      requires Valid() && it < |conditions|
      modifies this`conditions, this`removed, this`log, this`deferred
      ensures Valid() && (Now(), it', deferring) == Looked(old(Now()), kind, id, Deferred(kind, force, walkDelay), it)
    {
      var cond := conditions[it];
      if keys[cond].kind != kind || (id.Some? && keys[cond].id != id.value) {
        return it + 1, false;
      }
      if !force && kind.Paralyze? {
        if walkDelay > 0 {
          deferred := deferred + [kind];
          return it, true;
        }
      }
      End(it);
      return it, false;
    }

    /** The overload by pointer. */
    method RemoveCondition(h: nat, force: bool, walkDelay: int)
      requires Valid()
      modifies this`conditions, this`removed, this`log, this`deferred
      ensures Valid() && Now() == OneRemoved(old(Now()), h, force, walkDelay)
    {
      var k := FindHandle(h);
      if k == |conditions| {
        return;
      }
      if !force && keys[h].kind.Paralyze? {
        if walkDelay > 0 {
          deferred := deferred + [keys[h].kind];
          return;
        }
      }
      End(k);
    }

    method FindHandle(h: nat) returns (k: nat)
      ensures k <= |conditions| && (k < |conditions| ==> conditions[k] == h)
      ensures k == |conditions| ==> h !in conditions
    {
      k := 0;
      while k < |conditions|
        invariant k <= |conditions| && forall j :: 0 <= j < k ==> conditions[j] != h
      {
        if conditions[k] == h {
          return;
        }
        k := k + 1;
      }
    }

    // ------------------------------------------------------------------------------
    // Adding
    // ------------------------------------------------------------------------------

    method GetCondition(key: Key) returns (k: nat)
      requires Valid()
      ensures k <= |conditions|
      ensures FirstOf(conditions, keys, key) == if k < |conditions| then Some(conditions[k]) else None
    {
      k := 0;
      assert conditions[0..] == conditions;
      while k < |conditions|
        invariant k <= |conditions| && FirstOf(conditions, keys, key) == FirstOf(conditions[k..], keys, key)
      {
        if keys[conditions[k]] == key {
          return;
        }
        assert conditions[k..][1..] == conditions[k + 1..];
        k := k + 1;
      }
    }

    method HasCondition(kind: Kind, m: Moment) returns (found: bool)
      requires Valid()
      ensures found == Has(Now(), kind, m)
    {
      if kind in m.suppressed {
        return false;
      }
      var k := 0;
      while k < |conditions|
        invariant k <= |conditions|
        invariant forall j :: 0 <= j < k ==>
                    !(keys[conditions[j]].kind == kind && keys[conditions[j]].subId == 0 && conditions[j] in m.running)
      {
        var cond := conditions[k];
        if keys[cond].kind == kind && keys[cond].subId == 0 {
          if cond in m.running {
            return true;
          }
        }
        k := k + 1;
      }
      return false;
    }

    /** Haste and paralysis drive each other out, but not on a monster. */
    method OnAddCondition(kind: Kind, m: Moment)
      requires Valid()
      modifies this`conditions, this`removed, this`log, this`deferred
      ensures Valid() && Now() == Settle(old(Now()), kind, m)
    {
      if monster {
        return;
      }
      if kind.Paralyze? {
        var hasted := HasCondition(Haste, m);
        if hasted {
          RemoveKindCondition(Haste, None, false, m.walkDelay);
        }
      } else if kind.Haste? {
        var paralyzed := HasCondition(Paralyze, m);
        if paralyzed {
          RemoveKindCondition(Paralyze, None, false, m.walkDelay);
        }
      }
    }

    /**
     A condition joins the list unless it is delayed, which hands it to the scheduler; handed to the live
     one of its key, which merges it; or does not start. `script` is what starting or merging it does.
     */
    method AddCondition(condition: Option<Key>, force: bool, script: seq<Op>, starts: bool, entry: Moment, settled: Moment)
      returns (added: bool)
      requires Valid()
      modifies this
      ensures Valid() && Now() == Apply(Add(condition, force, script, starts, entry, settled), old(Now()))
      ensures added <==> condition.Some? && !Delayed(old(Now()), condition.value, force, entry)
                         && (starts || FirstOf(old(conditions), old(keys), condition.value).Some?)
      decreases script, 2
    {
      if condition.None? {
        return false;
      }
      var key := condition.value;
      if !force && key.kind.Haste? {
        var paralyzed := HasCondition(Paralyze, entry);
        if paralyzed && entry.walkDelay > 0 {
          postponed := postponed + [key];
          return false;
        }
      }
      var previous := GetCondition(key);
      if previous < |conditions| {
        Merge(conditions[previous], script);
        return true;
      }
      Start(key, script, starts, settled);
      return starts;
    }

    method Merge(h: nat, script: seq<Op>)
      requires Valid() && h in conditions
      modifies this
      ensures Valid() && Now() == ApplyAll(script, old(Now()).(log := old(log) + [Merged(h)]))
      decreases script, 1
    {
      MergeValid(Now(), h);
      log := log + [Merged(h)];
      RunScript(script);
    }

    method Start(key: Key, script: seq<Op>, starts: bool, settled: Moment)
      requires Valid()
      modifies this
      ensures Valid()
      ensures var started := ApplyAll(script, old(Now()));
              Now() == if starts then Settle(Push(started, key), key.kind, settled) else started
      decreases script, 1
    {
      RunScript(script);
      if starts {
        PushBack(key);
        OnAddCondition(key.kind, settled);
      }
    }

    method PushBack(key: Key)
      requires Valid()
      modifies this`conditions, this`keys, this`next
      ensures Valid() && Now() == Push(old(Now()), key)
    {
      PushValid(Now(), key);
      conditions := conditions + [next];
      keys := keys[next := key];
      next := next + 1;
    }

    // ------------------------------------------------------------------------------
    // Executing
    // ------------------------------------------------------------------------------

    /** What code called from a condition does to the list. */
    method RunScript(script: seq<Op>)
      requires Valid()
      modifies this
      ensures Valid() && Now() == ApplyAll(script, old(Now()))
      decreases script, 0
    {
      assert script[0..] == script;
      for i := 0 to |script|
        invariant Valid() && ApplyAll(script, old(Now())) == ApplyAll(script[i..], Now())
      {
        assert script[i..][1..] == script[i + 1..];
        ghost var s := Now();
        match script[i]
        case Add(key, force, inner, starts, entry, settled) =>
          var added := AddCondition(key, force, inner, starts, entry, settled);
        case RemoveKind(kind, id, force, walkDelay) => RemoveKindCondition(kind, id, force, walkDelay);
        case RemoveOne(h, force, walkDelay) => RemoveCondition(h, force, walkDelay);
        assert Now() == Apply(script[i], s);
      }
    }

    /** The turn of one condition of the snapshot. */
    method Turn(handle: nat, act: Act)
      requires Valid() && handle in keys
      modifies this
      ensures Valid() && Now() == Served(old(Now()), handle, act)
    {
      if handle in removed {
        return;
      }
      RanValid(Now(), handle);
      log := log + [Ran(handle)];
      RunScript(act.script);
      if act.stillActive || handle in removed {
        return;
      }
      var k := FindHandle(handle);
      if k == |conditions| {
        return;
      }
      End(k);
    }

    /**
     One pass. Whatever the executed conditions do to the list, each condition of the list at the
     start runs once, unless it was removed before its turn; none that was added runs; and one
     that is no longer active is gone in the end.
     */
    method ExecuteConditions(acts: nat -> Act) returns (ghost ran: seq<nat>)
      requires Valid()
      modifies this
      ensures Valid() && Now() == Pass(old(Now()), old(conditions), acts) && Onward(old(Now()), Now())
      ensures Runs(log) == Runs(old(log)) + ran && Rising(ran)
      ensures forall h :: h in ran ==> h in old(conditions)
      ensures forall h :: h in old(conditions) && h !in ran ==> h in removed
      ensures forall h :: h in ran && !acts(h).stillActive ==> h in removed
      ensures Plain(acts) ==>
                ran == old(conditions) && conditions == Keep(old(conditions), StillActive(acts))
    {
      ghost var s := Now();
      var snapshot := conditions;
      PassServes(s, snapshot, acts);
      RunSnapshot(snapshot, acts);
      ran := RanOf(s, snapshot, acts);
      if Plain(acts) {
        PassPlain(s, acts, |snapshot|);
        assert snapshot[..|snapshot|] == snapshot && Keep(snapshot, StillActive(acts)) + [] == Keep(snapshot, StillActive(acts));
      }
    }

    method RunSnapshot(snapshot: seq<nat>, acts: nat -> Act)
      requires Valid() && Rising(snapshot) && forall h :: h in snapshot ==> h in keys
      modifies this
      ensures Now() == Pass(old(Now()), snapshot, acts)
    {
      ghost var s := Now();
      for n := 0 to |snapshot|
        invariant Valid() && Now() == Pass(s, snapshot[..n], acts)
      {
        assert snapshot[n] in snapshot && snapshot[..n + 1] == snapshot[..n] + [snapshot[n]];
        StillKnown(s, snapshot[..n], acts, snapshot[n]);
        PassMore(s, snapshot[..n], snapshot[n], acts);
        Turn(snapshot[n], acts(snapshot[n]));
      }
      assert snapshot[..|snapshot|] == snapshot;
    }
  }
}
