/**
 The bestiary and its charms in src/bestiary.cpp: kills complete creatures and earn charm points,
 points buy tiers of charms, and charms assigned to completed creatures live as augments.
 */
module Bestiary {
  import opened Numbers

  const TIERS: nat := 3
  const MAX_CHARMS: nat := 32

  datatype Stage = Unknown | Seen | Familiar | Known | Complete

  datatype Monster = Monster(raceId: nat, name: string, firstUnlock: nat, secondUnlock: nat, toKill: nat, charmPoints: nat)

  datatype Category = Major | Minor

  /** `grants` says whether the charm has any modifier at all. */
  datatype Charm = Charm(id: nat, name: string, category: Category, points: seq<nat>, grants: bool)

  datatype Slot = Slot(tier: nat, raceId: nat)

  /** An augment of a player; those of charms carry the charm's tier and their target. */
  datatype Augment = Augment(name: string, tierIndex: nat, target: string)

  // --------------------------------------------------------------------------------
  // Stages and the points they earn
  // --------------------------------------------------------------------------------

  function GetStage(m: Monster, kills: nat): Stage {
    if kills == 0 then Unknown
    else if kills < m.firstUnlock then Seen
    else if kills < m.secondUnlock then Familiar
    else if kills < m.toKill then Known
    else Complete
  }

  /** A creature is complete from the largest of its thresholds on, however they are ordered. */
  lemma CompleteExactly(m: Monster, kills: nat)
    ensures GetStage(m, kills).Complete? <==> kills >= Max(1, Max(m.firstUnlock, Max(m.secondUnlock, m.toKill)))
  {
  }

  /** A stage below completion lasts from the thresholds before it, all of them passed, up to its own. */
  lemma StageExactly(m: Monster, kills: nat)
    ensures GetStage(m, kills).Unknown? <==> kills < 1
    ensures GetStage(m, kills).Seen? <==> 1 <= kills < m.firstUnlock
    ensures GetStage(m, kills).Familiar? <==> Max(1, m.firstUnlock) <= kills < m.secondUnlock
    ensures GetStage(m, kills).Known? <==> Max(1, Max(m.firstUnlock, m.secondUnlock)) <= kills < m.toKill
  {
  }

  /** More kills never lead back to an earlier stage. */
  lemma StagesOnlyRise(m: Monster, kills: nat, more: nat)
    requires kills <= more
    ensures var s, t := GetStage(m, kills), GetStage(m, more);
            && (s.Seen? ==> !t.Unknown?)
            && (s.Familiar? ==> !t.Unknown? && !t.Seen?)
            && (s.Known? ==> t.Known? || t.Complete?)
            && (s.Complete? ==> t.Complete?)
  {
  }

  function Kills(kills: map<nat, nat>, race: nat): nat {
    if race in kills then kills[race] else 0
  }

  /** The points of the completed ones among the races. */
  function Earned(monsters: map<nat, Monster>, kills: map<nat, nat>, races: seq<nat>): nat
    requires forall i :: 0 <= i < |races| ==> races[i] in monsters
  {
    if races == [] then 0
    else
      var r := races[|races| - 1];
      Earned(monsters, kills, races[..|races| - 1])
      + (if GetStage(monsters[r], Kills(kills, r)).Complete? then monsters[r].charmPoints else 0)
  }

  lemma {:induction false} EarnedElsewhere(monsters: map<nat, Monster>, kills: map<nat, nat>, races: seq<nat>, r: nat, k: nat)
    requires forall i :: 0 <= i < |races| ==> races[i] in monsters && races[i] != r
    ensures Earned(monsters, kills[r := k], races) == Earned(monsters, kills, races)
  {
    if races != [] {
      EarnedElsewhere(monsters, kills, races[..|races| - 1], r, k);
    }
  }

  /** One more kill earns the creature's points exactly when it completes the creature. */
  lemma {:induction false} EarnedKill(monsters: map<nat, Monster>, kills: map<nat, nat>, races: seq<nat>, r: nat)
    requires forall i :: 0 <= i < |races| ==> races[i] in monsters
    requires forall i, j :: 0 <= i < j < |races| ==> races[i] != races[j]
    requires r in races
    ensures var before := Kills(kills, r);
            Earned(monsters, kills[r := before + 1], races) == Earned(monsters, kills, races)
            + (if GetStage(monsters[r], before) != GetStage(monsters[r], before + 1) && GetStage(monsters[r], before + 1).Complete?
               then monsters[r].charmPoints else 0)
  {
    var n := |races| - 1;
    assert races == races[..n] + [races[n]];
    if races[n] == r {
      EarnedElsewhere(monsters, kills, races[..n], r, Kills(kills, r) + 1);
    } else {
      EarnedKill(monsters, kills, races[..n], r);
    }
  }

  // --------------------------------------------------------------------------------
  // Slots, and the points they cost
  // --------------------------------------------------------------------------------

  function NextTier(slot: Slot): Slot {
    slot.(tier := slot.tier + 1)
  }

  predicate GoodCharms(charms: seq<Charm>) {
    && (forall i :: 0 <= i < |charms| ==> charms[i].id < MAX_CHARMS && |charms[i].points| == TIERS)
    && (forall i, j :: 0 <= i < j < |charms| ==> charms[i].id != charms[j].id && charms[i].name != charms[j].name)
  }

  predicate GoodSlots(slots: seq<Slot>) {
    |slots| == MAX_CHARMS && forall i :: 0 <= i < |slots| ==> slots[i].tier <= TIERS
  }

  function PriceOf(points: seq<nat>, tier: nat): nat
    requires tier <= |points|
  {
    if tier == 0 then 0 else PriceOf(points, tier - 1) + points[tier - 1]
  }

  /** The prices of all tiers bought. */
  function Spent(charms: seq<Charm>, slots: seq<Slot>): nat
    requires GoodCharms(charms) && GoodSlots(slots)
  {
    if charms == [] then 0
    else
      var c := charms[|charms| - 1];
      Spent(charms[..|charms| - 1], slots) + PriceOf(c.points, slots[c.id].tier)
  }

  lemma {:induction false} SpentElsewhere(charms: seq<Charm>, slots: seq<Slot>, id: nat, slot: Slot)
    requires GoodCharms(charms) && GoodSlots(slots) && id < MAX_CHARMS && slot.tier <= TIERS
    requires forall i :: 0 <= i < |charms| ==> charms[i].id != id || slot.tier == slots[id].tier
    ensures Spent(charms, slots[id := slot]) == Spent(charms, slots)
  {
    if charms != [] {
      SpentElsewhere(charms[..|charms| - 1], slots, id, slot);
    }
  }

  /** The next tier costs its own price. */
  lemma {:induction false} SpentTier(charms: seq<Charm>, slots: seq<Slot>, k: nat)
    requires GoodCharms(charms) && GoodSlots(slots) && k < |charms| && slots[charms[k].id].tier < TIERS
    ensures var c := charms[k];
            var slot := slots[c.id];
            Spent(charms, slots[c.id := NextTier(slot)]) == Spent(charms, slots) + c.points[slot.tier]
  {
    var n, c := |charms| - 1, charms[k];
    var slot := NextTier(slots[c.id]);
    if k == n {
      SpentElsewhere(charms[..n], slots, c.id, slot);
    } else {
      SpentTier(charms[..n], slots, k);
    }
  }

  /** No creature carries two charms of one category. */
  predicate Exclusive(charms: seq<Charm>, slots: seq<Slot>)
    requires GoodCharms(charms) && GoodSlots(slots)
  {
    forall i, j :: 0 <= i < |charms| && 0 <= j < |charms| && i != j && charms[i].category == charms[j].category ==>
      slots[charms[i].id].raceId == 0 || slots[charms[i].id].raceId != slots[charms[j].id].raceId
  }

  // --------------------------------------------------------------------------------
  // Augments
  // --------------------------------------------------------------------------------

  function AugmentName(c: Charm): string {
    "Charm: " + c.name
  }

  lemma NamesDistinct(c: Charm, d: Charm)
    ensures AugmentName(c) == AugmentName(d) <==> c.name == d.name
  {
    assert AugmentName(c)[7..] == c.name && AugmentName(d)[7..] == d.name;
  }

  /** clamp(tier, 1, Tiers) - 1. */
  function TierIndex(tier: nat): nat {
    if tier < 1 then 0 else if tier > TIERS then TIERS - 1 else tier - 1
  }

  /** Counted from zero, and clamped to the three tiers there are. */
  lemma TierClamped(tier: nat)
    ensures TierIndex(tier) == if tier >= 3 then 2 else if tier == 2 then 1 else 0
  {
  }

  /** The augment, if any, that a charm's slot calls for. */
  function DerivedOf(monsters: map<nat, Monster>, slots: seq<Slot>, c: Charm): seq<Augment>
    requires c.id < |slots|
  {
    var slot := slots[c.id];
    if slot.tier != 0 && c.grants && slot.raceId in monsters
    then [Augment(AugmentName(c), TierIndex(slot.tier), monsters[slot.raceId].name)] else []
  }

  /** A charm calls for an augment exactly if it has a tier, something to grant and a known creature; it is of the tier below the slot's, counted from zero. */
  lemma AugmentExactly(monsters: map<nat, Monster>, slots: seq<Slot>, c: Charm)
    requires GoodSlots(slots) && c.id < |slots|
    ensures var slot := slots[c.id];
            if slot.tier > 0 && c.grants && slot.raceId in monsters
            then slot.tier <= 3
                 && DerivedOf(monsters, slots, c) == [Augment("Charm: " + c.name, slot.tier - 1, monsters[slot.raceId].name)]
            else DerivedOf(monsters, slots, c) == []
  {
  }

  function Derived(monsters: map<nat, Monster>, slots: seq<Slot>, charms: seq<Charm>): seq<Augment>
    requires forall i :: 0 <= i < |charms| ==> charms[i].id < |slots|
  {
    if charms == [] then []
    else Derived(monsters, slots, charms[..|charms| - 1]) + DerivedOf(monsters, slots, charms[|charms| - 1])
  }

  /** The augments of one name. */
  function Named(augments: seq<Augment>, name: string): seq<Augment> {
    if augments == [] then []
    else
      var last := augments[|augments| - 1];
      Named(augments[..|augments| - 1], name) + (if last.name == name then [last] else [])
  }

  /** erase_if by name. */
  function Without(augments: seq<Augment>, name: string): seq<Augment> {
    if augments == [] then []
    else
      var last := augments[|augments| - 1];
      Without(augments[..|augments| - 1], name) + (if last.name == name then [] else [last])
  }

  lemma {:induction false} NamedConcat(a: seq<Augment>, b: seq<Augment>, name: string)
    ensures Named(a + b, name) == Named(a, name) + Named(b, name)
  {
    if b == [] {
      assert a + b == a;
    } else {
      assert (a + b)[..|a + b| - 1] == a + b[..|b| - 1];
      NamedConcat(a, b[..|b| - 1], name);
    }
  }

  lemma {:induction false} NamedWithout(augments: seq<Augment>, gone: string, name: string)
    ensures Named(Without(augments, gone), name) == if name == gone then [] else Named(augments, name)
  {
    if augments != [] {
      var n := |augments| - 1;
      NamedWithout(augments[..n], gone, name);
      var rest := if augments[n].name == gone then [] else [augments[n]];
      NamedConcat(Without(augments[..n], gone), rest, name);
      assert augments[n..] == [augments[n]] && augments == augments[..n] + [augments[n]];
    }
  }

  /** Exactly the augments that the slots call for, and each of them once. */
  ghost predicate AugmentsMatch(monsters: map<nat, Monster>, slots: seq<Slot>, charms: seq<Charm>, augments: seq<Augment>)
    requires forall i :: 0 <= i < |charms| ==> charms[i].id < |slots|
  {
    forall i :: 0 <= i < |charms| ==> Named(augments, AugmentName(charms[i])) == DerivedOf(monsters, slots, charms[i])
  }

  ghost predicate IsCharmName(charms: seq<Charm>, name: string) {
    exists i :: 0 <= i < |charms| && name == AugmentName(charms[i])
  }

  /** Augments that belong to no charm are left as they are. */
  ghost predicate OthersKept(charms: seq<Charm>, before: seq<Augment>, after: seq<Augment>) {
    forall name :: !IsCharmName(charms, name) ==> Named(after, name) == Named(before, name)
  }

  lemma DerivedOfNamed(monsters: map<nat, Monster>, slots: seq<Slot>, c: Charm, name: string)
    requires c.id < |slots|
    ensures Named(DerivedOf(monsters, slots, c), name) ==
            if name == AugmentName(c) then DerivedOf(monsters, slots, c) else []
  {
    var d := DerivedOf(monsters, slots, c);
    if d != [] {
      assert d[..0] == [];
    }
  }

  lemma DerivedStep(monsters: map<nat, Monster>, slots: seq<Slot>, charms: seq<Charm>, name: string)
    requires charms != [] && forall i :: 0 <= i < |charms| ==> charms[i].id < |slots|
    ensures var n := |charms| - 1;
            var before := Named(Derived(monsters, slots, charms[..n]), name);
            Named(Derived(monsters, slots, charms), name)
            == if name == AugmentName(charms[n]) then before + DerivedOf(monsters, slots, charms[n]) else before
  {
    var n := |charms| - 1;
    NamedConcat(Derived(monsters, slots, charms[..n]), DerivedOf(monsters, slots, charms[n]), name);
    DerivedOfNamed(monsters, slots, charms[n], name);
    var before := Named(Derived(monsters, slots, charms[..n]), name);
    assert before + [] == before;
  }

  lemma {:induction false} DerivedElsewhere(monsters: map<nat, Monster>, slots: seq<Slot>, charms: seq<Charm>, name: string)
    requires forall i :: 0 <= i < |charms| ==> charms[i].id < |slots| && AugmentName(charms[i]) != name
    ensures Named(Derived(monsters, slots, charms), name) == []
  {
    if charms != [] {
      var n := |charms| - 1;
      DerivedElsewhere(monsters, slots, charms[..n], name);
      DerivedStep(monsters, slots, charms, name);
    }
  }

  /** The one charm of a name contributes all its augments. */
  lemma {:induction false} DerivedOnce(monsters: map<nat, Monster>, slots: seq<Slot>, charms: seq<Charm>, k: nat, name: string)
    requires k < |charms| && forall i :: 0 <= i < |charms| ==> charms[i].id < |slots|
    requires forall i :: 0 <= i < |charms| ==> (AugmentName(charms[i]) == name <==> i == k)
    ensures Named(Derived(monsters, slots, charms), name) == DerivedOf(monsters, slots, charms[k])
  {
    var n := |charms| - 1;
    DerivedStep(monsters, slots, charms, name);
    if k == n {
      DerivedElsewhere(monsters, slots, charms[..n], name);
      var last := DerivedOf(monsters, slots, charms[n]);
      assert [] + last == last;
    } else {
      DerivedOnce(monsters, slots, charms[..n], k, name);
    }
  }

  lemma DerivedAt(monsters: map<nat, Monster>, slots: seq<Slot>, charms: seq<Charm>, k: nat)
    requires GoodCharms(charms) && |slots| == MAX_CHARMS && k < |charms|
    ensures Named(Derived(monsters, slots, charms), AugmentName(charms[k])) == DerivedOf(monsters, slots, charms[k])
  {
    forall i | 0 <= i < |charms| ensures AugmentName(charms[i]) == AugmentName(charms[k]) <==> i == k {
      NamesDistinct(charms[i], charms[k]);
    }
    DerivedOnce(monsters, slots, charms, k, AugmentName(charms[k]));
  }

  /** Every charm's augment taken off. */
  function WithoutAll(augments: seq<Augment>, charms: seq<Charm>): seq<Augment> {
    if charms == [] then augments
    else Without(WithoutAll(augments, charms[..|charms| - 1]), AugmentName(charms[|charms| - 1]))
  }

  lemma CharmNameStep(charms: seq<Charm>, name: string)
    requires charms != []
    ensures var n := |charms| - 1;
            IsCharmName(charms, name) <==> name == AugmentName(charms[n]) || IsCharmName(charms[..n], name)
  {
    var n := |charms| - 1;
    if IsCharmName(charms, name) && name != AugmentName(charms[n]) {
      var i :| 0 <= i < |charms| && name == AugmentName(charms[i]);
      assert charms[..n][i] == charms[i];
    } else if IsCharmName(charms[..n], name) {
      var i :| 0 <= i < n && name == AugmentName(charms[..n][i]);
      assert charms[i] == charms[..n][i];
    }
  }

  lemma {:induction false} NamedWithoutAll(augments: seq<Augment>, charms: seq<Charm>, name: string)
    ensures Named(WithoutAll(augments, charms), name) == if IsCharmName(charms, name) then [] else Named(augments, name)
  {
    if charms != [] {
      var n := |charms| - 1;
      var rest, gone := WithoutAll(augments, charms[..n]), AugmentName(charms[n]);
      NamedWithoutAll(augments, charms[..n], name);
      CharmNameStep(charms, name);
      NamedWithout(rest, gone, name);
      assert WithoutAll(augments, charms) == Without(rest, gone);
    }
  }

  /** Rebuilding from the slots makes the augments match them, whatever they were. */
  lemma RebuiltMatches(monsters: map<nat, Monster>, slots: seq<Slot>, charms: seq<Charm>, augments: seq<Augment>)
    requires GoodCharms(charms) && |slots| == MAX_CHARMS
    ensures var rebuilt := WithoutAll(augments, charms) + Derived(monsters, slots, charms);
            AugmentsMatch(monsters, slots, charms, rebuilt) && OthersKept(charms, augments, rebuilt)
  {
    var kept, derived := WithoutAll(augments, charms), Derived(monsters, slots, charms);
    forall i | 0 <= i < |charms|
      ensures Named(kept + derived, AugmentName(charms[i])) == DerivedOf(monsters, slots, charms[i])
    {
      NamedConcat(kept, derived, AugmentName(charms[i]));
      NamedWithoutAll(augments, charms, AugmentName(charms[i]));
      DerivedAt(monsters, slots, charms, i);
    }
    forall name | !IsCharmName(charms, name) ensures Named(kept + derived, name) == Named(augments, name) {
      NamedConcat(kept, derived, name);
      NamedWithoutAll(augments, charms, name);
      DerivedElsewhere(monsters, slots, charms, name);
    }
  }

  /** Taking off one charm's augment suits a slot that calls for none. */
  lemma UnassignedMatches(monsters: map<nat, Monster>, slots: seq<Slot>, charms: seq<Charm>, augments: seq<Augment>, k: nat)
    requires GoodCharms(charms) && |slots| == MAX_CHARMS && k < |charms| && 0 !in monsters
    requires AugmentsMatch(monsters, slots, charms, augments)
    ensures var slots' := slots[charms[k].id := slots[charms[k].id].(raceId := 0)];
            var augments' := Without(augments, AugmentName(charms[k]));
            AugmentsMatch(monsters, slots', charms, augments') && OthersKept(charms, augments, augments')
  {
    forall i | 0 <= i < |charms| ensures AugmentName(charms[i]) == AugmentName(charms[k]) <==> i == k {
      NamesDistinct(charms[i], charms[k]);
    }
    forall name ensures Named(Without(augments, AugmentName(charms[k])), name)
                     == if name == AugmentName(charms[k]) then [] else Named(augments, name) {
      NamedWithout(augments, AugmentName(charms[k]), name);
    }
  }

  /** A tier of a charm that is not assigned changes no augment. */
  lemma UnassignedTier(monsters: map<nat, Monster>, slots: seq<Slot>, charms: seq<Charm>, augments: seq<Augment>, k: nat)
    requires GoodCharms(charms) && |slots| == MAX_CHARMS && k < |charms| && 0 !in monsters
    requires AugmentsMatch(monsters, slots, charms, augments) && slots[charms[k].id].raceId == 0
    ensures var slot := slots[charms[k].id];
            AugmentsMatch(monsters, slots[charms[k].id := NextTier(slot)], charms, augments)
  {
  }

  // --------------------------------------------------------------------------------
  // The registry and its players
  // --------------------------------------------------------------------------------

  class Player {
    var kills: map<nat, nat>
    var points: nat
    var slots: seq<Slot>
    var augments: seq<Augment>
    var money: nat

    constructor (money: nat, augments: seq<Augment>)
      ensures kills == map[] && points == 0 && slots == seq(MAX_CHARMS, _ => Slot(0, 0)) && |slots| == 32
      ensures this.augments == augments && this.money == money
    {
      kills, points, slots := map[], 0, seq(MAX_CHARMS, _ => Slot(0, 0));
      this.augments, this.money := augments, money;
    }

    method RemoveAugment(name: string)
      modifies this`augments
      ensures augments == Without(old(augments), name)
    {
      var kept: seq<Augment> := [];
      for i := 0 to |augments|
        invariant kept == Without(augments[..i], name) && augments == old(augments)
      {
        assert augments[..i + 1][..i] == augments[..i];
        if augments[i].name != name {
          kept := kept + [augments[i]];
        }
      }
      assert augments[..|augments|] == augments;
      augments := kept;
    }
  }

  class Registry {
    const charms: seq<Charm>
    const monsters: map<nat, Monster>
    /** The race ids, each once, for the sums over them. */
    ghost const races: seq<nat>

    /** Unique charm ids and names, and one creature for each race id but zero. */
    ghost predicate Sound() {
      && GoodCharms(charms)
      && 0 !in monsters
      && (forall r :: r in monsters ==> monsters[r].raceId == r)
      && (forall i :: 0 <= i < |races| ==> races[i] in monsters)
      && (forall i, j :: 0 <= i < j < |races| ==> races[i] != races[j])
      && (forall r :: r in monsters ==> r in races)
    }

    /** The ledger balances, charms exclude each other, and the augments are those of the slots. */
    ghost predicate Valid(player: Player)
      reads player
    {
      && Sound() && GoodSlots(player.slots)
      && player.points + Spent(charms, player.slots) == Earned(monsters, player.kills, races)
      && Exclusive(charms, player.slots)
      && AugmentsMatch(monsters, player.slots, charms, player.augments)
    }

    constructor (charms: seq<Charm>, monsters: map<nat, Monster>, ghost races: seq<nat>)
      ensures this.charms == charms && this.monsters == monsters && this.races == races
    {
      this.charms, this.monsters, this.races := charms, monsters, races;
    }

    method FindCharm(charmId: nat) returns (k: nat)
      ensures k <= |charms| && (k < |charms| ==> charms[k].id == charmId)
      ensures k == |charms| ==> forall j :: 0 <= j < |charms| ==> charms[j].id != charmId
    {
      k := 0;
      while k < |charms|
        invariant k <= |charms| && forall j :: 0 <= j < k ==> charms[j].id != charmId
      {
        if charms[k].id == charmId {
          return;
        }
        k := k + 1;
      }
    }

    lemma KillEarns(monster: Monster, kills: map<nat, nat>)
      requires Sound() && monster.raceId in monsters && monsters[monster.raceId] == monster
      ensures var before := Kills(kills, monster.raceId);
              Earned(monsters, kills[monster.raceId := before + 1], races) == Earned(monsters, kills, races)
              + (if GetStage(monster, before) != GetStage(monster, before + 1) && GetStage(monster, before + 1).Complete?
                 then monster.charmPoints else 0)
    {
      EarnedKill(monsters, kills, races, monster.raceId);
    }

    /** A kill counts, and the one that completes its creature earns its points. */
    method AddKill(player: Player, monster: Monster)
      requires Valid(player) && (monster.raceId != 0 ==> monster.raceId in monsters && monsters[monster.raceId] == monster)
      modifies player`kills, player`points
      ensures Valid(player)
      ensures monster.raceId == 0 ==> player.kills == old(player.kills)
      ensures monster.raceId != 0 ==>
                player.kills == old(player.kills)[monster.raceId := Kills(old(player.kills), monster.raceId) + 1]
      ensures var n := Kills(old(player.kills), monster.raceId) + 1;
              player.points == old(player.points)
              + (if monster.raceId != 0 && n == Max(1, Max(monster.firstUnlock, Max(monster.secondUnlock, monster.toKill)))
                 then monster.charmPoints else 0)
    {
      if monster.raceId == 0 {
        return;
      }
      KillEarns(monster, player.kills);
      var before := Kills(player.kills, monster.raceId);
      player.kills := player.kills[monster.raceId := before + 1];
      var after := before + 1;
      if GetStage(monster, before) != GetStage(monster, after) {
        if GetStage(monster, after).Complete? {
          player.points := player.points + monster.charmPoints;
        }
      }
    }

    /** Buys the next tier, if there is one and the points suffice. */
    method BuyCharm(player: Player, charmId: nat) returns (bought: bool)
      requires Valid(player)
      modifies player`points, player`slots, player`augments
      ensures Valid(player) && OthersKept(charms, old(player.augments), player.augments)
      ensures bought <==> exists k :: 0 <= k < |charms| && charms[k].id == charmId && old(player.slots)[charmId].tier < 3
                                      && charms[k].points[old(player.slots)[charmId].tier] <= old(player.points)
      ensures !bought ==> player.points == old(player.points) && player.slots == old(player.slots)
                          && player.augments == old(player.augments)
      ensures bought ==>
                && charmId < MAX_CHARMS
                && player.slots == old(player.slots)[charmId := Slot(old(player.slots)[charmId].tier + 1, old(player.slots)[charmId].raceId)]
                && exists k :: 0 <= k < |charms| && charms[k].id == charmId && old(player.slots)[charmId].tier < 3
                               && player.points + charms[k].points[old(player.slots)[charmId].tier] == old(player.points)
    {
      var k := FindCharm(charmId);
      if k == |charms| {
        return false;
      }
      if player.slots[charmId].tier >= TIERS {
        return false;
      }
      if player.points < charms[k].points[player.slots[charmId].tier] {
        return false;
      }
      Upgrade(player, k);
      return true;
    }

    method Upgrade(player: Player, k: nat)
      requires Valid(player) && k < |charms| && player.slots[charms[k].id].tier < TIERS
      requires charms[k].points[player.slots[charms[k].id].tier] <= player.points
      modifies player`points, player`slots, player`augments
      ensures Valid(player) && OthersKept(charms, old(player.augments), player.augments)
      ensures player.slots == old(player.slots)[charms[k].id := NextTier(old(player.slots)[charms[k].id])]
      ensures player.points + charms[k].points[old(player.slots)[charms[k].id].tier] == old(player.points)
    {
      SpentTier(charms, player.slots, k);
      var slot := player.slots[charms[k].id];
      var price := charms[k].points[slot.tier];
      if slot.raceId == 0 {
        UnassignedTier(monsters, player.slots, charms, player.augments, k);
      }
      player.points := player.points - (if price < player.points then price else player.points);
      player.slots := player.slots[charms[k].id := NextTier(slot)];
      if slot.raceId != 0 {
        ApplyCharmAugments(player);
      }
    }

    /** Assigns a bought, free charm to a completed creature that carries no other charm of the kind. */
    method AssignCharm(player: Player, charmId: nat, raceId: nat) returns (placed: bool)
      requires Valid(player)
      modifies player`slots, player`augments
      ensures Valid(player) && OthersKept(charms, old(player.augments), player.augments)
      ensures placed <==>
                && raceId in monsters && GetStage(monsters[raceId], Kills(player.kills, raceId)).Complete?
                && exists k :: 0 <= k < |charms| && charms[k].id == charmId
                               && old(player.slots)[charmId].tier != 0 && old(player.slots)[charmId].raceId == 0
                               && forall j :: 0 <= j < |charms| && charms[j].id != charmId
                                              && charms[j].category == charms[k].category ==>
                                    old(player.slots)[charms[j].id].raceId != raceId
      ensures !placed ==> player.slots == old(player.slots) && player.augments == old(player.augments)
      ensures placed ==> charmId < MAX_CHARMS
                           && player.slots == old(player.slots)[charmId := old(player.slots)[charmId].(raceId := raceId)]
    {
      var k := FindCharm(charmId);
      if k == |charms| || raceId !in monsters {
        return false;
      }
      var slot := player.slots[charmId];
      if slot.tier == 0 || slot.raceId != 0 {
        return false;
      }
      if !GetStage(monsters[raceId], Kills(player.kills, raceId)).Complete? {
        return false;
      }
      var i := 0;
      while i < |charms|
        invariant i <= |charms|
        invariant forall j :: 0 <= j < i && charms[j].id != charmId && charms[j].category == charms[k].category ==>
                    player.slots[charms[j].id].raceId != raceId
      {
        var other := charms[i];
        if other.id != charmId && other.category == charms[k].category && player.slots[other.id].raceId == raceId {
          return false;
        }
        i := i + 1;
      }
      SpentElsewhere(charms, player.slots, charmId, slot.(raceId := raceId));
      player.slots := player.slots[charmId := slot.(raceId := raceId)];
      ApplyCharmAugments(player);
      return true;
    }

    /** Takes a charm off its creature for gold; its tiers stay. */
    method UnassignCharm(player: Player, charmId: nat, cost: nat) returns (freed: bool)
      requires Valid(player)
      modifies player`slots, player`augments, player`money
      ensures Valid(player) && OthersKept(charms, old(player.augments), player.augments)
      ensures freed <==> exists k :: 0 <= k < |charms| && charms[k].id == charmId
                                         && old(player.slots)[charmId].raceId != 0 && cost <= old(player.money)
      ensures !freed ==> player.slots == old(player.slots) && player.augments == old(player.augments)
                              && player.money == old(player.money)
      ensures freed ==> charmId < MAX_CHARMS && player.money == old(player.money) - cost
                             && player.slots == old(player.slots)[charmId := old(player.slots)[charmId].(raceId := 0)]
    {
      var k := FindCharm(charmId);
      if k == |charms| {
        return false;
      }
      var slot := player.slots[charmId];
      if slot.raceId == 0 || player.money < cost {
        return false;
      }
      UnassignedMatches(monsters, player.slots, charms, player.augments, k);
      SpentElsewhere(charms, player.slots, charmId, slot.(raceId := 0));
      player.money := player.money - cost;
      player.slots := player.slots[charmId := slot.(raceId := 0)];
      player.RemoveAugment(AugmentName(charms[k]));
      return true;
    }

    /** Rebuilds the charms' augments from the slots. */
    method ApplyCharmAugments(player: Player)
      requires GoodCharms(charms) && |player.slots| == MAX_CHARMS
      modifies player`augments
      ensures AugmentsMatch(monsters, player.slots, charms, player.augments)
      ensures OthersKept(charms, old(player.augments), player.augments)
    {
      RebuiltMatches(monsters, player.slots, charms, player.augments);
      RemoveCharmAugments(player);
      AddDerivedAugments(player);
    }

    method RemoveCharmAugments(player: Player)
      modifies player`augments
      ensures player.augments == WithoutAll(old(player.augments), charms)
    {
      for i := 0 to |charms|
        invariant player.augments == WithoutAll(old(player.augments), charms[..i])
      {
        assert charms[..i + 1][..i] == charms[..i];
        player.RemoveAugment(AugmentName(charms[i]));
      }
      assert charms[..|charms|] == charms;
    }

    method AddDerivedAugments(player: Player)
      requires GoodCharms(charms) && |player.slots| == MAX_CHARMS
      modifies player`augments
      ensures player.augments == old(player.augments) + Derived(monsters, player.slots, charms)
    {
      for i := 0 to |charms|
        invariant player.augments == old(player.augments) + Derived(monsters, player.slots, charms[..i])
      {
        assert charms[..i + 1][..i] == charms[..i];
        var slot := player.slots[charms[i].id];
        if slot.tier != 0 && charms[i].grants && slot.raceId in monsters {
          player.augments := player.augments
            + [Augment(AugmentName(charms[i]), TierIndex(slot.tier), monsters[slot.raceId].name)];
        }
      }
      assert charms[..|charms|] == charms;
    }

    /** A new player starts with a balanced ledger and nothing assigned. */
    lemma NewPlayerValid(player: Player)
      requires Sound() && player.kills == map[] && player.points == 0 && player.slots == seq(MAX_CHARMS, _ => Slot(0, 0))
      requires forall i :: 0 <= i < |charms| ==> Named(player.augments, AugmentName(charms[i])) == []
      ensures Valid(player)
    {
      NothingEarned(monsters, races);
      NothingSpent(charms, player.slots);
    }
  }

  lemma {:induction false} NothingEarned(monsters: map<nat, Monster>, races: seq<nat>)
    requires forall i :: 0 <= i < |races| ==> races[i] in monsters
    ensures Earned(monsters, map[], races) == 0
  {
    if races != [] {
      NothingEarned(monsters, races[..|races| - 1]);
    }
  }

  lemma {:induction false} NothingSpent(charms: seq<Charm>, slots: seq<Slot>)
    requires GoodCharms(charms) && GoodSlots(slots) && forall i :: 0 <= i < |slots| ==> slots[i].tier == 0
    ensures Spent(charms, slots) == 0
  {
    if charms != [] {
      NothingSpent(charms[..|charms| - 1], slots);
    }
  }
}
