/**
 src/chunk.cpp: the creatures of one map chunk in parallel arrays, players first, then
 monsters, then NPCs, with every creature knowing its own index and a count per floor.
 */
module Chunks {

  /** MaxLayers in src/floorpool.h. */
  const MAX_LAYERS: nat := 16

  datatype Kind = Player | Monster | Npc

  datatype Position = Position(x: nat, y: nat, z: nat)

  class Creature {
    const kind: Kind
    var position: Position
    var chunkSlot: nat

    constructor (kind: Kind, position: Position)
      ensures this.kind == kind && this.position == position && chunkSlot == 0
    {
      this.kind := kind;
      this.position := position;
      chunkSlot := 0;
    }
  }

  // --------------------------------------------------------------------------------
  // Index arithmetic, on any one of the parallel arrays
  // --------------------------------------------------------------------------------

  /** push_back followed by a swap of the new last element with the one at `slot`. */
  function Place<T>(s: seq<T>, slot: nat, x: T): seq<T>
    requires slot <= |s|
  {
    if slot == |s| then s + [x] else s[slot := x] + [s[slot]]
  }

  function Move<T>(s: seq<T>, dst: nat, src: nat): (s': seq<T>)
    requires dst < |s| && src < |s|
    ensures |s'| == |s|
  {
    s[dst := s[src]]
  }

  /** pop_back. */
  function Popped<T>(s: seq<T>): seq<T>
    requires s != []
  {
    s[..|s| - 1]
  }

  /** The hole travels to the end, where it is popped. */
  function Drop<T>(s: seq<T>, hole: nat): (s': seq<T>)
    requires hole < |s|
    ensures |s'| == |s| - 1
  {
    Popped(Move(s, hole, |s| - 1))
  }

  function Close<T>(s: seq<T>, hole: nat, next: nat): (s': seq<T>)
    requires hole < |s| && next < |s|
    ensures |s'| == |s| - 1
  {
    Drop(Move(s, hole, next), next)
  }

  /** RemoveCreature on one array: the hole travels to the end of each of the following groups. */
  function Take<T>(s: seq<T>, i: nat, players: nat, monsterEnd: nat): seq<T>
    requires i < |s| && players <= monsterEnd <= |s|
  {
    if i < players then Close(Move(s, i, players - 1), players - 1, monsterEnd - 1)
    else if i < monsterEnd then Close(s, i, monsterEnd - 1)
    else Drop(s, i)
  }

  /** Where the entry at k after a removal stood before it. */
  function TakenFrom(count: nat, i: nat, players: nat, monsterEnd: nat, k: nat): nat
    requires k + 1 < count && players <= monsterEnd
  {
    if k == monsterEnd - 1 && i < monsterEnd then count - 1
    else if k == players - 1 && i < players then monsterEnd - 1
    else if k != i then k
    else if i < players then players - 1
    else if i < monsterEnd then monsterEnd - 1
    else count - 1
  }

  /** Where the entry at j goes, for j other than the removed i. */
  function TakenTo(count: nat, i: nat, players: nat, monsterEnd: nat, j: nat): int {
    if j == i then -1
    else if i < players && j == players - 1 then i
    else if i < monsterEnd && j == monsterEnd - 1 then if i < players then players - 1 else i
    else if j == count - 1 then if i < monsterEnd then monsterEnd - 1 else i
    else j
  }

  /** One index map moves the entries of all the arrays. */
  lemma TakeAt<T>(s: seq<T>, i: nat, players: nat, monsterEnd: nat, k: nat)
    requires i < |s| && players <= monsterEnd <= |s| && k < |s| - 1
    ensures TakenFrom(|s|, i, players, monsterEnd, k) < |s|
    ensures Take(s, i, players, monsterEnd)[k] == s[TakenFrom(|s|, i, players, monsterEnd, k)]
  {
  }

  /** How often x occurs. */
  function Count<T(==)>(s: seq<T>, x: T): nat {
    if s == [] then 0 else Count(s[..|s| - 1], x) + (if s[|s| - 1] == x then 1 else 0)
  }

  lemma {:induction false} CountMultiset<T>(s: seq<T>, x: T)
    ensures Count(s, x) == multiset(s)[x]
  {
    if s != [] {
      CountMultiset(s[..|s| - 1], x);
      assert s == s[..|s| - 1] + [s[|s| - 1]];
    }
  }

  lemma {:induction false} CountUpdate<T>(s: seq<T>, i: nat, v: T, x: T)
    requires i < |s|
    ensures Count(s[i := v], x) + (if s[i] == x then 1 else 0) == Count(s, x) + (if v == x then 1 else 0)
  {
    var n := |s| - 1;
    if i == n {
      assert s[i := v][..n] == s[..n];
    } else {
      CountUpdate(s[..n], i, v, x);
      assert s[i := v][..n] == s[..n][i := v];
    }
  }

  lemma {:induction false} CountIn<T>(s: seq<T>, i: nat)
    requires i < |s|
    ensures Count(s, s[i]) > 0
  {
    if i < |s| - 1 {
      CountIn(s[..|s| - 1], i);
    }
  }

  lemma CountPush<T>(s: seq<T>, v: T, x: T)
    ensures Count(s + [v], x) == Count(s, x) + (if v == x then 1 else 0)
  {
    assert (s + [v])[..|s|] == s;
  }

  lemma PlaceCount<T>(s: seq<T>, slot: nat, v: T, x: T)
    requires slot <= |s|
    ensures Count(Place(s, slot, v), x) == Count(s, x) + (if v == x then 1 else 0)
  {
    if slot == |s| {
      CountPush(s, v, x);
    } else {
      CountUpdate(s, slot, v, x);
      CountPush(s[slot := v], s[slot], x);
    }
  }

  /** Every entry but the removed one is kept, exactly once: TakenFrom and TakenTo undo each other. */
  lemma TakenFromBijection(count: nat, i: nat, players: nat, monsterEnd: nat, k: nat, j: nat)
    requires i < count && players <= monsterEnd <= count && k + 1 < count && j < count && j != i
    ensures TakenFrom(count, i, players, monsterEnd, k) != i
    ensures TakenTo(count, i, players, monsterEnd, TakenFrom(count, i, players, monsterEnd, k)) == k
    ensures 0 <= TakenTo(count, i, players, monsterEnd, j) < count - 1
    ensures TakenFrom(count, i, players, monsterEnd, TakenTo(count, i, players, monsterEnd, j)) == j
  {
  }

  /** f counts one element: changing an entry moves the count by that entry alone. */
  ghost predicate Counting<T(!new)>(f: seq<T> -> nat, x: T) {
    && (forall s: seq<T>, i: int, v: T {:trigger f(s[i := v])} ::
          0 <= i < |s| ==> f(s[i := v]) + (if s[i] == x then 1 else 0) == f(s) + (if v == x then 1 else 0))
    && (forall s: seq<T> {:trigger f(Popped(s))} ::
          s != [] ==> f(Popped(s)) + (if s[|s| - 1] == x then 1 else 0) == f(s))
  }

  ghost function Counter<T(!new)>(x: T): (f: seq<T> -> nat)
    ensures Counting(f, x)
  {
    var f := (s: seq<T>) => Count(s, x);
    assert Counting(f, x) by {
      forall s: seq<T>, i: int, v: T {:trigger s[i := v]} | 0 <= i < |s|
        ensures f(s[i := v]) + (if s[i] == x then 1 else 0) == f(s) + (if v == x then 1 else 0)
      {
        CountUpdate(s, i, v, x);
      }
    }
    f
  }

  lemma DropCount<T(!new)>(f: seq<T> -> nat, x: T, s: seq<T>, hole: nat)
    requires Counting(f, x) && hole < |s|
    ensures f(Drop(s, hole)) + (if s[hole] == x then 1 else 0) == f(s)
  {
  }

  lemma CloseCount<T(!new)>(f: seq<T> -> nat, x: T, s: seq<T>, hole: nat, next: nat)
    requires Counting(f, x) && hole < |s| && next < |s|
    ensures f(Close(s, hole, next)) + (if s[hole] == x then 1 else 0) == f(s)
  {
    DropCount(f, x, Move(s, hole, next), next);
  }

  /** Removing takes exactly the one entry out. */
  lemma TakeCount<T(!new)>(f: seq<T> -> nat, x: T, s: seq<T>, i: nat, players: nat, monsterEnd: nat)
    requires Counting(f, x) && i < |s| && players <= monsterEnd <= |s|
    ensures f(Take(s, i, players, monsterEnd)) + (if s[i] == x then 1 else 0) == f(s)
  {
    if i < players {
      CloseCount(f, x, Move(s, i, players - 1), players - 1, monsterEnd - 1);
    } else if i < monsterEnd {
      CloseCount(f, x, s, i, monsterEnd - 1);
    } else {
      DropCount(f, x, s, i);
    }
  }

  lemma TakeMultiset<T(!new)>(s: seq<T>, i: nat, players: nat, monsterEnd: nat)
    requires i < |s| && players <= monsterEnd <= |s|
    ensures multiset(Take(s, i, players, monsterEnd)) == multiset(s) - multiset{s[i]}
  {
    var s' := Take(s, i, players, monsterEnd);
    forall x ensures multiset(s')[x] == (multiset(s) - multiset{s[i]})[x] {
      TakeCount(Counter(x), x, s, i, players, monsterEnd);
      CountMultiset(s, x);
      CountMultiset(s', x);
    }
  }

  lemma PlaceMultiset<T>(s: seq<T>, slot: nat, v: T)
    requires slot <= |s|
    ensures multiset(Place(s, slot, v)) == multiset(s) + multiset{v}
  {
    var s' := Place(s, slot, v);
    forall x ensures multiset(s')[x] == (multiset(s) + multiset{v})[x] {
      PlaceCount(s, slot, v, x);
      CountMultiset(s, x);
      CountMultiset(s', x);
    }
  }

  /** Players, then monsters, then NPCs. */
  predicate Partition(kinds: seq<Kind>, players: nat, monsters: nat) {
    && players + monsters <= |kinds|
    && (forall i :: 0 <= i < players ==> kinds[i] == Player)
    && (forall i :: players <= i < players + monsters ==> kinds[i] == Monster)
    && (forall i :: players + monsters <= i < |kinds| ==> kinds[i] == Npc)
  }

  /** Where AddCreature puts a creature. */
  function SlotFor(kind: Kind, players: nat, monsters: nat, count: nat): nat {
    match kind
    case Player => players
    case Monster => players + monsters
    case Npc => count
  }

  /** Adding keeps the partition, except for a player entering a chunk with both monsters and NPCs. */
  lemma AddPartition(kinds: seq<Kind>, players: nat, monsters: nat, kind: Kind)
    requires Partition(kinds, players, monsters)
    ensures var kinds' := Place(kinds, SlotFor(kind, players, monsters, |kinds|), kind);
            Partition(kinds', players + (if kind.Player? then 1 else 0), monsters + (if kind.Monster? then 1 else 0))
            <==> !(kind.Player? && monsters > 0 && players + monsters < |kinds|)
  {
    var slot := SlotFor(kind, players, monsters, |kinds|);
    var kinds' := Place(kinds, slot, kind);
    if kind.Player? && monsters > 0 && players + monsters < |kinds| {
      assert kinds'[|kinds|] == Monster;
    }
  }

  lemma TakePartition(kinds: seq<Kind>, players: nat, monsters: nat, i: nat)
    requires Partition(kinds, players, monsters) && i < |kinds|
    ensures Partition(Take(kinds, i, players, players + monsters),
                      players - (if i < players then 1 else 0), monsters - (if players <= i < players + monsters then 1 else 0))
  {
  }

  /** The smallest chunk AddCreature breaks: a player joins a monster and an NPC, and the monster ends up behind the NPC. */
  lemma AddPlayerBreaksPartition()
    ensures Partition([Monster, Npc], 0, 1)
    ensures Place([Monster, Npc], SlotFor(Player, 0, 1, 2), Player) == [Player, Npc, Monster]
    ensures !Partition([Player, Npc, Monster], 1, 1)
  {
    assert [Player, Npc, Monster][1] == Npc;
  }

  // --------------------------------------------------------------------------------
  // Floor counts
  // --------------------------------------------------------------------------------

  function NonZero(counts: seq<nat>): nat {
    if counts == [] then 0
    else NonZero(counts[..|counts| - 1]) + (if counts[|counts| - 1] == 0 then 0 else 1)
  }

  lemma {:induction false} NonZeroUpdate(counts: seq<nat>, i: nat, v: nat)
    requires i < |counts|
    ensures NonZero(counts[i := v]) + (if counts[i] == 0 then 0 else 1) == NonZero(counts) + (if v == 0 then 0 else 1)
  {
    var n := |counts| - 1;
    if i == n {
      assert counts[i := v][..n] == counts[..n];
    } else {
      NonZeroUpdate(counts[..n], i, v);
      assert counts[i := v][..n] == counts[..n][i := v];
    }
  }

  /** The counts are the true ones, and `distinct` is the number of floors with anyone on them. */
  ghost predicate FloorsCounted(counts: seq<nat>, distinct: nat, zs: seq<nat>) {
    && |counts| == MAX_LAYERS
    && (forall z: nat :: z < MAX_LAYERS ==> counts[z] == Count<nat>(zs, z))
    && distinct == NonZero(counts)
  }

  ghost predicate OnMap(zs: seq<nat>) {
    forall i :: 0 <= i < |zs| ==> zs[i] < MAX_LAYERS
  }

  /** zs' has one creature more than zs, on floor z. */
  ghost predicate OneMore(zs: seq<nat>, z: nat, zs': seq<nat>) {
    forall y: nat :: Count<nat>(zs', y) == Count<nat>(zs, y) + (if y == z then 1 else 0)
  }

  lemma PlaceOneMore(zs: seq<nat>, slot: nat, z: nat)
    requires slot <= |zs|
    ensures OneMore(zs, z, Place(zs, slot, z))
    ensures OnMap(zs) && z < MAX_LAYERS ==> OnMap(Place(zs, slot, z))
  {
    forall y: nat ensures Count<nat>(Place(zs, slot, z), y) == Count(zs, y) + (if y == z then 1 else 0) {
      PlaceCount<nat>(zs, slot, z, y);
    }
  }

  lemma TakeOneLess(zs: seq<nat>, i: nat, players: nat, monsterEnd: nat)
    requires i < |zs| && players <= monsterEnd <= |zs|
    ensures OneMore(Take(zs, i, players, monsterEnd), zs[i], zs)
  {
    forall y: nat ensures Count<nat>(zs, y) == Count(Take(zs, i, players, monsterEnd), y) + (if y == zs[i] then 1 else 0) {
      TakeCount<nat>(Counter(y), y, zs, i, players, monsterEnd);
    }
  }

  lemma TakeOnMap(zs: seq<nat>, i: nat, players: nat, monsterEnd: nat)
    requires i < |zs| && players <= monsterEnd <= |zs| && OnMap(zs)
    ensures OnMap(Take(zs, i, players, monsterEnd))
  {
    forall k | 0 <= k < |zs| - 1 ensures Take(zs, i, players, monsterEnd)[k] < MAX_LAYERS {
      TakeAt(zs, i, players, monsterEnd, k);
    }
  }

  /** Leaving zs[i] and entering z, seen from the row without its entry at i. */
  lemma ChangeOneLess(zs: seq<nat>, i: nat, z: nat)
    requires i < |zs|
    ensures OneMore(Drop(zs, i), z, zs[i := z])
  {
    forall y: nat ensures Count<nat>(zs[i := z], y) == Count(Drop(zs, i), y) + (if y == z then 1 else 0) {
      CountUpdate<nat>(zs, i, z, y);
      DropCount<nat>(Counter(y), y, zs, i);
    }
  }

  lemma FloorEnter(counts: seq<nat>, distinct: nat, zs: seq<nat>, z: nat, zs': seq<nat>)
    requires FloorsCounted(counts, distinct, zs) && z < MAX_LAYERS && OneMore(zs, z, zs')
    ensures FloorsCounted(counts[z := counts[z] + 1], if counts[z] == 0 then distinct + 1 else distinct, zs')
  {
    NonZeroUpdate(counts, z, counts[z] + 1);
  }

  lemma FloorLeave(counts: seq<nat>, distinct: nat, zs: seq<nat>, z: nat, zs': seq<nat>)
    requires FloorsCounted(counts, distinct, zs) && z < MAX_LAYERS && OneMore(zs', z, zs)
    ensures counts[z] > 0 && (counts[z] == 1 ==> distinct > 0)
    ensures FloorsCounted(counts[z := counts[z] - 1], if counts[z] == 1 then distinct - 1 else distinct, zs')
  {
    assert counts[z] == Count<nat>(zs', z) + 1;
    NonZeroUpdate(counts, z, counts[z] - 1);
  }

  /** At most one non-empty floor means that all creatures share it. */
  lemma {:induction false} NonZeroTwo(counts: seq<nat>, a: nat, b: nat)
    requires a < b < |counts| && counts[a] > 0 && counts[b] > 0
    ensures NonZero(counts) >= 2
  {
    NonZeroUpdate(counts, a, 0);
    NonZeroUpdate(counts[a := 0], b, 0);
  }

  lemma {:induction false} NonZeroOnly(counts: seq<nat>, a: nat)
    requires a < |counts| && forall z :: 0 <= z < |counts| && z != a ==> counts[z] == 0
    ensures NonZero(counts) <= 1
  {
    NonZeroUpdate(counts, a, 0);
    NonZeroZero(counts[a := 0]);
  }

  lemma {:induction false} NonZeroZero(counts: seq<nat>)
    requires forall z :: 0 <= z < |counts| ==> counts[z] == 0
    ensures NonZero(counts) == 0
  {
    if counts != [] {
      NonZeroZero(counts[..|counts| - 1]);
    }
  }

  // --------------------------------------------------------------------------------
  // The chunk
  // --------------------------------------------------------------------------------

  class Chunk {
    var creatures: seq<Creature>
    var xs: seq<nat>
    var ys: seq<nat>
    var zs: seq<nat>
    var playerCount: nat
    var monsterCount: nat
    var floorCounts: array<nat>
    var distinctFloorCount: nat

    ghost function Kinds(): seq<Kind>
      reads this
    {
      KindsOf(creatures)
    }

    ghost predicate Within(filed: set<Creature>)
      reads this
    {
      forall i :: 0 <= i < |creatures| ==> creatures[i] in filed
    }

    /** Arrays parallel, every creature's slot its own index. */
    ghost predicate Parallel()
      reads this, creatures`chunkSlot
    {
      && |xs| == |ys| == |zs| == |creatures|
      && (forall i :: 0 <= i < |creatures| ==> creatures[i].chunkSlot == i)
    }

    /** Parallel arrays and true floor counts. */
    ghost predicate Linked()
      reads this, floorCounts, creatures`chunkSlot
    {
      && Parallel()
      && OnMap(zs)
      && FloorsCounted(floorCounts[..], distinctFloorCount, zs)
      && playerCount + monsterCount <= |creatures|
    }

    ghost predicate Valid()
      reads this, floorCounts, creatures`chunkSlot
    {
      Linked() && Partition(Kinds(), playerCount, monsterCount)
    }

    /** Every creature's row holds its position. */
    ghost predicate Located()
      reads this, creatures`position
    {
      LocatedBut(creatures, xs, ys, zs, -1)
    }

    constructor ()
      ensures Valid() && Located() && creatures == [] && fresh(floorCounts)
    {
      creatures, xs, ys, zs := [], [], [], [];
      playerCount, monsterCount, distinctFloorCount := 0, 0, 0;
      floorCounts := new nat[MAX_LAYERS](_ => 0);
      new;
      NonZeroZero(floorCounts[..]);
    }

    /** Files a creature; the chunk stays partitioned unless a player enters among monsters and NPCs. */
    method AddCreature(creature: Creature)
      requires Linked() && creature !in creatures && creature.position.z < MAX_LAYERS
      modifies this, floorCounts, creatures`chunkSlot, creature`chunkSlot
      ensures floorCounts == old(floorCounts) && Linked()
      ensures creatures == Place(old(creatures), old(Slot(creature.kind)), creature)
      ensures old(Valid()) ==>
                (Valid() <==> !(creature.kind.Player? && old(monsterCount) > 0
                                && old(playerCount + monsterCount) < |old(creatures)|))
      ensures old(Located()) ==> Located()
    {
      PlaceKinds(creatures, Slot(creature.kind), creature);
      if Partition(Kinds(), playerCount, monsterCount) {
        AddPartition(Kinds(), playerCount, monsterCount, creature.kind);
      }
      ghost var slot, cs, us, vs, ws := Slot(creature.kind), creatures, xs, ys, zs;
      FileCreature(creature);
      if LocatedBut(cs, us, vs, ws, -1) {
        PlaceLocated(cs, us, vs, ws, slot, creature);
      }
    }

    method FileCreature(creature: Creature)
      requires Linked() && creature !in creatures && creature.position.z < MAX_LAYERS
      modifies this, floorCounts, creatures`chunkSlot, creature`chunkSlot
      ensures floorCounts == old(floorCounts) && Linked()
      ensures playerCount == old(playerCount) + (if creature.kind.Player? then 1 else 0)
      ensures monsterCount == old(monsterCount) + (if creature.kind.Monster? then 1 else 0)
      ensures creatures == Place(old(creatures), old(Slot(creature.kind)), creature)
      ensures xs == Place(old(xs), old(Slot(creature.kind)), creature.position.x)
      ensures ys == Place(old(ys), old(Slot(creature.kind)), creature.position.y)
      ensures zs == Place(old(zs), old(Slot(creature.kind)), creature.position.z)
    {
      PlaceOneMore(zs, Slot(creature.kind), creature.position.z);
      EnterFloor(zs, creature.position.z, Place(zs, Slot(creature.kind), creature.position.z));
      var slot := |creatures|;
      if creature.kind.Player? {
        slot := playerCount;
        playerCount := playerCount + 1;
      } else if creature.kind.Monster? {
        slot := playerCount + monsterCount;
        monsterCount := monsterCount + 1;
      }
      InsertAt(slot, creature);
    }

    function Slot(kind: Kind): nat
      reads this
    {
      SlotFor(kind, playerCount, monsterCount, |creatures|)
    }

    /** Unfiles a creature; a partitioned chunk stays partitioned. */
    method RemoveCreature(creature: Creature)
      requires Linked() && creature in creatures
      modifies this, floorCounts, creatures`chunkSlot
      ensures floorCounts == old(floorCounts) && Linked()
      ensures creatures == Take(old(creatures), old(creature.chunkSlot), old(playerCount), old(playerCount + monsterCount))
      ensures old(Valid()) ==> Valid()
      ensures old(Located()) ==> Located()
    {
      ghost var i, players, monsters, was := creature.chunkSlot, playerCount, monsterCount, creatures;
      UnfileAt(creature.chunkSlot, playerCount + monsterCount);
      if Partition(KindsOf(was), players, monsters) {
        TakeKeepsPartition(was, i, players, monsters);
      }
    }

    method UnfileAt(removeIndex: nat, monsterEnd: nat)
      requires Linked() && removeIndex < |creatures| && monsterEnd == playerCount + monsterCount
      modifies this, floorCounts, creatures`chunkSlot
      ensures floorCounts == old(floorCounts) && Linked()
      ensures creatures == Take(old(creatures), removeIndex, old(playerCount), monsterEnd)
      ensures playerCount == old(playerCount) - (if removeIndex < old(playerCount) then 1 else 0)
      ensures monsterCount == old(monsterCount) - (if old(playerCount) <= removeIndex < monsterEnd then 1 else 0)
      ensures old(Located()) ==> Located()
    {
      TakeOneLess(zs, removeIndex, playerCount, monsterEnd);
      TakeOnMap(zs, removeIndex, playerCount, monsterEnd);
      LeaveFloor(zs, zs[removeIndex], Take(zs, removeIndex, playerCount, monsterEnd));
      TakeOut(removeIndex, monsterEnd, set c | c in creatures);
    }

    /** Takes the entry out of its group and the arrays. */
    method TakeOut(removeIndex: nat, monsterEnd: nat, ghost filed: set<Creature>)
      requires Within(filed)
      requires Parallel() && removeIndex < |creatures| && playerCount + monsterCount == monsterEnd <= |creatures|
      modifies this`creatures, this`xs, this`ys, this`zs, this`playerCount, this`monsterCount, filed`chunkSlot
      ensures Parallel()
      ensures creatures == Take(old(creatures), removeIndex, old(playerCount), monsterEnd)
      ensures zs == Take(old(zs), removeIndex, old(playerCount), monsterEnd)
      ensures playerCount == old(playerCount) - (if removeIndex < old(playerCount) then 1 else 0)
      ensures monsterCount == old(monsterCount) - (if old(playerCount) <= removeIndex < monsterEnd then 1 else 0)
      ensures old(Located()) ==> Located()
    {
      FillHole(removeIndex, monsterEnd, filed);
      Uncount(removeIndex, monsterEnd);
    }

    /** The group that `removeIndex` was in loses a member. */
    method Uncount(removeIndex: nat, monsterEnd: nat)
      requires monsterEnd == playerCount + monsterCount
      modifies this`playerCount, this`monsterCount
      ensures playerCount == old(playerCount) - (if removeIndex < old(playerCount) then 1 else 0)
      ensures monsterCount == old(monsterCount) - (if old(playerCount) <= removeIndex < monsterEnd then 1 else 0)
    {
      if removeIndex < playerCount {
        playerCount := playerCount - 1;
      } else if removeIndex < monsterEnd {
        monsterCount := monsterCount - 1;
      }
    }

    /** Moves the hole at `removeIndex` to the end of each following group and pops it. */
    method FillHole(removeIndex: nat, monsterEnd: nat, ghost filed: set<Creature>)
      requires Within(filed)
      requires Parallel() && removeIndex < |creatures| && playerCount <= monsterEnd <= |creatures|
      modifies this`creatures, this`xs, this`ys, this`zs, filed`chunkSlot
      ensures Parallel()
      ensures creatures == Take(old(creatures), removeIndex, playerCount, monsterEnd)
      ensures zs == Take(old(zs), removeIndex, playerCount, monsterEnd)
      ensures old(Located()) ==> Located()
    {
      if removeIndex < playerCount {
        MoveInto(removeIndex, playerCount - 1, filed);
        CloseHole(playerCount - 1, monsterEnd - 1, filed);
      } else if removeIndex < monsterEnd {
        CloseHole(removeIndex, monsterEnd - 1, filed);
      } else {
        DropHole(removeIndex, filed);
      }
    }

    method CloseHole(hole: nat, next: nat, ghost filed: set<Creature>)
      requires Within(filed)
      requires HoleAt(hole) && hole <= next < |creatures|
      modifies this`creatures, this`xs, this`ys, this`zs, filed`chunkSlot
      ensures Parallel()
      ensures creatures == Close(old(creatures), hole, next)
      ensures zs == Close(old(zs), hole, next)
      ensures old(LocatedBut(creatures, xs, ys, zs, hole)) ==> Located()
    {
      MoveInto(hole, next, filed);
      DropHole(next, filed);
    }

    method DropHole(hole: nat, ghost filed: set<Creature>)
      requires Within(filed)
      requires hole < |creatures| && HoleAt(hole)
      modifies this`creatures, this`xs, this`ys, this`zs, filed`chunkSlot
      ensures Parallel()
      ensures creatures == Drop(old(creatures), hole)
      ensures zs == Drop(old(zs), hole)
      ensures old(LocatedBut(creatures, xs, ys, zs, hole)) ==> Located()
    {
      MoveInto(hole, |creatures| - 1, filed);
      PopBack();
    }

    method PopBack()
      requires creatures != [] && HoleAt(|creatures| - 1)
      modifies this`creatures, this`xs, this`ys, this`zs
      ensures Parallel()
      ensures creatures == old(creatures)[..|old(creatures)| - 1]
      ensures zs == old(zs)[..|old(zs)| - 1]
      ensures old(LocatedBut(creatures, xs, ys, zs, |creatures| - 1)) ==> Located()
    {
      var lastIndex := |creatures| - 1;
      creatures := creatures[..lastIndex];
      xs := xs[..lastIndex];
      ys := ys[..lastIndex];
      zs := zs[..lastIndex];
    }

    /** Parallel arrays in which only the entry at `hole` need not know its index. */
    ghost predicate HoleAt(hole: nat)
      reads this, creatures`chunkSlot
    {
      && |xs| == |ys| == |zs| == |creatures|
      && forall i :: 0 <= i < |creatures| && i != hole ==> creatures[i].chunkSlot == i
    }

    /** Copies one entry over the hole; the copied creature learns its index, and the hole is where it was. */
    method MoveInto(dst: nat, src: nat, ghost filed: set<Creature>)
      requires Within(filed)
      requires dst <= src < |creatures| && HoleAt(dst)
      modifies this`creatures, this`xs, this`ys, this`zs, filed`chunkSlot
      ensures HoleAt(src) && Within(filed)
      ensures creatures == Move(old(creatures), dst, src)
      ensures zs == Move(old(zs), dst, src)
      ensures old(LocatedBut(creatures, xs, ys, zs, dst)) ==> LocatedBut(creatures, xs, ys, zs, src)
    {
      if dst == src {
        return;
      }
      creatures := creatures[dst := creatures[src]];
      xs := xs[dst := xs[src]];
      ys := ys[dst := ys[src]];
      zs := zs[dst := zs[src]];
      creatures[dst].chunkSlot := dst;
    }

    method UpdateCreaturePosition(creature: Creature, newPosition: Position)
      requires Linked() && creature in creatures && newPosition.z < MAX_LAYERS
      modifies this`xs, this`ys, this`zs, this`distinctFloorCount, floorCounts
      ensures Linked()
      ensures xs == old(xs)[creature.chunkSlot := newPosition.x] && ys == old(ys)[creature.chunkSlot := newPosition.y]
      ensures zs == old(zs)[creature.chunkSlot := newPosition.z]
      ensures old(Valid()) ==> Valid()
      ensures old(LocatedBut(creatures, xs, ys, zs, creature.chunkSlot)) && creature.position == newPosition ==> Located()
    {
      var updateIndex := creature.chunkSlot;
      ghost var zs' := zs[updateIndex := newPosition.z];
      if zs[updateIndex] != newPosition.z {
        ghost var rest := Drop(zs, updateIndex);
        ChangeOneLess(zs, updateIndex, zs[updateIndex]);
        ChangeOneLess(zs, updateIndex, newPosition.z);
        assert zs[updateIndex := zs[updateIndex]] == zs;
        LeaveFloor(zs, zs[updateIndex], rest);
        EnterFloor(rest, newPosition.z, zs');
      }
      assert zs[updateIndex] == newPosition.z ==> zs' == zs;
      assert FloorsCounted(floorCounts[..], distinctFloorCount, zs');
      xs := xs[updateIndex := newPosition.x];
      ys := ys[updateIndex := newPosition.y];
      zs := zs[updateIndex := newPosition.z];
    }

    /** Pushes the creature's entries and swaps them with those at `slot`; both creatures learn their index. */
    method InsertAt(slot: nat, creature: Creature)
      requires slot <= |creatures| && Parallel() && creature !in creatures
      modifies this`creatures, this`xs, this`ys, this`zs, creatures`chunkSlot, creature`chunkSlot
      ensures Parallel()
      ensures creatures == Place(old(creatures), slot, creature)
      ensures xs == Place(old(xs), slot, creature.position.x)
      ensures ys == Place(old(ys), slot, creature.position.y)
      ensures zs == Place(old(zs), slot, creature.position.z)
    {
      var position := creature.position;
      SwappedPlace(creatures, slot, creature);
      SwappedPlace(xs, slot, position.x);
      SwappedPlace(ys, slot, position.y);
      SwappedPlace(zs, slot, position.z);
      creatures := creatures + [creature];
      xs := xs + [position.x];
      ys := ys + [position.y];
      zs := zs + [position.z];
      creatures := Swapped(creatures, slot);
      xs := Swapped(xs, slot);
      ys := Swapped(ys, slot);
      zs := Swapped(zs, slot);
      creatures[|creatures| - 1].chunkSlot := |creatures| - 1;
      creature.chunkSlot := slot;
    }

    /** One more creature on floor z. */
    method EnterFloor(ghost floors: seq<nat>, z: nat, ghost floors': seq<nat>)
      requires FloorsCounted(floorCounts[..], distinctFloorCount, floors) && z < MAX_LAYERS && OneMore(floors, z, floors')
      modifies floorCounts, this`distinctFloorCount
      ensures FloorsCounted(floorCounts[..], distinctFloorCount, floors')
    {
      FloorEnter(floorCounts[..], distinctFloorCount, floors, z, floors');
      ghost var counts := floorCounts[..];
      floorCounts[z] := floorCounts[z] + 1;
      if floorCounts[z] == 1 {
        distinctFloorCount := distinctFloorCount + 1;
      }
      assert floorCounts[..] == counts[z := counts[z] + 1];
    }

    /** One creature less on floor z. */
    method LeaveFloor(ghost floors: seq<nat>, z: nat, ghost floors': seq<nat>)
      requires FloorsCounted(floorCounts[..], distinctFloorCount, floors) && z < MAX_LAYERS && OneMore(floors', z, floors)
      modifies floorCounts, this`distinctFloorCount
      ensures FloorsCounted(floorCounts[..], distinctFloorCount, floors')
    {
      FloorLeave(floorCounts[..], distinctFloorCount, floors, z, floors');
      ghost var counts := floorCounts[..];
      floorCounts[z] := floorCounts[z] - 1;
      if floorCounts[z] == 0 {
        distinctFloorCount := distinctFloorCount - 1;
      }
      assert floorCounts[..] == counts[z := counts[z] - 1];
    }

    predicate AllCreaturesSameFloor()
      reads this
    {
      distinctFloorCount <= 1
    }

    /** The shortcut tells the truth: it holds exactly when no two creatures stand on different floors. */
    lemma SameFloorExactly()
      requires Linked()
      ensures AllCreaturesSameFloor() <==> forall i, j :: 0 <= i < |zs| && 0 <= j < |zs| ==> zs[i] == zs[j]
    {
      forall i | 0 <= i < |zs| ensures floorCounts[..][zs[i]] > 0 {
        CountIn<nat>(zs, i);
      }
      if i, j :| 0 <= i < |zs| && 0 <= j < |zs| && zs[i] < zs[j] {
        NonZeroTwo(floorCounts[..], zs[i], zs[j]);
      } else if zs == [] {
        NonZeroZero(floorCounts[..]);
      } else {
        forall z | 0 <= z < MAX_LAYERS && z != zs[0] ensures floorCounts[..][z] == 0 {
          CountMultiset<nat>(zs, z);
          assert z !in multiset(zs);
        }
        NonZeroOnly(floorCounts[..], zs[0]);
      }
    }
  }

  function Swapped<T>(s: seq<T>, slot: nat): seq<T>
    requires slot < |s|
  {
    s[|s| - 1 := s[slot]][slot := s[|s| - 1]]
  }

  lemma SwappedPlace<T>(s: seq<T>, slot: nat, x: T)
    requires slot <= |s|
    ensures Swapped(s + [x], slot) == Place(s, slot, x)
  {
  }

  ghost function KindsOf(creatures: seq<Creature>): seq<Kind> {
    seq(|creatures|, i requires 0 <= i < |creatures| => creatures[i].kind)
  }

  lemma PlaceKinds(creatures: seq<Creature>, slot: nat, creature: Creature)
    requires slot <= |creatures|
    ensures KindsOf(Place(creatures, slot, creature)) == Place(KindsOf(creatures), slot, creature.kind)
  {
  }

  lemma TakeKinds(creatures: seq<Creature>, i: nat, players: nat, monsterEnd: nat)
    requires i < |creatures| && players <= monsterEnd <= |creatures|
    ensures KindsOf(Take(creatures, i, players, monsterEnd)) == Take(KindsOf(creatures), i, players, monsterEnd)
  {
    forall k | 0 <= k < |creatures| - 1
      ensures KindsOf(Take(creatures, i, players, monsterEnd))[k] == Take(KindsOf(creatures), i, players, monsterEnd)[k]
    {
      TakeAt(creatures, i, players, monsterEnd, k);
      TakeAt(KindsOf(creatures), i, players, monsterEnd, k);
    }
  }

  lemma TakeKeepsPartition(creatures: seq<Creature>, i: nat, players: nat, monsters: nat)
    requires i < |creatures| && Partition(KindsOf(creatures), players, monsters)
    ensures Partition(KindsOf(Take(creatures, i, players, players + monsters)),
                      players - (if i < players then 1 else 0), monsters - (if players <= i < players + monsters then 1 else 0))
  {
    TakePartition(KindsOf(creatures), players, monsters, i);
    TakeKinds(creatures, i, players, players + monsters);
  }

  /** Every entry but perhaps one holds its own creature's position. */
  ghost predicate LocatedBut(creatures: seq<Creature>, xs: seq<nat>, ys: seq<nat>, zs: seq<nat>, skip: int)
    reads creatures`position
  {
    && |xs| == |ys| == |zs| == |creatures|
    && forall i :: 0 <= i < |creatures| && i != skip ==> creatures[i].position == Position(xs[i], ys[i], zs[i])
  }

  lemma PlaceLocated(creatures: seq<Creature>, xs: seq<nat>, ys: seq<nat>, zs: seq<nat>, slot: nat, creature: Creature)
    requires LocatedBut(creatures, xs, ys, zs, -1) && slot <= |creatures|
    ensures LocatedBut(Place(creatures, slot, creature), Place(xs, slot, creature.position.x),
                       Place(ys, slot, creature.position.y), Place(zs, slot, creature.position.z), -1)
  {
  }
}
