/**
 The bytes of a condition as src/condition.h numbers them, tag by tag and class by class: what stands where when a
 condition is written, which class is created for which type, and what each field does when it is read by itself.
 */
module ConditionLayout {
  import opened Bytes
  import opened ConditionCodec
  import opened Options

  // --------------------------------------------------------------------------------
  // What is written
  // --------------------------------------------------------------------------------

  /** A signed number as an unsigned word. */
  function Word(v: I32): U32 {
    if v < 0 then v + 0x1_0000_0000 else v
  }

  function Truth(b: bool): Byte {
    if b then 1 else 0
  }

  /** A row of values, each behind its tag. */
  function Row(tag: Byte, values: seq<I32>): seq<Byte> {
    if values == [] then [] else [tag] + Le32(Word(values[0])) + Row(tag, values[1..])
  }

  /** The intervals of a damage, each behind its tag. */
  function Intervals(intervals: seq<Interval>): seq<Byte> {
    if intervals == [] then []
    else
      var i := intervals[0];
      [10] + Le32(Word(i.timeLeft)) + Le32(Word(i.value)) + Le32(Word(i.interval)) + Intervals(intervals[1..])
  }

  function Head(b: Base): seq<Byte> {
    [1] + Le32(b.kind) + [2] + Le32(Word(b.id)) + [3] + Le32(Word(b.ticks)) + [26, Truth(b.isBuff)]
    + [27] + Le32(b.subId) + [28, Truth(b.aggressive)]
  }

  function Tail(b: Body): seq<Byte> {
    match b
    case Plain => []
    case Regeneration(healthTicks, healthGain, manaTicks, manaGain) =>
      [4] + Le32(healthTicks) + [5] + Le32(healthGain) + [6] + Le32(manaTicks) + [7] + Le32(manaGain)
    case Soul(soulTicks, soulGain) => [21] + Le32(soulGain) + [20] + Le32(soulTicks)
    case Speed(delta, minA, minB, maxA, maxB) =>
      [11] + Le32(Word(delta)) + [12] + Le32(minA) + [13] + Le32(minB) + [14] + Le32(maxA) + [15] + Le32(maxB)
    case Light(color, level, lightTicks, lightInterval) =>
      [16] + Le32(color) + [17] + Le32(level) + [18] + Le32(lightTicks) + [19] + Le32(lightInterval)
    case Attributes(skills, stats, specials, disableDefense) =>
      Row(22, skills.values) + Row(23, stats.values) + [29, Truth(disableDefense)] + Row(30, specials.values)
    case Damage(delayed, periodDamage, intervals, front) =>
      [8, Truth(delayed)] + [25] + Le32(Word(periodDamage)) + Intervals(if front < |intervals| then intervals[front..] else [])
  }

  lemma WordIs(v: I32)
    ensures Int(v) == Le32(Word(v))
  {
  }

  lemma EncodeMore(f: Field, rest: seq<Field>)
    ensures Encode([f] + rest) == [f.tag] + f.payload + Encode(rest)
  {
    assert ([f] + rest)[1..] == rest;
  }

  lemma EncodeTwo(f: Field, g: Field, rest: seq<Field>)
    ensures Encode([f, g] + rest) == [f.tag] + f.payload + [g.tag] + g.payload + Encode(rest)
  {
    assert [f, g] + rest == [f] + ([g] + rest);
    EncodeMore(f, [g] + rest);
    EncodeMore(g, rest);
  }

  lemma HeadIs(b: Base)
    ensures Encode(BaseFields(b)) == Head(b)
  {
    var fs := BaseFields(b);
    assert fs == [fs[0], fs[1]] + ([fs[2], fs[3]] + ([fs[4], fs[5]] + []));
    EncodeTwo(fs[0], fs[1], [fs[2], fs[3]] + ([fs[4], fs[5]] + []));
    EncodeTwo(fs[2], fs[3], [fs[4], fs[5]] + []);
    EncodeTwo(fs[4], fs[5], []);
    WordIs(b.id);
    WordIs(b.ticks);
  }

  lemma {:induction false} RowIs(tag: Byte, values: seq<I32>)
    ensures Encode(RowFields(tag, values)) == Row(tag, values)
  {
    if values != [] {
      RowIs(tag, values[1..]);
      WordIs(values[0]);
      assert RowFields(tag, values) == [RowFields(tag, values)[0]] + RowFields(tag, values[1..]);
      EncodeMore(RowFields(tag, values)[0], RowFields(tag, values[1..]));
    }
  }

  lemma {:induction false} IntervalsAre(intervals: seq<Interval>)
    ensures Encode(IntervalFields(intervals)) == Intervals(intervals)
  {
    if intervals != [] {
      var i := intervals[0];
      IntervalsAre(intervals[1..]);
      WordIs(i.timeLeft);
      WordIs(i.value);
      WordIs(i.interval);
      EncodeMore(IntervalField(i), IntervalFields(intervals[1..]));
    }
  }

  lemma SpeedIs(b: Body)
    requires b.Speed?
    ensures Encode(BodyFields(b)) == Tail(b)
  {
    var fs := BodyFields(b);
    assert fs == [fs[0], fs[1]] + ([fs[2], fs[3]] + ([fs[4]] + []));
    EncodeTwo(fs[0], fs[1], [fs[2], fs[3]] + ([fs[4]] + []));
    EncodeTwo(fs[2], fs[3], [fs[4]] + []);
    EncodeMore(fs[4], []);
    WordIs(b.delta);
  }

  lemma FourAre(fs: seq<Field>)
    requires |fs| == 4
    ensures Encode(fs) == [fs[0].tag] + fs[0].payload + [fs[1].tag] + fs[1].payload + [fs[2].tag] + fs[2].payload
                          + [fs[3].tag] + fs[3].payload
  {
    assert fs == [fs[0], fs[1]] + ([fs[2], fs[3]] + []);
    EncodeTwo(fs[0], fs[1], [fs[2], fs[3]] + []);
    EncodeTwo(fs[2], fs[3], []);
  }

  lemma AttributesAre(b: Body)
    requires b.Attributes?
    ensures Encode(BodyFields(b)) == Tail(b)
  {
    var skills, stats, specials := RowFields(22, b.skills.values), RowFields(23, b.stats.values), RowFields(30, b.specials.values);
    var flag := [Field(29, Bit(b.disableDefense))];
    EncodeConcat(skills + stats + flag, specials);
    EncodeConcat(skills + stats, flag);
    EncodeConcat(skills, stats);
    RowIs(22, b.skills.values);
    RowIs(23, b.stats.values);
    RowIs(30, b.specials.values);
    assert flag == flag + [];
    EncodeMore(flag[0], []);
  }

  lemma DamageIs(b: Body)
    requires b.Damage?
    ensures Encode(BodyFields(b)) == Tail(b)
  {
    var left := Remaining(b.intervals, b.front);
    EncodeTwo(Field(8, Bit(b.delayed)), Field(25, Int(b.periodDamage)), IntervalFields(left));
    WordIs(b.periodDamage);
    IntervalsAre(left);
  }

  lemma TailIs(b: Body)
    ensures Encode(BodyFields(b)) == Tail(b)
  {
    match b
    case Plain =>
    case Regeneration(_, _, _, _) => FourAre(BodyFields(b));
    case Soul(_, _) =>
      var fs := BodyFields(b);
      assert fs == [fs[0], fs[1]] + [];
      EncodeTwo(fs[0], fs[1], []);
    case Speed(_, _, _, _, _) => SpeedIs(b);
    case Light(_, _, _, _) => FourAre(BodyFields(b));
    case Attributes(_, _, _, _) => AttributesAre(b);
    case Damage(_, _, _, _) => DamageIs(b);
  }

  /** A condition is written as its head and then the fields of its class, under these tags and in this order. */
  lemma SerializedExactly(c: Condition)
    ensures Serialized(c) == Head(c.base) + Tail(c.body)
  {
    HeadIs(c.base);
    TailIs(c.body);
  }

  // --------------------------------------------------------------------------------
  // Which class is created
  // --------------------------------------------------------------------------------

  /** The type with the n-th bit. */
  function Type(n: nat): nat {
    if n == 0 then 1 else 2 * Type(n - 1)
  }

  lemma Types(n: nat)
    requires n < 28
    ensures Type(n) == [0x1, 0x2, 0x4, 0x8, 0x10, 0x20, 0x40, 0x80, 0x100, 0x200, 0x400, 0x800, 0x1000, 0x2000, 0x4000, 0x8000,
                        0x1_0000, 0x2_0000, 0x4_0000, 0x8_0000, 0x10_0000, 0x20_0000, 0x40_0000, 0x80_0000, 0x100_0000,
                        0x200_0000, 0x400_0000, 0x800_0000][n]
  {
    if n > 0 {
      Types(n - 1);
    }
  }

  function Nothing(n: nat): ConditionCodec.Row {
    ConditionCodec.Row(seq(n, _ => 0), 0)
  }

  /** What is created for the type with the n-th bit. */
  function ClassOf(n: nat): Option<Body> {
    if n in {0, 1, 2, 3, 15, 20, 21, 22} then Some(Damage(false, 0, [], 0))
    else if n == 4 || n == 5 then Some(Speed(0, 0, 0, 0, 0))
    else if n == 6 then None
    else if n == 8 then Some(Light(0, 0, 0, 0))
    else if n == 13 then Some(Regeneration(1000, 0, 1000, 0))
    else if n == 14 then Some(Soul(0, 0))
    else if n == 19 then Some(Attributes(Nothing(7), Nothing(4), Nothing(6), false))
    else Some(Plain)
  }

  /**
   Poison, fire, energy, bleeding, drowning, freezing, dazzling and curses are damage; haste and paralysis change the
   speed; light, regeneration, soul and attributes have classes of their own, and the rest, but for outfits, none.
   */
  lemma CreatedClass(n: nat)
    requires n < 28
    ensures Type(n) < 0x1_0000_0000 && FreshBody(Type(n)) == ClassOf(n)
  {
    if n < 10 {
      EarlyClass(n);
    } else if n < 20 {
      MiddleClass(n);
    } else {
      LateClass(n);
    }
  }

  lemma EarlyClass(n: nat)
    requires n < 10
    ensures Type(n) < 0x1_0000_0000 && FreshBody(Type(n)) == ClassOf(n)
  {
    Types(n);
  }

  lemma MiddleClass(n: nat)
    requires 10 <= n < 20
    ensures Type(n) < 0x1_0000_0000 && FreshBody(Type(n)) == ClassOf(n)
  {
    Types(n);
  }

  lemma LateClass(n: nat)
    requires 20 <= n < 28
    ensures Type(n) < 0x1_0000_0000 && FreshBody(Type(n)) == ClassOf(n)
  {
    Types(n);
  }

  /** Nothing is created for no type, or for a number beyond the types. */
  lemma NoOtherClass(kind: U32)
    requires kind == 0 || kind >= 0x1000_0000
    ensures FreshBody(kind) == None
  {
  }

  // --------------------------------------------------------------------------------
  // Single fields
  // --------------------------------------------------------------------------------

  /** The tags that a class knows beside those of every condition. */
  function OwnTags(b: Body): set<nat> {
    match b
    case Plain => {}
    case Regeneration(_, _, _, _) => {4, 5, 6, 7}
    case Soul(_, _) => {20, 21}
    case Speed(_, _, _, _, _) => {11, 12, 13, 14, 15}
    case Light(_, _, _, _) => {16, 17, 18, 19}
    case Attributes(_, _, _, _) => {22, 23, 29, 30}
    case Damage(_, _, _, _) => {8, 9, 10, 25}
  }

  /** A tag is known if it is the class's own or one of the base's; flags take a byte, intervals three words, the rest one word. */
  lemma KnownTags(b: Body, tag: Byte)
    ensures SizeIn(b, tag).Some? <==> tag in {1, 2, 3, 26, 27, 28} + OwnTags(b)
    ensures SizeIn(b, tag).Some? ==> SizeIn(b, tag).value == if tag in {8, 26, 28, 29} then 1 else if tag == 10 then 12 else 4
  {
  }

  /** Reading stops with a failure right behind a tag that the class does not know, or whose value is cut short. */
  lemma UnknownTagFails(c: Condition, tag: Byte, rest: seq<Byte>)
    requires tag != 254
    requires tag !in {1, 2, 3, 26, 27, 28} + OwnTags(c.body)
             || |rest| < if tag in {8, 26, 28, 29} then 1 else if tag == 10 then 12 else 4
    ensures ReadFields(SizesOf(c.body), Putter(), c, [tag] + rest) == Reading(false, c, rest)
  {
    KnownTags(c.body, tag);
    assert ([tag] + rest)[1..] == rest;
  }

  /** One field and the end byte. */
  lemma OneRead<C>(sizes: Sizes, put: Setter<C>, c: C, tag: Byte, payload: seq<Byte>, suffix: seq<Byte>)
    requires tag != END && sizes(tag) == Some(|payload|)
    ensures ReadFields(sizes, put, c, [tag] + payload + [254] + suffix) == Reading(true, put(c, tag, payload), suffix)
  {
    var fields := [Field(tag, payload)];
    ReadEncode(sizes, put, c, fields, suffix);
    assert fields == fields + [];
    EncodeMore(fields[0], []);
    assert Encode(fields) == [tag] + payload;
    assert fields[1..] == [];
    assert SetAll(put, c, fields) == SetAll(put, put(c, tag, payload), []);
  }

  /** The end of the stream does for the end byte, even right behind a value. */
  lemma StreamEnds(c: Condition, tag: Byte, payload: seq<Byte>)
    requires tag != 254 && SizeIn(c.body, tag) == Some(|payload|)
    ensures ReadFields(SizesOf(c.body), Putter(), c, []) == Reading(true, c, [])
    ensures ReadFields(SizesOf(c.body), Putter(), c, [tag] + payload) == Reading(true, Put(c, tag, payload), [])
  {
    var bytes := [tag] + payload;
    assert bytes[1..] == payload && payload[..|payload|] == payload && payload[|payload|..] == [];
    EmptyReads(SizesOf(c.body), Putter(), Put(c, tag, payload));
  }

  lemma EmptyReads<C>(sizes: Sizes, put: Setter<C>, c: C)
    ensures ReadFields(sizes, put, c, []) == Reading(true, c, [])
  {
  }

  /** A field of the base behind the head, on a condition of any class, replaces what the head said, */
  lemma BaseFieldReplaces(c: Condition, tag: Byte, payload: seq<Byte>, suffix: seq<Byte>)
    requires tag in {1, 2, 3, 26, 27, 28} && |payload| == if tag == 26 || tag == 28 then 1 else 4
    ensures ReadFields(SizesOf(c.body), Putter(), c, [tag] + payload + [254] + suffix)
         == Reading(true, c.(base := PutBase(c.base, tag, payload)), suffix)
  {
    PutsBase(c, tag, payload);
    OneRead(SizesOf(c.body), Putter(), c, tag, payload, suffix);
  }

  lemma PutsBase(c: Condition, tag: Byte, payload: seq<Byte>)
    requires tag in {1, 2, 3, 26, 27, 28} && |payload| == if tag == 26 || tag == 28 then 1 else 4
    ensures SizesOf(c.body)(tag) == Some(|payload|)
    ensures Putter()(c, tag, payload) == c.(base := PutBase(c.base, tag, payload))
  {
  }

  /** each tag its own field. */
  lemma BaseFieldExactly(b: Base, kind: U32, id: I8, ticks: I32, flag: bool, subId: U32)
    ensures PutBase(b, 1, Le32(kind)) == b.(kind := kind)
    ensures PutBase(b, 2, Le32(Word(id))) == b.(id := id)
    ensures PutBase(b, 3, Le32(Word(ticks))) == b.(ticks := ticks)
    ensures PutBase(b, 26, [Truth(flag)]) == b.(isBuff := flag)
    ensures PutBase(b, 27, Le32(subId)) == b.(subId := subId)
    ensures PutBase(b, 28, [Truth(flag)]) == b.(aggressive := flag)
  {
    U32Restored(kind);
    U32Restored(subId);
    U32Restored(Word(id));
    SignsRestored(0, id);
    assert Word(id) == ToU32(id);
    WordIs(ticks);
    I32Restored(ticks);
  }

  /** A word read with a sign is the one number of the signed range that has the same remainder, and a byte likewise. */
  lemma SignExactly(u: U32)
    ensures -0x8000_0000 <= ToI32(u) < 0x8000_0000 && (ToI32(u) - u) % 0x1_0000_0000 == 0
    ensures -128 <= ToI8(u) < 128 && (ToI8(u) - u) % 256 == 0
  {
  }

  /** A damage without end stays so, whatever intervals are read. */
  lemma {:induction false} EndlessTicksStay(intervals: seq<Interval>)
    ensures TicksAfter(-1, intervals) == -1
  {
    if intervals != [] {
      EndlessTicksStay(intervals[1..]);
    }
  }
}
