/**
 The serialisation of conditions in src/condition.cpp: a condition is written as tagged fields,
 and created and read back from them.

 The head names the class to create, every class adds the tags it knows to those of the base, and
 an end byte closes the fields; words are unsigned in the stream and signed where the class has
 them signed.
 */
module ConditionCodec {
  import opened Bytes
  import opened Options

  // --------------------------------------------------------------------------------
  // Tagged fields, whatever they belong to
  // --------------------------------------------------------------------------------

  const END: Byte := 254

  datatype Field = Field(tag: Byte, payload: seq<Byte>)

  function Encode(fields: seq<Field>): seq<Byte> {
    if fields == [] then [] else [fields[0].tag] + fields[0].payload + Encode(fields[1..])
  }

  /** How many bytes follow a tag, for the tags a reader knows. */
  type Sizes = Byte -> Option<nat>

  type Setter<!C> = (C, Byte, seq<Byte>) -> C

  datatype Reading<C> = Reading(ok: bool, value: C, rest: seq<Byte>)

  /** The loop of unserialize: fields up to an end byte or the end of the stream. */
  function ReadFields<C>(sizes: Sizes, put: Setter<C>, c: C, bytes: seq<Byte>): Reading<C>
    decreases |bytes|
  {
    if bytes == [] then Reading(true, c, [])
    else
      var tag, rest := bytes[0], bytes[1..];
      if tag == END then Reading(true, c, rest)
      else if sizes(tag).None? || |rest| < sizes(tag).value then Reading(false, c, rest)
      else ReadFields(sizes, put, put(c, tag, rest[..sizes(tag).value]), rest[sizes(tag).value..])
  }

  function SetAll<C>(put: Setter<C>, c: C, fields: seq<Field>): C {
    if fields == [] then c else SetAll(put, put(c, fields[0].tag, fields[0].payload), fields[1..])
  }

  predicate Known(sizes: Sizes, fields: seq<Field>) {
    forall i :: 0 <= i < |fields| ==> fields[i].tag != END && sizes(fields[i].tag) == Some(|fields[i].payload|)
  }

  /** Fields that a reader knows are all read, and it stops behind the end byte. */
  lemma {:induction false} ReadEncode<C>(sizes: Sizes, put: Setter<C>, c: C, fields: seq<Field>, suffix: seq<Byte>)
    requires Known(sizes, fields)
    ensures ReadFields(sizes, put, c, Encode(fields) + [END] + suffix) == Reading(true, SetAll(put, c, fields), suffix)
    decreases |fields|
  {
    if fields == [] {
      assert [] + [END] + suffix == [END] + suffix;
      assert ([END] + suffix)[1..] == suffix;
    } else {
      var f, tail := fields[0], Encode(fields[1..]) + [END] + suffix;
      var bytes := Encode(fields) + [END] + suffix;
      assert bytes == [f.tag] + (f.payload + tail);
      assert bytes[1..] == f.payload + tail;
      assert (f.payload + tail)[..|f.payload|] == f.payload && (f.payload + tail)[|f.payload|..] == tail;
      ReadEncode(sizes, put, put(c, f.tag, f.payload), fields[1..], suffix);
    }
  }

  lemma {:induction false} SetAllConcat<C>(put: Setter<C>, c: C, first: seq<Field>, second: seq<Field>)
    ensures SetAll(put, c, first + second) == SetAll(put, SetAll(put, c, first), second)
    decreases |first|
  {
    if first == [] {
      assert first + second == second;
    } else {
      assert (first + second)[1..] == first[1..] + second;
      SetAllConcat(put, put(c, first[0].tag, first[0].payload), first[1..], second);
    }
  }

  // --------------------------------------------------------------------------------
  // Conditions
  // --------------------------------------------------------------------------------

  type I32 = v: int | -0x8000_0000 <= v < 0x8000_0000

  type I8 = v: int | -128 <= v < 128

  function ToU32(v: int): U32 {
    v % 0x1_0000_0000
  }

  function ToI32(v: int): I32 {
    var u := v % 0x1_0000_0000;
    if u < 0x8000_0000 then u else u - 0x1_0000_0000
  }

  function ToI8(v: int): I8 {
    var u := v % 256;
    if u < 128 then u else u - 256
  }

  lemma SignsRestored(v: I32, w: I8)
    ensures ToI32(ToU32(v)) == v && ToI8(ToU32(w)) == w
  {
  }

  datatype Base = Base(kind: U32, id: I8, ticks: I32, isBuff: bool, subId: U32, aggressive: bool)

  datatype Interval = Interval(timeLeft: I32, value: I32, interval: I32)

  /** The serialised fields of the subclasses; floats are kept as their four bytes. */
  datatype Body =
    | Plain
    | Regeneration(healthTicks: U32, healthGain: U32, manaTicks: U32, manaGain: U32)
    | Soul(soulTicks: U32, soulGain: U32)
    | Speed(delta: I32, minA: U32, minB: U32, maxA: U32, maxB: U32)
    | Light(color: Byte, level: Byte, lightTicks: U32, lightInterval: U32)
    | Attributes(skills: Row, stats: Row, specials: Row, disableDefense: bool)
    | Damage(delayed: bool, periodDamage: I32, intervals: seq<Interval>, front: nat)

  /** An array of values and the cursor at which the next one read is stored. */
  datatype Row = Row(values: seq<I32>, cursor: nat)

  datatype Condition = Condition(base: Base, body: Body)

  const SKILLS: nat := 7
  const STATS: nat := 4
  const SPECIALS: nat := 6

  function Zeroes(n: nat): Row {
    Row(seq(n, _ => 0), 0)
  }

  /** The class that createCondition makes for a type; outfits are not modelled. */
  function FreshBody(kind: U32): Option<Body> {
    if kind in {0x1, 0x2, 0x4, 0x8, 0x8000, 0x10_0000, 0x20_0000, 0x40_0000} then Some(Damage(false, 0, [], 0))
    else if kind in {0x10, 0x20} then Some(Speed(0, 0, 0, 0, 0))
    else if kind == 0x100 then Some(Light(0, 0, 0, 0))
    else if kind == 0x2000 then Some(Regeneration(1000, 0, 1000, 0))
    else if kind == 0x4000 then Some(Soul(0, 0))
    else if kind == 0x8_0000 then Some(Attributes(Zeroes(SKILLS), Zeroes(STATS), Zeroes(SPECIALS), false))
    else if kind in {0x80, 0x200, 0x400, 0x800, 0x1000, 0x1_0000, 0x2_0000, 0x4_0000, 0x80_0000, 0x100_0000, 0x200_0000,
                     0x400_0000, 0x800_0000} then Some(Plain)
    else None
  }

  /** A created condition takes the ticks that were read, but for damage, which starts from none. */
  function Fresh(base: Base): Option<Condition> {
    match FreshBody(base.kind)
    case None => None
    case Some(body) => Some(Condition(if body.Damage? then base.(ticks := 0) else base, body))
  }

  // Writing

  function Bit(b: bool): seq<Byte> {
    [if b then 1 else 0]
  }

  function Int(v: I32): (bytes: seq<Byte>)
    ensures |bytes| == 4
  {
    Le32(ToU32(v))
  }

  function BaseFields(b: Base): seq<Field> {
    [Field(1, Le32(b.kind)), Field(2, Le32(ToU32(b.id))), Field(3, Int(b.ticks)), Field(26, Bit(b.isBuff)),
     Field(27, Le32(b.subId)), Field(28, Bit(b.aggressive))]
  }

  function RowFields(tag: Byte, values: seq<I32>): seq<Field> {
    seq(|values|, i requires 0 <= i < |values| => Field(tag, Int(values[i])))
  }

  function IntervalField(i: Interval): Field {
    Field(10, Int(i.timeLeft) + Int(i.value) + Int(i.interval))
  }

  function IntervalFields(intervals: seq<Interval>): seq<Field> {
    if intervals == [] then [] else [IntervalField(intervals[0])] + IntervalFields(intervals[1..])
  }

  /** Damage intervals from the front on; those before it have been dealt. */
  function Remaining(intervals: seq<Interval>, front: nat): seq<Interval> {
    if front <= |intervals| then intervals[front..] else []
  }

  function BodyFields(b: Body): seq<Field> {
    match b
    case Plain => []
    case Regeneration(healthTicks, healthGain, manaTicks, manaGain) =>
      [Field(4, Le32(healthTicks)), Field(5, Le32(healthGain)), Field(6, Le32(manaTicks)), Field(7, Le32(manaGain))]
    case Soul(soulTicks, soulGain) => [Field(21, Le32(soulGain)), Field(20, Le32(soulTicks))]
    case Speed(delta, minA, minB, maxA, maxB) =>
      [Field(11, Int(delta)), Field(12, Le32(minA)), Field(13, Le32(minB)), Field(14, Le32(maxA)), Field(15, Le32(maxB))]
    case Light(color, level, lightTicks, lightInterval) =>
      [Field(16, Le32(color)), Field(17, Le32(level)), Field(18, Le32(lightTicks)), Field(19, Le32(lightInterval))]
    case Attributes(skills, stats, specials, disableDefense) =>
      RowFields(22, skills.values) + RowFields(23, stats.values) + [Field(29, Bit(disableDefense))]
      + RowFields(30, specials.values)
    case Damage(delayed, periodDamage, intervals, front) =>
      [Field(8, Bit(delayed)), Field(25, Int(periodDamage))] + IntervalFields(Remaining(intervals, front))
  }

  // Reading

  /** The payload size of the tags that a class knows: its own, and those of every condition. */
  function SizeIn(b: Body, tag: Byte): Option<nat> {
    if tag == 1 || tag == 2 || tag == 3 || tag == 27 then Some(4)
    else if tag == 26 || tag == 28 then Some(1)
    else
      match b
      case Plain => None
      case Regeneration(_, _, _, _) => if 4 <= tag <= 7 then Some(4) else None
      case Soul(_, _) => if tag == 20 || tag == 21 then Some(4) else None
      case Speed(_, _, _, _, _) => if 11 <= tag <= 15 then Some(4) else None
      case Light(_, _, _, _) => if 16 <= tag <= 19 then Some(4) else None
      case Attributes(_, _, _, _) =>
        if tag == 22 || tag == 23 || tag == 30 then Some(4) else if tag == 29 then Some(1) else None
      case Damage(_, _, _, _) =>
        if tag == 9 || tag == 25 then Some(4) else if tag == 8 then Some(1) else if tag == 10 then Some(12) else None
  }

  function SizesOf(b: Body): Sizes {
    (tag: Byte) => SizeIn(b, tag)
  }

  function U32Of(payload: seq<Byte>): U32 {
    if |payload| >= 4 then U32At(payload, 0) else 0
  }

  function I32Of(payload: seq<Byte>): I32 {
    ToI32(U32Of(payload))
  }

  function BoolOf(payload: seq<Byte>): bool {
    payload != [] && payload[0] != 0
  }

  /** The source stores past the end of the array here; the model stores nothing. */
  function StoreAt(row: Row, v: I32): Row {
    if row.cursor < |row.values| then Row(row.values[row.cursor := v], row.cursor + 1) else row
  }

  function PutBase(b: Base, tag: Byte, payload: seq<Byte>): Base {
    if tag == 1 then b.(kind := U32Of(payload))
    else if tag == 2 then b.(id := ToI8(U32Of(payload)))
    else if tag == 3 then b.(ticks := I32Of(payload))
    else if tag == 26 then b.(isBuff := BoolOf(payload))
    else if tag == 27 then b.(subId := U32Of(payload))
    else if tag == 28 then b.(aggressive := BoolOf(payload))
    else b
  }

  function IntervalOf(payload: seq<Byte>): Interval {
    if |payload| < 12 then Interval(0, 0, 0)
    else Interval(I32Of(payload[..4]), I32Of(payload[4..8]), I32Of(payload[8..12]))
  }

  function AddTicks(ticks: I32, interval: I32): I32 {
    if ticks == -1 then ticks else ToI32(ticks + interval)
  }

  function Put(c: Condition, tag: Byte, payload: seq<Byte>): Condition {
    match c.body
    case Regeneration(_, _, _, _) =>
      if tag == 4 then c.(body := c.body.(healthTicks := U32Of(payload)))
      else if tag == 5 then c.(body := c.body.(healthGain := U32Of(payload)))
      else if tag == 6 then c.(body := c.body.(manaTicks := U32Of(payload)))
      else if tag == 7 then c.(body := c.body.(manaGain := U32Of(payload)))
      else c.(base := PutBase(c.base, tag, payload))
    case Soul(_, _) =>
      if tag == 21 then c.(body := c.body.(soulGain := U32Of(payload)))
      else if tag == 20 then c.(body := c.body.(soulTicks := U32Of(payload)))
      else c.(base := PutBase(c.base, tag, payload))
    case Speed(_, _, _, _, _) =>
      if tag == 11 then c.(body := c.body.(delta := I32Of(payload)))
      else if tag == 12 then c.(body := c.body.(minA := U32Of(payload)))
      else if tag == 13 then c.(body := c.body.(minB := U32Of(payload)))
      else if tag == 14 then c.(body := c.body.(maxA := U32Of(payload)))
      else if tag == 15 then c.(body := c.body.(maxB := U32Of(payload)))
      else c.(base := PutBase(c.base, tag, payload))
    case Light(_, _, _, _) =>
      if tag == 16 then c.(body := c.body.(color := U32Of(payload) % 256))
      else if tag == 17 then c.(body := c.body.(level := U32Of(payload) % 256))
      else if tag == 18 then c.(body := c.body.(lightTicks := U32Of(payload)))
      else if tag == 19 then c.(body := c.body.(lightInterval := U32Of(payload)))
      else c.(base := PutBase(c.base, tag, payload))
    case Attributes(_, _, _, _) =>
      if tag == 22 then c.(body := c.body.(skills := StoreAt(c.body.skills, I32Of(payload))))
      else if tag == 30 then c.(body := c.body.(specials := StoreAt(c.body.specials, I32Of(payload))))
      else if tag == 23 then c.(body := c.body.(stats := StoreAt(c.body.stats, I32Of(payload))))
      else if tag == 29 then c.(body := c.body.(disableDefense := BoolOf(payload)))
      else c.(base := PutBase(c.base, tag, payload))
    case Damage(_, _, _, _) =>
      if tag == 8 then c.(body := c.body.(delayed := BoolOf(payload)))
      else if tag == 25 then c.(body := c.body.(periodDamage := I32Of(payload)))
      else if tag == 9 then c
      else if tag == 10 then
        var i := IntervalOf(payload);
        Condition(c.base.(ticks := AddTicks(c.base.ticks, i.interval)), c.body.(intervals := c.body.intervals + [i]))
      else c.(base := PutBase(c.base, tag, payload))
    case Plain => c.(base := PutBase(c.base, tag, payload))
  }

  // --------------------------------------------------------------------------------
  // Restoring the bodies
  // --------------------------------------------------------------------------------

  lemma U32Restored(v: U32)
    ensures U32Of(Le32(v)) == v
  {
  }

  lemma I32Restored(v: I32)
    ensures I32Of(Int(v)) == v
  {
    U32Restored(ToU32(v));
    SignsRestored(v, 0);
  }

  lemma IntervalRestored(i: Interval)
    ensures IntervalOf(IntervalField(i).payload) == i
  {
    var p := IntervalField(i).payload;
    assert p[..4] == Int(i.timeLeft) && p[4..8] == Int(i.value) && p[8..12] == Int(i.interval);
    I32Restored(i.timeLeft);
    I32Restored(i.value);
    I32Restored(i.interval);
  }

  function Putter(): Setter<Condition> {
    (c: Condition, tag: Byte, payload: seq<Byte>) => Put(c, tag, payload)
  }

  lemma SetTwo<C>(put: Setter<C>, c: C, f: Field, g: Field)
    ensures SetAll(put, c, [f, g]) == put(put(c, f.tag, f.payload), g.tag, g.payload)
  {
    var c' := put(c, f.tag, f.payload);
    assert [f, g][1..] == [g] && [g][1..] == [];
    assert SetAll(put, c', [g]) == SetAll(put, put(c', g.tag, g.payload), []);
  }

  lemma SetFour<C>(put: Setter<C>, c: C, f: Field, g: Field, h: Field, i: Field)
    ensures SetAll(put, c, [f, g, h, i])
         == put(put(put(put(c, f.tag, f.payload), g.tag, g.payload), h.tag, h.payload), i.tag, i.payload)
  {
    SetTwo(put, put(put(c, f.tag, f.payload), g.tag, g.payload), h, i);
    SetTwo(put, c, f, g);
    SetAllConcat(put, c, [f, g], [h, i]);
    assert [f, g] + [h, i] == [f, g, h, i];
  }

  lemma RegenerationRestored(base: Base, b: Body)
    requires b.Regeneration?
    ensures SetAll(Putter(), Condition(base, Regeneration(1000, 0, 1000, 0)), BodyFields(b)) == Condition(base, b)
  {
    SetFour(Putter(), Condition(base, Regeneration(1000, 0, 1000, 0)), BodyFields(b)[0], BodyFields(b)[1], BodyFields(b)[2],
            BodyFields(b)[3]);
    U32Restored(b.healthTicks);
    U32Restored(b.healthGain);
    U32Restored(b.manaTicks);
    U32Restored(b.manaGain);
  }

  lemma SoulRestored(base: Base, b: Body)
    requires b.Soul?
    ensures SetAll(Putter(), Condition(base, Soul(0, 0)), BodyFields(b)) == Condition(base, b)
  {
    SetTwo(Putter(), Condition(base, Soul(0, 0)), BodyFields(b)[0], BodyFields(b)[1]);
    U32Restored(b.soulTicks);
    U32Restored(b.soulGain);
  }

  lemma LightRestored(base: Base, b: Body)
    requires b.Light?
    ensures SetAll(Putter(), Condition(base, Light(0, 0, 0, 0)), BodyFields(b)) == Condition(base, b)
  {
    SetFour(Putter(), Condition(base, Light(0, 0, 0, 0)), BodyFields(b)[0], BodyFields(b)[1], BodyFields(b)[2],
            BodyFields(b)[3]);
    U32Restored(b.color);
    U32Restored(b.level);
    U32Restored(b.lightTicks);
    U32Restored(b.lightInterval);
  }

  lemma SpeedRestored(base: Base, b: Body)
    requires b.Speed?
    ensures SetAll(Putter(), Condition(base, Speed(0, 0, 0, 0, 0)), BodyFields(b)) == Condition(base, b)
  {
    var fields, blank := BodyFields(b), Condition(base, Speed(0, 0, 0, 0, 0));
    assert fields == [fields[0]] + fields[1..];
    SetFour(Putter(), Condition(base, Speed(b.delta, 0, 0, 0, 0)), fields[1], fields[2], fields[3], fields[4]);
    assert fields[1..] == [fields[1], fields[2], fields[3], fields[4]];
    I32Restored(b.delta);
    U32Restored(b.minA);
    U32Restored(b.minB);
    U32Restored(b.maxA);
    U32Restored(b.maxB);
  }

  // Attributes: every value is stored at the cursor

  function StoreAll(row: Row, values: seq<I32>): Row
    decreases |values|
  {
    if values == [] then row else StoreAll(StoreAt(row, values[0]), values[1..])
  }

  lemma {:induction false} StoreAllFills(row: Row, values: seq<I32>)
    requires row.cursor + |values| == |row.values|
    ensures StoreAll(row, values) == Row(row.values[..row.cursor] + values, |row.values|)
    decreases |values|
  {
    if values == [] {
      assert row.values[..row.cursor] + values == row.values;
    } else {
      var next := StoreAt(row, values[0]);
      StoreAllFills(next, values[1..]);
      assert next.values[..next.cursor] + values[1..] == row.values[..row.cursor] + values;
    }
  }

  lemma {:induction false} SkillsRestored(c: Condition, values: seq<I32>)
    requires c.body.Attributes?
    ensures SetAll(Putter(), c, RowFields(22, values)) == c.(body := c.body.(skills := StoreAll(c.body.skills, values)))
    decreases |values|
  {
    if values != [] {
      assert RowFields(22, values)[1..] == RowFields(22, values[1..]);
      I32Restored(values[0]);
      SkillsRestored(c.(body := c.body.(skills := StoreAt(c.body.skills, values[0]))), values[1..]);
    }
  }

  lemma {:induction false} StatsRestored(c: Condition, values: seq<I32>)
    requires c.body.Attributes?
    ensures SetAll(Putter(), c, RowFields(23, values)) == c.(body := c.body.(stats := StoreAll(c.body.stats, values)))
    decreases |values|
  {
    if values != [] {
      assert RowFields(23, values)[1..] == RowFields(23, values[1..]);
      I32Restored(values[0]);
      StatsRestored(c.(body := c.body.(stats := StoreAt(c.body.stats, values[0]))), values[1..]);
    }
  }

  lemma {:induction false} SpecialsRestored(c: Condition, values: seq<I32>)
    requires c.body.Attributes?
    ensures SetAll(Putter(), c, RowFields(30, values)) == c.(body := c.body.(specials := StoreAll(c.body.specials, values)))
    decreases |values|
  {
    if values != [] {
      assert RowFields(30, values)[1..] == RowFields(30, values[1..]);
      I32Restored(values[0]);
      SpecialsRestored(c.(body := c.body.(specials := StoreAt(c.body.specials, values[0]))), values[1..]);
    }
  }

  /** The arrays with their cursors at the end, as reading leaves them. */
  function Full(row: Row): Row {
    Row(row.values, |row.values|)
  }

  lemma AttributesRestored(base: Base, b: Body)
    requires b.Attributes? && |b.skills.values| == SKILLS && |b.stats.values| == STATS && |b.specials.values| == SPECIALS
    ensures SetAll(Putter(), Condition(base, Attributes(Zeroes(SKILLS), Zeroes(STATS), Zeroes(SPECIALS), false)), BodyFields(b))
         == Condition(base, Attributes(Full(b.skills), Full(b.stats), Full(b.specials), b.disableDefense))
  {
    var c0 := Condition(base, Attributes(Zeroes(SKILLS), Zeroes(STATS), Zeroes(SPECIALS), false));
    var fs, gs, hs := RowFields(22, b.skills.values), RowFields(23, b.stats.values), RowFields(30, b.specials.values);
    var flag := [Field(29, Bit(b.disableDefense))];
    StoreAllFills(Zeroes(SKILLS), b.skills.values);
    StoreAllFills(Zeroes(STATS), b.stats.values);
    StoreAllFills(Zeroes(SPECIALS), b.specials.values);
    assert Zeroes(SKILLS).values[..0] + b.skills.values == b.skills.values;
    assert Zeroes(STATS).values[..0] + b.stats.values == b.stats.values;
    assert Zeroes(SPECIALS).values[..0] + b.specials.values == b.specials.values;
    var c1 := c0.(body := c0.body.(skills := Full(b.skills)));
    var c2 := c1.(body := c1.body.(stats := Full(b.stats)));
    var c3 := c2.(body := c2.body.(disableDefense := b.disableDefense));
    SkillsRestored(c0, b.skills.values);
    StatsRestored(c1, b.stats.values);
    SpecialsRestored(c3, b.specials.values);
    FlagRestored(c2, b.disableDefense);
    SetAllConcat(Putter(), c0, fs, gs);
    SetAllConcat(Putter(), c0, fs + gs, flag);
    SetAllConcat(Putter(), c0, fs + gs + flag, hs);
  }

  lemma FlagRestored(c: Condition, flag: bool)
    requires c.body.Attributes?
    ensures SetAll(Putter(), c, [Field(29, Bit(flag))]) == c.(body := c.body.(disableDefense := flag))
  {
    assert [Field(29, Bit(flag))][1..] == [];
  }

  // Damage: every interval is appended, and its length added to the ticks

  function TicksAfter(ticks: I32, intervals: seq<Interval>): I32
    decreases |intervals|
  {
    if intervals == [] then ticks else TicksAfter(AddTicks(ticks, intervals[0].interval), intervals[1..])
  }

  function Total(intervals: seq<Interval>): int {
    if intervals == [] then 0 else intervals[0].interval + Total(intervals[1..])
  }

  /** For intervals that run forward and fit a word in all, the ticks are their sum. */
  lemma {:induction false} TicksAreTotal(ticks: I32, intervals: seq<Interval>)
    requires ticks >= 0 && ticks + Total(intervals) < 0x8000_0000
    requires forall i :: 0 <= i < |intervals| ==> intervals[i].interval >= 0
    ensures Total(intervals) >= 0 && TicksAfter(ticks, intervals) == ticks + Total(intervals)
    decreases |intervals|
  {
    if intervals != [] {
      TotalNotNegative(intervals[1..]);
      TicksAreTotal(ticks + intervals[0].interval, intervals[1..]);
    }
  }

  lemma {:induction false} TotalNotNegative(intervals: seq<Interval>)
    requires forall i :: 0 <= i < |intervals| ==> intervals[i].interval >= 0
    ensures Total(intervals) >= 0
    decreases |intervals|
  {
    if intervals != [] {
      TotalNotNegative(intervals[1..]);
    }
  }

  /** What one interval adds to a condition. */
  function WithInterval(c: Condition, i: Interval): Condition
    requires c.body.Damage?
  {
    Condition(c.base.(ticks := AddTicks(c.base.ticks, i.interval)), c.body.(intervals := c.body.intervals + [i]))
  }

  lemma IntervalPut(c: Condition, i: Interval)
    requires c.body.Damage?
    ensures Putter()(c, 10, IntervalField(i).payload) == WithInterval(c, i)
  {
    IntervalRestored(i);
  }

  lemma IntervalsStep(c: Condition, intervals: seq<Interval>)
    requires c.body.Damage? && intervals != []
    ensures SetAll(Putter(), c, IntervalFields(intervals))
         == SetAll(Putter(), WithInterval(c, intervals[0]), IntervalFields(intervals[1..]))
  {
    assert IntervalFields(intervals)[1..] == IntervalFields(intervals[1..]);
    IntervalPut(c, intervals[0]);
  }

  function WithIntervals(c: Condition, intervals: seq<Interval>): Condition
    requires c.body.Damage?
  {
    Condition(c.base.(ticks := TicksAfter(c.base.ticks, intervals)), c.body.(intervals := c.body.intervals + intervals))
  }

  lemma WithOneMore(c: Condition, intervals: seq<Interval>)
    requires c.body.Damage? && intervals != []
    ensures WithIntervals(WithInterval(c, intervals[0]), intervals[1..]) == WithIntervals(c, intervals)
  {
    assert c.body.intervals + [intervals[0]] + intervals[1..] == c.body.intervals + intervals;
  }

  lemma {:induction false} IntervalsRestored(c: Condition, intervals: seq<Interval>)
    requires c.body.Damage?
    ensures SetAll(Putter(), c, IntervalFields(intervals)) == WithIntervals(c, intervals)
    decreases |intervals|
  {
    if intervals == [] {
      assert c.body.intervals + [] == c.body.intervals;
    } else {
      IntervalsStep(c, intervals);
      IntervalsRestored(WithInterval(c, intervals[0]), intervals[1..]);
      WithOneMore(c, intervals);
    }
  }

  lemma DamageRestored(base: Base, b: Body)
    requires b.Damage?
    ensures SetAll(Putter(), Condition(base, Damage(false, 0, [], 0)), BodyFields(b))
         == Condition(base.(ticks := TicksAfter(base.ticks, Remaining(b.intervals, b.front))),
                      Damage(b.delayed, b.periodDamage, Remaining(b.intervals, b.front), 0))
  {
    var c0 := Condition(base, Damage(false, 0, [], 0));
    var head := [Field(8, Bit(b.delayed)), Field(25, Int(b.periodDamage))];
    var c1 := Condition(base, Damage(b.delayed, b.periodDamage, [], 0));
    assert SetAll(Putter(), c0, head) == c1 by {
      SetTwo(Putter(), c0, head[0], head[1]);
      I32Restored(b.periodDamage);
    }
    SetAllConcat(Putter(), c0, head, IntervalFields(Remaining(b.intervals, b.front)));
    IntervalsRestored(c1, Remaining(b.intervals, b.front));
    assert [] + Remaining(b.intervals, b.front) == Remaining(b.intervals, b.front);
  }

  // --------------------------------------------------------------------------------
  // The round trip
  // --------------------------------------------------------------------------------

  datatype Shape = Shape(tag: Byte, size: nat)

  /** The payloads of fields of fixed shapes, and what follows them. */
  function TakeFields(bytes: seq<Byte>, shapes: seq<Shape>): Option<(seq<seq<Byte>>, seq<Byte>)>
    decreases |shapes|
  {
    if shapes == [] then Some(([], bytes))
    else
      var n := shapes[0].size;
      if |bytes| < 1 + n || bytes[0] != shapes[0].tag then None
      else
        Behind([bytes[1..1 + n]], TakeFields(bytes[1 + n..], shapes[1..]))
  }

  function Behind(taken: seq<seq<Byte>>, rest: Option<(seq<seq<Byte>>, seq<Byte>)>): Option<(seq<seq<Byte>>, seq<Byte>)> {
    match rest
    case None => None
    case Some((payloads, left)) => Some((taken + payloads, left))
  }

  ghost predicate Shaped(fields: seq<Field>, shapes: seq<Shape>) {
    |fields| == |shapes|
    && forall i :: 0 <= i < |fields| ==> fields[i].tag == shapes[i].tag && |fields[i].payload| == shapes[i].size
  }

  function Payloads(fields: seq<Field>): seq<seq<Byte>> {
    if fields == [] then [] else [fields[0].payload] + Payloads(fields[1..])
  }

  lemma {:induction false} TakeEncoded(fields: seq<Field>, shapes: seq<Shape>, suffix: seq<Byte>)
    requires Shaped(fields, shapes)
    ensures TakeFields(Encode(fields) + suffix, shapes) == Some((Payloads(fields), suffix))
    decreases |fields|
  {
    if fields == [] {
      assert [] + suffix == suffix;
    } else {
      var f, tail := fields[0], Encode(fields[1..]) + suffix;
      assert Encode(fields) + suffix == [f.tag] + f.payload + tail;
      TakeOne(f, tail, shapes);
      TakeEncoded(fields[1..], shapes[1..], suffix);
    }
  }

  lemma TakeOne(f: Field, tail: seq<Byte>, shapes: seq<Shape>)
    requires shapes != [] && shapes[0] == Shape(f.tag, |f.payload|)
    ensures TakeFields([f.tag] + f.payload + tail, shapes) == Behind([f.payload], TakeFields(tail, shapes[1..]))
  {
    var bytes := [f.tag] + f.payload + tail;
    assert bytes[1..1 + |f.payload|] == f.payload && bytes[1 + |f.payload|..] == tail;
  }

  /** The head that createCondition insists on, in this order. */
  const HEAD: seq<Shape> := [Shape(1, 4), Shape(2, 4), Shape(3, 4), Shape(26, 1), Shape(27, 4), Shape(28, 1)]

  function BaseOf(payloads: seq<seq<Byte>>): Base
    requires |payloads| == 6
  {
    Base(U32Of(payloads[0]), ToI8(U32Of(payloads[1])), I32Of(payloads[2]), BoolOf(payloads[3]), U32Of(payloads[4]),
         BoolOf(payloads[5]))
  }

  lemma {:induction false} TakenCount(bytes: seq<Byte>, shapes: seq<Shape>)
    ensures TakeFields(bytes, shapes).Some? ==> |TakeFields(bytes, shapes).value.0| == |shapes|
    decreases |shapes|
  {
    if shapes != [] && |bytes| >= 1 + shapes[0].size {
      TakenCount(bytes[1 + shapes[0].size..], shapes[1..]);
    }
  }

  /** createCondition on a stream. */
  function Created(bytes: seq<Byte>): Option<(Condition, seq<Byte>)> {
    TakenCount(bytes, HEAD);
    match TakeFields(bytes, HEAD)
    case None => None
    case Some((payloads, rest)) =>
      match Fresh(BaseOf(payloads))
      case None => None
      case Some(c) => Some((c, rest))
  }

  lemma {:induction false} PayloadsAt(fields: seq<Field>)
    ensures |Payloads(fields)| == |fields|
    ensures forall i :: 0 <= i < |fields| ==> Payloads(fields)[i] == fields[i].payload
  {
    if fields != [] {
      PayloadsAt(fields[1..]);
    }
  }

  lemma BaseRestored(b: Base)
    ensures Shaped(BaseFields(b), HEAD) && |Payloads(BaseFields(b))| == 6 && BaseOf(Payloads(BaseFields(b))) == b
  {
    var fields := BaseFields(b);
    PayloadsAt(fields);
    U32Restored(b.kind);
    U32Restored(ToU32(b.id));
    I32Restored(b.ticks);
    U32Restored(b.subId);
    SignsRestored(b.ticks, b.id);
  }

  function Serialized(c: Condition): seq<Byte> {
    Encode(BaseFields(c.base)) + Encode(BodyFields(c.body))
  }

  lemma {:induction false} EncodeConcat(first: seq<Field>, second: seq<Field>)
    ensures Encode(first + second) == Encode(first) + Encode(second)
    decreases |first|
  {
    if first == [] {
      assert first + second == second;
    } else {
      assert (first + second)[1..] == first[1..] + second;
      EncodeConcat(first[1..], second);
    }
  }

  /** Create, then unserialise. */
  function Loaded(bytes: seq<Byte>): Option<Reading<Condition>> {
    match Created(bytes)
    case None => None
    case Some((c, rest)) => Some(ReadFields(SizesOf(c.body), Putter(), c, rest))
  }

  /** A condition of the class that its type calls for, with arrays of the class's lengths. */
  predicate Sound(c: Condition) {
    && FreshBody(c.base.kind).Some?
    && (match FreshBody(c.base.kind).value
        case Plain => c.body.Plain?
        case Regeneration(_, _, _, _) => c.body.Regeneration?
        case Soul(_, _) => c.body.Soul?
        case Speed(_, _, _, _, _) => c.body.Speed?
        case Light(_, _, _, _) => c.body.Light?
        case Attributes(_, _, _, _) =>
          c.body.Attributes? && |c.body.skills.values| == SKILLS && |c.body.stats.values| == STATS
          && |c.body.specials.values| == SPECIALS
        case Damage(_, _, _, _) => c.body.Damage?)
  }

  /** What survives: everything serialised, of damage only the intervals not yet dealt, and their ticks. */
  function Restored(c: Condition): Condition {
    match c.body
    case Attributes(skills, stats, specials, flag) => c.(body := Attributes(Full(skills), Full(stats), Full(specials), flag))
    case Damage(delayed, periodDamage, intervals, front) =>
      Condition(c.base.(ticks := TicksAfter(0, Remaining(intervals, front))),
                Damage(delayed, periodDamage, Remaining(intervals, front), 0))
    case _ => c
  }

  lemma BodyKnown(b: Body)
    ensures Known(SizesOf(b), BodyFields(b))
  {
    match b
    case Plain =>
    case Regeneration(_, _, _, _) => RegenerationKnown(b);
    case Soul(_, _) => SoulKnown(b);
    case Speed(_, _, _, _, _) => SpeedKnown(b);
    case Light(_, _, _, _) => LightKnown(b);
    case Attributes(_, _, _, _) => AttributesKnown(b);
    case Damage(_, _, _, _) => DamageKnown(b);
  }

  lemma RegenerationKnown(b: Body)
    requires b.Regeneration?
    ensures Known(SizesOf(b), BodyFields(b))
  {
  }

  lemma SoulKnown(b: Body)
    requires b.Soul?
    ensures Known(SizesOf(b), BodyFields(b))
  {
  }

  lemma SpeedKnown(b: Body)
    requires b.Speed?
    ensures Known(SizesOf(b), BodyFields(b))
  {
  }

  lemma LightKnown(b: Body)
    requires b.Light?
    ensures Known(SizesOf(b), BodyFields(b))
  {
  }

  lemma AttributesKnown(b: Body)
    requires b.Attributes?
    ensures Known(SizesOf(b), BodyFields(b))
  {
  }

  lemma {:induction false} IntervalsShaped(intervals: seq<Interval>)
    ensures forall i :: 0 <= i < |IntervalFields(intervals)| ==>
              IntervalFields(intervals)[i].tag == 10 && |IntervalFields(intervals)[i].payload| == 12
  {
    if intervals != [] {
      IntervalsShaped(intervals[1..]);
    }
  }

  lemma DamageKnown(b: Body)
    requires b.Damage?
    ensures Known(SizesOf(b), BodyFields(b))
  {
    IntervalsShaped(Remaining(b.intervals, b.front));
  }

  lemma BodyRestored(c: Condition)
    requires Sound(c)
    ensures Fresh(c.base).Some?
    ensures forall tag :: SizeIn(Fresh(c.base).value.body, tag) == SizeIn(c.body, tag)
    ensures SetAll(Putter(), Fresh(c.base).value, BodyFields(c.body)) == Restored(c)
  {
    match c.body
    case Plain =>
    case Regeneration(_, _, _, _) => RegenerationRestored(c.base, c.body);
    case Soul(_, _) => SoulRestored(c.base, c.body);
    case Speed(_, _, _, _, _) => SpeedRestored(c.base, c.body);
    case Light(_, _, _, _) => LightRestored(c.base, c.body);
    case Attributes(_, _, _, _) => AttributesRestored(c.base, c.body);
    case Damage(_, _, _, _) => DamageRestored(c.base.(ticks := 0), c.body);
  }

  /** Whatever follows the end byte, a serialised condition is read back whole, and the rest is left in the stream. */
  lemma RoundTrip(c: Condition, suffix: seq<Byte>)
    requires Sound(c)
    ensures Loaded(Serialized(c) + [254] + suffix) == Some(Reading(true, Restored(c), suffix))
  {
    var tail := Encode(BodyFields(c.body)) + [END] + suffix;
    assert Serialized(c) + [END] + suffix == Encode(BaseFields(c.base)) + tail;
    BaseRestored(c.base);
    TakeEncoded(BaseFields(c.base), HEAD, tail);
    BodyRestored(c);
    BodyKnown(c.body);
    var sizes := SizesOf(Fresh(c.base).value.body);
    assert Known(sizes, BodyFields(c.body)) by {
      forall i | 0 <= i < |BodyFields(c.body)| ensures sizes(BodyFields(c.body)[i].tag) == Some(|BodyFields(c.body)[i].payload|) {
        assert SizesOf(c.body)(BodyFields(c.body)[i].tag) == Some(|BodyFields(c.body)[i].payload|);
      }
    }
    ReadEncode(sizes, Putter(), Fresh(c.base).value, BodyFields(c.body), suffix);
  }

  // --------------------------------------------------------------------------------
  // The streams
  // --------------------------------------------------------------------------------

  class PropStream {
    var rest: seq<Byte>

    constructor (bytes: seq<Byte>)
      ensures rest == bytes
    {
      rest := bytes;
    }

    /** A read that finds too few bytes fails and takes none. */
    method Read(size: nat) returns (bytes: Option<seq<Byte>>)
      modifies this
      ensures |old(rest)| >= size ==> bytes == Some(old(rest)[..size]) && rest == old(rest)[size..]
      ensures |old(rest)| < size ==> bytes == None && rest == old(rest)
    {
      if |rest| < size {
        return None;
      }
      bytes := Some(rest[..size]);
      rest := rest[size..];
    }

    /** One tag of the head with its payload. */
    method ReadTagged(shape: Shape) returns (payload: Option<seq<Byte>>)
      modifies this
      ensures payload.Some? <==> |old(rest)| >= 1 + shape.size && old(rest)[0] == shape.tag
      ensures payload.Some? ==> payload.value == old(rest)[1..1 + shape.size] && rest == old(rest)[1 + shape.size..]
    {
      var attr := Read(1);
      if attr.None? || attr.value[0] != shape.tag {
        return None;
      }
      payload := Read(shape.size);
    }

    /** The head, one field after the other. */
    method ReadHead(shapes: seq<Shape>) returns (payloads: Option<seq<seq<Byte>>>)
      modifies this
      ensures match TakeFields(old(rest), shapes)
              case None => payloads == None
              case Some((taken, left)) => payloads == Some(taken) && rest == left
    {
      var taken: seq<seq<Byte>>, i := [], 0;
      ghost var all := TakeFields(rest, shapes);
      BehindNone(all);
      assert shapes[0..] == shapes;
      while i < |shapes|
        invariant i <= |shapes|
        invariant all == Behind(taken, TakeFields(rest, shapes[i..]))
      {
        ghost var before := rest;
        var payload := ReadTagged(shapes[i]);
        assert shapes[i..][0] == shapes[i] && shapes[i..][1..] == shapes[i + 1..];
        if payload.None? {
          return None;
        }
        BehindBoth(taken, payload.value, TakeFields(rest, shapes[i + 1..]));
        taken := taken + [payload.value];
        i := i + 1;
      }
      assert taken + [] == taken;
      return Some(taken);
    }

    method CreateCondition() returns (c: Option<Condition>)
      modifies this
      ensures match Created(old(rest))
              case None => c == None
              case Some((created, left)) => c == Some(created) && rest == left
    {
      TakenCount(rest, HEAD);
      var payloads := ReadHead(HEAD);
      if payloads.None? {
        return None;
      }
      c := Fresh(BaseOf(payloads.value));
    }

    method Unserialize(condition: Condition) returns (ok: bool, c: Condition)
      modifies this
      ensures Reading(ok, c, rest) == ReadFields(SizesOf(condition.body), Putter(), condition, old(rest))
    {
      c := condition;
      ghost var sizes := SizesOf(condition.body);
      ghost var all := ReadFields(sizes, Putter(), condition, rest);
      while true
        invariant all == ReadFields(sizes, Putter(), c, rest)
        decreases |rest|
      {
        var attr := Read(1);
        if attr.None? {
          return true, c;
        }
        var tag := attr.value[0];
        if tag == END {
          return true, c;
        }
        var size := SizeIn(condition.body, tag);
        if size.None? {
          return false, c;
        }
        var payload := Read(size.value);
        if payload.None? {
          return false, c;
        }
        c := Put(c, tag, payload.value);
      }
    }
  }

  lemma BehindNone(rest: Option<(seq<seq<Byte>>, seq<Byte>)>)
    ensures Behind([], rest) == rest
  {
    if rest.Some? {
      assert [] + rest.value.0 == rest.value.0;
    }
  }

  lemma BehindBoth(taken: seq<seq<Byte>>, payload: seq<Byte>, rest: Option<(seq<seq<Byte>>, seq<Byte>)>)
    ensures Behind(taken, Behind([payload], rest)) == Behind(taken + [payload], rest)
  {
    if rest.Some? {
      assert taken + ([payload] + rest.value.0) == taken + [payload] + rest.value.0;
    }
  }

  lemma Associative(a: seq<Byte>, b: seq<Byte>, c: seq<Byte>)
    ensures a + b + c == a + (b + c)
  {
  }

  class PropWriteStream {
    var bytes: seq<Byte>

    constructor ()
      ensures bytes == []
    {
      bytes := [];
    }

    method Write(field: Field)
      modifies this
      ensures bytes == old(bytes) + Encode([field])
    {
      assert Encode([field]) == [field.tag] + field.payload;
      bytes := bytes + [field.tag];
      bytes := bytes + field.payload;
    }

    method WriteAll(fields: seq<Field>)
      modifies this
      ensures bytes == old(bytes) + Encode(fields)
    {
      assert fields[..0] == [] && old(bytes) + [] == old(bytes);
      for i := 0 to |fields|
        invariant bytes == old(bytes) + Encode(fields[..i])
      {
        assert fields[..i + 1] == fields[..i] + [fields[i]];
        EncodeConcat(fields[..i], [fields[i]]);
        Write(fields[i]);
      }
      assert fields[..|fields|] == fields;
    }

    /** serialize: the base first, then what the class adds. */
    method Serialize(c: Condition)
      modifies this
      ensures bytes == old(bytes) + Serialized(c)
    {
      var base, body := BaseFields(c.base), BodyFields(c.body);
      WriteAll(base);
      WriteAll(body);
      Associative(old(bytes), Encode(base), Encode(body));
    }
  }
}
