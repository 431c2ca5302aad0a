/** The log queue of src/console.h: a lock-free ring and the counter its worker parks on. */
module LogQueue {
  import opened Options

  /** BUFFER_SIZE. */
  const SIZE: nat := 4096

  /** What is logged; the fields the worker's printing looks at are left out. */
  datatype Message = Message(text: string, channel: nat)

  /** One ring slot; a moved-from message is None. */
  datatype Slot = Slot(sequence: nat, message: Option<Message>)

  /** Where a producer is inside PushAndNotify and Push. */
  datatype Producer =
    | Idle
    | LoadHead(msg: Message)
    | LoadSeq(msg: Message, pos: nat)
    | TryCas(msg: Message, pos: nat)
    | Write(msg: Message, pos: nat)
    | Publish(msg: Message, pos: nat)
    | Bump(pos: nat)
    | Wake

  /** Where the worker is inside Worker and Pop; `final` marks the drain after the stop. */
  datatype Consumer =
    | CheckStop
    | LoadTail(final: bool)
    | LoadSlot(pos: nat, final: bool)
    | StoreTail(pos: nat, final: bool)
    | Read(pos: nat, final: bool)
    | Release(pos: nat, final: bool)
    | Wait
    | Parked
    | Observe
    | Done

  /** Where the thread inside Shutdown is. */
  datatype Stopper = Running | Stopping | StopBumped | StopDone

  /** `claimed` and `popped` are histories: messages in head-CAS order, and as delivered. */
  datatype State = State(
    slots: seq<Slot>,
    head: nat,
    tail: nat,
    counter: nat,
    observed: nat,
    stop: bool,
    producers: seq<Producer>,
    consumer: Consumer,
    stopper: Stopper,
    claimed: seq<Message>,
    popped: seq<Message>)

  /** A scheduling choice. `msg` is what an idle producer logs next, `spurious` lets a weak CAS or a wait fail. */
  datatype Action =
    | Produce(i: nat, msg: Message, spurious: bool)
    | Consume(spurious: bool)
    | Shutdown

  // --------------------------------------------------------------------------------
  // The protocol: every atomic load, store, compare-and-swap and read-modify-write of
  // the source is one step, and a local branch belongs to the load it depends on. Steps
  // of different threads interleave arbitrarily. Positions are unbounded naturals, and
  // memory is sequentially consistent.
  // --------------------------------------------------------------------------------

  function Index(p: nat): nat {
    p % SIZE
  }

  function At(s: State, p: nat): Slot
    requires |s.slots| == SIZE
  {
    s.slots[Index(p)]
  }

  function Init(producers: nat): State {
    State(seq(SIZE, i requires 0 <= i => Slot(i, None)), 0, 0, 0, 0, false,
          seq(producers, _ => Idle), Observe, Running, [], [])
  }

  function SetProducer(s: State, i: nat, p: Producer): State
    requires i < |s.producers|
  {
    s.(producers := s.producers[i := p])
  }

  function SetSlot(s: State, p: nat, slot: Slot): State
    requires |s.slots| == SIZE
  {
    s.(slots := s.slots[Index(p) := slot])
  }

  /** notify_one: at most the one parked worker re-examines the counter. */
  function Notify(s: State): State {
    if s.consumer.Parked? then s.(consumer := Wait) else s
  }

  /** True where Push is about to answer that the ring is full. */
  predicate ReportsFull(s: State, i: nat)
    requires |s.slots| == SIZE && i < |s.producers|
  {
    s.producers[i].LoadSeq? && At(s, s.producers[i].pos).sequence < s.producers[i].pos
  }

  function ProducerStep(s: State, i: nat, msg: Message, spurious: bool): State
    requires |s.slots| == SIZE && i < |s.producers|
  {
    match s.producers[i]
    case Idle => SetProducer(s, i, LoadHead(msg))
    case LoadHead(m) => SetProducer(s, i, LoadSeq(m, s.head))
    case LoadSeq(m, pos) =>
      var seqNo := At(s, pos).sequence;
      if seqNo == pos then SetProducer(s, i, TryCas(m, pos))
      else if seqNo < pos then SetProducer(s, i, LoadHead(m))   // full: yield and push again
      else SetProducer(s, i, LoadHead(m))                       // stale position: reload the head
    case TryCas(m, pos) =>
      if s.head == pos && !spurious then
        SetProducer(s, i, Write(m, pos)).(head := pos + 1, claimed := s.claimed + [m])
      else
        SetProducer(s, i, LoadSeq(m, s.head))                   // a failed CAS reloads the position
    case Write(m, pos) =>
      SetProducer(SetSlot(s, pos, At(s, pos).(message := Some(m))), i, Publish(m, pos))
    case Publish(m, pos) =>
      SetProducer(SetSlot(s, pos, At(s, pos).(sequence := pos + 1)), i, Bump(pos))
    case Bump(_) => SetProducer(s, i, Wake).(counter := s.counter + 1)
    case Wake => Notify(SetProducer(s, i, Idle))
  }

  function ConsumerStep(s: State, spurious: bool): State
    requires |s.slots| == SIZE
  {
    match s.consumer
    case CheckStop => s.(consumer := LoadTail(s.stop))
    case LoadTail(final) => s.(consumer := LoadSlot(s.tail, final))
    case LoadSlot(pos, final) =>
      if At(s, pos).sequence == pos + 1 then s.(consumer := StoreTail(pos, final))
      else s.(consumer := if final then Done else Wait)
    case StoreTail(pos, final) => s.(consumer := Read(pos, final), tail := pos + 1)
    case Read(pos, final) =>
      var slot := At(s, pos);
      SetSlot(s, pos, slot.(message := None)).(
        consumer := Release(pos, final),
        popped := if slot.message.Some? then s.popped + [slot.message.value] else s.popped)
    case Release(pos, final) =>
      SetSlot(s, pos, At(s, pos).(sequence := pos + SIZE)).(consumer := LoadTail(final))
    case Wait => if s.counter != s.observed then s.(consumer := Observe) else s.(consumer := Parked)
    case Parked => if spurious then s.(consumer := Wait) else s
    case Observe => s.(observed := s.counter, consumer := CheckStop)
    case Done => s
  }

  function StopperStep(s: State): State {
    match s.stopper
    case Running => s.(stop := true, stopper := Stopping)
    case Stopping => s.(counter := s.counter + 1, stopper := StopBumped)
    case StopBumped => Notify(s).(stopper := StopDone)
    case StopDone => s
  }

  function Step(s: State, a: Action): State
    requires |s.slots| == SIZE
  {
    match a
    case Produce(i, msg, spurious) => if i < |s.producers| then ProducerStep(s, i, msg, spurious) else s
    case Consume(spurious) => ConsumerStep(s, spurious)
    case Shutdown => StopperStep(s)
  }

  /** The state after a schedule. */
  function Exec(producers: nat, schedule: seq<Action>): (s: State)
    ensures |s.slots| == SIZE && |s.producers| == producers
    decreases |schedule|
  {
    if schedule == [] then Init(producers)
    else Step(Exec(producers, schedule[..|schedule| - 1]), schedule[|schedule| - 1])
  }

  // --------------------------------------------------------------------------------
  // The invariant
  // --------------------------------------------------------------------------------

  /** Positions below this one have been handed back to the producers. */
  function Released(s: State): nat {
    if (s.consumer.Read? || s.consumer.Release?) && s.tail > 0 then s.tail - 1 else s.tail
  }

  predicate Owns(p: Producer, pos: nat) {
    (p.Write? || p.Publish?) && p.pos == pos
  }

  predicate InWindow(s: State, p: nat) {
    Released(s) <= p < Released(s) + SIZE
  }

  ghost predicate Claimed(s: State, p: nat)
    requires |s.slots| == SIZE && |s.claimed| == s.head
  {
    Released(s) <= p < s.head && At(s, p).sequence == p && exists i :: 0 <= i < |s.producers| && Owns(s.producers[i], p)
  }

  ghost predicate Published(s: State, p: nat)
    requires |s.slots| == SIZE && |s.claimed| == s.head
  {
    && p < s.head
    && At(s, p).sequence == p + 1
    && At(s, p).message == (if s.consumer.Release? && s.consumer.pos == p then None else Some(s.claimed[p]))
  }

  ghost predicate SlotsOk(s: State)
    requires |s.slots| == SIZE && |s.claimed| == s.head
  {
    forall p: nat {:trigger At(s, p)} :: InWindow(s, p) ==>
      if p >= s.head then At(s, p) == Slot(p, None) else Claimed(s, p) || Published(s, p)
  }

  ghost predicate ProducerOk(s: State, p: Producer)
    requires |s.slots| == SIZE && |s.claimed| == s.head
  {
    match p
    case LoadSeq(_, pos) => pos <= s.head
    case TryCas(_, pos) => pos <= s.head && pos < Released(s) + SIZE
    case Write(m, pos) =>
      Released(s) <= pos < s.head && At(s, pos) == Slot(pos, None) && s.claimed[pos] == m
    case Publish(m, pos) =>
      Released(s) <= pos < s.head && At(s, pos) == Slot(pos, Some(m)) && s.claimed[pos] == m
    case _ => true
  }

  ghost predicate ProducersOk(s: State)
    requires |s.slots| == SIZE && |s.claimed| == s.head
  {
    && (forall i :: 0 <= i < |s.producers| ==> ProducerOk(s, s.producers[i]))
    && (forall i, j, p :: 0 <= i < j < |s.producers| && Owns(s.producers[i], p) ==> !Owns(s.producers[j], p))
  }

  ghost predicate ConsumerOk(s: State)
    requires |s.slots| == SIZE && |s.claimed| == s.head
  {
    match s.consumer
    case LoadSlot(pos, _) => pos == s.tail
    case StoreTail(pos, _) => pos == s.tail && Published(s, pos)
    case Read(pos, _) => pos + 1 == s.tail && Published(s, pos)
    case Release(pos, _) => pos + 1 == s.tail && Published(s, pos)
    case _ => true
  }

  /** The ring: what every step keeps about head, tail, slots and histories. */
  ghost predicate RingInv(s: State) {
    && |s.slots| == SIZE
    && |s.claimed| == s.head
    && s.tail <= s.head <= Released(s) + SIZE
    && SlotsOk(s)
    && ProducersOk(s)
    && ConsumerOk(s)
    && |s.popped| <= s.head
    && |s.popped| == (if s.consumer.Read? then s.tail - 1 else s.tail)
    && s.popped == s.claimed[..|s.popped|]
  }

  predicate TailPublished(s: State)
    requires |s.slots| == SIZE
  {
    At(s, s.tail).sequence == s.tail + 1
  }

  /** Some thread has made work visible but has not yet moved the counter. */
  ghost predicate BumpPending(s: State) {
    exists i :: 0 <= i < |s.producers| && s.producers[i].Bump? && s.producers[i].pos == s.tail
  }

  /** Some thread has moved the counter and still owes its notify_one. */
  ghost predicate WakePending(s: State) {
    || s.stopper.StopBumped?
    || exists i :: 0 <= i < |s.producers| && s.producers[i].Wake?
  }

  /** The worker has read the stop flag as false and not yet reached the next check. */
  predicate MissedStop(c: Consumer) {
    || c.Wait? || c.Parked?
    || ((c.LoadTail? || c.LoadSlot? || c.StoreTail? || c.Read? || c.Release?) && !c.final)
  }

  /** The wake protocol: what every step keeps about the counter and the parked worker. */
  ghost predicate WakeInv(s: State)
    requires |s.slots| == SIZE
  {
    && s.observed <= s.counter
    && ((s.consumer.Wait? || s.consumer.Parked?) && TailPublished(s) ==> s.counter != s.observed || BumpPending(s))
    && (MissedStop(s.consumer) && s.stop ==> s.counter != s.observed || s.stopper.Stopping?)
    && (s.consumer.Parked? && s.counter != s.observed ==> WakePending(s))
    && (s.stop <==> !s.stopper.Running?)
  }

  ghost predicate Inv(s: State) {
    RingInv(s) && WakeInv(s)
  }

  // --------------------------------------------------------------------------------
  // Every step keeps the invariant
  // --------------------------------------------------------------------------------

  /** Two positions of one window never share a slot. */
  lemma WindowSlotsDistinct(r: nat, p: nat, q: nat)
    requires r <= p < r + SIZE && r <= q < r + SIZE && p != q
    ensures Index(p) != Index(q)
  {
  }

  lemma InitInv(producers: nat)
    ensures Inv(Init(producers))
  {
  }

  /** The same ring, seen with another counter, stop flag or program counter outside Pop's commit. */
  ghost predicate SameRing(s: State, s': State) {
    && s'.slots == s.slots && s'.head == s.head && s'.tail == s.tail
    && s'.claimed == s.claimed && s'.popped == s.popped
  }

  lemma LocalConsumer(s: State, s': State)
    requires RingInv(s) && SameRing(s, s') && s'.producers == s.producers
    requires s'.consumer == s.consumer || !(s.consumer.Read? || s.consumer.Release?)
    requires s'.consumer == s.consumer || !(s'.consumer.Read? || s'.consumer.Release?)
    requires ConsumerOk(s')
    ensures RingInv(s')
  {
    forall p: nat | InWindow(s', p)
      ensures if p >= s'.head then At(s', p) == Slot(p, None) else Claimed(s', p) || Published(s', p)
    {
      assert At(s', p) == At(s, p);
    }
    forall i | 0 <= i < |s'.producers| ensures ProducerOk(s', s'.producers[i]) {
      assert ProducerOk(s, s.producers[i]);
    }
  }

  lemma LocalProducer(s: State, i: nat, p: Producer)
    requires RingInv(s) && i < |s.producers|
    requires !s.producers[i].Write? && !s.producers[i].Publish? && !p.Write? && !p.Publish?
    requires ProducerOk(s, p)
    ensures RingInv(SetProducer(s, i, p))
  {
    var s' := SetProducer(s, i, p);
    forall q: nat | InWindow(s', q)
      ensures if q >= s'.head then At(s', q) == Slot(q, None) else Claimed(s', q) || Published(s', q)
    {
      assert At(s', q) == At(s, q);
      if q < s.head && Claimed(s, q) {
        var j :| 0 <= j < |s.producers| && Owns(s.producers[j], q);
        assert Owns(s'.producers[j], q);
      }
    }
    forall j | 0 <= j < |s'.producers| ensures ProducerOk(s', s'.producers[j]) {
      assert ProducerOk(s, s.producers[j]);
    }
  }

  lemma CasRing(s: State, i: nat, msg: Message)
    requires RingInv(s) && i < |s.producers| && s.producers[i].TryCas? && s.producers[i].pos == s.head
    ensures RingInv(ProducerStep(s, i, msg, false))
  {
    var s' := ProducerStep(s, i, msg, false);
    assert ProducerOk(s, s.producers[i]);
    assert At(s, s.head) == Slot(s.head, None);
    CasSlots(s, i, s');
    CasProducers(s, i, s');
  }

  ghost predicate WonCas(s: State, i: nat, s': State)
    requires RingInv(s) && i < |s.producers|
  {
    && s.producers[i].TryCas? && s.producers[i].pos == s.head && InWindow(s, s.head)
    && s' == SetProducer(s, i, Write(s.producers[i].msg, s.head)).(
               head := s.head + 1, claimed := s.claimed + [s.producers[i].msg])
  }

  lemma CasSlots(s: State, i: nat, s': State)
    requires RingInv(s) && i < |s.producers| && WonCas(s, i, s')
    ensures SlotsOk(s')
  {
    assert Owns(s'.producers[i], s.head);
    forall p: nat | InWindow(s', p)
      ensures if p >= s'.head then At(s', p) == Slot(p, None) else Claimed(s', p) || Published(s', p)
    {
      assert At(s', p) == At(s, p);
      if p < s.head && Claimed(s, p) {
        var j :| 0 <= j < |s.producers| && Owns(s.producers[j], p);
        assert Owns(s'.producers[j], p);
      }
    }
  }

  lemma CasProducers(s: State, i: nat, s': State)
    requires RingInv(s) && i < |s.producers| && WonCas(s, i, s')
    ensures ProducersOk(s')
  {
    assert At(s, s.head) == Slot(s.head, None);
    forall j | 0 <= j < |s'.producers| ensures ProducerOk(s', s'.producers[j]) {
      assert ProducerOk(s, s.producers[j]);
    }
  }

  /** Changing the slot at one position of the window leaves every other position's slot alone. */
  lemma SetSlotElsewhere(s: State, pos: nat, slot: Slot)
    requires |s.slots| == SIZE && InWindow(s, pos)
    ensures At(SetSlot(s, pos, slot), pos) == slot
    ensures forall p: nat {:trigger At(SetSlot(s, pos, slot), p)} {:trigger At(s, p)} ::
              InWindow(s, p) && p != pos ==> At(SetSlot(s, pos, slot), p) == At(s, p)
  {
    forall p: nat | InWindow(s, p) && p != pos ensures At(SetSlot(s, pos, slot), p) == At(s, p) {
      WindowSlotsDistinct(Released(s), p, pos);
    }
  }

  /** A producer's step on its own slot: the others keep theirs. */
  lemma OwnerStepProducers(s: State, i: nat, slot: Slot, p': Producer)
    requires RingInv(s) && i < |s.producers| && (s.producers[i].Write? || s.producers[i].Publish?)
    requires var pos := s.producers[i].pos;
             || (p' == Publish(s.producers[i].msg, pos) && slot == Slot(pos, Some(s.producers[i].msg)))
             || p' == Bump(pos)
    ensures ProducersOk(SetProducer(SetSlot(s, s.producers[i].pos, slot), i, p'))
  {
    var pos := s.producers[i].pos;
    var s' := SetProducer(SetSlot(s, pos, slot), i, p');
    assert Owns(s.producers[i], pos) && ProducerOk(s, s.producers[i]);
    SetSlotElsewhere(s, pos, slot);
    forall j | 0 <= j < |s'.producers| ensures ProducerOk(s', s'.producers[j]) {
      var p := s.producers[j];
      assert ProducerOk(s, p);
      if j != i && (p.Write? || p.Publish?) {
        assert Owns(p, p.pos);
        assert At(s', p.pos) == At(SetSlot(s, pos, slot), p.pos);
      } else if j == i {
        assert At(s', pos) == At(SetSlot(s, pos, slot), pos);
      }
    }
  }

  /** A producer's step on its own slot: every position of the window stays accounted for. */
  lemma OwnerStepSlots(s: State, i: nat, slot: Slot, p': Producer)
    requires RingInv(s) && i < |s.producers| && (s.producers[i].Write? || s.producers[i].Publish?)
    requires var pos := s.producers[i].pos;
             || (p' == Publish(s.producers[i].msg, pos) && slot == Slot(pos, Some(s.producers[i].msg)))
             || (p' == Bump(pos) && slot == Slot(pos + 1, Some(s.claimed[pos])))
    ensures SlotsOk(SetProducer(SetSlot(s, s.producers[i].pos, slot), i, p'))
  {
    var pos := s.producers[i].pos;
    var s' := SetProducer(SetSlot(s, pos, slot), i, p');
    assert ProducerOk(s, s.producers[i]);
    SetSlotElsewhere(s, pos, slot);
    forall p: nat | InWindow(s', p)
      ensures if p >= s'.head then At(s', p) == Slot(p, None) else Claimed(s', p) || Published(s', p)
    {
      assert At(s', p) == At(SetSlot(s, pos, slot), p);
      if p == pos {
        assert p'.Publish? ==> Owns(s'.producers[i], pos);
      } else {
        assert InWindow(s, p);
        if p < s.head && Claimed(s, p) {
          var j :| 0 <= j < |s.producers| && Owns(s.producers[j], p);
          assert Owns(s'.producers[j], p);
        }
      }
    }
  }

  lemma OwnerStepRing(s: State, i: nat, msg: Message, spurious: bool)
    requires RingInv(s) && i < |s.producers| && (s.producers[i].Write? || s.producers[i].Publish?)
    ensures RingInv(ProducerStep(s, i, msg, spurious))
  {
    var pos := s.producers[i].pos;
    var s' := ProducerStep(s, i, msg, spurious);
    assert ProducerOk(s, s.producers[i]);
    OwnerStepProducers(s, i, s'.slots[Index(pos)], s'.producers[i]);
    OwnerStepSlots(s, i, s'.slots[Index(pos)], s'.producers[i]);
    OwnerStepConsumer(s, i, s'.slots[Index(pos)], s'.producers[i]);
  }

  lemma OwnerStepConsumer(s: State, i: nat, slot: Slot, p': Producer)
    requires RingInv(s) && i < |s.producers| && (s.producers[i].Write? || s.producers[i].Publish?)
    ensures ConsumerOk(SetProducer(SetSlot(s, s.producers[i].pos, slot), i, p'))
  {
    var pos := s.producers[i].pos;
    var s' := SetProducer(SetSlot(s, pos, slot), i, p');
    assert ProducerOk(s, s.producers[i]);
    SetSlotElsewhere(s, pos, slot);
    if s.consumer.StoreTail? || s.consumer.Read? || s.consumer.Release? {
      assert At(s', s.consumer.pos) == At(SetSlot(s, pos, slot), s.consumer.pos);
    }
  }

  /** What the slot of any position up to the head says: free, full, or already passed. */
  lemma LoadSeqVerdict(s: State, pos: nat)
    requires RingInv(s) && pos <= s.head
    ensures At(s, pos).sequence < pos <==> pos == Released(s) + SIZE
    ensures At(s, pos).sequence == pos ==> InWindow(s, pos)
  {
    var r := Released(s);
    if pos == r + SIZE {
      assert At(s, pos) == At(s, r);
    } else if pos < r {
      var k := (r - pos + SIZE - 1) / SIZE;
      assert r <= pos + k * SIZE < r + SIZE;
      assert Index(pos + k * SIZE) == Index(pos);
      assert At(s, pos) == At(s, pos + k * SIZE);
    } else {
      assert InWindow(s, pos);
    }
  }

  /** Loading the head, judging a slot, or losing the CAS. */
  lemma LookStepRing(s: State, i: nat, msg: Message, spurious: bool)
    requires RingInv(s) && i < |s.producers|
    requires s.producers[i].Idle? || s.producers[i].LoadHead? || s.producers[i].LoadSeq? || s.producers[i].TryCas?
    requires s.producers[i].TryCas? ==> s.head != s.producers[i].pos || spurious
    ensures RingInv(ProducerStep(s, i, msg, spurious))
  {
    assert ProducerOk(s, s.producers[i]);
    if s.producers[i].LoadSeq? {
      LoadSeqVerdict(s, s.producers[i].pos);
    }
    LocalProducer(s, i, ProducerStep(s, i, msg, spurious).producers[i]);
  }

  lemma ProducerStepRing(s: State, i: nat, msg: Message, spurious: bool)
    requires RingInv(s) && i < |s.producers|
    ensures RingInv(ProducerStep(s, i, msg, spurious))
  {
    if s.producers[i].Write? || s.producers[i].Publish? {
      OwnerStepRing(s, i, msg, spurious);
    } else if s.producers[i].Bump? || s.producers[i].Wake? {
      var s' := ProducerStep(s, i, msg, spurious);
      CounterStepRing(s, i, s', s'.producers[i]);
    } else if s.producers[i].TryCas? && s.head == s.producers[i].pos && !spurious {
      CasRing(s, i, msg);
    } else {
      LookStepRing(s, i, msg, spurious);
    }
  }

  /** Moving the counter or waking the worker leaves the ring as it is. */
  lemma CounterStepRing(s: State, i: nat, s': State, p: Producer)
    requires RingInv(s) && i < |s.producers| && (s.producers[i].Bump? || s.producers[i].Wake?)
    requires p.Wake? || p.Idle?
    requires SameRing(s, s') && s'.producers == s.producers[i := p]
    requires s'.consumer == s.consumer || (s.consumer.Parked? && s'.consumer.Wait?)
    ensures RingInv(s')
  {
    LocalProducer(s, i, p);
    LocalConsumer(SetProducer(s, i, p), s');
  }

  /** Moving a message out of its slot. */
  lemma ReadRing(s: State, spurious: bool)
    requires RingInv(s) && s.consumer.Read?
    ensures RingInv(ConsumerStep(s, spurious))
  {
    var s' := ConsumerStep(s, spurious);
    var pos := s.consumer.pos;
    assert At(s', pos) == s'.slots[Index(pos)];
    forall p: nat | InWindow(s, p) && p != pos ensures At(s', p) == At(s, p) {
      WindowSlotsDistinct(Released(s), p, pos);
    }
    forall p: nat | InWindow(s', p)
      ensures if p >= s'.head then At(s', p) == Slot(p, None) else Claimed(s', p) || Published(s', p)
    {
      if p != pos {
        assert At(s', p) == At(s, p);
      }
    }
    forall j | 0 <= j < |s'.producers| ensures ProducerOk(s', s'.producers[j]) {
      var p := s.producers[j];
      assert ProducerOk(s, p);
      if p.Write? || p.Publish? {
        assert At(s', p.pos) == At(s, p.pos);
      }
    }
  }

  /** Handing a slot back moves the window on by one position. */
  /** Handing a slot back changes no other slot of the window. */
  lemma ReleaseElsewhere(s: State, spurious: bool, p: nat)
    requires RingInv(s) && s.consumer.Release? && InWindow(s, p) && p != s.consumer.pos
    ensures At(ConsumerStep(s, spurious), p) == At(s, p)
  {
    WindowSlotsDistinct(Released(s), p, s.consumer.pos);
  }

  lemma ReleaseSlots(s: State, spurious: bool)
    requires RingInv(s) && s.consumer.Release?
    ensures SlotsOk(ConsumerStep(s, spurious))
  {
    var s' := ConsumerStep(s, spurious);
    var pos := s.consumer.pos;
    assert At(s', pos + SIZE) == s'.slots[Index(pos)];
    forall p: nat | InWindow(s', p)
      ensures if p >= s'.head then At(s', p) == Slot(p, None) else Claimed(s', p) || Published(s', p)
    {
      if p != pos + SIZE {
        ReleaseElsewhere(s, spurious, p);
      }
    }
  }

  lemma ReleaseRing(s: State, spurious: bool)
    requires RingInv(s) && s.consumer.Release?
    ensures RingInv(ConsumerStep(s, spurious))
  {
    var s' := ConsumerStep(s, spurious);
    assert Released(s') == s.consumer.pos + 1;
    ReleaseSlots(s, spurious);
    forall j | 0 <= j < |s'.producers| ensures ProducerOk(s', s'.producers[j]) {
      var p := s.producers[j];
      assert ProducerOk(s, p);
      if p.Write? || p.Publish? {
        ReleaseElsewhere(s, spurious, p.pos);
      }
    }
  }

  lemma ConsumerStepRing(s: State, spurious: bool)
    requires RingInv(s)
    ensures RingInv(ConsumerStep(s, spurious))
  {
    var s' := ConsumerStep(s, spurious);
    match s.consumer
    case LoadSlot(pos, _) =>
      if At(s, pos).sequence == pos + 1 {
        LoadSlotRing(s, pos);
      }
      LocalConsumer(s, s');
    case StoreTail(pos, _) => StoreTailRing(s, spurious);
    case Read(_, _) => ReadRing(s, spurious);
    case Release(_, _) => ReleaseRing(s, spurious);
    case _ => LocalConsumer(s, s');
  }

  /** A slot that reads as full at the tail holds the message claimed there. */
  lemma LoadSlotRing(s: State, pos: nat)
    requires RingInv(s) && s.consumer.LoadSlot? && pos == s.consumer.pos && At(s, pos).sequence == pos + 1
    ensures Published(s, pos)
  {
    assert InWindow(s, pos);
  }

  lemma StoreTailRing(s: State, spurious: bool)
    requires RingInv(s) && s.consumer.StoreTail?
    ensures RingInv(ConsumerStep(s, spurious))
  {
    var s' := ConsumerStep(s, spurious);
    assert Released(s') == Released(s);
    forall p: nat | InWindow(s', p)
      ensures if p >= s'.head then At(s', p) == Slot(p, None) else Claimed(s', p) || Published(s', p)
    {
      assert At(s', p) == At(s, p);
    }
    forall i | 0 <= i < |s'.producers| ensures ProducerOk(s', s'.producers[i]) {
      assert ProducerOk(s, s.producers[i]);
    }
  }

  lemma StepRing(s: State, a: Action)
    requires RingInv(s)
    ensures RingInv(Step(s, a))
  {
    match a
    case Produce(i, msg, spurious) =>
      if i < |s.producers| {
        ProducerStepRing(s, i, msg, spurious);
      }
    case Consume(spurious) => ConsumerStepRing(s, spurious);
    case Shutdown => LocalConsumer(s, StopperStep(s));
  }

  // --------------------------------------------------------------------------------
  // Every step keeps the wake protocol
  // --------------------------------------------------------------------------------

  lemma ProducerStepWake(s: State, i: nat, msg: Message, spurious: bool)
    requires Inv(s) && i < |s.producers|
    ensures WakeInv(ProducerStep(s, i, msg, spurious))
  {
    if s.producers[i].Bump? || s.producers[i].Wake? {
      CounterStepWake(s, i, msg, spurious);
    } else if s.producers[i].Write? || s.producers[i].Publish? {
      OwnSlotWake(s, i, msg, spurious);
    } else {
      OtherProducersWake(s, i, ProducerStep(s, i, msg, spurious).producers[i]);
    }
  }

  lemma CounterStepWake(s: State, i: nat, msg: Message, spurious: bool)
    requires Inv(s) && i < |s.producers| && (s.producers[i].Bump? || s.producers[i].Wake?)
    ensures WakeInv(ProducerStep(s, i, msg, spurious))
  {
    var s' := ProducerStep(s, i, msg, spurious);
    if s.producers[i].Bump? {
      assert s'.producers[i].Wake?;
    } else {
      OtherProducersWake(s, i, Idle);
    }
  }

  /** A local producer step leaves every other thread's debt to the worker as it was. */
  lemma OtherProducersWake(s: State, i: nat, p: Producer)
    requires Inv(s) && i < |s.producers| && !s.producers[i].Bump?
    ensures BumpPending(s) ==> BumpPending(SetProducer(s, i, p))
    ensures WakePending(s) && !s.producers[i].Wake? ==> WakePending(SetProducer(s, i, p))
  {
    var s' := SetProducer(s, i, p);
    if BumpPending(s) {
      var j :| 0 <= j < |s.producers| && s.producers[j].Bump? && s.producers[j].pos == s.tail;
      assert s'.producers[j].Bump?;
    }
    if exists j :: 0 <= j < |s.producers| && s.producers[j].Wake? && !s.producers[i].Wake? {
      var j :| 0 <= j < |s.producers| && s.producers[j].Wake? && !s.producers[i].Wake?;
      assert s'.producers[j].Wake?;
    }
  }

  /** Publishing at the tail makes the publisher the one that still owes the counter. */
  lemma OwnSlotWake(s: State, i: nat, msg: Message, spurious: bool)
    requires Inv(s) && i < |s.producers| && (s.producers[i].Write? || s.producers[i].Publish?)
    ensures WakeInv(ProducerStep(s, i, msg, spurious))
  {
    var s' := ProducerStep(s, i, msg, spurious);
    var pos := s.producers[i].pos;
    assert ProducerOk(s, s.producers[i]);
    OtherProducersWake(s, i, s'.producers[i]);
    SetSlotElsewhere(s, pos, s'.slots[Index(pos)]);
    assert At(s', s.tail) == At(SetSlot(s, pos, s'.slots[Index(pos)]), s.tail);
    if s.consumer.Wait? || s.consumer.Parked? {
      if pos == s.tail {
        assert s'.producers[i].Bump? ==> BumpPending(s');
      } else if InWindow(s, s.tail) {
        assert At(s', s.tail) == At(s, s.tail);
      }
    }
  }

  lemma StepInv(s: State, a: Action)
    requires Inv(s)
    ensures Inv(Step(s, a))
  {
    StepRing(s, a);
    match a
    case Produce(i, msg, spurious) =>
      if i < |s.producers| {
        ProducerStepWake(s, i, msg, spurious);
      }
    case Consume(spurious) =>
    case Shutdown =>
  }

  /** The invariant holds after every schedule of every number of producers. */
  lemma {:induction false} ExecInv(producers: nat, schedule: seq<Action>)
    ensures Inv(Exec(producers, schedule))
    decreases |schedule|
  {
    if schedule == [] {
      InitInv(producers);
    } else {
      ExecInv(producers, schedule[..|schedule| - 1]);
      StepInv(Exec(producers, schedule[..|schedule| - 1]), schedule[|schedule| - 1]);
    }
  }

  // --------------------------------------------------------------------------------
  // What the queue is for
  // --------------------------------------------------------------------------------

  /** Delivered messages are a prefix of the messages in head-CAS order: none lost, duplicated or reordered. */
  lemma DeliveredInOrder(producers: nat, schedule: seq<Action>)
    ensures var s := Exec(producers, schedule);
            && |s.claimed| == s.head
            && s.popped <= s.claimed
            && |s.popped| == (if s.consumer.Read? then s.tail - 1 else s.tail)
  {
    ExecInv(producers, schedule);
  }

  /** Push reports a full ring exactly when the previous occupant of its slot is still unreleased. */
  lemma FullExactly(producers: nat, schedule: seq<Action>, i: nat)
    requires i < producers && Exec(producers, schedule).producers[i].LoadSeq?
    ensures var s := Exec(producers, schedule);
            var pos := s.producers[i].pos;
            && (ReportsFull(s, i) <==> pos >= 4096 && Released(s) == pos - 4096)
            && (ReportsFull(s, i) ==> pos == s.head && s.head - Released(s) == 4096)
  {
    ExecInv(producers, schedule);
    var s := Exec(producers, schedule);
    assert ProducerOk(s, s.producers[i]);
    LoadSeqVerdict(s, s.producers[i].pos);
  }

  /** A producer about to write finds its slot released and emptied, and no other producer on it. */
  lemma NoOverwrite(producers: nat, schedule: seq<Action>, i: nat)
    requires i < producers && Exec(producers, schedule).producers[i].Write?
    ensures var s := Exec(producers, schedule);
            var pos := s.producers[i].pos;
            && pos < Released(s) + SIZE
            && At(s, pos) == Slot(pos, None)
            && forall j :: 0 <= j < producers && j != i && (s.producers[j].Write? || s.producers[j].Publish?) ==>
                 Index(s.producers[j].pos) != Index(pos)
  {
    ExecInv(producers, schedule);
    var s := Exec(producers, schedule);
    var pos := s.producers[i].pos;
    assert ProducerOk(s, s.producers[i]);
    forall j | 0 <= j < producers && j != i && (s.producers[j].Write? || s.producers[j].Publish?)
      ensures Index(s.producers[j].pos) != Index(pos)
    {
      assert ProducerOk(s, s.producers[j]);
      assert Owns(s.producers[i], pos) && Owns(s.producers[j], s.producers[j].pos);
      WindowSlotsDistinct(Released(s), pos, s.producers[j].pos);
    }
  }

  /** A parked worker with a message at the tail always has some thread on its way to wake it. */
  lemma NoStrandedMessage(producers: nat, schedule: seq<Action>)
    requires Exec(producers, schedule).consumer.Parked?
    ensures var s := Exec(producers, schedule);
            && (s.counter == s.observed && TailPublished(s) ==> BumpPending(s))
            && (s.counter != s.observed ==> WakePending(s))
            && (s.stop ==> WakePending(s) || s.stopper.Stopping?)
  {
    ExecInv(producers, schedule);
  }

  /** With every producer idle, an unpublished tail means that nothing is left in the ring. */
  lemma IdleRingDrained(s: State)
    requires RingInv(s) && !TailPublished(s) && !s.consumer.Release? && !s.consumer.Read?
    requires forall i :: 0 <= i < |s.producers| ==> s.producers[i].Idle?
    ensures s.popped == s.claimed
  {
    if s.tail < s.head {
      assert InWindow(s, s.tail);
    }
  }

  /** Once all producers are done, a parked worker has delivered everything and no shutdown is waiting for it. */
  lemma ParkedMeansDelivered(producers: nat, schedule: seq<Action>)
    requires var s := Exec(producers, schedule);
             s.consumer.Parked? && forall i :: 0 <= i < producers ==> s.producers[i].Idle?
    ensures var s := Exec(producers, schedule);
            && (s.stopper.Running? || s.stopper.StopDone? ==> s.popped == s.claimed)
            && !s.stopper.StopDone?
  {
    ExecInv(producers, schedule);
    var s := Exec(producers, schedule);
    if TailPublished(s) {
      assert s.counter != s.observed || BumpPending(s);
    } else {
      IdleRingDrained(s);
    }
  }

  /** The drain that follows a stop ends only on an empty ring, if no producer is under way. */
  lemma DrainedOnExit(producers: nat, schedule: seq<Action>, spurious: bool)
    requires var s := Exec(producers, schedule);
             && s.consumer.LoadSlot?
             && ConsumerStep(s, spurious).consumer.Done?
             && forall i :: 0 <= i < producers ==> s.producers[i].Idle?
    ensures Exec(producers, schedule).stop && Exec(producers, schedule).popped == Exec(producers, schedule).claimed
  {
    ExecInv(producers, schedule);
    ExecFinalStopped(producers, schedule);
    IdleRingDrained(Exec(producers, schedule));
  }

  predicate Draining(c: Consumer) {
    || c.Done?
    || ((c.LoadTail? || c.LoadSlot? || c.StoreTail? || c.Read? || c.Release?) && c.final)
  }

  /** The worker drains for the last time only after a stop was requested. */
  lemma {:induction false} ExecFinalStopped(producers: nat, schedule: seq<Action>)
    ensures Draining(Exec(producers, schedule).consumer) ==> Exec(producers, schedule).stop
    decreases |schedule|
  {
    if schedule != [] {
      ExecFinalStopped(producers, schedule[..|schedule| - 1]);
    }
  }

  // --------------------------------------------------------------------------------
  // Progress: the worker delivers and rests, a producer that runs alone finishes
  // --------------------------------------------------------------------------------

  predicate AllIdle(s: State) {
    forall i :: 0 <= i < |s.producers| ==> s.producers[i].Idle?
  }

  /** The steps left until the worker has nothing to do: five for each message, and another round if the counter has moved. */
  function Rank(s: State): int {
    var left := s.head - s.tail;
    var round := if s.stop then 0 else if s.counter == s.observed then 0 else 5;
    var again := if s.counter == s.observed then 0 else 5;
    match s.consumer
    case LoadTail(final) => 5 * left + 2 + (if final then 0 else again)
    case LoadSlot(_, final) => 5 * left + 1 + (if final then 0 else again)
    case StoreTail(_, final) => 5 * left + (if final then 0 else again)
    case Read(_, final) => 5 * left + 4 + (if final then 0 else again)
    case Release(_, final) => 5 * left + 3 + (if final then 0 else again)
    case CheckStop => 5 * left + 3 + round
    case Observe => 5 * left + 4
    case Wait => if s.counter == s.observed then 0 else 5 * left + 5
    case Parked => 0
    case Done => 0
  }

  /** What the worker can be served from: only a parked worker to whom the shutdown owes its notification has to be given that first. */
  ghost predicate Served(s: State) {
    && Inv(s) && AllIdle(s) && !(s.stopper.StopBumped? && s.consumer.Parked?)
    && (Draining(s.consumer) ==> s.stop) && (s.consumer.Done? ==> s.tail == s.head)
  }

  /** With idle producers, every claimed message is published. */
  lemma TailPublishedExactly(s: State)
    requires RingInv(s) && AllIdle(s)
    ensures TailPublished(s) <==> s.tail < s.head
  {
    assert InWindow(s, s.tail);
    if s.tail < s.head {
      assert !Claimed(s, s.tail);
    }
  }

  /** No submission, and no step of a shutdown that is still under way. */
  predicate Quiet(s: State, a: Action) {
    (a.Produce? ==> a.i >= |s.producers|) && (a.Shutdown? ==> s.stopper.StopDone?)
  }

  /** What the invariants come to for a worker with idle producers. */
  ghost predicate Due(s: State) {
    && |s.slots| == SIZE && s.tail <= s.head && (TailPublished(s) <==> s.tail < s.head)
    && (s.consumer.LoadSlot? || s.consumer.StoreTail? ==> s.consumer.pos == s.tail)
    && (s.consumer.StoreTail? ==> s.tail < s.head)
    && (s.consumer.Wait? && s.tail < s.head ==> s.counter != s.observed)
    && (s.consumer.Parked? ==> s.counter == s.observed)
    && (Draining(s.consumer) ==> s.stop) && (s.consumer.Done? ==> s.tail == s.head)
  }

  lemma ServedDue(s: State)
    requires Served(s)
    ensures Due(s)
  {
    TailPublishedExactly(s);
  }

  lemma ConsumerRank(s: State, spurious: bool)
    requires Due(s)
    ensures var t := ConsumerStep(s, spurious);
            && t.claimed == s.claimed && t.stopper == s.stopper && t.producers == s.producers && t.stop == s.stop
            && t.counter == s.counter && t.head == s.head
            && 0 <= Rank(t) <= Rank(s) && (!spurious && Rank(s) > 0 ==> Rank(t) < Rank(s))
            && (t.consumer.Parked? ==> s.counter == s.observed && t.observed == s.observed)
            && (Draining(t.consumer) ==> t.stop) && (t.consumer.Done? ==> t.tail == t.head)
  {
  }

  lemma ServedStep(s: State, a: Action)
    requires Served(s) && Quiet(s, a)
    ensures var t := Step(s, a);
            && Served(t) && t.claimed == s.claimed && t.stopper == s.stopper && |t.producers| == |s.producers|
            && 0 <= Rank(t) <= Rank(s) && (a == Consume(false) && Rank(s) > 0 ==> Rank(t) < Rank(s))
  {
    StepInv(s, a);
    ServedDue(s);
    ConsumerRank(s, false);
    ConsumerRank(s, true);
  }

  /** The worker's own steps in a schedule, spurious wake-ups not counted. */
  function WorkerSteps(more: seq<Action>): nat {
    if more == [] then 0
    else WorkerSteps(more[..|more| - 1]) + (if more[|more| - 1] == Consume(false) then 1 else 0)
  }

  lemma ExecLast(producers: nat, all: seq<Action>)
    requires all != []
    ensures Exec(producers, all) == Step(Exec(producers, all[..|all| - 1]), all[|all| - 1])
  {
  }

  lemma ExecMore(producers: nat, schedule: seq<Action>, more: seq<Action>)
    requires more != []
    ensures var n := |more| - 1;
            Exec(producers, schedule + more) == Step(Exec(producers, schedule + more[..n]), more[n])
  {
    var n, all := |more| - 1, schedule + more;
    ExecLast(producers, all);
    assert all[..|all| - 1] == schedule + more[..n] && all[|all| - 1] == more[n];
  }

  /** The worker's way from s: so many of its steps are taken, or it has come to rest. */
  ghost predicate OnTheWay(s: State, steps: nat, t: State) {
    && Served(t) && t.claimed == s.claimed && t.stopper == s.stopper && |t.producers| == |s.producers|
    && 0 <= Rank(t) && (Rank(t) == 0 || Rank(t) + steps <= Rank(s))
  }

  lemma OnTheWayStep(s: State, steps: nat, t: State, a: Action)
    requires OnTheWay(s, steps, t) && Quiet(s, a)
    ensures OnTheWay(s, if a == Consume(false) then steps + 1 else steps, Step(t, a))
  {
    ServedStep(t, a);
  }

  lemma {:induction false} ServedRun(producers: nat, schedule: seq<Action>, more: seq<Action>)
    requires Served(Exec(producers, schedule)) && Rank(Exec(producers, schedule)) >= 0
    requires forall k :: 0 <= k < |more| ==> Quiet(Exec(producers, schedule), more[k])
    ensures OnTheWay(Exec(producers, schedule), WorkerSteps(more), Exec(producers, schedule + more))
  {
    if more == [] {
      assert schedule + more == schedule;
    } else {
      var n := |more| - 1;
      var s, t := Exec(producers, schedule), Exec(producers, schedule + more[..n]);
      ServedRun(producers, schedule, more[..n]);
      ExecMore(producers, schedule, more);
      OnTheWayStep(s, WorkerSteps(more[..n]), t, more[n]);
    }
  }

  /** With nothing left to do, everything is delivered, and the worker's next step is its rest. */
  lemma RestedDelivered(s: State)
    requires Served(s) && Rank(s) == 0
    ensures s.popped == s.claimed
    ensures var c := ConsumerStep(s, false).consumer;
            && (c.Parked? || c.Done?) && (c.Done? ==> s.stop)
            && (s.stopper.StopBumped? || s.stopper.StopDone? ==> c.Done?)
  {
    TailPublishedExactly(s);
  }

  /**
   From every reachable state with idle producers, and whatever the schedule after it: once the worker has been
   given five steps for each undelivered message and ten more, all messages are delivered, and it rests. It is
   parked if nobody has asked it to stop, and finished behind a shutdown.
   */
  lemma WorkerDelivers(producers: nat, schedule: seq<Action>, more: seq<Action>)
    requires var s := Exec(producers, schedule);
             && AllIdle(s) && !s.consumer.Done? && !(s.stopper.StopBumped? && s.consumer.Parked?)
             && (forall k :: 0 <= k < |more| ==> Quiet(s, more[k]))
             && WorkerSteps(more) >= 5 * (|s.claimed| - |s.popped|) + 9
    ensures var s, t := Exec(producers, schedule), Exec(producers, schedule + more + [Consume(false)]);
            && t.claimed == s.claimed && t.popped == s.claimed && (t.consumer.Parked? || t.consumer.Done?)
            && (s.stopper.Running? ==> t.consumer.Parked?)
            && (s.stopper.StopBumped? || s.stopper.StopDone? ==> t.consumer.Done?)
  {
    ExecInv(producers, schedule);
    ExecFinalStopped(producers, schedule);
    ServedDue(Exec(producers, schedule));
    ConsumerRank(Exec(producers, schedule), false);
    ServedRun(producers, schedule, more);
    RestedDelivered(Exec(producers, schedule + more));
    ExecMore(producers, schedule, more + [Consume(false)]);
    assert (more + [Consume(false)])[..|more|] == more;
    assert schedule + more + [Consume(false)] == schedule + (more + [Consume(false)]);
  }

  /** A shutdown from such a state takes three steps of its own, and then the worker delivers everything and finishes. */
  lemma ShutdownDelivers(producers: nat, schedule: seq<Action>, more: seq<Action>)
    requires var s := Exec(producers, schedule);
             && AllIdle(s) && s.stopper.Running?
             && (forall k :: 0 <= k < |more| && more[k].Produce? ==> more[k].i >= producers)
             && WorkerSteps(more) >= 5 * (|s.claimed| - |s.popped|) + 9
    ensures var s, t := Exec(producers, schedule),
                        Exec(producers, schedule + [Shutdown, Shutdown, Shutdown] + more + [Consume(false)]);
            t.claimed == s.claimed && t.popped == s.claimed && t.consumer.Done?
  {
    var stops := [Shutdown, Shutdown, Shutdown];
    ExecInv(producers, schedule);
    ExecFinalStopped(producers, schedule);
    ExecMore(producers, schedule, stops);
    ExecMore(producers, schedule, stops[..2]);
    ExecMore(producers, schedule, stops[..1]);
    assert stops[..2][..1] == stops[..1] && stops[..1][..0] == [] && schedule + [] == schedule;
    var t := Exec(producers, schedule + stops);
    forall k | 0 <= k < |more| ensures Quiet(t, more[k]) {
    }
    WorkerDelivers(producers, schedule + stops, more);
  }

  /** The schedule that gives one producer n steps and nobody else any. */
  function Alone(i: nat, msg: Message, n: nat): seq<Action> {
    seq(n, _ => Produce(i, msg, false))
  }

  /** What a push comes to: the message published at a position, the counter moved, the worker woken. */
  function Pushed(s: State, i: nat, m: Message, pos: nat): State
    requires |s.slots| == SIZE && i < |s.producers|
  {
    Notify(SetSlot(SetProducer(s, i, Idle), pos, Slot(pos + 1, Some(m))).(counter := s.counter + 1))
  }

  /** And where a producer that runs alone ends up. */
  function Outcome(s: State, i: nat): State
    requires |s.slots| == SIZE && i < |s.producers|
  {
    match s.producers[i]
    case Idle => s
    case Write(m, pos) => Pushed(s, i, m, pos)
    case Publish(m, pos) => Pushed(s, i, m, pos)
    case Bump(_) => Notify(SetProducer(s, i, Idle).(counter := s.counter + 1))
    case Wake => Notify(SetProducer(s, i, Idle))
    case _ =>
      var m := Holds(s.producers[i]).value;
      Pushed(s.(head := s.head + 1, claimed := s.claimed + [m]), i, m, s.head)
  }

  /** In how many steps. */
  function PushSteps(s: State, i: nat): nat
    requires |s.slots| == SIZE && i < |s.producers|
  {
    match s.producers[i]
    case Idle => 0
    case LoadHead(_) => 7
    case LoadSeq(_, pos) => if At(s, pos).sequence == pos == s.head then 6 else 8
    case TryCas(_, pos) => if pos == s.head then 5 else 7
    case Write(_, _) => 4
    case Publish(_, _) => 3
    case Bump(_) => 2
    case Wake => 1
  }

  predicate Full(s: State) {
    s.head == Released(s) + SIZE
  }

  /** What the invariants come to for a producer. */
  ghost predicate Ready(s: State, i: nat) {
    && |s.slots| == SIZE && i < |s.producers|
    && match s.producers[i]
       case LoadHead(_) => At(s, s.head) == Slot(s.head, None)
       case LoadSeq(_, pos) => At(s, s.head) == Slot(s.head, None) && pos <= s.head
       case TryCas(_, pos) => At(s, s.head) == Slot(s.head, None) && pos <= s.head
       case Write(m, pos) => At(s, pos) == Slot(pos, None)
       case Publish(m, pos) => At(s, pos) == Slot(pos, Some(m))
       case _ => true
  }

  lemma InvReady(s: State, i: nat)
    requires Inv(s) && i < |s.producers| && (Holds(s.producers[i]).Some? ==> !Full(s))
    ensures Ready(s, i)
  {
    assert ProducerOk(s, s.producers[i]);
    if !Full(s) {
      assert InWindow(s, s.head);
    }
  }

  lemma PushStep(s: State, i: nat, msg: Message)
    requires Ready(s, i) && !s.producers[i].Idle?
    ensures var t := ProducerStep(s, i, msg, false);
            Ready(t, i) && PushSteps(t, i) + 1 == PushSteps(s, i) && Outcome(t, i) == Outcome(s, i)
  {
    if s.producers[i].Write? || s.producers[i].Publish? {
      WriteStep(s, i, msg);
    } else {
      OtherPushStep(s, i, msg);
    }
  }

  lemma WriteStep(s: State, i: nat, msg: Message)
    requires Ready(s, i) && (s.producers[i].Write? || s.producers[i].Publish?)
    ensures var t := ProducerStep(s, i, msg, false);
            Ready(t, i) && PushSteps(t, i) + 1 == PushSteps(s, i) && Outcome(t, i) == Outcome(s, i)
  {
    var t, pos := ProducerStep(s, i, msg, false), s.producers[i].pos;
    assert t.producers[i := Idle] == s.producers[i := Idle];
    var slot := Slot(pos + 1, Some(s.producers[i].msg));
    assert t.slots[Index(pos) := slot] == s.slots[Index(pos) := slot];
    assert s.producers[i].Publish? ==> t.slots == s.slots[Index(pos) := slot];
  }

  lemma OtherPushStep(s: State, i: nat, msg: Message)
    requires Ready(s, i) && !s.producers[i].Idle? && !s.producers[i].Write? && !s.producers[i].Publish?
    ensures var t := ProducerStep(s, i, msg, false);
            Ready(t, i) && PushSteps(t, i) + 1 == PushSteps(s, i) && Outcome(t, i) == Outcome(s, i)
  {
    var t := ProducerStep(s, i, msg, false);
    assert t.producers[i := Idle] == s.producers[i := Idle];
    assert t.slots == s.slots;
  }

  /** So many of its steps are taken on the way from s. */
  ghost predicate Pushing(s: State, i: nat, k: nat, t: State) {
    && Ready(s, i) && Ready(t, i)
    && PushSteps(t, i) + k == PushSteps(s, i) && Outcome(t, i) == Outcome(s, i)
  }

  lemma {:induction false} PushRun(producers: nat, schedule: seq<Action>, i: nat, msg: Message, n: nat)
    requires i < producers && Ready(Exec(producers, schedule), i) && n <= PushSteps(Exec(producers, schedule), i)
    ensures Pushing(Exec(producers, schedule), i, n, Exec(producers, schedule + Alone(i, msg, n)))
  {
    if n == 0 {
      assert schedule + Alone(i, msg, n) == schedule;
    } else {
      PushRun(producers, schedule, i, msg, n - 1);
      assert Alone(i, msg, n)[..n - 1] == Alone(i, msg, n - 1);
      ExecMore(producers, schedule, Alone(i, msg, n));
      PushStep(Exec(producers, schedule + Alone(i, msg, n - 1)), i, msg);
    }
  }

  /**
   From every reachable state, a producer that runs alone is done after at most eight steps unless the ring is full:
   its message is the next one in the order and published, the counter has moved, and the worker is not parked.
   */
  lemma PushFinishes(producers: nat, schedule: seq<Action>, i: nat, msg: Message)
    requires i < producers && Holds(Exec(producers, schedule).producers[i]).Some? && !Full(Exec(producers, schedule))
    ensures var s := Exec(producers, schedule);
            var n := PushSteps(s, i);
            var m := Holds(s.producers[i]).value;
            var t := Exec(producers, schedule + Alone(i, msg, n));
            && 5 <= n <= 8 && t.producers == s.producers[i := Idle]
            && t.head == s.head + 1 && t.claimed == s.claimed + [m] && At(t, s.head) == Slot(s.head + 1, Some(m))
            && t.counter == s.counter + 1 && !t.consumer.Parked? && t.tail == s.tail && t.popped == s.popped
    ensures forall k :: 0 <= k < PushSteps(Exec(producers, schedule), i) ==>
              !Exec(producers, schedule + Alone(i, msg, k)).producers[i].Idle?
  {
    var n := PushSteps(Exec(producers, schedule), i);
    ExecInv(producers, schedule);
    InvReady(Exec(producers, schedule), i);
    PushRun(producers, schedule, i, msg, n);
    forall k | 0 <= k < n ensures !Exec(producers, schedule + Alone(i, msg, k)).producers[i].Idle? {
      PushRun(producers, schedule, i, msg, k);
    }
  }

  /** Behind the CAS it finishes whether the ring is full or not. */
  lemma PublishFinishes(producers: nat, schedule: seq<Action>, i: nat, msg: Message)
    requires i < producers && Holds(Exec(producers, schedule).producers[i]).None?
    ensures var s := Exec(producers, schedule);
            var n := PushSteps(s, i);
            var t := Exec(producers, schedule + Alone(i, msg, n));
            && n <= 4 && t.producers == s.producers[i := Idle] && t.claimed == s.claimed && t.popped == s.popped
            && (n > 0 ==> !t.consumer.Parked?) && (n > 1 ==> t.counter == s.counter + 1)
            && (n > 2 ==> var pos := s.producers[i].pos; pos < |s.claimed| && At(t, pos) == Slot(pos + 1, Some(s.claimed[pos])))
  {
    var s := Exec(producers, schedule);
    ExecInv(producers, schedule);
    assert ProducerOk(s, s.producers[i]);
    InvReady(s, i);
    PushRun(producers, schedule, i, msg, PushSteps(s, i));
    assert s.producers[i].Idle? ==> s.producers == s.producers[i := Idle];
  }

  lemma FullStep(s: State, i: nat, msg: Message)
    requires Inv(s) && i < |s.producers| && Holds(s.producers[i]).Some? && Full(s)
    ensures var t := ProducerStep(s, i, msg, false);
            t.head == s.head && t.tail == s.tail && t.consumer == s.consumer && t.claimed == s.claimed
            && Holds(t.producers[i]) == Holds(s.producers[i])
  {
    assert ProducerOk(s, s.producers[i]);
  }

  /** In a full ring it does not get its message in, however long it runs. */
  lemma {:induction false} FullSpins(producers: nat, schedule: seq<Action>, i: nat, msg: Message, n: nat)
    requires i < producers && Holds(Exec(producers, schedule).producers[i]).Some? && Full(Exec(producers, schedule))
    ensures var s, t := Exec(producers, schedule), Exec(producers, schedule + Alone(i, msg, n));
            && Full(t) && t.claimed == s.claimed && t.head == s.head && Holds(t.producers[i]) == Holds(s.producers[i])
  {
    if n == 0 {
      assert schedule + Alone(i, msg, n) == schedule;
    } else {
      FullSpins(producers, schedule, i, msg, n - 1);
      assert Alone(i, msg, n)[..n - 1] == Alone(i, msg, n - 1);
      ExecMore(producers, schedule, Alone(i, msg, n));
      ExecInv(producers, schedule + Alone(i, msg, n - 1));
      FullStep(Exec(producers, schedule + Alone(i, msg, n - 1)), i, msg);
    }
  }

  // --------------------------------------------------------------------------------
  // End to end: submitted messages are the delivered ones plus those still under way
  // --------------------------------------------------------------------------------

  /** Whether an action of the schedule hands a message to PushAndNotify. */
  predicate Submits(s: State, a: Action) {
    a.Produce? && a.i < |s.producers| && s.producers[a.i].Idle?
  }

  /** The messages the schedule hands to PushAndNotify, in the order of the calls. */
  function Submitted(producers: nat, schedule: seq<Action>): seq<Message>
    decreases |schedule|
  {
    if schedule == [] then [] else
    var before := schedule[..|schedule| - 1];
    var a := schedule[|schedule| - 1];
    var s := Exec(producers, before);
    if Submits(s, a) then Submitted(producers, before) + [a.msg]
    else Submitted(producers, before)
  }

  /** A message its producer still holds, before the CAS that places it in the order. */
  function Holds(p: Producer): Option<Message> {
    match p
    case LoadHead(m) => Some(m)
    case LoadSeq(m, _) => Some(m)
    case TryCas(m, _) => Some(m)
    case _ => None
  }

  /** How often one producer, and a row of producers, holds a message. */
  function Held(p: Producer, m: Message): nat {
    if Holds(p) == Some(m) then 1 else 0
  }

  function HeldBy(ps: seq<Producer>, m: Message): nat {
    if ps == [] then 0 else HeldBy(ps[..|ps| - 1], m) + Held(ps[|ps| - 1], m)
  }

  lemma {:induction false} HeldByUpdate(ps: seq<Producer>, i: nat, p: Producer, m: Message)
    requires i < |ps|
    ensures HeldBy(ps[i := p], m) + Held(ps[i], m) == HeldBy(ps, m) + Held(p, m)
  {
    var before, last := ps[..|ps| - 1], ps[|ps| - 1];
    if i == |before| {
      assert ps[i := p][..i] == before;
    } else {
      HeldByUpdate(before, i, p, m);
      assert ps[i := p][..|before|] == before[i := p];
    }
  }

  lemma {:induction false} HeldByIdle(ps: seq<Producer>, m: Message)
    requires forall i :: 0 <= i < |ps| ==> ps[i].Idle?
    ensures HeldBy(ps, m) == 0
  {
    if ps != [] {
      HeldByIdle(ps[..|ps| - 1], m);
    }
  }

  /** One step adds to the held and claimed messages exactly what it takes from the schedule. */
  lemma StepConserves(s: State, a: Action, m: Message)
    requires |s.slots| == SIZE
    ensures multiset(Step(s, a).claimed)[m] + HeldBy(Step(s, a).producers, m)
         == multiset(s.claimed)[m] + HeldBy(s.producers, m) + (if Submits(s, a) && a.msg == m then 1 else 0)
  {
    if a.Produce? && a.i < |s.producers| {
      var s' := Step(s, a);
      ProducerStepHolds(s, a.i, a.msg, a.spurious, m);
      ProducerStepElsewhere(s, a.i, a.msg, a.spurious);
      HeldByUpdate(s.producers, a.i, s'.producers[a.i], m);
    } else {
      assert Step(s, a).claimed == s.claimed && Step(s, a).producers == s.producers;
    }
  }

  /** A producer that is neither starting nor winning the CAS holds what it held. */
  lemma ProducerStepKeeps(s: State, i: nat, msg: Message, spurious: bool)
    requires |s.slots| == SIZE && i < |s.producers| && !s.producers[i].Idle?
    requires s.producers[i].TryCas? ==> s.head != s.producers[i].pos || spurious
    ensures var s' := ProducerStep(s, i, msg, spurious);
            s'.claimed == s.claimed && |s'.producers| == |s.producers| && Holds(s'.producers[i]) == Holds(s.producers[i])
  {
  }

  lemma ProducerStepHolds(s: State, i: nat, msg: Message, spurious: bool, m: Message)
    requires |s.slots| == SIZE && i < |s.producers|
    ensures var s' := ProducerStep(s, i, msg, spurious);
            && |s'.producers| == |s.producers|
            && multiset(s'.claimed)[m] + Held(s'.producers[i], m)
            == multiset(s.claimed)[m] + Held(s.producers[i], m) + (if s.producers[i].Idle? && msg == m then 1 else 0)
  {
    if s.producers[i].Idle? {
    } else if s.producers[i].TryCas? && s.head == s.producers[i].pos && !spurious {
    } else {
      ProducerStepKeeps(s, i, msg, spurious);
    }
  }

  lemma ProducerStepElsewhere(s: State, i: nat, msg: Message, spurious: bool)
    requires |s.slots| == SIZE && i < |s.producers|
    ensures var s' := ProducerStep(s, i, msg, spurious);
            |s'.producers| == |s.producers| && s'.producers == s.producers[i := s'.producers[i]]
  {
  }

  /** Conservation over every schedule: every message is claimed or still held as often as it was submitted. */
  lemma {:induction false} SubmittedConserved(producers: nat, schedule: seq<Action>, m: Message)
    ensures var s := Exec(producers, schedule);
            multiset(Submitted(producers, schedule))[m] == multiset(s.claimed)[m] + HeldBy(s.producers, m)
    decreases |schedule|
  {
    if schedule == [] {
      HeldByIdle(Init(producers).producers, m);
    } else {
      var before := schedule[..|schedule| - 1];
      SubmittedConserved(producers, before, m);
      StepConserves(Exec(producers, before), schedule[|schedule| - 1], m);
    }
  }

  /** Once all producers are done, the worker parked and nothing pending, exactly the submitted messages were delivered. */
  lemma QuiescentDelivery(producers: nat, schedule: seq<Action>)
    requires var s := Exec(producers, schedule);
             s.consumer.Parked? && s.stopper.Running? && forall i :: 0 <= i < producers ==> s.producers[i].Idle?
    ensures multiset(Exec(producers, schedule).popped) == multiset(Submitted(producers, schedule))
  {
    var s := Exec(producers, schedule);
    ParkedMeansDelivered(producers, schedule);
    forall m: Message ensures multiset(s.popped)[m] == multiset(Submitted(producers, schedule))[m] {
      SubmittedConserved(producers, schedule, m);
      HeldByIdle(s.producers, m);
    }
  }
}
