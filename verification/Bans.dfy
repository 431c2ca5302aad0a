/**
 The retirement of expired account bans in src/ban.cpp, by any number of game worlds that share
 one database: every statement is one atomic step, and worlds, issuers and the clock take their
 steps in any order.
 */
module Bans {

  /**
   A row of account_bans, whose key is the account. The serial tells rows apart that were issued
   one after the other; the database has no such column.
   */
  datatype Row = Row(account: nat, reason: string, bannedBy: string, bannedAt: nat, expiresAt: nat, serial: nat)

  /**
   Where a world is: between its SELECT and its DELETEs, or between a DELETE and its INSERT, which may
   have been written already without the world knowing.
   */
  datatype World = Idle | Retiring(todo: seq<Row>) | Recording(row: Row, todo: seq<Row>, written: bool)

  /**
   How a statement ends. When the connection is lost the world does not learn whether the statement was
   applied, and executeQuery sends it again.
   */
  datatype Answer = Done | Failed | Lost(applied: bool)

  /** `deleted` is the history of the rows that the worlds' DELETEs removed. */
  datatype State = State(now: nat, issued: nat, bans: map<nat, Row>, history: seq<Row>, worlds: seq<World>, deleted: set<Row>)

  datatype Event =
    | Tick(seconds: nat)
    | Issue(account: nat, reason: string, bannedBy: string, duration: nat)  // a ban for good has duration 0
    | Lift(account: nat)
    | Check(world: nat, account: nat)          // the SELECT of isAccountBanned
    | Sweep(world: nat, order: seq<nat>)       // the SELECT of sweepExpiredAccountBans, rows in any order
    | Delete(world: nat, answer: Answer)       // the guarded DELETE, sent once
    | Record(world: nat, answer: Answer)       // the INSERT, sent once
    | Crash(world: nat)

  function Init(worlds: nat): State {
    State(0, 0, map[], [], seq(worlds, _ => Idle), {})
  }

  /** The rows of a sweep: expired ones only. */
  function ExpiredRows(bans: map<nat, Row>, now: nat, order: seq<nat>): seq<Row> {
    if order == [] then []
    else
      var before, a := ExpiredRows(bans, now, order[..|order| - 1]), order[|order| - 1];
      if a in bans && bans[a].expiresAt != 0 && bans[a].expiresAt <= now then before + [bans[a]] else before
  }

  /** The condition of the guarded DELETE. */
  predicate Matches(bans: map<nat, Row>, row: Row) {
    row.account in bans && bans[row.account].bannedAt == row.bannedAt && bans[row.account].expiresAt == row.expiresAt
  }

  function NewRow(s: State, e: Event): Row
    requires e.Issue?
  {
    Row(e.account, e.reason, e.bannedBy, s.now, if e.duration == 0 then 0 else s.now + e.duration, s.issued)
  }

  /** One step; a step that its world is not ready for changes nothing. */
  function Step(s: State, e: Event): State {
    match e
    case Tick(seconds) => s.(now := s.now + seconds)
    case Issue(account, _, _, _) => s.(bans := s.bans[account := NewRow(s, e)], issued := s.issued + 1)
    case Lift(account) => s.(bans := s.bans - {account})
    case Check(w, account) =>
      if w < |s.worlds| && s.worlds[w].Idle? && account in s.bans
         && s.bans[account].expiresAt != 0 && s.now > s.bans[account].expiresAt
      then s.(worlds := s.worlds[w := Retiring([s.bans[account]])]) else s
    case Sweep(w, order) =>
      if w < |s.worlds| && s.worlds[w].Idle?
      then s.(worlds := s.worlds[w := Retiring(ExpiredRows(s.bans, s.now, order))]) else s
    case Delete(w, answer) =>
      if w < |s.worlds| && s.worlds[w].Retiring? then DeleteNext(s, w, answer) else s
    case Record(w, answer) =>
      if w < |s.worlds| && s.worlds[w].Recording? then RecordRow(s, w, answer) else s
    case Crash(w) =>
      if w < |s.worlds| then s.(worlds := s.worlds[w := Idle]) else s
  }

  predicate Applied(answer: Answer) {
    answer.Done? || (answer.Lost? && answer.applied)
  }

  function DeleteNext(s: State, w: nat, answer: Answer): State
    requires w < |s.worlds| && s.worlds[w].Retiring?
  {
    var todo := s.worlds[w].todo;
    if todo == [] then s.(worlds := s.worlds[w := Idle])
    else
      var found := Applied(answer) && Matches(s.bans, todo[0]);
      var world := if answer.Lost? then s.worlds[w]
                   else if found then Recording(todo[0], todo[1..], false)
                   else Retiring(todo[1..]);
      if found
      then s.(bans := s.bans - {todo[0].account}, deleted := s.deleted + {s.bans[todo[0].account]},
              worlds := s.worlds[w := world])
      else s.(worlds := s.worlds[w := world])
  }

  function RecordRow(s: State, w: nat, answer: Answer): State
    requires w < |s.worlds| && s.worlds[w].Recording?
  {
    var world := s.worlds[w];
    s.(history := if Applied(answer) then s.history + [world.row] else s.history,
       worlds := s.worlds[w := if answer.Lost? then world.(written := world.written || answer.applied)
                               else Retiring(world.todo)])
  }

  function Exec(worlds: nat, events: seq<Event>): State {
    if events == [] then Init(worlds)
    else Step(Exec(worlds, events[..|events| - 1]), events[|events| - 1])
  }

  // --------------------------------------------------------------------------------
  // The invariant
  // --------------------------------------------------------------------------------

  /** Rows in the table are stamped when they are issued and expire later, or never. */
  ghost predicate TableInv(s: State) {
    forall a :: a in s.bans ==>
      var row := s.bans[a];
      row.account == a && row.serial < s.issued && row.bannedAt <= s.now
      && (row.expiresAt != 0 ==> row.bannedAt < row.expiresAt)
  }

  /** A row that a world has read has expired, and the only row its DELETE can match is that very row. */
  ghost predicate ReadInv(s: State, row: Row) {
    && 0 < row.expiresAt <= s.now && row.bannedAt < row.expiresAt && row.serial < s.issued
    && (Matches(s.bans, row) ==> s.bans[row.account] == row)
  }

  function Todo(w: World): seq<Row> {
    if w.Idle? then [] else w.todo
  }

  ghost predicate WorldsInv(s: State) {
    forall w, i :: 0 <= w < |s.worlds| && 0 <= i < |Todo(s.worlds[w])| ==> ReadInv(s, Todo(s.worlds[w])[i])
  }

  /** Deleted rows had expired, left the table for good, and no two of them share a serial. */
  ghost predicate DeletedInv(s: State) {
    && (forall row :: row in s.deleted ==> 0 < row.expiresAt <= s.now && row.serial < s.issued)
    && (forall row, a :: row in s.deleted && a in s.bans ==> s.bans[a].serial != row.serial)
    && (forall row, row' :: row in s.deleted && row' in s.deleted && row.serial == row'.serial ==> row == row')
  }

  /** A row waiting for its INSERT was deleted, waits in one world only, and is recorded only if that INSERT was applied. */
  ghost predicate RecordingInv(s: State) {
    && (forall w :: 0 <= w < |s.worlds| && s.worlds[w].Recording? ==>
          s.worlds[w].row in s.deleted && (s.worlds[w].written <==> s.worlds[w].row in s.history))
    && (forall v, w :: 0 <= v < w < |s.worlds| && s.worlds[v].Recording? && s.worlds[w].Recording? ==>
          s.worlds[v].row != s.worlds[w].row)
  }

  ghost predicate HistoryInv(s: State) {
    forall i :: 0 <= i < |s.history| ==> s.history[i] in s.deleted
  }

  /** Serials in the table are distinct, so one deletion removes all trace of its row. */
  ghost predicate SerialInv(s: State) {
    forall a, b :: a in s.bans && b in s.bans && s.bans[a].serial == s.bans[b].serial ==> a == b
  }

  ghost predicate Inv(s: State) {
    TableInv(s) && SerialInv(s) && WorldsInv(s) && DeletedInv(s) && RecordingInv(s) && HistoryInv(s)
  }

  lemma {:induction false} ExpiredRowsAreRead(s: State, order: seq<nat>)
    requires TableInv(s)
    ensures forall i :: 0 <= i < |ExpiredRows(s.bans, s.now, order)| ==> ReadInv(s, ExpiredRows(s.bans, s.now, order)[i])
  {
    if order != [] {
      ExpiredRowsAreRead(s, order[..|order| - 1]);
    }
  }

  lemma DeleteKeepsReads(s: State, w: nat, answer: Answer)
    requires Inv(s) && w < |s.worlds| && s.worlds[w].Retiring?
    ensures WorldsInv(DeleteNext(s, w, answer))
  {
    var t, todo := DeleteNext(s, w, answer), s.worlds[w].todo;
    forall v, i | 0 <= v < |t.worlds| && 0 <= i < |Todo(t.worlds[v])| ensures ReadInv(t, Todo(t.worlds[v])[i]) {
      var j := if v == w && !answer.Lost? then i + 1 else i;
      assert Todo(t.worlds[v])[i] == Todo(s.worlds[v])[j];
      assert ReadInv(s, Todo(s.worlds[v])[j]);
    }
  }

  lemma DeleteKeepsDeleted(s: State, w: nat, answer: Answer)
    requires Inv(s) && w < |s.worlds| && s.worlds[w].Retiring?
    ensures DeletedInv(DeleteNext(s, w, answer)) && HistoryInv(DeleteNext(s, w, answer))
  {
    if Todo(s.worlds[w]) != [] {
      assert ReadInv(s, Todo(s.worlds[w])[0]);
    }
  }

  /** The row that a DELETE removes was in the table, so nobody has recorded it and nobody is about to. */
  lemma DeleteKeepsRecording(s: State, w: nat, answer: Answer)
    requires Inv(s) && w < |s.worlds| && s.worlds[w].Retiring?
    ensures RecordingInv(DeleteNext(s, w, answer))
  {
    var todo := s.worlds[w].todo;
    if todo != [] && Matches(s.bans, todo[0]) {
      assert ReadInv(s, Todo(s.worlds[w])[0]);
      assert todo[0] !in s.deleted && todo[0] !in s.history;
    }
  }

  lemma DeleteKeeps(s: State, w: nat, answer: Answer)
    requires Inv(s) && w < |s.worlds| && s.worlds[w].Retiring?
    ensures Inv(DeleteNext(s, w, answer))
  {
    DeleteKeepsReads(s, w, answer);
    DeleteKeepsDeleted(s, w, answer);
    DeleteKeepsRecording(s, w, answer);
    assert TableInv(DeleteNext(s, w, answer)) && SerialInv(DeleteNext(s, w, answer));
  }

  lemma RecordKeeps(s: State, w: nat, answer: Answer)
    requires Inv(s) && w < |s.worlds| && s.worlds[w].Recording?
    ensures Inv(RecordRow(s, w, answer))
  {
    var t := RecordRow(s, w, answer);
    forall v, i | 0 <= v < |t.worlds| && 0 <= i < |Todo(t.worlds[v])| ensures ReadInv(t, Todo(t.worlds[v])[i]) {
      assert Todo(t.worlds[v])[i] == Todo(s.worlds[v])[i];
      assert ReadInv(s, Todo(s.worlds[v])[i]);
    }
  }

  /** A new ban is never taken for one that was read before; it says who was banned, why, by whom and until when. */
  lemma IssueKeeps(s: State, e: Event)
    requires Inv(s) && e.Issue?
    ensures Inv(Step(s, e))
    ensures var row := Step(s, e).bans[e.account];
            && row.account == e.account && row.reason == e.reason && row.bannedBy == e.bannedBy && row.bannedAt == s.now
            && (row.expiresAt == 0 <==> e.duration == 0) && (e.duration > 0 ==> row.expiresAt - row.bannedAt == e.duration)
  {
    var t := Step(s, e);
    forall v, i | 0 <= v < |t.worlds| && 0 <= i < |Todo(t.worlds[v])| ensures ReadInv(t, Todo(t.worlds[v])[i]) {
      assert ReadInv(s, Todo(s.worlds[v])[i]);
    }
  }

  lemma SweepKeeps(s: State, e: Event)
    requires Inv(s) && e.Sweep?
    ensures Inv(Step(s, e))
  {
    var t := Step(s, e);
    ExpiredRowsAreRead(s, e.order);
    forall v, i | 0 <= v < |t.worlds| && 0 <= i < |Todo(t.worlds[v])| ensures ReadInv(t, Todo(t.worlds[v])[i]) {
      if t.worlds[v] == s.worlds[v] {
        assert ReadInv(s, Todo(s.worlds[v])[i]);
      }
    }
  }

  lemma CheckKeeps(s: State, e: Event)
    requires Inv(s) && (e.Check? || e.Crash?)
    ensures Inv(Step(s, e))
  {
    var t := Step(s, e);
    forall v, i | 0 <= v < |t.worlds| && 0 <= i < |Todo(t.worlds[v])| ensures ReadInv(t, Todo(t.worlds[v])[i]) {
      if t.worlds[v] == s.worlds[v] {
        assert ReadInv(s, Todo(s.worlds[v])[i]);
      }
    }
  }

  lemma TickKeeps(s: State, e: Event)
    requires Inv(s) && (e.Tick? || e.Lift?)
    ensures Inv(Step(s, e))
  {
    var t := Step(s, e);
    forall v, i | 0 <= v < |t.worlds| && 0 <= i < |Todo(t.worlds[v])| ensures ReadInv(t, Todo(t.worlds[v])[i]) {
      assert ReadInv(s, Todo(s.worlds[v])[i]);
    }
  }

  lemma StepKeeps(s: State, e: Event)
    requires Inv(s)
    ensures Inv(Step(s, e))
  {
    match e
    case Issue(_, _, _, _) => IssueKeeps(s, e);
    case Delete(w, answer) => if w < |s.worlds| && s.worlds[w].Retiring? { DeleteKeeps(s, w, answer); }
    case Record(w, answer) => if w < |s.worlds| && s.worlds[w].Recording? { RecordKeeps(s, w, answer); }
    case Sweep(_, _) => SweepKeeps(s, e);
    case Check(_, _) => CheckKeeps(s, e);
    case Crash(_) => CheckKeeps(s, e);
    case Tick(_) => TickKeeps(s, e);
    case Lift(_) => TickKeeps(s, e);
  }

  lemma {:induction false} ExecKeeps(worlds: nat, events: seq<Event>)
    ensures Inv(Exec(worlds, events))
  {
    if events != [] {
      ExecKeeps(worlds, events[..|events| - 1]);
      StepKeeps(Exec(worlds, events[..|events| - 1]), events[|events| - 1]);
    }
  }

  // --------------------------------------------------------------------------------
  // What holds in every run
  // --------------------------------------------------------------------------------

  function RowsOf(history: seq<Row>): set<Row> {
    set row | row in history
  }

  /** Something counted at each event of a run. */
  function Total(count: (State, Event) -> nat, worlds: nat, events: seq<Event>): nat {
    if events == [] then 0
    else
      var before := events[..|events| - 1];
      Total(count, worlds, before) + count(Exec(worlds, before), events[|events| - 1])
  }

  /** An INSERT is applied although an earlier sending of it was: its answer had been lost. */
  function Reapplies(s: State, e: Event): nat {
    if e.Record? && e.world < |s.worlds| && s.worlds[e.world].Recording? && s.worlds[e.world].written && Applied(e.answer)
    then 1 else 0
  }

  /** A deleted row loses its last chance of a history row: a lost answer, a failed INSERT or a crash. */
  function Drops(s: State, e: Event): nat {
    match e
    case Delete(w, answer) =>
      if w < |s.worlds| && s.worlds[w].Retiring? && s.worlds[w].todo != [] && answer == Lost(true)
         && Matches(s.bans, s.worlds[w].todo[0]) then 1 else 0
    case Record(w, answer) => if w < |s.worlds| && Awaits(s.worlds[w]) && answer.Failed? then 1 else 0
    case Crash(w) => if w < |s.worlds| && Awaits(s.worlds[w]) then 1 else 0
    case _ => 0
  }

  /** The world is about to write a history row that is not written yet. */
  predicate Awaits(w: World) {
    w.Recording? && !w.written
  }

  function Awaiting(worlds: seq<World>): nat {
    if worlds == [] then 0
    else Awaiting(worlds[..|worlds| - 1]) + (if Awaits(worlds[|worlds| - 1]) then 1 else 0)
  }

  lemma {:induction false} AwaitingNext(worlds: seq<World>, w: nat, world: World)
    requires w < |worlds|
    ensures Awaiting(worlds[w := world]) + (if Awaits(worlds[w]) then 1 else 0)
            == Awaiting(worlds) + (if Awaits(world) then 1 else 0)
  {
    var n := |worlds| - 1;
    if w == n {
      assert worlds[w := world][..n] == worlds[..n];
    } else {
      assert worlds[w := world][..n] == worlds[..n][w := world];
      AwaitingNext(worlds[..n], w, world);
    }
  }

  lemma {:induction false} NoneAwait(worlds: seq<World>)
    requires forall w :: 0 <= w < |worlds| ==> worlds[w].Idle?
    ensures Awaiting(worlds) == 0
  {
    if worlds != [] {
      NoneAwait(worlds[..|worlds| - 1]);
    }
  }

  lemma RowsOfMore(history: seq<Row>, row: Row)
    ensures RowsOf(history + [row]) == RowsOf(history) + {row}
  {
  }

  lemma OneMore(rows: set<Row>, row: Row)
    ensures |rows + {row}| == |rows| + (if row in rows then 0 else 1)
  {
    if row in rows {
      assert rows + {row} == rows;
    }
  }

  lemma DeleteCounts(s: State, w: nat, answer: Answer)
    requires Inv(s) && w < |s.worlds| && s.worlds[w].Retiring?
    ensures var t := DeleteNext(s, w, answer);
            t.history == s.history
            && |t.deleted| + Awaiting(s.worlds) == |s.deleted| + Awaiting(t.worlds) + Drops(s, Delete(w, answer))
  {
    AwaitingNext(s.worlds, w, DeleteNext(s, w, answer).worlds[w]);
    var todo := s.worlds[w].todo;
    if todo != [] && Matches(s.bans, todo[0]) {
      var row := s.bans[todo[0].account];
      OneMore(s.deleted, row);
    }
  }

  lemma RecordCounts(s: State, w: nat, answer: Answer)
    requires Inv(s) && w < |s.worlds| && s.worlds[w].Recording?
    ensures var t := RecordRow(s, w, answer);
            && |t.history| + |RowsOf(s.history)| == |s.history| + |RowsOf(t.history)| + Reapplies(s, Record(w, answer))
            && |RowsOf(s.history)| + Awaiting(s.worlds)
               == |RowsOf(t.history)| + Awaiting(t.worlds) + Drops(s, Record(w, answer))
  {
    AwaitingNext(s.worlds, w, RecordRow(s, w, answer).worlds[w]);
    RowsOfMore(s.history, s.worlds[w].row);
    OneMore(RowsOf(s.history), s.worlds[w].row);
  }

  lemma StepCounts(s: State, e: Event)
    requires Inv(s)
    ensures var t := Step(s, e);
            && |t.history| + |RowsOf(s.history)| == |s.history| + |RowsOf(t.history)| + Reapplies(s, e)
            && |t.deleted| + |RowsOf(s.history)| + Awaiting(s.worlds)
               == |s.deleted| + |RowsOf(t.history)| + Awaiting(t.worlds) + Drops(s, e)
  {
    if e.Delete? && e.world < |s.worlds| && s.worlds[e.world].Retiring? {
      DeleteCounts(s, e.world, e.answer);
    } else if e.Record? && e.world < |s.worlds| && s.worlds[e.world].Recording? {
      RecordCounts(s, e.world, e.answer);
    } else if (e.Check? || e.Sweep? || e.Crash?) && e.world < |s.worlds| {
      AwaitingNext(s.worlds, e.world, Step(s, e).worlds[e.world]);
      assert Step(s, e).worlds == s.worlds[e.world := Step(s, e).worlds[e.world]];
    }
  }

  /**
   Over every run: each history row comes from a deleted row, and beyond one each there are as many as
   INSERTs were applied again; and each deleted row is recorded, about to be, or dropped.
   */
  lemma {:induction false} HistoryCounted(worlds: nat, events: seq<Event>)
    ensures var s := Exec(worlds, events);
            && RowsOf(s.history) <= s.deleted
            && |s.history| == |RowsOf(s.history)| + Total(Reapplies, worlds, events)
            && |s.deleted| == |RowsOf(s.history)| + Awaiting(s.worlds) + Total(Drops, worlds, events)
  {
    ExecKeeps(worlds, events);
    if events == [] {
      NoneAwait(Init(worlds).worlds);
    } else {
      var before := events[..|events| - 1];
      HistoryCounted(worlds, before);
      ExecKeeps(worlds, before);
      StepCounts(Exec(worlds, before), events[|events| - 1]);
    }
  }

  lemma {:induction false} NoRepeats(rows: seq<Row>)
    ensures |RowsOf(rows)| <= |rows|
    ensures |RowsOf(rows)| == |rows| <==> forall i, j :: 0 <= i < j < |rows| ==> rows[i] != rows[j]
  {
    if rows != [] {
      var n := |rows| - 1;
      NoRepeats(rows[..n]);
      RowsOfMore(rows[..n], rows[n]);
      assert rows == rows[..n] + [rows[n]];
    }
  }

  /** No two history rows come from one deleted row if and only if no INSERT was applied again. */
  lemma OneHistoryRowEach(worlds: nat, events: seq<Event>)
    ensures var s := Exec(worlds, events);
            (forall i, j :: 0 <= i < j < |s.history| ==> s.history[i].serial != s.history[j].serial)
            <==> Total(Reapplies, worlds, events) == 0
  {
    var s := Exec(worlds, events);
    ExecKeeps(worlds, events);
    HistoryCounted(worlds, events);
    NoRepeats(s.history);
  }

  /** An INSERT whose answer is lost, and its second sending: the row is recorded twice. */
  lemma ResentInsertRepeats(s: State, w: nat)
    requires w < |s.worlds| && Awaits(s.worlds[w])
    ensures var row := s.worlds[w].row;
            Step(Step(s, Record(w, Lost(true))), Record(w, Done)).history == s.history + [row, row]
  {
  }

  /** A DELETE whose answer is lost, and its second sending: the table loses the row once, and no world records it. */
  lemma ResentDeleteFindsNothing(s: State, w: nat)
    requires Inv(s) && w < |s.worlds| && s.worlds[w].Retiring? && s.worlds[w].todo != []
    requires Matches(s.bans, s.worlds[w].todo[0])
    ensures var row := s.worlds[w].todo[0];
            var t := Step(Step(s, Delete(w, Lost(true))), Delete(w, Done));
            && t.bans == s.bans - {row.account} && t.history == s.history
            && t.worlds == s.worlds[w := Retiring(s.worlds[w].todo[1..])]
            && Unrecorded(t, row)
  {
    assert ReadInv(s, Todo(s.worlds[w])[0]);
  }

  /** A deleted row that is not recorded and that no world will record. */
  ghost predicate Unrecorded(s: State, row: Row) {
    && row in s.deleted && row !in s.history
    && (forall w :: 0 <= w < |s.worlds| && s.worlds[w].Recording? ==> s.worlds[w].row != row)
  }

  lemma UnrecordedStep(s: State, e: Event, row: Row)
    requires Inv(s) && Unrecorded(s, row)
    ensures Unrecorded(Step(s, e), row)
  {
    if e.Delete? && e.world < |s.worlds| && Todo(s.worlds[e.world]) != [] {
      assert ReadInv(s, Todo(s.worlds[e.world])[0]);
    }
  }

  /** Such a row stays without a history row for good. */
  lemma {:induction false} StaysUnrecorded(worlds: nat, events: seq<Event>, more: seq<Event>, row: Row)
    requires Unrecorded(Exec(worlds, events), row)
    ensures Unrecorded(Exec(worlds, events + more), row)
  {
    if more == [] {
      assert events + more == events;
    } else {
      var before, e := more[..|more| - 1], more[|more| - 1];
      StaysUnrecorded(worlds, events, before, row);
      ExecKeeps(worlds, events + before);
      assert (events + more)[..|events + more| - 1] == events + before;
      UnrecordedStep(Exec(worlds, events + before), e, row);
    }
  }

  /** A ban of one second, noticed by the one world after it has run out: the way to either resend. */
  const NOTICED: seq<Event> := [Issue(0, "", "", 1), Tick(2), Check(0, 0)]

  const FIRST: Row := Row(0, "", "", 0, 1, 0)

  lemma ExecMore(worlds: nat, events: seq<Event>, e: Event)
    ensures Exec(worlds, events + [e]) == Step(Exec(worlds, events), e)
  {
    assert (events + [e])[..|events|] == events;
  }

  lemma Noticed()
    ensures var s := Exec(1, NOTICED);
            s.bans == map[0 := FIRST] && s.worlds == [Retiring([FIRST])] && s.history == [] && s.deleted == {}
  {
    ExecMore(1, [], Issue(0, "", "", 1));
    ExecMore(1, [Issue(0, "", "", 1)], Tick(2));
    ExecMore(1, [Issue(0, "", "", 1), Tick(2)], Check(0, 0));
    assert [] + [Issue(0, "", "", 1)] == [Issue(0, "", "", 1)];
    assert [Issue(0, "", "", 1)] + [Tick(2)] == [Issue(0, "", "", 1), Tick(2)];
    assert [Issue(0, "", "", 1), Tick(2)] + [Check(0, 0)] == NOTICED;
  }

  /** A run in which an INSERT is applied, its answer lost, and the row recorded twice. */
  lemma RepeatReached()
    ensures Exec(1, NOTICED + [Delete(0, Done)] + [Record(0, Lost(true))] + [Record(0, Done)]).history == [FIRST, FIRST]
  {
    Noticed();
    ExecMore(1, NOTICED, Delete(0, Done));
    ExecMore(1, NOTICED + [Delete(0, Done)], Record(0, Lost(true)));
    ExecMore(1, NOTICED + [Delete(0, Done)] + [Record(0, Lost(true))], Record(0, Done));
    var s := Exec(1, NOTICED + [Delete(0, Done)]);
    assert [FIRST][1..] == [] && s.worlds == [Recording(FIRST, [], false)] && s.history == [];
    ResentInsertRepeats(s, 0);
    assert [] + [FIRST, FIRST] == [FIRST, FIRST];
  }

  /** A run in which a DELETE is applied and its answer lost, and the row is in neither table for good. */
  lemma LossReached(more: seq<Event>)
    ensures var events := NOTICED + [Delete(0, Lost(true))] + [Delete(0, Done)];
            Exec(1, events).bans == map[] && Exec(1, events).history == [] && FIRST !in Exec(1, events + more).history
  {
    Noticed();
    ExecKeeps(1, NOTICED);
    ExecMore(1, NOTICED, Delete(0, Lost(true)));
    ExecMore(1, NOTICED + [Delete(0, Lost(true))], Delete(0, Done));
    ResentDeleteFindsNothing(Exec(1, NOTICED), 0);
    StaysUnrecorded(1, NOTICED + [Delete(0, Lost(true))] + [Delete(0, Done)], more, FIRST);
  }

  /** No world's step removes a ban that has not expired, and what it removes is the row it had read. */
  lemma OnlyExpiredRetired(worlds: nat, events: seq<Event>, e: Event, account: nat)
    requires !e.Issue? && !e.Lift? && account in Exec(worlds, events).bans
    ensures var s, t := Exec(worlds, events), Step(Exec(worlds, events), e);
            var row := s.bans[account];
            if account in t.bans then t.bans[account] == row
            else 0 < row.expiresAt <= s.now && e.Delete? && Todo(s.worlds[e.world])[..1] == [row]
  {
    ExecKeeps(worlds, events);
    var s := Exec(worlds, events);
    if e.Delete? && e.world < |s.worlds| && Todo(s.worlds[e.world]) != [] {
      assert ReadInv(s, Todo(s.worlds[e.world])[0]);
    }
  }

  // --------------------------------------------------------------------------------
  // What a world reads, and that it gets through
  // --------------------------------------------------------------------------------

  lemma {:induction false} ExpiredRowsExactly(bans: map<nat, Row>, now: nat, order: seq<nat>, row: Row)
    ensures row in ExpiredRows(bans, now, order) <==>
              exists i :: 0 <= i < |order| && order[i] in bans && bans[order[i]] == row && row.expiresAt != 0 && row.expiresAt <= now
  {
    if order != [] {
      var n := |order| - 1;
      ExpiredRowsExactly(bans, now, order[..n], row);
      if i :| 0 <= i < n && order[i] in bans && bans[order[i]] == row && row.expiresAt != 0 && row.expiresAt <= now {
        assert order[..n][i] == order[i];
      }
    }
  }

  /** A check takes up a ban behind the second of its expiry, a sweep in that second already; neither one without an end. */
  lemma TakenUpExactly(s: State, w: nat, a: nat)
    requires w < |s.worlds| && s.worlds[w].Idle? && a in s.bans
    ensures var e := s.bans[a].expiresAt;
            && Step(s, Check(w, a)) == (if e != 0 && e < s.now then s.(worlds := s.worlds[w := Retiring([s.bans[a]])]) else s)
            && (s.bans[a] in Todo(Step(s, Sweep(w, [a])).worlds[w]) <==> e != 0 && e <= s.now)
  {
    ExpiredRowsExactly(s.bans, s.now, [a], s.bans[a]);
    assert [a][0] == a;
  }

  /** A DELETE and an INSERT, each answered; the INSERT is not sent where nothing was deleted. */
  function Retire(s: State, w: nat): State {
    Step(Step(s, Delete(w, Done)), Record(w, Done))
  }

  function RetireAll(s: State, w: nat, n: nat): State
    decreases n
  {
    if n == 0 then s else RetireAll(Retire(s, w), w, n - 1)
  }

  /** One row of a world whose statements are answered: it moves if the table still has it as it was read. */
  lemma RowRetired(s: State, w: nat, row: Row, rest: seq<Row>)
    requires w < |s.worlds| && s.worlds[w] == Retiring([row] + rest)
    ensures var t := Retire(s, w);
            && t.worlds == s.worlds[w := Retiring(rest)] && t.now == s.now
            && if row.account in s.bans && s.bans[row.account].bannedAt == row.bannedAt && s.bans[row.account].expiresAt == row.expiresAt
               then t.bans == s.bans - {row.account} && t.history == s.history + [row]
               else t.bans == s.bans && t.history == s.history
  {
    var u := Step(s, Delete(w, Done));
    assert ([row] + rest)[1..] == rest;
    assert u.worlds[w := Retiring(rest)] == s.worlds[w := Retiring(rest)];
  }

  /** The rows in hand that the table has as they were read. */
  ghost predicate InHand(s: State, todo: seq<Row>) {
    && (forall a :: a in s.bans ==> s.bans[a].account == a)
    && forall i :: 0 <= i < |todo| && Matches(s.bans, todo[i]) ==> s.bans[todo[i].account] == todo[i]
  }

  /** Exactly the rows in hand leave the table, and each of them is recorded once. */
  ghost predicate Moved(s: State, todo: seq<Row>, t: State) {
    && (forall a :: a in t.bans <==> a in s.bans && s.bans[a] !in todo)
    && (forall a :: a in t.bans ==> t.bans[a] == s.bans[a])
    && (forall row :: multiset(t.history)[row]
                      == multiset(s.history)[row] + if row in todo && row.account in s.bans && s.bans[row.account] == row then 1 else 0)
  }

  lemma {:induction false} RowsRetired(s: State, w: nat, todo: seq<Row>)
    requires w < |s.worlds| && s.worlds[w] == Retiring(todo) && InHand(s, todo)
    ensures RetireAll(s, w, |todo|).worlds == s.worlds[w := Retiring([])] && Moved(s, todo, RetireAll(s, w, |todo|))
    decreases |todo|
  {
    if todo == [] {
      assert RetireAll(s, w, 0) == s;
    } else {
      var row, rest, u := todo[0], todo[1..], Retire(s, w);
      assert todo == [row] + rest;
      RowRetired(s, w, row, rest);
      assert InHand(u, rest) by {
        forall i | 0 <= i < |rest| && Matches(u.bans, rest[i]) ensures u.bans[rest[i].account] == rest[i] {
          assert rest[i] == todo[i + 1] && Matches(s.bans, todo[i + 1]);
        }
      }
      RowsRetired(u, w, rest);
      MovedOn(s, row, rest, u, RetireAll(u, w, |rest|));
      assert RetireAll(s, w, |todo|) == RetireAll(u, w, |rest|);
    }
  }

  lemma MovedOn(s: State, row: Row, rest: seq<Row>, u: State, t: State)
    requires InHand(s, [row] + rest) && Moved(u, rest, t)
    requires if Matches(s.bans, row) then u.bans == s.bans - {row.account} && u.history == s.history + [row]
             else u.bans == s.bans && u.history == s.history
    ensures Moved(s, [row] + rest, t)
  {
    assert ([row] + rest)[0] == row;
    forall r ensures r in [row] + rest <==> r == row || r in rest {
    }
    assert multiset(s.history + [row]) == multiset(s.history) + multiset{row};
  }

  /** The rows that a sweep holds are in hand, and they are the listed bans that are due. */
  lemma SweptInHand(s: State, w: nat, order: seq<nat>)
    requires Inv(s) && w < |s.worlds| && s.worlds[w].Idle?
    ensures InHand(s, ExpiredRows(s.bans, s.now, order))
    ensures forall a :: a in s.bans ==>
              (s.bans[a] in ExpiredRows(s.bans, s.now, order)
               <==> a in order && s.bans[a].expiresAt != 0 && s.bans[a].expiresAt <= s.now)
  {
    ExpiredRowsAreRead(s, order);
    forall a | a in s.bans
      ensures s.bans[a] in ExpiredRows(s.bans, s.now, order)
              <==> a in order && s.bans[a].expiresAt != 0 && s.bans[a].expiresAt <= s.now
    {
      ExpiredRowsExactly(s.bans, s.now, order, s.bans[a]);
    }
  }

  lemma SweepStep(s: State, w: nat, order: seq<nat>)
    requires w < |s.worlds| && s.worlds[w].Idle?
    ensures Step(s, Sweep(w, order)) == s.(worlds := s.worlds[w := Retiring(ExpiredRows(s.bans, s.now, order))])
  {
  }

  lemma LastDelete(v: State, w: nat)
    requires w < |v.worlds| && v.worlds[w] == Retiring([])
    ensures Step(v, Delete(w, Done)) == v.(worlds := v.worlds[w := Idle])
  {
  }

  /** From the rows in hand to an idle world, whatever the world was before. */
  lemma RowsFinish(s: State, u: State, w: nat, todo: seq<Row>)
    requires w < |s.worlds| && s.worlds[w].Idle? && InHand(s, todo) && u == s.(worlds := s.worlds[w := Retiring(todo)])
    ensures var t := Step(RetireAll(u, w, |todo|), Delete(w, Done));
            t.worlds == s.worlds && Moved(s, todo, t)
  {
    assert InHand(u, todo);
    RowsRetired(u, w, todo);
    var v := RetireAll(u, w, |todo|);
    LastDelete(v, w);
    assert v.worlds[w := Idle] == s.worlds;
  }

  /**
   A sweep gets through: with every statement answered, two steps for each row that it read and one more leave the world
   idle, the table without the listed bans that were due and with every other one, and each of the former in the history
   once more, however often the sweep had it.
   */
  lemma SweepFinishes(worlds: nat, events: seq<Event>, w: nat, order: seq<nat>)
    requires w < |Exec(worlds, events).worlds| && Exec(worlds, events).worlds[w].Idle?
    ensures var s := Exec(worlds, events);
            var due := (a: nat) requires a in s.bans => a in order && s.bans[a].expiresAt != 0 && s.bans[a].expiresAt <= s.now;
            var t := Step(RetireAll(Step(s, Sweep(w, order)), w, |ExpiredRows(s.bans, s.now, order)|), Delete(w, Done));
            && t.worlds == s.worlds
            && (forall a :: a in t.bans <==> a in s.bans && !due(a))
            && (forall a :: a in t.bans ==> t.bans[a] == s.bans[a])
            && (forall a :: a in s.bans ==>
                  multiset(t.history)[s.bans[a]] == multiset(s.history)[s.bans[a]] + if due(a) then 1 else 0)
  {
    var s := Exec(worlds, events);
    ExecKeeps(worlds, events);
    SweptInHand(s, w, order);
    SweepStep(s, w, order);
    RowsFinish(s, Step(s, Sweep(w, order)), w, ExpiredRows(s.bans, s.now, order));
  }

  /** Two worlds that retire the same row: the second DELETE finds nothing, and nothing is recorded twice. */
  lemma SecondDeleteFindsNothing(s: State, v: nat, w: nat)
    requires Inv(s) && v < |s.worlds| && w < |s.worlds| && v != w
    requires s.worlds[v].Retiring? && s.worlds[w].Retiring?
    requires s.worlds[v].todo != [] && s.worlds[w].todo != [] && s.worlds[v].todo[0] == s.worlds[w].todo[0]
    ensures Step(Step(s, Delete(v, Done)), Delete(w, Done)).worlds[w] == Retiring(s.worlds[w].todo[1..])
  {
  }

  // --------------------------------------------------------------------------------
  // One world on its own
  // --------------------------------------------------------------------------------

  predicate Expired(row: Row, now: nat) {
    row.expiresAt != 0 && row.expiresAt <= now
  }

  /** What the login tells the player. */
  datatype BanInfo = BanInfo(expiresAt: nat, reason: string, bannedBy: string)

  function Without(bans: map<nat, Row>, rows: seq<Row>): map<nat, Row> {
    if rows == [] then bans else Without(bans, rows[..|rows| - 1]) - {rows[|rows| - 1].account}
  }

  lemma {:induction false} WithoutExact(bans: map<nat, Row>, rows: seq<Row>)
    ensures forall a :: a in Without(bans, rows) ==> a in bans && Without(bans, rows)[a] == bans[a]
    ensures forall a :: a in bans && a !in Without(bans, rows) ==> exists j :: 0 <= j < |rows| && rows[j].account == a
    ensures forall j :: 0 <= j < |rows| ==> rows[j].account !in Without(bans, rows)
  {
    if rows != [] {
      WithoutExact(bans, rows[..|rows| - 1]);
    }
  }

  /** The rows of a SELECT of the expired bans, each once, in any order. */
  ghost predicate Selected(bans: map<nat, Row>, rows: seq<Row>, now: nat) {
    && (forall i :: 0 <= i < |rows| ==> rows[i].account in bans && bans[rows[i].account] == rows[i] && Expired(rows[i], now))
    && (forall a :: a in bans && Expired(bans[a], now) ==> bans[a] in rows)
    && (forall i, j :: 0 <= i < j < |rows| ==> rows[i].account != rows[j].account)
  }

  lemma NextSelected(bans: map<nat, Row>, rows: seq<Row>, now: nat, i: nat)
    requires Selected(bans, rows, now) && i < |rows|
    ensures Matches(Without(bans, rows[..i]), rows[i])
    ensures Without(bans, rows[..i + 1]) == Without(bans, rows[..i]) - {rows[i].account}
  {
    WithoutExact(bans, rows[..i]);
    assert rows[..i + 1][..i] == rows[..i];
  }

  lemma AllSelected(bans: map<nat, Row>, rows: seq<Row>, now: nat)
    requires Selected(bans, rows, now) && forall a :: a in bans ==> bans[a].account == a
    ensures Without(bans, rows) == map a | a in bans && !(bans[a].expiresAt != 0 && bans[a].expiresAt <= now) :: bans[a]
  {
    WithoutExact(bans, rows);
  }

  /** The table and the history as one world finds them when nobody interferes and no statement fails. */
  class Database {
    var bans: map<nat, Row>
    var history: seq<Row>

    ghost predicate Keyed()
      reads this
    {
      forall a :: a in bans ==> bans[a].account == a
    }

    constructor ()
      ensures bans == map[] && history == []
    {
      bans, history := map[], [];
    }

    method RetireExpiredBan(ban: Row)
      modifies this
      ensures bans == if old(Matches(bans, ban)) then old(bans) - {ban.account} else old(bans)
      ensures history == if old(Matches(bans, ban)) then old(history) + [ban] else old(history)
    {
      var affectedRows := if Matches(bans, ban) then 1 else 0;
      if affectedRows == 1 {
        bans := bans - {ban.account};
      }
      if affectedRows != 1 {
        return;
      }
      history := history + [ban];
    }

    /**
     A ban counts through the second in which it expires, and is retired when it is found expired;
     the caller's information is filled in for a ban that counts, and left alone otherwise.
     */
    method IsAccountBanned(account: nat, now: nat, banInfo: BanInfo) returns (banned: bool, banInfo': BanInfo)
      requires Keyed()
      modifies this
      ensures banned <==> account in old(bans) && !(old(bans[account]).expiresAt != 0 && now > old(bans[account]).expiresAt)
      ensures banInfo' == if banned then BanInfo(old(bans[account]).expiresAt, old(bans[account]).reason, old(bans[account]).bannedBy)
                          else banInfo
      ensures banned || account !in old(bans) ==> bans == old(bans) && history == old(history)
      ensures !banned && account in old(bans) ==>
                bans == old(bans) - {account} && history == old(history) + [old(bans[account])]
    {
      banInfo' := banInfo;
      if account !in bans {
        return false, banInfo';
      }
      var expiresAt := bans[account].expiresAt;
      if expiresAt != 0 && now > expiresAt {
        RetireExpiredBan(bans[account]);
        return false, banInfo';
      }
      return true, BanInfo(expiresAt, bans[account].reason, bans[account].bannedBy);
    }

    /** Every row is read before the first DELETE. */
    static method ReadAll(result: seq<Row>) returns (expiredBans: seq<Row>)
      ensures expiredBans == result
    {
      expiredBans := [];
      for n := 0 to |result|
        invariant expiredBans == result[..n]
      {
        expiredBans := expiredBans + [result[n]];
      }
    }

    /** A sweep leaves exactly the bans that have not expired, and records each of the others once. */
    method SweepExpiredAccountBans(now: nat, result: seq<Row>)
      requires Keyed() && Selected(bans, result, now)
      modifies this
      ensures history == old(history) + result
      ensures bans == map a | a in old(bans) && !(old(bans)[a].expiresAt != 0 && old(bans)[a].expiresAt <= now) :: old(bans)[a]
    {
      var expiredBans := ReadAll(result);
      var i := 0;
      while i < |expiredBans|
        invariant i <= |expiredBans| && expiredBans == result
        invariant history == old(history) + result[..i] && bans == Without(old(bans), result[..i])
      {
        NextSelected(old(bans), result, now, i);
        RetireExpiredBan(expiredBans[i]);
        i := i + 1;
      }
      assert result[..i] == result;
      AllSelected(old(bans), result, now);
    }
  }
}
