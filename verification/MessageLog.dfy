/**
 The message log: an id counter persisted before a message is published, a ring with the newest
 messages, and the replay of the ring to a joining client.
 */
module MessageLog {
  import opened ChatTypes
  import opened Json
  import opened MessageIdStore
  import opened Arithmetic

  datatype Message = Message(id: nat, payload: Fields)

  /** The fields of the context that the log owns, and the flash behind them. */
  datatype LogState = LogState(
    buffer: seq<Option<Message>>,
    head: nat,
    counter: nat,
    counterValid: bool,
    bootStart: nat,
    cell: Cell)

  datatype StoreResult = Stored(message: Message) | IdExhausted | NotLoaded | NoMemory | NotPersisted

  /** What the environment decides during one store. */
  datatype StoreEnv = StoreEnv(read: ReadFaults, reload: WriteFaults, write: WriteFaults, allocOk: bool, timestamp: int)

  function EnsureIds(s: LogState, read: ReadFaults, reload: WriteFaults): (LogState, bool) {
    if s.counterValid then (s, true)
    else
      var (cell, state) := Load(s.cell, read, reload);
      if !state.loaded then (s.(cell := cell), false)
      else (s.(cell := cell, counter := state.currentId, bootStart := state.bootStart, counterValid := true), true)
  }

  /** The client's own id and timestamp give way to the server's. */
  function Finalize(root: Fields, id: nat, timestamp: int): Fields {
    (root - {"id", "timestamp"})["id" := Num(id)]["timestamp" := Num(timestamp)]
  }

  function Publish(s: LogState, m: Message): LogState
    requires s.head < |s.buffer|
  {
    s.(buffer := s.buffer[s.head := Some(m)], head := (s.head + 1) % |s.buffer|, counter := m.id)
  }

  function Store(s: LogState, root: Fields, env: StoreEnv): (r: (LogState, StoreResult))
    requires s.head < |s.buffer|
    ensures r.0.head < |r.0.buffer| == |s.buffer|
    ensures s.counterValid ==> r.0.counterValid && s.counter <= r.0.counter
  {
    var (s1, ready) := EnsureIds(s, env.read, env.reload);
    if !ready then (s1, NotLoaded)
    else if s1.counter >= MAX_SAFE_ID then (s1, IdExhausted)
    else if !env.allocOk then (s1, NoMemory)
    else
      var id := s1.counter + 1;
      var (cell, ok) := Persist(s1.cell, id, env.write);
      var s2 := s1.(cell := cell);
      if !ok then (s2, NotPersisted)
      else
        var m := Message(id, Finalize(root, id, env.timestamp));
        (Publish(s2, m), Stored(m))
  }

  // ---- The abstract log ----

  /** The newest messages of a log, as many as the ring holds. */
  function Newest(log: seq<Message>, size: nat): seq<Message> {
    log[|log| - Min(|log|, size)..]
  }

  /** The ids of a log are consecutive and start right after `base`. */
  predicate Consecutive(log: seq<Message>, base: nat) {
    forall k :: 0 <= k < |log| ==> log[k].id == base + 1 + k
  }

  predicate SlotHolds(slot: Option<Message>, j: nat, size: nat, base: nat, log: seq<Message>)
    requires size > 0
  {
    var kept := Min(|log|, size);
    if j >= kept then slot.None?
    else
      && slot.Some?
      && var k := slot.value.id - base - 1;
         |log| - kept <= k < |log| && k % size == j && slot.value == log[k]
  }

  /** The ring holds the newest messages of the append-only `log` stored since the counter was `base`. */
  ghost predicate Refines(s: LogState, base: nat, log: seq<Message>) {
    var size := |s.buffer|;
    && size > 0
    && s.head == |log| % size
    && s.counter == base + |log|
    && Consecutive(log, base)
    && (forall j :: 0 <= j < size ==> SlotHolds(s.buffer[j], j, size, base, log))
    && (forall k :: |log| - Min(|log|, size) <= k < |log| ==> s.buffer[k % size] == Some(log[k]))
  }

  /** Publishing the next message keeps the refinement: the log grows by it and the ring drops its oldest. */
  lemma PublishRefines(s: LogState, base: nat, log: seq<Message>, m: Message)
    requires Refines(s, base, log) && m.id == s.counter + 1
    ensures s.head < |s.buffer| && Refines(Publish(s, m), base, log + [m])
  {
    var size, n := |s.buffer|, |log|;
    var after, log' := Publish(s, m), log + [m];
    ModSuccessor(n, size);
    forall j | 0 <= j < size ensures SlotHolds(after.buffer[j], j, size, base, log') {
      assert SlotHolds(s.buffer[j], j, size, base, log);
      PublishKeepsSlot(s, base, log, m, j);
    }
    forall k | n + 1 - Min(n + 1, size) <= k < n + 1 ensures after.buffer[k % size] == Some(log'[k]) {
      if k < n {
        ModDistinct(k, n, size);
      }
    }
  }

  lemma PublishKeepsSlot(s: LogState, base: nat, log: seq<Message>, m: Message, j: nat)
    requires Refines(s, base, log) && m.id == s.counter + 1 && j < |s.buffer|
    ensures SlotHolds(Publish(s, m).buffer[j], j, |s.buffer|, base, log + [m])
  {
    var size, n := |s.buffer|, |log|;
    assert SlotHolds(s.buffer[j], j, size, base, log);
    if n < size {
      ModUnique(n, size, 0, n);
    } else {
      ModShift(n - size, size);
    }
  }

  function Kept(s: LogState, base: nat): nat
    requires s.counter >= base
  {
    Min(s.counter - base, |s.buffer|)
  }

  /** The smallest id in the ring; one past the counter when the ring is empty. */
  function Earliest(s: LogState, base: nat): nat
    requires s.counter >= base
  {
    s.counter - Kept(s, base) + 1
  }

  /** Whether the ring holds a message with this id. */
  predicate InRing(s: LogState, base: nat, id: nat)
    requires s.counter >= base
  {
    Earliest(s, base) <= id <= s.counter
  }

  datatype Bounds = Bounds(bootStart: nat, current: nat, earliest: nat, latest: nat, restoreBefore: nat, count: nat)

  /** The bounds the scan of a ring should find. */
  function BoundsOf(s: LogState, base: nat): Bounds
    requires s.counter >= base
  {
    var count := Kept(s, base);
    if count > 0
    then Bounds(s.bootStart, s.counter, Earliest(s, base), s.counter, Earliest(s, base), count)
    else Bounds(s.bootStart, s.counter, 0, 0, s.bootStart, 0)
  }

  // ---- Replay ----

  datatype ReplayResult = ReplayOk | ReplayNoMemory | ReplaySendFailed

  /** One turn of the replay loop: allocation, the send, and the stores that happen before the next turn. */
  datatype Turn = Turn(allocOk: bool, sendOk: bool, during: seq<(Fields, StoreEnv)>)

  /** The log after some stores in a row. */
  function StoreAll(s: LogState, stores: seq<(Fields, StoreEnv)>): (r: LogState)
    requires s.head < |s.buffer|
    ensures r.head < |r.buffer| == |s.buffer|
    ensures s.counterValid ==> r.counterValid && s.counter <= r.counter
  {
    if stores == [] then s
    else
      var last := |stores| - 1;
      Store(StoreAll(s, stores[..last]), stores[last].0, stores[last].1).0
  }

  /** The log when turn `i` of a replay begins that started in `s`: the turns before have let their stores in. */
  function AtTurn(s: LogState, turns: nat -> Turn, i: nat): (r: LogState)
    requires s.head < |s.buffer|
    ensures r.head < |r.buffer| == |s.buffer|
    ensures s.counterValid ==> r.counterValid && s.counter <= r.counter
  {
    if i == 0 then s else StoreAll(AtTurn(s, turns, i - 1), turns(i - 1).during)
  }

  /** Where a replay starts: the state of the log, the id its counter had at `base`, and the turns to come. */
  datatype Setting = Setting(start: LogState, base: nat, turns: nat -> Turn)

  predicate Usable(r: Setting) {
    r.start.head < |r.start.buffer| && r.start.counterValid && r.base <= r.start.counter
  }

  /** The smallest id in the ring when turn `i` begins. */
  function EarliestAt(r: Setting, i: nat): nat
    requires Usable(r)
  {
    Earliest(AtTurn(r.start, r.turns, i), r.base)
  }

  /** The cursor when turn `i` starts. */
  function CursorAt(since: nat, sent: seq<Message>, i: nat): nat
    requires i <= |sent|
  {
    if i == 0 then since else sent[i - 1].id
  }

  /** Turn `i` came to ids after its cursor when the ring had already dropped `id`. */
  ghost predicate EvictedBeforeTurn(id: nat, since: nat, sent: seq<Message>, r: Setting)
    requires Usable(r)
  {
    exists i :: 0 <= i <= |sent| && CursorAt(since, sent, i) < id < EarliestAt(r, i)
  }

  ghost predicate WasSent(id: nat, sent: seq<Message>) {
    exists i :: 0 <= i < |sent| && sent[i].id == id
  }

  /** The messages in the ring after `since`, oldest first. */
  function Replayed(log: seq<Message>, size: nat, base: nat, since: nat): seq<Message> {
    log[Min(|log|, Max(since - Min(since, base), |log| - Min(|log|, size)))..]
  }

  /** Ascending ids that leave no id out after `lo` are consecutive. */
  lemma {:induction false} NoneLeftOut(sent: seq<Message>, lo: nat, i: nat)
    requires i < |sent| && forall j, k :: 0 <= j < k < |sent| ==> sent[j].id < sent[k].id
    requires forall j :: 0 <= j < |sent| ==> lo <= sent[j].id
    requires forall id :: lo <= id <= sent[|sent| - 1].id ==> WasSent(id, sent)
    ensures sent[i].id == lo + i
  {
    if i > 0 {
      NoneLeftOut(sent, lo, i - 1);
    }
    var last := |sent| - 1;
    assert sent[i].id <= sent[last].id;
    assert WasSent(lo + i, sent);
    var j :| 0 <= j < |sent| && sent[j].id == lo + i;
    if j < i {
      NoneLeftOut(sent, lo, j);
    }
  }

  /** The ids of `sent` run from `lo` upwards without a gap. */
  ghost predicate Gapless(sent: seq<Message>, lo: nat) {
    && (forall j, k :: 0 <= j < k < |sent| ==> sent[j].id < sent[k].id)
    && (forall j :: 0 <= j < |sent| ==> lo <= sent[j].id)
    && (sent != [] ==> forall id :: lo <= id <= sent[|sent| - 1].id ==> WasSent(id, sent))
  }

  lemma GaplessIsPrefix(sent: seq<Message>, all: seq<Message>, lo: nat)
    requires lo > 0 && Gapless(sent, lo) && Consecutive(all, lo - 1)
    requires forall i :: 0 <= i < |sent| ==> sent[i] in all
    ensures sent <= all
  {
    forall i | 0 <= i < |sent| ensures i < |all| && sent[i] == all[i] {
      NoneLeftOut(sent, lo, i);
      assert sent[i] in all;
      var k :| 0 <= k < |all| && all[k] == sent[i];
    }
    var last := |sent| - 1;
    if sent != [] {
      assert sent[last] in all;
      assert last < |all|;
    }
    assert sent == all[..|sent|];
  }

  lemma GaplessIsAll(sent: seq<Message>, all: seq<Message>, lo: nat)
    requires lo > 0 && Gapless(sent, lo) && Consecutive(all, lo - 1) && sent <= all
    requires all != [] ==> WasSent(lo + |all| - 1, sent)
    ensures sent == all
  {
    if all != [] {
      var i :| 0 <= i < |sent| && sent[i].id == lo + |all| - 1;
      NoneLeftOut(sent, lo, i);
    }
  }

  lemma ReplayedIsConsecutive(log: seq<Message>, size: nat, base: nat, since: nat)
    requires Consecutive(log, base)
    ensures var all, lo := Replayed(log, size, base, since), Max(since + 1, base + |log| - Min(|log|, size) + 1);
            && Consecutive(all, lo - 1)
            && (forall m :: m in log && lo <= m.id ==> m in all)
            && (forall m :: m in all ==> m in log && lo <= m.id)
            && (all != [] ==> lo + |all| - 1 == base + |log|)
  {
    var all, lo := Replayed(log, size, base, since), Max(since + 1, base + |log| - Min(|log|, size) + 1);
    var start := |log| - |all|;
    assert all == log[start..];
    forall m | m in log && lo <= m.id ensures m in all {
      var k :| 0 <= k < |log| && log[k] == m;
      assert all[k - start] == m;
    }
  }

  /** Without interference the ring stays as it was. */
  lemma {:induction false} QuietTurns(s: LogState, turns: nat -> Turn, i: nat)
    requires s.head < |s.buffer| && forall t :: turns(t).during == []
    ensures AtTurn(s, turns, i) == s
  {
    if i > 0 {
      QuietTurns(s, turns, i - 1);
    }
  }

  lemma QuietEviction(r: Setting, since: nat, sent: seq<Message>, id: nat)
    requires Usable(r) && forall t :: r.turns(t).during == []
    requires Earliest(r.start, r.base) <= id
    ensures !EvictedBeforeTurn(id, since, sent, r)
  {
    forall i: nat ensures EarliestAt(r, i) == Earliest(r.start, r.base) {
      QuietTurns(r.start, r.turns, i);
    }
  }

  /** Without interference a replay sends a prefix of what the ring holds after `since`, and all of it on success. */
  lemma QuietReplay(r: Setting, since: nat, log: seq<Message>, result: ReplayResult, sent: seq<Message>)
    requires Usable(r) && Refines(r.start, r.base, log) && forall t :: r.turns(t).during == []
    requires Outcome(r, since, result, sent, log)
    ensures sent <= Replayed(log, |r.start.buffer|, r.base, since)
    ensures result.ReplayOk? ==> sent == Replayed(log, |r.start.buffer|, r.base, since)
  {
    var size, base := |r.start.buffer|, r.base;
    var lo := Max(since + 1, Earliest(r.start, base));
    var all := Replayed(log, size, base, since);
    ReplayedIsConsecutive(log, size, base, since);
    var until := if result.ReplayOk? then base + |log| else CursorAt(since, sent, |sent|);
    forall id | lo <= id <= until ensures WasSent(id, sent) {
      QuietEviction(r, since, sent, id);
    }
    forall i | 0 <= i < |sent| ensures lo <= sent[i].id {
      QuietTurns(r.start, r.turns, i);
    }
    assert Gapless(sent, lo);
    GaplessIsPrefix(sent, all, lo);
    if result.ReplayOk? {
      GaplessIsAll(sent, all, lo);
    }
  }

  /** The device's message log. `base` and `log` are its abstract contents. */
  class ServerLog {
    const buffer: array<Option<Message>>
    var head: nat
    var counter: nat
    var counterValid: bool
    var bootStart: nat
    const flash: Flash
    ghost var base: nat
    ghost var log: seq<Message>

    function State(): LogState
      reads this, buffer, flash
    {
      LogState(buffer[..], head, counter, counterValid, bootStart, flash.cell)
    }

    ghost predicate Valid()
      reads this, buffer, flash
    {
      Refines(State(), base, log) && (!counterValid ==> log == [])
    }

    /** Start-up: an empty ring and whatever state the flash yields. */
    constructor (size: nat, store: Flash, read: ReadFaults, write: WriteFaults)
      requires size > 0
      modifies store
      ensures Valid() && fresh(buffer) && flash == store && log == []
      ensures var (cell, state) := Load(old(store.cell), read, write);
              State() == LogState(seq(size, i => None), 0, state.currentId, state.loaded, state.bootStart, cell)
    {
      buffer := new Option<Message>[size](_ => None);
      flash := store;
      var state := store.LoadIds(read, write);
      head, counter, counterValid, bootStart := 0, state.currentId, state.loaded, state.bootStart;
      base, log := state.currentId, [];
      new;
      assert buffer[..] == seq(size, i => None);
    }

    method EnsureIdState(read: ReadFaults, reload: WriteFaults) returns (ok: bool)
      requires Valid()
      modifies this, flash
      ensures Valid() && log == old(log)
      ensures (State(), ok) == EnsureIds(old(State()), read, reload)
    {
      if counterValid {
        return true;
      }
      var state := flash.LoadIds(read, reload);
      if !state.loaded {
        return false;
      }
      counter := state.currentId;
      bootStart := state.bootStart;
      counterValid := true;
      base := state.currentId;
      return true;
    }

    /** Storing appends to the log exactly when it reports the message stored. */
    method FinalizeAndStore(root: Fields, env: StoreEnv) returns (result: StoreResult)
      requires Valid()
      modifies this, buffer, flash
      ensures Valid()
      ensures (State(), result) == Store(old(State()), root, env)
      ensures log == if result.Stored? then old(log) + [result.message] else old(log)
      ensures old(counterValid) ==> base == old(base)
    {
      var ready := EnsureIdState(env.read, env.reload);
      if !ready {
        return NotLoaded;
      }
      if counter >= MAX_SAFE_ID {
        return IdExhausted;
      }
      var id := counter + 1;
      if !env.allocOk {
        return NoMemory;
      }
      ghost var before := State();
      var ok := flash.PersistIds(id, env.write);
      if !ok {
        return NotPersisted;
      }
      var m := Message(id, Finalize(root, id, env.timestamp));
      Append(m);
      return Stored(m);
    }

    /** The ring step: overwrite the oldest slot and advance the head. */
    method Append(m: Message)
      requires Valid() && counterValid && m.id == counter + 1
      modifies this, buffer
      ensures Valid() && log == old(log) + [m] && base == old(base)
      ensures State() == Publish(old(State()), m)
    {
      ghost var before := State();
      PublishRefines(before, base, log, m);
      counter := m.id;
      buffer[head] := Some(m);
      head := (head + 1) % buffer.Length;
      log := log + [m];
      assert State() == Publish(before, m);
    }

    /** The bounds scan over the ring's slots. */
    method FillBounds() returns (b: Bounds)
      requires Valid()
      ensures b == BoundsOf(State(), base)
      ensures b.count == Min(|log|, buffer.Length)
    {
      var earliest, latest, count := 0, 0, 0;
      ghost var kept := Min(|log|, buffer.Length);
      for i := 0 to buffer.Length
        invariant count == Min(i, kept)
        invariant count == 0 ==> earliest == latest == 0
        invariant count > 0 ==> base + |log| - kept + 1 <= earliest && latest <= base + |log|
        invariant forall j :: 0 <= j < count ==> buffer[j].Some? && earliest <= buffer[j].value.id <= latest
      {
        assert SlotHolds(buffer[i], i, buffer.Length, base, log);
        if buffer[i].None? {
          continue;
        }
        var id := buffer[i].value.id;
        if count == 0 || id < earliest {
          earliest := id;
        }
        if id > latest {
          latest := id;
        }
        count := count + 1;
      }
      if count > 0 {
        ghost var oldest, newest := |log| - kept, |log| - 1;
        assert buffer[oldest % buffer.Length] == Some(log[oldest]);
        assert buffer[newest % buffer.Length] == Some(log[newest]);
        OccupiedSlot(oldest % buffer.Length);
        OccupiedSlot(newest % buffer.Length);
      }
      b := Bounds(bootStart, counter, earliest, latest, if count > 0 then earliest else bootStart, count);
    }

    lemma OccupiedSlot(j: nat)
      requires Valid() && j < buffer.Length && buffer[j].Some?
      ensures j < Min(|log|, buffer.Length)
    {
      assert SlotHolds(buffer[j], j, buffer.Length, base, log);
    }

    /** The locked section of a replay turn: the smallest id in the ring after the cursor. */
    method SelectNext(cursor: nat, until: nat) returns (next: Option<Message>)
      requires Valid() && until <= counter
      ensures var id := Max(cursor + 1, Earliest(State(), base));
              if id <= until then next == Some(log[id - base - 1]) && next.value.id == id else next.None?
    {
      next := None;
      ghost var kept := Min(|log|, buffer.Length);
      ghost var id := Max(cursor + 1, Earliest(State(), base));
      for i := 0 to buffer.Length
        invariant next.Some? ==> id <= next.value.id <= until
                                 && next.value.id - base - 1 < |log| && next.value == log[next.value.id - base - 1]
        invariant forall j :: 0 <= j < i && buffer[j].Some? && cursor < buffer[j].value.id <= until ==>
                                next.Some? && next.value.id <= buffer[j].value.id
      {
        assert SlotHolds(buffer[i], i, buffer.Length, base, log);
        var candidate := buffer[i];
        if candidate.Some? && candidate.value.id > cursor && candidate.value.id <= until &&
           (next.None? || candidate.value.id < next.value.id) {
          next := candidate;
        }
      }
      if id <= until {
        ghost var k := id - base - 1;
        assert buffer[k % buffer.Length] == Some(log[k]);
      }
    }

    /** Stores made while the replay does not hold the lock. */
    method Interfere(stores: seq<(Fields, StoreEnv)>)
      requires Valid() && counterValid
      modifies this, buffer, flash
      ensures Valid() && counterValid && base == old(base) && old(log) <= log
      ensures State() == StoreAll(old(State()), stores)
    {
      ghost var before := State();
      assert stores[..0] == [];
      for i := 0 to |stores|
        invariant Valid() && counterValid && base == old(base) && old(log) <= log
        invariant State() == StoreAll(before, stores[..i])
      {
        assert stores[..i + 1][..i] == stores[..i];
        var result := FinalizeAndStore(stores[i].0, stores[i].1);
      }
      assert stores[..|stores|] == stores;
    }

    /** After the send of a turn, until the lock is taken again: the send stands, whatever is stored meanwhile. */
    method Unlock(stores: seq<(Fields, StoreEnv)>, ghost r: Setting, ghost since: nat, ghost sent: seq<Message>,
                  ghost m: Message)
      requires Valid() && counterValid && m in log && Usable(r) && base == r.base
      requires stores == r.turns(|sent|).during && State() == AtTurn(r.start, r.turns, |sent|)
      requires Trace(r, since, sent, log)
      requires m.id == Max(CursorAt(since, sent, |sent|) + 1, EarliestAt(r, |sent|)) <= r.start.counter
      modifies this, buffer, flash
      ensures Valid() && counterValid && base == old(base) && old(log) <= log
      ensures State() == AtTurn(r.start, r.turns, |sent| + 1)
      ensures Trace(r, since, sent + [m], log)
    {
      ghost var before := log;
      TraceStep(r, since, sent, log, m);
      Interfere(stores);
      TraceGrows(r, since, sent + [m], before, log);
    }

    /**
     The replay to a joining client, with arbitrary stores between its locked sections. It sends
     messages of the log with strictly ascending ids in (since, until], where `until` is the counter
     when it starts. An id in that range is passed over only if the ring had dropped it when its
     turn came; and on success no id of the range that is still in the ring is left out, although
     the loop makes at most as many turns as the ring has slots.
     */
    method SendToClient(since: nat, turns: nat -> Turn) returns (result: ReplayResult, sent: seq<Message>)
      requires Valid() && counterValid
      modifies this, buffer, flash
      ensures Valid() && base == old(base) && old(log) <= log
      ensures State() == AtTurn(old(State()), turns, |sent|)
      ensures InTurn(Setting(old(State()), base, turns), since, sent, log)
      ensures forall id :: since < id <= (if result.ReplayOk? then old(counter) else CursorAt(since, sent, |sent|)) ==>
                             WasSent(id, sent) || EvictedBeforeTurn(id, since, sent, Setting(old(State()), base, turns))
      ensures result.ReplayOk? ==>
                forall id :: since < id <= old(counter) && InRing(State(), base, id) ==> WasSent(id, sent)
      ensures (forall t :: turns(t).during == []) ==>
                && sent <= Replayed(old(log), buffer.Length, base, since)
                && (result.ReplayOk? ==> sent == Replayed(old(log), buffer.Length, base, since))
    {
      ghost var r := Setting(State(), base, turns);
      result, sent := ReplayLoop(since, turns);
      if result.ReplayOk? {
        StillThere(r, since, sent, log);
      }
      if forall t :: turns(t).during == [] {
        QuietTurns(r.start, turns, |sent|);
        assert log == old(log);
        QuietReplay(r, since, log, result, sent);
      }
    }

    method ReplayLoop(since: nat, turns: nat -> Turn) returns (result: ReplayResult, sent: seq<Message>)
      requires Valid() && counterValid
      modifies this, buffer, flash
      ensures Valid() && base == old(base) && old(log) <= log
      ensures State() == AtTurn(old(State()), turns, |sent|)
      ensures Outcome(Setting(old(State()), base, turns), since, result, sent, log)
    {
      ghost var r := Setting(State(), base, turns);
      var until := counter;
      var cursor := since;
      sent := [];
      var replayed := 0;
      while replayed < buffer.Length && cursor < until
        invariant Valid() && counterValid && base == r.base && old(log) <= log
        invariant |sent| == replayed <= buffer.Length && cursor == CursorAt(since, sent, |sent|)
        invariant State() == AtTurn(r.start, turns, replayed)
        invariant Trace(r, since, sent, log)
      {
        var next := SelectNext(cursor, until);
        var turn := turns(replayed);
        if next.None? {
          TraceStop(r, since, sent, log);
          return ReplayOk, sent;
        }
        if !turn.allocOk || !turn.sendOk {
          result := if turn.allocOk then ReplaySendFailed else ReplayNoMemory;
          TraceEnds(r, since, sent, log, result);
          return;
        }
        Unlock(turn.during, r, since, sent, next.value);
        cursor, sent := next.value.id, sent + [next.value];
        replayed := replayed + 1;
      }
      result := ReplayOk;
      TraceEnds(r, since, sent, log, result);
    }
  }

  /** Ascending messages of the log within the range, each the first after its cursor that the ring held. */
  ghost predicate InTurn(r: Setting, since: nat, sent: seq<Message>, log: seq<Message>)
    requires Usable(r)
  {
    && (forall i :: 0 <= i < |sent| ==> sent[i] in log && since < sent[i].id <= r.start.counter)
    && (forall i, j :: 0 <= i < j < |sent| ==> sent[i].id < sent[j].id)
    && (forall i :: 0 <= i < |sent| ==> EarliestAt(r, i) <= sent[i].id)
  }

  /** Every id up to the bound was sent, or had left the ring when its turn came. */
  ghost predicate AccountedTo(r: Setting, since: nat, sent: seq<Message>, bound: nat)
    requires Usable(r)
  {
    forall id :: since < id <= bound ==> WasSent(id, sent) || EvictedBeforeTurn(id, since, sent, r)
  }

  /** What a replay has done when `|sent|` turns are over. */
  ghost predicate Trace(r: Setting, since: nat, sent: seq<Message>, log: seq<Message>) {
    && Usable(r) && InTurn(r, since, sent, log)
    && (sent != [] ==> EarliestAt(r, 0) - 1 + |sent| <= sent[|sent| - 1].id)
    && AccountedTo(r, since, sent, CursorAt(since, sent, |sent|))
  }

  /** What a replay has achieved when it returns. */
  ghost predicate Outcome(r: Setting, since: nat, result: ReplayResult, sent: seq<Message>, log: seq<Message>) {
    && Usable(r) && InTurn(r, since, sent, log)
    && AccountedTo(r, since, sent, if result.ReplayOk? then r.start.counter else CursorAt(since, sent, |sent|))
  }

  lemma TraceGrows(r: Setting, since: nat, sent: seq<Message>, log: seq<Message>, log': seq<Message>)
    requires Trace(r, since, sent, log) && log <= log'
    ensures Trace(r, since, sent, log')
  {
    forall i | 0 <= i < |sent| ensures sent[i] in log' {
      var k :| 0 <= k < |log| && log[k] == sent[i];
      assert log'[k] == sent[i];
    }
  }

  /** The loop's other exits: a failed turn, or a cursor that has reached the end of the range. */
  lemma TraceEnds(r: Setting, since: nat, sent: seq<Message>, log: seq<Message>, result: ReplayResult)
    requires Trace(r, since, sent, log)
    requires result.ReplayOk? ==> |sent| >= |r.start.buffer| || r.start.counter <= CursorAt(since, sent, |sent|)
    ensures Outcome(r, since, result, sent, log)
  {
    if result.ReplayOk? && |sent| >= |r.start.buffer| {
      assert r.start.counter <= EarliestAt(r, 0) - 1 + |sent|;
    }
  }

  /** A turn without a candidate: the rest of the range has left the ring. */
  lemma TraceStop(r: Setting, since: nat, sent: seq<Message>, log: seq<Message>)
    requires Trace(r, since, sent, log)
    requires r.start.counter < Max(CursorAt(since, sent, |sent|) + 1, EarliestAt(r, |sent|))
    ensures Outcome(r, since, ReplayOk, sent, log)
  {
    forall id | since < id <= r.start.counter ensures WasSent(id, sent) || EvictedBeforeTurn(id, since, sent, r) {
      if id > CursorAt(since, sent, |sent|) {
        assert CursorAt(since, sent, |sent|) < id < EarliestAt(r, |sent|);
      }
    }
  }

  lemma EvictedExtends(id: nat, since: nat, sent: seq<Message>, sent': seq<Message>, r: Setting)
    requires Usable(r) && sent <= sent'
    ensures EvictedBeforeTurn(id, since, sent, r) ==> EvictedBeforeTurn(id, since, sent', r)
    ensures WasSent(id, sent) ==> WasSent(id, sent')
  {
    if EvictedBeforeTurn(id, since, sent, r) {
      var i :| 0 <= i <= |sent| && CursorAt(since, sent, i) < id < EarliestAt(r, i);
      assert CursorAt(since, sent', i) < id < EarliestAt(r, i);
    }
    if WasSent(id, sent) {
      var i :| 0 <= i < |sent| && sent[i].id == id;
      assert sent'[i].id == id;
    }
  }

  /** The ids that a turn skips have left the ring. */
  lemma StepAccounts(r: Setting, since: nat, sent: seq<Message>, m: Message)
    requires Usable(r) && AccountedTo(r, since, sent, CursorAt(since, sent, |sent|))
    requires m.id == Max(CursorAt(since, sent, |sent|) + 1, EarliestAt(r, |sent|))
    ensures AccountedTo(r, since, sent + [m], m.id)
  {
    var sent' := sent + [m];
    forall id | since < id <= m.id ensures WasSent(id, sent') || EvictedBeforeTurn(id, since, sent', r) {
      EvictedExtends(id, since, sent, sent', r);
      if id == m.id {
        assert sent'[|sent|].id == id;
      } else if id > CursorAt(since, sent, |sent|) {
        assert CursorAt(since, sent', |sent|) < id < EarliestAt(r, |sent|);
      }
    }
  }

  lemma StepIsInTurn(r: Setting, since: nat, sent: seq<Message>, log: seq<Message>, m: Message)
    requires Usable(r) && InTurn(r, since, sent, log) && m in log
    requires CursorAt(since, sent, |sent|) < m.id <= r.start.counter && EarliestAt(r, |sent|) <= m.id
    ensures InTurn(r, since, sent + [m], log)
  {
    var sent' := sent + [m];
    forall i | 0 <= i < |sent'|
      ensures sent'[i] in log && since < sent'[i].id <= r.start.counter && EarliestAt(r, i) <= sent'[i].id
      ensures i < |sent| ==> sent'[i].id < m.id
    {
      assert sent'[i] == if i < |sent| then sent[i] else m;
    }
  }

  /** A turn that sends the smallest id after the cursor extends the replay. */
  lemma TraceStep(r: Setting, since: nat, sent: seq<Message>, log: seq<Message>, m: Message)
    requires Trace(r, since, sent, log)
    requires m in log && m.id == Max(CursorAt(since, sent, |sent|) + 1, EarliestAt(r, |sent|)) <= r.start.counter
    ensures Trace(r, since, sent + [m], log)
  {
    StepIsInTurn(r, since, sent, log, m);
    StepAccounts(r, since, sent, m);
    EarliestRises(r, 0, |sent|);
  }

  /** The ring only moves forward. */
  lemma {:induction false} EarliestRises(r: Setting, i: nat, j: nat)
    requires Usable(r) && i <= j
    ensures EarliestAt(r, i) <= EarliestAt(r, j)
  {
    if i < j {
      EarliestRises(r, i, j - 1);
    }
  }

  /** An id still in the ring at the end was in it at every turn. */
  lemma StillThere(r: Setting, since: nat, sent: seq<Message>, log: seq<Message>)
    requires Outcome(r, since, ReplayOk, sent, log)
    ensures forall id :: since < id <= r.start.counter && EarliestAt(r, |sent|) <= id ==> WasSent(id, sent)
  {
    forall id | since < id <= r.start.counter && EarliestAt(r, |sent|) <= id ensures WasSent(id, sent) {
      assert WasSent(id, sent) || EvictedBeforeTurn(id, since, sent, r);
      if EvictedBeforeTurn(id, since, sent, r) {
        var i :| 0 <= i <= |sent| && CursorAt(since, sent, i) < id < EarliestAt(r, i);
        EarliestRises(r, i, |sent|);
      }
    }
  }
}
