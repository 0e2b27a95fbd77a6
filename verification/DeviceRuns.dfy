/**
 Runs of the message log over boots, stores, failing flash calls and power cuts at any moment.
 Flash is never erased, so a counter that reads as absent was never written.
 */
module DeviceRuns {
  import opened Arithmetic
  import opened ChatTypes
  import opened Json
  import opened MessageIdStore
  import opened MessageLog

  /** The device, the messages stored since the counter was loaded, and every id ever published. */
  datatype Device = Device(log: LogState, base: nat, messages: seq<Message>, published: seq<nat>)

  datatype Event =
    | Stores(root: Fields, env: StoreEnv)
    | Ensures(read: ReadFaults, reload: WriteFaults)
      // The power fails, the flash settles on one of its possible values, and the device boots again.
    | Reboots(survivor: Option<nat>, read: ReadFaults, write: WriteFaults)
      // The power fails inside a store: after any flash call, or after the commit but before publication.
    | RebootsInStore(env: StoreEnv, survivor: Option<nat>, read: ReadFaults, write: WriteFaults)

  function Boot(size: nat, cell: Cell, read: ReadFaults, write: WriteFaults): LogState {
    var (cell', state) := Load(cell, read, write);
    LogState(seq(size, i => None), 0, state.currentId, state.loaded, state.bootStart, cell')
  }

  function Rebooted(d: Device, cell: Cell, survivor: Option<nat>, read: ReadFaults, write: WriteFaults): Device {
    var s := Boot(|d.log.buffer|, Settle(cell, survivor), read, write);
    Device(s, s.counter, [], d.published)
  }

  function FirstBoot(size: nat, read: ReadFaults, write: WriteFaults): Device {
    var s := Boot(size, ERASED, read, write);
    Device(s, s.counter, [], [])
  }

  function Step(d: Device, e: Event): (d': Device)
    requires d.log.head < |d.log.buffer|
    ensures d'.log.head < |d'.log.buffer| == |d.log.buffer|
  {
    match e
    case Stores(root, env) =>
      var (s, r) := Store(d.log, root, env);
      var base := if d.log.counterValid then d.base else EnsureIds(d.log, env.read, env.reload).0.counter;
      if r.Stored? then Device(s, base, d.messages + [r.message], d.published + [r.message.id])
      else Device(s, base, d.messages, d.published)
    case Ensures(read, reload) =>
      var s := EnsureIds(d.log, read, reload).0;
      d.(log := s, base := if d.log.counterValid then d.base else s.counter)
    case Reboots(survivor, read, write) => Rebooted(d, d.log.cell, survivor, read, write)
    case RebootsInStore(env, survivor, read, write) =>
      Rebooted(d, Store(d.log, map[], env).0.cell, survivor, read, write)
  }

  /** A power-up state: how many ring slots there are and how the first load went. */
  datatype Start = Start(size: nat, read: ReadFaults, write: WriteFaults)

  function Run(start: Start, events: seq<Event>): (d: Device)
    requires start.size > 0
    ensures d.log.head < |d.log.buffer| == start.size
  {
    if events == [] then FirstBoot(start.size, start.read, start.write)
    else Step(Run(start, events[..|events| - 1]), events[|events| - 1])
  }

  predicate Ascending(ids: seq<nat>) {
    forall i, j :: 0 <= i < j < |ids| ==> ids[i] < ids[j]
  }

  /** The counter's bookkeeping against flash. */
  ghost predicate Durable(s: LogState) {
    && Committed(s.cell) <= MAX_SAFE_ID
    && (s.counterValid ==> s.counter == Committed(s.cell))
    && (!s.counterValid ==> s.counter == 0 && s.cell.maybe == {})
    && (forall v :: v in s.cell.maybe ==> Committed(s.cell) <= v <= MAX_SAFE_ID)
  }

  ghost predicate Sound(d: Device) {
    && Refines(d.log, d.base, d.messages)
    && Durable(d.log)
    && (d.log.counterValid ==> d.log.bootStart == BootStart(d.base))
    && (!d.log.counterValid ==> d.messages == [])
    && Ascending(d.published)
    && (forall id :: id in d.published ==> 1 <= id <= Committed(d.log.cell))
  }

  lemma BootIsSound(size: nat, cell: Cell, read: ReadFaults, write: WriteFaults, published: seq<nat>)
    requires size > 0 && cell.maybe == {} && Committed(cell) <= MAX_SAFE_ID
    requires Ascending(published) && forall id :: id in published ==> 1 <= id <= Committed(cell)
    ensures var s := Boot(size, cell, read, write);
            Sound(Device(s, s.counter, [], published)) && Committed(s.cell) == Committed(cell)
  {
    var s := Boot(size, cell, read, write);
    assert forall j :: 0 <= j < size ==> SlotHolds(s.buffer[j], j, size, s.counter, []);
  }

  lemma EnsureIsSound(d: Device, read: ReadFaults, reload: WriteFaults)
    requires Sound(d)
    ensures var s := EnsureIds(d.log, read, reload).0;
            var base := if d.log.counterValid then d.base else s.counter;
            Sound(Device(s, base, d.messages, d.published)) && Committed(s.cell) == Committed(d.log.cell)
  {
    var s := EnsureIds(d.log, read, reload).0;
    if !d.log.counterValid {
      var size := |s.buffer|;
      assert forall j :: 0 <= j < size ==> SlotHolds(d.log.buffer[j], j, size, d.base, []);
      assert forall j :: 0 <= j < size ==> SlotHolds(s.buffer[j], j, size, s.counter, []);
    }
  }

  /** Storing publishes only what has been committed, under an id above all earlier ones. */
  lemma StoreIsSound(d: Device, root: Fields, env: StoreEnv)
    requires Sound(d)
    ensures Sound(Step(d, Stores(root, env)))
    ensures Committed(d.log.cell) <= Committed(Step(d, Stores(root, env)).log.cell)
  {
    EnsureIsSound(d, env.read, env.reload);
    var (s, r) := Store(d.log, root, env);
    var s1 := EnsureIds(d.log, env.read, env.reload).0;
    var base := if d.log.counterValid then d.base else s1.counter;
    if r.Stored? {
      var s2 := s1.(cell := Persist(s1.cell, s1.counter + 1, env.write).0);
      assert Refines(s2, base, d.messages);
      PublishRefines(s2, base, d.messages, r.message);
      AppendId(d.published, r.message.id);
    } else if r.NotPersisted? {
      assert Refines(s, base, d.messages);
    }
  }

  lemma AppendId(ids: seq<nat>, id: nat)
    requires Ascending(ids) && forall x :: x in ids ==> x < id
    ensures Ascending(ids + [id])
  {
    assert forall i :: 0 <= i < |ids| ==> ids[i] in ids;
  }

  lemma RebootIsSound(d: Device, cell: Cell, survivor: Option<nat>, read: ReadFaults, write: WriteFaults)
    requires Sound(d) && Committed(d.log.cell) <= Committed(cell) <= MAX_SAFE_ID
    requires forall v :: v in cell.maybe ==> Committed(cell) <= v <= MAX_SAFE_ID
    ensures Sound(Rebooted(d, cell, survivor, read, write))
    ensures Committed(cell) <= Committed(Rebooted(d, cell, survivor, read, write).log.cell)
  {
    BootIsSound(|d.log.buffer|, Settle(cell, survivor), read, write, d.published);
  }

  lemma StepIsSound(d: Device, e: Event)
    requires Sound(d)
    ensures Sound(Step(d, e))
    ensures Committed(d.log.cell) <= Committed(Step(d, e).log.cell)
  {
    match e {
      case Stores(root, env) =>
        StoreIsSound(d, root, env);
      case Ensures(read, reload) =>
        EnsureIsSound(d, read, reload);
      case Reboots(survivor, read, write) =>
        RebootIsSound(d, d.log.cell, survivor, read, write);
      case RebootsInStore(env, survivor, read, write) =>
        StoreIsSound(d, map[], env);
        RebootIsSound(d, Store(d.log, map[], env).0.cell, survivor, read, write);
    }
  }

  lemma {:induction false} RunIsSound(start: Start, events: seq<Event>)
    requires start.size > 0
    ensures Sound(Run(start, events))
  {
    if events == [] {
      BootIsSound(start.size, ERASED, start.read, start.write, []);
    } else {
      RunIsSound(start, events[..|events| - 1]);
      StepIsSound(Run(start, events[..|events| - 1]), events[|events| - 1]);
    }
  }

  /**
   Over any number of boots, power cuts and failing flash calls the published ids are strictly
   increasing, and whatever value the flash settles on next is at least every one of them.
   */
  lemma PublishedIdsStrictlyIncrease(start: Start, events: seq<Event>, survivor: Option<nat>)
    requires start.size > 0
    ensures var d := Run(start, events);
            && Ascending(d.published)
            && forall id :: id in d.published ==> id <= Committed(Settle(d.log.cell, survivor))
  {
    RunIsSound(start, events);
  }

  /** At every moment the ring holds exactly the newest messages stored since the counter was loaded. */
  lemma RingRefinesLog(start: Start, events: seq<Event>)
    requires start.size > 0
    ensures var d := Run(start, events);
            && Refines(d.log, d.base, d.messages)
            && BoundsOf(d.log, d.base).count == Min(|d.messages|, start.size)
            && (d.messages != [] ==>
                  && BoundsOf(d.log, d.base).latest == d.log.counter
                  && BoundsOf(d.log, d.base).earliest == d.log.counter - Min(|d.messages|, start.size) + 1)
  {
    RunIsSound(start, events);
  }

  // ---- The restore boundary ----

  function RestoreBefore(d: Device): nat
    requires d.log.counter >= d.base
  {
    BoundsOf(d.log, d.base).restoreBefore
  }

  /** A bound the boundary cannot fall below, also while the counter is not loaded. */
  function Floor(d: Device): nat
    requires d.log.counter >= d.base
  {
    if d.log.counterValid then RestoreBefore(d) else BootStart(Committed(d.log.cell))
  }

  lemma FloorBelowDurable(d: Device)
    requires Sound(d)
    ensures Floor(d) <= BootStart(Committed(d.log.cell))
  {
  }

  lemma StepKeepsFloor(d: Device, e: Event)
    requires Sound(d)
    ensures Sound(Step(d, e)) && Floor(d) <= Floor(Step(d, e))
  {
    StepIsSound(d, e);
    FloorBelowDurable(d);
    var after := Step(d, e);
    match e {
      case Stores(root, env) =>
        if d.log.counterValid {
          assert after.base == d.base;
        } else {
          EnsureIsSound(d, env.read, env.reload);
        }
      case Ensures(_, _) =>
      case Reboots(_, _, _) =>
        assert Floor(after) == BootStart(Committed(after.log.cell));
      case RebootsInStore(env, _, _, _) =>
        assert Floor(after) == BootStart(Committed(after.log.cell));
    }
  }

  lemma {:induction false} FloorNeverFalls(start: Start, events: seq<Event>, i: nat)
    requires start.size > 0 && i <= |events|
    ensures Sound(Run(start, events[..i])) && Sound(Run(start, events))
    ensures Floor(Run(start, events[..i])) <= Floor(Run(start, events))
  {
    RunIsSound(start, events);
    RunIsSound(start, events[..i]);
    if i == |events| {
      assert events[..i] == events;
    } else {
      var shorter := events[..|events| - 1];
      FloorNeverFalls(start, shorter, i);
      assert shorter[..i] == events[..i];
      StepKeepsFloor(Run(start, shorter), events[|events| - 1]);
    }
  }

  /**
   Once the counter is loaded, the boundary below which clients may restore history from each other
   never moves down: not over appends, evictions, failed stores or reboots. It never exceeds an id
   in the ring.
   */
  lemma RestoreBoundaryNeverFalls(start: Start, events: seq<Event>, i: nat)
    requires start.size > 0 && i <= |events|
    requires Run(start, events[..i]).log.counterValid && Run(start, events).log.counterValid
    ensures Refines(Run(start, events).log, Run(start, events).base, Run(start, events).messages)
    ensures Refines(Run(start, events[..i]).log, Run(start, events[..i]).base, Run(start, events[..i]).messages)
    ensures RestoreBefore(Run(start, events[..i])) <= RestoreBefore(Run(start, events))
    ensures forall m :: m in Newest(Run(start, events).messages, start.size) ==>
                          RestoreBefore(Run(start, events)) <= m.id
  {
    FloorNeverFalls(start, events, i);
    BoundaryBelowRing(Run(start, events), start.size);
  }

  /**
   What the ring has forgotten can be restored: an id published and no longer in the ring is below the
   boundary, exactly unless it is the last one there is, which nothing is above.
   */
  lemma ForgottenIsRestorable(start: Start, events: seq<Event>, id: nat)
    requires start.size > 0 && Run(start, events).log.counterValid && id in Run(start, events).published
    ensures var d := Run(start, events);
            && d.log.counter >= d.base
            && ((exists m :: m in Newest(d.messages, start.size) && m.id == id) ||
                (id < RestoreBefore(d) <==> id < MAX_SAFE_ID))
  {
    RunIsSound(start, events);
    SoundForgetsOld(Run(start, events), start.size, id);
  }

  lemma InNewest(log: seq<Message>, size: nat, k: nat)
    requires |log| - Min(|log|, size) <= k < |log|
    ensures log[k] in Newest(log, size)
  {
    var from := |log| - Min(|log|, size);
    assert Newest(log, size)[k - from] == log[k];
  }

  lemma SoundForgetsOld(d: Device, size: nat, id: nat)
    requires Sound(d) && |d.log.buffer| == size && d.log.counterValid && id in d.published
    ensures (exists m :: m in Newest(d.messages, size) && m.id == id) || (id < RestoreBefore(d) <==> id < MAX_SAFE_ID)
  {
    if RestoreBefore(d) <= id && d.messages != [] {
      InNewest(d.messages, size, id - d.base - 1);
      assert d.messages[id - d.base - 1].id == id;
    }
  }

  lemma BoundaryBelowRing(d: Device, size: nat)
    requires Sound(d) && |d.log.buffer| == size
    ensures forall m :: m in Newest(d.messages, size) ==> RestoreBefore(d) <= m.id
  {
    var kept := Newest(d.messages, size);
    forall m | m in kept ensures RestoreBefore(d) <= m.id {
      var k :| 0 <= k < |kept| && kept[k] == m;
      assert kept[k] == d.messages[|d.messages| - |kept| + k];
    }
  }
}
