/** A run of device and browser in which a message that was received is lost below the stored cursor. */
module EvictedMessage {
  import opened ChatTypes
  import opened Json
  import opened ChatProtocol
  import opened EndToEnd
  import opened KeptMessages
  import opened MessageIdStore
  import opened MessageLog
  import ClientStore
  import DeviceRuns

  /** A ring for one message, and working flash. */
  function OneSlot(limits: Limits, userId: Text): Setup {
    Setup(DeviceRuns.Start(1, READS, WRITES), limits, ClientStore.First(userId, true))
  }

  /** A page load in which nothing fails. */
  function Loads(user: Text): ClientStore.Load {
    ClientStore.Load(user, true, true, true, true, true, true)
  }

  /** An empty page, whose user id is stored. */
  function FirstPage(user: Text): ClientStore.Session {
    ClientStore.Fresh(ClientStore.First(user, true))
  }

  /** The browser gets a first message that it cannot store, and the page is reloaded. */
  function Forgets(first: Fields, userId: Text): seq<Event> {
    [Connects] + [Joins(READS, WRITES, 0, true)] + [Posts(first, Works(0), true)] + [Delivers(false, false)] +
    [Reloads(Loads(userId))]
  }

  /** Before it joins again, a second message pushes the first out of the ring. */
  function Evicts(first: Fields, second: Fields, userId: Text): seq<Event> {
    Forgets(first, userId) + [Posts(second, Works(0), true)] + [Connects] + [Joins(READS, WRITES, 1, true)] +
    [Delivers(true, true)]
  }

  /** A message that the server accepts and that is for everyone. */
  predicate Public(root: Fields, limits: Limits) {
    && ValidateChat(root, limits).Accept?
    && "to" in root && root["to"].Obj? && Get(root["to"].fields, "all") == Some(Bool(true))
  }

  function Published(root: Fields, limits: Limits, id: nat): Message
    requires ValidateChat(root, limits).Accept?
  {
    StoredAs(ValidateChat(root, limits).root, id, Works(0))
  }

  lemma PublicIsForAll(root: Fields, limits: Limits, id: nat, user: Text)
    requires Compatible(limits) && Public(root, limits) && 1 <= id <= MAX_SAFE_ID
    ensures Wire(Published(root, limits, id)) && ClientStore.IsFor(Published(root, limits, id).payload, user)
  {
    StoredIsWire(root, limits, id, Works(0));
    TargetStaysPublic(root, limits);
    assert Get(Published(root, limits, id).payload, "to") == Get(ValidateChat(root, limits).root, "to");
  }

  lemma TargetStaysPublic(root: Fields, limits: Limits)
    requires Public(root, limits)
    ensures var to := Get(ValidateTo(root, limits).1, "to");
            to.Some? && to.value.Obj? && Get(to.value.fields, "all") == Some(Bool(true))
    ensures ValidateChat(root, limits).root == ValidateTo(root, limits).1
  {
  }

  /** The device with its counter loaded and at `n`, the last message alone in its ring. */
  function OneSlotDevice(messages: seq<Message>): DeviceRuns.Device {
    var n := |messages|;
    DeviceRuns.Device(
      LogState([if n == 0 then None else Some(messages[n - 1])], 0, n, true, 1, Cell(Some(n), {})), 0, messages,
      seq(n, i requires 0 <= i < n => messages[i].id))
  }

  lemma OneSlotBoot()
    ensures DeviceRuns.FirstBoot(1, READS, WRITES) == OneSlotDevice([])
  {
  }

  lemma OneSlotEnsure(messages: seq<Message>)
    ensures DeviceRuns.Step(OneSlotDevice(messages), DeviceRuns.Ensures(READS, WRITES)) == OneSlotDevice(messages)
  {
  }

  lemma OneSlotStore(messages: seq<Message>, root: Fields, env: StoreEnv)
    requires env == Works(0) && |messages| < MAX_SAFE_ID
    ensures var (log, result) := Store(OneSlotDevice(messages).log, root, env);
            var m := StoredAs(root, |messages| + 1, env);
            && result == Stored(m)
            && DeviceRuns.Step(OneSlotDevice(messages), DeviceRuns.Stores(root, env)) == OneSlotDevice(messages + [m])
  {
    var m := StoredAs(root, |messages| + 1, env);
    assert OneSlotDevice(messages + [m]).published == OneSlotDevice(messages).published + [m.id];
  }

  function Cache(user: Text, memory: seq<ClientStore.Entry>, stored: seq<ClientStore.Entry>, seen: nat)
    : ClientStore.Client
  {
    ClientStore.Client(user, Some(user), memory, seen, stored, seen)
  }

  lemma OneSlotStart(limits: Limits, user: Text, first: Fields)
    requires Public(first, limits) && Compatible(limits)
    ensures var m := Published(first, limits, 1);
            Run(OneSlot(limits, user), [Connects] + [Joins(READS, WRITES, 0, true)] + [Posts(first, Works(0), true)]) ==
            System(OneSlotDevice([m]), FirstPage(user), Up([m], true), {}, {}, map[1 := m.payload], 0)
  {
    var setup, m := OneSlot(limits, user), Published(first, limits, 1);
    var root := ValidateChat(first, limits).root;
    assert [] + [Connects] == [Connects];
    ConnectAfter(setup, []);
    JoinAfter(setup, [Connects], 0);
    PostAfter(setup, [Connects] + [Joins(READS, WRITES, 0, true)], first);
    OneSlotBoot();
    FirstJoin(user);
    FirstPost(user, root, m);
  }

  lemma FirstJoin(user: Text)
    ensures Join(System(OneSlotDevice([]), FirstPage(user), Opening(0), {}, {}, map[], 0), READS, WRITES, 0, true) ==
            System(OneSlotDevice([]), FirstPage(user), Up([], true), {}, {}, map[], 0)
  {
    OneSlotEnsure([]);
    assert Gone(OneSlotDevice([]), 0) == {};
  }

  lemma FirstPost(user: Text, root: Fields, m: Message)
    requires m == StoredAs(root, 1, Works(0))
    ensures Post(System(OneSlotDevice([]), FirstPage(user), Up([], true), {}, {}, map[], 0), root, Works(0), true) ==
            System(OneSlotDevice([m]), FirstPage(user), Up([m], true), {}, {}, map[1 := m.payload], 0)
  {
    OneSlotStore([], root, Works(0));
    assert [] + [m] == [m];
  }

  lemma NotWritten(user: Text, m: Message)
    requires Wire(m) && ClientStore.IsFor(m.payload, user)
    ensures ClientStore.Step(FirstPage(user), ClientStore.Receives(m.payload, false, false)) ==
            ClientStore.Session(Cache(user, [ClientStore.FromWire(m.payload)], [], 0), {m.id}, {}, false)
  {
    ClientStore.ReceiveShape(FirstPage(user), m.payload, false, false);
    ClientStore.RetainOfOne(ClientStore.FromWire(m.payload));
    assert ClientStore.WithIncoming(FirstPage(user).client, m.payload) == [ClientStore.FromWire(m.payload)];
  }

  lemma ReloadForgets(user: Text, e: ClientStore.Entry)
    ensures ClientStore.Step(ClientStore.Session(Cache(user, [e], [], 0), {e.id}, {}, false),
                             ClientStore.Reloads(Loads(user))) ==
            ClientStore.Session(Cache(user, [], [], 0), {e.id}, {}, true)
  {
    assert ClientStore.Retain([]) == [];
  }

  lemma NextIsWritten(user: Text, id: nat, m: Message)
    requires Wire(m) && ClientStore.IsFor(m.payload, user)
    ensures var e := ClientStore.FromWire(m.payload);
            ClientStore.Step(ClientStore.Session(Cache(user, [], [], 0), {id}, {}, true),
                             ClientStore.Receives(m.payload, true, true)) ==
            ClientStore.Session(Cache(user, [e], [e], m.id), {id, m.id}, {}, true)
  {
    var p := ClientStore.Session(Cache(user, [], [], 0), {id}, {}, true);
    ClientStore.ReceiveShape(p, m.payload, true, true);
    ClientStore.RetainOfOne(ClientStore.FromWire(m.payload));
    assert ClientStore.WithIncoming(p.client, m.payload) == [ClientStore.FromWire(m.payload)];
  }

  /** The page that has forgotten the first message. */
  function Forgetful(user: Text): ClientStore.Session {
    ClientStore.Session(Cache(user, [], [], 0), {1}, {}, true)
  }

  lemma FirstIsUnsaved(d: DeviceRuns.Device, user: Text, m: Message, posted: map<nat, Fields>)
    requires Wire(m) && ClientStore.IsFor(m.payload, user) && m.id == 1
    ensures Deliver(System(d, FirstPage(user), Up([m], true), {}, {}, posted, 0), false, false) ==
            System(d, ClientStore.Session(Cache(user, [ClientStore.FromWire(m.payload)], [], 0), {1}, {}, false),
                   Up([], true), {1}, {}, posted, 0)
  {
    NotWritten(user, m);
    assert [m][1..] == [] && {} + {m.id} == {1};
  }

  lemma UnsavedIsForgotten(d: DeviceRuns.Device, limits: Limits, user: Text, e: ClientStore.Entry,
                           posted: map<nat, Fields>)
    requires e.id == 1 && d.log.head < |d.log.buffer|
    ensures var p := ClientStore.Session(Cache(user, [e], [], 0), {1}, {}, false);
            Step(System(d, p, Up([], true), {1}, {}, posted, 0), Reloads(Loads(user)), limits) ==
            System(d, Forgetful(user), Down, {1}, {}, posted, 0)
  {
    ReloadForgets(user, e);
  }

  lemma FirstIsForgotten(d: DeviceRuns.Device, limits: Limits, user: Text, m: Message, posted: map<nat, Fields>)
    requires Wire(m) && ClientStore.IsFor(m.payload, user) && m.id == 1 && d.log.head < |d.log.buffer|
    ensures var s := System(d, FirstPage(user), Up([m], true), {}, {}, posted, 0);
            Step(Step(s, Delivers(false, false), limits), Reloads(Loads(user)), limits) ==
            System(d, Forgetful(user), Down, {1}, {}, posted, 0)
  {
    FirstIsUnsaved(d, user, m, posted);
    UnsavedIsForgotten(d, limits, user, ClientStore.FromWire(m.payload), posted);
  }

  lemma AfterForgetting(limits: Limits, user: Text, first: Fields)
    requires Public(first, limits) && Compatible(limits)
    ensures var m := Published(first, limits, 1);
            Run(OneSlot(limits, user), Forgets(first, user)) ==
            System(OneSlotDevice([m]), Forgetful(user), Down, {1}, {}, map[1 := m.payload], 0)
  {
    var setup, m := OneSlot(limits, user), Published(first, limits, 1);
    var start := [Connects] + [Joins(READS, WRITES, 0, true)] + [Posts(first, Works(0), true)];
    OneSlotStart(limits, user, first);
    PublicIsForAll(first, limits, 1, user);
    FirstIsForgotten(OneSlotDevice([m]), limits, user, m, map[1 := m.payload]);
    RunSnoc(setup, start, Delivers(false, false));
    RunSnoc(setup, start + [Delivers(false, false)], Reloads(Loads(user)));
  }

  lemma SecondEvictsFirst(limits: Limits, user: Text, m1: Message, second: Fields)
    requires Public(second, limits)
    ensures var s := System(OneSlotDevice([m1]), Forgetful(user), Down, {1}, {}, map[1 := m1.payload], 0);
            var m2 := Published(second, limits, 2);
            Step(Step(s, Posts(second, Works(0), true), limits), Connects, limits) ==
            System(OneSlotDevice([m1, m2]), Forgetful(user), Opening(0), {1}, {},
                   map[1 := m1.payload, 2 := m2.payload], 0)
  {
    OneSlotStore([m1], ValidateChat(second, limits).root, Works(0));
    assert [m1] + [Published(second, limits, 2)] == [m1, Published(second, limits, 2)];
  }

  lemma JoinExcusesEvicted(m1: Message, m2: Message, p: ClientStore.Session, posted: map<nat, Fields>)
    requires m1.id == 1 && m2.id == 2
    ensures Join(System(OneSlotDevice([m1, m2]), p, Opening(0), {1}, {}, posted, 0), READS, WRITES, 1, true) ==
            System(OneSlotDevice([m1, m2]), p, Up([m2], true), {1}, {1}, posted, 0)
  {
    var d := OneSlotDevice([m1, m2]);
    OneSlotEnsure([m1, m2]);
    assert d.published == [1, 2];
    assert d.log.buffer == [Some(m2)] && d.log.buffer[0].value.id == 2;
    assert RingIds(d.log.buffer) == {2};
    assert Gone(d, 0) == {1};
    assert Replayed([m1, m2], 1, 0, 0) == [m2];
    assert [m2][..1] == [m2] && {} + {1} == {1};
  }

  lemma SecondIsDelivered(d: DeviceRuns.Device, limits: Limits, user: Text, m: Message, posted: map<nat, Fields>)
    requires Wire(m) && ClientStore.IsFor(m.payload, user) && m.id == 2 && d.log.head < |d.log.buffer|
    ensures var s := Step(System(d, Forgetful(user), Up([m], true), {1}, {1}, posted, 0), Delivers(true, true), limits);
            var e := ClientStore.FromWire(m.payload);
            && s.page == ClientStore.Session(Cache(user, [e], [e], 2), {1, 2}, {}, true)
            && s.excused == {1} && s.posted == posted
  {
    NextIsWritten(user, 1, m);
  }

  lemma AfterEviction(limits: Limits, user: Text, first: Fields, second: Fields)
    requires Public(first, limits) && Public(second, limits) && Compatible(limits)
    ensures var m1, m2 := Published(first, limits, 1), Published(second, limits, 2);
            Run(OneSlot(limits, user),
                Forgets(first, user) + [Posts(second, Works(0), true)] + [Connects] +
                [Joins(READS, WRITES, 1, true)]) ==
            System(OneSlotDevice([m1, m2]), Forgetful(user), Up([m2], true), {1}, {1},
                   map[1 := m1.payload, 2 := m2.payload], 0)
  {
    var setup, m1, m2 := OneSlot(limits, user), Published(first, limits, 1), Published(second, limits, 2);
    var e6, e7, e8 := Posts(second, Works(0), true), Connects, Joins(READS, WRITES, 1, true);
    var start := Forgets(first, user);
    AfterForgetting(limits, user, first);
    RunSnoc(setup, start, e6);
    RunSnoc(setup, start + [e6], e7);
    SecondEvictsFirst(limits, user, m1, second);
    RunSnoc(setup, start + [e6] + [e7], e8);
    JoinExcusesEvicted(m1, m2, Forgetful(user), map[1 := m1.payload, 2 := m2.payload]);
  }

  lemma BelowCursorIsBroken(s: System, id: nat)
    requires id in s.page.received && id > 0 && id in s.posted
    requires ClientStore.IsFor(s.posted[id], s.page.client.userId)
    requires id <= s.page.client.storedCursor
    requires id !in ClientStore.Ids(s.page.client.snapshot) && id !in s.page.pushedOut
    ensures !PromiseKept(s)
  {
    assert id in Received(s);
  }

  /** The first message is below the cursor of that page, and not in its storage. */
  lemma FirstIsMissing(s: System, user: Text, m1: Message, m2: Message)
    requires Wire(m2) && ClientStore.IsFor(m1.payload, user) && m2.id == 2
    requires var e := ClientStore.FromWire(m2.payload);
             s.page == ClientStore.Session(Cache(user, [e], [e], 2), {1, 2}, {}, true)
    requires s.posted == map[1 := m1.payload, 2 := m2.payload]
    ensures 1 in s.page.received && 1 <= s.page.client.storedCursor
    ensures 1 !in ClientStore.Ids(s.page.client.snapshot) && 1 !in s.page.pushedOut && !PromiseKept(s)
  {
    BelowCursorIsBroken(s, 1);
  }

  /**
   The exception for the ring is needed. Any first message to everyone may arrive and not be stored,
   be forgotten in a reload, and leave the ring before the browser joins again. Then the next message
   moves the stored cursor past it, though it is neither stored nor pushed out by the cap.
   */
  lemma {:induction false} EvictedMessageIsLost(limits: Limits, user: Text, first: Fields, second: Fields)
    requires Public(first, limits) && Public(second, limits) && Compatible(limits)
    ensures var s := Run(OneSlot(limits, user), Evicts(first, second, user));
            && 1 in s.page.received && 1 <= s.page.client.storedCursor
            && 1 !in ClientStore.Ids(s.page.client.snapshot) && 1 !in s.page.pushedOut
            && 1 in s.excused && !PromiseKept(s)
  {
    var m1, m2 := Published(first, limits, 1), Published(second, limits, 2);
    AfterEviction(limits, user, first, second);
    RunSnoc(OneSlot(limits, user),
            Forgets(first, user) + [Posts(second, Works(0), true)] + [Connects] + [Joins(READS, WRITES, 1, true)],
            Delivers(true, true));
    PublicIsForAll(first, limits, 1, user);
    PublicIsForAll(second, limits, 2, user);
    SecondIsDelivered(OneSlotDevice([m1, m2]), limits, user, m2, map[1 := m1.payload, 2 := m2.payload]);
    FirstIsMissing(Run(OneSlot(limits, user), Evicts(first, second, user)), user, m1, m2);
  }
}
