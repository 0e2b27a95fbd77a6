/**
 When the browser keeps what it received: each message received for the user up to the stored cursor is
 stored, or was pushed out by the cap. Events that are safe keep this promise over every run; after one
 that is not, there is a way to go on, in which nothing else fails, that breaks it.
 */
module KeptMessages {
  import opened ChatTypes
  import opened Json
  import opened ChatProtocol
  import opened EndToEnd
  import opened MessageIdStore
  import opened MessageLog
  import ClientStore
  import DeviceRuns

  /** The received messages that are for a user. */
  ghost function ReceivedFor(s: System, user: Text): set<nat> {
    s.page.received * Addressed(s.posted, user, 0)
  }

  ghost function Received(s: System): set<nat> {
    ReceivedFor(s, s.page.client.userId)
  }

  /** The promise: up to the stored cursor, what was received for the user is stored or was pushed out. */
  ghost predicate PromiseKept(s: System) {
    forall id :: id in Received(s) && id <= s.page.client.storedCursor ==>
                   id in ClientStore.Ids(s.page.client.snapshot) || id in s.page.pushedOut
  }

  // ---- Safe events ----

  /** What was received for the user, and is neither in memory nor pushed out. */
  ghost function Lacking(s: System): set<nat> {
    Received(s) - Memory(s.page, {})
  }

  /** When the browser joins, everything that it lacks is still in the ring or below its cursor. */
  ghost predicate SafeJoin(s: System)
    requires s.link.Opening?
  {
    forall id :: id in Lacking(s) ==> id !in Gone(s.device, s.link.since)
  }

  /** What was received for the user that a new page goes by, and is missing from what that page reads. */
  ghost function Unread(s: System, load: ClientStore.Load): set<nat> {
    ReceivedFor(s, ClientStore.LoadedUser(s.page.client, load))
    - Held(ClientStore.LoadedCache(s.page.client, load), s.page.pushedOut, {})
  }

  /** A new page that misses something has it above both cursors, so the server will send it again. */
  ghost predicate SafeReads(s: System, load: ClientStore.Load) {
    forall id :: id in Unread(s, load) ==>
                   id > s.page.client.storedCursor && id > ClientStore.LoadedCursor(s.page.client, load)
  }

  /** A message for the user that cannot be stored is above the stored cursor, or stored or pushed out already. */
  predicate SafeDelivery(s: System, messagesSaved: bool)
    requires s.link.Up? && s.link.stream != []
  {
    var m := s.link.stream[0];
    || messagesSaved || !ClientStore.Counts(s.page.client, m.payload)
    || m.id > s.page.client.storedCursor
    || m.id in Storage(s.page, {}) + ClientStore.Cut(ClientStore.WithIncoming(s.page.client, m.payload))
  }

  ghost predicate Safe(s: System, e: Event) {
    match e
    case Joins(_, _, _, _) => s.link.Opening? ==> SafeJoin(s)
    case Reloads(load) => SafeReads(s, load)
    case Delivers(messagesSaved, _) => s.link.Up? && s.link.stream != [] ==> SafeDelivery(s, messagesSaved)
    case _ => true
  }

  ghost predicate SafeAt(setup: Setup, events: seq<Event>, k: nat)
    requires setup.start.size > 0 && k < |events|
  {
    Safe(Run(setup, events[..k]), events[k])
  }

  ghost predicate AlwaysSafe(setup: Setup, events: seq<Event>)
    requires setup.start.size > 0
  {
    forall k :: 0 <= k < |events| ==> SafeAt(setup, events, k)
  }

  // ---- Safe events keep the promise ----

  /** What was received is in memory up to both cursors, in storage up to the stored one, or in flight. */
  ghost predicate Keeps(s: System) {
    && Sound(s) && CursorsComplete(s.page, Received(s), {})
    && LinkOk(Received(s), Memory(s.page, {}), s.link, s.page.client.lastSeenId, Committed(s.device.log.cell))
  }

  lemma KeepsIsKept(s: System)
    requires Keeps(s)
    ensures PromiseKept(s)
  {
  }

  lemma NewPostIsNotReceived(s: System, m: Message, s': System)
    requires s.page.received <= s.posted.Keys && m.id !in s.posted
    requires s'.page == s.page && s'.posted == s.posted[m.id := m.payload]
    ensures Received(s') == Received(s)
  {
  }

  lemma PublishKeeps(s: System, d: DeviceRuns.Device, m: Message, sendOk: bool, s': System)
    requires Keeps(s) && Sound(s') && m.id !in s.posted
    requires m.id == Committed(s.device.log.cell) + 1 == Committed(d.log.cell)
    requires s' == s.(device := d, link := Broadcast(s.link, m, sendOk), posted := s.posted[m.id := m.payload])
    ensures Keeps(s')
  {
    NewPostIsNotReceived(s, m, s');
    CursorBelowTop(s);
    PublishKeepsLink(Received(s), Received(s), Memory(s.page, {}), s.link, m, sendOk,
                     s.page.client.lastSeenId, Committed(s.device.log.cell));
  }

  lemma UnpublishedKeeps(s: System, d: DeviceRuns.Device, link: Link, s': System)
    requires Keeps(s) && Sound(s') && Unpublished(s, d, link) && s' == s.(device := d, link := link)
    ensures Keeps(s')
  {
    assert Received(s') == Received(s);
    TopMayRise(Received(s), Memory(s.page, {}), s.link, s.page.client.lastSeenId,
               Committed(s.device.log.cell), Committed(d.log.cell));
  }

  lemma PostKeeps(s: System, root: Fields, env: StoreEnv, sendOk: bool, limits: Limits, s': System)
    requires Keeps(s) && Compatible(limits) && ValidateChat(root, limits).Accept?
    requires s' == Post(s, ValidateChat(root, limits).root, env, sendOk)
    ensures Keeps(s')
  {
    var accepted := ValidateChat(root, limits).root;
    var d, result := DeviceRuns.Step(s.device, DeviceRuns.Stores(accepted, env)), Store(s.device.log, accepted, env).1;
    PostIsSound(s, root, env, sendOk, limits);
    PostShape(s, root, env, limits);
    if result.Stored? {
      PublishKeeps(s, d, result.message, sendOk, s');
    } else {
      UnpublishedKeeps(s, d, s.link, s');
    }
  }

  lemma DeviceKeeps(s: System, e: DeviceRuns.Event, link: Link)
    requires Keeps(s) && !e.Stores?
    requires link == s.link || (s.link.Up? && link == s.link.(live := false))
    ensures Keeps(s.(device := DeviceRuns.Step(s.device, e), link := link))
  {
    var d := DeviceRuns.Step(s.device, e);
    DeviceStepFacts(s.device, s.posted, e);
    UnpublishedIsSound(s, d, link);
    UnpublishedKeeps(s, d, link, s.(device := d, link := link));
  }

  lemma JoinKeeps(s: System, read: ReadFaults, reload: WriteFaults, sends: nat, synced: bool, s': System)
    requires Keeps(s) && s.link.Opening? && SafeJoin(s) && s' == Join(s, read, reload, sends, synced)
    ensures Keeps(s')
  {
    JoinIsSound(s, read, reload, sends, synced, s');
    assert Received(s') == Received(s);
    JoinIsLinkOk(s, read, reload, sends, synced, s', Received(s), Memory(s.page, {}));
  }

  lemma ReceivedAfter(s: System, messagesSaved: bool, cursorSaved: bool, s': System)
    requires Sound(s) && s.link.Up? && s.link.stream != [] && s' == Deliver(s, messagesSaved, cursorSaved)
    ensures s'.page.received == s.page.received + ClientStore.CountedId(s.page.client, s.link.stream[0].payload)
    ensures Received(s') == Received(s) + ClientStore.CountedId(s.page.client, s.link.stream[0].payload)
    ensures s'.page.client.userId == s.page.client.userId
  {
    var m := s.link.stream[0];
    HeadIsPosted(s);
    ReceiveCursors(s.page, m, messagesSaved, cursorSaved);
    ClientStore.ReceiveShape(s.page, m.payload, messagesSaved, cursorSaved);
    var counted := ClientStore.CountedId(s.page.client, m.payload);
    CountedIsForUser(s.posted, s.page.client.userId, m, counted);
    WithCounted(s.page.received, Addressed(s.posted, s.page.client.userId, 0), counted);
  }

  lemma CountedIsForUser(posted: map<nat, Fields>, user: Text, m: Message, counted: set<nat>)
    requires m.id in posted && m.id > 0 && counted == if ClientStore.IsFor(posted[m.id], user) then {m.id} else {}
    ensures counted <= Addressed(posted, user, 0)
  {
  }

  lemma WithCounted(received: set<nat>, addressed: set<nat>, counted: set<nat>)
    requires counted <= addressed
    ensures (received + counted) * addressed == received * addressed + counted
  {
  }

  /** The head of the stream is in flight, so it may be wanted as well. */
  lemma HeadMayBeWanted(wanted: set<nat>, known: set<nat>, stream: seq<Message>, live: bool, lastSeen: nat, top: nat)
    requires stream != [] && LinkOk(wanted, known, Up(stream, live), lastSeen, top)
    ensures LinkOk(wanted + {stream[0].id}, known, Up(stream, live), lastSeen, top)
  {
    assert Carries(stream, stream[0].id);
  }

  lemma FewerWanted(wanted: set<nat>, wanted': set<nat>, known: set<nat>, link: Link, lastSeen: nat, top: nat)
    requires LinkOk(wanted, known, link, lastSeen, top) && wanted' <= wanted
    ensures LinkOk(wanted', known, link, lastSeen, top)
  {
  }

  /** What the head of the stream completes, before the cache is saved. */
  lemma HeadCompletes(s: System, wanted: set<nat>, known: set<nat>)
    requires Keeps(s) && s.link.Up? && s.link.stream != []
    requires var m := s.link.stream[0];
             && wanted == Received(s) + ClientStore.CountedId(s.page.client, m.payload)
             && known == Held(ClientStore.WithIncoming(s.page.client, m.payload), s.page.pushedOut, {})
    ensures Memory(s.page, {}) <= known && Complete(wanted, known, s.link.stream[0].id)
    ensures Complete(wanted, known, s.page.client.lastSeenId) && Complete(wanted, known, s.page.client.storedCursor)
    ensures ClientStore.CountedId(s.page.client, s.link.stream[0].payload) <= known
  {
    var m, p := s.link.stream[0], s.page;
    HeadIsPosted(s);
    NextCompletes(Received(s), Memory(p, {}), Memory(p, {}) + {m.id}, s.link.stream, s.link.live,
                  p.client.lastSeenId, Committed(s.device.log.cell));
    IncomingCompletes(p, m, Received(s), {});
    ClientStore.IncomingIds(p.client, m.payload);
  }

  lemma SafeDeliveryStaysStored(s: System, messagesSaved: bool)
    requires Keeps(s) && s.link.Up? && s.link.stream != [] && SafeDelivery(s, messagesSaved)
    ensures var wanted := Received(s) + ClientStore.CountedId(s.page.client, s.link.stream[0].payload);
            var pushed := ClientStore.Cut(ClientStore.WithIncoming(s.page.client, s.link.stream[0].payload));
            messagesSaved || Complete(wanted, Storage(s.page, {}) + pushed, s.page.client.storedCursor)
  {
    HeadIsPosted(s);
  }

  lemma DeliveryCompletes(s: System, messagesSaved: bool, cursorSaved: bool, s': System)
    requires Keeps(s) && s.link.Up? && s.link.stream != [] && SafeDelivery(s, messagesSaved)
    requires s' == Deliver(s, messagesSaved, cursorSaved)
    ensures CursorsComplete(s'.page, Received(s'), {})
    ensures Memory(s.page, {}) <= Memory(s'.page, {})
    ensures ClientStore.CountedId(s.page.client, s.link.stream[0].payload) <= Memory(s'.page, {})
  {
    var m, p := s.link.stream[0], s.page;
    var all := ClientStore.WithIncoming(p.client, m.payload);
    HeadIsPosted(s);
    ReceivedAfter(s, messagesSaved, cursorSaved, s');
    HeadCompletes(s, Received(s'), Held(all, p.pushedOut, {}));
    SafeDeliveryStaysStored(s, messagesSaved);
    ClientStore.ReceiveShape(p, m.payload, messagesSaved, cursorSaved);
    ReceiveCursors(p, m, messagesSaved, cursorSaved);
    RetainKeepsComplete(all, p.pushedOut, {}, {});
    SaveKeepsCursorsComplete(p, all, s'.page.received, messagesSaved, s'.page, Received(s'), {});
  }

  lemma DeliverKeeps(s: System, messagesSaved: bool, cursorSaved: bool, s': System)
    requires Keeps(s) && s.link.Up? && s.link.stream != [] && SafeDelivery(s, messagesSaved)
    requires s' == Deliver(s, messagesSaved, cursorSaved)
    ensures Keeps(s')
  {
    var m, p, top := s.link.stream[0], s.page, Committed(s.device.log.cell);
    DeliverIsSound(s, messagesSaved, cursorSaved, s');
    DeliveryCompletes(s, messagesSaved, cursorSaved, s');
    HeadIsPosted(s);
    ReceivedAfter(s, messagesSaved, cursorSaved, s');
    ReceiveCursors(p, m, messagesSaved, cursorSaved);
    HeadMayBeWanted(Received(s), Memory(p, {}), s.link.stream, s.link.live, p.client.lastSeenId, top);
    FewerWanted(Received(s) + {m.id}, Received(s'), Memory(p, {}), s.link, p.client.lastSeenId, top);
    DeliverKeepsLink(Received(s'), Memory(p, {}), Memory(s'.page, {}), s.link.stream, s.link.live,
                     p.client.lastSeenId, s'.page.client.lastSeenId, top);
  }

  lemma CutKeeps(s: System, arriving: nat)
    requires Keeps(s)
    ensures Keeps(s.(link := Cut(s.link, arriving)))
  {
    CutIsSound(s, arriving);
    assert Received(s.(link := Cut(s.link, arriving))) == Received(s);
    CutKeepsLink(Received(s), Memory(s.page, {}), s.link, arriving, s.page.client.lastSeenId,
                 Committed(s.device.log.cell));
  }

  lemma ImportKeeps(s: System, e: ClientStore.Event, page: ClientStore.Session)
    requires Keeps(s) && e.Imports? && page == ClientStore.Step(s.page, e)
    ensures Keeps(s.(page := page))
  {
    ImportIsSound(s, e, page);
    if ClientStore.Importable(s.page.client, e.candidate, e.restoreBefore) {
      ImportSavesOnly(s.page, e);
      ImportAddsRestored(s.page, e);
      AdditionKeeps(s, s.page.client.allMessages + [ClientStore.Restored(e.candidate, e.source)], e.saved, page);
    }
  }

  lemma AdditionKeeps(s: System, all: seq<ClientStore.Entry>, saved: bool, page: ClientStore.Session)
    requires Keeps(s) && SavesOnly(s.page, all, saved, page) && AddsRestored(s.page, all) && Sound(s.(page := page))
    ensures Keeps(s.(page := page))
  {
    assert Received(s.(page := page)) == Received(s);
    AdditionKeepsCursorsComplete(s.page, all, saved, page, Received(s), {});
    MoreHeldKeepsLink(Received(s), Memory(s.page, {}), Memory(page, {}), s.link, s.page.client.lastSeenId,
                      Committed(s.device.log.cell));
  }

  /** A safe reload reads all that it must, or finds it above the cursors. */
  lemma SafeReadsComplete(s: System, load: ClientStore.Load, wanted: set<nat>, known: set<nat>)
    requires SafeReads(s, load)
    requires wanted == ReceivedFor(s, ClientStore.LoadedUser(s.page.client, load))
    requires known == Held(ClientStore.LoadedCache(s.page.client, load), s.page.pushedOut, {})
    ensures Complete(wanted, known, s.page.client.storedCursor)
    ensures Complete(wanted, known, ClientStore.LoadedCursor(s.page.client, load))
  {
    forall y | y in wanted && y !in known
      ensures y > s.page.client.storedCursor && y > ClientStore.LoadedCursor(s.page.client, load)
    {
      assert y in Unread(s, load);
    }
  }

  /** What a page can read of the cache is part of storage. */
  lemma ReadIsStored(s: System, load: ClientStore.Load, wanted: set<nat>, bound: nat)
    requires PageOk(s)
    requires Complete(wanted, Held(ClientStore.LoadedCache(s.page.client, load), s.page.pushedOut, {}), bound)
    ensures Complete(wanted, Storage(s.page, {}), bound)
  {
    ClientStore.LoadedIsValid(s.page.client, load);
  }

  lemma ReloadKeeps(s: System, load: ClientStore.Load, s': System)
    requires Keeps(s) && SafeReads(s, load) && s' == Reload(s, load)
    ensures Keeps(s')
  {
    var all, wanted := ClientStore.LoadedCache(s.page.client, load),
                       ReceivedFor(s, ClientStore.LoadedUser(s.page.client, load));
    ReloadIsSound(s, load);
    ClientStore.ReloadShape(s.page, load);
    ClientStore.LoadedCursors(s.page.client, load);
    assert Received(s') == wanted;
    SafeReadsComplete(s, load, wanted, Held(all, s.page.pushedOut, {}));
    ReadIsStored(s, load, wanted, s.page.client.storedCursor);
    SaveKeepsCursorsComplete(s.page, all, s.page.received, load.messagesSaved, s'.page, wanted, {});
  }

  lemma StepKeeps(s: System, e: Event, limits: Limits)
    requires Keeps(s) && Safe(s, e) && Compatible(limits)
    ensures Keeps(Step(s, e, limits))
  {
    var s' := Step(s, e, limits);
    match e {
      case Posts(root, env, sendOk) =>
        if ValidateChat(root, limits).Accept? {
          PostKeeps(s, root, env, sendOk, limits, s');
        }
      case Device(d) =>
        if !d.Stores? {
          DeviceKeeps(s, d, s'.link);
        }
      case Connects =>
      case Joins(read, reload, sends, synced) =>
        if s.link.Opening? {
          JoinKeeps(s, read, reload, sends, synced, s');
        }
      case Delivers(messagesSaved, cursorSaved) =>
        if s.link.Up? && s.link.stream != [] {
          DeliverKeeps(s, messagesSaved, cursorSaved, s');
        }
      case Cuts(arriving) => CutKeeps(s, arriving);
      case Drops =>
      case Imports(candidate, source, restoreBefore, saved) =>
        ImportKeeps(s, ClientStore.Imports(candidate, source, restoreBefore, saved), s'.page);
      case Reloads(load) => ReloadKeeps(s, load, s');
    }
  }

  lemma SafeWhenShorter(setup: Setup, events: seq<Event>, n: nat, k: nat)
    requires setup.start.size > 0 && k < n <= |events| && SafeAt(setup, events, k)
    ensures SafeAt(setup, events[..n], k)
  {
    assert events[..n][..k] == events[..k];
  }

  lemma SafeBefore(setup: Setup, events: seq<Event>)
    requires setup.start.size > 0 && events != [] && AlwaysSafe(setup, events)
    ensures AlwaysSafe(setup, events[..|events| - 1]) && SafeAt(setup, events, |events| - 1)
  {
    var last := |events| - 1;
    var shorter := events[..last];
    forall k | 0 <= k < last ensures SafeAt(setup, shorter, k) {
      SafeWhenShorter(setup, events, last, k);
    }
  }

  lemma {:induction false} SafeRunKeeps(setup: Setup, events: seq<Event>)
    requires setup.start.size > 0 && Compatible(setup.limits) && AlwaysSafe(setup, events)
    ensures Keeps(Run(setup, events))
  {
    if events == [] {
      RunIsValid(setup, events);
    } else {
      var shorter := events[..|events| - 1];
      SafeBefore(setup, events);
      SafeRunKeeps(setup, shorter);
      StepKeeps(Run(setup, shorter), events[|events| - 1], setup.limits);
    }
  }

  /**
   In every run of safe events, whichever reads and writes of storage fail, each message received for the
   user up to the stored cursor is stored or was pushed out by the cap.
   */
  lemma SafeRunIsKept(setup: Setup, events: seq<Event>)
    requires setup.start.size > 0 && Compatible(setup.limits) && AlwaysSafe(setup, events)
    ensures PromiseKept(Run(setup, events))
  {
    SafeRunKeeps(setup, events);
    KeepsIsKept(Run(setup, events));
  }

  // ---- Good loads ----

  /** Every page recalls what it was, and joins only while nothing it lacks has left the ring. */
  ghost predicate CalmAt(setup: Setup, events: seq<Event>, k: nat)
    requires setup.start.size > 0 && k < |events|
  {
    var s, e := Run(setup, events[..k]), events[k];
    (e.Reloads? ==> Recalls(s, e.load)) && (e.Joins? && s.link.Opening? ==> SafeJoin(s))
  }

  ghost predicate AlwaysCalm(setup: Setup, events: seq<Event>)
    requires setup.start.size > 0
  {
    forall k :: 0 <= k < |events| ==> CalmAt(setup, events, k)
  }

  /** Excused ids that were never received. */
  function NeverReceived(s: System): set<nat> {
    s.excused - s.page.received
  }

  ghost predicate Calm(s: System) {
    Sound(s) && s.owedAbove == 0 && Owes(s, NeverReceived(s))
  }

  lemma CalmIsKept(s: System)
    requires Calm(s)
    ensures PromiseKept(s)
  {
    assert Storage(s.page, NeverReceived(s)) - NeverReceived(s) <= Storage(s.page, {});
  }

  lemma CalmJoin(s: System, read: ReadFaults, reload: WriteFaults, sends: nat, synced: bool, s': System)
    requires Calm(s) && s.link.Opening? && SafeJoin(s) && s' == Join(s, read, reload, sends, synced)
    ensures Calm(s')
  {
    var all := MoreExcused(s, read, reload, sends, synced, s');
    var more := all - s.page.received;
    JoinIsSound(s, read, reload, sends, synced, s');
    LackedIsNotGone(s, more);
    JoinOwes(s, read, reload, sends, synced, s', NeverReceived(s), more);
    assert NeverReceived(s') == NeverReceived(s) + more;
  }

  lemma LackedIsNotGone(s: System, more: set<nat>)
    requires s.link.Opening? && SafeJoin(s) && s.owedAbove == 0
    ensures more >= Gone(s.device, s.link.since) - s.page.received ==>
              forall y :: y in Wanted(s) && y in Gone(s.device, s.link.since) ==>
                            y in Memory(s.page, NeverReceived(s)) + more
  {
    forall y | y in Wanted(s) && y in Gone(s.device, s.link.since) && y in s.page.received
      ensures y in Memory(s.page, NeverReceived(s))
    {
      assert y in Received(s) && y !in Lacking(s);
    }
  }

  /** Nothing excused is in flight, so nothing excused is received. */
  lemma DeliveredWasNotExcused(s: System, messagesSaved: bool, cursorSaved: bool)
    requires Sound(s) && s.link.Up? && s.link.stream != []
    ensures NeverReceived(Deliver(s, messagesSaved, cursorSaved)) == NeverReceived(s)
  {
    var s' := Deliver(s, messagesSaved, cursorSaved);
    HeadIsPosted(s);
    assert Carries(s.link.stream, s.link.stream[0].id);
    ReceivedAfter(s, messagesSaved, cursorSaved, s');
  }

  predicate Delivery(s: System, e: Event) {
    e.Delivers? && s.link.Up? && s.link.stream != []
  }

  lemma {:induction false} OnlyDeliveriesAreReceived(s: System, e: Event, limits: Limits)
    requires s.device.log.head < |s.device.log.buffer| && !Delivery(s, e) && !(e.Joins? && s.link.Opening?)
    ensures Step(s, e, limits).page.received == s.page.received && Step(s, e, limits).excused == s.excused
  {
  }

  lemma {:induction false} DeliveryStep(s: System, e: Event, limits: Limits)
    requires s.device.log.head < |s.device.log.buffer| && Delivery(s, e)
    ensures Step(s, e, limits) == Deliver(s, e.messagesSaved, e.cursorSaved)
  {
  }

  lemma {:induction false} ReceivedWasNotExcused(s: System, e: Event, limits: Limits, s': System)
    requires Sound(s) && !(e.Joins? && s.link.Opening?) && s' == Step(s, e, limits)
    ensures NeverReceived(s') == NeverReceived(s)
  {
    if Delivery(s, e) {
      DeliveryStep(s, e, limits);
      DeliveredWasNotExcused(s, e.messagesSaved, e.cursorSaved);
    } else {
      OnlyDeliveriesAreReceived(s, e, limits);
    }
  }

  lemma MarkStays(s: System, e: Event, limits: Limits)
    requires s.device.log.head < |s.device.log.buffer| && (e.Reloads? ==> Recalls(s, e.load))
    ensures Step(s, e, limits).owedAbove == s.owedAbove
  {
  }

  lemma {:induction false} OtherStepIsCalm(s: System, e: Event, limits: Limits, s': System)
    requires Calm(s) && Compatible(limits) && !(e.Joins? && s.link.Opening?)
    requires (e.Reloads? ==> Recalls(s, e.load)) && s' == Step(s, e, limits)
    ensures Calm(s')
  {
    StepIsSound(s, e, limits);
    StepOwes(s, e, limits, NeverReceived(s));
    ReceivedWasNotExcused(s, e, limits, s');
    MarkStays(s, e, limits);
  }

  lemma CalmStep(s: System, e: Event, limits: Limits)
    requires Calm(s) && Compatible(limits)
    requires e.Reloads? ==> Recalls(s, e.load)
    requires e.Joins? && s.link.Opening? ==> SafeJoin(s)
    ensures Calm(Step(s, e, limits))
  {
    if e.Joins? && s.link.Opening? {
      CalmJoin(s, e.read, e.reload, e.sends, e.synced, Step(s, e, limits));
    } else {
      OtherStepIsCalm(s, e, limits, Step(s, e, limits));
    }
  }

  lemma CalmBefore(setup: Setup, events: seq<Event>)
    requires setup.start.size > 0 && events != [] && AlwaysCalm(setup, events)
    ensures AlwaysCalm(setup, events[..|events| - 1]) && CalmAt(setup, events, |events| - 1)
  {
    var last := |events| - 1;
    var shorter := events[..last];
    forall k | 0 <= k < last ensures CalmAt(setup, shorter, k) {
      CalmWhenShorter(setup, events, last, k);
    }
  }

  lemma CalmWhenShorter(setup: Setup, events: seq<Event>, n: nat, k: nat)
    requires setup.start.size > 0 && k < n <= |events| && CalmAt(setup, events, k)
    ensures CalmAt(setup, events[..n], k)
  {
    assert events[..n][..k] == events[..k];
  }

  lemma {:induction false} CalmRun(setup: Setup, events: seq<Event>)
    requires setup.start.size > 0 && Compatible(setup.limits) && AlwaysCalm(setup, events)
    ensures Calm(Run(setup, events))
  {
    if events == [] {
      RunIsValid(setup, events);
      assert NeverReceived(Run(setup, events)) == Run(setup, events).excused;
    } else {
      var shorter := events[..|events| - 1];
      CalmBefore(setup, events);
      CalmRun(setup, shorter);
      CalmStep(Run(setup, shorter), events[|events| - 1], setup.limits);
    }
  }

  /**
   In every run whose joins are safe, and whose pages read the cache and go by the same user id or a new
   one, each message received for the user up to the stored cursor is stored or was pushed out by the cap,
   whichever writes fail and also if the stored cursor cannot be read. Eviction is no excuse here.
   */
  lemma ReceivedIsKept(setup: Setup, events: seq<Event>)
    requires setup.start.size > 0 && Compatible(setup.limits) && AlwaysCalm(setup, events)
    ensures PromiseKept(Run(setup, events))
  {
    CalmRun(setup, events);
    CalmIsKept(Run(setup, events));
  }

  /** Such a page load is safe: a page that reads the cache finds all that it must. */
  lemma RecallIsSafe(s: System, load: ClientStore.Load)
    requires Calm(s) && Recalls(s, load)
    ensures SafeReads(s, load)
  {
    var user, p := ClientStore.LoadedUser(s.page.client, load), s.page;
    if user != p.client.userId {
      NewUserWantsNoMore(s.posted, user, p.client.userId, 0);
    }
    ClientStore.LoadedIsValid(p.client, load);
    LoadedCursorIsStored(p.client, load);
    assert Storage(p, NeverReceived(s)) == Storage(p, {}) + NeverReceived(s);
    forall id | id in Unread(s, load)
      ensures id > p.client.storedCursor && id > ClientStore.LoadedCursor(p.client, load)
    {
      assert id in Wanted(s) && id !in Storage(p, NeverReceived(s));
    }
  }

  // ---- Unsafe events break it ----

  const READS := ReadFaults(true, true, None)
  const WRITES := WriteFaults(true, true, true, true, true)

  function Works(timestamp: int): StoreEnv {
    StoreEnv(READS, WRITES, WRITES, true, timestamp)
  }

  lemma RunSnoc(setup: Setup, events: seq<Event>, e: Event)
    requires setup.start.size > 0
    ensures Run(setup, events + [e]) == Step(Run(setup, events), e, setup.limits)
  {
    assert (events + [e])[..|events|] == events;
  }

  /** The browser connects and joins, a message is posted, and the next one arrives; nothing fails. */
  function GoesOn(size: nat, root: Fields): seq<Event> {
    ReturnsAndPosts(size, root) + [Delivers(true, true)]
  }

  function ReturnsAndPosts(size: nat, root: Fields): seq<Event> {
    [Connects] + [Joins(READS, WRITES, size, true)] + [Posts(root, Works(0), true)]
  }

  /** The server cannot send an id again. */
  predicate OutOfReach(s: System, id: nat) {
    id <= s.page.client.lastSeenId || id in Gone(s.device, s.page.client.lastSeenId)
  }

  /** What a working join brings is above an id that is out of reach. */
  lemma ReplayIsAbove(d: DeviceRuns.Device, since: nat, id: nat)
    requires Refines(d.log, d.base, d.messages) && id <= d.log.counter && (id <= since || id in Gone(d, since))
    ensures var all := Replayed(d.messages, |d.log.buffer|, d.base, since);
            |all| <= |d.log.buffer| && forall i :: 0 <= i < |all| ==> id < all[i].id
  {
    var size := |d.log.buffer|;
    var all := Replayed(d.messages, size, d.base, since);
    ReplayedIsConsecutive(d.messages, size, d.base, since);
    if all != [] && all[0].id <= id {
      assert all[id - all[0].id].id == id;
      assert all[..|all|] == all;
      ReplayedIsInRing(d, since, |all|);
      assert false;
    }
  }

  lemma WorkingFlashLoads(d: DeviceRuns.Device)
    requires DeviceRuns.Sound(d)
    ensures var d' := DeviceRuns.Step(d, DeviceRuns.Ensures(READS, WRITES));
            d'.log.counterValid && DeviceRuns.Sound(d') && Committed(d'.log.cell) == Committed(d.log.cell)
  {
    DeviceRuns.EnsureIsSound(d, READS, WRITES);
  }

  lemma WorkingFlashStores(d: DeviceRuns.Device, root: Fields)
    requires DeviceRuns.Sound(d) && Committed(d.log.cell) < MAX_SAFE_ID
    ensures var result := Store(d.log, root, Works(0)).1;
            result.Stored? && result.message.id == Committed(d.log.cell) + 1
  {
    DeviceRuns.EnsureIsSound(d, READS, WRITES);
    StoreOutcome(d, root, Works(0));
  }

  /** The link carries only ids above the one that is out of reach, and at least one. */
  predicate AllAbove(link: Link, id: nat) {
    link.Up? && forall i :: 0 <= i < |link.stream| ==> id < link.stream[i].id
  }

  lemma WorkingJoin(s: System, id: nat, s': System)
    requires Sound(s) && s.link.Opening? && id in s.posted && OutOfReach(s, id)
    requires s' == Join(s, READS, WRITES, |s.device.log.buffer|, true)
    ensures AllAbove(s'.link, id) && s'.link.live && s'.page == s.page && s'.posted == s.posted
    ensures Committed(s'.device.log.cell) == Committed(s.device.log.cell)
  {
    var d := DeviceRuns.Step(s.device, DeviceRuns.Ensures(READS, WRITES));
    WorkingFlashLoads(s.device);
    DeviceStepFacts(s.device, s.posted, DeviceRuns.Ensures(READS, WRITES));
    RingAfterStep(s.device, DeviceRuns.Ensures(READS, WRITES));
    CounterIsTop(d, s.posted);
    assert Gone(d, s.link.since) == Gone(s.device, s.link.since);
    ReplayIsAbove(d, s.link.since, id);
  }

  lemma WorkingPost(s: System, id: nat, root: Fields, limits: Limits, s': System)
    requires Sound(s) && AllAbove(s.link, id) && s.link.live && id in s.posted
    requires ValidateChat(root, limits).Accept? && Committed(s.device.log.cell) < MAX_SAFE_ID
    requires s' == Post(s, ValidateChat(root, limits).root, Works(0), true)
    ensures AllAbove(s'.link, id) && s'.link.stream != [] && s'.page == s.page
    ensures id in s'.posted && s'.posted[id] == s.posted[id]
  {
    WorkingFlashStores(s.device, ValidateChat(root, limits).root);
  }

  /** The next message takes the stored cursor past an id that is not in memory, and storage with it. */
  lemma WorkingDelivery(s: System, id: nat, s': System)
    requires Sound(s) && AllAbove(s.link, id) && s.link.stream != [] && s' == Deliver(s, true, true)
    requires id in Lacking(s)
    ensures !PromiseKept(s')
  {
    var m, p := s.link.stream[0], s.page;
    var all := ClientStore.WithIncoming(p.client, m.payload);
    HeadIsPosted(s);
    ReceivedAfter(s, true, true, s');
    ClientStore.ReceiveShape(p, m.payload, true, true);
    ClientStore.IncomingIds(p.client, m.payload);
    RetainKeepsComplete(all, p.pushedOut, {}, {});
    assert id !in Held(all, p.pushedOut, {});
    assert id in Received(s') && s'.page.client.storedCursor == m.id;
  }

  lemma LackingStays(s: System, s': System, id: nat)
    requires id in Lacking(s) && s'.page == s.page && id in s.posted && id in s'.posted && s'.posted[id] == s.posted[id]
    ensures id in Lacking(s')
  {
  }

  /** The system before that last delivery. */
  function AboutToDeliver(s: System, size: nat, root: Fields, limits: Limits): System
    requires s.device.log.head < |s.device.log.buffer| && ValidateChat(root, limits).Accept?
  {
    Post(Join(s.(link := Opening(s.page.client.lastSeenId)), READS, WRITES, size, true),
         ValidateChat(root, limits).root, Works(0), true)
  }

  lemma GoingOn(s: System, id: nat, root: Fields, limits: Limits, s': System)
    requires Sound(s) && Compatible(limits) && ValidateChat(root, limits).Accept?
    requires Committed(s.device.log.cell) < MAX_SAFE_ID && id in Lacking(s) && OutOfReach(s, id)
    requires s' == AboutToDeliver(s, |s.device.log.buffer|, root, limits)
    ensures s'.link.Up? && s'.link.stream != [] && !PromiseKept(Deliver(s', true, true))
  {
    var s1 := s.(link := Opening(s.page.client.lastSeenId));
    var s2 := Join(s1, READS, WRITES, |s.device.log.buffer|, true);
    JoinIsSound(s1, READS, WRITES, |s.device.log.buffer|, true, s2);
    WorkingJoin(s1, id, s2);
    PostIsSound(s2, root, Works(0), true, limits);
    WorkingPost(s2, id, root, limits, s');
    LackingStays(s, s', id);
    WorkingDelivery(s', id, Deliver(s', true, true));
  }

  lemma {:induction false} ConnectAfter(setup: Setup, events: seq<Event>)
    requires setup.start.size > 0
    ensures var s := Run(setup, events);
            Run(setup, events + [Connects]) == s.(link := Opening(s.page.client.lastSeenId))
  {
    RunSnoc(setup, events, Connects);
  }

  lemma {:induction false} JoinAfter(setup: Setup, events: seq<Event>, size: nat)
    requires setup.start.size > 0 && Run(setup, events).link.Opening?
    ensures Run(setup, events + [Joins(READS, WRITES, size, true)]) ==
            Join(Run(setup, events), READS, WRITES, size, true)
  {
    RunSnoc(setup, events, Joins(READS, WRITES, size, true));
  }

  lemma {:induction false} PostAfter(setup: Setup, events: seq<Event>, root: Fields)
    requires setup.start.size > 0 && ValidateChat(root, setup.limits).Accept?
    ensures Run(setup, events + [Posts(root, Works(0), true)]) ==
            Post(Run(setup, events), ValidateChat(root, setup.limits).root, Works(0), true)
  {
    RunSnoc(setup, events, Posts(root, Works(0), true));
  }

  lemma {:induction false} BeforeDelivery(setup: Setup, events: seq<Event>, size: nat, root: Fields)
    requires setup.start.size > 0 && ValidateChat(root, setup.limits).Accept?
    ensures Run(setup, events + ReturnsAndPosts(size, root)) ==
            AboutToDeliver(Run(setup, events), size, root, setup.limits)
  {
    assert events + ReturnsAndPosts(size, root) ==
           events + [Connects] + [Joins(READS, WRITES, size, true)] + [Posts(root, Works(0), true)];
    ConnectAfter(setup, events);
    JoinAfter(setup, events + [Connects], size);
    PostAfter(setup, events + [Connects] + [Joins(READS, WRITES, size, true)], root);
  }

  lemma {:induction false} DeliverAfter(setup: Setup, events: seq<Event>, s: System)
    requires setup.start.size > 0 && s == Run(setup, events) && s.link.Up? && s.link.stream != []
    ensures Run(setup, events + [Delivers(true, true)]) == Deliver(s, true, true)
  {
    RunSnoc(setup, events, Delivers(true, true));
  }

  lemma Regroup(a: seq<Event>, b: seq<Event>, e: Event)
    ensures a + (b + [e]) == (a + b) + [e]
  {
  }

  lemma {:induction false} RunGoesOn(setup: Setup, events: seq<Event>, root: Fields, s: System)
    requires setup.start.size > 0 && ValidateChat(root, setup.limits).Accept?
    requires s == AboutToDeliver(Run(setup, events), setup.start.size, root, setup.limits)
    requires s.link.Up? && s.link.stream != []
    ensures Run(setup, events + GoesOn(setup.start.size, root)) == Deliver(s, true, true)
  {
    var before := ReturnsAndPosts(setup.start.size, root);
    BeforeDelivery(setup, events, setup.start.size, root);
    DeliverAfter(setup, events + before, s);
    Regroup(events, before, Delivers(true, true));
  }

  lemma {:induction false} ReloadAfter(setup: Setup, events: seq<Event>, load: ClientStore.Load)
    requires setup.start.size > 0
    ensures Run(setup, events + [Reloads(load)]) == Reload(Run(setup, events), load)
  {
    RunSnoc(setup, events, Reloads(load));
  }

  /**
   If the browser lacks a message that it received and that is out of reach, as after an unsafe join, the
   next message breaks the promise, though nothing else fails. There must be an id left for that message.
   */
  lemma {:induction false} LostForGood(setup: Setup, events: seq<Event>, id: nat, root: Fields)
    requires setup.start.size > 0 && Compatible(setup.limits) && ValidateChat(root, setup.limits).Accept?
    requires Committed(Run(setup, events).device.log.cell) < MAX_SAFE_ID
    requires id in Lacking(Run(setup, events)) && OutOfReach(Run(setup, events), id)
    ensures !PromiseKept(Run(setup, events + GoesOn(setup.start.size, root)))
  {
    var s := Run(setup, events);
    RunIsValid(setup, events);
    SizeStays(setup, events);
    var s' := AboutToDeliver(s, setup.start.size, root, setup.limits);
    GoingOn(s, id, root, setup.limits, s');
    RunGoesOn(setup, events, root, s');
  }

  lemma {:induction false} SizeStays(setup: Setup, events: seq<Event>)
    requires setup.start.size > 0
    ensures |Run(setup, events).device.log.buffer| == setup.start.size
  {
    if events != [] {
      SizeStays(setup, events[..|events| - 1]);
      StepKeepsSize(Run(setup, events[..|events| - 1]), events[|events| - 1], setup.limits);
    }
  }

  lemma StepKeepsSize(s: System, e: Event, limits: Limits)
    requires s.device.log.head < |s.device.log.buffer|
    ensures |Step(s, e, limits).device.log.buffer| == |s.device.log.buffer|
  {
  }

  /** An unsafe join is one of these moments. */
  lemma {:induction false} UnsafeJoinLoses(setup: Setup, events: seq<Event>, root: Fields)
    requires setup.start.size > 0 && Compatible(setup.limits) && ValidateChat(root, setup.limits).Accept?
    requires Committed(Run(setup, events).device.log.cell) < MAX_SAFE_ID
    requires Run(setup, events).link.Opening? && !SafeJoin(Run(setup, events))
    ensures !PromiseKept(Run(setup, events + GoesOn(setup.start.size, root)))
  {
    var s := Run(setup, events);
    RunIsValid(setup, events);
    var id :| id in Lacking(s) && id in Gone(s.device, s.link.since);
    LostForGood(setup, events, id, root);
  }

  /** What a page does not read is not in its memory. */
  lemma UnreadIsLacking(s: System, load: ClientStore.Load, s': System)
    requires s' == Reload(s, load)
    ensures Unread(s, load) <= Lacking(s')
    ensures s'.page.client.lastSeenId == ClientStore.LoadedCursor(s.page.client, load)
    ensures load.messagesSaved && !load.cursorSaved ==>
              && s'.page.client.storedCursor == s.page.client.storedCursor
              && Storage(s'.page, {}) == Memory(s'.page, {})
  {
    var all := ClientStore.LoadedCache(s.page.client, load);
    ClientStore.ReloadShape(s.page, load);
    ClientStore.LoadedCursors(s.page.client, load);
    RetainKeepsComplete(all, s.page.pushedOut, {}, {});
    assert Received(s') == ReceivedFor(s, ClientStore.LoadedUser(s.page.client, load));
  }

  lemma ReloadLoses(s: System, load: ClientStore.Load, s': System) returns (id: nat)
    requires load.messagesSaved && !load.cursorSaved && !SafeReads(s, load) && s' == Reload(s, load)
    ensures PromiseKept(s') ==> id in Lacking(s') && OutOfReach(s', id)
  {
    id :| id in Unread(s, load)
          && (id <= s.page.client.storedCursor || id <= ClientStore.LoadedCursor(s.page.client, load));
    UnreadIsLacking(s, load, s');
  }

  /**
   So is an unsafe reload, unless it breaks the promise at once: with such reads, whatever the user id,
   one outcome of its two writes is enough.
   */
  lemma {:induction false} UnsafeReadsLose(setup: Setup, events: seq<Event>, load: ClientStore.Load, root: Fields)
    requires setup.start.size > 0 && Compatible(setup.limits) && ValidateChat(root, setup.limits).Accept?
    requires Committed(Run(setup, events).device.log.cell) < MAX_SAFE_ID
    requires load.messagesSaved && !load.cursorSaved && !SafeReads(Run(setup, events), load)
    ensures || !PromiseKept(Run(setup, events + [Reloads(load)]))
            || !PromiseKept(Run(setup, events + [Reloads(load)] + GoesOn(setup.start.size, root)))
  {
    ReloadAfter(setup, events, load);
    var id := ReloadLoses(Run(setup, events), load, Reload(Run(setup, events), load));
    if PromiseKept(Run(setup, events + [Reloads(load)])) {
      LostForGood(setup, events + [Reloads(load)], id, root);
    }
  }

  /** An unsafe delivery breaks the promise at once. */
  lemma UnsafeDeliveryLoses(s: System, messagesSaved: bool, cursorSaved: bool)
    requires Sound(s) && s.link.Up? && s.link.stream != [] && !SafeDelivery(s, messagesSaved)
    ensures !PromiseKept(Deliver(s, messagesSaved, cursorSaved))
  {
    var m := s.link.stream[0];
    HeadIsPosted(s);
    ReceivedAfter(s, messagesSaved, cursorSaved, Deliver(s, messagesSaved, cursorSaved));
    ClientStore.ReceiveShape(s.page, m.payload, messagesSaved, cursorSaved);
  }
}
