/**
 The device, its client table and one browser together. The browser's connection is live exactly while
 its slot is joined, and what reaches it is what the handlers send on its descriptor. Every run of this
 system is a run of the end-to-end model, so its guarantees hold here.
 */
module ConnectedSystem {
  import opened ChatTypes
  import opened Json
  import opened SessionTable
  import opened SessionFacts
  import opened SessionSteps
  import opened SessionDelivery
  import opened SessionSends
  import ChatProtocol
  import ClientStore
  import DeviceRuns
  import E = EndToEnd
  import MessageIdStore
  import MessageLog
  import SessionRuns

  /** `fd` is the descriptor of the browser's connection, -1 if it has none. */
  datatype Whole = Whole(world: World, sys: E.System, fd: int)

  datatype Setup = Setup(table: SessionRuns.Setup, end: E.Setup)

  datatype Event =
      // A chat message on any connection.
    | Chats(fd: int, root: Fields, sample: Option<int>, env: MessageLog.StoreEnv, infoAlloc: bool, now: int, later: int)
      // Anything else that happens on the HTTP task, joins on the browser's own connection excepted. How many
      // messages a join of another client replays, and whether they can be sent, is left open.
    | Serves(served: SessionRuns.Event)
      // The browser opens a connection on a new descriptor, and joins on it.
    | Connects(fd: int, now: int)
    | Joins(name: Option<Text>, read: MessageIdStore.ReadFaults, reload: MessageIdStore.WriteFaults,
            allocs: nat -> bool, infoAlloc: bool, sample: Option<int>, now: int, later: int)
      // The browser's own steps, and a break of the connection in the network.
    | Delivers(messagesSaved: bool, cursorSaved: bool)
    | Breaks(arriving: nat)
    | Drops
    | Imports(candidate: Fields, source: ClientStore.Source, restoreBefore: nat, saved: bool)
    | Reloads(load: ClientStore.Load)
      // The counter is loaded for another client; power cuts, also inside a store. The uptime starts anew.
    | Ensures(read: MessageIdStore.ReadFaults, reload: MessageIdStore.WriteFaults)
    | Reboots(d: DeviceRuns.Event, startedAt: int)

  // ---- Steps ----

  /** A user id as the server reads it. */
  function Sender(id: Option<Json>): Option<Text> {
    if ChatProtocol.StringInRange(id, ChatProtocol.MAX_USER_ID_LEN, false) then Some(id.value.s) else None
  }

  /** The table when a chat message reaches its handler, if its sender is who it says. */
  function Identified(w: World, fd: int, from: Option<Text>, sample: Option<int>, now: int, net: Net): (World, bool) {
    var (w1, ready) := Admit(w, fd, now);
    if ready then RequireIdentity(w1, fd, from, sample, net) else (w1, false)
  }

  /** Whether the handler of a stored chat message of `sender`, started in `w`, brings it to a connection. */
  predicate Gets(w: World, sender: int, fd: int, infoAlloc: bool, net: Net) {
    var sent := HandleChat(w, sender, true, infoAlloc, net).sent;
    exists k: nat :: |w.sent| <= k < |sent| && sent[k] == Sent(fd, ChatText) && net(k)
  }

  /** The connection after a step of the HTTP task: what it sent, and whether the slot is still joined. */
  function Relinked(link: E.Link, sent: seq<MessageLog.Message>, world: World, fd: int): E.Link {
    if link.Up? then E.Up(link.stream + sent, MemberOn(world.slots, fd)) else link
  }

  function ChatStep(s: Whole, e: Event, setup: Setup): Whole
    requires e.Chats? && s.sys.device.log.head < |s.sys.device.log.buffer|
  {
    var net, from := setup.table.net, Sender(Get(e.root, "from"));
    var (w, matches) := Identified(s.world, e.fd, from, e.sample, e.now, net);
    var verdict := ChatProtocol.ValidateChat(e.root, setup.end.limits);
    if !matches || verdict.Reject? then
      var world := HandleFrame(s.world, e.fd, Payload(Chat(from, e.sample, false, e.infoAlloc)), e.now, e.later, net);
      s.(world := world, sys := s.sys.(link := Relinked(s.sys.link, [], world, s.fd)))
    else
      var result := MessageLog.Store(s.sys.device.log, verdict.root, e.env).1;
      var frame := Payload(Chat(from, e.sample, result.Stored?, e.infoAlloc));
      var world := HandleFrame(s.world, e.fd, frame, e.now, e.later, net);
      var sent := if result.Stored? && Gets(w, e.fd, s.fd, e.infoAlloc, net) then [result.message] else [];
      s.(world := world,
         sys := s.sys.(device := DeviceRuns.Step(s.sys.device, DeviceRuns.Stores(verdict.root, e.env)),
                       link := Relinked(s.sys.link, sent, world, s.fd),
                       posted := if result.Stored? then s.sys.posted[result.message.id := result.message.payload]
                                 else s.sys.posted))
  }

  /** How many messages of a replay go out. */
  function SentBefore(w: World, fd: int, allocs: seq<bool>, net: Net): (n: nat)
    ensures n <= |allocs|
    decreases |allocs|
  {
    if allocs == [] || !allocs[0] || !net(|w.sent|) then 0
    else 1 + SentBefore(Send(w, fd, ReplayText, net).0, fd, allocs[1..], net)
  }

  /** A join that does not get as far as the counter. */
  predicate Refused(s: Whole, e: Event)
    requires e.Joins?
  {
    Sender(Some(Str(s.sys.page.client.userId))).None? || e.name.None? || !Admit(s.world, s.fd, e.now).1
  }

  function Request(s: Whole, e: Event, idsLoaded: bool, replayed: nat): JoinRequest
    requires e.Joins?
  {
    var user := Sender(Some(Str(s.sys.page.client.userId)));
    JoinRequest(user, e.name, true, idsLoaded, seq(replayed, e.allocs), e.infoAlloc, e.sample)
  }

  function JoinStep(s: Whole, e: Event, setup: Setup): Whole
    requires e.Joins? && s.sys.link.Opening? && s.sys.device.log.head < |s.sys.device.log.buffer|
  {
    var net, since := setup.table.net, s.sys.link.since;
    if Refused(s, e) then
      var world := HandleFrame(s.world, s.fd, Payload(Join(Request(s, e, false, 0))), e.now, e.later, net);
      s.(world := world, sys := s.sys.(link := E.Cut(s.sys.link, 0)))
    else
      var device := DeviceRuns.Step(s.sys.device, DeviceRuns.Ensures(e.read, e.reload));
      var all := MessageLog.Replayed(device.messages, |device.log.buffer|, device.base, since);
      var r := Request(s, e, device.log.counterValid, |all|);
      var world := HandleFrame(s.world, s.fd, Payload(Join(r)), e.now, e.later, net);
      if !device.log.counterValid then
        s.(world := world, sys := s.sys.(device := device, link := E.Cut(s.sys.link, 0)))
      else
        var w := Bound(Admit(s.world, s.fd, e.now).0, s.fd, r.from.value, r.name.value, r.sample, e.later, net);
        var n := SentBefore(w, s.fd, r.replayAllocs, net);
        s.(world := world,
           sys := s.sys.(device := device, link := E.Up(all[..n], MemberOn(world.slots, s.fd)),
                         excused := s.sys.excused + E.Gone(device, since)))
  }

  /** The table after a power cut: empty again, while the sends to come have outcomes of their own. */
  function Rebooted(w: World, table: SessionRuns.Setup, startedAt: int): World {
    SessionRuns.Start(table.(startedAt := startedAt)).(sent := w.sent)
  }

  /** A descriptor whose connection has been closed may be used again, so the browser's is forgotten. */
  function ServeStep(s: Whole, e: SessionRuns.Event, setup: Setup): Whole {
    var world := SessionRuns.Step(s.world, e, setup.table);
    var fd := if e == SessionRuns.Closes(s.fd) then -1 else s.fd;
    Whole(world, s.sys.(link := Relinked(s.sys.link, [], world, fd)), fd)
  }

  function Step(s: Whole, e: Event, setup: Setup): (s': Whole)
    requires s.sys.device.log.head < |s.sys.device.log.buffer|
    ensures s'.sys.device.log.head < |s'.sys.device.log.buffer|
  {
    var limits := setup.end.limits;
    match e
    case Chats(_, _, _, _, _, _, _) => ChatStep(s, e, setup)
    case Serves(served) => ServeStep(s, served, setup)
    case Connects(fd, now) =>
      if AnyOn(s.world.slots, fd) then s
      else if Admit(s.world, fd, now).1
      then Whole(Admit(s.world, fd, now).0, E.Step(s.sys, E.Connects, limits), fd)
      else s.(sys := E.Step(s.sys, E.Drops, limits), fd := -1)
    case Joins(_, _, _, _, _, _, _, _) => if s.sys.link.Opening? && s.fd >= 0 then JoinStep(s, e, setup) else s
    case Delivers(messagesSaved, cursorSaved) =>
      s.(sys := E.Step(s.sys, E.Delivers(messagesSaved, cursorSaved), limits))
    case Breaks(arriving) => s.(sys := E.Step(s.sys, E.Cuts(arriving), limits), fd := -1)
    case Drops => s.(sys := E.Step(s.sys, E.Drops, limits), fd := -1)
    case Imports(candidate, source, restoreBefore, saved) =>
      s.(sys := E.Step(s.sys, E.Imports(candidate, source, restoreBefore, saved), limits))
    case Reloads(load) => s.(sys := E.Step(s.sys, E.Reloads(load), limits), fd := -1)
    case Ensures(read, reload) => s.(sys := E.Step(s.sys, E.Device(DeviceRuns.Ensures(read, reload)), limits))
    case Reboots(d, startedAt) =>
      if d.Reboots? || d.RebootsInStore?
      then Whole(Rebooted(s.world, setup.table, startedAt), E.Step(s.sys, E.Device(d), limits), -1) else s
  }

  function Run(setup: Setup, events: seq<Event>): (s: Whole)
    requires setup.end.start.size > 0
    ensures s.sys.device.log.head < |s.sys.device.log.buffer|
  {
    if events == [] then Whole(SessionRuns.Start(setup.table), E.Start(setup.end), -1)
    else Step(Run(setup, events[..|events| - 1]), events[|events| - 1], setup)
  }

  predicate IsJoin(frame: Frame) {
    frame.Payload? && frame.message.Join?
  }

  predicate StoresChat(frame: Frame) {
    frame.Payload? && frame.message.Chat? && frame.message.stored
  }

  /** Well-formed events, each chat message with its store, and no second join on the browser's connection. */
  predicate GoodEvent(s: Whole, e: Event) {
    match e
    case Chats(fd, _, _, _, _, _, _) => fd >= 0
    case Serves(served) =>
      && SessionRuns.GoodEvent(served)
      && (served.FrameArrives? ==> !StoresChat(served.frame) && (IsJoin(served.frame) ==> served.fd != s.fd))
    case Connects(fd, _) => fd >= 0
    case _ => true
  }

  predicate GoodAt(setup: Setup, events: seq<Event>, k: nat)
    requires setup.end.start.size > 0 && k < |events|
  {
    GoodEvent(Run(setup, events[..k]), events[k])
  }

  predicate GoodRun(setup: Setup, events: seq<Event>)
    requires setup.end.start.size > 0
  {
    forall k :: 0 <= k < |events| ==> GoodAt(setup, events, k)
  }

  // ---- Who becomes a member ----

  /** No connection on `fd` becomes joined. */
  predicate GainsNone(s: seq<Slot>, t: seq<Slot>, fd: int) {
    |s| == |t| && forall i :: 0 <= i < |s| && Member(t[i]) && t[i].fd == fd ==> Member(s[i]) && s[i].fd == fd
  }

  lemma GainsNoMember(s: seq<Slot>, t: seq<Slot>, fd: int)
    requires GainsNone(s, t, fd) && MemberOn(t, fd)
    ensures MemberOn(s, fd)
  {
    var i :| 0 <= i < |t| && Member(t[i]) && t[i].fd == fd;
    assert Member(s[i]) && s[i].fd == fd;
  }

  lemma ClosingGainsNone(s: seq<Slot>, t: seq<Slot>, fd: int)
    requires Shrinks(s, t)
    ensures GainsNone(s, t, fd)
  {
  }

  lemma MessageGainsNone(w: World, fd: int, m: Message, later: int, net: Net)
    requires Good(w) && AnyOpen(w.slots, fd) && GoodMessage(m) && !m.Join?
    ensures GainsNone(w.slots, HandleMessage(w, fd, m, later, net).slots, fd)
  {
    if !m.Untyped? {
      RequireIdentityGood(w, fd, m.from, m.sample, later, net);
      var (w1, ok) := RequireIdentity(w, fd, m.from, m.sample, net);
      SampleTouches(w.slots, fd, m.sample);
      assert GainsNone(w.slots, w1.slots, fd);
      if ok {
        IdentifiedGainsNone(w1, fd, m, net);
      }
    }
  }

  lemma IdentifiedGainsNone(w: World, fd: int, m: Message, net: Net)
    requires Good(w) && !m.Untyped? && !m.Join?
    ensures GainsNone(w.slots, HandleIdentified(w, fd, m, net).slots, fd)
  {
    match m {
      case Pong(_, _) => FirstOpenJoinedFinds(w.slots, |w.slots|, fd);
      case GetOnlineUsers(_, _) =>
      case Chat(_, _, stored, infoAlloc) => ChatGood(w, fd, stored, infoAlloc, net);
      case HistoryRequest(_, _, relayed) => HistoryRequestGood(w, fd, relayed, net);
      case HistoryResponse(_, _, users) => HistoryResponseGood(w, fd, users, net);
      case UnknownType(_, _) =>
    }
  }

  lemma FrameGainsNone(w: World, fd: int, frame: Frame, later: int, net: Net)
    requires Good(w) && AnyOpen(w.slots, fd) && GoodFrame(frame) && !IsJoin(frame)
    ensures GainsNone(w.slots, Dispatch(w, fd, frame, later, net).slots, fd)
  {
    match frame
    case PongFrame(whole) => FirstOpenJoinedFinds(w.slots, |w.slots|, fd);
    case Payload(m) => MessageGainsNone(w, fd, m, later, net);
    case _ => PlainFrameGood(w, fd, frame, later, net);
  }

  lemma AdmitGainsNone(w: World, fd: int, now: int, other: int)
    ensures GainsNone(w.slots, Admit(w, fd, now).0.slots, other)
    ensures GainsNone(Admit(w, fd, now).0.slots, w.slots, other)
  {
    if Admit(w, fd, now).1 {
      AdmitAdmits(w, fd, now);
    }
  }

  lemma GainsTrans(a: seq<Slot>, b: seq<Slot>, c: seq<Slot>, fd: int)
    requires GainsNone(a, b, fd) && GainsNone(b, c, fd)
    ensures GainsNone(a, c, fd)
  {
  }

  /** Nothing on the HTTP task but a join on a connection makes it joined. */
  lemma ServeGainsNone(w: World, e: SessionRuns.Event, setup: SessionRuns.Setup, fd: int)
    requires Good(w) && SessionRuns.GoodEvent(e)
    requires e.FrameArrives? && IsJoin(e.frame) ==> e.fd != fd
    ensures GainsNone(w.slots, SessionRuns.Step(w, e, setup).slots, fd)
  {
    match e
    case Handshakes(other, now) => AdmitGainsNone(w, other, now, fd);
    case FrameArrives(other, frame, now, later) => FrameArrivalGainsNone(w, e, setup, fd);
    case Closes(other) => SessionClosedGood(w, other, setup.net);
    case Sweeps(now) =>
      SweepGood(w, now, setup.h, setup.net);
      JudgedGainsNone(w, now, setup.h, fd);
      ClosingGainsNone(Judged(w, now, setup.h).slots, Sweep(w, now, setup.h, setup.net).slots, fd);
  }

  lemma JudgedGainsNone(w: World, now: int, h: int, fd: int)
    ensures GainsNone(w.slots, Judged(w, now, h).slots, fd)
  {
    forall i | 0 <= i < |w.slots| && Member(Judged(w, now, h).slots[i]) ensures Member(w.slots[i]) {
      JudgeKeeps(w.slots[i], now, now - w.lastSweep > h, h);
    }
    forall i | 0 <= i < |w.slots| ensures Judged(w, now, h).slots[i].fd == w.slots[i].fd {
      JudgeKeeps(w.slots[i], now, now - w.lastSweep > h, h);
    }
  }

  lemma FrameArrivalGainsNone(w: World, e: SessionRuns.Event, setup: SessionRuns.Setup, fd: int)
    requires Good(w) && SessionRuns.GoodEvent(e) && e.FrameArrives? && (IsJoin(e.frame) ==> e.fd != fd)
    ensures GainsNone(w.slots, SessionRuns.Step(w, e, setup).slots, fd)
  {
    var (w1, ready) := Admit(w, e.fd, e.now);
    AdmitGainsNone(w, e.fd, e.now, fd);
    if ready {
      AdmitGood(w, e.fd, e.now);
      var w2 := Dispatch(w1, e.fd, e.frame, e.later, setup.net);
      if e.fd == fd {
        FrameGainsNone(w1, fd, e.frame, e.later, setup.net);
      } else {
        DispatchGood(w1, e.fd, e.frame, e.later, setup.net);
      }
      GainsTrans(w.slots, w1.slots, w2.slots, fd);
    }
  }

  // ---- The end-to-end model simulates every step ----

  /** The connection is live exactly while its slot is joined. */
  predicate Linked(s: Whole) {
    && Good(s.world)
    && (s.sys.link.Up? ==> s.sys.link.live == MemberOn(s.world.slots, s.fd))
    && (s.sys.link.Opening? ==> !MemberOn(s.world.slots, s.fd))
  }

  function Steps(s: E.System, events: seq<E.Event>, limits: ChatProtocol.Limits): (s': E.System)
    requires s.device.log.head < |s.device.log.buffer|
    ensures s'.device.log.head < |s'.device.log.buffer|
  {
    if events == [] then s else E.Step(Steps(s, events[..|events| - 1], limits), events[|events| - 1], limits)
  }

  lemma NoDescriptor(slots: seq<Slot>)
    requires TableOk(slots)
    ensures !MemberOn(slots, -1)
  {
  }

  lemma OneStep(s: E.System, e: E.Event, limits: ChatProtocol.Limits)
    requires s.device.log.head < |s.device.log.buffer|
    ensures Steps(s, [e], limits) == E.Step(s, e, limits)
  {
    assert [e][..0] == [];
  }

  lemma OneMoreStep(s: E.System, events: seq<E.Event>, e: E.Event, limits: ChatProtocol.Limits)
    requires s.device.log.head < |s.device.log.buffer|
    ensures Steps(s, events + [e], limits) == E.Step(Steps(s, events, limits), e, limits)
  {
    assert (events + [e])[..|events|] == events;
  }

  /** A connection that stops being joined is cut after what is in flight. */
  lemma RelinkSimulates(s: E.System, start: E.System, before: seq<E.Event>, live: bool, limits: ChatProtocol.Limits)
    returns (after: seq<E.Event>)
    requires start.device.log.head < |start.device.log.buffer|
    requires Steps(start, before, limits) == s && s.link.Up? && (live ==> s.link.live)
    ensures Steps(start, after, limits) == s.(link := E.Up(s.link.stream, live))
  {
    if live == s.link.live {
      after := before;
    } else {
      after := before + [E.Cuts(|s.link.stream|)];
      OneMoreStep(start, before, E.Cuts(|s.link.stream|), limits);
      assert s.link.stream[..|s.link.stream|] == s.link.stream;
    }
  }

  /** Serving anything else changes the model's connection at most by cutting it. */
  lemma ServedSimulates(s: Whole, world: World, fd: int, limits: ChatProtocol.Limits) returns (abs: seq<E.Event>)
    requires Linked(s) && Good(world) && s.sys.device.log.head < |s.sys.device.log.buffer|
    requires MemberOn(world.slots, fd) ==> MemberOn(s.world.slots, s.fd)
    ensures var s' := Whole(world, s.sys.(link := Relinked(s.sys.link, [], world, fd)), fd);
            Steps(s.sys, abs, limits) == s'.sys && Linked(s')
  {
    abs := [];
    if s.sys.link.Up? {
      assert s.sys.link.stream + [] == s.sys.link.stream;
      abs := RelinkSimulates(s.sys, s.sys, [], MemberOn(world.slots, fd), limits);
    }
  }

  lemma ServeSimulates(s: Whole, e: SessionRuns.Event, setup: Setup) returns (abs: seq<E.Event>)
    requires Linked(s) && GoodEvent(s, Serves(e)) && s.sys.device.log.head < |s.sys.device.log.buffer|
    ensures Steps(s.sys, abs, setup.end.limits) == ServeStep(s, e, setup).sys && Linked(ServeStep(s, e, setup))
  {
    var world := SessionRuns.Step(s.world, e, setup.table);
    var fd := if e == SessionRuns.Closes(s.fd) then -1 else s.fd;
    SessionRuns.StepIsGood(s.world, e, setup.table);
    if MemberOn(world.slots, fd) {
      NoDescriptor(world.slots);
      ServeGainsNone(s.world, e, setup.table, s.fd);
      GainsNoMember(s.world.slots, world.slots, s.fd);
    }
    abs := ServedSimulates(s, world, fd, setup.end.limits);
  }

  // ---- Chat messages ----

  /** The table that a message of an identified sender finds has the members of before. */
  lemma IdentifiedKeepsMembers(w: World, fd: int, from: Option<Text>, sample: Option<int>, now: int, net: Net,
                               other: int)
    requires Good(w) && fd >= 0 && Identified(w, fd, from, sample, now, net).1
    ensures Good(Identified(w, fd, from, sample, now, net).0)
    ensures MemberOn(Identified(w, fd, from, sample, now, net).0.slots, other) <==> MemberOn(w.slots, other)
  {
    var w1, w2 := Admit(w, fd, now).0, Identified(w, fd, from, sample, now, net).0;
    AdmitGood(w, fd, now);
    AdmitGainsNone(w, fd, now, other);
    RequireIdentityGood(w1, fd, from, sample, now, net);
    SampleTouches(w1.slots, fd, sample);
    assert GainsNone(w1.slots, w2.slots, other) && GainsNone(w2.slots, w1.slots, other);
    GainsTrans(w.slots, w1.slots, w2.slots, other);
    GainsTrans(w2.slots, w1.slots, w.slots, other);
    if MemberOn(w.slots, other) {
      GainsNoMember(w2.slots, w.slots, other);
    }
    if MemberOn(w2.slots, other) {
      GainsNoMember(w.slots, w2.slots, other);
    }
  }

  /** Whom a chat broadcast does not reach is not joined afterwards. */
  lemma UnreachedIsNotMember(w: World, sender: int, fd: int, infoAlloc: bool, net: Net)
    requires Good(w) && !Gets(w, sender, fd, infoAlloc, net) && MemberOn(w.slots, fd)
    ensures !MemberOn(HandleChat(w, sender, true, infoAlloc, net).slots, fd)
  {
    MemberFdsMeaning(w.slots, fd);
    var k :| 0 <= k < |MemberFds(w.slots)| && MemberFds(w.slots)[k] == fd;
    ChatIsSentInOrder(w, sender, infoAlloc, net, k);
    ChatReachesEveryMember(w, sender, infoAlloc, net, k);
    assert Fails(w, net, k);
  }

  lemma OnlyMembersGet(w: World, sender: int, fd: int, infoAlloc: bool, net: Net)
    requires Good(w) && Gets(w, sender, fd, infoAlloc, net)
    ensures MemberOn(w.slots, fd)
  {
    ChatGoesToJoined(w, sender, infoAlloc, net);
    var w' := HandleChat(w, sender, true, infoAlloc, net);
    var k: nat :| |w.sent| <= k < |w'.sent| && w'.sent[k] == Sent(fd, ChatText) && net(k);
    assert New(w, w', k);
    var i :| 0 <= i < |w.slots| && i in Joined(w.slots) && w.slots[i].fd == fd;
    assert Member(w.slots[i]);
  }

  /** The table after a chat message. */
  lemma ChatWorld(s: Whole, e: Event, stored: bool, setup: Setup)
    requires Linked(s) && e.Chats? && e.fd >= 0
    ensures var from := Sender(Get(e.root, "from"));
            var frame := Payload(Chat(from, e.sample, stored, e.infoAlloc));
            var world := HandleFrame(s.world, e.fd, frame, e.now, e.later, setup.table.net);
            && Good(world) && (MemberOn(world.slots, s.fd) ==> MemberOn(s.world.slots, s.fd))
  {
    var from := Sender(Get(e.root, "from"));
    var served := SessionRuns.FrameArrives(e.fd, Payload(Chat(from, e.sample, stored, e.infoAlloc)), e.now, e.later);
    SessionRuns.StepIsGood(s.world, served, setup.table);
    ServeGainsNone(s.world, served, setup.table, s.fd);
    if MemberOn(SessionRuns.Step(s.world, served, setup.table).slots, s.fd) {
      GainsNoMember(s.world.slots, SessionRuns.Step(s.world, served, setup.table).slots, s.fd);
    }
  }

  /** The browser gets the message, or its connection is closed, or was not live. */
  lemma BroadcastOnLink(s: Whole, w: World, sender: int, m: MessageLog.Message, infoAlloc: bool, net: Net)
    requires Linked(s) && Good(w) && (MemberOn(w.slots, s.fd) <==> MemberOn(s.world.slots, s.fd))
    ensures var world, gets := HandleChat(w, sender, true, infoAlloc, net), Gets(w, sender, s.fd, infoAlloc, net);
            var link := E.Broadcast(s.sys.link, m, gets);
            s.sys.link.Up? && (MemberOn(world.slots, s.fd) ==> MemberOn(s.world.slots, s.fd)) ==>
              && link == E.Up(s.sys.link.stream + (if gets then [m] else []), link.live)
              && (MemberOn(world.slots, s.fd) ==> link.live)
  {
    if s.sys.link.Up? {
      assert s.sys.link.stream + [] == s.sys.link.stream;
      if Gets(w, sender, s.fd, infoAlloc, net) {
        OnlyMembersGet(w, sender, s.fd, infoAlloc, net);
      } else if MemberOn(w.slots, s.fd) {
        UnreachedIsNotMember(w, sender, s.fd, infoAlloc, net);
      }
    }
  }

  predicate PostsIt(s: Whole, e: Event, setup: Setup)
    requires e.Chats?
  {
    Identified(s.world, e.fd, Sender(Get(e.root, "from")), e.sample, e.now, setup.table.net).1 &&
    ChatProtocol.ValidateChat(e.root, setup.end.limits).Accept?
  }

  lemma ChatSimulates(s: Whole, e: Event, setup: Setup) returns (abs: seq<E.Event>)
    requires Linked(s) && e.Chats? && e.fd >= 0 && s.sys.device.log.head < |s.sys.device.log.buffer|
    ensures Steps(s.sys, abs, setup.end.limits) == ChatStep(s, e, setup).sys && Linked(ChatStep(s, e, setup))
  {
    var s' := ChatStep(s, e, setup);
    if PostsIt(s, e, setup) {
      abs := PostSimulates(s, e, setup);
    } else {
      ChatWorld(s, e, false, setup);
      abs := ServedSimulates(s, s'.world, s.fd, setup.end.limits);
    }
  }

  /** The message of an identified sender is handled in the table that the identity check leaves. */
  lemma ChatIsHandled(w: World, fd: int, from: Option<Text>, sample: Option<int>, stored: bool, infoAlloc: bool,
                      now: int, later: int, net: Net)
    requires Identified(w, fd, from, sample, now, net).1
    ensures HandleFrame(w, fd, Payload(Chat(from, sample, stored, infoAlloc)), now, later, net)
         == HandleChat(Identified(w, fd, from, sample, now, net).0, fd, stored, infoAlloc, net)
  {
  }

  /** The post of the end-to-end model that a stored or failed chat message is. */
  function PostOf(s: Whole, e: Event, net: Net): E.Event
    requires e.Chats?
  {
    var w := Identified(s.world, e.fd, Sender(Get(e.root, "from")), e.sample, e.now, net).0;
    E.Posts(e.root, e.env, Gets(w, e.fd, s.fd, e.infoAlloc, net))
  }

  function ResultOf(s: Whole, e: Event, limits: ChatProtocol.Limits): MessageLog.StoreResult
    requires e.Chats? && ChatProtocol.ValidateChat(e.root, limits).Accept?
    requires s.sys.device.log.head < |s.sys.device.log.buffer|
  {
    MessageLog.Store(s.sys.device.log, ChatProtocol.ValidateChat(e.root, limits).root, e.env).1
  }

  /** Apart from the connection, the message has the effect of that post. */
  lemma PostIsTheSame(s: Whole, e: Event, setup: Setup)
    requires e.Chats? && s.sys.device.log.head < |s.sys.device.log.buffer| && PostsIt(s, e, setup)
    ensures var limits, s' := setup.end.limits, ChatStep(s, e, setup);
            var post, result := PostOf(s, e, setup.table.net), ResultOf(s, e, limits);
            var posted := E.Step(s.sys, post, limits);
            && s'.sys == posted.(link := s'.sys.link)
            && posted.link == if result.Stored?
                              then E.Broadcast(s.sys.link, result.message, post.sendOk)
                              else s.sys.link
  {
  }

  /** What it does to the connection is that post's effect, and perhaps its end. */
  lemma PostedLink(s: Whole, e: Event, setup: Setup, posted: E.System)
    requires Linked(s) && e.Chats? && e.fd >= 0 && s.sys.device.log.head < |s.sys.device.log.buffer|
    requires PostsIt(s, e, setup) && s.sys.link.Up?
    requires posted.link == var result := ResultOf(s, e, setup.end.limits);
                            if result.Stored?
                            then E.Broadcast(s.sys.link, result.message, PostOf(s, e, setup.table.net).sendOk)
                            else s.sys.link
    ensures var s' := ChatStep(s, e, setup);
            var joined := MemberOn(s'.world.slots, s.fd);
            posted.link.Up? && s'.sys.link == E.Up(posted.link.stream, joined) && (joined ==> posted.link.live)
  {
    var net, from := setup.table.net, Sender(Get(e.root, "from"));
    var w := Identified(s.world, e.fd, from, e.sample, e.now, net).0;
    var result := ResultOf(s, e, setup.end.limits);
    ChatWorld(s, e, result.Stored?, setup);
    if result.Stored? {
      IdentifiedKeepsMembers(s.world, e.fd, from, e.sample, e.now, net, s.fd);
      ChatIsHandled(s.world, e.fd, from, e.sample, true, e.infoAlloc, e.now, e.later, net);
      BroadcastOnLink(s, w, e.fd, result.message, e.infoAlloc, net);
    } else {
      assert s.sys.link.stream + [] == s.sys.link.stream;
    }
  }

  lemma PostSimulates(s: Whole, e: Event, setup: Setup) returns (abs: seq<E.Event>)
    requires Linked(s) && e.Chats? && e.fd >= 0 && s.sys.device.log.head < |s.sys.device.log.buffer|
    requires PostsIt(s, e, setup)
    ensures Steps(s.sys, abs, setup.end.limits) == ChatStep(s, e, setup).sys && Linked(ChatStep(s, e, setup))
  {
    var limits, s' := setup.end.limits, ChatStep(s, e, setup);
    var post := PostOf(s, e, setup.table.net);
    var posted := E.Step(s.sys, post, limits);
    OneStep(s.sys, post, limits);
    PostIsTheSame(s, e, setup);
    ChatWorld(s, e, ResultOf(s, e, limits).Stored?, setup);
    abs := [post];
    if s.sys.link.Up? {
      PostedLink(s, e, setup, posted);
      abs := RelinkSimulates(posted, s.sys, [post], MemberOn(s'.world.slots, s.fd), limits);
    }
  }

  // ---- Joins ----

  lemma {:induction false} WholeReplayIsSent(w: World, fd: int, allocs: seq<bool>, net: Net)
    requires forall k :: 0 <= k < |allocs| ==> allocs[k] && !Fails(w, net, k)
    ensures SentBefore(w, fd, allocs, net) == |allocs|
    decreases |allocs|
  {
    if allocs != [] {
      var next := Send(w, fd, ReplayText, net).0;
      assert !Fails(w, net, 0);
      forall k | 0 <= k < |allocs[1..]| ensures allocs[1..][k] && !Fails(next, net, k) {
        assert allocs[k + 1] && !Fails(w, net, k + 1);
      }
      WholeReplayIsSent(next, fd, allocs[1..], net);
    }
  }

  /** A connection that has not joined has no identity yet. */
  lemma NotJoinedIsNoMismatch(slots: seq<Slot>, fd: int, user: Option<Text>)
    requires !MemberOn(slots, fd)
    ensures CheckIdentity(slots, fd, user).NotJoined?
  {
    FirstOpenFinds(slots, |slots|, fd);
    var i := FirstOpen(slots, |slots|, fd);
    if 0 <= i < |slots| {
      assert !Member(slots[i]);
    }
  }

  lemma SenderIsNotEmpty(id: Option<Json>)
    ensures Sender(id).Some? ==> Sender(id).value != []
  {
    if Sender(id).Some? {
      ChatProtocol.ByteLengthZero(id.value.s);
    }
  }

  /** The table after a join of the browser; if it is refused, the connection is not joined. */
  lemma JoinWorld(s: Whole, r: JoinRequest, now: int, later: int, setup: Setup)
    requires Linked(s) && s.sys.link.Opening? && s.fd >= 0 && (r.from.Some? ==> r.from.value != [])
    ensures var world := HandleFrame(s.world, s.fd, Payload(Join(r)), now, later, setup.table.net);
            && Good(world)
            && (!Admit(s.world, s.fd, now).1 || JoinRefused(Admit(s.world, s.fd, now).0, s.fd, r) ==>
                  !MemberOn(world.slots, s.fd))
  {
    var served := SessionRuns.FrameArrives(s.fd, Payload(Join(r)), now, later);
    SessionRuns.StepIsGood(s.world, served, setup.table);
    var (w1, ready) := Admit(s.world, s.fd, now);
    AdmitGainsNone(s.world, s.fd, now, s.fd);
    if MemberOn(w1.slots, s.fd) {
      GainsNoMember(s.world.slots, w1.slots, s.fd);
    }
    if ready && JoinRefused(w1, s.fd, r) {
      var world := SendErrorAndClose(w1, s.fd, setup.table.net);
      ClosingGainsNone(w1.slots, world.slots, s.fd);
      if MemberOn(world.slots, s.fd) {
        GainsNoMember(w1.slots, world.slots, s.fd);
      }
    }
  }

  lemma JoinSimulates(s: Whole, e: Event, setup: Setup) returns (abs: seq<E.Event>)
    requires Linked(s) && e.Joins? && s.sys.link.Opening? && s.fd >= 0
    requires s.sys.device.log.head < |s.sys.device.log.buffer|
    ensures Steps(s.sys, abs, setup.end.limits) == JoinStep(s, e, setup).sys && Linked(JoinStep(s, e, setup))
  {
    SenderIsNotEmpty(Some(Str(s.sys.page.client.userId)));
    if Refused(s, e) {
      JoinWorld(s, Request(s, e, false, 0), e.now, e.later, setup);
      abs := [E.Cuts(0)];
      OneStep(s.sys, E.Cuts(0), setup.end.limits);
    } else {
      abs := AcceptedJoinSimulates(s, e, setup);
    }
  }

  /** What a join sends before it fails, if it fails. */
  lemma JoinedIsSynchronized(s: Whole, e: Event, r: JoinRequest, setup: Setup)
    requires Linked(s) && e.Joins? && s.sys.link.Opening? && s.fd >= 0 && !Refused(s, e) && r.idsLoaded
    requires r == Request(s, e, true, |r.replayAllocs|) && r.from.Some? && r.from.value != []
    ensures var w1 := Admit(s.world, s.fd, e.now).0;
            var w := Bound(w1, s.fd, r.from.value, r.name.value, r.sample, e.later, setup.table.net);
            var world := HandleFrame(s.world, s.fd, Payload(Join(r)), e.now, e.later, setup.table.net);
            MemberOn(world.slots, s.fd) ==> SentBefore(w, s.fd, r.replayAllocs, setup.table.net) == |r.replayAllocs|
  {
    var w1 := Admit(s.world, s.fd, e.now).0;
    var w := Bound(w1, s.fd, r.from.value, r.name.value, r.sample, e.later, setup.table.net);
    AdmitGood(s.world, s.fd, e.now);
    AdmitGainsNone(s.world, s.fd, e.now, s.fd);
    if MemberOn(w1.slots, s.fd) {
      GainsNoMember(s.world.slots, w1.slots, s.fd);
    }
    NotJoinedIsNoMismatch(w1.slots, s.fd, r.from);
    if MemberOn(HandleJoin(w1, s.fd, r, e.later, setup.table.net).slots, s.fd) {
      JoinedMeansReplayed(w1, s.fd, r, e.later, setup.table.net);
      WholeReplayIsSent(w, s.fd, r.replayAllocs, setup.table.net);
    }
  }

  lemma AcceptedJoinSimulates(s: Whole, e: Event, setup: Setup) returns (abs: seq<E.Event>)
    requires Linked(s) && e.Joins? && s.sys.link.Opening? && s.fd >= 0 && !Refused(s, e)
    requires s.sys.device.log.head < |s.sys.device.log.buffer|
    ensures Steps(s.sys, abs, setup.end.limits) == JoinStep(s, e, setup).sys && Linked(JoinStep(s, e, setup))
  {
    var limits := setup.end.limits;
    SenderIsNotEmpty(Some(Str(s.sys.page.client.userId)));
    var device := DeviceRuns.Step(s.sys.device, DeviceRuns.Ensures(e.read, e.reload));
    var all := MessageLog.Replayed(device.messages, |device.log.buffer|, device.base, s.sys.link.since);
    var r := Request(s, e, device.log.counterValid, |all|);
    JoinWorld(s, r, e.now, e.later, setup);
    var s' := JoinStep(s, e, setup);
    if device.log.counterValid {
      JoinedIsSynchronized(s, e, r, setup);
      var w1, net := Admit(s.world, s.fd, e.now).0, setup.table.net;
      var w := Bound(w1, s.fd, r.from.value, r.name.value, r.sample, e.later, net);
      var n := SentBefore(w, s.fd, r.replayAllocs, net);
      abs := [E.Joins(e.read, e.reload, n, MemberOn(s'.world.slots, s.fd))];
    } else {
      abs := [E.Joins(e.read, e.reload, 0, true)];
    }
    OneStep(s.sys, abs[0], limits);
  }

  // ---- Every step, and every run ----

  lemma ConnectSimulates(s: Whole, e: Event, setup: Setup) returns (abs: seq<E.Event>)
    requires Linked(s) && e.Connects? && e.fd >= 0 && s.sys.device.log.head < |s.sys.device.log.buffer|
    ensures Steps(s.sys, abs, setup.end.limits) == Step(s, e, setup).sys && Linked(Step(s, e, setup))
  {
    if AnyOn(s.world.slots, e.fd) {
      abs := [];
    } else {
      if Admit(s.world, e.fd, e.now).1 {
        AdmitGood(s.world, e.fd, e.now);
        AdmitGainsNone(s.world, e.fd, e.now, e.fd);
        if MemberOn(Admit(s.world, e.fd, e.now).0.slots, e.fd) {
          GainsNoMember(s.world.slots, Admit(s.world, e.fd, e.now).0.slots, e.fd);
          MemberIsOn(s.world.slots, e.fd);
        }
        abs := [E.Connects];
      } else {
        abs := [E.Drops];
      }
      OneStep(s.sys, abs[0], setup.end.limits);
    }
  }

  lemma MemberIsOn(slots: seq<Slot>, fd: int)
    requires MemberOn(slots, fd)
    ensures AnyOn(slots, fd)
  {
    var i :| 0 <= i < |slots| && Member(slots[i]) && slots[i].fd == fd;
    assert On(slots[i], fd);
  }

  /** The browser's own steps are those of the end-to-end model. */
  function Local(e: Event): E.Event
    requires e.Delivers? || e.Breaks? || e.Drops? || e.Imports? || e.Reloads? || e.Ensures? || e.Reboots?
  {
    match e
    case Delivers(messagesSaved, cursorSaved) => E.Delivers(messagesSaved, cursorSaved)
    case Breaks(arriving) => E.Cuts(arriving)
    case Drops => E.Drops
    case Imports(candidate, source, restoreBefore, saved) => E.Imports(candidate, source, restoreBefore, saved)
    case Reloads(load) => E.Reloads(load)
    case Ensures(read, reload) => E.Device(DeviceRuns.Ensures(read, reload))
    case Reboots(d, _) => E.Device(d)
  }

  lemma LocalSimulates(s: Whole, e: Event, setup: Setup) returns (abs: seq<E.Event>)
    requires Linked(s) && s.sys.device.log.head < |s.sys.device.log.buffer|
    requires e.Delivers? || e.Breaks? || e.Drops? || e.Imports? || e.Reloads? || e.Ensures? || e.Reboots?
    ensures Steps(s.sys, abs, setup.end.limits) == Step(s, e, setup).sys && Linked(Step(s, e, setup))
  {
    NoDescriptor(s.world.slots);
    SessionRuns.RunIsGood(setup.table, []);
    NoDescriptor(SessionRuns.Start(setup.table).slots);
    if e.Reboots? && !e.d.Reboots? && !e.d.RebootsInStore? {
      abs := [];
    } else {
      abs := [Local(e)];
      OneStep(s.sys, Local(e), setup.end.limits);
    }
  }

  lemma StepSimulates(s: Whole, e: Event, setup: Setup) returns (abs: seq<E.Event>)
    requires Linked(s) && GoodEvent(s, e) && s.sys.device.log.head < |s.sys.device.log.buffer|
    ensures Steps(s.sys, abs, setup.end.limits) == Step(s, e, setup).sys && Linked(Step(s, e, setup))
  {
    match e {
      case Chats(_, _, _, _, _, _, _) => abs := ChatSimulates(s, e, setup);
      case Serves(served) => abs := ServeSimulates(s, served, setup);
      case Connects(_, _) => abs := ConnectSimulates(s, e, setup);
      case Joins(_, _, _, _, _, _, _, _) =>
        if s.sys.link.Opening? && s.fd >= 0 {
          abs := JoinSimulates(s, e, setup);
        } else {
          abs := [];
        }
      case _ => abs := LocalSimulates(s, e, setup);
    }
  }

  lemma {:induction false} RunThenSteps(setup: E.Setup, before: seq<E.Event>, more: seq<E.Event>)
    requires setup.start.size > 0
    ensures E.Run(setup, before + more) == Steps(E.Run(setup, before), more, setup.limits)
  {
    if more == [] {
      assert before + more == before;
    } else {
      var last := |more| - 1;
      RunThenSteps(setup, before, more[..last]);
      assert (before + more)[..|before + more| - 1] == before + more[..last];
    }
  }

  lemma GoodBefore(setup: Setup, events: seq<Event>)
    requires setup.end.start.size > 0 && events != [] && GoodRun(setup, events)
    ensures GoodRun(setup, events[..|events| - 1]) && GoodAt(setup, events, |events| - 1)
  {
    var last := |events| - 1;
    var shorter := events[..last];
    forall k | 0 <= k < last ensures GoodAt(setup, shorter, k) {
      GoodWhenShorter(setup, events, last, k);
    }
  }

  lemma GoodWhenShorter(setup: Setup, events: seq<Event>, n: nat, k: nat)
    requires setup.end.start.size > 0 && k < n <= |events| && GoodAt(setup, events, k)
    ensures GoodAt(setup, events[..n], k)
  {
    assert events[..n][..k] == events[..k];
  }

  /** Every run of the whole system is a run of the end-to-end model. */
  lemma {:induction false} RunSimulates(setup: Setup, events: seq<Event>) returns (abs: seq<E.Event>)
    requires setup.end.start.size > 0 && GoodRun(setup, events)
    ensures E.Run(setup.end, abs) == Run(setup, events).sys && Linked(Run(setup, events))
  {
    if events == [] {
      abs := [];
      SessionRuns.RunIsGood(setup.table, []);
    } else {
      var shorter := events[..|events| - 1];
      GoodBefore(setup, events);
      var before := RunSimulates(setup, shorter);
      var more := StepSimulates(Run(setup, shorter), events[|events| - 1], setup);
      RunThenSteps(setup.end, before, more);
      abs := before + more;
    }
  }

  /**
   The guarantees of the end-to-end model, with the connection's fate decided by the client table: in
   every run of posts, joins, sweeps, session replacements, failed sends, power cuts, reloads and failed
   writes, each id assigned up to the replay cursor was received, or had left the ring at a join below
   it; and each message for the user up to the stored cursor is stored, pushed out by the cap, or had
   left the ring so. A joined connection with nothing in flight has everything there is.
   */
  lemma NothingIsMissed(setup: Setup, events: seq<Event>)
    requires setup.end.start.size > 0 && E.Compatible(setup.end.limits) && GoodRun(setup, events)
    ensures var s := Run(setup, events).sys;
            && (forall id :: id in s.device.published && id <= s.page.client.lastSeenId ==>
                               id in s.delivered || id in s.excused)
            && (forall id :: id in s.posted && s.owedAbove < id <= s.page.client.storedCursor
                             && ClientStore.IsFor(s.posted[id], s.page.client.userId) ==>
                               || id in ClientStore.Ids(s.page.client.snapshot)
                               || id in s.page.pushedOut || id in s.excused)
    ensures var s := Run(setup, events);
            s.sys.link.Up? && s.sys.link.stream == [] && MemberOn(s.world.slots, s.fd) ==>
              forall id :: id in s.sys.device.published ==> id in s.sys.delivered || id in s.sys.excused
  {
    var abs := RunSimulates(setup, events);
    E.NoMessageIsSkipped(setup.end, abs);
    E.StoredCursorIsHonest(setup.end, abs);
    var s := Run(setup, events);
    if s.sys.link.Up? && s.sys.link.stream == [] && MemberOn(s.world.slots, s.fd) {
      E.CaughtUp(setup.end, abs);
    }
  }
}
